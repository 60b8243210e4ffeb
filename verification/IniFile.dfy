/**
  Writing a dictionary as an ini file and loading it again.  A file is a string; a
  dictionary is the slots of module DictSlots, in whose order it is written.
*/
module IniFile {
  import opened DictSlots
  import opened IniText
  import opened IniLine

  // ------------------------------------------------------------------------ loading

  /** The loader between two lines: what a line ending in a backslash has left in the buffer, the
      current section, the count of errors, the dictionary, and whether every joined name has fitted
      its buffer so far. */
  datatype Loader = Loader(prefix: string, section: string, errs: nat, slots: Slots, fits: bool)

  /** What becomes of a file.  After a joined name that does not fit nothing is known. */
  datatype Outcome = Loaded(slots: Slots) | Rejected | Overrun

  /** A section and a key, with the colon between them, fit a buffer of ASCIILINESZ + 1 characters. */
  predicate NameFits(section: string, key: string) {
    |section| + 1 + |key| <= ASCIILINESZ
  }

  /** One logical line.  Setting an entry puts the count of errors back to zero. */
  function Process(st: Loader, line: string): (st': Loader)
    requires st.slots != []
    ensures st'.slots != [] && st'.prefix == st.prefix
  {
    if st.fits then Follow(st, ParseLine(line, st.section)) else st
  }

  function Follow(st: Loader, line: Line): (st': Loader)
    requires st.slots != []
    ensures st'.slots != [] && st'.prefix == st.prefix
  {
    match line
    case Empty => st
    case Comment => st
    case Section(name) => st.(section := name, errs := 0, slots := Put(st.slots, name, None))
    case Value(key, val) =>
      if NameFits(st.section, key) then st.(errs := 0, slots := Put(st.slots, st.section + ":" + key, Some(val)))
      else st.(fits := false)
    case Error => st.(errs := st.errs + 1)
  }

  predicate EndsInBackslash(s: string) {
    s != [] && s[|s| - 1] == '\\'
  }

  /** A line read behind what is in the buffer. */
  function Feed(st: Loader, chunk: string): (st': Loader)
    requires st.slots != []
    ensures st'.slots != []
  {
    var t := RStrip(st.prefix + chunk);
    if EndsInBackslash(t) then st.(prefix := t[..|t| - 1]) else Process(st.(prefix := ""), t)
  }

  /** Where the line ends, or the length of the text. */
  function LineEnd(text: string): (n: nat)
    ensures n <= |text| && '\n' !in text[..n] && (n < |text| ==> text[n] == '\n')
  {
    if text == [] || text[0] == '\n' then 0
    else
      var n := LineEnd(text[1..]);
      assert text[..n + 1] == [text[0]] + text[1..][..n];
      n + 1
  }

  function Finish(st: Loader): Outcome {
    if !st.fits then Overrun else if st.errs == 0 then Loaded(st.slots) else Rejected
  }

  /** The loop of iniparser_load: a line that does not end within the buffer, or not at all, is
      an error, and so is a syntax error in the last line that counts. */
  function LoadFrom(st: Loader, text: string): Outcome
    requires st.slots != []
    decreases |text|
  {
    if text == [] || !st.fits then Finish(st)
    else
      var n := LineEnd(text);
      if n == |text| || |st.prefix| + n + 1 > ASCIILINESZ - 1 then Rejected
      else LoadFrom(Feed(st, text[..n]), text[n + 1..])
  }

  function EmptySlots(): (s: Slots)
    ensures s != []
  {
    seq(128, _ => None)
  }

  const START: Loader := Loader("", "", 0, EmptySlots(), true)

  /** iniparser_load */
  function Load(text: string): Outcome {
    LoadFrom(START, text)
  }

  // ------------------------------------------------------------------------ writing

  /** The names of the sections, in slot order. */
  function Sections(s: Slots): seq<string> {
    if s == [] then []
    else
      var k := |s| - 1;
      Sections(s[..k]) + if s[k].Some? && ':' !in s[k].value.key then [s[k].value.key] else []
  }

  predicate Belongs(x: Option<Entry>, sec: string) {
    x.Some? && sec + ":" <= x.value.key
  }

  function Text(val: Option<string>): string {
    if val.Some? then val.value else ""
  }

  function EntryLine(e: Entry, sec: string): string
    requires Belongs(Some(e), sec)
  {
    KeyLine(e.key[|sec| + 1..], Text(e.val))
  }

  /** The entries of a section, one line each. */
  function KeyLines(s: Slots, sec: string): seq<string> {
    if s == [] then []
    else
      var k := |s| - 1;
      KeyLines(s[..k], sec) + if Belongs(s[k], sec) then [EntryLine(s[k].value, sec)] else []
  }

  function Blocks(s: Slots, secs: seq<string>): seq<string> {
    if secs == [] then []
    else
      var k := |secs| - 1;
      Blocks(s, secs[..k]) + (["", SectionLine(secs[k])] + KeyLines(s, secs[k]))
  }

  /** What "%s" prints for a value, or for none. */
  function Shown(val: Option<string>): string {
    if val.Some? then val.value else "(null)"
  }

  function PlainLine(e: Entry): string {
    e.key + " = " + Shown(e.val)
  }

  /** Without a section every entry is written as it is. */
  function PlainLines(s: Slots): seq<string> {
    if s == [] then []
    else
      var k := |s| - 1;
      PlainLines(s[..k]) + if s[k].Some? then [PlainLine(s[k].value)] else []
  }

  function DumpLines(s: Slots): seq<string> {
    if Sections(s) == [] then PlainLines(s) else Blocks(s, Sections(s)) + [""]
  }

  function Join(lines: seq<string>): string {
    if lines == [] then "" else lines[0] + "\n" + Join(lines[1..])
  }

  /** A section's name and a colon fit a buffer of ASCIILINESZ + 1 characters. */
  predicate HeadingFits(sec: string) {
    |sec| + 1 <= ASCIILINESZ
  }

  /** iniparser_dump_ini, unless the name of a section does not fit. */
  function Dump(s: Slots): Option<string> {
    if HeadingsFit(Sections(s)) then Some(Join(DumpLines(s))) else None
  }

  predicate HeadingsFit(secs: seq<string>) {
    forall i :: 0 <= i < |secs| ==> HeadingFits(secs[i])
  }

  lemma {:induction false} JoinAppend(a: seq<string>, b: seq<string>)
    ensures Join(a + b) == Join(a) + Join(b)
  {
    if a == [] {
      assert a + b == b;
    } else {
      assert (a + b)[1..] == a[1..] + b;
      JoinAppend(a[1..], b);
    }
  }

  lemma JoinOne(line: string)
    ensures Join([line]) == line + "\n"
  {
    assert [line][1..] == [];
  }

  // ------------------------------------------------------------------- line by line

  function ProcessAll(st: Loader, lines: seq<string>): (st': Loader)
    requires st.slots != []
    ensures st'.slots != [] && st'.prefix == st.prefix
  {
    if lines == [] then st else Process(ProcessAll(st, lines[..|lines| - 1]), RStrip(lines[|lines| - 1]))
  }

  lemma {:induction false} ProcessAllAppend(st: Loader, a: seq<string>, b: seq<string>)
    requires st.slots != []
    ensures ProcessAll(st, a + b) == ProcessAll(ProcessAll(st, a), b)
  {
    if b == [] {
      assert a + b == a;
    } else {
      assert (a + b)[..|a + b| - 1] == a + b[..|b| - 1];
      ProcessAllAppend(st, a, b[..|b| - 1]);
    }
  }

  /** What the lines leave in the buffer: a line that ends in a backslash, without it. */
  function Buffer(lines: seq<string>): string {
    if lines == [] then ""
    else
      var t := RStrip(Buffer(lines[..|lines| - 1]) + lines[|lines| - 1]);
      if EndsInBackslash(t) then t[..|t| - 1] else ""
  }

  /** The lines, each with those it continues. */
  function Logical(lines: seq<string>): seq<string> {
    if lines == [] then []
    else
      var k := |lines| - 1;
      var t := Buffer(lines[..k]) + lines[k];
      Logical(lines[..k]) + if EndsInBackslash(RStrip(t)) then [] else [t]
  }

  /** Line `i` ends within the buffer, behind what is there. */
  predicate Ends(lines: seq<string>, i: nat)
    requires i < |lines|
  {
    |Buffer(lines[..i])| + |lines[i]| + 1 <= ASCIILINESZ - 1
  }

  ghost predicate AllEnd(lines: seq<string>) {
    forall i :: 0 <= i < |lines| ==> Ends(lines, i)
  }

  ghost predicate NoBreaks(lines: seq<string>) {
    forall i :: 0 <= i < |lines| ==> '\n' !in lines[i]
  }

  lemma {:induction false} LineEndIs(a: string, b: string)
    requires '\n' !in a
    ensures LineEnd(a + "\n" + b) == |a|
  {
    if a == [] {
      assert a + "\n" + b == "\n" + b;
    } else {
      assert (a + "\n" + b)[1..] == a[1..] + "\n" + b;
      LineEndIs(a[1..], b);
    }
  }

  /** The loader after some lines. */
  function After(lines: seq<string>): (st: Loader)
    ensures st.slots != []
  {
    ProcessAll(START, Logical(lines)).(prefix := Buffer(lines))
  }

  lemma LoadLine(st: Loader, line: string, rest: string)
    requires st.slots != [] && st.fits && '\n' !in line
    ensures LoadFrom(st, line + "\n" + rest) ==
      if |st.prefix| + |line| + 1 > ASCIILINESZ - 1 then Rejected else LoadFrom(Feed(st, line), rest)
  {
    LineEndIs(line, rest);
    var text := line + "\n" + rest;
    assert text[..|line|] == line && text[|line| + 1..] == rest;
  }

  lemma FeedIs(lines: seq<string>)
    requires lines != []
    ensures Feed(After(lines[..|lines| - 1]), lines[|lines| - 1]) == After(lines)
  {
    var k := |lines| - 1;
    var st, t := ProcessAll(START, Logical(lines[..k])), Buffer(lines[..k]) + lines[k];
    assert After(lines[..k]).(prefix := "") == st;
    if !EndsInBackslash(RStrip(t)) {
      assert Logical(lines)[..|Logical(lines)| - 1] == Logical(lines[..k]);
    } else {
      assert Logical(lines) == Logical(lines[..k]);
    }
  }

  /** Any lines that end within the buffer are read, continued ones as one. */
  lemma {:induction false} LoadLines(lines: seq<string>, rest: string)
    requires NoBreaks(lines) && AllEnd(lines)
    ensures Load(Join(lines) + rest) == LoadFrom(After(lines), rest)
    decreases |lines|
  {
    if lines == [] {
      assert Join(lines) + rest == rest;
    } else {
      var k := |lines| - 1;
      var before := lines[..k];
      EndsBefore(lines, k);
      LoadLines(before, lines[k] + "\n" + rest);
      JoinLast(lines, rest);
      assert Ends(lines, k);
      LastLine(lines, rest);
    }
  }

  lemma {:induction false} JoinLast(lines: seq<string>, rest: string)
    requires lines != []
    ensures var k := |lines| - 1; Join(lines) + rest == Join(lines[..k]) + (lines[k] + "\n" + rest)
  {
    var k := |lines| - 1;
    var a, b, c := Join(lines[..k]), lines[k], "\n";
    assert lines == lines[..k] + [b];
    JoinAppend(lines[..k], [b]);
    JoinOne(b);
    assert (a + (b + c)) + rest == a + (b + c + rest);
  }

  lemma LastLine(lines: seq<string>, rest: string)
    requires lines != [] && '\n' !in lines[|lines| - 1] && Ends(lines, |lines| - 1)
    ensures var k := |lines| - 1; LoadFrom(After(lines[..k]), lines[k] + "\n" + rest) == LoadFrom(After(lines), rest)
  {
    var k := |lines| - 1;
    if After(lines[..k]).fits {
      LoadLine(After(lines[..k]), lines[k], rest);
      FeedIs(lines);
    } else {
      StaysOverrun(lines);
    }
  }

  lemma EndsBefore(lines: seq<string>, k: nat)
    requires k <= |lines|
    ensures forall i :: 0 <= i < k ==> (Ends(lines[..k], i) <==> Ends(lines, i))
  {
    forall i | 0 <= i < k ensures Ends(lines[..k], i) <==> Ends(lines, i) {
      assert lines[..k][..i] == lines[..i];
    }
  }

  lemma StaysOverrun(lines: seq<string>)
    requires lines != [] && !After(lines[..|lines| - 1]).fits
    ensures !After(lines).fits
  {
    var k := |lines| - 1;
    var t := Buffer(lines[..k]) + lines[k];
    if EndsInBackslash(RStrip(t)) {
      assert Logical(lines) == Logical(lines[..k]);
    } else {
      assert Logical(lines)[..|Logical(lines)| - 1] == Logical(lines[..k]);
    }
  }

  /** Every text is some lines and a rest without the end of a line. */
  lemma {:induction false} SplitLines(text: string) returns (lines: seq<string>, rest: string)
    ensures NoBreaks(lines) && '\n' !in rest && text == Join(lines) + rest
    decreases |text|
  {
    var n := LineEnd(text);
    if n == |text| {
      lines, rest := [], text;
      assert text[..n] == text && Join([]) + text == text;
    } else {
      lines, rest := SplitLines(text[n + 1..]);
      assert text == text[..n] + "\n" + text[n + 1..];
      var all := [text[..n]] + lines;
      assert all[1..] == lines;
      lines := all;
    }
  }

  // ----------------------------------------------------------- what the lines come to

  /** The section the lines end in. */
  function LastSection(ps: seq<Line>): string {
    if ps == [] then ""
    else if ps[|ps| - 1].Section? then ps[|ps| - 1].name
    else LastSection(ps[..|ps| - 1])
  }

  function Parsed(lines: seq<string>): (ps: seq<Line>)
    ensures |ps| == |lines|
  {
    if lines == [] then []
    else
      var ps := Parsed(lines[..|lines| - 1]);
      ps + [ParseLine(RStrip(lines[|lines| - 1]), LastSection(ps))]
  }

  /** The last line that is not empty or a comment is a syntax error. */
  predicate EndsWrong(ps: seq<Line>) {
    ps != [] &&
    (ps[|ps| - 1].Error? || ((ps[|ps| - 1].Empty? || ps[|ps| - 1].Comment?) && EndsWrong(ps[..|ps| - 1])))
  }

  /** Line `i` has a key that does not fit behind its section. */
  predicate TooLong(ps: seq<Line>, i: nat)
    requires i < |ps|
  {
    ps[i].Value? && |LastSection(ps[..i])| + 1 + |ps[i].key| > ASCIILINESZ
  }

  ghost predicate SomeTooLong(ps: seq<Line>) {
    exists i :: 0 <= i < |ps| && TooLong(ps, i)
  }

  /** What the lines set. */
  function Settings(ps: seq<Line>): seq<Op> {
    if ps == [] then []
    else
      var before, last := ps[..|ps| - 1], ps[|ps| - 1];
      Settings(before) +
      if last.Section? then [Set(last.name, None)]
      else if last.Value? then [Set(LastSection(before) + ":" + last.key, Some(last.val))]
      else []
  }

  lemma SomeTooLongStep(ps: seq<Line>, p: Line)
    ensures SomeTooLong(ps + [p]) <==> SomeTooLong(ps) || TooLong(ps + [p], |ps|)
  {
    var all := ps + [p];
    forall i | 0 <= i < |ps| ensures TooLong(all, i) <==> TooLong(ps, i) {
      assert all[..i] == ps[..i];
    }
    if SomeTooLong(ps) {
      var i :| 0 <= i < |ps| && TooLong(ps, i);
      assert TooLong(all, i);
    }
  }

  lemma SettingsStep(ps: seq<Line>, p: Line)
    ensures var s := SlotsAfter(EmptySlots(), Settings(ps));
      SlotsAfter(EmptySlots(), Settings(ps + [p])) ==
        if p.Section? then Put(s, p.name, None)
        else if p.Value? then Put(s, LastSection(ps) + ":" + p.key, Some(p.val))
        else s
  {
    var all := Settings(ps + [p]);
    assert (ps + [p])[..|ps|] == ps;
    if p.Section? || p.Value? {
      assert all[..|all| - 1] == Settings(ps);
    } else {
      assert all == Settings(ps);
    }
  }

  /** The state of the loader, in terms of the lines it has read. */
  ghost predicate HasRead(st: Loader, ps: seq<Line>) {
    && (st.fits <==> !SomeTooLong(ps))
    && (st.fits ==>
          && st.section == LastSection(ps) && (st.errs > 0 <==> EndsWrong(ps))
          && st.slots == SlotsAfter(EmptySlots(), Settings(ps)))
  }

  lemma FollowReads(st: Loader, ps: seq<Line>, p: Line)
    requires st.slots != [] && HasRead(st, ps)
    ensures HasRead(if st.fits then Follow(st, p) else st, ps + [p])
  {
    assert (ps + [p])[..|ps|] == ps;
    SomeTooLongStep(ps, p);
    SettingsStep(ps, p);
  }

  lemma {:induction false} LinesAre(lines: seq<string>)
    ensures HasRead(ProcessAll(START, lines), Parsed(lines))
  {
    if lines != [] {
      var k := |lines| - 1;
      LinesAre(lines[..k]);
      ParsedStep(ProcessAll(START, lines[..k]), lines);
    }
  }

  lemma ParsedStep(st: Loader, lines: seq<string>)
    requires lines != [] && st.slots != [] && HasRead(st, Parsed(lines[..|lines| - 1]))
    ensures HasRead(Process(st, RStrip(lines[|lines| - 1])), Parsed(lines))
  {
    var ps := Parsed(lines[..|lines| - 1]);
    var p := ParseLine(RStrip(lines[|lines| - 1]), LastSection(ps));
    FollowReads(st, ps, p);
  }

  // ------------------------------------------------------------------------ outcomes

  /** How many lines are read: all, or those before the first that does not end within the buffer. */
  function Read(lines: seq<string>): (n: nat)
    ensures n <= |lines|
  {
    if lines == [] then 0
    else
      var n := Read(lines[..|lines| - 1]);
      if n == |lines| - 1 && Ends(lines, n) then |lines| else n
  }

  lemma {:induction false} ReadIs(lines: seq<string>)
    ensures AllEnd(lines[..Read(lines)])
    ensures Read(lines) < |lines| ==> !Ends(lines, Read(lines))
    ensures Read(lines) == |lines| <==> AllEnd(lines)
  {
    if lines != [] {
      var k := |lines| - 1;
      ReadIs(lines[..k]);
      EndsBefore(lines, k);
      EndsBefore(lines, Read(lines));
      assert lines[..k][..Read(lines[..k])] == lines[..Read(lines[..k])];
      assert lines[..|lines|] == lines;
    }
  }

  lemma {:induction false} LoadIs(lines: seq<string>, rest: string)
    requires NoBreaks(lines) && '\n' !in rest
    ensures var st := After(lines[..Read(lines)]);
      Load(Join(lines) + rest) ==
        if st.fits && (rest != "" || Read(lines) < |lines|) then Rejected else Finish(st)
  {
    var n := Read(lines);
    ReadIs(lines);
    JoinRest(lines, n, rest);
    LoadLines(lines[..n], Join(lines[n..]) + rest);
    if n < |lines| {
      StopsThere(After(lines[..n]), lines[n], Join(lines[n + 1..]) + rest);
    } else {
      AtTheEnd(After(lines[..n]), rest);
    }
  }

  lemma {:induction false} JoinRest(lines: seq<string>, n: nat, rest: string)
    requires n <= |lines|
    ensures Join(lines) + rest == Join(lines[..n]) + (Join(lines[n..]) + rest)
    ensures Join(lines[n..]) + rest == if n < |lines| then lines[n] + "\n" + (Join(lines[n + 1..]) + rest) else rest
  {
    JoinAppend(lines[..n], lines[n..]);
    assert lines[..n] + lines[n..] == lines;
    if n < |lines| {
      assert lines[n..][1..] == lines[n + 1..];
    }
  }

  lemma AtTheEnd(st: Loader, rest: string)
    requires st.slots != [] && '\n' !in rest
    ensures LoadFrom(st, rest) == if st.fits && rest != "" then Rejected else Finish(st)
  {
    LineEndOfRest(rest);
  }

  lemma StopsThere(st: Loader, line: string, rest: string)
    requires st.slots != [] && '\n' !in line && |st.prefix| + |line| + 1 > ASCIILINESZ - 1
    ensures LoadFrom(st, line + "\n" + rest) == if st.fits then Rejected else Overrun
  {
    if st.fits {
      LoadLine(st, line, rest);
    }
  }

  lemma LineEndOfRest(rest: string)
    requires '\n' !in rest
    ensures LineEnd(rest) == |rest|
  {
  }

  /** Nothing is known of a file exactly if a line that is read has a key too long for its section. */
  lemma OverrunIff(lines: seq<string>, rest: string)
    requires NoBreaks(lines) && '\n' !in rest
    ensures Load(Join(lines) + rest) == Overrun <==> SomeTooLong(Parsed(Logical(lines[..Read(lines)])))
  {
    LoadIs(lines, rest);
    LinesAre(Logical(lines[..Read(lines)]));
  }

  /** Any other file is rejected exactly if a line does not end within the buffer, the last one does not
      end at all, or the last line that is not empty or a comment is a syntax error: any later setting
      makes up for an earlier error. */
  lemma RejectedIff(lines: seq<string>, rest: string)
    requires NoBreaks(lines) && '\n' !in rest
    ensures Load(Join(lines) + rest) == Rejected <==>
      !SomeTooLong(Parsed(Logical(lines[..Read(lines)]))) && (rest != "" || !AllEnd(lines) || EndsWrong(Parsed(Logical(lines))))
  {
    LoadIs(lines, rest);
    ReadIs(lines);
    LinesAre(Logical(lines[..Read(lines)]));
    assert lines[..|lines|] == lines;
  }

  /** What is loaded otherwise. */
  lemma LoadedIs(lines: seq<string>, rest: string)
    requires NoBreaks(lines) && '\n' !in rest && Load(Join(lines) + rest).Loaded?
    ensures Load(Join(lines) + rest).slots == SlotsAfter(EmptySlots(), Settings(Parsed(Logical(lines))))
  {
    LoadIs(lines, rest);
    ReadIs(lines);
    LinesAre(Logical(lines));
    assert lines[..|lines|] == lines;
  }

  /** A line that is read whole, and on its own. */
  ghost predicate Readable(line: string) {
    '\n' !in line && |line| + 1 <= ASCIILINESZ - 1 && !EndsInBackslash(RStrip(line))
  }

  lemma {:induction false} ReadableLines(lines: seq<string>)
    requires forall i :: 0 <= i < |lines| ==> Readable(lines[i])
    ensures NoBreaks(lines) && AllEnd(lines) && Buffer(lines) == "" && Logical(lines) == lines
  {
    if lines != [] {
      var k := |lines| - 1;
      ReadableLines(lines[..k]);
      assert "" + lines[k] == lines[k] && lines == lines[..k] + [lines[k]];
      EndsBefore(lines, k);
      assert Ends(lines, k);
    }
  }

  /** A file of lines that can be read is read line by line. */
  lemma LoadJoin(lines: seq<string>)
    requires forall i :: 0 <= i < |lines| ==> Readable(lines[i])
    ensures Load(Join(lines)) == Finish(ProcessAll(START, lines))
  {
    ReadableLines(lines);
    LoadLines(lines, "");
    assert Join(lines) + "" == Join(lines);
  }

  /** A line that is a syntax error. */
  predicate Wrong(line: string) {
    ParseLine(RStrip(line), "").Error?
  }

  /** A line without an equals sign that is no comment and no section is a syntax error. */
  lemma NoEqualsIsWrong(line: string)
    requires line != [] && Trimmed(line) && '=' !in line && line[0] != '#' && line[0] != '['
    ensures Wrong(line)
  {
    RStripIs(line);
    StripIsTrimmed(line);
    SpanAll(line, Until({'='}));
    NoEquals(line, [Char('\"'), Until({'\"'}), Char('\"')]);
    NoEquals(line, [Char('\''), Until({'\''}), Char('\'')]);
    NoEquals(line, [Until({';', '#'})]);
    NoEquals(line, [Only({';', '#'})]);
    NoEqualsBare(line);
  }

  /** Without an equals sign only the key is assigned. */
  lemma NoEquals(line: string, rest: seq<Item>)
    requires Span(line, Until({'='})) == |line|
    ensures |Scan(line, KEY + rest)| < 2
  {
    var f := [Blank] + ([Char('=')] + ([Blank] + rest));
    assert KEY + rest == [Until({'='})] + f;
    assert f[1..] == [Char('=')] + ([Blank] + rest);
    assert ([Until({'='})] + f)[1..] == f;
    assert line[|line|..] == [] && Scan([], f) == [];
  }

  lemma NoEqualsBare(line: string)
    requires Span(line, Until({'='})) == |line|
    ensures |Scan(line, BARE)| < 2
  {
    var f := [Blank, Only({'='})];
    assert BARE == [Until({'='})] + f && ([Until({'='})] + f)[1..] == f && f[1..] == [Only({'='})];
    assert line[|line|..] == [] && Scan([], f) == [];
  }

  /** A file of one such line is rejected, and is accepted once a section follows. */
  lemma ErrorIsForgotten(line: string, name: string)
    requires Readable(line) && Wrong(line) && GoodSection(name) && Readable(SectionLine(name))
    ensures Load(Join([line])) == Rejected && Load(Join([line, SectionLine(name)])).Loaded?
  {
    var st := Process(START, RStrip(line));
    assert st == START.(errs := 1);
    SectionLineParses(name, "");
    LoadJoin([line]);
    LoadJoin([line, SectionLine(name)]);
    assert [line][..0] == [] && ProcessAll(START, [line]) == st;
    assert [line, SectionLine(name)][..1] == [line];
    assert ProcessAll(START, [line, SectionLine(name)]) == Process(st, RStrip(SectionLine(name)));
  }

  lemma ErrorForgottenExample()
    ensures Load(Join(["x"])) == Rejected && Load(Join(["x", "[a]"])).Loaded?
  {
    assert "x"[0] == 'x' && RStrip("x") == "x";
    NoEqualsIsWrong("x");
    assert RStrip("[a]") == "[a]" && SectionLine("a") == "[a]" && Lower("a") == "a";
    ErrorIsForgotten("x", "a");
  }

  /** A section and one entry: nothing is known of the file exactly if their names together are too long. */
  lemma LongName(sec: string, k: string, v: string)
    requires GoodSection(sec) && GoodKey(k) && !LooksLikeSection(k, v) && Readable(SectionLine(sec)) && Readable(KeyLine(k, v))
    ensures Load(Join([SectionLine(sec), KeyLine(k, v)])) == Overrun <==> |sec| + 1 + |k| > ASCIILINESZ
  {
    SectionLineParses(sec, "");
    PrintedLineParses(k, v, sec);
    LoadJoin([SectionLine(sec), KeyLine(k, v)]);
    TwoLines(SectionLine(sec), KeyLine(k, v));
  }

  lemma TwoLines(a: string, b: string)
    ensures ProcessAll(START, [a, b]) == Process(Process(START, RStrip(a)), RStrip(b))
  {
    assert [a, b][..1] == [a] && [a][..0] == [];
    assert ProcessAll(START, [a]) == Process(START, RStrip(a));
  }

  function Repeated(c: char, n: nat): string {
    seq(n, _ => c)
  }

  lemma RepeatedStays(c: char, n: nat)
    requires 'a' <= c <= 'z' && 30 <= n <= 1000
    ensures var s := Repeated(c, n); Tidy(s) && ']' !in s && '=' !in s && s[0] != '#' && s[0] != '[' && '\n' !in s
  {
  }

  lemma LongNameExample()
    ensures Load(Join([SectionLine(Repeated('a', 600)), KeyLine(Repeated('b', 600), "1")])) == Overrun
  {
    var sec, k := Repeated('a', 600), Repeated('b', 600);
    RepeatedStays('a', 600);
    RepeatedStays('b', 600);
    var line := KeyLine(k, "1");
    assert line == k + " = 1" && line[|line| - 1] == '1' && RStrip(line) == line;
    var heading := SectionLine(sec);
    assert heading[|heading| - 1] == ']' && RStrip(heading) == heading;
    LongName(sec, k, "1");
  }
}
