/**
  The loops of csf/confparser/iniparser.c, over the dictionary object.
*/
module IniCode {
  import opened DictSlots
  import opened Dictionary
  import opened IniText
  import opened IniLine
  import opened IniFile
  import opened IniRoundTrip

  /** strstrip */
  method StrStrip(s: string) returns (buf: string)
    ensures buf == Strip(s)
  {
    var from := 0;
    while from < |s| && IsSpace(s[from])
      invariant from <= |s| && LStrip(s) == LStrip(s[from..])
    {
      assert s[from..][1..] == s[from + 1..];
      from := from + 1;
    }
    buf := s[from..];
    assert LStrip(s) == buf;
    var last: nat := |buf|;
    assert buf[..last] == buf;
    while last > 0 && IsSpace(buf[last - 1])
      invariant last <= |buf| && RStrip(buf) == RStrip(buf[..last])
    {
      assert buf[..last][..last - 1] == buf[..last - 1];
      last := last - 1;
    }
    buf := buf[..last];
  }

  /** strlwc */
  method StrLwc(s: string) returns (buf: string)
    ensures buf == Lwc(s)
  {
    buf := [];
    var i := 0;
    while i < |s| && i < ASCIILINESZ
      invariant i <= |s| && i <= ASCIILINESZ && |buf| == i
      invariant forall j :: 0 <= j < i ==> buf[j] == ToLower(s[j])
    {
      buf := buf + [ToLower(s[i])];
      i := i + 1;
    }
  }

  predicate IsSection(x: Option<string>) {
    x.Some? && ':' !in x.value
  }

  lemma SectionsStep(s: Slots, i: nat)
    requires i < |s|
    ensures Sections(s[..i + 1]) == Sections(s[..i]) + if s[i].Some? && ':' !in s[i].value.key then [s[i].value.key] else []
  {
    assert s[..i + 1][..i] == s[..i];
  }

  lemma NthSection(s: Slots, i: nat)
    requires i < |s| && s[i].Some? && ':' !in s[i].value.key
    ensures |Sections(s[..i])| < |Sections(s)| && Sections(s)[|Sections(s[..i])|] == s[i].value.key
  {
    SectionsStep(s, i);
    SectionsPrefix(s, i + 1);
  }

  /** iniparser_getnsec */
  method GetNSec(d: Dictionary) returns (n: nat)
    requires d.Valid()
    ensures n == |Sections(d.Slots())|
  {
    n := 0;
    var i := 0;
    ghost var s := d.Slots();
    while i < d.key.Length
      invariant i <= d.key.Length && n == |Sections(s[..i])|
    {
      SectionsStep(s, i);
      if IsSection(d.key[i]) {
        n := n + 1;
      }
      i := i + 1;
    }
    assert s[..i] == s;
  }

  /** The search for the `n`-th name without a colon. */
  method NthName(keys: seq<Option<string>>, n: nat, ghost s: Slots) returns (name: Option<string>)
    requires |keys| == |s| && forall i :: 0 <= i < |s| ==> keys[i] == if s[i].Some? then Some(s[i].value.key) else None
    ensures name == if n < |Sections(s)| then Some(Sections(s)[n]) else None
  {
    var found, i := 0, 0;
    while i < |keys|
      invariant i <= |keys| && found == |Sections(s[..i])| <= n
    {
      SectionsStep(s, i);
      if IsSection(keys[i]) {
        NthSection(s, i);
        found := found + 1;
        if found > n {
          return keys[i];
        }
      }
      i := i + 1;
    }
    assert s[..i] == s;
    return None;
  }

  /** iniparser_getsecname */
  method GetSecName(d: Dictionary, n: int) returns (name: Option<string>)
    requires d.Valid()
    ensures name == if 0 <= n < |Sections(d.Slots())| then Some(Sections(d.Slots())[n]) else None
  {
    if n < 0 {
      return None;
    }
    name := NthName(d.key[..], n, d.Slots());
  }

  lemma {:induction false} SectionsPrefix(s: Slots, i: nat)
    requires i <= |s|
    ensures Sections(s[..i]) <= Sections(s)
  {
    if i < |s| {
      var k := |s| - 1;
      SectionsPrefix(s[..k], i);
      assert s[..k][..i] == s[..i];
    } else {
      assert s[..i] == s;
    }
  }

  lemma KeyLinesStep(s: Slots, j: nat, sec: string)
    requires j < |s|
    ensures Join(KeyLines(s[..j + 1], sec)) ==
      Join(KeyLines(s[..j], sec)) + if Belongs(s[j], sec) then EntryLine(s[j].value, sec) + "\n" else ""
  {
    assert s[..j + 1][..j] == s[..j];
    if Belongs(s[j], sec) {
      JoinAppend(KeyLines(s[..j], sec), [EntryLine(s[j].value, sec)]);
      JoinOne(EntryLine(s[j].value, sec));
    } else {
      assert KeyLines(s[..j + 1], sec) == KeyLines(s[..j], sec);
    }
  }

  /** The entries of one section. */
  method DumpSection(d: Dictionary, sec: string) returns (text: string)
    requires d.Valid()
    ensures text == Join(KeyLines(d.Slots(), sec))
  {
    text := "";
    var j := 0;
    ghost var s := d.Slots();
    while j < d.key.Length
      invariant j <= d.key.Length && text == Join(KeyLines(s[..j], sec))
    {
      KeyLinesStep(s, j, sec);
      if d.key[j].Some? && sec + ":" <= d.key[j].value {
        text := text + (KeyLine(d.key[j].value[|sec| + 1..], Text(d.val[j])) + "\n");
      }
      j := j + 1;
    }
    assert s[..j] == s;
  }

  lemma PlainLinesStep(s: Slots, j: nat)
    requires j < |s|
    ensures Join(PlainLines(s[..j + 1])) == Join(PlainLines(s[..j])) + if s[j].Some? then PlainLine(s[j].value) + "\n" else ""
  {
    assert s[..j + 1][..j] == s[..j];
    if s[j].Some? {
      JoinAppend(PlainLines(s[..j]), [PlainLine(s[j].value)]);
      JoinOne(PlainLine(s[j].value));
    } else {
      assert PlainLines(s[..j + 1]) == PlainLines(s[..j]);
    }
  }

  /** Without sections: the entries as they are. */
  method DumpPlain(d: Dictionary) returns (text: string)
    requires d.Valid()
    ensures text == Join(PlainLines(d.Slots()))
  {
    text := "";
    var i := 0;
    ghost var s := d.Slots();
    while i < d.key.Length
      invariant i <= d.key.Length && text == Join(PlainLines(s[..i]))
    {
      PlainLinesStep(s, i);
      if d.key[i].Some? {
        text := text + (PlainLine(Entry(d.key[i].value, d.val[i])) + "\n");
      }
      i := i + 1;
    }
    assert s[..i] == s;
  }

  lemma JoinHeading(sec: string)
    ensures Join(["", SectionLine(sec)]) == "\n" + SectionLine(sec) + "\n"
  {
    assert ["", SectionLine(sec)][1..] == [SectionLine(sec)];
    JoinOne(SectionLine(sec));
  }

  lemma BlocksStep(s: Slots, secs: seq<string>, i: nat)
    requires i < |secs|
    ensures Join(Blocks(s, secs[..i + 1])) ==
      Join(Blocks(s, secs[..i])) + ("\n" + SectionLine(secs[i]) + "\n" + Join(KeyLines(s, secs[i])))
  {
    assert secs[..i + 1][..i] == secs[..i];
    JoinAppend(Blocks(s, secs[..i]), ["", SectionLine(secs[i])] + KeyLines(s, secs[i]));
    JoinAppend(["", SectionLine(secs[i])], KeyLines(s, secs[i]));
    JoinHeading(secs[i]);
  }

  /** A section with its heading.  Its name and a colon go into a buffer. */
  method DumpBlock(d: Dictionary, i: nat) returns (text: Option<string>)
    requires d.Valid() && i < |Sections(d.Slots())|
    ensures text == BlockText(d.Slots(), Sections(d.Slots())[i])
  {
    var name := GetSecName(d, i);
    if |name.value| + 1 > ASCIILINESZ {
      return None;
    }
    var body := DumpSection(d, name.value);
    text := Some("\n" + SectionLine(name.value) + "\n" + body);
  }

  /** The sections as they are printed, if their names fit. */
  function Printed(s: Slots, secs: seq<string>): Option<string> {
    if HeadingsFit(secs) then Some(Join(Blocks(s, secs))) else None
  }

  function BlockText(s: Slots, sec: string): Option<string> {
    if HeadingFits(sec) then Some("\n" + SectionLine(sec) + "\n" + Join(KeyLines(s, sec))) else None
  }

  lemma PrintedStep(s: Slots, secs: seq<string>, i: nat)
    requires i < |secs| && Printed(s, secs[..i]).Some?
    ensures BlockText(s, secs[i]).None? ==> Printed(s, secs) == None
    ensures BlockText(s, secs[i]).Some? ==>
      Printed(s, secs[..i + 1]) == Some(Printed(s, secs[..i]).value + BlockText(s, secs[i]).value)
  {
    BlocksStep(s, secs, i);
    assert secs[..i + 1] == secs[..i] + [secs[i]];
  }

  /** All sections, one after the other. */
  method DumpBlocks(d: Dictionary, nsec: nat) returns (text: Option<string>)
    requires d.Valid() && nsec == |Sections(d.Slots())|
    ensures text == Printed(d.Slots(), Sections(d.Slots()))
  {
    var all := "";
    ghost var s, secs := d.Slots(), Sections(d.Slots());
    var i := 0;
    while i < nsec
      invariant i <= nsec && Printed(s, secs[..i]) == Some(all)
    {
      PrintedStep(s, secs, i);
      var block := DumpBlock(d, i);
      if block.None? {
        return None;
      }
      all := all + block.value;
      i := i + 1;
    }
    assert secs[..i] == secs;
    text := Some(all);
  }

  /** iniparser_dump_ini; nothing is known of the text when the name of a section does not fit. */
  method DumpIni(d: Dictionary) returns (text: Option<string>)
    requires d.Valid()
    ensures text == Dump(d.Slots())
  {
    var nsec := GetNSec(d);
    if nsec < 1 {
      var plain := DumpPlain(d);
      return Some(plain);
    }
    text := DumpBlocks(d, nsec);
    DumpIs(d.Slots());
    if text.Some? {
      text := Some(text.value + "\n");
    }
  }

  lemma DumpIs(s: Slots)
    requires Sections(s) != []
    ensures Join(DumpLines(s)) == Join(Blocks(s, Sections(s))) + "\n"
  {
    JoinAppend(Blocks(s, Sections(s)), [""]);
    JoinOne("");
  }

  // ------------------------------------------------------------------------ loading

  lemma {:induction false} LineEndAt(text: string, n: nat)
    requires n <= |text| && '\n' !in text[..n]
    ensures n <= LineEnd(text)
    ensures n < |text| && text[n] == '\n' ==> LineEnd(text) == n
  {
    if n > 0 {
      assert text[..n] == [text[0]] + text[1..][..n - 1];
      LineEndAt(text[1..], n - 1);
    }
  }

  /** fgets: the characters up to the end of the line, if it comes within `room` characters. */
  method Gets(text: string, room: int) returns (n: nat, complete: bool)
    ensures complete <==> LineEnd(text) < |text| && LineEnd(text) + 1 <= room
    ensures complete ==> n == LineEnd(text)
  {
    n := 0;
    while n < |text| && n < room && text[n] != '\n'
      invariant n <= |text| && (n == 0 || n <= room) && '\n' !in text[..n]
    {
      assert text[..n + 1] == text[..n] + [text[n]];
      n := n + 1;
    }
    LineEndAt(text, n);
    complete := n < |text| && n < room;
  }

  method TrimEnd(s: string) returns (t: string)
    ensures t == RStrip(s)
  {
    var len: nat := |s|;
    assert s[..len] == s;
    while len > 0 && IsSpace(s[len - 1])
      invariant len <= |s| && RStrip(s) == RStrip(s[..len])
    {
      assert s[..len][..len - 1] == s[..len - 1];
      len := len - 1;
    }
    t := s[..len];
  }

  /** What iniparser_load does with a logical line.  Section and key are joined in a buffer. */
  method ProcessLine(d: Dictionary, line: string, section: string, errs: nat) returns (section': string, errs': nat, fits: bool)
    requires d.Valid()
    modifies d, d.key, d.val, d.hash
    ensures d.Valid() && (d.key == old(d.key) || fresh(d.key)) && (d.val == old(d.val) || fresh(d.val)) && (d.hash == old(d.hash) || fresh(d.hash))
    ensures Loader("", section', errs', d.Slots(), fits) == Process(Loader("", section, errs, old(d.Slots()), true), line)
  {
    section', errs', fits := section, errs, true;
    match ParseLine(line, section)
    case Empty =>
    case Comment =>
    case Section(name) =>
      section' := name;
      errs' := 0;
      var rc := d.Set(Some(name), None);
    case Value(key, val) =>
      if |section| + 1 + |key| > ASCIILINESZ {
        fits := false;
      } else {
        errs' := 0;
        var rc := d.Set(Some(section + ":" + key), Some(val));
      }
    case Error =>
      errs' := errs + 1;
  }

  /** iniparser_load, given the contents of the file; `known` is false when a joined name did not fit. */
  method LoadIni(text: string) returns (result: Option<Dictionary>, known: bool)
    ensures known <==> Load(text) != Overrun
    ensures known ==> (result.None? <==> Load(text) == Rejected)
    ensures result.Some? ==> known && result.value.Valid() && fresh(result.value) && Load(text) == Loaded(result.value.Slots())
  {
    var d := new Dictionary(0);
    assert d.Slots() == EmptySlots();
    var rest, prefix, section: string, errs: nat := text, "", "", 0;
    known := true;
    while rest != []
      invariant known && d.Valid() && fresh(d) && fresh(d.key) && fresh(d.val) && fresh(d.hash)
      invariant Load(text) == LoadFrom(Loader(prefix, section, errs, d.Slots(), true), rest)
      decreases |rest|
    {
      ghost var st := Loader(prefix, section, errs, d.Slots(), true);
      var n, complete := Gets(rest, ASCIILINESZ - 1 - |prefix|);
      if !complete {
        return None, true;
      }
      var line := TrimEnd(prefix + rest[..n]);
      FeedStep(st, rest, n);
      rest := rest[n + 1..];
      if line != [] && line[|line| - 1] == '\\' {
        prefix := line[..|line| - 1];
      } else {
        prefix := "";
        section, errs, known := ProcessLine(d, line, section, errs);
        if !known {
          return None, false;
        }
      }
    }
    result := if errs != 0 then None else Some(d);
  }

  lemma FeedStep(st: Loader, text: string, n: nat)
    requires st.slots != [] && st.fits && LineEnd(text) == n < |text| && |st.prefix| + n + 1 <= ASCIILINESZ - 1
    ensures LoadFrom(st, text) == LoadFrom(Feed(st, text[..n]), text[n + 1..])
  {
  }

  /** Out and in again: the same map exactly when it is faithful and no whole name is too long. */
  method SaveAndLoad(d: Dictionary) returns (result: Option<Dictionary>, known: bool)
    requires d.Valid() && Printable(d.Slots()) && Sections(d.Slots()) != []
    ensures known <==> ShortNames(d.Map())
    ensures known ==> result.Some? && result.value.Valid()
    ensures known ==> (result.value.Map() == d.Map() <==> Faithful(d.Map()))
  {
    DumpThenLoad(d.Slots());
    FaithfulIff(d.Map());
    var text := DumpIni(d);
    result, known := LoadIni(text.value);
  }
}
