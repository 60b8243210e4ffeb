/**
  What a line of an ini file is, told from its characters: empty, a comment, a heading, an entry or a
  syntax error, and what the heading or the entry says.
*/
module IniKinds {
  import opened IniText
  import opened IniLine
  import opened IniFile

  /** The first character that is not a blank. */
  ghost predicate Begins(s: string, c: char) {
    exists i :: 0 <= i < |s| && s[i] == c && !IsSpace(c) && AllSpace(s[..i])
  }

  /** The last one. */
  ghost predicate Closes(s: string, c: char) {
    exists i :: 0 <= i < |s| && s[i] == c && !IsSpace(c) && AllSpace(s[i + 1..])
  }

  /** Stripping takes blanks off both ends, and nothing else. */
  lemma {:induction false} StripTakesOff(s: string) returns (a: string, b: string)
    ensures s == a + Strip(s) + b && AllSpace(a) && AllSpace(b) && Trimmed(Strip(s))
  {
    LStripIs(s);
    var t := LStrip(s);
    RStripIs(t);
    StripIsTrimmed(s);
    a, b := s[..|s| - |t|], t[|RStrip(t)|..];
    assert t == RStrip(t) + b;
    assert s == a + (RStrip(t) + b);
  }

  lemma BlankIff(s: string)
    ensures Strip(s) == [] <==> AllSpace(s)
  {
    StripCommutes(s);
  }

  lemma EndsOf(s: string, c: char)
    ensures Begins(s, c) <==> Strip(s) != [] && Strip(s)[0] == c
    ensures Closes(s, c) <==> Strip(s) != [] && Strip(s)[|Strip(s)| - 1] == c
  {
    var a, b := StripTakesOff(s);
    var t := Strip(s);
    if t != [] {
      var i, j := |a|, |a| + |t| - 1;
      assert s[..i] == a && s[i] == t[0] && s[j + 1..] == b && s[j] == t[|t| - 1];
      if Begins(s, c) {
        var k :| 0 <= k < |s| && s[k] == c && !IsSpace(c) && AllSpace(s[..k]);
        FirstIs(s, i, k);
      }
      if Closes(s, c) {
        var k :| 0 <= k < |s| && s[k] == c && !IsSpace(c) && AllSpace(s[k + 1..]);
        LastIs(s, j, k);
      }
    } else {
      BlankIff(s);
    }
  }

  lemma FirstIs(s: string, i: nat, k: nat)
    requires i < |s| && k < |s| && !IsSpace(s[i]) && !IsSpace(s[k]) && AllSpace(s[..i]) && AllSpace(s[..k])
    ensures i == k
  {
    if i < k {
      BlankIn(s[..k], i);
    } else if k < i {
      BlankIn(s[..i], k);
    }
  }

  lemma BlankIn(s: string, i: nat)
    requires AllSpace(s) && i < |s|
    ensures IsSpace(s[i])
  {
  }

  lemma LastIs(s: string, i: nat, k: nat)
    requires i < |s| && k < |s| && !IsSpace(s[i]) && !IsSpace(s[k]) && AllSpace(s[i + 1..]) && AllSpace(s[k + 1..])
    ensures i == k
  {
  }

  // --------------------------------------------------------------------- the five kinds

  /** Up to the first equals sign, and behind it. */
  lemma {:induction false} SplitAtEquals(s: string) returns (a: string, b: string)
    requires '=' in s
    ensures s == a + "=" + b && '=' !in a
  {
    if s[0] == '=' {
      a, b := "", s[1..];
      assert s == "" + "=" + s[1..];
    } else {
      assert s == [s[0]] + s[1..];
      var c, d := SplitAtEquals(s[1..]);
      a, b := [s[0]] + c, d;
      assert s == a + "=" + b;
    }
  }

  lemma KeptEquals(s: string)
    ensures '=' in s <==> '=' in Strip(s)
  {
    var a, b := StripTakesOff(s);
  }

  lemma FirstEquals(line: string, rest: seq<Item>)
    requires line != [] && line[0] == '='
    ensures Scan(line, [Until({'='})] + rest) == []
  {
    assert ([Until({'='})] + rest)[0] == Until({'='});
  }

  /** A line that begins with an equals sign has no key. */
  lemma NoKeyIsError(line: string, section: string)
    requires line != [] && line[0] == '=' && Strip(line) == line
    ensures ParseLine(line, section) == Error
  {
    FirstEquals(line, DOUBLE_QUOTED[1..]);
    FirstEquals(line, SINGLE_QUOTED[1..]);
    FirstEquals(line, UNQUOTED[1..]);
    FirstEquals(line, COMMENTED[1..]);
    FirstEquals(line, BARE[1..]);
    assert DOUBLE_QUOTED == [Until({'='})] + DOUBLE_QUOTED[1..] && SINGLE_QUOTED == [Until({'='})] + SINGLE_QUOTED[1..];
    assert UNQUOTED == [Until({'='})] + UNQUOTED[1..] && COMMENTED == [Until({'='})] + COMMENTED[1..];
    assert BARE == [Until({'='})] + BARE[1..];
  }

  lemma NoEqualsIsError(line: string, section: string)
    requires line != [] && Strip(line) == line && '=' !in line && line[0] != '#' && !(line[0] == '[' && line[|line| - 1] == ']')
    ensures ParseLine(line, section) == Error
  {
    SpanAll(line, Until({'='}));
    NoEquals(line, [Char('\"'), Until({'\"'}), Char('\"')]);
    NoEquals(line, [Char('\''), Until({'\''}), Char('\'')]);
    NoEquals(line, [Until({';', '#'})]);
    NoEquals(line, [Only({';', '#'})]);
    NoEqualsBare(line);
  }

  lemma {:induction false} ParseStripped(input: string, section: string)
    ensures ParseLine(input, section) == ParseLine(Strip(input), section) && Strip(Strip(input)) == Strip(input)
  {
    var line := Strip(input);
    assert Strip(line) == line by {
      StripIsTrimmed(input);
      StripIsTrimmed(line);
    }
  }

  /** Is the line a heading? */
  ghost predicate IsHeading(s: string) {
    Begins(s, '[') && Closes(s, ']')
  }

  /** What every line is. */
  lemma LineKinds(input: string, section: string)
    ensures ParseLine(input, section) == Empty <==> AllSpace(input)
    ensures ParseLine(input, section) == Comment <==> Begins(input, '#')
    ensures ParseLine(input, section).Section? <==> IsHeading(input)
    ensures ParseLine(input, section) == Error <==>
      !AllSpace(input) && !Begins(input, '#') && !IsHeading(input) && ('=' !in input || Begins(input, '='))
  {
    var line := Strip(input);
    ParseStripped(input, section);
    BlankIff(input);
    EndsOf(input, '#');
    EndsOf(input, '[');
    EndsOf(input, ']');
    EndsOf(input, '=');
    KeptEquals(input);
    if line != [] && line[0] != '#' && !(line[0] == '[' && line[|line| - 1] == ']') {
      if '=' !in line {
        NoEqualsIsError(line, section);
      } else if line[0] == '=' {
        NoKeyIsError(line, section);
      } else {
        var a, b := SplitAtEquals(line);
        ParseKeyLine(line, a, b, section);
      }
    }
  }

  // ------------------------------------------------------------- headings and entries

  /** The name of a heading: what is before the first closing bracket, trimmed and in lower case; nothing
      there means the name before. */
  lemma HeadingName(input: string, a: string, n: string, b: string, section: string)
    requires input == a + "[" + n + "]" + b && AllSpace(a) && ']' !in n && Closes(input, ']')
    ensures ParseLine(input, section) == Section(Lwc(Strip(if n == "" then section else n)))
  {
    var c := HeadingIs(input, a, n, b);
    EndsOf(input, ']');
    HeadingScan(Strip(input), n, c);
  }

  lemma HeadingIs(input: string, a: string, n: string, b: string) returns (c: string)
    requires input == a + "[" + n + "]" + b && AllSpace(a)
    ensures Strip(input) == "[" + n + "]" + c
  {
    var rest := "[" + n + "]" + b;
    assert input == a + rest;
    LStripBlanks(a, rest);
    assert LStrip(rest) == rest;
    if RStrip(b) == [] {
      RStripIs(b);
      RStripBlanks("[" + n + "]", b);
      assert b[|RStrip(b)|..] == b;
      var head := "[" + n + "]";
      assert head[|head| - 1] == ']' && RStrip(head) == head;
      c := "";
      assert head + c == head;
    } else {
      RStripAfter("[" + n + "]", b);
      c := RStrip(b);
    }
  }

  /** An entry: the key is what is before the first equals sign, trimmed and in lower case, and the value
      is read from what follows it. */
  lemma EntryIs(input: string, a: string, b: string, section: string)
    requires input == a + "=" + b && '=' !in a && !AllSpace(a) && !Begins(input, '#') && !IsHeading(input)
    ensures ParseLine(input, section) == Value(Lwc(Strip(a)), ReadRest(Strip(b)))
  {
    LStripIs(a);
    var blanks, key := a[..|a| - |LStrip(a)|], LStrip(a);
    BlankIff(a);
    assert key != [];
    assert a == blanks + key;
    var line := key + "=" + RStrip(b);
    EntryStrips(input, blanks, key, b);
    ParseStripped(input, section);
    EndsOf(input, '#');
    EndsOf(input, '[');
    EndsOf(input, ']');
    assert line[0] == key[0];
    ParseKeyLine(line, key, RStrip(b), section);
    StripCommutes(b);
    assert LStrip(key) == key;
  }

  lemma EntryStrips(input: string, blanks: string, key: string, b: string)
    requires input == blanks + key + "=" + b && AllSpace(blanks) && key != [] && !IsSpace(key[0])
    ensures Strip(input) == key + "=" + RStrip(b)
  {
    var rest := key + "=" + b;
    assert input == blanks + rest;
    LStripBlanks(blanks, rest);
    assert LStrip(rest) == rest;
    var head := key + "=";
    if RStrip(b) == [] {
      RStripIs(b);
      assert b[|RStrip(b)|..] == b && rest == head + b;
      RStripBlanks(head, b);
      assert head[|head| - 1] == '=' && RStrip(head) == head;
      assert head + RStrip(b) == head;
    } else {
      RStripAfter(head, b);
    }
  }

  /** What stands in quotes, if there is anything, is the value, trimmed, comment characters and all ... */
  lemma QuotedValue(quote: char, x: string, tail: string)
    requires (quote == '\"' || quote == '\'') && x != [] && quote !in x
    ensures ReadRest([quote] + x + [quote] + tail) == Unquoted(Strip(x))
  {
    var u := [quote] + x + [quote] + tail;
    assert u[1..] == x + ([quote] + tail);
    SpanUntil(x, [quote] + tail, quote);
    assert u[1..1 + |x|] == x;
  }

  /** A quote with something behind it that is not the same quote. */
  predicate Quotation(u: string, quote: char) {
    |u| >= 2 && u[0] == quote && u[1] != quote
  }

  lemma NoQuotation(u: string, quote: char)
    requires !Quotation(u, quote)
    ensures Quoted(u, quote) == 0
  {
    if |u| >= 2 && u[0] == quote {
      assert u[1..][0] == u[1];
    }
  }

  /** ... otherwise what is before a semicolon or a hash is, trimmed, and empty quotes are nothing. */
  lemma PlainValue(x: string, rest: string)
    requires ';' !in x && '#' !in x && (rest == [] || rest[0] == ';' || rest[0] == '#')
    requires !Quotation(x + rest, '\"') && !Quotation(x + rest, '\'')
    ensures ReadRest(x + rest) == Unquoted(Strip(x))
  {
    NoQuotation(x + rest, '\"');
    NoQuotation(x + rest, '\'');
    SpanPlain(x, rest);
    assert (x + rest)[..|x|] == x;
  }

  lemma {:induction false} SpanPlain(x: string, rest: string)
    requires ';' !in x && '#' !in x && (rest == [] || rest[0] == ';' || rest[0] == '#')
    ensures Span(x + rest, Until({';', '#'})) == |x|
  {
    if x == [] {
      assert x + rest == rest;
    } else {
      assert (x + rest)[1..] == x[1..] + rest;
      SpanPlain(x[1..], rest);
    }
  }

  // ------------------------------------------------------------------ lines that say nothing

  /** A comment or a blank line. */
  ghost predicate SaysNothing(line: string) {
    AllSpace(line) || Begins(line, '#')
  }

  lemma RStripKeeps(line: string)
    ensures SaysNothing(line) ==> SaysNothing(RStrip(line))
  {
    StripCommutes(line);
    StripIsTrimmed(line);
    EndsOf(line, '#');
    BlankIff(line);
    RStripTwice(line);
    EndsOf(RStrip(line), '#');
    BlankIff(RStrip(line));
  }

  lemma RStripTwice(line: string)
    ensures Strip(RStrip(line)) == Strip(line)
  {
    RStripIs(line);
    StripCommutes(line);
    StripCommutes(RStrip(line));
    assert RStrip(RStrip(line)) == RStrip(line);
  }

  lemma NothingFed(st: Loader, line: string)
    requires st.slots != [] && st.prefix == "" && SaysNothing(line) && !EndsInBackslash(RStrip(line))
    ensures Feed(st, line) == st
  {
    assert st.prefix + line == line;
    RStripKeeps(line);
    LineKinds(RStrip(line), st.section);
    assert st.(prefix := "") == st;
  }

  /** What happens to the lines before does not depend on the rest, if one of them is too long. */
  lemma StopsBefore(lines: seq<string>, rest: string)
    requires NoBreaks(lines) && !AllEnd(lines)
    ensures Load(Join(lines) + rest) == if After(lines[..Read(lines)]).fits then Rejected else Overrun
  {
    var n := Read(lines);
    ReadIs(lines);
    JoinRest(lines, n, rest);
    LoadLines(lines[..n], Join(lines[n..]) + rest);
    StopsThere(After(lines[..n]), lines[n], Join(lines[n + 1..]) + rest);
  }

  /** A comment or a blank line may be put in, or taken out, after any lines that are complete: the file
      loads as before.  It must be read whole, and not go on with the next line. */
  lemma NothingChanges(lines: seq<string>, line: string, rest: string)
    requires NoBreaks(lines) && Buffer(lines) == "" && SaysNothing(line) && Readable(line)
    ensures Load(Join(lines) + (line + "\n" + rest)) == Load(Join(lines) + rest)
  {
    if AllEnd(lines) {
      var st := After(lines);
      LoadLines(lines, rest);
      LoadLines(lines, line + "\n" + rest);
      if st.fits {
        LoadLine(st, line, rest);
        NothingFed(st, line);
      }
    } else {
      StopsBefore(lines, rest);
      StopsBefore(lines, line + "\n" + rest);
    }
  }

  // ------------------------------------------------------------------- continued lines

  lemma BackslashEnds(x: string, blanks: string)
    requires AllSpace(blanks)
    ensures RStrip(x + "\\" + blanks) == x + "\\"
  {
    RStripBlanks(x + "\\", blanks);
    var t := x + "\\";
    assert t[|t| - 1] == '\\' && RStrip(t) == t;
  }

  lemma ContinuedFed(st: Loader, x: string, blanks: string, y: string)
    requires st.slots != [] && st.prefix == "" && AllSpace(blanks)
    ensures Feed(Feed(st, x + "\\" + blanks), y) == Feed(st, x + y)
  {
    var line := x + "\\" + blanks;
    assert "" + line == line && "" + (x + y) == x + y;
    BackslashEnds(x, blanks);
    assert (x + "\\")[..|x|] == x;
    assert Feed(st, line) == st.(prefix := x);
    assert st.(prefix := x).(prefix := "") == st && st.(prefix := "") == st;
  }

  /** A line that ends in a backslash, blanks after it or not, goes on with the next one: the file loads as
      it does with the two written as one, as long as all of them are read whole. */
  lemma ContinuedLine(lines: seq<string>, x: string, blanks: string, y: string, rest: string)
    requires NoBreaks(lines) && Buffer(lines) == "" && AllSpace(blanks)
    requires '\n' !in x && '\n' !in blanks && '\n' !in y && |x| + |blanks| + 2 < ASCIILINESZ && |x| + |y| + 1 < ASCIILINESZ
    ensures Load(Join(lines) + (x + "\\" + blanks + "\n" + (y + "\n" + rest))) == Load(Join(lines) + (x + y + "\n" + rest))
  {
    var line := x + "\\" + blanks;
    if AllEnd(lines) {
      var st := After(lines);
      LoadLines(lines, line + "\n" + (y + "\n" + rest));
      LoadLines(lines, x + y + "\n" + rest);
      if st.fits {
        ContinuedLoads(st, x, blanks, y, rest);
      }
    } else {
      StopsBefore(lines, line + "\n" + (y + "\n" + rest));
      StopsBefore(lines, x + y + "\n" + rest);
    }
  }

  lemma ContinuedLoads(st: Loader, x: string, blanks: string, y: string, rest: string)
    requires st.slots != [] && st.fits && st.prefix == "" && AllSpace(blanks)
    requires '\n' !in x && '\n' !in blanks && '\n' !in y && |x| + |blanks| + 2 < ASCIILINESZ && |x| + |y| + 1 < ASCIILINESZ
    ensures LoadFrom(st, x + "\\" + blanks + "\n" + (y + "\n" + rest)) == LoadFrom(st, x + y + "\n" + rest)
  {
    var line := x + "\\" + blanks;
    LoadLine(st, line, y + "\n" + rest);
    BackslashEnds(x, blanks);
    assert "" + line == line && (x + "\\")[..|x|] == x;
    assert Feed(st, line) == st.(prefix := x);
    LoadLine(st.(prefix := x), y, rest);
    LoadLine(st, x + y, rest);
    ContinuedFed(st, x, blanks, y);
  }
}
