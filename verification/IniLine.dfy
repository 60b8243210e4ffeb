/**
  One line out and in again: what iniparser_line makes of a line iniparser_dump_ini prints,
  and exactly which values come back as they were.
*/
module IniLine {
  import opened IniText

  function Blanks(n: nat): (s: string)
    ensures |s| == n && forall i :: 0 <= i < n ==> s[i] == ' '
  {
    seq(n, _ => ' ')
  }

  /** "%-30s" */
  function Padded(k: string): string {
    k + Blanks(if |k| < 30 then 30 - |k| else 0)
  }

  /** "%-30s = %s" */
  function KeyLine(k: string, v: string): string {
    Padded(k) + " = " + v
  }

  /** The key, blanks up to column 30, the equals sign between blanks, and the value. */
  lemma KeyLineLayout(k: string, v: string)
    ensures var line, w := KeyLine(k, v), if |k| < 30 then 30 else |k|;
      && |line| == w + 3 + |v| && line[..|k|] == k && line[w..w + 3] == " = " && line[w + 3..] == v
      && forall i :: |k| <= i < w ==> line[i] == ' '
  {
    assert KeyLine(k, v) == k + Blanks(if |k| < 30 then 30 - |k| else 0) + " = " + v;
  }

  function SectionLine(name: string): string {
    "[" + name + "]"
  }

  /** A name that survives trimming and lower case. */
  ghost predicate Tidy(s: string) {
    s != [] && |s| <= ASCIILINESZ && Trimmed(s) && Lower(s) == s
  }

  ghost predicate GoodSection(name: string) {
    Tidy(name) && ']' !in name
  }

  ghost predicate GoodKey(k: string) {
    Tidy(k) && '=' !in k && k[0] != '#'
  }

  /** A line that begins and ends with a bracket is taken for a section. */
  ghost predicate LooksLikeSection(k: string, v: string) {
    k != [] && k[0] == '[' && Strip(v) != [] && Strip(v)[|Strip(v)| - 1] == ']'
  }

  // ------------------------------------------------------------------- the scansets

  lemma {:induction false} SpanUntil(a: string, b: string, c: char)
    requires c !in a && b != [] && b[0] == c
    ensures Span(a + b, Until({c})) == |a|
  {
    if a == [] {
      assert a + b == b;
    } else {
      assert (a + b)[1..] == a[1..] + b;
      SpanUntil(a[1..], b, c);
    }
  }

  lemma ScanCons(s: string, item: Item, rest: seq<Item>)
    ensures item == Blank ==> Scan(s, [item] + rest) == Scan(LStrip(s), rest)
    ensures item.Char? && s != [] && s[0] == item.c ==> Scan(s, [item] + rest) == Scan(s[1..], rest)
    ensures item.Until? && Span(s, item) > 0 ==> Scan(s, [item] + rest) == [s[..Span(s, item)]] + Scan(s[Span(s, item)..], rest)
  {
    assert ([item] + rest)[1..] == rest;
  }

  /** After the key and the equals sign the rest of the format sees the rest of the line. */
  lemma ScanKey(a: string, b: string, rest: seq<Item>)
    requires a != [] && '=' !in a
    ensures Scan(a + "=" + b, KEY + rest) == [a] + Scan(LStrip(b), rest)
  {
    var s, t := a + "=" + b, "=" + b;
    assert s == a + t && s[..|a|] == a && s[|a|..] == t && t[1..] == b;
    SpanUntil(a, t, '=');
    var f1, f2, f3 := [Blank] + rest, [Char('=')] + ([Blank] + rest), [Blank] + ([Char('=')] + ([Blank] + rest));
    assert KEY + rest == [Until({'='})] + f3;
    ScanCons(s, Until({'='}), f3);
    ScanCons(t, Blank, f2);
    assert LStrip(t) == t;
    ScanCons(t, Char('='), f1);
    ScanCons(b, Blank, rest);
  }

  lemma ScanBare(a: string, b: string)
    requires a != [] && '=' !in a
    ensures |Scan(a + "=" + b, BARE)| == 2 && Scan(a + "=" + b, BARE)[0] == a
  {
    var s := a + "=" + b;
    assert s == a + ("=" + b) && s[|a|..] == "=" + b;
    SpanUntil(a, "=" + b, '=');
    assert BARE[1..] == [Blank, Only({'='})] && BARE[1..][1..] == [Only({'='})];
    assert LStrip("=" + b) == "=" + b;
  }

  /** What is between the quotes, if it is anything. */
  function Quoted(u: string, quote: char): nat {
    if u != [] && u[0] == quote then Span(u[1..], Until({quote})) else 0
  }

  lemma ScanQuoted(u: string, quote: char)
    ensures var got := Scan(u, [Char(quote), Until({quote}), Char(quote)]);
      if Quoted(u, quote) > 0 then got == [u[1..1 + Quoted(u, quote)]] else got == []
  {
    var f := [Char(quote), Until({quote}), Char(quote)];
    assert f[1..] == [Until({quote}), Char(quote)] && f[1..][1..] == [Char(quote)] && f[1..][1..][1..] == [];
    if Quoted(u, quote) > 0 {
      var n := Quoted(u, quote);
      assert u[1..][..n] == u[1..1 + n];
      assert Scan(u[1..][n..], [Char(quote)]) == [];
    }
  }

  lemma ScanOne(u: string, item: Item)
    requires item.Until? || item.Only?
    ensures Scan(u, [item]) == if Span(u, item) > 0 then [u[..Span(u, item)]] else []
  {
    assert [item][1..] == [];
  }

  // ------------------------------------------------------------------- the value

  /** What the rest of a line after the equals sign stands for. */
  function ReadRest(u: string): string {
    if Quoted(u, '\"') > 0 then Unquoted(Strip(u[1..1 + Quoted(u, '\"')]))
    else if Quoted(u, '\'') > 0 then Unquoted(Strip(u[1..1 + Quoted(u, '\'')]))
    else Unquoted(Strip(u[..Span(u, Until({';', '#'}))]))
  }

  /** The value that comes back for one that was printed. */
  function ReadBack(v: string): string {
    ReadRest(Strip(v))
  }

  /** What the formats find in a line with a key. */
  lemma {:induction false} QuotedFormats(a: string, b: string)
    requires a != [] && '=' !in a
    ensures var line, u := a + "=" + b, LStrip(b);
      && Scan(line, DOUBLE_QUOTED) == [a] + (if Quoted(u, '\"') > 0 then [u[1..1 + Quoted(u, '\"')]] else [])
      && Scan(line, SINGLE_QUOTED) == [a] + (if Quoted(u, '\'') > 0 then [u[1..1 + Quoted(u, '\'')]] else [])
  {
    ScanKey(a, b, [Char('\"'), Until({'\"'}), Char('\"')]);
    ScanKey(a, b, [Char('\''), Until({'\''}), Char('\'')]);
    ScanQuoted(LStrip(b), '\"');
    ScanQuoted(LStrip(b), '\'');
  }

  lemma {:induction false} BareFormats(a: string, b: string)
    requires a != [] && '=' !in a
    ensures var line, u := a + "=" + b, LStrip(b); var n := Span(u, Until({';', '#'}));
      && Scan(line, UNQUOTED) == [a] + (if n > 0 then [u[..n]] else [])
      && |Scan(line, COMMENTED)| > 0 && Scan(line, COMMENTED)[0] == a
      && |Scan(line, BARE)| == 2 && Scan(line, BARE)[0] == a
  {
    ScanKey(a, b, [Until({';', '#'})]);
    ScanKey(a, b, [Only({';', '#'})]);
    ScanOne(LStrip(b), Until({';', '#'}));
    ScanBare(a, b);
  }

  lemma {:induction false} ParseKeyLine(line: string, a: string, b: string, section: string)
    requires line == a + "=" + b && Strip(line) == line && a != [] && '=' !in a && a[0] != '#'
    requires !(a[0] == '[' && line[|line| - 1] == ']')
    ensures ParseLine(line, section) == Value(KeyOf(a), ReadRest(LStrip(b)))
  {
    var u := LStrip(b);
    assert line[0] == a[0];
    QuotedFormats(a, b);
    BareFormats(a, b);
    if Quoted(u, '\"') > 0 || Quoted(u, '\'') > 0 {
      ParseQuoted(line, a, u, section);
    } else {
      ParseBare(line, a, u, section);
    }
  }

  lemma {:induction false} ParseQuoted(line: string, a: string, u: string, section: string)
    requires Strip(line) == line != [] && line[0] != '#' && !(line[0] == '[' && line[|line| - 1] == ']')
    requires Scan(line, DOUBLE_QUOTED) == [a] + (if Quoted(u, '\"') > 0 then [u[1..1 + Quoted(u, '\"')]] else [])
    requires Scan(line, SINGLE_QUOTED) == [a] + (if Quoted(u, '\'') > 0 then [u[1..1 + Quoted(u, '\'')]] else [])
    requires Quoted(u, '\"') > 0 || Quoted(u, '\'') > 0
    ensures ParseLine(line, section) == Value(KeyOf(a), ReadRest(u))
  {
  }

  /** Neither kind of quotes. */
  lemma {:induction false} ParseBare(line: string, a: string, u: string, section: string)
    requires Strip(line) == line != [] && line[0] != '#' && !(line[0] == '[' && line[|line| - 1] == ']')
    requires Scan(line, DOUBLE_QUOTED) == [a] && Scan(line, SINGLE_QUOTED) == [a]
    requires var n := Span(u, Until({';', '#'})); Scan(line, UNQUOTED) == [a] + (if n > 0 then [u[..n]] else [])
    requires |Scan(line, COMMENTED)| > 0 && Scan(line, COMMENTED)[0] == a && |Scan(line, BARE)| == 2 && Scan(line, BARE)[0] == a
    ensures ParseLine(line, section) == Value(KeyOf(a), Unquoted(Strip(u[..Span(u, Until({';', '#'}))])))
  {
    if Span(u, Until({';', '#'})) == 0 {
      assert u[..0] == [] && Strip([]) == [];
    }
  }

  // ------------------------------------------------------------------ printed lines

  lemma {:induction false} StripCommutes(v: string)
    ensures LStrip(RStrip(v)) == Strip(v)
    ensures Strip(v) == [] <==> RStrip(v) == []
    ensures Strip(v) == [] <==> AllSpace(v)
    ensures Strip(v) != [] ==> Strip(v)[|Strip(v)| - 1] == RStrip(v)[|RStrip(v)| - 1]
  {
    if Strip(v) == [] {
      StripOfBlanks(v);
    } else {
      StripOfText(v);
    }
  }

  lemma {:induction false} StripOfBlanks(v: string)
    requires Strip(v) == []
    ensures AllSpace(v) && RStrip(v) == []
  {
    LStripIs(v);
    RStripIs(LStrip(v));
    var n := |v| - |LStrip(v)|;
    assert v == v[..n] + LStrip(v);
    RStripBlanks([], v);
    assert [] + v == v;
  }

  lemma {:induction false} StripOfText(v: string)
    requires Strip(v) != []
    ensures LStrip(RStrip(v)) == Strip(v) && RStrip(v) != [] && !AllSpace(v)
    ensures Strip(v)[|Strip(v)| - 1] == RStrip(v)[|RStrip(v)| - 1]
  {
    var w := LStrip(v);
    LStripIs(v);
    RStripIs(w);
    var n := |v| - |w|;
    var blanks := v[..n];
    assert v == blanks + w;
    RStripAfter(blanks, w);
    LStripBlanks(blanks, RStrip(w));
    assert RStrip(w)[0] == w[0] == v[n];
    assert LStrip(RStrip(w)) == RStrip(w);
  }

  lemma PaddedKey(k: string)
    requires GoodKey(k)
    ensures var a := Padded(k) + " "; a[0] == k[0] && '=' !in a && KeyOf(a) == k
  {
    var n := if |k| < 30 then 30 - |k| else 0;
    var a := Padded(k) + " ";
    assert a == k + (Blanks(n) + " ");
    assert LStrip(a) == a;
    RStripBlanks(k, Blanks(n) + " ");
  }

  /** A printed line, less the blanks at its end. */
  lemma PrintedIs(k: string, v: string)
    requires GoodKey(k)
    ensures var a := Padded(k) + " ";
      RStrip(KeyLine(k, v)) == a + "=" + if Strip(v) == [] then "" else " " + RStrip(v)
  {
    var a := Padded(k) + " ";
    StripCommutes(v);
    if Strip(v) == [] {
      assert KeyLine(k, v) == (a + "=") + (" " + v);
      RStripBlanks(a + "=", " " + v);
      assert a + "=" + "" == a + "=";
    } else {
      assert KeyLine(k, v) == (a + "=" + " ") + v;
      RStripAfter(a + "=" + " ", v);
      assert (a + "=" + " ") + RStrip(v) == a + "=" + (" " + RStrip(v));
    }
  }

  /** A key and its value as they come back. */
  lemma PrintedLineParses(k: string, v: string, section: string)
    requires GoodKey(k) && !LooksLikeSection(k, v)
    ensures ParseLine(RStrip(KeyLine(k, v)), section) == Value(k, ReadBack(v))
  {
    var a, b := Padded(k) + " ", if Strip(v) == [] then "" else " " + RStrip(v);
    var line := a + "=" + b;
    PaddedKey(k);
    PrintedIs(k, v);
    StripCommutes(v);
    RStripIs(v);
    assert line[0] == k[0];
    assert line[|line| - 1] == if Strip(v) == [] then '=' else RStrip(v)[|RStrip(v)| - 1];
    StripIsTrimmed(line);
    ParseKeyLine(line, a, b, section);
    LStripBlanks(" ", RStrip(v));
  }

  /** What is before the first closing bracket. */
  lemma {:induction false} HeadingScan(line: string, n: string, c: string)
    requires line == "[" + n + "]" + c && ']' !in n
    ensures line[0] == '[' && Scan(line, SECTION) == if n == "" then [] else [n]
  {
    var rest := line[1..];
    assert rest == n + ("]" + c) && rest[..|n|] == n;
    assert SECTION == [Char('[')] + [Until({']'})];
    ScanCons(line, Char('['), [Until({']'})]);
    SpanUntil(n, "]" + c, ']');
    ScanOne(rest, Until({']'}));
  }

  lemma {:induction false} SectionLineParses(name: string, section: string)
    requires GoodSection(name)
    ensures ParseLine(RStrip(SectionLine(name)), section) == Section(name)
  {
    var line := SectionLine(name);
    assert line == "[" + name + "]" + "";
    assert line[|line| - 1] == ']' && RStrip(line) == line;
    HeadingScan(line, name, "");
    StripIsTrimmed(line);
    StripIsTrimmed(name);
  }

  // --------------------------------------------------------------- which values survive

  /** Trimmed, without comment characters, not empty quotes, and not the beginning of a quotation. */
  ghost predicate Survives(v: string) {
    && Trimmed(v) && ';' !in v && '#' !in v && v != "\"\"" && v != "''"
    && !(|v| >= 2 && v[0] == '\"' && v[1] != '\"') && !(|v| >= 2 && v[0] == '\'' && v[1] != '\'')
  }

  lemma {:induction false} SpanAll(u: string, item: Item)
    requires item.Until? || item.Only?
    ensures Span(u, item) == |u| <==> forall i :: 0 <= i < |u| ==> Matches(item, u[i])
  {
    if u != [] && Matches(item, u[0]) {
      SpanAll(u[1..], item);
    }
  }

  /** A value comes back as it was exactly when it survives. */
  lemma ReadBackIff(v: string)
    ensures ReadBack(v) == v <==> Survives(v)
  {
    StripIsTrimmed(v);
    StripShorter(v);
    var u := Strip(v);
    assert |u| >= 2 ==> u[1..][0] == u[1];
    if Quoted(u, '\"') > 0 {
      QuotationDiffers(u, '\"');
    } else if Quoted(u, '\'') > 0 {
      QuotationDiffers(u, '\'');
    } else {
      var n := Span(u, Until({';', '#'}));
      SpanAll(u, Until({';', '#'}));
      StripIsTrimmed(u[..n]);
      StripShorter(u[..n]);
    }
  }

  lemma StripShorter(s: string)
    ensures |Strip(s)| <= |s|
  {
    LStripIs(s);
    RStripIs(LStrip(s));
  }

  /** What is read from between quotes is shorter than what was written. */
  lemma QuotationDiffers(u: string, quote: char)
    requires Quoted(u, quote) > 0
    ensures |Unquoted(Strip(u[1..1 + Quoted(u, quote)]))| < |u|
  {
    StripShorter(u[1..1 + Quoted(u, quote)]);
  }

  /** Values that do not come back: one with a comment character, a quoted one, a padded one. */
  lemma LostValues()
    ensures ReadBack("a;b") != "a;b" && ReadBack("\"a\"") != "\"a\"" && ReadBack(" a") != " a"
  {
    ReadBackIff("a;b");
    ReadBackIff("\"a\"");
    ReadBackIff(" a");
    assert "a;b"[1] == ';';
  }
}
