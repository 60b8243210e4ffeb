/**
  The string work of csf/confparser/iniparser.c: blanks, lower case, and the sscanf formats
  that take a line apart.  The scansets follow section 7.19.6.2 of ISO C99; characters are
  those of the C locale.
*/
module IniText {

  /** ASCIILINESZ */
  const ASCIILINESZ: nat := 1024

  /** isspace */
  predicate IsSpace(c: char) {
    c == ' ' || '\t' <= c <= '\r'
  }

  /** tolower */
  function ToLower(c: char): char {
    if 'A' <= c <= 'Z' then (c as int + 32) as char else c
  }

  function Lower(s: string): (t: string)
    ensures |t| == |s| && forall i :: 0 <= i < |s| ==> t[i] == ToLower(s[i])
  {
    seq(|s|, i requires 0 <= i < |s| => ToLower(s[i]))
  }

  /** No capital is left, every capital has become its small letter, and nothing else has changed. */
  lemma LowerIs(s: string, i: nat)
    requires i < |s|
    ensures !('A' <= Lower(s)[i] <= 'Z')
    ensures if 'A' <= s[i] <= 'Z' then Lower(s)[i] as int - 'a' as int == s[i] as int - 'A' as int else Lower(s)[i] == s[i]
    ensures Lower(Lower(s)) == Lower(s)
  {
    forall j | 0 <= j < |s| ensures ToLower(ToLower(s[j])) == ToLower(s[j]) {
    }
  }

  /** strlwc, which stops at the end of its buffer. */
  function Lwc(s: string): string {
    Lower(if |s| <= ASCIILINESZ then s else s[..ASCIILINESZ])
  }

  /** Without the blanks in front. */
  function LStrip(s: string): string {
    if s != [] && IsSpace(s[0]) then LStrip(s[1..]) else s
  }

  /** Without the blanks at the end. */
  function RStrip(s: string): string {
    if s != [] && IsSpace(s[|s| - 1]) then RStrip(s[..|s| - 1]) else s
  }

  /** strstrip */
  function Strip(s: string): string {
    RStrip(LStrip(s))
  }

  // ------------------------------------------------------------------------ sscanf

  /** A blank of the format, a character to match, and the two kinds of scansets. */
  datatype Item = Blank | Char(c: char) | Until(stop: set<char>) | Only(allowed: set<char>)

  predicate Matches(item: Item, c: char)
    requires item.Until? || item.Only?
  {
    if item.Until? then c !in item.stop else c in item.allowed
  }

  /** How many characters a scanset takes. */
  function Span(s: string, item: Item): (n: nat)
    requires item.Until? || item.Only?
    ensures n <= |s| && (forall i :: 0 <= i < n ==> Matches(item, s[i])) && (n < |s| ==> !Matches(item, s[n]))
  {
    if s != [] && Matches(item, s[0]) then 1 + Span(s[1..], item) else 0
  }

  /** The strings sscanf assigns. */
  function Scan(s: string, format: seq<Item>): seq<string>
    decreases |format|
  {
    if format == [] then []
    else match format[0]
      case Blank => Scan(LStrip(s), format[1..])
      case Char(c) => if s != [] && s[0] == c then Scan(s[1..], format[1..]) else []
      case _ =>
        var n := Span(s, format[0]);
        if n == 0 then [] else [s[..n]] + Scan(s[n..], format[1..])
  }

  const SECTION := [Char('['), Until({']'})]
  const KEY := [Until({'='}), Blank, Char('='), Blank]
  const DOUBLE_QUOTED := KEY + [Char('\"'), Until({'\"'}), Char('\"')]
  const SINGLE_QUOTED := KEY + [Char('\''), Until({'\''}), Char('\'')]
  const UNQUOTED := KEY + [Until({';', '#'})]
  const COMMENTED := KEY + [Only({';', '#'})]
  const BARE := [Until({'='}), Blank, Only({'='})]

  // -------------------------------------------------------------------------- lines

  datatype Line = Empty | Comment | Section(name: string) | Value(key: string, val: string) | Error

  /** Quotes around nothing mean nothing. */
  function Unquoted(v: string): string {
    if v == "\"\"" || v == "''" then "" else v
  }

  function KeyOf(key: string): string {
    Lwc(Strip(key))
  }

  function ValueLine(got: seq<string>): Line
    requires |got| == 2
  {
    Value(KeyOf(got[0]), Unquoted(Strip(got[1])))
  }

  /** iniparser_line; an empty section name leaves the one before. */
  function ParseLine(input: string, section: string): Line {
    var line := Strip(input);
    if line == [] then Empty
    else if line[0] == '#' then Comment
    else if line[0] == '[' && line[|line| - 1] == ']' then
      var got := Scan(line, SECTION);
      Section(Lwc(Strip(if |got| == 1 then got[0] else section)))
    else if |Scan(line, DOUBLE_QUOTED)| == 2 then ValueLine(Scan(line, DOUBLE_QUOTED))
    else if |Scan(line, SINGLE_QUOTED)| == 2 then ValueLine(Scan(line, SINGLE_QUOTED))
    else if |Scan(line, UNQUOTED)| == 2 then ValueLine(Scan(line, UNQUOTED))
    else if |Scan(line, COMMENTED)| == 2 then Value(KeyOf(Scan(line, COMMENTED)[0]), "")
    else if |Scan(line, BARE)| == 2 then Value(KeyOf(Scan(line, BARE)[0]), "")
    else Error
  }

  // ------------------------------------------------------------------------- blanks

  ghost predicate Trimmed(s: string) {
    s == [] || (!IsSpace(s[0]) && !IsSpace(s[|s| - 1]))
  }

  ghost predicate AllSpace(s: string) {
    forall i :: 0 <= i < |s| ==> IsSpace(s[i])
  }

  lemma {:induction false} LStripIs(s: string)
    ensures |LStrip(s)| <= |s| && LStrip(s) == s[|s| - |LStrip(s)|..] && AllSpace(s[..|s| - |LStrip(s)|])
    ensures LStrip(s) != [] ==> !IsSpace(LStrip(s)[0])
  {
    if s != [] && IsSpace(s[0]) {
      LStripIs(s[1..]);
      var n := |s| - |LStrip(s)|;
      assert s[..n] == [s[0]] + s[1..][..n - 1];
    }
  }

  lemma {:induction false} RStripIs(s: string)
    ensures |RStrip(s)| <= |s| && RStrip(s) == s[..|RStrip(s)|] && AllSpace(s[|RStrip(s)|..])
    ensures RStrip(s) != [] ==> !IsSpace(RStrip(s)[|RStrip(s)| - 1])
  {
    if s != [] && IsSpace(s[|s| - 1]) {
      var t := s[..|s| - 1];
      RStripIs(t);
      var n := |RStrip(t)|;
      assert t[..n] == s[..n];
      forall i | 0 <= i < |s[n..]| ensures IsSpace(s[n..][i]) {
        assert i < |t[n..]| ==> IsSpace(t[n..][i]) && t[n..][i] == s[n..][i];
      }
    }
  }

  /** Blanks in front do not matter. */
  lemma {:induction false} LStripBlanks(a: string, s: string)
    requires AllSpace(a)
    ensures LStrip(a + s) == LStrip(s)
  {
    if a == [] {
      assert a + s == s;
    } else {
      assert (a + s)[1..] == a[1..] + s;
      LStripBlanks(a[1..], s);
    }
  }

  lemma {:induction false} RStripBlanks(s: string, a: string)
    requires AllSpace(a)
    ensures RStrip(s + a) == RStrip(s)
  {
    if a == [] {
      assert s + a == s;
    } else {
      assert (s + a)[..|s + a| - 1] == s + a[..|a| - 1];
      RStripBlanks(s, a[..|a| - 1]);
    }
  }

  /** What strstrip yields is trimmed, and what is trimmed it leaves alone. */
  lemma StripIsTrimmed(s: string)
    ensures Trimmed(Strip(s)) && (Trimmed(s) <==> Strip(s) == s)
  {
    LStripIs(s);
    RStripIs(LStrip(s));
  }

  /** A piece that begins and ends without a blank, in the middle of a line. */
  lemma RStripAfter(a: string, s: string)
    requires RStrip(s) != []
    ensures RStrip(a + s) == a + RStrip(s)
  {
    RStripIs(s);
    var t := RStrip(s);
    assert a + s == (a + t) + s[|t|..];
    RStripBlanks(a + t, s[|t|..]);
    assert (a + t)[|a + t| - 1] == t[|t| - 1];
  }
}
