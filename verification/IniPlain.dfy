/**
  A dictionary without sections: iniparser_dump_ini writes its entries as they are, and loading them puts
  them into the section without a name.
*/
module IniPlain {
  import opened DictSlots
  import opened IniText
  import opened IniLine
  import opened IniFile
  import opened IniRoundTrip
  import opened IniKinds

  // ------------------------------------------------------------------- what is written

  function Entries(s: Slots): seq<Entry> {
    if s == [] then []
    else
      var k := |s| - 1;
      Entries(s[..k]) + if s[k].Some? then [s[k].value] else []
  }

  lemma {:induction false} EntriesAre(s: Slots)
    ensures forall e :: e in Entries(s) <==> Some(e) in s
    ensures |PlainLines(s)| == |Entries(s)| && forall i :: 0 <= i < |Entries(s)| ==> PlainLines(s)[i] == PlainLine(Entries(s)[i])
  {
    if s != [] {
      var k := |s| - 1;
      EntriesAre(s[..k]);
      assert s == s[..k] + [s[k]];
    }
  }

  /** Without a section the text is one line for every entry, with its whole key and its value, each entry
      once, in slot order. */
  lemma PlainWritten(s: Slots) returns (entries: seq<Entry>, lines: seq<string>)
    requires Distinct(s) && Sections(s) == []
    ensures Dump(s) == Some(Join(lines)) && |lines| == |entries|
    ensures forall i :: 0 <= i < |lines| ==> lines[i] == entries[i].key + " = " + if entries[i].val.Some? then entries[i].val.value else "(null)"
    ensures forall e :: e in entries <==> Some(e) in s
    ensures forall i, j :: 0 <= i < j < |entries| ==> Find(s, entries[i].key) < Find(s, entries[j].key)
  {
    entries, lines := Entries(s), PlainLines(s);
    EntriesAre(s);
    EntriesInOrder(s, |s|);
    assert s[..|s|] == s;
  }

  lemma {:induction false} EntriesInOrder(s: Slots, k: nat)
    requires Distinct(s) && k <= |s|
    ensures var es := Entries(s[..k]);
      && (forall i :: 0 <= i < |es| ==> Find(s, es[i].key) < k)
      && (forall i, j :: 0 <= i < j < |es| ==> Find(s, es[i].key) < Find(s, es[j].key))
    decreases k
  {
    if k > 0 {
      EntriesInOrder(s, k - 1);
      assert s[..k][..k - 1] == s[..k - 1] && s[..k][k - 1] == s[k - 1];
      assert Entries(s[..k]) == Entries(s[..k - 1]) + if s[k - 1].Some? then [s[k - 1].value] else [];
      if s[k - 1].Some? {
        FoundAt(s, s[k - 1].value.key, k - 1);
      }
    }
  }

  // -------------------------------------------------------------------- what is loaded

  lemma {:induction false} PlainLineParses(k: string, v: string, section: string)
    requires GoodKey(k) && !LooksLikeSection(k, v)
    ensures ParseLine(RStrip(k + " = " + v), section) == Value(k, ReadBack(v))
  {
    var input, a, b := k + " = " + v, k + " ", " " + v;
    assert input == a + "=" + b;
    PlainKind(k, v);
    KeyStrips(k);
    ValueStrips(v);
    EntryIs(input, a, b, section);
    ParseTrimmed(input, section);
  }

  lemma {:induction false} ParseTrimmed(input: string, section: string)
    ensures ParseLine(RStrip(input), section) == ParseLine(input, section)
  {
    RStripTwice(input);
  }

  lemma {:induction false} PlainKind(k: string, v: string)
    requires GoodKey(k) && !LooksLikeSection(k, v)
    ensures var input := k + " = " + v; !Begins(input, '#') && !IsHeading(input)
  {
    var input := k + " = " + v;
    PlainStrips(k, v);
    EndsOf(input, '#');
    EndsOf(input, '[');
    EndsOf(input, ']');
  }

  lemma KeyStrips(k: string)
    requires Tidy(k)
    ensures Lwc(Strip(k + " ")) == k && !AllSpace(k + " ")
  {
    assert LStrip(k + " ") == k + " ";
    RStripBlanks(k, " ");
    assert (k + " ")[0] == k[0];
  }

  lemma ValueStrips(v: string)
    ensures Strip(" " + v) == Strip(v)
  {
    LStripBlanks(" ", v);
  }

  lemma PlainStrips(k: string, v: string)
    requires Tidy(k)
    ensures var t := Strip(k + " = " + v);
      t != [] && t[0] == k[0] && t[|t| - 1] == if Strip(v) == [] then '=' else Strip(v)[|Strip(v)| - 1]
  {
    var input := k + " = " + v;
    assert input == "" + (k + " ") + "=" + (" " + v);
    EntryStrips(input, "", k + " ", " " + v);
    ValueStrips(v);
    StripCommutes(v);
    StripCommutes(" " + v);
  }

  ghost predicate PlainGood(e: Entry) {
    GoodKey(e.key) && !LooksLikeSection(e.key, Shown(e.val)) && Readable(PlainLine(e))
  }

  /** Every line that is written can be read. */
  ghost predicate PlainPrintable(s: Slots) {
    forall i :: 0 <= i < |s| && s[i].Some? ==> PlainGood(s[i].value)
  }

  function PlainOps(s: Slots): seq<Op> {
    if s == [] then []
    else
      var k := |s| - 1;
      PlainOps(s[..k]) + if s[k].Some? then [PlainOp(s[k].value)] else []
  }

  lemma {:induction false} PlainLinesLoad(s: Slots)
    requires PlainPrintable(s)
    ensures ProcessAll(START, PlainLines(s)) == START.(slots := SlotsAfter(EmptySlots(), PlainOps(s)))
    ensures forall i :: 0 <= i < |PlainLines(s)| ==> Readable(PlainLines(s)[i])
  {
    if s != [] {
      var k := |s| - 1;
      PlainLinesLoad(s[..k]);
      if s[k].Some? {
        PlainEntryLoads(s);
      } else {
        assert PlainLines(s) == PlainLines(s[..k]) && PlainOps(s) == PlainOps(s[..k]);
      }
    }
  }

  function PlainOp(e: Entry): Op {
    Set(":" + e.key, Some(ReadBack(Shown(e.val))))
  }

  lemma {:induction false} PlainFeed(st: Loader, e: Entry)
    requires st.slots != [] && st.fits && st.section == "" && st.errs == 0 && PlainGood(e)
    ensures ProcessAll(st, [PlainLine(e)]) == st.(slots := SlotsAfter(st.slots, [PlainOp(e)]))
  {
    PlainLineParses(e.key, Shown(e.val), "");
    ProcessOne(st, PlainLine(e));
    SlotsAfterOne(st.slots, PlainOp(e));
    NamelessFollow(st, e.key, ReadBack(Shown(e.val)));
  }

  lemma {:induction false} NamelessFollow(st: Loader, key: string, val: string)
    requires st.slots != [] && st.section == "" && st.errs == 0 && |key| < ASCIILINESZ
    ensures Follow(st, Value(key, val)) == st.(slots := Put(st.slots, ":" + key, Some(val)))
  {
    assert "" + ":" + key == ":" + key;
  }

  lemma {:induction false} PlainEntryLoads(s: Slots)
    requires s != [] && s[|s| - 1].Some? && PlainGood(s[|s| - 1].value)
    requires ProcessAll(START, PlainLines(s[..|s| - 1])) == START.(slots := SlotsAfter(EmptySlots(), PlainOps(s[..|s| - 1])))
    ensures ProcessAll(START, PlainLines(s)) == START.(slots := SlotsAfter(EmptySlots(), PlainOps(s)))
  {
    var k := |s| - 1;
    var e := s[k].value;
    ProcessAllAppend(START, PlainLines(s[..k]), [PlainLine(e)]);
    PlainFeed(ProcessAll(START, PlainLines(s[..k])), e);
    SlotsAfterAppend(EmptySlots(), PlainOps(s[..k]), [PlainOp(e)]);
  }

  /** The dictionary that comes back: every key with a colon in front. */
  ghost predicate ComesBackAs(m: map<string, Option<string>>, m': map<string, Option<string>>) {
    && (forall k :: k in m ==> ":" + k in m' && m'[":" + k] == Some(ReadBack(Shown(m[k]))))
    && (forall k :: k in m' ==> k != [] && k[0] == ':' && k[1..] in m)
  }

  lemma {:induction false} PlainSettings(s: Slots)
    requires Distinct(s)
    ensures ComesBackAs(AsMap(s), MapAfter(map[], PlainOps(s)))
  {
    if s != [] {
      var k := |s| - 1;
      PlainSettings(s[..k]);
      if s[k].Some? {
        var m, m' := AsMap(s[..k]), MapAfter(map[], PlainOps(s[..k]));
        assert PlainOps(s)[..|PlainOps(s)| - 1] == PlainOps(s[..k]);
        OneMoreBack(m, m', s[k].value);
      } else {
        assert PlainOps(s) == PlainOps(s[..k]);
      }
    }
  }

  lemma OneMoreBack(m: map<string, Option<string>>, m': map<string, Option<string>>, e: Entry)
    requires ComesBackAs(m, m')
    ensures ComesBackAs(m[e.key := e.val], m'[":" + e.key := Some(ReadBack(Shown(e.val)))])
  {
    assert (":" + e.key)[1..] == e.key;
    forall k | k in m && k != e.key ensures ":" + k != ":" + e.key {
      assert (":" + k)[1..] == k;
    }
  }

  /** Loading what was written gives the same entries under other names: every key has a colon in front. */
  lemma PlainReload(s: Slots)
    requires Distinct(s) && Sections(s) == [] && PlainPrintable(s)
    ensures Reloaded(s).Loaded? && Distinct(Reloaded(s).slots) && ComesBackAs(AsMap(s), AsMap(Reloaded(s).slots))
  {
    PlainLinesLoad(s);
    LoadJoin(PlainLines(s));
    EmptyIsEmpty();
    RefinesMap(EmptySlots(), PlainOps(s));
    PlainSettings(s);
  }

  lemma {:induction false} LongestKey(s: Slots) returns (k: string)
    requires Distinct(s) && AsMap(s) != map[]
    ensures k in AsMap(s) && forall j :: j in AsMap(s) ==> |j| <= |k|
  {
    var n := |s| - 1;
    if AsMap(s[..n]) == map[] {
      k := s[n].value.key;
    } else {
      k := LongestKey(s[..n]);
      if s[n].Some? && |s[n].value.key| > |k| {
        k := s[n].value.key;
      }
    }
  }

  /** So a dictionary without sections never comes back as it was, unless it is empty. */
  lemma PlainRoundTripIff(s: Slots)
    requires Distinct(s) && Sections(s) == [] && PlainPrintable(s)
    ensures Reloaded(s).Loaded? && (AsMap(Reloaded(s).slots) == AsMap(s) <==> AsMap(s) == map[])
  {
    PlainReload(s);
    var m, m' := AsMap(s), AsMap(Reloaded(s).slots);
    if m == map[] {
      assert forall k :: k !in m';
    } else {
      var k := LongestKey(s);
      assert ":" + k in m' && ":" + k !in m;
    }
  }
}
