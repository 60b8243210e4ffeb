/**
  Loading what iniparser_dump_ini has written: exactly what comes back, and exactly when it
  is the dictionary that was written.
*/
module IniRoundTrip {
  import opened DictSlots
  import opened IniText
  import opened IniLine
  import opened IniFile

  // --------------------------------------------------------------- names and entries

  /** The part of a key before its first colon. */
  function SectionOf(key: string): (sec: string)
    ensures ':' !in sec && |sec| <= |key| && sec == key[..|sec|] && (|sec| < |key| ==> key[|sec|] == ':')
  {
    if key == [] || key[0] == ':' then ""
    else
      var sec := SectionOf(key[1..]);
      assert key[..|sec| + 1] == [key[0]] + key[1..][..|sec|];
      [key[0]] + sec
  }

  lemma {:induction false} SectionOfIs(sec: string, k: string)
    requires ':' !in sec
    ensures SectionOf(sec + ":" + k) == sec
  {
    if sec == [] {
      assert sec + ":" + k == ":" + k;
    } else {
      assert (sec + ":" + k)[1..] == sec[1..] + ":" + k;
      SectionOfIs(sec[1..], k);
      assert sec == [sec[0]] + sec[1..];
    }
  }

  /** An entry is written with the section before its first colon, and with no other. */
  lemma BelongsIff(e: Entry, sec: string)
    requires ':' !in sec
    ensures Belongs(Some(e), sec) <==> ':' in e.key && SectionOf(e.key) == sec
    ensures Belongs(Some(e), sec) ==> e.key == sec + ":" + e.key[|sec| + 1..]
  {
    if Belongs(Some(e), sec) {
      assert e.key == sec + ":" + e.key[|sec| + 1..];
      SectionOfIs(sec, e.key[|sec| + 1..]);
      assert e.key[|sec|] == ':';
    }
    if ':' in e.key && SectionOf(e.key) == sec {
      assert e.key == e.key[..|sec|] + [e.key[|sec|]] + e.key[|sec| + 1..];
    }
  }

  ghost predicate GoodSectionEntry(e: Entry) {
    GoodSection(e.key) && Readable(SectionLine(e.key))
  }

  ghost predicate GoodKeyEntry(e: Entry, sec: string) {
    Belongs(Some(e), sec) ==>
      && GoodKey(e.key[|sec| + 1..]) && !LooksLikeSection(e.key[|sec| + 1..], Text(e.val))
      && Readable(EntryLine(e, sec))
  }

  /** Every name and line that is written can be read. */
  ghost predicate Printable(s: Slots) {
    && (forall i :: 0 <= i < |s| && s[i].Some? && ':' !in s[i].value.key ==> GoodSectionEntry(s[i].value))
    && (forall i, sec :: 0 <= i < |s| && s[i].Some? && sec in Sections(s) ==> GoodKeyEntry(s[i].value, sec))
  }

  // ----------------------------------------------------- the file as a run of settings

  function EntryOp(e: Entry): Op {
    Set(e.key, Some(ReadBack(Text(e.val))))
  }

  /** What loading the lines of a section sets. */
  function KeyOps(s: Slots, sec: string): seq<Op> {
    if s == [] then []
    else
      var k := |s| - 1;
      KeyOps(s[..k], sec) + if Belongs(s[k], sec) then [EntryOp(s[k].value)] else []
  }

  function BlockOps(s: Slots, secs: seq<string>): seq<Op> {
    if secs == [] then []
    else
      var k := |secs| - 1;
      BlockOps(s, secs[..k]) + ([Set(secs[k], None)] + KeyOps(s, secs[k]))
  }

  lemma {:induction false} SlotsAfterAppend(s: Slots, a: seq<Op>, b: seq<Op>)
    requires s != []
    ensures SlotsAfter(s, a + b) == SlotsAfter(SlotsAfter(s, a), b)
  {
    if b == [] {
      assert a + b == a;
    } else {
      assert (a + b)[..|a + b| - 1] == a + b[..|b| - 1];
      SlotsAfterAppend(s, a, b[..|b| - 1]);
    }
  }

  lemma SlotsAfterOne(s: Slots, op: Op)
    requires s != []
    ensures SlotsAfter(s, [op]) == Applied(s, op)
  {
    assert [op][..0] == [];
  }

  lemma LineParses(e: Entry, sec: string)
    requires Belongs(Some(e), sec) && GoodKeyEntry(e, sec)
    ensures ParseLine(RStrip(EntryLine(e, sec)), sec) == Value(e.key[|sec| + 1..], ReadBack(Text(e.val)))
  {
    PrintedLineParses(e.key[|sec| + 1..], Text(e.val), sec);
  }

  /** An entry is set, if its whole name fits. */
  lemma {:induction false} EntryLoads(st: Loader, e: Entry, sec: string)
    requires st.slots != [] && st.fits && st.section == sec && st.errs == 0 && ':' !in sec
    requires Belongs(Some(e), sec) && GoodKeyEntry(e, sec)
    ensures ProcessAll(st, [EntryLine(e, sec)]) ==
      if |e.key| <= ASCIILINESZ then st.(slots := SlotsAfter(st.slots, [EntryOp(e)])) else st.(fits := false)
  {
    BelongsIff(e, sec);
    LineParses(e, sec);
    ProcessOne(st, EntryLine(e, sec));
    SlotsAfterOne(st.slots, EntryOp(e));
  }

  /** The whole name of every entry of the section fits. */
  ghost predicate ShortKeys(s: Slots, sec: string) {
    forall i :: 0 <= i < |s| && Belongs(s[i], sec) ==> |s[i].value.key| <= ASCIILINESZ
  }

  lemma {:induction false} StaysUnknown(st: Loader, lines: seq<string>)
    requires st.slots != [] && !st.fits
    ensures ProcessAll(st, lines) == st
  {
    if lines != [] {
      StaysUnknown(st, lines[..|lines| - 1]);
    }
  }

  /** The lines of a section set its entries, if they all fit. */
  lemma {:induction false} KeyLinesLoad(st: Loader, s: Slots, sec: string)
    requires st.slots != [] && st.fits && st.section == sec && st.errs == 0 && ':' !in sec
    requires forall i :: 0 <= i < |s| && s[i].Some? ==> GoodKeyEntry(s[i].value, sec)
    ensures ShortKeys(s, sec) ==> ProcessAll(st, KeyLines(s, sec)) == st.(slots := SlotsAfter(st.slots, KeyOps(s, sec)))
    ensures !ShortKeys(s, sec) ==> !ProcessAll(st, KeyLines(s, sec)).fits
  {
    if s != [] {
      var k := |s| - 1;
      KeyLinesLoad(st, s[..k], sec);
      ShortKeysStep(s, sec);
      if Belongs(s[k], sec) {
        KeyLineLoads(st, s, sec);
      } else {
        assert KeyLines(s, sec) == KeyLines(s[..k], sec) && KeyOps(s, sec) == KeyOps(s[..k], sec);
      }
    }
  }

  lemma ShortKeysStep(s: Slots, sec: string)
    requires s != []
    ensures var k := |s| - 1;
      ShortKeys(s, sec) <==> ShortKeys(s[..k], sec) && (Belongs(s[k], sec) ==> |s[k].value.key| <= ASCIILINESZ)
  {
  }

  lemma {:induction false} KeyLineLoads(st: Loader, s: Slots, sec: string)
    requires s != [] && st.slots != [] && st.fits && st.section == sec && st.errs == 0 && ':' !in sec
    requires Belongs(s[|s| - 1], sec) && GoodKeyEntry(s[|s| - 1].value, sec)
    requires var k := |s| - 1; var st1 := ProcessAll(st, KeyLines(s[..k], sec));
      st1 == st.(slots := SlotsAfter(st.slots, KeyOps(s[..k], sec))) || !st1.fits
    ensures var k := |s| - 1; var st1 := ProcessAll(st, KeyLines(s[..k], sec));
      ProcessAll(st, KeyLines(s, sec)) ==
        if !st1.fits then st1
        else if |s[k].value.key| <= ASCIILINESZ then st.(slots := SlotsAfter(st.slots, KeyOps(s, sec)))
        else st1.(fits := false)
  {
    var k := |s| - 1;
    var st1 := ProcessAll(st, KeyLines(s[..k], sec));
    ProcessAllAppend(st, KeyLines(s[..k], sec), [EntryLine(s[k].value, sec)]);
    SlotsAfterAppend(st.slots, KeyOps(s[..k], sec), [EntryOp(s[k].value)]);
    if st1.fits {
      EntryLoads(st1, s[k].value, sec);
    } else {
      StaysUnknown(st1, [EntryLine(s[k].value, sec)]);
    }
  }

  lemma ProcessOne(st: Loader, line: string)
    requires st.slots != []
    ensures ProcessAll(st, [line]) == Process(st, RStrip(line))
  {
    assert [line][..0] == [];
  }

  /** The heading of a section sets the section. */
  lemma HeadingLoads(st: Loader, sec: string)
    requires st.slots != [] && st.fits && GoodSection(sec)
    ensures ProcessAll(st, ["", SectionLine(sec)]) == st.(section := sec, errs := 0, slots := Put(st.slots, sec, None))
  {
    assert ["", SectionLine(sec)] == [""] + [SectionLine(sec)];
    ProcessAllAppend(st, [""], [SectionLine(sec)]);
    ProcessOne(st, "");
    ProcessOne(st, SectionLine(sec));
    SectionLineParses(sec, st.section);
  }

  ghost predicate GoodSections(s: Slots, secs: seq<string>) {
    && (forall j :: 0 <= j < |secs| ==> GoodSection(secs[j]) && ':' !in secs[j])
    && (forall i, j :: 0 <= i < |s| && s[i].Some? && 0 <= j < |secs| ==> GoodKeyEntry(s[i].value, secs[j]))
  }

  lemma BlockLoads(st: Loader, s: Slots, sec: string)
    requires st.slots != [] && st.fits && st.errs == 0 && GoodSection(sec) && ':' !in sec
    requires forall i :: 0 <= i < |s| && s[i].Some? ==> GoodKeyEntry(s[i].value, sec)
    ensures var st' := ProcessAll(st, Block(s, sec));
      if ShortKeys(s, sec) then st' == st.(section := sec, slots := SlotsAfter(st.slots, [Set(sec, None)] + KeyOps(s, sec)))
      else !st'.fits
  {
    ProcessAllAppend(st, ["", SectionLine(sec)], KeyLines(s, sec));
    HeadingLoads(st, sec);
    SlotsAfterOne(st.slots, Set(sec, None));
    SlotsAfterAppend(st.slots, [Set(sec, None)], KeyOps(s, sec));
    KeyLinesLoad(ProcessAll(st, ["", SectionLine(sec)]), s, sec);
  }

  ghost predicate AllShort(s: Slots, secs: seq<string>) {
    forall j :: 0 <= j < |secs| ==> ShortKeys(s, secs[j])
  }

  /** The file sets the sections and their entries, section by section, if all names fit. */
  lemma {:induction false} BlocksLoad(st: Loader, s: Slots, secs: seq<string>)
    requires st.slots != [] && st.fits && st.errs == 0 && GoodSections(s, secs)
    ensures var st' := ProcessAll(st, Blocks(s, secs));
      if AllShort(s, secs) then st'.fits && st'.errs == 0 && st'.slots == SlotsAfter(st.slots, BlockOps(s, secs))
      else !st'.fits
    decreases |secs|
  {
    if secs != [] {
      var k := |secs| - 1;
      BlocksLoad(st, s, secs[..k]);
      var st1 := ProcessAll(st, Blocks(s, secs[..k]));
      ProcessAllAppend(st, Blocks(s, secs[..k]), Block(s, secs[k]));
      AllShortStep(s, secs);
      if st1.fits {
        SlotsAfterAppend(st.slots, BlockOps(s, secs[..k]), [Set(secs[k], None)] + KeyOps(s, secs[k]));
        BlockLoads(st1, s, secs[k]);
      } else {
        StaysUnknown(st1, Block(s, secs[k]));
      }
    }
  }

  function Block(s: Slots, sec: string): seq<string> {
    ["", SectionLine(sec)] + KeyLines(s, sec)
  }

  lemma AllShortStep(s: Slots, secs: seq<string>)
    requires secs != []
    ensures AllShort(s, secs) <==> AllShort(s, secs[..|secs| - 1]) && ShortKeys(s, secs[|secs| - 1])
  {
  }

  // ------------------------------------------------------------------- every line reads

  lemma {:induction false} SectionsAre(s: Slots, name: string)
    ensures name in Sections(s) <==> ':' !in name && Find(s, name) < |s|
  {
    if s != [] {
      SectionsAre(s[..|s| - 1], name);
    }
  }

  lemma {:induction false} KeyLinesReadable(s: Slots, sec: string)
    requires forall i :: 0 <= i < |s| && s[i].Some? ==> GoodKeyEntry(s[i].value, sec)
    ensures forall i :: 0 <= i < |KeyLines(s, sec)| ==> Readable(KeyLines(s, sec)[i])
  {
    if s != [] {
      KeyLinesReadable(s[..|s| - 1], sec);
    }
  }

  lemma {:induction false} BlocksReadable(s: Slots, secs: seq<string>)
    requires GoodSections(s, secs) && forall j :: 0 <= j < |secs| ==> Readable(SectionLine(secs[j]))
    ensures forall i :: 0 <= i < |Blocks(s, secs)| ==> Readable(Blocks(s, secs)[i])
    decreases |secs|
  {
    if secs != [] {
      var k := |secs| - 1;
      BlocksReadable(s, secs[..k]);
      KeyLinesReadable(s, secs[k]);
    }
  }

  lemma PrintableSection(s: Slots, name: string)
    requires Printable(s) && name in Sections(s)
    ensures GoodSection(name) && ':' !in name && Readable(SectionLine(name)) && HeadingFits(name)
  {
    SectionsAre(s, name);
    assert GoodSectionEntry(s[Find(s, name)].value);
  }

  lemma PrintableSections(s: Slots)
    requires Printable(s)
    ensures GoodSections(s, Sections(s))
    ensures forall j :: 0 <= j < |Sections(s)| ==> Readable(SectionLine(Sections(s)[j]))
    ensures Dump(s) == Some(Join(DumpLines(s)))
  {
    var secs := Sections(s);
    forall j | 0 <= j < |secs|
      ensures GoodSection(secs[j]) && ':' !in secs[j] && Readable(SectionLine(secs[j])) && HeadingFits(secs[j])
    {
      PrintableSection(s, secs[j]);
    }
    forall i, j | 0 <= i < |s| && s[i].Some? && 0 <= j < |secs| ensures GoodKeyEntry(s[i].value, secs[j]) {
      assert secs[j] in secs;
    }
  }

  /** What was written, as it is loaded. */
  function Reloaded(s: Slots): Outcome {
    if Dump(s).Some? then Load(Dump(s).value) else Overrun
  }

  /** Loading what was written makes the settings of the file, if all names fit. */
  lemma DumpLoads(s: Slots)
    requires Printable(s) && Sections(s) != []
    ensures Dump(s).Some?
    ensures AllShort(s, Sections(s)) ==> Reloaded(s) == Loaded(SlotsAfter(EmptySlots(), BlockOps(s, Sections(s))))
    ensures !AllShort(s, Sections(s)) ==> Reloaded(s) == Overrun
  {
    var secs := Sections(s);
    PrintableSections(s);
    BlocksReadable(s, secs);
    BlocksLoad(START, s, secs);
    ProcessAllAppend(START, Blocks(s, secs), [""]);
    ProcessOne(ProcessAll(START, Blocks(s, secs)), "");
    LoadJoin(DumpLines(s));
  }

  // ------------------------------------------------------------- what the settings are

  lemma {:induction false} KeyOpsAre(s: Slots, sec: string, op: Op)
    ensures op in KeyOps(s, sec) <==> exists i :: 0 <= i < |s| && Belongs(s[i], sec) && op == EntryOp(s[i].value)
  {
    if s != [] {
      KeyOpsAre(s[..|s| - 1], sec, op);
    }
  }

  ghost predicate FromBlock(s: Slots, sec: string, op: Op) {
    op == Set(sec, None) || op in KeyOps(s, sec)
  }

  lemma {:induction false} BlockSets(s: Slots, secs: seq<string>, op: Op, j: nat)
    requires j < |secs| && FromBlock(s, secs[j], op)
    ensures op in BlockOps(s, secs)
    decreases |secs|
  {
    var k := |secs| - 1;
    if j < k {
      BlockSets(s, secs[..k], op, j);
    } else {
      assert op in [Set(secs[k], None)] + KeyOps(s, secs[k]);
    }
  }

  lemma {:induction false} SetByBlock(s: Slots, secs: seq<string>, op: Op) returns (j: nat)
    requires op in BlockOps(s, secs)
    ensures j < |secs| && FromBlock(s, secs[j], op)
    decreases |secs|
  {
    var k := |secs| - 1;
    if op in BlockOps(s, secs[..k]) {
      j := SetByBlock(s, secs[..k], op);
    } else {
      j := k;
    }
  }

  /** What an entry comes back as. */
  function Image(key: string, val: Option<string>): Option<string> {
    if ':' !in key then None else Some(ReadBack(Text(val)))
  }

  /** An entry without a value is printed with nothing behind the equals sign, and comes back empty. */
  lemma MissingValue(sec: string, k: string)
    ensures LinesOf(Line(sec, Entry(sec + ":" + k, None))) == [KeyLine(k, "")]
    ensures Image(sec + ":" + k, None) == Some("")
  {
    var key := sec + ":" + k;
    assert key[|sec|] == ':' && key[|sec| + 1..] == k;
    ReadBackIff("");
  }

  /** A section, or an entry whose section is there. */
  predicate Written(m: map<string, Option<string>>, key: string) {
    key in m && (':' !in key || SectionOf(key) in m)
  }

  /** The dictionary that comes back. */
  function Expected(m: map<string, Option<string>>): map<string, Option<string>> {
    map key | key in m && Written(m, key) :: Image(key, m[key])
  }

  lemma SectionsInMap(s: Slots, name: string)
    ensures name in Sections(s) <==> ':' !in name && name in AsMap(s)
  {
    SectionsAre(s, name);
    AsMapKeys(s, name);
  }

  lemma EntryInMap(s: Slots, i: nat)
    requires Distinct(s) && i < |s| && s[i].Some?
    ensures s[i].value.key in AsMap(s) && AsMap(s)[s[i].value.key] == s[i].value.val
  {
    FoundAt(s, s[i].value.key, i);
    FindIsLookup(s, s[i].value.key);
  }

  /** Everything the file sets is expected ... */
  lemma SetsOnlyExpected(s: Slots, op: Op)
    requires Distinct(s) && op in BlockOps(s, Sections(s))
    ensures op.Set? && op.key in Expected(AsMap(s)) && Expected(AsMap(s))[op.key] == op.val
  {
    var secs := Sections(s);
    var j := SetByBlock(s, secs, op);
    SectionsInMap(s, secs[j]);
    KeyOpsAre(s, secs[j], op);
    if op in KeyOps(s, secs[j]) {
      var i :| 0 <= i < |s| && Belongs(s[i], secs[j]) && op == EntryOp(s[i].value);
      BelongsIff(s[i].value, secs[j]);
      EntryInMap(s, i);
    }
  }

  /** ... and everything expected is set. */
  lemma SetsAllExpected(s: Slots, key: string)
    requires Distinct(s) && key in Expected(AsMap(s))
    ensures Set(key, Expected(AsMap(s))[key]) in BlockOps(s, Sections(s))
  {
    var secs, op := Sections(s), Set(key, Expected(AsMap(s))[key]);
    var sec := if ':' in key then SectionOf(key) else key;
    SectionsInMap(s, sec);
    var j :| 0 <= j < |secs| && secs[j] == sec;
    FindIsLookup(s, key);
    var i := Find(s, key);
    if ':' in key {
      BelongsIff(s[i].value, sec);
      assert op == EntryOp(s[i].value);
      KeyOpsAre(s, sec, op);
    }
    BlockSets(s, secs, op, j);
  }

  /** A run of settings that agree with a map and cover it makes that map. */
  lemma {:induction false} SettingsMake(ops: seq<Op>, m: map<string, Option<string>>)
    requires forall op :: op in ops ==> op.Set? && op.key in m && m[op.key] == op.val
    ensures forall k :: k in MapAfter(map[], ops) ==> k in m && MapAfter(map[], ops)[k] == m[k]
    ensures forall op :: op in ops ==> op.key in MapAfter(map[], ops)
  {
    if ops != [] {
      var n := |ops| - 1;
      SettingsMake(ops[..n], m);
      assert ops == ops[..n] + [ops[n]];
    }
  }

  /** The whole name of every entry that is written fits a buffer. */
  ghost predicate ShortNames(m: map<string, Option<string>>) {
    forall key :: Written(m, key) && ':' in key ==> |key| <= ASCIILINESZ
  }

  lemma ShortIff(s: Slots)
    requires Distinct(s)
    ensures AllShort(s, Sections(s)) <==> ShortNames(AsMap(s))
  {
    var m, secs := AsMap(s), Sections(s);
    if ShortNames(m) {
      forall j, i | 0 <= j < |secs| && 0 <= i < |s| && Belongs(s[i], secs[j]) ensures |s[i].value.key| <= ASCIILINESZ {
        SectionsInMap(s, secs[j]);
        BelongsIff(s[i].value, secs[j]);
        EntryInMap(s, i);
        assert Written(m, s[i].value.key);
      }
    }
    if AllShort(s, secs) {
      forall key | Written(m, key) && ':' in key ensures |key| <= ASCIILINESZ {
        SectionsInMap(s, SectionOf(key));
        var j :| 0 <= j < |secs| && secs[j] == SectionOf(key);
        FindIsLookup(s, key);
        BelongsIff(s[Find(s, key)].value, secs[j]);
        assert ShortKeys(s, secs[j]);
      }
    }
  }

  /** Loading what was written gives, for every dictionary with a section and readable names, exactly
      its sections and the entries of those sections, each value as it reads back, unless the whole name of
      an entry is too long. */
  lemma {:induction false} DumpThenLoad(s: Slots)
    requires Distinct(s) && Printable(s) && Sections(s) != []
    ensures Dump(s).Some? && (Reloaded(s) == Overrun <==> !ShortNames(AsMap(s)))
    ensures ShortNames(AsMap(s)) ==>
      Reloaded(s).Loaded? && Distinct(Reloaded(s).slots) && AsMap(Reloaded(s).slots) == Expected(AsMap(s))
  {
    DumpLoads(s);
    ShortIff(s);
    SettingsAreExpected(s);
  }

  lemma {:induction false} SettingsAreExpected(s: Slots)
    requires Distinct(s)
    ensures var s' := SlotsAfter(EmptySlots(), BlockOps(s, Sections(s))); Distinct(s') && AsMap(s') == Expected(AsMap(s))
  {
    var ops, m := BlockOps(s, Sections(s)), Expected(AsMap(s));
    EmptyIsEmpty();
    RefinesMap(EmptySlots(), ops);
    forall op | op in ops ensures op.Set? && op.key in m && m[op.key] == op.val {
      SetsOnlyExpected(s, op);
    }
    SettingsMake(ops, m);
    forall k | k in m ensures k in MapAfter(map[], ops) {
      SetsAllExpected(s, k);
    }
  }

  lemma {:induction false} EmptyIsEmpty()
    ensures Distinct(EmptySlots()) && AsMap(EmptySlots()) == map[]
  {
    UsedNone(128);
    UsedIsSize(EmptySlots());
  }

  // ------------------------------------------------------------------ the round trip

  /** Sections have no value; entries have one that survives, and their section is there. */
  ghost predicate Faithful(m: map<string, Option<string>>) {
    forall key :: key in m ==>
      if ':' !in key then m[key] == None
      else SectionOf(key) in m && m[key].Some? && Survives(m[key].value)
  }

  /** The same dictionary comes back exactly when every value survives, every entry has its section,
      only sections lack a value, and no whole name is too long. */
  lemma RoundTripIff(s: Slots)
    requires Distinct(s) && Printable(s) && Sections(s) != []
    ensures Dump(s).Some?
    ensures (Reloaded(s).Loaded? && AsMap(Reloaded(s).slots) == AsMap(s)) <==> Faithful(AsMap(s)) && ShortNames(AsMap(s))
  {
    DumpThenLoad(s);
    FaithfulIff(AsMap(s));
  }

  lemma FaithfulIff(m: map<string, Option<string>>)
    ensures Expected(m) == m <==> Faithful(m)
  {
    forall key | key in m
      ensures (Written(m, key) && Image(key, m[key]) == m[key]) <==>
        (if ':' !in key then m[key] == None else SectionOf(key) in m && m[key].Some? && Survives(m[key].value))
    {
      ReadBackIff(Text(m[key]));
    }
    if Expected(m) == m {
      forall key | key in m ensures Written(m, key) && Image(key, m[key]) == m[key] {
        assert key in Expected(m);
      }
    }
  }

  // ------------------------------------------------------------------ written once

  /** What a line, or a heading with the empty line before it, is printed for. */
  datatype Item = Heading(sec: string) | Line(sec: string, entry: Entry)

  function LinesOf(x: Item): seq<string> {
    match x
    case Heading(sec) => ["", SectionLine(sec)]
    case Line(sec, e) => [KeyLine(if |sec| < |e.key| then e.key[|sec| + 1..] else "", Text(e.val))]
  }

  function Rendered(items: seq<Item>): seq<string> {
    if items == [] then [] else Rendered(items[..|items| - 1]) + LinesOf(items[|items| - 1])
  }

  lemma {:induction false} RenderedAppend(a: seq<Item>, b: seq<Item>)
    ensures Rendered(a + b) == Rendered(a) + Rendered(b)
  {
    if b == [] {
      assert a + b == a;
    } else {
      assert (a + b)[..|a + b| - 1] == a + b[..|b| - 1];
      RenderedAppend(a, b[..|b| - 1]);
    }
  }

  lemma RenderedOne(x: Item)
    ensures Rendered([x]) == LinesOf(x)
  {
    assert [x][..0] == [];
  }

  function SectionItems(s: Slots, sec: string): seq<Item> {
    if s == [] then []
    else
      var k := |s| - 1;
      SectionItems(s[..k], sec) + if Belongs(s[k], sec) then [Line(sec, s[k].value)] else []
  }

  function Items(s: Slots, secs: seq<string>): seq<Item> {
    if secs == [] then []
    else
      var k := |secs| - 1;
      Items(s, secs[..k]) + ([Heading(secs[k])] + SectionItems(s, secs[k]))
  }

  lemma {:induction false} KeyLinesRender(s: Slots, sec: string)
    ensures KeyLines(s, sec) == Rendered(SectionItems(s, sec))
  {
    if s != [] {
      var k := |s| - 1;
      KeyLinesRender(s[..k], sec);
      if Belongs(s[k], sec) {
        RenderedAppend(SectionItems(s[..k], sec), [Line(sec, s[k].value)]);
        RenderedOne(Line(sec, s[k].value));
      } else {
        assert SectionItems(s, sec) == SectionItems(s[..k], sec) && KeyLines(s, sec) == KeyLines(s[..k], sec);
      }
    }
  }

  lemma {:induction false} BlocksRender(s: Slots, secs: seq<string>)
    ensures Blocks(s, secs) == Rendered(Items(s, secs))
    decreases |secs|
  {
    if secs != [] {
      var k := |secs| - 1;
      BlocksRender(s, secs[..k]);
      KeyLinesRender(s, secs[k]);
      RenderedAppend(Items(s, secs[..k]), [Heading(secs[k])] + SectionItems(s, secs[k]));
      RenderedAppend([Heading(secs[k])], SectionItems(s, secs[k]));
      RenderedOne(Heading(secs[k]));
    }
  }

  /** The sections, and the entries whose section is there. */
  ghost predicate ToBePrinted(s: Slots, x: Item) {
    match x
    case Heading(sec) => ':' !in sec && exists val :: Some(Entry(sec, val)) in s
    case Line(sec, e) => Some(e) in s && ':' in e.key && SectionOf(e.key) == sec && exists val :: Some(Entry(sec, val)) in s
  }

  ghost predicate NoneTwice(items: seq<Item>) {
    forall i, j :: 0 <= i < j < |items| ==> items[i] != items[j]
  }

  lemma NoneTwiceAppend(a: seq<Item>, b: seq<Item>)
    requires NoneTwice(a) && NoneTwice(b) && forall x :: x in a ==> x !in b
    ensures NoneTwice(a + b)
  {
    var c := a + b;
    forall i, j | 0 <= i < j < |c| ensures c[i] != c[j] {
      assert i < |a| ==> c[i] in a;
      assert j >= |a| ==> c[j] in b;
    }
  }

  lemma {:induction false} SectionItemsAre(s: Slots, sec: string, x: Item)
    ensures x in SectionItems(s, sec) <==> x.Line? && x.sec == sec && Some(x.entry) in s && Belongs(Some(x.entry), sec)
  {
    if s != [] {
      var k := |s| - 1;
      SectionItemsAre(s[..k], sec, x);
      assert s == s[..k] + [s[k]];
    }
  }

  lemma {:induction false} SectionItemsOnce(s: Slots, sec: string)
    requires Distinct(s)
    ensures NoneTwice(SectionItems(s, sec))
  {
    if s != [] {
      var k := |s| - 1;
      SectionItemsOnce(s[..k], sec);
      if Belongs(s[k], sec) {
        var x := Line(sec, s[k].value);
        SectionItemsAre(s[..k], sec, x);
        assert s[k] !in s[..k];
        NoneTwiceAppend(SectionItems(s[..k], sec), [x]);
      }
    }
  }

  lemma {:induction false} ItemsAre(s: Slots, secs: seq<string>, x: Item)
    ensures x in Items(s, secs) <==> x.sec in secs && (x.Line? ==> Some(x.entry) in s && Belongs(Some(x.entry), x.sec))
    decreases |secs|
  {
    if secs != [] {
      var k := |secs| - 1;
      ItemsAre(s, secs[..k], x);
      SectionItemsAre(s, secs[k], x);
      assert secs == secs[..k] + [secs[k]];
      assert x in [Heading(secs[k])] + SectionItems(s, secs[k]) <==> x == Heading(secs[k]) || x in SectionItems(s, secs[k]);
    }
  }

  lemma {:induction false} ItemsOnce(s: Slots, secs: seq<string>)
    requires Distinct(s) && forall i, j :: 0 <= i < j < |secs| ==> secs[i] != secs[j]
    ensures NoneTwice(Items(s, secs))
    decreases |secs|
  {
    if secs != [] {
      var k := |secs| - 1;
      var block := [Heading(secs[k])] + SectionItems(s, secs[k]);
      ItemsOnce(s, secs[..k]);
      SectionItemsOnce(s, secs[k]);
      forall x | x in SectionItems(s, secs[k]) ensures x != Heading(secs[k]) && x.sec == secs[k] {
        SectionItemsAre(s, secs[k], x);
      }
      NoneTwiceAppend([Heading(secs[k])], SectionItems(s, secs[k]));
      forall x | x in Items(s, secs[..k]) ensures x !in block {
        ItemsAre(s, secs[..k], x);
        assert x.sec != secs[k];
      }
      NoneTwiceAppend(Items(s, secs[..k]), block);
    }
  }

  lemma {:induction false} SectionsOnce(s: Slots)
    requires Distinct(s)
    ensures forall i, j :: 0 <= i < j < |Sections(s)| ==> Sections(s)[i] != Sections(s)[j]
  {
    if s != [] {
      var k := |s| - 1;
      SectionsOnce(s[..k]);
      if s[k].Some? {
        SectionsAre(s[..k], s[k].value.key);
        assert s[k].value.key !in Sections(s[..k]);
      }
    }
  }

  lemma PrintedIff(s: Slots, x: Item)
    ensures x in Items(s, Sections(s)) <==> ToBePrinted(s, x)
  {
    ItemsAre(s, Sections(s), x);
    SectionsAre(s, x.sec);
    if Find(s, x.sec) < |s| {
      var e := s[Find(s, x.sec)].value;
      assert Some(Entry(x.sec, e.val)) in s;
    }
    if x.Line? && ':' !in x.sec {
      BelongsIff(x.entry, x.sec);
    }
    if ToBePrinted(s, x) {
      var val :| Some(Entry(x.sec, val)) in s;
      var i :| 0 <= i < |s| && s[i] == Some(Entry(x.sec, val));
    }
  }

  /** What is printed first: the section in the earlier slot, its heading, its entry in the earlier slot. */
  predicate Before(s: Slots, x: Item, y: Item) {
    || Find(s, x.sec) < Find(s, y.sec)
    || (x.sec == y.sec && y.Line? && (x.Heading? || Find(s, x.entry.key) < Find(s, y.entry.key)))
  }

  ghost predicate InSlotOrder(s: Slots, items: seq<Item>) {
    forall i, j :: 0 <= i < j < |items| ==> Before(s, items[i], items[j])
  }

  lemma InSlotOrderAppend(s: Slots, a: seq<Item>, b: seq<Item>)
    requires InSlotOrder(s, a) && InSlotOrder(s, b) && forall x, y :: x in a && y in b ==> Before(s, x, y)
    ensures InSlotOrder(s, a + b)
  {
    var c := a + b;
    forall i, j | 0 <= i < j < |c| ensures Before(s, c[i], c[j]) {
      assert i < |a| ==> c[i] in a;
      assert j >= |a| ==> c[j] in b;
    }
  }

  lemma FindInPrefix(s: Slots, k: nat, e: Entry)
    requires Distinct(s) && k <= |s| && Some(e) in s[..k]
    ensures Find(s, e.key) < k
  {
    var i :| 0 <= i < k && s[..k][i] == Some(e);
    FoundAt(s, e.key, i);
  }

  lemma {:induction false} SectionItemsOrdered(s: Slots, k: nat, sec: string)
    requires Distinct(s) && k <= |s|
    ensures InSlotOrder(s, SectionItems(s[..k], sec))
    decreases k
  {
    if k > 0 {
      SectionItemsOrdered(s, k - 1, sec);
      assert s[..k][..k - 1] == s[..k - 1];
      if Belongs(s[k - 1], sec) {
        var y := Line(sec, s[k - 1].value);
        FoundAt(s, y.entry.key, k - 1);
        forall x | x in SectionItems(s[..k - 1], sec) ensures Before(s, x, y) {
          SectionItemsAre(s[..k - 1], sec, x);
          FindInPrefix(s, k - 1, x.entry);
        }
        InSlotOrderAppend(s, SectionItems(s[..k - 1], sec), [y]);
      }
    }
  }

  lemma BlockOrdered(s: Slots, sec: string)
    requires Distinct(s)
    ensures InSlotOrder(s, [Heading(sec)] + SectionItems(s, sec))
    ensures forall x :: x in [Heading(sec)] + SectionItems(s, sec) ==> x.sec == sec
  {
    SectionItemsOrdered(s, |s|, sec);
    assert s[..|s|] == s;
    forall x | x in SectionItems(s, sec) ensures x.Line? && x.sec == sec {
      SectionItemsAre(s, sec, x);
    }
    InSlotOrderAppend(s, [Heading(sec)], SectionItems(s, sec));
  }

  /** The names are those of slots before `k`, in their order. */
  ghost predicate Rising(s: Slots, secs: seq<string>, k: nat) {
    && (forall i :: 0 <= i < |secs| ==> Find(s, secs[i]) < k)
    && (forall i, j :: 0 <= i < j < |secs| ==> Find(s, secs[i]) < Find(s, secs[j]))
  }

  lemma RisingStep(s: Slots, secs: seq<string>, k: nat, name: string)
    requires Rising(s, secs, k) && Find(s, name) == k
    ensures Rising(s, secs + [name], k + 1)
  {
  }

  lemma {:induction false} SectionsInOrder(s: Slots, k: nat)
    requires Distinct(s) && k <= |s|
    ensures Rising(s, Sections(s[..k]), k)
    decreases k
  {
    if k > 0 {
      SectionsInOrder(s, k - 1);
      assert s[..k][..k - 1] == s[..k - 1] && s[..k][k - 1] == s[k - 1];
      if s[k - 1].Some? && ':' !in s[k - 1].value.key {
        FoundAt(s, s[k - 1].value.key, k - 1);
        RisingStep(s, Sections(s[..k - 1]), k - 1, s[k - 1].value.key);
      } else {
        assert Sections(s[..k]) == Sections(s[..k - 1]);
      }
    }
  }

  lemma {:induction false} ItemsOrdered(s: Slots, secs: seq<string>)
    requires Distinct(s) && Rising(s, secs, |s|)
    ensures InSlotOrder(s, Items(s, secs))
    decreases |secs|
  {
    if secs != [] {
      var k := |secs| - 1;
      var block := [Heading(secs[k])] + SectionItems(s, secs[k]);
      ItemsOrdered(s, secs[..k]);
      BlockOrdered(s, secs[k]);
      forall x, y | x in Items(s, secs[..k]) && y in block ensures Before(s, x, y) {
        ItemsAre(s, secs[..k], x);
        var i :| 0 <= i < k && secs[..k][i] == x.sec;
      }
      InSlotOrderAppend(s, Items(s, secs[..k]), block);
    }
  }

  /** The text is made of the headings of the sections and the lines of their entries, each of them
      exactly once and in the order of the slots, and of nothing else but the empty line at the end, whatever
      the names and values; there is one exactly if every section's name fits. */
  lemma WrittenOnce(s: Slots) returns (items: seq<Item>)
    requires Distinct(s) && Sections(s) != []
    ensures InSlotOrder(s, items)
    ensures Dump(s) == None <==> exists x :: ToBePrinted(s, x) && x.Heading? && |x.sec| >= ASCIILINESZ
    ensures Dump(s).Some? ==> Dump(s).value == Join(Rendered(items) + [""])
    ensures NoneTwice(items) && forall x :: x in items <==> ToBePrinted(s, x)
  {
    items := Items(s, Sections(s));
    BlocksRender(s, Sections(s));
    SectionsOnce(s);
    ItemsOnce(s, Sections(s));
    SectionsInOrder(s, |s|);
    assert s[..|s|] == s;
    ItemsOrdered(s, Sections(s));
    forall x: Item ensures x in items <==> ToBePrinted(s, x) {
      PrintedIff(s, x);
    }
    LongHeading(s);
  }

  lemma LongHeading(s: Slots)
    ensures Dump(s) == None <==> exists x :: ToBePrinted(s, x) && x.Heading? && |x.sec| >= ASCIILINESZ
  {
    if Dump(s) == None {
      var i :| 0 <= i < |Sections(s)| && !HeadingFits(Sections(s)[i]);
      HeadingPrinted(s, Sections(s)[i]);
      assert ToBePrinted(s, Heading(Sections(s)[i]));
    }
    if x :| ToBePrinted(s, x) && x.Heading? && |x.sec| >= ASCIILINESZ {
      HeadingPrinted(s, x.sec);
      var i :| 0 <= i < |Sections(s)| && Sections(s)[i] == x.sec;
      assert !HeadingFits(Sections(s)[i]);
    }
  }

  lemma HeadingPrinted(s: Slots, sec: string)
    ensures ToBePrinted(s, Heading(sec)) <==> sec in Sections(s)
  {
    PrintedIff(s, Heading(sec));
    ItemsAre(s, Sections(s), Heading(sec));
  }
}
