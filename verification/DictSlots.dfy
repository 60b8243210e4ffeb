/**
  The slots of a dictionary as a value, and the map of keys to values they stand for.
  A slot is free or holds a key with its value; a value may be missing (NULL).
*/
module DictSlots {

  datatype Option<T> = None | Some(value: T)

  datatype Entry = Entry(key: string, val: Option<string>)

  type Slots = seq<Option<Entry>>

  /** No key is stored twice. */
  ghost predicate Distinct(s: Slots) {
    forall i, j :: 0 <= i < j < |s| && s[i].Some? && s[j].Some? ==> s[i].value.key != s[j].value.key
  }

  /** The slots in use. */
  function Used(s: Slots): nat {
    if s == [] then 0 else Used(s[..|s| - 1]) + if s[|s| - 1].Some? then 1 else 0
  }

  /** The first slot with the key, or the number of slots. */
  function Find(s: Slots, key: string): (i: nat)
    ensures i <= |s|
    ensures i < |s| ==> s[i].Some? && s[i].value.key == key
    ensures forall j :: 0 <= j < i && s[j].Some? ==> s[j].value.key != key
  {
    if s == [] then 0
    else
      var k := |s| - 1;
      var i := Find(s[..k], key);
      if i < k || (s[k].Some? && s[k].value.key == key) then i else |s|
  }

  /** The first free slot, or the number of slots. */
  function Free(s: Slots): (i: nat)
    ensures i <= |s|
    ensures i < |s| ==> s[i].None?
    ensures forall j :: 0 <= j < i ==> s[j].Some?
  {
    if s == [] then 0
    else
      var k := |s| - 1;
      var i := Free(s[..k]);
      if i < k || s[k].None? then i else |s|
  }

  function Doubled(s: Slots): Slots {
    s + seq(|s|, _ => None)
  }

  /** Doubled when every slot is in use. */
  function Roomy(s: Slots): Slots {
    if Used(s) == |s| then Doubled(s) else s
  }

  /** dictionary_set */
  function Put(s: Slots, key: string, val: Option<string>): (s': Slots)
    requires s != []
    ensures |s'| >= |s|
  {
    if Find(s, key) < |s| then s[Find(s, key) := Some(Entry(key, val))]
    else
      FreeSlot(Roomy(s));
      RoomyHasRoom(s);
      Roomy(s)[Free(Roomy(s)) := Some(Entry(key, val))]
  }

  /** dictionary_unset */
  function Drop(s: Slots, key: string): Slots {
    if Find(s, key) < |s| then s[Find(s, key) := None] else s
  }

  // ------------------------------------------------------------------ pigeonhole

  lemma {:induction false} UsedBound(s: Slots)
    ensures Used(s) <= |s|
  {
    if s != [] {
      UsedBound(s[..|s| - 1]);
    }
  }

  /** If not every slot is in use, the search for a free one ends before the last. */
  lemma {:induction false} FreeSlot(s: Slots)
    ensures Free(s) < |s| <==> Used(s) < |s|
  {
    if s != [] {
      FreeSlot(s[..|s| - 1]);
      UsedBound(s[..|s| - 1]);
    }
  }

  /** Nothing is found where nothing is stored. */
  lemma {:induction false} UsedZero(s: Slots, key: string)
    requires Used(s) == 0
    ensures Find(s, key) == |s|
  {
    if s != [] {
      UsedZero(s[..|s| - 1], key);
    }
  }

  lemma {:induction false} UsedAppend(s: Slots, t: Slots)
    ensures Used(s + t) == Used(s) + Used(t)
  {
    if t == [] {
      assert s + t == s;
    } else {
      assert (s + t)[..|s + t| - 1] == s + t[..|t| - 1];
      UsedAppend(s, t[..|t| - 1]);
    }
  }

  lemma {:induction false} UsedNone(n: nat)
    ensures Used(seq(n, _ => None)) == 0
  {
    if n > 0 {
      var s: Slots := seq(n, _ => None);
      assert s[..n - 1] == seq(n - 1, _ => None);
      UsedNone(n - 1);
    }
  }

  lemma RoomyHasRoom(s: Slots)
    requires s != []
    ensures Used(Roomy(s)) == Used(s) && Used(Roomy(s)) < |Roomy(s)|
  {
    UsedBound(s);
    UsedAppend(s, seq(|s|, _ => None));
    UsedNone(|s|);
  }

  lemma {:induction false} UsedUpdate(s: Slots, i: nat, x: Option<Entry>)
    requires i < |s|
    ensures Used(s[i := x]) == Used(s) - (if s[i].Some? then 1 else 0) + if x.Some? then 1 else 0
  {
    var k := |s| - 1;
    if i < k {
      assert s[i := x][..k] == s[..k][i := x];
      UsedUpdate(s[..k], i, x);
    } else {
      assert s[i := x][..k] == s[..k];
    }
  }

  ghost predicate AllUsed(s: Slots) {
    forall i :: 0 <= i < |s| ==> s[i].Some?
  }

  lemma AllUsedIff(s: Slots)
    ensures AllUsed(s) <==> Used(s) == |s|
  {
    FreeSlot(s);
    UsedBound(s);
  }

  /** dictionary_set changes one slot: the first that holds the key, or else the first empty one, and the
      number of slots doubles exactly if there is none. */
  lemma PutPlace(s: Slots, key: string, val: Option<string>) returns (i: nat)
    requires s != []
    ensures var s' := Put(s, key, val);
      && i < |s'| && s'[i] == Some(Entry(key, val))
      && (forall j :: 0 <= j < |s'| && j != i ==> s'[j] == if j < |s| then s[j] else None)
      && (forall j :: 0 <= j < i && j < |s| && s[j].Some? ==> s[j].value.key != key)
      && if i < |s| && s[i].Some? then s[i].value.key == key && |s'| == |s|
         else
           && (forall j :: 0 <= j < |s| && s[j].Some? ==> s[j].value.key != key)
           && (forall j :: 0 <= j < i ==> s'[j].Some?)
           && |s'| == if AllUsed(s) then 2 * |s| else |s|
  {
    AllUsedIff(s);
    FreeSlot(Roomy(s));
    RoomyHasRoom(s);
    i := if Find(s, key) < |s| then Find(s, key) else Free(Roomy(s));
  }

  /** dictionary_unset empties the first slot that holds the key, and no other. */
  lemma DropPlace(s: Slots, key: string, i: nat)
    requires i < |s|
    ensures |Drop(s, key)| == |s|
    ensures Drop(s, key)[i] ==
      if s[i].Some? && s[i].value.key == key && (forall j :: 0 <= j < i && s[j].Some? ==> s[j].value.key != key) then None else s[i]
  {
  }

  // ----------------------------------------------------------------- the map

  ghost predicate Holds(s: Slots, key: string, val: Option<string>) {
    Some(Entry(key, val)) in s
  }

  /** The map the slots stand for. */
  function AsMap(s: Slots): map<string, Option<string>> {
    if s == [] then map[]
    else
      var m, x := AsMap(s[..|s| - 1]), s[|s| - 1];
      if x.Some? then m[x.value.key := x.value.val] else m
  }

  lemma {:induction false} AsMapKeys(s: Slots, key: string)
    ensures key in AsMap(s) <==> Find(s, key) < |s|
  {
    if s != [] {
      AsMapKeys(s[..|s| - 1], key);
    }
  }

  /** The hash filter aside, a search finds exactly what the map holds. */
  lemma {:induction false} FindIsLookup(s: Slots, key: string)
    requires Distinct(s)
    ensures key in AsMap(s) <==> Find(s, key) < |s|
    ensures key in AsMap(s) ==> AsMap(s)[key] == s[Find(s, key)].value.val
  {
    AsMapKeys(s, key);
    if s != [] {
      FindIsLookup(s[..|s| - 1], key);
    }
  }

  lemma PutDistinct(s: Slots, key: string, val: Option<string>)
    requires s != [] && Distinct(s)
    ensures Distinct(Put(s, key, val)) && Put(s, key, val) != []
  {
    FreeSlot(Roomy(s));
    RoomyHasRoom(s);
  }

  lemma LookupDecides(s: Slots, m: map<string, Option<string>>)
    requires Distinct(s)
    requires forall k: string :: Find(s, k) < |s| <==> k in m
    requires forall k: string :: k in m ==> Find(s, k) < |s| && s[Find(s, k)].value.val == m[k]
    ensures AsMap(s) == m
  {
    forall k: string ensures k in AsMap(s) <==> k in m {
      FindIsLookup(s, k);
    }
    forall k: string | k in m ensures AsMap(s)[k] == m[k] {
      FindIsLookup(s, k);
    }
  }

  /** With every key once, the search can only end at the slot that holds the key. */
  lemma FoundAt(s: Slots, key: string, i: nat)
    requires Distinct(s) && i < |s| && s[i].Some? && s[i].value.key == key
    ensures Find(s, key) == i
  {
  }

  lemma FreeIs(s: Slots, i: nat)
    requires i <= |s| && (i < |s| ==> s[i].None?)
    requires forall j :: 0 <= j < i ==> s[j].Some?
    ensures Free(s) == i
  {
  }

  lemma NotFound(s: Slots, key: string)
    requires forall i :: 0 <= i < |s| && s[i].Some? ==> s[i].value.key != key
    ensures Find(s, key) == |s|
  {
  }

  /** Setting a key updates the map, whether the key was there, a slot was free or the
      dictionary had to grow. */
  lemma PutIsUpdate(s: Slots, key: string, val: Option<string>)
    requires s != [] && Distinct(s)
    ensures AsMap(Put(s, key, val)) == AsMap(s)[key := val]
  {
    var s', m := Put(s, key, val), AsMap(s)[key := val];
    PutDistinct(s, key, val);
    forall k: string
      ensures Find(s', k) < |s'| <==> k in m
      ensures k in m ==> s'[Find(s', k)].value.val == m[k]
    {
      PutFinds(s, key, val, k);
    }
    LookupDecides(s', m);
  }

  lemma PutFinds(s: Slots, key: string, val: Option<string>, k: string)
    requires s != [] && Distinct(s)
    ensures var s', m := Put(s, key, val), AsMap(s)[key := val];
      && (Find(s', k) < |s'| <==> k in m)
      && (k in m ==> s'[Find(s', k)].value.val == m[k])
  {
    var s' := Put(s, key, val);
    PutDistinct(s, key, val);
    FindIsLookup(s, k);
    FreeSlot(Roomy(s));
    RoomyHasRoom(s);
    var at := if Find(s, key) < |s| then Find(s, key) else Free(Roomy(s));
    if k == key {
      FoundAt(s', k, at);
    } else if Find(s, k) < |s| {
      FoundAt(s', k, Find(s, k));
    } else {
      NotFound(s', k);
    }
  }

  lemma DropIsRemove(s: Slots, key: string)
    requires Distinct(s)
    ensures Distinct(Drop(s, key)) && AsMap(Drop(s, key)) == AsMap(s) - {key}
  {
    var s', m := Drop(s, key), AsMap(s) - {key};
    forall k: string
      ensures Find(s', k) < |s'| <==> k in m
      ensures k in m ==> s'[Find(s', k)].value.val == m[k]
    {
      FindIsLookup(s, k);
      if k != key && Find(s, k) < |s| {
        FoundAt(s', k, Find(s, k));
      } else {
        NotFound(s', k);
      }
    }
    LookupDecides(s', m);
  }

  /** The count of slots in use is the size of the map. */
  lemma {:induction false} UsedIsSize(s: Slots)
    requires Distinct(s)
    ensures Used(s) == |AsMap(s)|
  {
    if s != [] {
      var k := |s| - 1;
      UsedIsSize(s[..k]);
      if s[k].Some? {
        AsMapKeys(s[..k], s[k].value.key);
      }
    }
  }

  // ------------------------------------------------------------------- every run

  datatype Op = Set(key: string, val: Option<string>) | Unset(key: string)

  function Applied(s: Slots, op: Op): Slots
    requires s != []
  {
    match op
    case Set(key, val) => Put(s, key, val)
    case Unset(key) => Drop(s, key)
  }

  function SlotsAfter(s: Slots, ops: seq<Op>): (s': Slots)
    requires s != []
    ensures s' != []
  {
    if ops == [] then s else Applied(SlotsAfter(s, ops[..|ops| - 1]), ops[|ops| - 1])
  }

  function MapAfter(m: map<string, Option<string>>, ops: seq<Op>): map<string, Option<string>> {
    if ops == [] then m
    else
      var m1 := MapAfter(m, ops[..|ops| - 1]);
      match ops[|ops| - 1]
      case Set(key, val) => m1[key := val]
      case Unset(key) => m1 - {key}
  }

  /** Over any run of sets and unsets, through doublings and freed slots, the dictionary is
      the map. */
  lemma {:induction false} RefinesMap(s: Slots, ops: seq<Op>)
    requires s != [] && Distinct(s)
    ensures Distinct(SlotsAfter(s, ops)) && AsMap(SlotsAfter(s, ops)) == MapAfter(AsMap(s), ops)
    ensures Used(SlotsAfter(s, ops)) == |MapAfter(AsMap(s), ops)|
  {
    if ops != [] {
      var s1 := SlotsAfter(s, ops[..|ops| - 1]);
      RefinesMap(s, ops[..|ops| - 1]);
      match ops[|ops| - 1] {
        case Set(key, val) =>
          PutDistinct(s1, key, val);
          PutIsUpdate(s1, key, val);
        case Unset(key) =>
          DropIsRemove(s1, key);
      }
    }
    UsedIsSize(SlotsAfter(s, ops));
  }
}
