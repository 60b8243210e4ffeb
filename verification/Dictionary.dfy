/**
  The dictionary object of csf/confparser/dictionary.c: three parallel arrays of the same
  size, searched from the front, with a stored hash in front of every string comparison.
*/
module Dictionary {
  import opened DictSlots

  /** DICTMINSZ */
  const DICTMINSZ: nat := 128

  /** A char as an unsigned int: it is signed, so bytes above 127 are sign-extended. */
  function Extended(c: char): bv32 {
    var b := c as int % 256;
    if b < 128 then b as bv32 else 0xFFFF_FF00 + b as bv32
  }

  function Mixed(h: bv32, c: char): bv32 {
    var h1 := h + Extended(c);
    var h2 := h1 + (h1 << 10);
    h2 ^ (h2 >> 6)
  }

  function MixedAll(key: string): bv32 {
    if key == [] then 0 else Mixed(MixedAll(key[..|key| - 1]), key[|key| - 1])
  }

  function Finished(h: bv32): bv32 {
    var h1 := h + (h << 3);
    var h2 := h1 ^ (h1 >> 11);
    h2 + (h2 << 15)
  }

  ghost function Hash(key: string): bv32 {
    Finished(MixedAll(key))
  }

  /** dictionary_hash */
  method HashOf(key: string) returns (hash: bv32)
    ensures hash == Hash(key)
  {
    hash := 0;
    var i := 0;
    while i < |key|
      invariant i <= |key| && hash == MixedAll(key[..i])
    {
      assert key[..i + 1][..i] == key[..i];
      hash := Mixed(hash, key[i]);
      i := i + 1;
    }
    assert key[..i] == key;
    hash := Finished(hash);
  }

  function Zip(keys: seq<Option<string>>, vals: seq<Option<string>>): Slots
    requires |keys| == |vals|
  {
    seq(|keys|, i requires 0 <= i < |keys| =>
      if keys[i].Some? then Some(Entry(keys[i].value, vals[i])) else None)
  }

  class Dictionary {
    var key: array<Option<string>>
    var val: array<Option<string>>
    var hash: array<bv32>
    var n: nat

    ghost function Slots(): Slots
      requires key.Length == val.Length
      reads this, key, val
    {
      Zip(key[..], val[..])
    }

    ghost predicate Apart()
      reads this
    {
      key != val && key as object != hash as object && val as object != hash as object
    }

    /** Arrays of one size, every key once, every stored hash that of its key, and the count right. */
    ghost predicate Valid()
      reads this, key, val, hash
    {
      && key.Length == val.Length == hash.Length >= DICTMINSZ && Apart()
      && Distinct(Slots()) && n == Used(Slots())
      && forall i :: 0 <= i < key.Length && key[i].Some? ==> hash[i] == Hash(key[i].value)
    }

    ghost function Map(): map<string, Option<string>>
      requires Valid()
      reads this, key, val, hash
    {
      AsMap(Slots())
    }

    constructor (size: int)
      ensures Valid() && fresh(key) && fresh(val) && fresh(hash) && Map() == map[]
      ensures Slots() == seq(key.Length, _ => None)
      ensures key.Length == if size < DICTMINSZ then DICTMINSZ else size
    {
      var m: nat := if size < DICTMINSZ then DICTMINSZ else size;
      key := new Option<string>[m](_ => None);
      val := new Option<string>[m](_ => None);
      hash := new bv32[m](_ => 0);
      n := 0;
      new;
      assert Slots() == seq(m, _ => None);
      UsedNone(m);
      UsedIsSize(Slots());
    }

    /** The loop common to get, set and unset: the hashes are compared first. */
    method Search(k: string) returns (i: nat)
      requires Valid()
      ensures i == Find(Slots(), k)
    {
      var h := HashOf(k);
      i := 0;
      while i < key.Length
        invariant i <= key.Length
        invariant forall j :: 0 <= j < i && key[j].Some? ==> key[j].value != k
      {
        if key[i].Some? && h == hash[i] && key[i].value == k {
          FoundAt(Slots(), k, i);
          return;
        }
        i := i + 1;
      }
      NotFound(Slots(), k);
    }

    /** dictionary_get */
    method Get(k: string, def: Option<string>) returns (v: Option<string>)
      requires Valid()
      ensures v == if k in Map() then Map()[k] else def
    {
      FindIsLookup(Slots(), k);
      var i := Search(k);
      v := if i < key.Length then val[i] else def;
    }

    /** mem_double, for the three arrays. */
    method Grow()
      requires Valid()
      modifies this`key, this`val, this`hash
      ensures Valid() && fresh(key) && fresh(val) && fresh(hash) && n == old(n)
      ensures Slots() == Doubled(old(Slots()))
    {
      var m := key.Length;
      ghost var s := Slots();
      var newKey := new Option<string>[2 * m](i requires 0 <= i < 2 * m reads this, key => if i < m && i < key.Length then key[i] else None);
      var newVal := new Option<string>[2 * m](i requires 0 <= i < 2 * m reads this, val => if i < m && i < val.Length then val[i] else None);
      var newHash := new bv32[2 * m](i requires 0 <= i < 2 * m reads this, hash => if i < m && i < hash.Length then hash[i] else 0);
      key, val, hash := newKey, newVal, newHash;
      assert Slots() == Doubled(s);
      UsedAppend(s, seq(m, _ => None));
      UsedNone(m);
    }

    method FirstFree() returns (i: nat)
      requires Valid()
      ensures i == Free(Slots())
    {
      i := 0;
      while i < key.Length && key[i].Some?
        invariant i <= key.Length && forall j :: 0 <= j < i ==> Slots()[j].Some?
      {
        i := i + 1;
      }
      FreeIs(Slots(), i);
    }

    /** One slot is written. */
    method Write(i: nat, k: Option<string>, v: Option<string>, h: bv32)
      requires i < key.Length == val.Length == hash.Length && Apart()
      modifies key, val, hash
      ensures key[i] == k && hash[i] == h
      ensures forall j :: 0 <= j < key.Length && j != i ==> key[j] == old(key[j]) && hash[j] == old(hash[j])
      ensures Slots() == old(Slots())[i := if k.Some? then Some(Entry(k.value, v)) else None]
    {
      key[i] := k;
      val[i] := v;
      hash[i] := h;
    }

    /** A value goes into a slot that is free or holds the same key. */
    method Store(i: nat, k: string, v: Option<string>, h: bv32)
      requires Valid() && i < key.Length && h == Hash(k) && (key[i].Some? ==> key[i].value == k)
      requires Distinct(Slots()[i := Some(Entry(k, v))])
      modifies this`n, key, val, hash
      ensures Valid() && Slots() == old(Slots())[i := Some(Entry(k, v))]
    {
      UsedUpdate(Slots(), i, Some(Entry(k, v)));
      if key[i].None? {
        n := n + 1;
      }
      Write(i, Some(k), v, h);
    }

    /** dictionary_set */
    method Set(k: Option<string>, v: Option<string>) returns (rc: int)
      requires Valid()
      modifies this, key, val, hash
      ensures Valid() && (key == old(key) || fresh(key)) && (val == old(val) || fresh(val)) && (hash == old(hash) || fresh(hash))
      ensures k.None? ==> rc == -1 && Slots() == old(Slots())
      ensures k.Some? ==> rc == 0 && Slots() == Put(old(Slots()), k.value, v) && Map() == old(Map())[k.value := v]
    {
      if k.None? {
        return -1;
      }
      ghost var s := Slots();
      PutDistinct(s, k.value, v);
      PutIsUpdate(s, k.value, v);
      var i := key.Length;
      if n > 0 {
        i := Search(k.value);
      } else {
        UsedZero(s, k.value);
      }
      rc := 0;
      var h := HashOf(k.value);
      if i < key.Length {
        Store(i, k.value, v, h);
        return;
      }
      Insert(k.value, v, h);
    }

    /** The key goes into the first free slot, of which there is one once the arrays have grown. */
    method Insert(k: string, v: Option<string>, h: bv32)
      requires Valid() && Find(Slots(), k) == key.Length && h == Hash(k)
      modifies this, key, val, hash
      ensures Valid() && (key == old(key) || fresh(key)) && (val == old(val) || fresh(val)) && (hash == old(hash) || fresh(hash))
      ensures Slots() == Put(old(Slots()), k, v)
    {
      ghost var s := Slots();
      PutDistinct(s, k, v);
      RoomyHasRoom(s);
      FreeSlot(Roomy(s));
      if n == key.Length {
        Grow();
      }
      var i := FirstFree();
      Store(i, k, v, h);
    }

    /** dictionary_unset */
    method Unset(k: Option<string>)
      requires Valid()
      modifies this`n, key, val, hash
      ensures Valid()
      ensures k.None? ==> Slots() == old(Slots())
      ensures k.Some? ==> Slots() == Drop(old(Slots()), k.value) && Map() == old(Map()) - {k.value}
    {
      if k.Some? {
        ghost var s := Slots();
        DropIsRemove(s, k.value);
        var i := Search(k.value);
        if i < key.Length {
          UsedUpdate(s, i, None);
          Write(i, None, None, 0);
          n := n - 1;
        }
      }
    }
  }
}
