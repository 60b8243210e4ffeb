/**
  The memory pool of csf/mempool.c: for every block size a class with a free list.  The
  classes are looked up by their size in a red-black tree, which stands here as a map; a
  block is a number, with the size its header carries.  Allocation itself succeeds.
*/
module MemPool {

  datatype Option<T> = None | Some(value: T)

  const TWO31: int := 0x8000_0000
  const TWO32: int := 0x1_0000_0000

  /** A long stored in an int. */
  function Int32(x: int): (y: int)
    ensures -TWO31 <= y < TWO31
    ensures -TWO31 <= x < TWO31 ==> y == x
  {
    var r := x % TWO32;
    if r < TWO31 then r else r - TWO32
  }

  /** A size_t stored in an unsigned int. */
  function U32(x: int): (y: nat)
    ensures y < TWO32 && (0 <= x < TWO32 ==> y == x)
  {
    x % TWO32
  }

  function Sign(x: int): int {
    if x == 0 then 0 else if x < 0 then -1 else 1
  }

  /** size_cmp, with the difference kept in an int. */
  function SizeCmp(a: int, b: int): int {
    Sign(Int32(a - b))
  }

  /** The comparison is that of the sizes exactly when the difference fits; so it is for positive
      sizes. */
  lemma SizeCmpIsOrder(a: int, b: int)
    requires -TWO31 <= a < TWO31 && -TWO31 <= b < TWO31
    ensures SizeCmp(a, b) == Sign(a - b) <==> -TWO31 <= a - b < TWO31
    ensures a > 0 && b > 0 ==> SizeCmp(a, b) == Sign(a - b)
  {
    if a - b >= TWO31 {
      assert (a - b) % TWO32 == a - b;
    } else if a - b < -TWO31 {
      assert (a - b) % TWO32 == a - b + TWO32;
    }
  }

  // ------------------------------------------------------- when the comparison is an order

  /** How far `k` is from `m`, going up and round. */
  function Distance(m: int, k: int): nat {
    U32(k - m)
  }

  /** The comparison of two sizes in the half turn from `m` up is that of their distances. */
  lemma ArcCmp(m: int, a: int, b: int)
    requires Distance(m, a) < TWO31 && Distance(m, b) < TWO31
    ensures SizeCmp(a, b) == Sign(Distance(m, a) - Distance(m, b))
  {
    var d := Distance(m, a) - Distance(m, b);
    assert (a - b) % TWO32 == d % TWO32 by {
      ModDifference(a - m, b - m);
    }
    assert d % TWO32 == if d >= 0 then d else d + TWO32;
  }

  lemma ModDifference(x: int, y: int)
    ensures (x - y) % TWO32 == (x % TWO32 - y % TWO32) % TWO32
  {
    var q, r := x / TWO32, y / TWO32;
    var d := x % TWO32 - y % TWO32;
    assert x - y == (q - r) * TWO32 + d;
    ModTurns(d, q - r);
  }

  lemma {:induction false} ModTurns(d: int, q: int)
    ensures (q * TWO32 + d) % TWO32 == d % TWO32
    decreases if q < 0 then -q else q
  {
    if q > 0 {
      ModTurns(d, q - 1);
      assert (q * TWO32 + d) == ((q - 1) * TWO32 + d) + TWO32;
    } else if q < 0 {
      ModTurns(d, q + 1);
      assert ((q + 1) * TWO32 + d) == (q * TWO32 + d) + TWO32;
    }
  }

  /** Sizes as an int holds them. */
  ghost predicate Ints(s: seq<int>) {
    forall k :: k in s ==> -TWO31 <= k < TWO31
  }

  /** One of two different sizes comes first, and what comes before comes before all that comes after. */
  ghost predicate Ordered(s: seq<int>) {
    && (forall a, b :: a in s && b in s && a != b ==> (SizeCmp(a, b) < 0 <==> SizeCmp(b, a) > 0) && SizeCmp(a, b) != 0)
    && (forall a, b, c :: a in s && b in s && c in s && SizeCmp(a, b) < 0 && SizeCmp(b, c) < 0 ==> SizeCmp(a, c) < 0)
  }

  /** All sizes are in the half turn from one of them up. */
  ghost predicate InArc(s: seq<int>, m: int) {
    m in s && forall k :: k in s ==> Distance(m, k) < TWO31
  }

  /** The least of some ordered sizes. */
  lemma {:induction false} Least(s: seq<int>) returns (m: int)
    requires Ordered(s) && s != []
    ensures m in s && forall k :: k in s && k != m ==> SizeCmp(m, k) < 0
    decreases |s|
  {
    var x, rest := s[0], s[1..];
    assert s == [x] + rest;
    assert forall k :: k in rest ==> k in s;
    if rest == [] {
      m := x;
    } else {
      var m' := Least(rest);
      m := if SizeCmp(x, m') < 0 then x else m';
      forall k | k in s && k != m ensures SizeCmp(m, k) < 0 {
        if m == x {
          assert k == m' || SizeCmp(m', k) < 0;
        } else if k == x {
          assert SizeCmp(x, m') != 0 && (SizeCmp(m', x) < 0 <==> SizeCmp(x, m') > 0);
        } else {
          assert k in rest;
        }
      }
    }
  }

  lemma BeforeIsFrom(m: int, k: int)
    requires SizeCmp(m, k) < 0 && SizeCmp(k, m) > 0
    ensures Distance(m, k) < TWO31
  {
  }

  lemma FromApart(m: int, a: int, b: int)
    requires -TWO31 <= a < TWO31 && -TWO31 <= b < TWO31 && Distance(m, a) == Distance(m, b)
    ensures a == b
  {
    ModDifference(a - m, b - m);
    assert (a - b) % TWO32 == 0;
  }

  /** The comparison orders some sizes exactly if they are all in one half turn. */
  lemma OrderIff(s: seq<int>)
    requires Ints(s) && s != []
    ensures Ordered(s) <==> exists m :: InArc(s, m)
  {
    if Ordered(s) {
      var m := Least(s);
      forall k | k in s ensures Distance(m, k) < TWO31 {
        if k != m {
          BeforeIsFrom(m, k);
        }
      }
      assert InArc(s, m);
    }
    if m :| InArc(s, m) {
      ArcOrdered(s, m);
    }
  }

  lemma ArcOrdered(s: seq<int>, m: int)
    requires Ints(s) && InArc(s, m)
    ensures Ordered(s)
  {
    forall a, b | a in s && b in s ensures SizeCmp(a, b) == Sign(Distance(m, a) - Distance(m, b)) {
      ArcCmp(m, a, b);
    }
    forall a, b | a in s && b in s && a != b ensures Distance(m, a) != Distance(m, b) {
      if Distance(m, a) == Distance(m, b) {
        FromApart(m, a, b);
      }
    }
  }

  /** Three sizes, as an int holds them, each of which comes before the next. */
  lemma RoundAndRound()
    ensures !Ordered([0, 0x6000_0000, -0x4000_0000])
  {
    var s := [0, 0x6000_0000, -0x4000_0000];
    assert s[0] in s && s[1] in s && s[2] in s;
    assert SizeCmp(0, 0x6000_0000) < 0 && SizeCmp(0x6000_0000, -0x4000_0000) < 0 && SizeCmp(0, -0x4000_0000) > 0;
  }

  /** A size class: total_item and the free list, first block first. */
  datatype Class = Class(total: nat, list: seq<nat>)

  predicate Distinct(s: seq<nat>) {
    forall i, j :: 0 <= i < j < |s| ==> s[i] != s[j]
  }

  function Members(s: seq<nat>): set<nat> {
    set b | b in s
  }

  lemma MembersStep(s: seq<nat>, i: nat)
    requires i < |s|
    ensures Members(s[..i + 1]) == Members(s[..i]) + {s[i]}
  {
    assert s[..i + 1] == s[..i] + [s[i]];
  }

  predicate Pooled(classes: map<int, Class>, k: int) {
    k in classes && classes[k].total > 0
  }

  /** A block came back: pooled while there is room, or freed together with all that is too much. */
  ghost predicate Returned(before: map<int, Class>, after: map<int, Class>, b: nat, k: int, preFree: nat) {
    && k in before
    && (before[k].total <= preFree ==> after == before[k := Class(before[k].total + 1, [b] + before[k].list)])
    && (before[k].total > preFree ==>
        |before[k].list| >= preFree && after == before[k := Class(preFree, before[k].list[|before[k].list| - preFree..])])
  }

  /** A class has a new stock of `count` blocks, and there is one new block besides; every other class, and
      every block there was, is as before. */
  ghost predicate Stocked(was: map<int, Class>, sizes: map<nat, int>, now: map<int, Class>, sizes': map<nat, int>, k: int, n: int, count: nat, b: nat) {
    && k in now && now == was[k := now[k]] && now[k].total == |now[k].list| == count
    && b !in sizes && b !in now[k].list && (forall x :: x in sizes' <==> x in sizes || x in now[k].list || x == b)
    && (forall x :: x in sizes ==> sizes'[x] == sizes[x] && x !in now[k].list)
    && (forall x :: x in now[k].list ==> sizes'[x] == if k in was then k else n)
  }

  lemma ConsDistinct(b: nat, s: seq<nat>)
    requires Distinct(s) && b !in s
    ensures Distinct([b] + s)
  {
  }

  class MemPool {
    var initialized: bool
    var preAlloc: nat
    var preFree: nat
    var classes: map<int, Class>
    var size: map<nat, int>       // the header of every block in memory
    var next: nat                 // a number no block has had
    ghost var lent: set<nat>      // the blocks handed out

    /** The lists are as long as they are counted, a block is in the list of its own class only and
        once, and what is lent is in no list. */
    ghost predicate Valid()
      reads this
    {
      && (forall b :: b in size ==> b < next)
      && (forall k :: k in classes ==> Good(k, classes[k]))
      && (forall b :: b in lent ==> b in size && Int32(size[b]) in classes)
    }

    ghost predicate Good(k: int, c: Class)
      reads this
    {
      && c.total == |c.list| && Distinct(c.list)
      && forall b :: b in c.list ==> b in size && Int32(size[b]) == k && b !in lent
    }

    /** No list is longer than its bound, and a new stock is not. */
    ghost predicate Bounded()
      reads this
    {
      1 <= preAlloc <= preFree && forall k :: k in classes ==> classes[k].total <= preFree + 1
    }

    /** Every size asked for fits an int; then size_cmp orders the classes. */
    ghost predicate InRange()
      reads this
    {
      && (forall b :: b in size ==> 0 < size[b] < TWO31)
      && (forall k :: k in classes ==> 0 < k < TWO31)
    }

    lemma ClassesAreOrdered(k: int, j: int)
      requires InRange() && k in classes && j in classes
      ensures SizeCmp(k, j) == Sign(k - j)
    {
      SizeCmpIsOrder(k, j);
    }

    constructor ()
      ensures Valid() && InRange() && Bounded() && !initialized && classes == map[] && preAlloc == 10 && preFree == 20 && lent == {}
    {
      initialized, preAlloc, preFree, classes, size, next, lent := false, 10, 20, map[], map[], 0, {};
    }

    /** mp_init, at any time: lists may then be longer than their new bound. */
    method Init(preAllocNum: nat, preFreeNum: nat)
      requires Valid()
      modifies this`initialized, this`preAlloc, this`preFree
      ensures Valid() && initialized
      ensures preAllocNum != 0 && preFreeNum != 0 ==>
        preAlloc == U32(preAllocNum) && preFree == U32(if preFreeNum < preAllocNum then preAllocNum else preFreeNum)
      ensures preAllocNum == 0 || preFreeNum == 0 ==> preAlloc == old(preAlloc) && preFree == old(preFree)
      ensures preAllocNum < TWO32 && preFreeNum < TWO32 && old(Bounded()) && preFree >= old(preFree) ==> Bounded()
    {
      if preAllocNum != 0 && preFreeNum != 0 {
        preAlloc := U32(preAllocNum);
        preFree := U32(if preFreeNum < preAllocNum then preAllocNum else preFreeNum);
      }
      initialized := true;
    }

    /** malloc of a block with its header. */
    method NewBlock(n: int) returns (b: nat)
      modifies this`size, this`next
      requires forall x :: x in size ==> x < next
      ensures forall x :: x in size ==> x < next
      ensures b == old(next) && next == b + 1 && size == old(size)[b := n]
    {
      b := next;
      size := size[b := n];
      next := next + 1;
    }

    /** mp_init_block: `count` blocks of one size for an empty class. */
    method InitBlock(n: int, count: nat) returns (c: Class)
      requires Valid()
      modifies this`size, this`next
      ensures Valid() && Good(Int32(n), c) && c.total == count
      ensures forall b :: b in old(size) ==> b in size && size[b] == old(size)[b]
      ensures forall b :: b in size && b !in old(size) ==> size[b] == n
      ensures forall b :: b in c.list <==> b in size && b !in old(size)
    {
      c := Class(0, []);
      var i := 0;
      while i < count
        invariant i <= count && Valid() && Good(Int32(n), c) && c.total == i
        invariant forall b :: b in old(size) ==> b in size && size[b] == old(size)[b]
        invariant forall b :: b in size && b !in old(size) ==> size[b] == n
        invariant forall b :: b in c.list <==> b in size && b !in old(size)
      {
        var b := NewBlock(n);
        ConsDistinct(b, c.list);
        c := Class(c.total + 1, [b] + c.list);
        i := i + 1;
      }
    }

    /** A block from the free list. */
    method TakePooled(k: int) returns (b: nat)
      requires Valid() && k in classes && classes[k].total > 0
      modifies this`classes, this`lent
      ensures Valid() && (old(Bounded()) ==> Bounded()) && b == old(classes[k].list[0]) && lent == old(lent) + {b}
      ensures classes == old(classes)[k := Class(old(classes[k].total) - 1, old(classes[k].list[1..]))]
    {
      var c := classes[k];
      b := c.list[0];
      classes := classes[k := Class(c.total - 1, c.list[1..])];
      lent := lent + {b};
    }

    /** A fresh stock of blocks for a class that has none. */
    method Stock(k: int, n: int)
      requires Valid() && Int32(n) == k && (k in classes ==> classes[k].total == 0)
      modifies this`classes, this`size, this`next
      ensures Valid() && k in classes && classes[k].total == U32(preAlloc - 1) && (old(Bounded()) ==> Bounded())
      ensures classes == old(classes)[k := classes[k]]
      ensures forall b :: b in old(size) ==> b in size && size[b] == old(size)[b]
      ensures forall b :: b in size && b !in old(size) ==> size[b] == n
      ensures forall b :: b in classes[k].list <==> b in size && b !in old(size)
    {
      var c := InitBlock(n, U32(preAlloc - 1));
      classes := classes[k := c];
    }

    /** mp_alloc */
    method Alloc(n: int) returns (p: Option<nat>)
      requires Valid()
      modifies this`classes, this`size, this`next, this`lent
      ensures Valid() && (old(Bounded()) ==> Bounded()) && (p.None? <==> !initialized || n <= 0)
      ensures p.None? ==> lent == old(lent) && classes == old(classes) && size == old(size)
      ensures p.Some? ==> p.value !in old(lent) && lent == old(lent) + {p.value}
      ensures p.Some? ==> p.value in size && Int32(size[p.value]) == Int32(n)
      ensures p.Some? && Pooled(old(classes), Int32(n)) ==>
        var c := old(classes)[Int32(n)];
        p.value == c.list[0] && classes == old(classes)[Int32(n) := Class(c.total - 1, c.list[1..])] && size == old(size)
      ensures p.Some? && !Pooled(old(classes), Int32(n)) ==>
        size[p.value] == n && Stocked(old(classes), old(size), classes, size, Int32(n), n, U32(preAlloc - 1), p.value)
      ensures old(InRange()) && n < TWO31 ==> InRange()
      ensures old(InRange()) && p.Some? ==> (size[p.value] == n <==> n < TWO31 || !Pooled(old(classes), Int32(n)))
    {
      if !initialized || n <= 0 {
        return None;
      }
      var k := Int32(n);
      if k in classes && classes[k].total != 0 {
        assert classes[k].list != [];
        var b := TakePooled(k);
        return Some(b);
      }
      var b := AllocFresh(n, k);
      return Some(b);
    }

    /** A new stock for the class, and a block besides. */
    method AllocFresh(n: int, k: int) returns (b: nat)
      requires Valid() && Int32(n) == k && !Pooled(classes, k)
      modifies this`classes, this`size, this`next, this`lent
      ensures Valid() && (old(Bounded()) ==> Bounded()) && lent == old(lent) + {b} && b in size && size[b] == n
      ensures Stocked(old(classes), old(size), classes, size, k, n, U32(preAlloc - 1), b)
      ensures old(InRange()) && 0 < n < TWO31 ==> InRange()
    {
      Stock(k, if k in classes then k else n);
      b := NewBlock(n);
      lent := lent + {b};
    }

    /** The drain loop: blocks are given back, the newest first, until the list is down to its bound. */
    method Drain(k: int)
      requires Valid() && k in classes && classes[k].total > preFree
      modifies this`classes, this`size
      ensures Valid() && classes == old(classes)[k := Class(preFree, old(classes[k].list[|classes[k].list| - preFree..]))]
      ensures size == old(size) - Members(old(classes[k].list[..|classes[k].list| - preFree]))
    {
      ghost var list := classes[k].list;
      ghost var i := 0;
      while classes[k].list != [] && classes[k].total != preFree
        invariant Valid() && k in classes && i <= |list| - preFree
        invariant classes == old(classes)[k := Class(|list| - i, list[i..])]
        invariant size == old(size) - Members(list[..i])
        decreases classes[k].total
      {
        DropNext(k, list, i, old(size), old(classes));
        i := i + 1;
      }
      assert classes[k].total == preFree;
    }

    method DropNext(k: int, ghost list: seq<nat>, ghost i: nat, ghost all: map<nat, int>, ghost was: map<int, Class>)
      requires Valid() && i < |list| && k in was
      requires classes == was[k := Class(|list| - i, list[i..])] && size == all - Members(list[..i])
      modifies this`classes, this`size
      ensures Valid() && classes == was[k := Class(|list| - i - 1, list[i + 1..])] && size == all - Members(list[..i + 1])
    {
      MembersStep(list, i);
      DropFirst(k);
    }

    method DropFirst(k: int)
      requires Valid() && k in classes && classes[k].list != []
      modifies this`classes, this`size
      ensures Valid() && size == old(size) - {old(classes[k].list[0])}
      ensures classes == old(classes)[k := Class(old(classes[k].total) - 1, old(classes[k].list[1..]))]
    {
      var c := classes[k];
      assert forall j, b :: j in classes && b in classes[j].list && j != k ==> b != c.list[0];
      assert forall b :: b in c.list[1..] ==> b != c.list[0];
      classes := classes[k := Class(c.total - 1, c.list[1..])];
      size := size - {c.list[0]};
    }

    /** mp_pfree: the caller gives back a block it was lent. */
    method Free(p: Option<nat>)
      requires Valid() && (p.Some? ==> p.value in lent)
      modifies this`classes, this`size, this`lent
      ensures Valid() && (old(Bounded()) ==> Bounded())
      ensures !initialized || p.None? ==> classes == old(classes) && size == old(size) && lent == old(lent)
      ensures initialized && p.Some? ==> lent == old(lent) - {p.value} && Returned(old(classes), classes, p.value, Int32(old(size)[p.value]), preFree)
      ensures initialized && p.Some? ==>
        var c := old(classes)[Int32(old(size)[p.value])];
        size == if c.total <= preFree then old(size) else old(size) - {p.value} - Members(c.list[..|c.list| - preFree])
      ensures old(InRange()) ==> InRange()
    {
      if !initialized || p.None? {
        return;
      }
      var b := p.value;
      var k := Int32(size[b]);
      lent := lent - {b};
      var c := classes[k];
      if c.total > preFree {
        size := size - {b};
        Drain(k);
      } else {
        ConsDistinct(b, c.list);
        classes := classes[k := Class(c.total + 1, [b] + c.list)];
      }
    }
  }

  /** A size that does not fit an int is cut down to one that does, and is answered with a block of
      that size. */
  method TooLarge() returns (asked: int, got: int)
    ensures asked == TWO32 + 8 && got == 8
  {
    var pool := new MemPool();
    pool.Init(0, 0);
    var p := pool.Alloc(8);
    asked := TWO32 + 8;
    assert Int32(asked) == 8;
    p := pool.Alloc(asked);
    got := pool.size[p.value];
  }
}
