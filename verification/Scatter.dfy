/**
  The scatter write of csf/tcp.c: tcp_writev hands a vector of blocks to writev and, after
  a partial write, finds by prefix sums where to go on.  Bytes are told apart by their
  address, a block and an index in it, so that sending a wrong byte is never hidden by
  equal contents.
*/
module Scatter {

  datatype Addr = Addr(block: nat, index: nat)

  /** The length of the first `i` blocks; entry i of vec_base_byte_ordinal is Sum(v, i + 1). */
  function Sum(v: seq<nat>, i: nat): nat
    requires i <= |v|
  {
    if i == 0 then 0 else Sum(v, i - 1) + v[i - 1]
  }

  /** The search loop, from block `i` on: the block to go on with and the offset in it. */
  function SearchFrom(v: seq<nat>, n: nat, i: nat): (nat, nat)
    requires i <= |v| && Sum(v, i) <= n
    decreases |v| - i
  {
    if i == |v| then (|v|, 0)
    else if n < Sum(v, i + 1) then (i, v[i] - (Sum(v, i + 1) - n))
    else if n == Sum(v, i + 1) then (i + 1, 0)
    else SearchFrom(v, n, i + 1)
  }

  function Search(v: seq<nat>, n: nat): (nat, nat) {
    SearchFrom(v, n, 0)
  }

  lemma {:induction false} SumMonotone(v: seq<nat>, i: nat, j: nat)
    requires i <= j <= |v|
    ensures Sum(v, i) <= Sum(v, j)
    decreases j - i
  {
    if i < j {
      SumMonotone(v, i, j - 1);
    }
  }

  /** Byte `n` is at offset `o` of block `b`, or past the end of the vector. */
  predicate IsPlace(v: seq<nat>, n: nat, b: nat, o: nat) {
    && b <= |v| && (b == |v| ==> o == 0 && n >= Sum(v, |v|))
    && (b < |v| ==> Sum(v, b) + o == n && (o < v[b] || (o == 0 && v[b] == 0)))
  }

  /** The search ends at byte `n`, or past the end of the vector. */
  lemma {:induction false} SearchFromFinds(v: seq<nat>, n: nat, i: nat)
    requires i <= |v| && Sum(v, i) <= n
    ensures IsPlace(v, n, SearchFrom(v, n, i).0, SearchFrom(v, n, i).1)
    decreases |v| - i
  {
    if i < |v| && n > Sum(v, i + 1) {
      SearchFromFinds(v, n, i + 1);
    }
  }

  lemma SearchFinds(v: seq<nat>, n: nat)
    ensures IsPlace(v, n, Search(v, n).0, Search(v, n).1)
  {
    SearchFromFinds(v, n, 0);
  }

  ghost predicate NoEmptyBlock(v: seq<nat>) {
    forall i :: 0 <= i < |v| ==> v[i] > 0
  }

  lemma {:induction false} SearchReaches(v: seq<nat>, n: nat, i: nat, b: nat, o: nat)
    requires NoEmptyBlock(v) && i <= b < |v| && o < v[b] && Sum(v, b) + o == n && Sum(v, i) <= n
    ensures SearchFrom(v, n, i) == (b, o)
    decreases b - i
  {
    if i < b {
      SumMonotone(v, i + 1, b);
      if i + 1 < b {
        SumMonotone(v, i + 2, b);
      }
      if n > Sum(v, i + 1) {
        SearchReaches(v, n, i + 1, b, o);
      }
    }
  }

  /** For blocks that are not empty the search yields the one place of byte `n`. */
  lemma SearchIsUnique(v: seq<nat>, n: nat, b: nat, o: nat)
    requires NoEmptyBlock(v) && b < |v| && o < v[b] && Sum(v, b) + o == n
    ensures Search(v, n) == (b, o)
  {
    SumMonotone(v, 0, b);
    SearchReaches(v, n, 0, b, o);
  }

  lemma {:induction false} LastBlock(v: seq<nat>, i: nat)
    requires i < |v| && (i == 0 || Sum(v, i) < Sum(v, |v|)) && Sum(v, i) <= Sum(v, |v|)
    ensures SearchFrom(v, Sum(v, |v|), i).0 == |v| <==> i == |v| - 1 || v[|v| - 1] > 0
    decreases |v| - i
  {
    SumMonotone(v, i + 1, |v|);
    if i < |v| - 1 {
      SumMonotone(v, i + 1, |v| - 1);
      if Sum(v, i + 1) < Sum(v, |v|) {
        LastBlock(v, i + 1);
      }
    }
  }

  /** With everything written the search ends past the last block, unless there is more than one
      block and the last one is empty. */
  lemma EndsIffLastNotEmpty(v: seq<nat>)
    requires v != []
    ensures Search(v, Sum(v, |v|)).0 == |v| <==> |v| == 1 || v[|v| - 1] > 0
  {
    SumMonotone(v, 0, |v|);
    LastBlock(v, 0);
  }

  // ------------------------------------------------------------------- addresses

  function Cells(b: nat, lo: nat, hi: nat): (s: seq<Addr>)
    requires lo <= hi
    ensures |s| == hi - lo
  {
    seq(hi - lo, i requires i >= 0 => Addr(b, lo + i))
  }

  /** The bytes of the blocks from `b` on. */
  function From(v: seq<nat>, b: nat): (s: seq<Addr>)
    requires b <= |v|
    ensures |s| == Sum(v, |v|) - Sum(v, b)
    decreases |v| - b
  {
    if b == |v| then [] else Cells(b, 0, v[b]) + From(v, b + 1)
  }

  /** The concatenation of all blocks. */
  function All(v: seq<nat>): (s: seq<Addr>)
    ensures |s| == Sum(v, |v|)
  {
    From(v, 0)
  }

  lemma {:induction false} FromIsTail(v: seq<nat>, b: nat)
    requires b <= |v|
    ensures Sum(v, b) <= |All(v)| && All(v)[Sum(v, b)..] == From(v, b)
  {
    SumMonotone(v, b, |v|);
    if b > 0 {
      SumMonotone(v, b - 1, |v|);
      FromIsTail(v, b - 1);
      var t := From(v, b - 1);
      assert t[v[b - 1]..] == From(v, b);
      assert All(v)[Sum(v, b)..] == All(v)[Sum(v, b - 1)..][v[b - 1]..];
    }
  }

  /** What writev is offered from byte `start` of block `b` on. */
  function Offer(v: seq<nat>, b: nat, start: nat): seq<Addr>
    requires b < |v| && start <= v[b]
  {
    Cells(b, start, v[b]) + From(v, b + 1)
  }

  lemma {:induction false} OfferIsTail(v: seq<nat>, b: nat, o: nat)
    requires b < |v| && o <= v[b]
    ensures Sum(v, b) + o <= |All(v)| && Offer(v, b, o) == All(v)[Sum(v, b) + o..]
  {
    FromIsTail(v, b);
    SumMonotone(v, b + 1, |v|);
    assert Offer(v, b, o) == From(v, b)[o..] by {
      assert From(v, b) == Cells(b, 0, v[b]) + From(v, b + 1);
      assert Cells(b, o, v[b]) == Cells(b, 0, v[b])[o..];
    }
    assert All(v)[Sum(v, b) + o..] == All(v)[Sum(v, b)..][o..];
  }

  /** Can writev take `k` bytes?  None if the start is past the block's end: its length then wraps
      around, and writev refuses a vector of that length. */
  predicate Offered(v: seq<nat>, b: nat, start: nat, k: nat) {
    b < |v| && start <= v[b] && k <= |Offer(v, b, start)|
  }

  /** The bytes that go out when it does. */
  function Taken(v: seq<nat>, b: nat, start: nat, k: nat): (s: seq<Addr>)
    requires Offered(v, b, start, k)
    ensures |s| == k
  {
    Offer(v, b, start)[..k]
  }

  // --------------------------------------------------------------------- the loop

  /** `start` is how far each block's base has been moved, `block` is cur_block, `n` nwritten. */
  datatype State = State(start: seq<nat>, block: nat, n: nat, wire: seq<Addr>)

  function Begin(v: seq<nat>): State {
    State(seq(|v|, _ => 0), 0, 0, [])
  }

  predicate Can(v: seq<nat>, s: State, k: nat) {
    s.block < |s.start| && Offered(v, s.block, s.start[s.block], k)
  }

  /** writev takes `k` bytes and the place to go on is looked up.  As written the new offset is
      added to what the block's base was moved before; `fixed` takes it from the original vector. */
  function After(v: seq<nat>, s: State, k: nat, fixed: bool): State
    requires |s.start| == |v| && Can(v, s, k)
  {
    SearchFinds(v, s.n + k);
    var (b, o) := Search(v, s.n + k);
    State(if b < |v| then s.start[b := if fixed then o else s.start[b] + o] else s.start,
          b, s.n + k, s.wire + Taken(v, s.block, s.start[s.block], k))
  }

  /** The state after the writes `ks`, each of which took what it could have taken. */
  ghost predicate Reaches(v: seq<nat>, ks: seq<nat>, fixed: bool, s: State)
    decreases |ks|
  {
    if ks == [] then s == Begin(v)
    else
      var m := |ks| - 1;
      exists p :: Reaches(v, ks[..m], fixed, p) && |p.start| == |v| && Can(v, p, ks[m]) && s == After(v, p, ks[m], fixed)
  }

  /** What went out is the beginning of the concatenation. */
  ghost predicate Correct(v: seq<nat>, s: State) {
    s.n <= |All(v)| && s.wire == All(v)[..s.n]
  }

  /** The next write starts at the byte where the last one stopped. */
  predicate OnSpot(v: seq<nat>, s: State) {
    s.block < |v| && s.block < |s.start| ==>
      s.start[s.block] <= v[s.block] && Sum(v, s.block) + s.start[s.block] == s.n
  }

  /** A write from the right spot keeps the stream right. */
  lemma RightStep(v: seq<nat>, s: State, k: nat, fixed: bool)
    requires |s.start| == |v| && Can(v, s, k) && Correct(v, s) && OnSpot(v, s)
    ensures Correct(v, After(v, s, k, fixed))
  {
    OfferIsTail(v, s.block, s.start[s.block]);
    LongerPrefix(All(v), s.n, k);
  }

  lemma LongerPrefix(a: seq<Addr>, n: nat, k: nat)
    requires n + k <= |a|
    ensures a[..n] + a[n..][..k] == a[..n + k]
  {
  }

  /** Everything so far is right, and the next write starts where the last one stopped. */
  ghost predicate InStep(v: seq<nat>, s: State) {
    |s.start| == |v| && Correct(v, s) && OnSpot(v, s) && (s.block >= |v| ==> s.n == |All(v)|)
  }

  lemma FixedStep(v: seq<nat>, s: State, k: nat)
    requires InStep(v, s) && Can(v, s, k)
    ensures InStep(v, After(v, s, k, true))
  {
    RightStep(v, s, k, true);
    SearchFinds(v, s.n + k);
  }

  /** Taking the offset from the original vector, every schedule of partial writes sends the
      blocks in order, empty ones or not. */
  lemma {:induction false} FixedIsCorrect(v: seq<nat>, ks: seq<nat>, s: State)
    requires Reaches(v, ks, true, s)
    ensures InStep(v, s)
    decreases |ks|
  {
    if ks != [] {
      var m := |ks| - 1;
      var p :| Reaches(v, ks[..m], true, p) && |p.start| == |v| && Can(v, p, ks[m]) && s == After(v, p, ks[m], true);
      FixedIsCorrect(v, ks[..m], p);
      FixedStep(v, p, ks[m]);
    }
  }

  // ---------------------------------------------------------------- an empty last block

  lemma {:induction false} NotPastEmpty(v: seq<nat>, n: nat, i: nat)
    requires i < |v| - 1 && v[|v| - 1] == 0 && Sum(v, i) <= n <= Sum(v, |v|)
    ensures SearchFrom(v, n, i).0 < |v|
    decreases |v| - i
  {
    SumMonotone(v, i + 1, |v| - 1);
    if n > Sum(v, i + 1) {
      assert i + 1 < |v| - 1;
      NotPastEmpty(v, n, i + 1);
    }
  }

  /** The base of the current block is never moved too little. */
  predicate FarEnough(v: seq<nat>, s: State) {
    && s.n <= Sum(v, |v|) && (s.block >= |v| ==> s.n == Sum(v, |v|))
    && (s.block < |v| && s.block < |s.start| ==> s.n <= Sum(v, s.block) + s.start[s.block])
  }

  /** So no more bytes go out than there are, right or wrong, empty blocks or not. */
  lemma FarEnoughStep(v: seq<nat>, s: State, k: nat, fixed: bool)
    requires |s.start| == |v| && Can(v, s, k) && FarEnough(v, s)
    ensures FarEnough(v, After(v, s, k, fixed))
  {
    OfferIsTail(v, s.block, s.start[s.block]);
    SearchFinds(v, s.n + k);
  }

  lemma {:induction false} NeverTooMany(v: seq<nat>, ks: seq<nat>, fixed: bool, s: State)
    requires Reaches(v, ks, fixed, s)
    ensures FarEnough(v, s)
    decreases |ks|
  {
    if ks == [] {
      SumMonotone(v, 0, |v|);
    } else {
      var m := |ks| - 1;
      var p :| Reaches(v, ks[..m], fixed, p) && |p.start| == |v| && Can(v, p, ks[m]) && s == After(v, p, ks[m], fixed);
      NeverTooMany(v, ks[..m], fixed, p);
      FarEnoughStep(v, p, ks[m], fixed);
    }
  }

  /** With more than one block and an empty last one the loop never ends, whatever is written. */
  lemma {:induction false} NeverEnds(v: seq<nat>, ks: seq<nat>, fixed: bool, s: State)
    requires |v| > 1 && v[|v| - 1] == 0 && Reaches(v, ks, fixed, s)
    ensures s.block < |v|
  {
    NeverTooMany(v, ks, fixed, s);
    if ks != [] {
      var m := |ks| - 1;
      var p :| Reaches(v, ks[..m], fixed, p) && |p.start| == |v| && Can(v, p, ks[m]) && s == After(v, p, ks[m], fixed);
      PlaceAfter(v, p, ks[m], fixed);
      NotPastEmpty(v, s.n, 0);
    }
  }

  lemma PlaceAfter(v: seq<nat>, s: State, k: nat, fixed: bool)
    requires |s.start| == |v| && Can(v, s, k)
    ensures After(v, s, k, fixed).block == Search(v, s.n + k).0 && After(v, s, k, fixed).n == s.n + k
  {
  }

  // ------------------------------------------------------------------- as written

  /** How many bytes the first `i` writes took. */
  function Total(ks: seq<nat>, i: nat): nat
    requires i <= |ks|
  {
    if i == 0 then 0 else Total(ks, i - 1) + ks[i - 1]
  }

  lemma {:induction false} TotalPrefix(ks: seq<nat>, m: nat, i: nat)
    requires i <= m <= |ks|
    ensures Total(ks[..m], i) == Total(ks, i)
  {
    if i > 0 {
      TotalPrefix(ks, m, i - 1);
    }
  }

  lemma {:induction false} TotalMonotone(ks: seq<nat>, i: nat, j: nat)
    requires i <= j <= |ks|
    ensures Total(ks, i) <= Total(ks, j)
    decreases j
  {
    if i < j {
      TotalMonotone(ks, i, j - 1);
    }
  }

  /** Both bytes lie strictly inside the same block. */
  predicate SameCut(v: seq<nat>, a: nat, b: nat) {
    Search(v, a).0 == Search(v, b).0 < |v| && Search(v, a).1 > 0 && Search(v, b).1 > 0
  }

  /** The place where the last write stopped is not the first cut in its block. */
  ghost predicate CutAgain(v: seq<nat>, ks: seq<nat>) {
    exists i :: 0 <= i < |ks| && SameCut(v, Total(ks, i), Total(ks, |ks|))
  }

  /** Some block was cut by two partial writes, and bytes went out after that. */
  ghost predicate CutTwice(v: seq<nat>, ks: seq<nat>) {
    exists i, j :: 0 <= i < j <= |ks| && SameCut(v, Total(ks, i), Total(ks, j)) && Total(ks, j) < Total(ks, |ks|)
  }

  lemma {:induction false} CutTwiceStep(v: seq<nat>, ks: seq<nat>)
    requires ks != []
    ensures var m := |ks| - 1; CutTwice(v, ks) <==> CutTwice(v, ks[..m]) || (ks[m] > 0 && CutAgain(v, ks[..m]))
  {
    var m := |ks| - 1;
    var before := ks[..m];
    TotalPrefix(ks, m, m);
    if CutTwice(v, ks) {
      var i, j :| 0 <= i < j <= |ks| && SameCut(v, Total(ks, i), Total(ks, j)) && Total(ks, j) < Total(ks, |ks|);
      TotalPrefix(ks, m, i);
      TotalPrefix(ks, m, j);
      TotalMonotone(ks, j, m);
      if Total(ks, j) < Total(ks, m) {
        assert SameCut(v, Total(before, i), Total(before, j));
      } else {
        assert SameCut(v, Total(before, i), Total(before, m));
      }
    }
    if CutTwice(v, before) {
      var i, j :| 0 <= i < j <= m && SameCut(v, Total(before, i), Total(before, j)) && Total(before, j) < Total(before, m);
      TotalPrefix(ks, m, i);
      TotalPrefix(ks, m, j);
      assert SameCut(v, Total(ks, i), Total(ks, j));
    }
    if ks[m] > 0 && CutAgain(v, before) {
      var i :| 0 <= i < m && SameCut(v, Total(before, i), Total(before, m));
      TotalPrefix(ks, m, i);
      assert SameCut(v, Total(ks, i), Total(ks, m));
    }
  }

  lemma {:induction false} SearchFromMonotone(v: seq<nat>, a: nat, c: nat, i: nat)
    requires i <= |v| && Sum(v, i) <= a <= c
    ensures i <= SearchFrom(v, a, i).0 <= SearchFrom(v, c, i).0
    decreases |v| - i
  {
    if i < |v| && c > Sum(v, i + 1) {
      SearchFromMonotone(v, if a > Sum(v, i + 1) then a else c, c, i + 1);
    }
  }

  lemma SearchMonotone(v: seq<nat>, a: nat, c: nat)
    requires a <= c
    ensures Search(v, a).0 <= Search(v, c).0
    ensures Search(v, a).0 == Search(v, c).0 < |v| ==> Search(v, c).1 - Search(v, a).1 == c - a
  {
    SearchFinds(v, a);
    SearchFinds(v, c);
    SearchFromMonotone(v, a, c, 0);
  }

  /** A cut is a second one exactly when the write before stopped inside the same block. */
  lemma CutAgainStep(v: seq<nat>, ks: seq<nat>)
    requires ks != []
    ensures var m := |ks| - 1; CutAgain(v, ks) <==> SameCut(v, Total(ks, m), Total(ks, m + 1))
  {
    var m := |ks| - 1;
    if CutAgain(v, ks) {
      var i :| 0 <= i < |ks| && SameCut(v, Total(ks, i), Total(ks, |ks|));
      TotalMonotone(ks, i, m);
      SearchMonotone(v, Total(ks, i), Total(ks, m));
      SearchMonotone(v, Total(ks, m), Total(ks, m + 1));
    }
  }

  lemma {:induction false} FromBlocks(v: seq<nat>, b: nat, i: nat)
    requires b <= |v| && i < |From(v, b)|
    ensures From(v, b)[i].block >= b
    decreases |v| - b
  {
    if i >= v[b] {
      FromBlocks(v, b + 1, i - v[b]);
    }
  }

  /** A write from the wrong spot sends a wrong byte at once. */
  lemma WrongStep(v: seq<nat>, s: State, k: nat, o: nat)
    requires |s.start| == |v| && Can(v, s, k) && IsPlace(v, s.n, s.block, o) && |s.wire| == s.n
    requires Correct(v, After(v, s, k, false))
    ensures Correct(v, s) && (k == 0 || s.start[s.block] == o)
  {
    var s', b, start := After(v, s, k, false), s.block, s.start[s.block];
    var out := Taken(v, b, start, k);
    assert s'.wire[..s.n] == s.wire && All(v)[..s'.n][..s.n] == All(v)[..s.n];
    if k > 0 && o < v[b] {
      OfferIsTail(v, b, o);
      assert s'.wire[s.n] == out[0] == All(v)[s.n] == Offer(v, b, o)[0] == Addr(b, o);
      if start == v[b] {
        FromBlocks(v, b + 1, 0);
      }
    }
  }

  /** Where the writes `ks` have come to: the first block, empty or not, before there are any. */
  function Place(v: seq<nat>, ks: seq<nat>): (nat, nat) {
    if ks == [] then (0, 0) else Search(v, Total(ks, |ks|))
  }

  lemma PlaceFinds(v: seq<nat>, ks: seq<nat>)
    ensures IsPlace(v, Total(ks, |ks|), Place(v, ks).0, Place(v, ks).1)
  {
    SearchFinds(v, Total(ks, |ks|));
  }

  /** The bases of the blocks to come: untouched, and the current one too far exactly when
      it was cut before. */
  ghost predicate Moved(v: seq<nat>, ks: seq<nat>, s: State) {
    && |s.start| == |v| && s.block == Place(v, ks).0 && s.n == Total(ks, |ks|) && |s.wire| == s.n
    && (forall b :: s.block < b < |v| ==> s.start[b] == 0)
    && (s.block < |v| ==>
        && s.start[s.block] >= Place(v, ks).1
        && (s.start[s.block] > Place(v, ks).1 <==> CutAgain(v, ks)))
  }

  /** The first write finds every base where it was. */
  lemma MovedFirst(v: seq<nat>, k: nat, p: State, s: State)
    requires Moved(v, [], p) && Can(v, p, k) && s == After(v, p, k, false)
    ensures Moved(v, [k], s)
  {
    SearchFinds(v, 0);
    SearchFinds(v, k);
    assert Total([k], 1) == k;
    CutAgainStep(v, [k]);
  }

  lemma MovedStep(v: seq<nat>, ks: seq<nat>, p: State, s: State)
    requires |ks| > 1 && Moved(v, ks[..|ks| - 1], p)
    requires Can(v, p, ks[|ks| - 1]) && s == After(v, p, ks[|ks| - 1], false)
    ensures Moved(v, ks, s)
  {
    var m := |ks| - 1;
    TotalPrefix(ks, m, m);
    SearchFinds(v, p.n);
    SearchFinds(v, s.n);
    SearchMonotone(v, p.n, s.n);
    CutAgainStep(v, ks);
    CutAgainStep(v, ks[..m]);
  }

  /** One more write, and what it sends. */
  lemma CorrectStep(v: seq<nat>, before: seq<nat>, p: State, k: nat)
    requires Moved(v, before, p) && Can(v, p, k)
    ensures Correct(v, After(v, p, k, false)) <==> Correct(v, p) && (k == 0 || !CutAgain(v, before))
  {
    var s := After(v, p, k, false);
    PlaceFinds(v, before);
    if Correct(v, s) {
      WrongStep(v, p, k, Place(v, before).1);
    }
    if Correct(v, p) && OnSpot(v, p) {
      RightStep(v, p, k, false);
    } else if Correct(v, p) && k == 0 {
      assert s.wire == p.wire;
    }
  }

  lemma MovedOn(v: seq<nat>, ks: seq<nat>, p: State, s: State)
    requires ks != [] && Moved(v, ks[..|ks| - 1], p)
    requires Can(v, p, ks[|ks| - 1]) && s == After(v, p, ks[|ks| - 1], false)
    ensures Moved(v, ks, s)
  {
    if |ks| == 1 {
      assert ks == [ks[0]] && ks[..0] == [];
      MovedFirst(v, ks[0], p, s);
    } else {
      MovedStep(v, ks, p, s);
    }
  }

  /** As written, what goes out is right exactly as long as no block is cut by two partial writes
      with bytes sent after the second. */
  lemma {:induction false} AsWrittenIffCutOnce(v: seq<nat>, ks: seq<nat>, s: State)
    requires Reaches(v, ks, false, s)
    ensures Moved(v, ks, s) && (Correct(v, s) <==> !CutTwice(v, ks))
    decreases |ks|
  {
    if ks != [] {
      var m := |ks| - 1;
      var p :| Reaches(v, ks[..m], false, p) && |p.start| == |v| && Can(v, p, ks[m]) && s == After(v, p, ks[m], false);
      AsWrittenIffCutOnce(v, ks[..m], p);
      MovedOn(v, ks, p, s);
      CutTwiceStep(v, ks);
      CorrectStep(v, ks[..m], p, ks[m]);
    }
  }

  /** When the loop ends, every block has gone out, in order. */
  lemma EndSendsAll(v: seq<nat>, ks: seq<nat>, fixed: bool, s: State)
    requires Reaches(v, ks, fixed, s) && s.block >= |v| && (fixed || !CutTwice(v, ks))
    ensures s.wire == All(v) && s.n == |All(v)|
  {
    if fixed {
      FixedIsCorrect(v, ks, s);
    } else {
      AsWrittenIffCutOnce(v, ks, s);
      PlaceFinds(v, ks);
    }
  }

  lemma OneMore(v: seq<nat>, ks: seq<nat>, fixed: bool, s: State, k: nat)
    requires Reaches(v, ks, fixed, s) && |s.start| == |v| && Can(v, s, k)
    ensures Reaches(v, ks + [k], fixed, After(v, s, k, fixed))
  {
    assert (ks + [k])[..|ks|] == ks;
  }

  const AFTER_ONE := State([1], 0, 1, [Addr(0, 0)])
  const AFTER_TWO := State([3], 0, 2, [Addr(0, 0), Addr(0, 1)])
  const AFTER_THREE := State([6], 0, 3, [Addr(0, 0), Addr(0, 1), Addr(0, 3)])

  lemma ThreeWrites()
    ensures Can([4], Begin([4]), 1) && After([4], Begin([4]), 1, false) == AFTER_ONE
    ensures Can([4], AFTER_ONE, 1) && After([4], AFTER_ONE, 1, false) == AFTER_TWO
    ensures Can([4], AFTER_TWO, 1) && After([4], AFTER_TWO, 1, false) == AFTER_THREE
  {
    var v := [4];
    assert Sum(v, 1) == 4;
    assert Search(v, 1) == (0, 1) && Search(v, 2) == (0, 2) && Search(v, 3) == (0, 3);
    assert Taken(v, 0, 0, 1) == [Addr(0, 0)] && Taken(v, 0, 1, 1) == [Addr(0, 1)] && Taken(v, 0, 3, 1) == [Addr(0, 3)];
  }

  lemma ThreeMore(v: seq<nat>, s1: State, s2: State, s3: State, k: nat)
    requires var s0 := Begin(v); Can(v, s0, k) && After(v, s0, k, false) == s1
    requires |s1.start| == |v| && Can(v, s1, k) && After(v, s1, k, false) == s2
    requires |s2.start| == |v| && Can(v, s2, k) && After(v, s2, k, false) == s3
    ensures Reaches(v, [] + [k] + [k] + [k], false, s3)
  {
    OneMore(v, [], false, Begin(v), k);
    OneMore(v, [] + [k], false, s1, k);
    OneMore(v, [] + [k] + [k], false, s2, k);
  }

  lemma ThirdIsWrong()
    ensures !Correct([4], AFTER_THREE)
  {
    assert All([4])[..3][2] == Addr(0, 2);
  }

  lemma ThreeReach(v: seq<nat>, s3: State)
    requires v == [4] && s3 == AFTER_THREE
    ensures Reaches(v, [] + [1] + [1] + [1], false, s3)
  {
    ThreeWrites();
    ThreeMore(v, AFTER_ONE, AFTER_TWO, s3, 1);
  }

  /** Three writes of one byte each, from a block of four: the third byte out is the fourth one. */
  lemma TwoCutsGoWrong(v: seq<nat>, s3: State)
    requires v == [4] && s3 == AFTER_THREE
    ensures Reaches(v, [] + [1] + [1] + [1], false, s3) && !Correct(v, s3)
  {
    ThreeReach(v, s3);
    ThirdIsWrong();
  }

  // ------------------------------------------------------------------- the method

  /** IOV_MAX */
  const IOV_MAX: nat := 1024

  /** What writev may answer; a poll after EAGAIN finds the socket ready or times out. */
  datatype Outcome = Wrote(k: nat) | Again(ready: bool) | Interrupted | Failed

  datatype Result = Finished(n: nat) | Error | Unfinished

  /** The prefix sums. */
  method Ordinals(v: seq<nat>) returns (ord: array<nat>)
    ensures fresh(ord) && ord.Length == |v| && forall i :: 0 <= i < |v| ==> ord[i] == Sum(v, i + 1)
  {
    ord := new nat[|v|];
    var i := 0;
    while i < |v|
      invariant i <= |v| && forall j :: 0 <= j < i ==> ord[j] == Sum(v, j + 1)
    {
      ord[i] := if i > 0 then ord[i - 1] + v[i] else v[i];
      i := i + 1;
    }
  }

  /** Where byte `n` is. */
  method FindPlace(v: seq<nat>, ord: array<nat>, n: nat) returns (b: nat, o: nat)
    requires ord.Length == |v| && forall i :: 0 <= i < |v| ==> ord[i] == Sum(v, i + 1)
    ensures (b, o) == Search(v, n)
  {
    b, o := 0, 0;
    var i := 0;
    while i < |v|
      invariant i <= |v| && b == i && o == 0 && Sum(v, i) <= n && Search(v, n) == SearchFrom(v, n, i)
    {
      if n < ord[i] {
        o := v[i] - (ord[i] - n);
        return;
      } else if n == ord[i] {
        b := b + 1;
        return;
      }
      b := b + 1;
      i := i + 1;
    }
  }

  /** The base of the current block has been moved past its end: writev refuses the vector. */
  predicate Astray(v: seq<nat>, s: State) {
    s.block < |v| && s.block < |s.start| && s.start[s.block] > v[s.block]
  }

  /** A write goes out. */
  predicate Writes(v: seq<nat>, s: State, o: Outcome) {
    o.Wrote? && s.block < |v| && !Astray(v, s)
  }

  /** What a write of up to `k` bytes takes. */
  function Clamped(v: seq<nat>, s: State, k: nat): (n: nat)
    requires s.block < |v| == |s.start| && !Astray(v, s)
    ensures Can(v, s, n)
  {
    var room := |Offer(v, s.block, s.start[s.block])|;
    if k > room then room else k
  }

  /** The state after the answers `outs`: only a write changes anything. */
  function StateAfter(v: seq<nat>, outs: seq<Outcome>, fixed: bool): (s: State)
    ensures |s.start| == |v|
  {
    if outs == [] then Begin(v)
    else
      var m := |outs| - 1;
      var p := StateAfter(v, outs[..m], fixed);
      if Writes(v, p, outs[m]) then After(v, p, Clamped(v, p, outs[m].k), fixed) else p
  }

  /** How many bytes each write among them took. */
  function Sizes(v: seq<nat>, outs: seq<Outcome>, fixed: bool): seq<nat> {
    if outs == [] then []
    else
      var m := |outs| - 1;
      var p := StateAfter(v, outs[..m], fixed);
      Sizes(v, outs[..m], fixed) + if Writes(v, p, outs[m]) then [Clamped(v, p, outs[m].k)] else []
  }

  lemma {:induction false} AnswersReach(v: seq<nat>, outs: seq<Outcome>, fixed: bool)
    ensures Reaches(v, Sizes(v, outs, fixed), fixed, StateAfter(v, outs, fixed))
  {
    if outs != [] {
      var m := |outs| - 1;
      AnswersReach(v, outs[..m], fixed);
      var p, ks := StateAfter(v, outs[..m], fixed), Sizes(v, outs[..m], fixed);
      if Writes(v, p, outs[m]) {
        OneMore(v, ks, fixed, p, Clamped(v, p, outs[m].k));
      } else {
        assert ks + [] == ks;
      }
    }
  }

  function Min(a: nat, b: nat): nat {
    if a < b then a else b
  }

  /** How many bytes the answers say the socket was ready to take. */
  function Ready(outs: seq<Outcome>): nat {
    if outs == [] then 0 else Ready(outs[..|outs| - 1]) + if outs[|outs| - 1].Wrote? then outs[|outs| - 1].k else 0
  }

  /** A write takes all that the socket is ready for and the vector still offers; no other answer moves
      anything. */
  lemma WriteTakes(v: seq<nat>, outs: seq<Outcome>, o: Outcome, fixed: bool)
    ensures var s, s' := StateAfter(v, outs, fixed), StateAfter(v, outs + [o], fixed);
      if o.Wrote? && s.block < |v| && s.start[s.block] <= v[s.block]
      then s'.n == s.n + Min(o.k, Sum(v, |v|) - Sum(v, s.block) - s.start[s.block]) else s' == s
  {
    var s := StateAfter(v, outs, fixed);
    assert (outs + [o])[..|outs|] == outs;
    if o.Wrote? && s.block < |v| && s.start[s.block] <= v[s.block] {
      OfferIsTail(v, s.block, s.start[s.block]);
      PlaceAfter(v, s, Clamped(v, s, o.k), fixed);
    }
  }

  /** With the offset from the original vector that adds up: everything the socket is ready for goes out. */
  lemma {:induction false} FixedTakes(v: seq<nat>, outs: seq<Outcome>)
    ensures StateAfter(v, outs, true).n == Min(|All(v)|, Ready(outs))
  {
    if outs != [] {
      var m := |outs| - 1;
      FixedTakes(v, outs[..m]);
      AnswersReach(v, outs[..m], true);
      FixedIsCorrect(v, Sizes(v, outs[..m], true), StateAfter(v, outs[..m], true));
      WriteTakes(v, outs[..m], outs[m], true);
      assert outs == outs[..m] + [outs[m]];
    }
  }

  /** The answer that ends the call; a vector that is refused is such an answer, whatever was scheduled. */
  predicate Fatal(o: Outcome) {
    o == Failed || o == Again(false)
  }

  ghost predicate FatalAt(v: seq<nat>, schedule: seq<Outcome>, fixed: bool, i: nat)
    requires i < |schedule|
  {
    Fatal(schedule[i]) || Astray(v, StateAfter(v, schedule[..i], fixed))
  }

  /** The call ends after `t` answers: at the first one by which all is written, at the first fatal
      one, or with the schedule. */
  ghost predicate StopsAt(v: seq<nat>, schedule: seq<Outcome>, fixed: bool, t: nat, result: Result) {
    && t <= |schedule|
    && (forall i :: 0 <= i < t ==> StateAfter(v, schedule[..i], fixed).block < |v|)
    && (forall i :: 0 <= i < t - 1 ==> !FatalAt(v, schedule, fixed, i))
    && var s, fatal := StateAfter(v, schedule[..t], fixed), t > 0 && FatalAt(v, schedule, fixed, t - 1);
      match result
      case Error => fatal
      case Finished(n) => !fatal && s.block >= |v| && n == s.n
      case Unfinished => !fatal && s.block < |v| && t == |schedule|
  }

  /** That leaves no choice. */
  lemma StopsOnce(v: seq<nat>, schedule: seq<Outcome>, fixed: bool, t: nat, result: Result, t': nat, result': Result)
    requires StopsAt(v, schedule, fixed, t, result) && StopsAt(v, schedule, fixed, t', result')
    ensures t == t' && result == result'
  {
    if t < t' {
      StopsEarlier(v, schedule, fixed, t, result, t', result');
    } else if t' < t {
      StopsEarlier(v, schedule, fixed, t', result', t, result);
    }
  }

  lemma StopsEarlier(v: seq<nat>, schedule: seq<Outcome>, fixed: bool, t: nat, result: Result, t': nat, result': Result)
    requires StopsAt(v, schedule, fixed, t, result) && StopsAt(v, schedule, fixed, t', result')
    ensures t >= t'
  {
  }

  /** No reason to stop within the first `t` answers. */
  ghost predicate GoesOn(v: seq<nat>, schedule: seq<Outcome>, fixed: bool, t: nat) {
    && t <= |schedule|
    && (forall i :: 0 <= i < t ==> StateAfter(v, schedule[..i], fixed).block < |v|)
    && (forall i :: 0 <= i < t ==> !FatalAt(v, schedule, fixed, i))
  }

  lemma GoOn(v: seq<nat>, schedule: seq<Outcome>, fixed: bool, t: nat)
    requires GoesOn(v, schedule, fixed, t) && t < |schedule|
    requires StateAfter(v, schedule[..t], fixed).block < |v|
    ensures FatalAt(v, schedule, fixed, t) ==> StopsAt(v, schedule, fixed, t + 1, Error)
    ensures !FatalAt(v, schedule, fixed, t) ==> GoesOn(v, schedule, fixed, t + 1)
  {
    if FatalAt(v, schedule, fixed, t) {
      assert t + 1 - 1 == t;
    } else {
      forall i | 0 <= i < t + 1 ensures !FatalAt(v, schedule, fixed, i) && StateAfter(v, schedule[..i], fixed).block < |v| {
      }
    }
  }

  lemma NextState(v: seq<nat>, schedule: seq<Outcome>, fixed: bool, t: nat)
    requires t < |schedule| && StateAfter(v, schedule[..t], fixed).block < |v|
    ensures var s := StateAfter(v, schedule[..t], fixed);
      StateAfter(v, schedule[..t + 1], fixed) ==
        if Writes(v, s, schedule[t]) then After(v, s, Clamped(v, s, schedule[t].k), fixed) else s
  {
    assert schedule[..t + 1][..t] == schedule[..t];
  }

  /** What an answer does to the call. */
  lemma OneAnswer(v: seq<nat>, schedule: seq<Outcome>, fixed: bool, t: nat, s: State)
    requires GoesOn(v, schedule, fixed, t) && t < |schedule| && s == StateAfter(v, schedule[..t], fixed) && s.block < |v|
    ensures Astray(v, s) || Fatal(schedule[t]) ==>
      StopsAt(v, schedule, fixed, t + 1, Error) && StateAfter(v, schedule[..t + 1], fixed).wire == s.wire
    ensures !Astray(v, s) && !Fatal(schedule[t]) ==>
      && GoesOn(v, schedule, fixed, t + 1)
      && StateAfter(v, schedule[..t + 1], fixed) ==
           if schedule[t].Wrote? then After(v, s, Clamped(v, s, schedule[t].k), fixed) else s
  {
    GoOn(v, schedule, fixed, t);
    NextState(v, schedule, fixed, t);
  }

  /** The bases as they will be once the offset has been added. */
  function Shifted(start: seq<nat>, block: nat, offset: nat, fixed: bool): seq<nat> {
    if block < |start| then start[block := if fixed then offset else start[block] + offset] else start
  }

  /** writev takes what it can of `k` bytes, and the place to go on is looked up. */
  method Send(v: seq<nat>, ord: array<nat>, start: seq<nat>, block: nat, n: nat, wire: seq<Addr>, k: nat, fixed: bool)
    returns (block': nat, offset: nat, n': nat, wire': seq<Addr>)
    requires ord.Length == |v| == |start| && forall i :: 0 <= i < |v| ==> ord[i] == Sum(v, i + 1)
    requires block < |v| && start[block] <= v[block]
    ensures var s := State(start, block, n, wire);
      State(Shifted(start, block', offset, fixed), block', n', wire') == After(v, s, Clamped(v, s, k), fixed)
  {
    var taken := k;
    if k > |Offer(v, block, start[block])| {
      taken := |Offer(v, block, start[block])|;
    }
    wire' := wire + Taken(v, block, start[block], taken);
    n' := n + taken;
    block', offset := FindPlace(v, ord, n');
    SearchFinds(v, n');
  }

  /** tcp_writev against a schedule of answers, until all is written, an error, or the end of the
      schedule.  Of the schedule it uses the first `t` answers. */
  method Writev(v: seq<nat>, schedule: seq<Outcome>, fixed: bool) returns (result: Result, wire: seq<Addr>, ghost t: nat)
    ensures |v| == 0 || |v| > IOV_MAX ==> result == Error && wire == []
    ensures 0 < |v| <= IOV_MAX ==>
      StopsAt(v, schedule, fixed, t, result) && wire == StateAfter(v, schedule[..t], fixed).wire
    ensures 0 < |v| <= IOV_MAX ==> |wire| <= |All(v)| && (result.Finished? ==> |wire| == |All(v)|)
    ensures 0 < |v| <= IOV_MAX && fixed ==> wire == All(v)[..Min(|All(v)|, Ready(schedule[..t]))] && (result.Finished? ==> wire == All(v))
    ensures 0 < |v| <= IOV_MAX && !fixed ==>
      && (wire <= All(v) <==> !CutTwice(v, Sizes(v, schedule[..t], fixed)))
      && (wire <= All(v) && result.Finished? ==> wire == All(v))
    ensures 1 < |v| <= IOV_MAX && v[|v| - 1] == 0 ==> !result.Finished?
  {
    if |v| == 0 || |v| > IOV_MAX {
      return Error, [], 0;
    }
    result, wire, t := WriteLoop(v, schedule, fixed);
    AnswersReach(v, schedule[..t], fixed);
    WireIs(v, Sizes(v, schedule[..t], fixed), fixed, StateAfter(v, schedule[..t], fixed));
    WireLength(v, Sizes(v, schedule[..t], fixed), fixed, StateAfter(v, schedule[..t], fixed));
    FixedTakes(v, schedule[..t]);
  }

  lemma {:induction false} WireLength(v: seq<nat>, ks: seq<nat>, fixed: bool, s: State)
    requires Reaches(v, ks, fixed, s)
    ensures |s.wire| == s.n
    decreases |ks|
  {
    if ks != [] {
      var m := |ks| - 1;
      var p :| Reaches(v, ks[..m], fixed, p) && |p.start| == |v| && Can(v, p, ks[m]) && s == After(v, p, ks[m], fixed);
      WireLength(v, ks[..m], fixed, p);
    }
  }

  /** What the states that are reached say of the bytes sent. */
  lemma WireIs(v: seq<nat>, ks: seq<nat>, fixed: bool, s: State)
    requires Reaches(v, ks, fixed, s)
    ensures fixed ==> s.wire <= All(v) && (s.block >= |v| ==> s.wire == All(v))
    ensures !fixed ==>
      && (s.wire <= All(v) <==> !CutTwice(v, ks))
      && (s.wire <= All(v) && s.block >= |v| ==> s.wire == All(v))
    ensures |v| > 1 && v[|v| - 1] == 0 ==> s.block < |v|
    ensures |s.wire| <= |All(v)| && (s.block >= |v| ==> |s.wire| == |All(v)|)
  {
    WireLength(v, ks, fixed, s);
    NeverTooMany(v, ks, fixed, s);
    assert Correct(v, s) <==> s.wire <= All(v);
    if fixed {
      FixedIsCorrect(v, ks, s);
    } else {
      AsWrittenIffCutOnce(v, ks, s);
    }
    if s.block >= |v| && (fixed || !CutTwice(v, ks)) {
      EndSendsAll(v, ks, fixed, s);
    }
    if |v| > 1 && v[|v| - 1] == 0 {
      NeverEnds(v, ks, fixed, s);
    }
  }

  method WriteLoop(v: seq<nat>, schedule: seq<Outcome>, fixed: bool) returns (result: Result, wire: seq<Addr>, t: nat)
    requires 0 < |v|
    ensures StopsAt(v, schedule, fixed, t, result) && wire == StateAfter(v, schedule[..t], fixed).wire
  {
    wire := [];
    var ord := Ordinals(v);
    var start: seq<nat> := seq(|v|, _ => 0);
    var block: nat, offset: nat, n: nat, again := 0, 0, 0, true;
    ghost var s := Begin(v);
    t := 0;
    while block < |v|
      invariant GoesOn(v, schedule, fixed, t) && s == StateAfter(v, schedule[..t], fixed) && |start| == |v|
      invariant s == State(if again then Shifted(start, block, offset, fixed) else start, block, n, wire)
      invariant ord.Length == |v| && forall i :: 0 <= i < |v| ==> ord[i] == Sum(v, i + 1)
      decreases |schedule| - t
    {
      if t == |schedule| {
        return Unfinished, wire, t;
      }
      OneAnswer(v, schedule, fixed, t, s);
      if again {
        start := Shifted(start, block, offset, fixed);
      }
      assert s == State(start, block, n, wire);
      var answer := if start[block] > v[block] then Failed else schedule[t];
      again := answer.Wrote?;
      t := t + 1;
      if answer == Failed || answer == Again(false) {
        return Error, wire, t;
      }
      if answer.Wrote? {
        s := After(v, s, Clamped(v, s, answer.k), fixed);
        block, offset, n, wire := Send(v, ord, start, block, n, wire, answer.k, fixed);
      }
    }
    result := Finished(n);
  }
}
