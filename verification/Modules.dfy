/**
  The module queue of csf/module.c: configured modules are inserted so that the modules of
  a pipeline stand together.
*/
module Modules {

  datatype Module = Module(pipeline: nat, stage: int, name: nat)

  ghost predicate Sorted(q: seq<Module>) {
    forall i, j :: 0 <= i < j < |q| ==> q[i].pipeline <= q[j].pipeline
  }

  predicate Before(a: Module, b: Module) {
    a.pipeline < b.pipeline || (a.pipeline == b.pipeline && a.stage <= b.stage)
  }

  /** Pipeline first, stage second. */
  ghost predicate LexSorted(q: seq<Module>) {
    forall i, j :: 0 <= i < j < |q| ==> Before(q[i], q[j])
  }

  /** The first module of a later pipeline, or the end. */
  function FirstLater(q: seq<Module>, p: nat): (i: nat)
    ensures i <= |q| && (i < |q| ==> q[i].pipeline > p)
    ensures forall j :: 0 <= j < i ==> q[j].pipeline <= p
  {
    if q == [] then 0
    else
      var k := |q| - 1;
      var i := FirstLater(q[..k], p);
      if i < k || q[k].pipeline > p then i else |q|
  }

  /** Where a module is put: before the first of a later pipeline; if there is none, at the end,
      or before the last one if that is of the same pipeline and a later stage. */
  function Place(q: seq<Module>, m: Module): (i: nat)
    ensures i <= |q|
  {
    var i := FirstLater(q, m.pipeline);
    if i < |q| then i
    else if q != [] && q[|q| - 1].pipeline == m.pipeline && q[|q| - 1].stage > m.stage then |q| - 1
    else |q|
  }

  function InsertAt(q: seq<Module>, i: nat, m: Module): seq<Module>
    requires i <= |q|
  {
    q[..i] + [m] + q[i..]
  }

  function Inserted(q: seq<Module>, m: Module): seq<Module> {
    InsertAt(q, Place(q, m), m)
  }

  /** The place of the new queue's modules in the old one. */
  function Back(i: nat, at: nat): nat {
    if i < at then i else if i > 0 then i - 1 else 0
  }

  /** Nothing is lost and the pipelines stay together and in order. */
  lemma InsertKeeps(q: seq<Module>, m: Module)
    requires Sorted(q)
    ensures multiset(Inserted(q, m)) == multiset(q) + multiset{m}
    ensures Sorted(Inserted(q, m))
  {
    var at := Place(q, m);
    assert q == q[..at] + q[at..];
    assert forall i :: at <= i < |q| ==> q[at].pipeline <= q[i].pipeline;
    InsertSorted(q, at, m);
  }

  lemma InsertSorted(q: seq<Module>, at: nat, m: Module)
    requires Sorted(q) && at <= |q|
    requires forall i :: 0 <= i < at ==> q[i].pipeline <= m.pipeline
    requires forall i :: at <= i < |q| ==> m.pipeline <= q[i].pipeline
    ensures Sorted(InsertAt(q, at, m))
  {
    var q' := InsertAt(q, at, m);
    forall i, j | 0 <= i < j < |q'| ensures q'[i].pipeline <= q'[j].pipeline {
      assert i != at ==> q'[i] == q[Back(i, at)];
      assert j != at ==> q'[j] == q[Back(j, at)];
    }
  }

  /** The modules of the same pipeline that should come after the new one. */
  predicate Overtaken(q: seq<Module>, m: Module, i: nat) {
    i < |q| && q[i].pipeline == m.pipeline && q[i].stage > m.stage
  }

  /** The insertion puts the new module in its place by stage as well: nobody of its pipeline has a
      later stage, or only the very last module of the queue has. */
  ghost predicate ArrivesInOrder(q: seq<Module>, m: Module) {
    forall i :: 0 <= i < |q| && Overtaken(q, m, i) ==> i == |q| - 1
  }

  /** Which modules the new one goes behind: all of earlier pipelines and all of its own, but for one of a
      later stage at the very end of the queue. */
  lemma PlaceIff(q: seq<Module>, m: Module, i: nat)
    requires Sorted(q) && i < |q|
    ensures i < Place(q, m) <==>
      q[i].pipeline < m.pipeline || (q[i].pipeline == m.pipeline && (i < |q| - 1 || q[i].stage <= m.stage))
  {
    var k := FirstLater(q, m.pipeline);
    assert k <= i ==> q[k].pipeline <= q[i].pipeline;
  }

  lemma PlaceIsRight(q: seq<Module>, m: Module, i: nat)
    requires LexSorted(q) && ArrivesInOrder(q, m) && i < |q|
    ensures if i < Place(q, m) then Before(q[i], m) else Before(m, q[i])
  {
    var at := Place(q, m);
    if i < at {
      assert !Overtaken(q, m, i) || i == |q| - 1;
    } else if at < i {
      LexSortedImplies(q, at, i);
    }
  }

  /** The queue stays in order of pipeline and stage exactly when the module arrives in order. */
  lemma LexIffArrivesInOrder(q: seq<Module>, m: Module)
    requires LexSorted(q)
    ensures LexSorted(Inserted(q, m)) <==> ArrivesInOrder(q, m)
  {
    var at, q' := Place(q, m), Inserted(q, m);
    if ArrivesInOrder(q, m) {
      forall i, j | 0 <= i < j < |q'| ensures Before(q'[i], q'[j]) {
        if i == at {
          PlaceIsRight(q, m, j - 1);
        } else if j == at {
          PlaceIsRight(q, m, i);
        } else {
          LexSortedImplies(q, Back(i, at), Back(j, at));
        }
      }
    } else {
      var i :| 0 <= i < |q| && Overtaken(q, m, i) && i != |q| - 1;
      LexSortedImplies(q, i, |q| - 1);
      assert q'[at] == m && q'[i] == q[i] && i < at;
    }
  }

  lemma LexSortedImplies(q: seq<Module>, i: nat, j: nat)
    requires LexSorted(q) && i < j < |q|
    ensures Before(q[i], q[j])
  {
  }

  /** A queue out of order is never put right by an insertion. */
  lemma DisorderStays(q: seq<Module>, m: Module)
    requires LexSorted(Inserted(q, m))
    ensures LexSorted(q)
  {
    var at, q' := Place(q, m), Inserted(q, m);
    forall i, j | 0 <= i < j < |q| ensures Before(q[i], q[j]) {
      var i', j' := if i < at then i else i + 1, if j < at then j else j + 1;
      assert q'[i'] == q[i] && q'[j'] == q[j];
      assert Before(q'[i'], q'[j']);
    }
  }

  /** The queue after the modules `ms` have arrived. */
  function Arranged(ms: seq<Module>): seq<Module> {
    if ms == [] then [] else Inserted(Arranged(ms[..|ms| - 1]), ms[|ms| - 1])
  }

  /** Whatever arrives: a permutation, sorted by pipeline. */
  lemma {:induction false} ArrangedIsPermutation(ms: seq<Module>)
    ensures multiset(Arranged(ms)) == multiset(ms) && Sorted(Arranged(ms))
  {
    if ms != [] {
      var k := |ms| - 1;
      ArrangedIsPermutation(ms[..k]);
      InsertKeeps(Arranged(ms[..k]), ms[k]);
      assert ms == ms[..k] + [ms[k]];
    }
  }

  ghost predicate AllInOrder(ms: seq<Module>) {
    forall k :: 0 <= k < |ms| ==> ArrivesInOrder(Arranged(ms[..k]), ms[k])
  }

  lemma AllInOrderStep(ms: seq<Module>)
    requires ms != []
    ensures var k := |ms| - 1; AllInOrder(ms) <==> AllInOrder(ms[..k]) && ArrivesInOrder(Arranged(ms[..k]), ms[k])
  {
    var k := |ms| - 1;
    assert forall i :: 0 <= i < k ==> ms[..k][..i] == ms[..i] && ms[..k][i] == ms[i];
  }

  /** The queue is in order of pipeline and stage exactly when every module arrived in order. */
  lemma {:induction false} ArrangedLexIff(ms: seq<Module>)
    ensures LexSorted(Arranged(ms)) <==> AllInOrder(ms)
  {
    if ms != [] {
      var k := |ms| - 1;
      var q := Arranged(ms[..k]);
      ArrangedLexIff(ms[..k]);
      AllInOrderStep(ms);
      if LexSorted(Inserted(q, ms[k])) {
        DisorderStays(q, ms[k]);
      }
      if LexSorted(q) {
        LexIffArrivesInOrder(q, ms[k]);
      }
    }
  }

  /** Each pipeline's modules arrive in the order of their stages. */
  ghost predicate StageByStage(ms: seq<Module>) {
    forall i, j :: 0 <= i < j < |ms| && ms[i].pipeline == ms[j].pipeline ==> ms[i].stage <= ms[j].stage
  }

  lemma {:induction false} StageByStageIsSorted(ms: seq<Module>)
    requires StageByStage(ms)
    ensures LexSorted(Arranged(ms))
  {
    forall k | 0 <= k < |ms| ensures ArrivesInOrder(Arranged(ms[..k]), ms[k]) {
      var q := Arranged(ms[..k]);
      ArrangedIsPermutation(ms[..k]);
      forall i | 0 <= i < |q| ensures !Overtaken(q, ms[k], i) {
        assert q[i] in multiset(q);
        assert q[i] in ms[..k];
      }
    }
    ArrangedLexIff(ms);
  }

  /** Three stages of one pipeline that arrive last stage first end up 2, 1, 3. */
  lemma BackwardsArrival(a: Module, b: Module, c: Module)
    requires a == Module(0, 3, 0) && b == Module(0, 2, 0) && c == Module(0, 1, 0)
    ensures Arranged([a, b, c]) == [b, c, a] && !LexSorted(Arranged([a, b, c]))
  {
    var ms := [a, b, c];
    assert ms[..2] == [a, b] && [a, b][..1] == [a] && [a][..0] == [];
    assert Arranged([a]) == [a];
    assert Inserted([a], b) == [b, a];
    assert Inserted([b, a], c) == [b, c, a];
    assert !Before([b, c, a][0], [b, c, a][1]);
  }

  class ModuleQueue {
    var list: seq<Module>

    constructor ()
      ensures list == []
    {
      list := [];
    }

    /** The insertion of mod_config_init. */
    method Insert(m: Module)
      modifies this
      ensures list == Inserted(old(list), m)
    {
      if list == [] {
        list := [m];
        return;
      }
      var flag, i := false, 0;
      while i < |list| && !flag
        invariant i <= |list| && list == old(list)
        invariant forall j :: 0 <= j < i ==> list[j].pipeline <= m.pipeline
        invariant flag ==> i < |list| && list[i].pipeline > m.pipeline
        decreases |list| - i, !flag
      {
        if list[i].pipeline > m.pipeline {
          flag := true;
        } else {
          i := i + 1;
        }
      }
      if flag {
        list := list[..i] + [m] + list[i..];
      } else {
        var last := list[|list| - 1];
        if last.pipeline == m.pipeline && last.stage > m.stage {
          list := list[..|list| - 1] + [m] + list[|list| - 1..];
        } else {
          list := list + [m];
          assert list == old(list)[..|old(list)|] + [m] + old(list)[|old(list)|..];
        }
      }
    }
  }
}
