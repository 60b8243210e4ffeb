/**
  What the counter tells: with nobody ever kicked out, an admitted request always
  finds room under the second check, and a counter of zero means an empty pipeline.
*/
module PipelineDrain {
  import opened PipelineState
  import opened PipelineBooks
  import opened PipelineCount

  /** A list without repetitions inside `s` is no longer than `s` is large. */
  lemma {:induction false} OccBound(q: seq<Rid>, s: set<Rid>)
    requires forall x: Rid :: Occ(q, x) <= if x in s then 1 else 0
    ensures |q| <= |s|
    decreases |q|
  {
    if q != [] {
      var q', last := q[..|q| - 1], q[|q| - 1];
      assert Occ(q, last) == Occ(q', last) + 1;
      forall x: Rid ensures Occ(q', x) <= if x in s - {last} then 1 else 0 {
        assert Occ(q, x) == Occ(q', x) + if x == last then 1 else 0;
      }
      OccBound(q', s - {last});
    }
  }

  lemma {:induction false} OccNone(q: seq<Rid>)
    requires forall x: Rid :: Occ(q, x) == 0
    ensures q == []
  {
    if q != [] {
      assert Occ(q, q[|q| - 1]) >= 1;
    }
  }

  lemma {:induction false} OccAllNone(qs: seq<seq<Rid>>, i: nat)
    requires i < |qs| && forall x: Rid :: OccAll(qs, x) == 0
    ensures qs[i] == []
  {
    forall x: Rid ensures Occ(qs[i], x) == 0 {
      OccUpdate(qs, i, [], x);
    }
    OccNone(qs[i]);
  }

  /** The requests that are not in the middle of being answered. */
  function Waiting(s: State): set<Rid> {
    s.b.req.Keys - (if s.e.serving && s.e.final != [] then {s.e.final[0]} else {})
  }

  /** The waiting line of a pipeline is no longer than the number of requests waiting. */
  lemma LineBound(cfg: Config, s: State, p: nat)
    requires Fits(cfg, s) && Placed(s, None) && p < |cfg.first|
    ensures |s.q.queue[cfg.first[p]]| + |s.q.over[p]| <= |Waiting(s)|
  {
    var q := s.q.queue[cfg.first[p]] + s.q.over[p];
    forall x: Rid ensures Occ(q, x) <= if x in Waiting(s) then 1 else 0 {
      OccAppend(s.q.queue[cfg.first[p]], s.q.over[p], x);
      OccUpdate(s.q.queue, cfg.first[p], [], x);
      OccUpdate(s.q.over, p, [], x);
      if s.e.final != [] {
        OccFirst(s.e.final, x);
      }
      assert Count(s, x) == if x in s.b.req then 1 else 0;
    }
    OccBound(q, Waiting(s));
  }

  /** How many wait is what the counter says, when nobody was ever kicked out. */
  lemma CounterIsExact(s: State)
    requires Counted(s) && Placed(s, None) && s.e.kicked == 0 && |s.b.req| < TWO64
    ensures s.e.counter == |Waiting(s)|
  {
    if s.e.serving {
      OccFirst(s.e.final, s.e.final[0]);
      assert Count(s, s.e.final[0]) == if s.e.final[0] in s.b.req then 1 else 0;
      assert s.e.final[0] in s.b.req.Keys;
      assert |s.b.req.Keys - {s.e.final[0]}| == |s.b.req.Keys| - 1;
    }
    assert |s.b.req.Keys| == |s.b.req|;
  }

  /** The second check of a submit cannot fail once the first has passed. */
  lemma NoLeak(cfg: Config, s: State, p: nat, flags: Flags)
    requires Lengths(cfg, s) && Counted(s) && Placed(s, None) && s.e.kicked == 0 && |s.b.req| < TWO64
    requires !Refused(cfg, s, p, flags)
    ensures !StageFull(cfg, s, p, flags)
  {
    var st := cfg.first[p];
    LineBound(cfg, s, p);
    CounterIsExact(s);
    ConcatLengths(cfg, s, p);
    assert Relieved(cfg, s, p).q.queueLen[st] == U32(|Relieved(cfg, s, p).q.queue[st]|);
  }

  /** Nothing waits anywhere; at most one request is just being answered. */
  ghost predicate PipelineEmpty(s: State) {
    && (forall i :: 0 <= i < |s.q.queue| ==> s.q.queue[i] == [])
    && (forall p :: 0 <= p < |s.q.over| ==> s.q.over[p] == [])
    && (forall w :: 0 <= w < |s.t.hand| ==> s.t.hand[w] == [])
    && s.e.done == []
    && (if s.e.serving then |s.e.final| == 1 && s.b.req.Keys == {s.e.final[0]} else s.e.final == [] && s.b.req == map[])
  }

  lemma NothingWaits(s: State)
    requires Placed(s, None) && Waiting(s) == {} && (s.e.serving ==> s.e.final != [])
    ensures PipelineEmpty(s)
  {
    var rest := if s.e.serving then s.e.final[1..] else s.e.final;
    forall x: Rid
      ensures OccAll(s.q.queue, x) == OccAll(s.q.over, x) == OccAll(s.t.hand, x) == Occ(s.e.done, x) == Occ(rest, x) == 0
    {
      assert Count(s, x) == if x in s.b.req then 1 else 0;
      assert x !in Waiting(s);
      if s.e.serving {
        OccFirst(s.e.final, x);
      }
    }
    OccNone(s.e.done);
    OccNone(rest);
    forall i | 0 <= i < |s.q.queue| ensures s.q.queue[i] == [] { OccAllNone(s.q.queue, i); }
    forall p | 0 <= p < |s.q.over| ensures s.q.over[p] == [] { OccAllNone(s.q.over, p); }
    forall w | 0 <= w < |s.t.hand| ensures s.t.hand[w] == [] { OccAllNone(s.t.hand, w); }
    if s.e.serving {
      assert s.e.final == [s.e.final[0]] + rest;
      OccFirst(s.e.final, s.e.final[0]);
      assert Count(s, s.e.final[0]) == if s.e.final[0] in s.b.req then 1 else 0;
      assert s.b.req.Keys == {s.e.final[0]};
    } else {
      assert s.b.req.Keys == {};
      assert s.b.req == map[];
    }
  }

  /** A counter of zero means that nothing waits anywhere. */
  lemma ZeroMeansEmpty(s: State)
    requires Counted(s) && Placed(s, None) && s.e.kicked == 0 && |s.b.req| < TWO64 && s.e.counter == 0
    ensures PipelineEmpty(s)
  {
    CounterIsExact(s);
    NothingWaits(s);
  }
}
