/**
  Loops: with the loop check as intended no request has more than MAX_STAGE_JUMP + 2
  turns, however often handlers requeue it or send it round; and as written the check
  puts the request into two queues, exactly when it strikes.
*/
module PipelineHops {
  import opened PipelineState
  import opened PipelineBooks

  /** Every turn but the last takes the request one hop further. */
  ghost predicate HopsBounded(s: State) {
    forall r :: r in s.b.req ==> HopsFine(s, r)
  }

  ghost predicate HopsFine(s: State, r: Rid)
    requires r in s.b.req
  {
    && s.b.req[r].hops <= MAX_STAGE_JUMP + 1
    && (s.b.req[r].handled == s.b.req[r].hops
        || (s.b.req[r].handled == s.b.req[r].hops + 1 && (r in s.e.done || r in s.e.final)))
  }

  lemma SameHops(s: State, s': State)
    requires HopsBounded(s)
    requires forall r :: r in s'.b.req ==> r in s.b.req && s'.b.req[r] == s.b.req[r]
    requires forall r :: r in s'.b.req && (r in s.e.done || r in s.e.final) ==> r in s'.e.done || r in s'.e.final
    ensures HopsBounded(s')
  {
  }

  lemma RegisterHops(s: State, p: nat, c: nat, now: int)
    requires HopsBounded(s) && c in s.b.net.live
    ensures HopsBounded(Register(s, p, c, now))
  {
  }

  lemma MakeRoomHops(cfg: Config, s: State, st: nat, flags: Flags, now: int)
    requires st < |s.q.queue| == |s.q.queueLen|
    ensures s.e.final <= MakeRoom(cfg, s, st, flags, now).e.final
  {
  }

  lemma SubmitHops(cfg: Config, s: State, p: nat, c: nat, flags: Flags, now: int, locked: bool, wake: set<nat>)
    requires Fits(cfg, s) && HopsBounded(s) && c in s.b.net.live
    ensures HopsBounded(Submitted(cfg, s, p, c, flags, now, locked, wake))
  {
    var s' := Submitted(cfg, s, p, c, flags, now, locked, wake);
    if !Refused(cfg, s, p, flags) && !(locked && StageFull(cfg, s, p, flags)) {
      RegisterHops(s, p, c, now);
      var s1 := Register(s, p, c, now);
      if locked {
        MakeRoomHops(cfg, Relieved(cfg, s1, p), cfg.first[p], flags, now);
        assert s1.e.final <= s'.e.final;
        assert forall r :: r in s1.e.final ==> r in s'.e.final;
      }
      SameHops(s1, s');
    }
  }

  /** A request in a worker's hands is neither done nor final. */
  lemma HeldIsNotDone(s: State, w: nat)
    requires Placed(s, None) && w < |s.t.hand| && |s.t.hand[w]| == 1
    ensures s.t.hand[w][0] !in s.e.done && s.t.hand[w][0] !in s.e.final
  {
    var r := s.t.hand[w][0];
    OccUpdate(s.t.hand, w, [], r);
    OccIn(s.t.hand[w], r);
    OccIn(s.e.done, r);
    OccIn(s.e.final, r);
    assert Count(s, r) == if r in s.b.req then 1 else 0;
  }

  /** Handing a request on adds a hop, unless it is done. */
  lemma OneHop(cfg: Config, s: State, w: nat, r: Rid, v: Verdict, wake: set<nat>)
    requires Fits(cfg, s) && w < |cfg.home| && r in s.b.req && cfg.cutoffReturns
    ensures var s' := SubmitNext(cfg, s, w, r, v, wake);
      && s.e.done <= s'.e.done && s'.e.final == s.e.final
      && (|| (s'.b.req == s.b.req && r in s'.e.done)
          || (!Looped(s, r, v) && v != ToDone && s'.b.req == s.b.req[r := s.b.req[r].(hops := s.b.req[r].hops + 1)]))
  {
  }

  lemma HandleHops(cfg: Config, s: State, w: nat, r: Rid, v: Verdict, named: Option<nat>, wake: set<nat>)
    requires Fits(cfg, s) && HopsBounded(s) && w < |cfg.home| && r in s.b.req && cfg.cutoffReturns
    requires r !in s.e.done && r !in s.e.final
    ensures HopsBounded(Handled(cfg, s, w, r, v, named, wake))
  {
    var s1 := TurnTaken(Named(s, w, named), r);
    OneHop(cfg, s1, w, r, v, wake);
    var s' := SubmitNext(cfg, s1, w, r, v, wake);
    forall x | x in s'.b.req ensures HopsFine(s', x) {
      assert HopsFine(s, x);
      assert x in s.e.done ==> x in s'.e.done;
    }
  }

  lemma StepHops(cfg: Config, s: State, l: Label)
    requires HopsBounded(s) && Enabled(cfg, s, l) && cfg.cutoffReturns && Placed(s, None)
    requires s.e.serving ==> s.e.final != []
    ensures HopsBounded(Apply(cfg, s, l))
  {
    match l
    case Submit(p, c, flags, now, locked, wake) => SubmitHops(cfg, s, p, c, flags, now, locked, wake);
    case Handle(w, v, named, wake) =>
      HeldIsNotDone(s, w);
      HandleHops(cfg, s, w, s.t.hand[w][0], v, named, wake);
    case ServeEnd(disconnect) =>
      assert forall x :: x in s.e.final && x != s.e.final[0] ==> x in s.e.final[1..];
      SameHops(s, Ended(s, disconnect));
    case _ => SameHops(s, Apply(cfg, s, l));
  }

  lemma LoopedCount(cfg: Config, s: State, w: nat, r: Rid, v: Verdict, wake: set<nat>)
    requires Fits(cfg, s) && Placed(s, None) && w < |cfg.home| && s.t.hand[w] == [r] && r in s.b.req
    requires Looped(s, r, v) && !cfg.cutoffReturns
    ensures Count(SubmitNext(cfg, s, w, r, v, wake), r) == 2
  {
    var s1 := LetGo(s, w, v, false);
    LetGoPlaced(s, w, r, v, false);
    assert Count(s1, r) + 1 == 1;
    OccAppend(s1.e.done, [r], r);
    ForwardCount(Doubled(AppendDone(s1, r)), Target(cfg, s, w, v), r, wake);
  }

  lemma ForwardCount(s: State, target: Option<nat>, r: Rid, wake: set<nat>)
    requires r in s.b.req && |s.q.queue| == |s.q.queueLen|
    ensures Count(Forward(s, target, r, wake), r) == Count(s, r) + 1
  {
    OccAppend(s.e.done, [r], r);
    if target.Some? && target.value < |s.q.queue| {
      OccUpdate(s.q.queue, target.value, s.q.queue[target.value] + [r], r);
      OccAppend(s.q.queue[target.value], [r], r);
    }
  }

  /** As written, the request ends up in two places exactly when the loop check strikes. */
  lemma DoubledIffLooped(cfg: Config, s: State, w: nat, r: Rid, v: Verdict, wake: set<nat>)
    requires Fits(cfg, s) && Placed(s, None) && w < |cfg.home| && s.t.hand[w] == [r] && r in s.b.req
    ensures Placed(SubmitNext(cfg, s, w, r, v, wake), None) <==> (Looped(s, r, v) ==> cfg.cutoffReturns)
    ensures Looped(s, r, v) && !cfg.cutoffReturns ==> Count(SubmitNext(cfg, s, w, r, v, wake), r) == 2
  {
    if Looped(s, r, v) && !cfg.cutoffReturns {
      LoopedCount(cfg, s, w, r, v, wake);
    } else {
      SubmitNextPlaced(cfg, s, w, r, v, wake);
    }
  }
}
