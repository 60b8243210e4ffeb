/**
  What holds in every state of every run, for any number of stages, pipelines and
  workers, whatever the trylocks, signals, handlers, responders and the clock do.
*/
module PipelineRuns {
  import opened PipelineState
  import opened PipelineBooks
  import opened PipelineCount
  import opened PipelineFifo
  import opened PipelineDrain
  import opened PipelineThreads
  import opened PipelineRefs
  import opened PipelineHops

  /** The bookkeeping invariants, which hold as long as no request was put in two queues. */
  ghost predicate Core(cfg: Config, s: State) {
    && Lengths(cfg, s) && Placed(s, None) && Numbered(s) && Counted(s) && |s.b.req| < TWO64
    && Hands(s) && ActiveList(s) && Fifo(cfg, s, s.b.inc) && Refs(s)
  }

  lemma InitCore(cfg: Config)
    requires Wired(cfg)
    ensures Core(cfg, Init(cfg))
  {
    var s := Init(cfg);
    forall r: Rid ensures Count(s, r) == 0 {
      NoneInEmpty(s.q.queue, r);
      NoneInEmpty(s.q.over, r);
      NoneInEmpty(s.t.hand, r);
    }
    assert Fifo(cfg, s, 0) by {
      forall p | 0 <= p < |cfg.first| ensures Line(cfg, s, p) == [] {
      }
    }
  }

  lemma {:induction false} NoneInEmpty(qs: seq<seq<Rid>>, r: Rid)
    requires forall i :: 0 <= i < |qs| ==> qs[i] == []
    ensures OccAll(qs, r) == 0
  {
    if qs != [] {
      NoneInEmpty(qs[..|qs| - 1], r);
    }
  }

  // ------------------------------------------------------------------ one step

  lemma StepPlaced(cfg: Config, s: State, l: Label)
    requires Placed(s, None) && Numbered(s) && Hands(s) && Enabled(cfg, s, l)
    requires Apply(cfg, s, l).b.doubled == 0
    ensures Placed(Apply(cfg, s, l), None)
  {
    match l
    case Submit(p, c, flags, now, locked, wake) => SubmitPlaced(cfg, s, p, c, flags, now, locked, wake);
    case Kick(p, wake) =>
      ConcatPlaced(cfg, s, p, None);
      SamePlaced(Concat(cfg, s, p), Apply(cfg, s, l));
    case Take(w) => TakePlaced(cfg, s, w);
    case Handle(w, v, named, wake) => HandlePlaced(cfg, s, w, s.t.hand[w][0], v, named, wake);
    case Drain => DrainPlaced(s);
    case ServeEnd(disconnect) => EndPlaced(s, disconnect);
    case _ => SamePlaced(s, Apply(cfg, s, l));
  }

  lemma SamePlaced(s: State, s': State)
    requires Placed(s, None) && s'.q == s.q && s'.t.hand == s.t.hand && s'.e.done == s.e.done && s'.e.final == s.e.final
    requires s'.b.req.Keys == s.b.req.Keys
    ensures Placed(s', None)
  {
    assert forall x: Rid :: Count(s', x) == Count(s, x);
  }

  lemma SubmitNumbered(cfg: Config, s: State, p: nat, c: nat, flags: Flags, now: int, locked: bool, wake: set<nat>)
    requires Fits(cfg, s) && c in s.b.net.live && Numbered(s) && |s.b.req| + 1 < TWO64
    ensures var s' := Submitted(cfg, s, p, c, flags, now, locked, wake); Numbered(s') && |s'.b.req| < TWO64
  {
    assert |s.b.req[s.b.inc + 1 := Request(c, p, now, 0, 0)]| <= |s.b.req| + 1;
  }

  lemma HandleNumbered(cfg: Config, s: State, w: nat, r: Rid, v: Verdict, named: Option<nat>, wake: set<nat>)
    requires Fits(cfg, s) && Numbered(s) && |s.b.req| < TWO64 && w < |cfg.home| && r in s.b.req
    ensures var s' := Handled(cfg, s, w, r, v, named, wake); Numbered(s') && |s'.b.req| < TWO64
  {
    var s1 := TurnTaken(Named(s, w, named), r);
    var s' := SubmitNext(cfg, s1, w, r, v, wake);
    assert HandleFrame(s1, s') && s1.b.req.Keys == s.b.req.Keys;
    assert |s'.b.req.Keys| == |s'.b.req| && |s.b.req.Keys| == |s.b.req|;
  }

  lemma StepNumbered(cfg: Config, s: State, l: Label)
    requires Numbered(s) && Enabled(cfg, s, l) && |s.b.req| < TWO64
    ensures Numbered(Apply(cfg, s, l)) && |Apply(cfg, s, l).b.req| < TWO64
  {
    match l
    case Submit(p, c, flags, now, locked, wake) => SubmitNumbered(cfg, s, p, c, flags, now, locked, wake);
    case Handle(w, v, named, wake) => HandleNumbered(cfg, s, w, s.t.hand[w][0], v, named, wake);
    case ServeEnd(disconnect) => assert |s.b.req - {s.e.final[0]}| <= |s.b.req|;
    case _ =>
  }

  /** The counts of doublings and of kick-outs only grow. */
  lemma StepHistory(cfg: Config, s: State, l: Label)
    requires Enabled(cfg, s, l)
    ensures Apply(cfg, s, l).b.doubled >= s.b.doubled && Apply(cfg, s, l).e.kicked >= s.e.kicked
    ensures cfg.cutoffReturns ==> Apply(cfg, s, l).b.doubled == s.b.doubled
    ensures s.e.graceful ==> Apply(cfg, s, l).e.graceful && Apply(cfg, s, l).b.req.Keys <= s.b.req.Keys
  {
  }

  lemma StepCore(cfg: Config, s: State, l: Label)
    requires OwnFirst(cfg) && Core(cfg, s) && Enabled(cfg, s, l) && Apply(cfg, s, l).b.doubled == 0
    ensures Core(cfg, Apply(cfg, s, l))
  {
    StepLengths(cfg, s, l);
    StepPlaced(cfg, s, l);
    StepNumbered(cfg, s, l);
    StepCounted(cfg, s, l);
    StepHands(cfg, s, l);
    StepActive(cfg, s, l);
    StepFifo(cfg, s, l);
    StepRefs(cfg, s, l);
  }

  // ----------------------------------------------------------------- every run

  lemma {:induction false} RunCore(cfg: Config, run: seq<Label>, s: State)
    requires Wired(cfg) && OwnFirst(cfg) && RunsTo(cfg, run, s) && s.b.doubled == 0
    ensures Core(cfg, s)
    decreases |run|
  {
    if run == [] {
      InitCore(cfg);
    } else {
      var k := |run| - 1;
      var p :| RunsTo(cfg, run[..k], p) && Enabled(cfg, p, run[k]) && s == Apply(cfg, p, run[k]);
      StepHistory(cfg, p, run[k]);
      RunCore(cfg, run[..k], p);
      StepCore(cfg, p, run[k]);
    }
  }

  /** With the loop check as intended no request is ever put in two queues. */
  lemma {:induction false} NeverDoubled(cfg: Config, run: seq<Label>, s: State)
    requires cfg.cutoffReturns && RunsTo(cfg, run, s)
    ensures s.b.doubled == 0
    decreases |run|
  {
    if run != [] {
      var k := |run| - 1;
      var p :| RunsTo(cfg, run[..k], p) && Enabled(cfg, p, run[k]) && s == Apply(cfg, p, run[k]);
      StepHistory(cfg, p, run[k]);
      NeverDoubled(cfg, run[..k], p);
    }
  }

  lemma WaitingSize(s: State)
    requires Counted(s) && Placed(s, None)
    ensures |Waiting(s)| == |s.b.req| - if s.e.serving then 1 else 0
  {
    if s.e.serving {
      OccFirst(s.e.final, s.e.final[0]);
      assert Count(s, s.e.final[0]) == if s.e.final[0] in s.b.req then 1 else 0;
      assert |s.b.req.Keys - {s.e.final[0]}| == |s.b.req.Keys| - 1;
    }
    assert |s.b.req.Keys| == |s.b.req|;
  }

  /** The counter is off by exactly the requests ever kicked out. */
  lemma CounterInvariant(s: State)
    requires Counted(s) && Placed(s, None) && |s.b.req| < TWO64
    ensures s.e.counter == U64(|Waiting(s)| - s.e.kicked)
    ensures s.e.kicked == 0 ==> s.e.counter == |Waiting(s)|
  {
    WaitingSize(s);
  }

  /** Conservation: every accepted and uncleaned request is in exactly one place, the stored
      lengths are right, and the counter is off by exactly the requests ever kicked out. */
  lemma RequestConservation(cfg: Config, run: seq<Label>, s: State)
    requires GoodConfig(cfg) && RunsTo(cfg, run, s) && s.b.doubled == 0
    ensures Lengths(cfg, s)
    ensures forall r: Rid :: Count(s, r) == if r in s.b.req then 1 else 0
    ensures s.e.counter == U64(|Waiting(s)| - s.e.kicked)
    ensures s.e.kicked == 0 ==> s.e.counter == |Waiting(s)|
  {
    RunCore(cfg, run, s);
    CounterInvariant(s);
    assert Placed(s, None);
  }

  /** The overflow queue and the first stage's queue are one line in submission order. */
  lemma OverflowIsFifo(cfg: Config, run: seq<Label>, s: State, p: nat)
    requires GoodConfig(cfg) && RunsTo(cfg, run, s) && s.b.doubled == 0 && p < |cfg.first|
    ensures Fits(cfg, s) && InOrder(Line(cfg, s, p), s.b.req)
    ensures p in s.q.active <==> s.q.over[p] != []
  {
    RunCore(cfg, run, s);
  }

  /** Every hold counted, nothing freed still in use. */
  lemma ReferenceCounts(cfg: Config, run: seq<Label>, s: State)
    requires GoodConfig(cfg) && RunsTo(cfg, run, s) && s.b.doubled == 0
    ensures Refs(s)
  {
    RunCore(cfg, run, s);
  }

  // ------------------------------------------------------------------- draining

  lemma ExitState(s: State)
    requires Counted(s) && Placed(s, None) && |s.b.req| < TWO64 && s.e.counter == 0
    ensures |Waiting(s)| == U64(s.e.kicked)
    ensures PipelineEmpty(s) <==> U64(s.e.kicked) == 0
  {
    CounterInvariant(s);
    WaitingSize(s);
    WrapSum(|Waiting(s)| - s.e.kicked, s.e.kicked, TWO64);
    if Waiting(s) == {} {
      NothingWaits(s);
    }
  }

  /** When a worker may leave, as many requests are left behind as were ever kicked out. */
  lemma ExitLeavesKicked(cfg: Config, run: seq<Label>, s: State, w: nat)
    requires GoodConfig(cfg) && RunsTo(cfg, run, s) && s.b.doubled == 0 && Enabled(cfg, s, Exit(w))
    ensures |Waiting(s)| == U64(s.e.kicked)
    ensures PipelineEmpty(s) <==> U64(s.e.kicked) == 0
  {
    RunCore(cfg, run, s);
    ExitState(s);
  }

  lemma {:induction false} RunsToUnique(cfg: Config, run: seq<Label>, s: State, s': State)
    requires RunsTo(cfg, run, s) && RunsTo(cfg, run, s')
    ensures s == s'
    decreases |run|
  {
    if run != [] {
      var k := |run| - 1;
      var p :| RunsTo(cfg, run[..k], p) && Enabled(cfg, p, run[k]) && s == Apply(cfg, p, run[k]);
      var p' :| RunsTo(cfg, run[..k], p') && Enabled(cfg, p', run[k]) && s' == Apply(cfg, p', run[k]);
      RunsToUnique(cfg, run[..k], p, p');
    }
  }

  /** After the restart signal the set of live requests only shrinks. */
  lemma {:induction false} GracefulOnlyShrinks(cfg: Config, run: seq<Label>, k: nat, s: State, s': State)
    requires k <= |run| && RunsTo(cfg, run[..k], s) && RunsTo(cfg, run, s') && s.e.graceful
    ensures s'.e.graceful && s'.b.req.Keys <= s.b.req.Keys
    decreases |run|
  {
    if k == |run| {
      assert run[..k] == run;
      RunsToUnique(cfg, run, s, s');
    } else {
      var n := |run| - 1;
      var p :| RunsTo(cfg, run[..n], p) && Enabled(cfg, p, run[n]) && s' == Apply(cfg, p, run[n]);
      assert run[..n][..k] == run[..k];
      GracefulOnlyShrinks(cfg, run[..n], k, s, p);
      StepHistory(cfg, p, run[n]);
    }
  }

  // ------------------------------------------------------------------ admission

  ghost predicate NoForce(run: seq<Label>) {
    forall i :: 0 <= i < |run| && run[i].Submit? ==> !run[i].flags.force
  }

  /** The live requests, less those ever kicked out and the one being answered. */
  function Load(s: State): int {
    |s.b.req| - s.e.kicked - if s.e.serving then 1 else 0
  }

  lemma SubmitAdmission(cfg: Config, s: State, p: nat, c: nat, flags: Flags, now: int, locked: bool, wake: set<nat>)
    requires Fits(cfg, s) && c in s.b.net.live && Counted(s) && !flags.force
    requires Load(s) <= cfg.queueSize && |s.b.req| < TWO64
    ensures Load(Submitted(cfg, s, p, c, flags, now, locked, wake)) <= cfg.queueSize
  {
    var s' := Submitted(cfg, s, p, c, flags, now, locked, wake);
    if Refused(cfg, s, p, flags) {
    } else if locked && StageFull(cfg, s, p, flags) {
      assert s'.b.req == s.b.req && s'.e.kicked == s.e.kicked && s'.e.serving == s.e.serving;
    } else {
      var s1 := Register(s, p, c, now);
      assert |s1.b.req| <= |s.b.req| + 1;
      assert s'.b.req == s1.b.req && s'.e.kicked >= s1.e.kicked && s'.e.serving == s1.e.serving;
      assert 0 <= Load(s) ==> s.e.counter == Load(s);
    }
  }

  lemma StepAdmission(cfg: Config, s: State, l: Label)
    requires Counted(s) && Enabled(cfg, s, l) && (l.Submit? ==> !l.flags.force)
    requires Load(s) <= cfg.queueSize && |s.b.req| < TWO64
    ensures Load(Apply(cfg, s, l)) <= cfg.queueSize
  {
    match l
    case Submit(p, c, flags, now, locked, wake) => SubmitAdmission(cfg, s, p, c, flags, now, locked, wake);
    case Handle(w, v, named, wake) =>
      var r := s.t.hand[w][0];
      var s1 := TurnTaken(Named(s, w, named), r);
      var s' := Handled(cfg, s, w, r, v, named, wake);
      assert HandleFrame(s1, s') && s1.b.req.Keys == s.b.req.Keys;
      assert |s'.b.req.Keys| == |s'.b.req| && |s.b.req.Keys| == |s.b.req|;
    case ServeEnd(disconnect) => assert |s.b.req - {s.e.final[0]}| == |s.b.req| - 1;
    case _ =>
  }

  /** Without forced submits no more requests wait than the queue size plus those ever swept out. */
  lemma {:induction false} AdmissionBound(cfg: Config, run: seq<Label>, s: State)
    requires GoodConfig(cfg) && RunsTo(cfg, run, s) && s.b.doubled == 0 && NoForce(run)
    ensures |Waiting(s)| <= cfg.queueSize + s.e.kicked
    decreases |run|
  {
    RunCore(cfg, run, s);
    WaitingSize(s);
    if run != [] {
      var k := |run| - 1;
      var p :| RunsTo(cfg, run[..k], p) && Enabled(cfg, p, run[k]) && s == Apply(cfg, p, run[k]);
      StepHistory(cfg, p, run[k]);
      AdmissionBound(cfg, run[..k], p);
      RunCore(cfg, run[..k], p);
      WaitingSize(p);
      StepAdmission(cfg, p, run[k]);
    }
  }

  // --------------------------------------------- with nobody ever kicked out

  /** Nothing leaks, every stage with work has a thread up, no thread leaves early. */
  ghost predicate Calm(cfg: Config, s: State) {
    s.b.leaked == map[] && Attended(cfg, s) && NoneLeftEarly(s)
  }

  lemma StepLeaked(cfg: Config, s: State, l: Label)
    requires Enabled(cfg, s, l) && s.b.leaked == map[]
    requires l.Submit? && !Refused(cfg, s, l.p, l.flags) ==> !StageFull(cfg, s, l.p, l.flags)
    ensures Apply(cfg, s, l).b.leaked == map[]
  {
    if l.Handle? {
      var r := s.t.hand[l.w][0];
      assert HandleFrame(TurnTaken(Named(s, l.w, l.named), r), Handled(cfg, s, l.w, r, l.verdict, l.named, l.wake));
    }
  }

  /** With nobody ever kicked or swept out, no request and no hold is leaked, and whenever a
      stage's queue is non-empty some thread of that stage is not asleep. */
  lemma {:induction false} WorkConservation(cfg: Config, run: seq<Label>, s: State)
    requires GoodConfig(cfg) && RunsTo(cfg, run, s) && s.b.doubled == 0 && s.e.kicked == 0
    ensures Calm(cfg, s)
    decreases |run|
  {
    if run != [] {
      var k := |run| - 1;
      var l := run[k];
      var p :| RunsTo(cfg, run[..k], p) && Enabled(cfg, p, l) && s == Apply(cfg, p, l);
      StepHistory(cfg, p, l);
      WorkConservation(cfg, run[..k], p);
      RunCore(cfg, run[..k], p);
      UnkickedIsSteady(cfg, p, l);
      StepAttended(cfg, p, l);
      StepNoneLeft(cfg, p, l);
      StepLeaked(cfg, p, l);
    }
  }

  /** Every step of the run is steady. */
  ghost predicate SteadyRun(cfg: Config, run: seq<Label>) {
    forall i, p :: 0 <= i < |run| && RunsTo(cfg, run[..i], p) ==> Steady(cfg, p, run[i])
  }

  /** Kicked requests or not: as long as the second check does not fail on a batch it has just moved, and
      no thread leaves early, a stage with something in its queue has a thread that is not asleep. */
  lemma {:induction false} StaysAttended(cfg: Config, run: seq<Label>, s: State)
    requires GoodConfig(cfg) && RunsTo(cfg, run, s) && s.b.doubled == 0 && SteadyRun(cfg, run)
    ensures Attended(cfg, s) && NoneLeftEarly(s)
    decreases |run|
  {
    if run != [] {
      var k := |run| - 1;
      var l := run[k];
      var p :| RunsTo(cfg, run[..k], p) && Enabled(cfg, p, l) && s == Apply(cfg, p, l);
      StepHistory(cfg, p, l);
      SteadyPrefix(cfg, run);
      StaysAttended(cfg, run[..k], p);
      RunCore(cfg, run[..k], p);
      StepAttended(cfg, p, l);
      StepNoneLeft(cfg, p, l);
    }
  }

  lemma SteadyPrefix(cfg: Config, run: seq<Label>)
    requires SteadyRun(cfg, run) && run != []
    ensures SteadyRun(cfg, run[..|run| - 1])
  {
    var run' := run[..|run| - 1];
    forall i, p | 0 <= i < |run'| && RunsTo(cfg, run'[..i], p) ensures Steady(cfg, p, run'[i]) {
      assert run'[..i] == run[..i];
    }
  }

  /** Exactly which step of any run leaves requests with a stage none of whose threads is up. */
  lemma StrandsIff(cfg: Config, run: seq<Label>, s: State, l: Label)
    requires GoodConfig(cfg) && RunsTo(cfg, run, s) && s.b.doubled == 0 && Enabled(cfg, s, l) && Attended(cfg, s)
    ensures Attended(cfg, Apply(cfg, s, l)) <==> !Strands(cfg, s, l)
  {
    RunCore(cfg, run, s);
    LeftInRun(cfg, run, s);
    AttendedIff(cfg, s, l);
  }

  lemma {:induction false} LeftInRun(cfg: Config, run: seq<Label>, s: State)
    requires RunsTo(cfg, run, s)
    ensures LeftIsGraceful(s)
    decreases |run|
  {
    if run != [] {
      var k := |run| - 1;
      var p :| RunsTo(cfg, run[..k], p) && Enabled(cfg, p, run[k]) && s == Apply(cfg, p, run[k]);
      LeftInRun(cfg, run[..k], p);
      StepLeft(cfg, p, run[k]);
    }
  }

  /** Graceful drain: a worker leaves only an empty pipeline behind. */
  lemma GracefulDrain(cfg: Config, run: seq<Label>, s: State, w: nat)
    requires GoodConfig(cfg) && RunsTo(cfg, run, s) && s.b.doubled == 0 && s.e.kicked == 0
    requires Enabled(cfg, s, Exit(w))
    ensures PipelineEmpty(s)
  {
    ExitLeavesKicked(cfg, run, s, w);
  }

  // ----------------------------------------------------------------------- loops

  /** With the loop check as intended, no request has more than MAX_STAGE_JUMP + 2 turns. */
  lemma {:induction false} BoundedHops(cfg: Config, run: seq<Label>, s: State)
    requires GoodConfig(cfg) && RunsTo(cfg, run, s) && cfg.cutoffReturns
    ensures HopsBounded(s)
    ensures forall r :: r in s.b.req ==> s.b.req[r].handled <= MAX_STAGE_JUMP + 2
    decreases |run|
  {
    if run != [] {
      var k := |run| - 1;
      var p :| RunsTo(cfg, run[..k], p) && Enabled(cfg, p, run[k]) && s == Apply(cfg, p, run[k]);
      BoundedHops(cfg, run[..k], p);
      assert Placed(p, None) && Counted(p) by {
        NeverDoubled(cfg, run[..k], p);
        RunCore(cfg, run[..k], p);
      }
      StepHops(cfg, p, run[k]);
    }
  }

  /** A turn ends in the done queue, or brings the request one hop nearer to the loop check. */
  lemma HandleMeasure(cfg: Config, run: seq<Label>, s: State, l: Label)
    requires GoodConfig(cfg) && RunsTo(cfg, run, s) && cfg.cutoffReturns && Enabled(cfg, s, l) && l.Handle?
    ensures var r, s' := s.t.hand[l.w][0], Apply(cfg, s, l);
      r in s'.b.req && (r in s'.e.done || 0 <= HopsToGo(s', r) < HopsToGo(s, r))
  {
    BoundedHops(cfg, run, s);
    var r := s.t.hand[l.w][0];
    assert HopsFine(s, r);
    OneHop(cfg, TurnTaken(Named(s, l.w, l.named), r), l.w, r, l.verdict, l.wake);
  }

  function HopsToGo(s: State, r: Rid): int
    requires r in s.b.req
  {
    MAX_STAGE_JUMP + 1 - s.b.req[r].hops
  }

  /** The request has reached the done or the final queue, or is gone. */
  ghost predicate Settled(s: State, r: Rid) {
    r <= s.b.inc && (r in s.b.req ==> r in s.e.done || r in s.e.final)
  }

  lemma StepSettled(cfg: Config, s: State, l: Label, r: Rid)
    requires Enabled(cfg, s, l) && Settled(s, r)
    ensures Settled(Apply(cfg, s, l), r)
  {
    match l
    case Submit(p, c, flags, now, locked, wake) => SubmitSettled(cfg, s, p, c, flags, now, locked, wake, r);
    case Handle(w, v, named, wake) => HandleSettled(cfg, s, w, s.t.hand[w][0], v, named, wake, r);
    case ServeEnd(disconnect) => assert r in s.e.final && r != s.e.final[0] ==> r in s.e.final[1..];
    case _ =>
  }

  lemma SubmitSettled(cfg: Config, s: State, p: nat, c: nat, flags: Flags, now: int, locked: bool, wake: set<nat>, r: Rid)
    requires Fits(cfg, s) && c in s.b.net.live && Settled(s, r)
    ensures Settled(Submitted(cfg, s, p, c, flags, now, locked, wake), r)
  {
    if !Refused(cfg, s, p, flags) && locked && !StageFull(cfg, s, p, flags) {
      MakeRoomHops(cfg, Relieved(cfg, Register(s, p, c, now), p), cfg.first[p], flags, now);
      var s' := Submitted(cfg, s, p, c, flags, now, locked, wake);
      assert s.e.final <= s'.e.final;
      assert r in s.e.final ==> r in s'.e.final;
    }
  }

  lemma HandleSettled(cfg: Config, s: State, w: nat, x: Rid, v: Verdict, named: Option<nat>, wake: set<nat>, r: Rid)
    requires Fits(cfg, s) && w < |cfg.home| && x in s.b.req && Settled(s, r)
    ensures Settled(Handled(cfg, s, w, x, v, named, wake), r)
  {
    var s1, s' := TurnTaken(Named(s, w, named), x), Handled(cfg, s, w, x, v, named, wake);
    assert HandleFrame(s1, s');
    assert s.e.done <= s'.e.done;
    assert r in s.e.done ==> r in s'.e.done;
  }

  lemma {:induction false} StaysSettled(cfg: Config, run: seq<Label>, more: seq<Label>, s: State, s': State, r: Rid)
    requires RunsTo(cfg, run, s) && RunsTo(cfg, run + more, s') && Settled(s, r)
    ensures Settled(s', r)
    decreases |more|
  {
    if more == [] {
      assert run + more == run;
      RunsToUnique(cfg, run, s, s');
    } else {
      var k, all := |more| - 1, run + more;
      assert all[..|all| - 1] == run + more[..k];
      var p :| RunsTo(cfg, all[..|all| - 1], p) && Enabled(cfg, p, all[|all| - 1]) && s' == Apply(cfg, p, all[|all| - 1]);
      StaysSettled(cfg, run, more[..k], s, p, r);
      StepSettled(cfg, p, all[|all| - 1], r);
    }
  }

  lemma DoneIsSettled(s: State, r: Rid)
    requires Placed(s, None) && Numbered(s) && (r in s.e.done || r in s.e.final)
    ensures Settled(s, r)
  {
    OccIn(s.e.done, r);
    OccIn(s.e.final, r);
    assert Count(s, r) == if r in s.b.req then 1 else 0;
  }

  lemma SettledPlaces(s: State, r: Rid)
    requires Placed(s, None) && Settled(s, r)
    ensures OccAll(s.q.queue, r) == OccAll(s.q.over, r) == OccAll(s.t.hand, r) == 0
    ensures Occ(s.e.done, r) + Occ(s.e.final, r) == if r in s.b.req then 1 else 0
  {
    OccIn(s.e.done, r);
    OccIn(s.e.final, r);
    assert Count(s, r) == if r in s.b.req then 1 else 0;
  }

  /** A request that has reached the done or the final queue is never in a stage, an overflow queue or a
      worker's hands again, and never in the two queues twice. */
  lemma DoneOnce(cfg: Config, run: seq<Label>, more: seq<Label>, s: State, s': State, r: Rid)
    requires GoodConfig(cfg) && RunsTo(cfg, run, s) && RunsTo(cfg, run + more, s') && s.b.doubled == 0 && s'.b.doubled == 0
    requires r in s.e.done || r in s.e.final
    ensures OccAll(s'.q.queue, r) == OccAll(s'.q.over, r) == OccAll(s'.t.hand, r) == 0
    ensures Occ(s'.e.done, r) + Occ(s'.e.final, r) == if r in s'.b.req then 1 else 0
  {
    assert Settled(s, r) by {
      RunCore(cfg, run, s);
      DoneIsSettled(s, r);
    }
    StaysSettled(cfg, run, more, s, s', r);
    assert Placed(s', None) by {
      RunCore(cfg, run + more, s');
    }
    SettledPlaces(s', r);
  }
}
