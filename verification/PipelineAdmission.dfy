/**
  The admission check compares the counter with the queue size, and the counter is off by the
  requests ever swept out.  So without forced submits the number of waiting requests stays
  within the queue size exactly for configurations in which no sweep can take anything out.
*/
module PipelineAdmission {
  import opened PipelineState
  import opened PipelineBooks
  import opened PipelineCount
  import opened PipelineDrain
  import opened PipelineRuns
  import Witness = PipelineWitness

  ghost predicate NoTimeOut(run: seq<Label>) {
    forall i :: 0 <= i < |run| && run[i].Submit? ==> !run[i].flags.timeOut
  }

  /** No submit that could sweep or kick anything out. */
  predicate Gentle(cfg: Config, l: Label) {
    l.Submit? ==> !l.flags.force && (cfg.timeout == 0 || !l.flags.timeOut)
  }

  lemma StepKicked(cfg: Config, s: State, l: Label)
    requires Enabled(cfg, s, l) && Gentle(cfg, l)
    ensures Apply(cfg, s, l).e.kicked == s.e.kicked
  {
    if l.Handle? {
      var r := s.t.hand[l.w][0];
      assert HandleFrame(TurnTaken(Named(s, l.w, l.named), r), Handled(cfg, s, l.w, r, l.verdict, l.named, l.wake));
    }
  }

  lemma {:induction false} NobodyKicked(cfg: Config, run: seq<Label>, s: State)
    requires RunsTo(cfg, run, s) && forall i :: 0 <= i < |run| ==> Gentle(cfg, run[i])
    ensures s.e.kicked == 0
    decreases |run|
  {
    if run != [] {
      var k := |run| - 1;
      var p :| RunsTo(cfg, run[..k], p) && Enabled(cfg, p, run[k]) && s == Apply(cfg, p, run[k]);
      NobodyKicked(cfg, run[..k], p);
      StepKicked(cfg, p, run[k]);
    }
  }

  /** Without forced submits and sweeps, no more requests wait than the queue size. */
  lemma AdmissionWithoutSweeps(cfg: Config, run: seq<Label>, s: State)
    requires GoodConfig(cfg) && RunsTo(cfg, run, s) && s.b.doubled == 0
    requires NoForce(run) && (cfg.timeout == 0 || NoTimeOut(run))
    ensures |Waiting(s)| <= cfg.queueSize
  {
    NobodyKicked(cfg, run, s);
    AdmissionBound(cfg, run, s);
  }

  // ------------------------------------------------------------------ room for one

  /** With nothing waiting a submit finds nobody to sweep out. */
  lemma SubmitToEmpty(cfg: Config, s: State, p: nat, c: nat, flags: Flags, now: int, locked: bool, wake: set<nat>)
    requires Fits(cfg, s) && c in s.b.net.live && !flags.force && PipelineEmpty(s)
    ensures Submitted(cfg, s, p, c, flags, now, locked, wake).e.kicked == s.e.kicked
  {
    if !Refused(cfg, s, p, flags) && locked && !StageFull(cfg, s, p, flags) {
      var s1 := Relieved(cfg, Register(s, p, c, now), p);
      assert s1.q.queue[cfg.first[p]] == [];
      assert Swept(s1.q.queue[cfg.first[p]], s1.b.req, now, cfg.timeout) == [];
    }
  }

  lemma OneStep(cfg: Config, s: State, l: Label)
    requires cfg.queueSize == 1 && Enabled(cfg, s, l) && (l.Submit? ==> !l.flags.force)
    requires Counted(s) && Placed(s, None) && s.e.kicked == 0 && |s.b.req| < TWO64
    ensures Apply(cfg, s, l).e.kicked == 0
  {
    if l.Submit? {
      if !Refused(cfg, s, l.p, l.flags) {
        ZeroMeansEmpty(s);
        SubmitToEmpty(cfg, s, l.p, l.c, l.flags, l.now, l.locked, l.wake);
      }
    } else {
      StepKicked(cfg, s, l);
    }
  }

  lemma {:induction false} OneAtATime(cfg: Config, run: seq<Label>, s: State)
    requires GoodConfig(cfg) && cfg.queueSize == 1 && RunsTo(cfg, run, s) && s.b.doubled == 0 && NoForce(run)
    ensures s.e.kicked == 0
    decreases |run|
  {
    if run != [] {
      var k := |run| - 1;
      var p :| RunsTo(cfg, run[..k], p) && Enabled(cfg, p, run[k]) && s == Apply(cfg, p, run[k]);
      StepHistory(cfg, p, run[k]);
      OneAtATime(cfg, run[..k], p);
      RunCore(cfg, run[..k], p);
      OneStep(cfg, p, run[k]);
    }
  }

  // ------------------------------------------------------------------ one too many

  /** One request has been swept out, and the counter is one short. */
  ghost predicate Filling(cfg: Config, s: State, n: nat) {
    && Fits(cfg, s) && !s.e.graceful && !s.e.serving && s.e.kicked == 1 && s.b.doubled == 0
    && 0 in s.b.net.live && |s.b.req| == n && s.e.counter + 1 == n && Numbered(s)
  }

  function Plain(now: int, locked: bool): Label {
    Submit(0, 0, Flags(false, false, false), now, locked, {})
  }

  /** While the counter is below the queue size another request is admitted. */
  lemma FillStep(cfg: Config, s: State, n: nat, now: int)
    requires Filling(cfg, s, n) && n <= cfg.queueSize < TWO32 && cfg.first != []
    ensures Enabled(cfg, s, Plain(now, false)) && Filling(cfg, Apply(cfg, s, Plain(now, false)), n + 1)
  {
    assert s.b.inc + 1 !in s.b.req;
    assert |s.b.req[s.b.inc + 1 := Request(0, 0, now, 0, 0)]| == n + 1;
  }

  lemma {:induction false} FillUp(cfg: Config, run: seq<Label>, s: State, n: nat, now: int) returns (run': seq<Label>, s': State)
    requires Filling(cfg, s, n) && n <= cfg.queueSize + 1 && cfg.queueSize < TWO32 && cfg.first != []
    requires RunsTo(cfg, run, s) && NoForce(run)
    ensures RunsTo(cfg, run', s') && NoForce(run') && Filling(cfg, s', cfg.queueSize + 1)
    decreases cfg.queueSize + 1 - n
  {
    if n == cfg.queueSize + 1 {
      run', s' := run, s;
    } else {
      var l := Plain(now, false);
      FillStep(cfg, s, n, now);
      Witness.OneMore(cfg, run, s, l, Apply(cfg, s, l));
      run', s' := FillUp(cfg, run + [l], Apply(cfg, s, l), n + 1, now);
    }
  }

  /** A connection and nothing else. */
  function Opened(cfg: Config): State {
    Init(cfg).(b := Ledger(0, map[], map[], Net(map[0 := Connection(true, 1)], {}), 0))
  }

  /** The first request waits in its stage. */
  ghost predicate OneWaits(cfg: Config, s: State) {
    && Fits(cfg, s) && cfg.first != [] && s.q.queue[cfg.first[0]] == [1] && s.q.over[0] == [] && s.q.queueLen[cfg.first[0]] == 1
    && s.b.req == map[1 := Request(0, 0, 0, 0, 0)] && s.b.inc == 1 && s.b.leaked == map[] && 0 in s.b.net.live
    && s.e == Events([], [], false, 1, 0, false) && s.b.doubled == 0
    && forall w :: 0 <= w < |s.t.thread| ==> s.t.thread[w] == Ready
  }

  lemma FirstSubmit(cfg: Config) returns (s': State)
    requires GoodConfig(cfg) && cfg.queueSize > 1 && cfg.first != []
    ensures Witness.Goes(cfg, Opened(cfg), Plain(0, true), s') && OneWaits(cfg, s')
  {
    var s, st := Opened(cfg), cfg.first[0];
    assert WakeOk(cfg, s, st, {}) && !StageFull(cfg, s, 0, Flags(false, false, false));
    var s1 := Register(s, 0, 0, 0);
    var s2 := AppendStage(s1, st, 1);
    assert s2.q.queue[st] == [1];
    assert SendLocked(cfg, s1, 0, 1, Flags(false, false, false), 0, {}) == Wake(s2, {});
    s' := Wake(s2, {});
  }

  function Sweeping(cfg: Config): Label {
    Submit(0, 0, Flags(false, false, true), cfg.timeout + 1, true, {})
  }

  lemma CanSweep(cfg: Config, s: State)
    requires GoodConfig(cfg) && cfg.queueSize > 1 && OneWaits(cfg, s)
    ensures Enabled(cfg, s, Sweeping(cfg)) && !StageFull(cfg, s, 0, Flags(false, false, true))
  {
    assert WakeOk(cfg, s, cfg.first[0], {});
  }

  /** The sweep of the second submit takes the first request out. */
  lemma SweepsFirst(cfg: Config, s: State)
    requires GoodConfig(cfg) && OneWaits(cfg, s)
    ensures var now := cfg.timeout + 1; var s' := Sweep(Register(s, 0, 0, now), cfg.first[0], now, cfg.timeout);
      Filling(cfg, s', 2) && s'.t.thread == s.t.thread
  {
    var now := cfg.timeout + 1;
    var s1 := Register(s, 0, 0, now);
    assert s1.b.req == map[1 := Request(0, 0, 0, 0, 0), 2 := Request(0, 0, now, 0, 0)];
    assert |s1.b.req| == 2;
    assert [1][..0] == [] && Swept([1], s1.b.req, now, cfg.timeout) == [1];
  }

  /** A second submit, with the sweep flag and past the timeout. */
  lemma SecondSubmit(cfg: Config, s: State)
    requires GoodConfig(cfg) && cfg.queueSize > 1 && cfg.timeout > 0 && OneWaits(cfg, s)
    ensures Enabled(cfg, s, Sweeping(cfg)) && Filling(cfg, Apply(cfg, s, Sweeping(cfg)), 2)
  {
    CanSweep(cfg, s);
    SweepsFirst(cfg, s);
    var st, now := cfg.first[0], cfg.timeout + 1;
    var s1 := Register(s, 0, 0, now);
    assert Apply(cfg, s, Sweeping(cfg)) == Wake(AppendStage(Sweep(s1, st, now, cfg.timeout), st, 2), {});
  }

  lemma OpenStep(cfg: Config)
    requires Wired(cfg)
    ensures RunsTo(cfg, [] + [Accept(0)], Opened(cfg))
  {
    Witness.OneMore(cfg, [], Init(cfg), Accept(0), Apply(cfg, Init(cfg), Accept(0)));
  }

  lemma ReachOneWaits(cfg: Config) returns (run: seq<Label>, s: State)
    requires GoodConfig(cfg) && cfg.queueSize > 1 && cfg.first != []
    ensures RunsTo(cfg, run, s) && NoForce(run) && OneWaits(cfg, s)
  {
    OpenStep(cfg);
    s := FirstSubmit(cfg);
    Witness.OneMore(cfg, [] + [Accept(0)], Opened(cfg), Plain(0, true), s);
    run := [] + [Accept(0)] + [Plain(0, true)];
  }

  lemma ReachFilling(cfg: Config) returns (run: seq<Label>, s: State)
    requires GoodConfig(cfg) && cfg.queueSize > 1 && cfg.timeout > 0 && cfg.first != []
    ensures RunsTo(cfg, run, s) && NoForce(run) && Filling(cfg, s, 2)
  {
    var run0, s0 := ReachOneWaits(cfg);
    SecondSubmit(cfg, s0);
    Witness.OneMore(cfg, run0, s0, Sweeping(cfg), Apply(cfg, s0, Sweeping(cfg)));
    run, s := run0 + [Sweeping(cfg)], Apply(cfg, s0, Sweeping(cfg));
  }

  /** Without a forced submit, one request more waits than the queue size allows. */
  lemma OneTooMany(cfg: Config) returns (run: seq<Label>, s: State)
    requires GoodConfig(cfg) && cfg.queueSize > 1 && cfg.timeout > 0 && cfg.first != []
    ensures RunsTo(cfg, run, s) && NoForce(run) && s.b.doubled == 0 && |Waiting(s)| == cfg.queueSize + 1
  {
    run, s := ReachFilling(cfg);
    run, s := FillUp(cfg, run, s, 2, cfg.timeout + 1);
    assert |s.b.req.Keys| == |s.b.req|;
    assert Waiting(s) == s.b.req.Keys;
  }

  /** The promise that without forced submits no more requests wait than the queue size is kept by
      every run exactly if there is no timeout to sweep by, room for one request only, or no pipeline. */
  lemma AdmissionIff(cfg: Config)
    requires GoodConfig(cfg)
    ensures (forall run, s :: RunsTo(cfg, run, s) && NoForce(run) && s.b.doubled == 0 ==> |Waiting(s)| <= cfg.queueSize) <==>
      cfg.timeout == 0 || cfg.queueSize == 1 || cfg.first == []
  {
    if cfg.timeout == 0 || cfg.queueSize == 1 || cfg.first == [] {
      forall run, s | RunsTo(cfg, run, s) && NoForce(run) && s.b.doubled == 0 ensures |Waiting(s)| <= cfg.queueSize {
        StaysWithin(cfg, run, s);
      }
    } else {
      var run, s := OneTooMany(cfg);
      assert RunsTo(cfg, run, s) && NoForce(run);
    }
  }

  lemma StaysWithin(cfg: Config, run: seq<Label>, s: State)
    requires GoodConfig(cfg) && RunsTo(cfg, run, s) && NoForce(run) && s.b.doubled == 0
    requires cfg.timeout == 0 || cfg.queueSize == 1 || cfg.first == []
    ensures |Waiting(s)| <= cfg.queueSize
  {
    if cfg.timeout == 0 {
      AdmissionWithoutSweeps(cfg, run, s);
    } else if cfg.queueSize == 1 {
      OneAtATime(cfg, run, s);
      AdmissionBound(cfg, run, s);
    } else {
      NoPipeline(cfg, run, s);
      AdmissionBound(cfg, run, s);
    }
  }

  /** Without a pipeline every submit is refused. */
  lemma {:induction false} NoPipeline(cfg: Config, run: seq<Label>, s: State)
    requires RunsTo(cfg, run, s) && cfg.first == []
    ensures s.e.kicked == 0
    decreases |run|
  {
    if run != [] {
      var k := |run| - 1;
      var p :| RunsTo(cfg, run[..k], p) && Enabled(cfg, p, run[k]) && s == Apply(cfg, p, run[k]);
      NoPipeline(cfg, run[..k], p);
      if !run[k].Submit? {
        StepKicked(cfg, p, run[k]);
      }
    }
  }
}
