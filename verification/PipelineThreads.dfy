/**
  Worker threads: a stage with something in its queue has a thread that is not asleep,
  although moving a whole overflow queue signals only once, and no thread leaves before
  everything is drained; and exactly which steps break that.
*/
module PipelineThreads {
  import opened PipelineState
  import opened PipelineBooks
  import opened PipelineCount
  import opened PipelineFifo
  import opened PipelineDrain

  /** A worker holds a request exactly while it is busy. */
  ghost predicate Hands(s: State) {
    && |s.t.hand| == |s.t.thread|
    && (forall w :: 0 <= w < |s.t.hand| ==> |s.t.hand[w]| == if s.t.thread[w] == Busy then 1 else 0)
  }

  lemma WakeHands(s: State, wake: set<nat>)
    requires Hands(s) && forall w :: w in wake ==> w < |s.t.thread| && s.t.thread[w] == Blocked
    ensures Hands(Wake(s, wake))
  {
  }

  lemma SubmitHands(cfg: Config, s: State, p: nat, c: nat, flags: Flags, now: int, locked: bool, wake: set<nat>)
    requires Fits(cfg, s) && Hands(s) && c in s.b.net.live
    requires !Refused(cfg, s, p, flags) && locked && !StageFull(cfg, s, p, flags) ==> WakeOk(cfg, s, cfg.first[p], wake)
    ensures Hands(Submitted(cfg, s, p, c, flags, now, locked, wake))
  {
    if !Refused(cfg, s, p, flags) && locked && !StageFull(cfg, s, p, flags) {
      var s1 := Register(s, p, c, now);
      var s2 := MakeRoom(cfg, Relieved(cfg, s1, p), cfg.first[p], flags, now);
      assert s2.t.thread == s.t.thread && s2.t.hand == s.t.hand;
      WakeHands(AppendStage(s2, cfg.first[p], s.b.inc + 1), wake);
    }
  }

  lemma HandleHands(cfg: Config, s: State, w: nat, r: Rid, v: Verdict, named: Option<nat>, wake: set<nat>)
    requires Fits(cfg, s) && Hands(s) && w < |cfg.home| && r in s.b.req && s.t.thread[w] == Busy
    requires SignalOk(cfg, Named(s, w, named), w, r, v, wake)
    ensures Hands(Handled(cfg, s, w, r, v, named, wake))
  {
    TurnDecides(cfg, s, w, r, v, named);
    TurnSignals(cfg, s, w, r, v, named, wake);
    var s1 := TurnTaken(Named(s, w, named), r);
    var s' := SubmitNext(cfg, s1, w, r, v, wake);
    assert s'.t.hand == s.t.hand[w := []];
    assert s'.t.thread == s.t.thread[w := Ready] ||
      (s'.t.thread == WakeThreads(s.t.thread[w := Ready], wake) && forall x :: x in wake ==> x < |s.t.thread| && s.t.thread[x] == Blocked);
  }

  lemma StepHands(cfg: Config, s: State, l: Label)
    requires Hands(s) && Enabled(cfg, s, l)
    ensures Hands(Apply(cfg, s, l))
  {
    match l
    case Submit(p, c, flags, now, locked, wake) => SubmitHands(cfg, s, p, c, flags, now, locked, wake);
    case Kick(p, wake) => WakeHands(Concat(cfg, s, p), wake);
    case Handle(w, v, named, wake) => HandleHands(cfg, s, w, s.t.hand[w][0], v, named, wake);
    case ServeEnd(disconnect) => WakeHands(Answered(s, disconnect), set w | 0 <= w < |s.t.thread| && s.t.thread[w] == Blocked);
    case WakeAll => WakeHands(s, set w | 0 <= w < |s.t.thread| && s.t.thread[w] == Blocked);
    case _ =>
  }

  // ----------------------------------------------------------- work conservation

  predicate Up(t: Thread) {
    t != Blocked && t != Exited
  }

  /** Some thread of the stage is not asleep. */
  ghost predicate Awake(cfg: Config, s: State, st: nat) {
    exists w :: 0 <= w < |cfg.home| && w < |s.t.thread| && cfg.home[w] == st && Up(s.t.thread[w])
  }

  ghost predicate Attended(cfg: Config, s: State) {
    forall st :: 0 <= st < |s.q.queue| && s.q.queue[st] != [] ==> Awake(cfg, s, st)
  }

  /** A thread has left only when nothing waits and nothing more is let in. */
  ghost predicate NoneLeftEarly(s: State) {
    (exists w :: 0 <= w < |s.t.thread| && s.t.thread[w] == Exited) ==> s.e.graceful && Waiting(s) == {}
  }

  /** Threads only woke up, apart from thread `but`. */
  ghost predicate OnlyWoke(s: State, s': State, but: int) {
    && |s'.t.thread| == |s.t.thread|
    && (forall w :: 0 <= w < |s.t.thread| && w != but && Up(s.t.thread[w]) ==> Up(s'.t.thread[w]))
  }

  lemma StillAwake(cfg: Config, s: State, s': State, st: nat, but: int)
    requires Awake(cfg, s, st) && OnlyWoke(s, s', but)
    requires 0 <= but < |s'.t.thread| && but < |cfg.home| && cfg.home[but] == st ==> Up(s'.t.thread[but])
    ensures Awake(cfg, s', st)
  {
    var w :| 0 <= w < |cfg.home| && w < |s.t.thread| && cfg.home[w] == st && Up(s.t.thread[w]);
    assert Up(s'.t.thread[w]);
  }

  /** A signal on a stage leaves a thread of that stage awake. */
  lemma SignalWakes(cfg: Config, s: State, st: nat, wake: set<nat>)
    requires GoodConfig(cfg) && Fits(cfg, s) && st < |cfg.next| && WakeOk(cfg, s, st, wake)
    requires forall w :: 0 <= w < |s.t.thread| ==> s.t.thread[w] != Exited
    ensures Awake(cfg, Wake(s, wake), st)
  {
    var s' := Wake(s, wake);
    assert Staffed(cfg, st);
    var v :| 0 <= v < |cfg.home| && cfg.home[v] == st;
    if s.t.thread[v] == Blocked {
      var w :| w in wake;
      assert Up(s'.t.thread[w]);
    } else {
      assert Up(s'.t.thread[v]);
    }
  }

  /** A step that fills at most the queue of stage `st`, where someone is awake afterwards. */
  lemma AttendedStage(cfg: Config, s: State, s': State, st: nat)
    requires Attended(cfg, s) && OnlyWoke(s, s', -1) && |s'.q.queue| == |s.q.queue|
    requires forall i :: 0 <= i < |s.q.queue| && i != st && s'.q.queue[i] != [] ==> s.q.queue[i] != []
    requires Awake(cfg, s', st)
    ensures Attended(cfg, s')
  {
    forall i | 0 <= i < |s'.q.queue| && s'.q.queue[i] != [] ensures Awake(cfg, s', i) {
      if i != st {
        StillAwake(cfg, s, s', i, -1);
      }
    }
  }

  /** A step that fills no queue and puts no thread to sleep. */
  lemma AttendedSame(cfg: Config, s: State, s': State)
    requires Attended(cfg, s) && OnlyWoke(s, s', -1) && |s'.q.queue| == |s.q.queue|
    requires forall i :: 0 <= i < |s.q.queue| && s'.q.queue[i] != [] ==> s.q.queue[i] != []
    ensures Attended(cfg, s')
  {
    forall i | 0 <= i < |s'.q.queue| && s'.q.queue[i] != [] ensures Awake(cfg, s', i) {
      StillAwake(cfg, s, s', i, -1);
    }
  }

  lemma SendAttended(cfg: Config, s: State, p: nat, r: Rid, flags: Flags, now: int, wake: set<nat>)
    requires GoodConfig(cfg) && Fits(cfg, s) && Attended(cfg, s) && p < |cfg.first| && WakeOk(cfg, s, cfg.first[p], wake)
    requires forall w :: 0 <= w < |s.t.thread| ==> s.t.thread[w] != Exited
    ensures Attended(cfg, SendLocked(cfg, s, p, r, flags, now, wake))
  {
    var st := cfg.first[p];
    var s1 := Relieved(cfg, s, p);
    var s2 := MakeRoom(cfg, s1, st, flags, now);
    var s3 := AppendStage(s2, st, r);
    assert s3.t.thread == s.t.thread;
    SignalWakes(cfg, s3, st, wake);
    AttendedStage(cfg, s, Wake(s3, wake), st);
  }

  /** The second check fails after the overflow queue was moved: the requests are in the stage's
      queue, and nobody is signalled. */
  ghost predicate Unsignalled(cfg: Config, s: State, l: Label)
    requires Fits(cfg, s)
  {
    l.Submit? && !Refused(cfg, s, l.p, l.flags) && l.locked && StageFull(cfg, s, l.p, l.flags) && s.q.over[l.p] != []
  }

  /** A thread leaves although something waits. */
  ghost predicate LeavesWork(s: State, l: Label) {
    l.Exit? && Waiting(s) != {}
  }

  /** Neither of the two. */
  ghost predicate Steady(cfg: Config, s: State, l: Label) {
    Fits(cfg, s) && !Unsignalled(cfg, s, l) && !LeavesWork(s, l)
  }

  lemma SubmitAttended(cfg: Config, s: State, p: nat, c: nat, flags: Flags, now: int, locked: bool, wake: set<nat>)
    requires GoodConfig(cfg) && Fits(cfg, s) && Attended(cfg, s) && LeftIsGraceful(s) && c in s.b.net.live
    requires !Unsignalled(cfg, s, Submit(p, c, flags, now, locked, wake))
    requires !Refused(cfg, s, p, flags) && locked && !StageFull(cfg, s, p, flags) ==> WakeOk(cfg, s, cfg.first[p], wake)
    ensures Attended(cfg, Submitted(cfg, s, p, c, flags, now, locked, wake))
  {
    if !Refused(cfg, s, p, flags) && locked && StageFull(cfg, s, p, flags) {
      AttendedSame(cfg, s, Leak(s, p, c, now));
    } else if !Refused(cfg, s, p, flags) {
      var s1 := Register(s, p, c, now);
      AttendedSame(cfg, s, s1);
      if locked {
        SendAttended(cfg, s1, p, s.b.inc + 1, flags, now, wake);
      } else {
        AttendedSame(cfg, s1, SendOverflow(s1, p, s.b.inc + 1));
      }
    }
  }

  /** Letting go of a request makes the worker ready. */
  lemma ReadyAttended(cfg: Config, s: State, s': State, w: nat)
    requires Fits(cfg, s) && Attended(cfg, s) && w < |cfg.home| && s'.q.queue == s.q.queue && s'.t.thread == s.t.thread[w := Ready]
    ensures Attended(cfg, s')
  {
    assert OnlyWoke(s, s', -1);
    AttendedSame(cfg, s, s');
  }

  lemma ReadyWakeOk(cfg: Config, s: State, s': State, w: nat, target: Option<nat>, wake: set<nat>)
    requires Fits(cfg, s) && w < |cfg.home| && s.t.thread[w] == Busy && s'.t.thread == s.t.thread[w := Ready]
    requires target.Some? && target.value < |cfg.next| ==> WakeOk(cfg, s, target.value, wake)
    ensures target.Some? && target.value < |cfg.next| ==> WakeOk(cfg, s', target.value, wake)
  {
  }

  /** Whatever waits, waits for a thread that has not left. */
  lemma NotLeft(s: State, r: Rid)
    requires NoneLeftEarly(s) && Placed(s, None) && (s.e.serving ==> s.e.final != [])
    requires OccAll(s.q.queue, r) + OccAll(s.q.over, r) + OccAll(s.t.hand, r) > 0
    ensures forall w :: 0 <= w < |s.t.thread| ==> s.t.thread[w] != Exited
  {
    assert Count(s, r) == if r in s.b.req then 1 else 0;
    if s.e.serving {
      OccFirst(s.e.final, r);
    }
    assert r in Waiting(s);
  }

  lemma QueuedOcc(qs: seq<seq<Rid>>, i: nat)
    requires i < |qs| && qs[i] != []
    ensures OccAll(qs, qs[i][0]) > 0
  {
    OccUpdate(qs, i, [], qs[i][0]);
    OccFirst(qs[i], qs[i][0]);
  }

  /** After the failed check, the moved requests are attended to exactly if a thread happened to be up. */
  lemma UnsignalledIff(cfg: Config, s: State, l: Label)
    requires GoodConfig(cfg) && Enabled(cfg, s, l) && Attended(cfg, s) && Unsignalled(cfg, s, l)
    ensures Attended(cfg, Apply(cfg, s, l)) <==> Awake(cfg, s, cfg.first[l.p])
  {
    var s', st := Apply(cfg, s, l), cfg.first[l.p];
    assert s' == Leak(Concat(cfg, s, l.p), l.p, l.c, l.now);
    assert s'.q.queue[st] != [];
    if Awake(cfg, s, st) {
      assert Awake(cfg, s', st);
      AttendedStage(cfg, s, s', st);
    } else {
      assert !Awake(cfg, s', st);
    }
  }

  /** Another thread of the worker's stage is up. */
  ghost predicate OtherAwake(cfg: Config, s: State, w: nat)
    requires w < |cfg.home|
  {
    exists v :: 0 <= v < |cfg.home| && v < |s.t.thread| && v != w && cfg.home[v] == cfg.home[w] && Up(s.t.thread[v])
  }

  /** A thread that leaves strands its stage exactly if something is in the queue and no other thread is up. */
  lemma ExitIff(cfg: Config, s: State, w: nat)
    requires Enabled(cfg, s, Exit(w)) && Attended(cfg, s)
    ensures Attended(cfg, Apply(cfg, s, Exit(w))) <==> s.q.queue[cfg.home[w]] == [] || OtherAwake(cfg, s, w)
  {
    var s', st := SetThread(s, w, Exited), cfg.home[w];
    assert forall v :: 0 <= v < |s.t.thread| && v != w ==> s'.t.thread[v] == s.t.thread[v];
    assert Awake(cfg, s', st) <==> OtherAwake(cfg, s, w);
    forall i | 0 <= i < |s.q.queue| && i != st && s.q.queue[i] != [] ensures Awake(cfg, s', i) {
      StillAwake(cfg, s, s', i, w);
    }
  }

  /** Threads have left only after the restart flag was set. */
  ghost predicate LeftIsGraceful(s: State) {
    (exists w :: 0 <= w < |s.t.thread| && s.t.thread[w] == Exited) ==> s.e.graceful
  }

  /** Some thread of the stage has not left. */
  ghost predicate Manned(cfg: Config, s: State, st: nat) {
    exists w :: 0 <= w < |cfg.home| && w < |s.t.thread| && cfg.home[w] == st && s.t.thread[w] != Exited
  }

  /** A signal on a stage leaves a thread of it awake exactly if one has not left. */
  lemma SignalIff(cfg: Config, s: State, st: nat, wake: set<nat>)
    requires Fits(cfg, s) && WakeOk(cfg, s, st, wake)
    ensures Awake(cfg, Wake(s, wake), st) <==> Manned(cfg, s, st)
  {
    var s' := Wake(s, wake);
    if Manned(cfg, s, st) {
      var v :| 0 <= v < |cfg.home| && v < |s.t.thread| && cfg.home[v] == st && s.t.thread[v] != Exited;
      if s.t.thread[v] == Blocked {
        var w :| w in wake;
        assert Up(s'.t.thread[w]);
      } else {
        assert Up(s'.t.thread[v]);
      }
    }
  }

  /** A step that signals stage `st`, whose queue is then not empty, and fills no other. */
  lemma SignalledIff(cfg: Config, s: State, s1: State, st: nat, wake: set<nat>)
    requires Attended(cfg, s) && Fits(cfg, s1) && OnlyWoke(s, s1, -1) && st < |s.q.queue| == |s1.q.queue|
    requires WakeOk(cfg, s1, st, wake) && s1.q.queue[st] != []
    requires forall i :: 0 <= i < |s.q.queue| && i != st && s1.q.queue[i] != [] ==> s.q.queue[i] != []
    ensures Attended(cfg, Wake(s1, wake)) <==> Manned(cfg, s1, st)
  {
    SignalIff(cfg, s1, st, wake);
    if Manned(cfg, s1, st) {
      assert OnlyWoke(s, Wake(s1, wake), -1);
      AttendedStage(cfg, s, Wake(s1, wake), st);
    } else {
      assert Wake(s1, wake).q.queue[st] != [];
    }
  }

  lemma KickIff(cfg: Config, s: State, p: nat, wake: set<nat>)
    requires Fits(cfg, s) && Attended(cfg, s) && p < |cfg.first| && WakeOk(cfg, s, cfg.first[p], wake) && s.q.over[p] != []
    ensures Attended(cfg, Wake(Concat(cfg, s, p), wake)) <==> Manned(cfg, s, cfg.first[p])
  {
    SignalledIff(cfg, s, Concat(cfg, s, p), cfg.first[p], wake);
  }

  /** The stage a handled request goes to, if any. */
  function GoesTo(cfg: Config, s: State, w: nat, r: Rid, v: Verdict, named: Option<nat>): Option<nat>
    requires Fits(cfg, s) && w < |cfg.home| && r in s.b.req
  {
    var target := Target(cfg, Named(s, w, named), w, v);
    if target.Some? && target.value < |cfg.next| && !Stopped(cfg, s, r, v) then target else None
  }

  lemma ForwardIff(cfg: Config, s: State, target: Option<nat>, r: Rid, wake: set<nat>)
    requires Fits(cfg, s) && Attended(cfg, s) && r in s.b.req
    requires target.Some? && target.value < |s.q.queue| ==> WakeOk(cfg, s, target.value, wake)
    ensures Attended(cfg, Forward(s, target, r, wake)) <==>
      target.None? || target.value >= |s.q.queue| || Manned(cfg, s, target.value)
  {
    if target.Some? && target.value < |s.q.queue| {
      var s1 := AppendStage(s, target.value, r).(b := s.b.(req := s.b.req[r := s.b.req[r].(hops := s.b.req[r].hops + 1)]));
      SignalledIff(cfg, s, s1, target.value, wake);
    }
  }

  lemma LetGoIff(cfg: Config, s: State, s1: State, w: nat, target: Option<nat>, r: Rid, wake: set<nat>)
    requires Fits(cfg, s) && Attended(cfg, s) && w < |cfg.home| && s.t.thread[w] == Busy && r in s1.b.req
    requires Fits(cfg, s1) && s1.q.queue == s.q.queue && s1.t.thread == s.t.thread[w := Ready]
    requires target.Some? && target.value < |cfg.next| ==> WakeOk(cfg, s, target.value, wake)
    ensures Attended(cfg, Forward(s1, target, r, wake)) <==>
      target.None? || target.value >= |cfg.next| || Manned(cfg, s, target.value)
  {
    ReadyAttended(cfg, s, s1, w);
    ReadyWakeOk(cfg, s, s1, w, target, wake);
    ForwardIff(cfg, s1, target, r, wake);
    if target.Some? && target.value < |cfg.next| {
      ReadyManned(cfg, s, s1, w, target.value);
    }
  }

  lemma ReadyManned(cfg: Config, s: State, s': State, w: nat, st: nat)
    requires w < |s.t.thread| && s.t.thread[w] == Busy && s'.t.thread == s.t.thread[w := Ready]
    ensures Manned(cfg, s', st) <==> Manned(cfg, s, st)
  {
    if Manned(cfg, s, st) {
      var v :| 0 <= v < |cfg.home| && v < |s.t.thread| && cfg.home[v] == st && s.t.thread[v] != Exited;
      assert s'.t.thread[v] != Exited;
    }
  }

  /** A turn does not change what decides where the request goes. */
  lemma TurnDecides(cfg: Config, s: State, w: nat, r: Rid, v: Verdict, named: Option<nat>)
    requires Fits(cfg, s) && w < |cfg.home| && r in s.b.req
    ensures var s1 := TurnTaken(Named(s, w, named), r);
      && Fits(cfg, s1) && r in s1.b.req && s1.q.queue == s.q.queue && s1.t.thread == s.t.thread
      && Target(cfg, s1, w, v) == Target(cfg, Named(s, w, named), w, v)
      && (Looped(s1, r, v) <==> Looped(s, r, v)) && (Stopped(cfg, s1, r, v) <==> Stopped(cfg, s, r, v))
  {
  }

  lemma TurnSignals(cfg: Config, s: State, w: nat, r: Rid, v: Verdict, named: Option<nat>, wake: set<nat>)
    requires Fits(cfg, s) && w < |cfg.home| && r in s.b.req && SignalOk(cfg, Named(s, w, named), w, r, v, wake)
    ensures var to := GoesTo(cfg, s, w, r, v, named); to.Some? ==> WakeOk(cfg, s, to.value, wake)
  {
  }

  lemma HandleIff(cfg: Config, s: State, w: nat, r: Rid, v: Verdict, named: Option<nat>, wake: set<nat>)
    requires Fits(cfg, s) && Attended(cfg, s) && w < |cfg.home| && r in s.b.req && s.t.thread[w] == Busy
    requires SignalOk(cfg, Named(s, w, named), w, r, v, wake)
    ensures var to := GoesTo(cfg, s, w, r, v, named);
      Attended(cfg, Handled(cfg, s, w, r, v, named, wake)) <==> to.None? || Manned(cfg, s, to.value)
  {
    TurnDecides(cfg, s, w, r, v, named);
    TurnSignals(cfg, s, w, r, v, named, wake);
    SubmitNextIff(cfg, s, TurnTaken(Named(s, w, named), r), w, r, v, wake);
  }

  lemma SubmitNextIff(cfg: Config, s: State, s1: State, w: nat, r: Rid, v: Verdict, wake: set<nat>)
    requires Fits(cfg, s) && Attended(cfg, s) && w < |cfg.home| && s.t.thread[w] == Busy
    requires Fits(cfg, s1) && r in s1.b.req && s1.q.queue == s.q.queue && s1.t.thread == s.t.thread
    requires var to := Target(cfg, s1, w, v); to.Some? && to.value < |cfg.next| && !Stopped(cfg, s1, r, v) ==> WakeOk(cfg, s, to.value, wake)
    ensures var to := Target(cfg, s1, w, v);
      Attended(cfg, SubmitNext(cfg, s1, w, r, v, wake)) <==>
        Stopped(cfg, s1, r, v) || to.None? || to.value >= |cfg.next| || Manned(cfg, s, to.value)
  {
    var to := Target(cfg, s1, w, v);
    if !Looped(s1, r, v) {
      LetGoIff(cfg, s, LetGo(s1, w, v, false), w, to, r, wake);
    } else if cfg.cutoffReturns {
      ReadyAttended(cfg, s, AppendDone(LetGo(s1, w, v, true), r), w);
    } else {
      LetGoIff(cfg, s, Doubled(AppendDone(LetGo(s1, w, v, false), r)), w, to, r, wake);
    }
  }

  /** The step leaves requests with a stage none of whose threads is up: a submit that moves a batch and signals
      nobody, the exit of the last thread that is up, or a request that comes to a stage all of whose threads have
      left. */
  ghost predicate Strands(cfg: Config, s: State, l: Label)
    requires Enabled(cfg, s, l)
  {
    || (Unsignalled(cfg, s, l) && !Awake(cfg, s, cfg.first[l.p]))
    || (l.Exit? && s.q.queue[cfg.home[l.w]] != [] && !OtherAwake(cfg, s, l.w))
    || (l.Kick? && !Manned(cfg, s, cfg.first[l.p]))
    || (l.Handle? && var to := GoesTo(cfg, s, l.w, s.t.hand[l.w][0], l.verdict, l.named); to.Some? && !Manned(cfg, s, to.value))
  }

  lemma SubmitIff(cfg: Config, s: State, l: Label)
    requires GoodConfig(cfg) && Enabled(cfg, s, l) && l.Submit? && Attended(cfg, s) && LeftIsGraceful(s)
    ensures Attended(cfg, Apply(cfg, s, l)) <==> !Strands(cfg, s, l)
  {
    if Refused(cfg, s, l.p, l.flags) {
    } else if Unsignalled(cfg, s, l) {
      UnsignalledIff(cfg, s, l);
    } else {
      assert forall w :: 0 <= w < |s.t.thread| ==> s.t.thread[w] != Exited;
      SubmitAttended(cfg, s, l.p, l.c, l.flags, l.now, l.locked, l.wake);
    }
  }

  /** Exactly which steps break it. */
  lemma AttendedIff(cfg: Config, s: State, l: Label)
    requires GoodConfig(cfg) && Enabled(cfg, s, l) && Attended(cfg, s) && LeftIsGraceful(s) && ActiveList(s)
    ensures Attended(cfg, Apply(cfg, s, l)) <==> !Strands(cfg, s, l)
  {
    match l
    case Submit(_, _, _, _, _, _) => SubmitIff(cfg, s, l);
    case Kick(p, wake) => KickIff(cfg, s, p, wake);
    case Handle(w, v, named, wake) => HandleIff(cfg, s, w, s.t.hand[w][0], v, named, wake);
    case Exit(w) => ExitIff(cfg, s, w);
    case _ => OtherAttended(cfg, s, l);
  }

  lemma OtherAttended(cfg: Config, s: State, l: Label)
    requires Enabled(cfg, s, l) && Attended(cfg, s) && !l.Submit? && !l.Kick? && !l.Handle? && !l.Exit?
    ensures Attended(cfg, Apply(cfg, s, l))
  {
    if l.Take? {
      MovedAttended(cfg, s, Taken(cfg, s, l.w), l.w);
    } else if l.Block? {
      BlockAttended(cfg, s, l.w);
    } else if l.Delay? {
      MovedAttended(cfg, s, SetThread(s, l.w, Ready), l.w);
    } else if l.Spurious? {
      MovedAttended(cfg, s, SetThread(s, l.w, Woken), l.w);
    } else {
      AttendedSame(cfg, s, Apply(cfg, s, l));
    }
  }

  lemma StillManned(cfg: Config, s: State, st: nat)
    requires GoodConfig(cfg) && Fits(cfg, s) && st < |cfg.next|
    requires forall w :: 0 <= w < |s.t.thread| ==> s.t.thread[w] != Exited
    ensures Manned(cfg, s, st)
  {
    assert Staffed(cfg, st);
  }

  /** A steady step strands nobody. */
  lemma SteadyStrandsNone(cfg: Config, s: State, l: Label)
    requires GoodConfig(cfg) && Enabled(cfg, s, l) && NoneLeftEarly(s)
    requires Placed(s, None) && Counted(s) && ActiveList(s) && Steady(cfg, s, l)
    ensures !Strands(cfg, s, l)
  {
    if l.Exit? {
      NothingWaits(s);
    } else if l.Kick? {
      QueuedOcc(s.q.over, l.p);
      NotLeft(s, s.q.over[l.p][0]);
      StillManned(cfg, s, cfg.first[l.p]);
    } else if l.Handle? {
      QueuedOcc(s.t.hand, l.w);
      NotLeft(s, s.t.hand[l.w][0]);
      var to := GoesTo(cfg, s, l.w, s.t.hand[l.w][0], l.verdict, l.named);
      if to.Some? {
        StillManned(cfg, s, to.value);
      }
    }
  }

  /** A steady step leaves a thread awake at every stage with something in its queue. */
  lemma StepAttended(cfg: Config, s: State, l: Label)
    requires GoodConfig(cfg) && Enabled(cfg, s, l) && Attended(cfg, s) && NoneLeftEarly(s)
    requires Placed(s, None) && Counted(s) && ActiveList(s) && Steady(cfg, s, l)
    ensures Attended(cfg, Apply(cfg, s, l))
  {
    SteadyStrandsNone(cfg, s, l);
    AttendedIff(cfg, s, l);
  }

  lemma StepLeft(cfg: Config, s: State, l: Label)
    requires Enabled(cfg, s, l) && LeftIsGraceful(s)
    ensures LeftIsGraceful(Apply(cfg, s, l))
  {
    match l
    case Submit(p, c, flags, now, locked, wake) => SubmitLeft(cfg, s, p, c, flags, now, locked, wake);
    case Handle(w, v, named, wake) => HandleLeft(cfg, s, w, s.t.hand[w][0], v, named, wake);
    case _ =>
  }

  lemma SubmitLeft(cfg: Config, s: State, p: nat, c: nat, flags: Flags, now: int, locked: bool, wake: set<nat>)
    requires Fits(cfg, s) && LeftIsGraceful(s) && c in s.b.net.live
    ensures LeftIsGraceful(Submitted(cfg, s, p, c, flags, now, locked, wake))
  {
    if !Refused(cfg, s, p, flags) && locked && !StageFull(cfg, s, p, flags) {
      var s2 := MakeRoom(cfg, Relieved(cfg, Register(s, p, c, now), p), cfg.first[p], flags, now);
      assert s2.t.thread == s.t.thread;
    }
  }

  lemma HandleLeft(cfg: Config, s: State, w: nat, r: Rid, v: Verdict, named: Option<nat>, wake: set<nat>)
    requires Fits(cfg, s) && w < |cfg.home| && r in s.b.req
    ensures var s' := Handled(cfg, s, w, r, v, named, wake);
      && |s'.t.thread| == |s.t.thread| && s'.e.graceful == s.e.graceful
      && forall x :: 0 <= x < |s.t.thread| && s'.t.thread[x] == Exited ==> s.t.thread[x] == Exited
  {
    TurnDecides(cfg, s, w, r, v, named);
    var s1 := TurnTaken(Named(s, w, named), r);
    assert HandleFrame(s1, SubmitNext(cfg, s1, w, r, v, wake));
  }

  /** With nobody ever kicked out every step is steady. */
  lemma UnkickedIsSteady(cfg: Config, s: State, l: Label)
    requires Enabled(cfg, s, l) && Placed(s, None) && Counted(s) && Lengths(cfg, s)
    requires s.e.kicked == 0 && |s.b.req| < TWO64
    ensures Steady(cfg, s, l)
    ensures l.Submit? && !Refused(cfg, s, l.p, l.flags) ==> !StageFull(cfg, s, l.p, l.flags)
  {
    if l.Submit? && !Refused(cfg, s, l.p, l.flags) {
      NoLeak(cfg, s, l.p, l.flags);
    }
    if l.Exit? {
      CounterIsExact(s);
    }
  }

  /** A worker that stays up. */
  lemma MovedAttended(cfg: Config, s: State, s': State, w: nat)
    requires Fits(cfg, s) && Attended(cfg, s) && w < |cfg.home| && |s'.q.queue| == |s.q.queue|
    requires |s'.t.thread| == |s.t.thread| && Up(s'.t.thread[w])
    requires forall x :: 0 <= x < |s.t.thread| && x != w ==> s'.t.thread[x] == s.t.thread[x]
    requires forall i :: 0 <= i < |s.q.queue| && s'.q.queue[i] != [] ==> s.q.queue[i] != []
    ensures Attended(cfg, s')
  {
    forall i | 0 <= i < |s'.q.queue| && s'.q.queue[i] != [] ensures Awake(cfg, s', i) {
      StillAwake(cfg, s, s', i, w);
    }
  }

  /** A worker goes to sleep only in front of an empty queue. */
  lemma BlockAttended(cfg: Config, s: State, w: nat)
    requires Fits(cfg, s) && Attended(cfg, s) && w < |cfg.home| && s.q.queue[cfg.home[w]] == []
    ensures Attended(cfg, SetThread(s, w, Blocked))
  {
    var s' := SetThread(s, w, Blocked);
    forall i | 0 <= i < |s'.q.queue| && s'.q.queue[i] != [] ensures Awake(cfg, s', i) {
      assert i != cfg.home[w];
      var v :| 0 <= v < |cfg.home| && v < |s.t.thread| && cfg.home[v] == i && Up(s.t.thread[v]);
      assert Up(s'.t.thread[v]);
    }
  }

  /** A step that lets no thread go and adds nothing that waits. */
  lemma LeftKept(s: State, s': State)
    requires NoneLeftEarly(s) && |s'.t.thread| == |s.t.thread|
    requires forall w :: 0 <= w < |s.t.thread| && s'.t.thread[w] == Exited ==> s.t.thread[w] == Exited
    requires (s.e.graceful ==> s'.e.graceful) && Waiting(s') <= Waiting(s)
    ensures NoneLeftEarly(s')
  {
  }

  lemma EventNoneLeft(cfg: Config, s: State, l: Label)
    requires Enabled(cfg, s, l) && NoneLeftEarly(s) && (l.Drain? || l.ServeBegin? || l.ServeEnd?)
    requires s.e.serving ==> s.e.final != []
    ensures NoneLeftEarly(Apply(cfg, s, l))
  {
    LeftKept(s, Apply(cfg, s, l));
  }

  lemma MoveNoneLeft(cfg: Config, s: State, l: Label)
    requires Enabled(cfg, s, l) && NoneLeftEarly(s) && Placed(s, None) && Counted(s) && ActiveList(s)
    requires l.Kick? || l.Take?
    ensures NoneLeftEarly(Apply(cfg, s, l))
  {
    match l
    case Kick(p, wake) =>
      QueuedOcc(s.q.over, p);
      NotLeft(s, s.q.over[p][0]);
    case Take(w) =>
      QueuedOcc(s.q.queue, cfg.home[w]);
      NotLeft(s, s.q.queue[cfg.home[w]][0]);
  }

  lemma StepNoneLeft(cfg: Config, s: State, l: Label)
    requires Enabled(cfg, s, l) && NoneLeftEarly(s) && Placed(s, None) && Counted(s) && ActiveList(s)
    requires !LeavesWork(s, l)
    ensures NoneLeftEarly(Apply(cfg, s, l))
  {
    match l
    case Submit(p, c, flags, now, locked, wake) => SubmitNoneLeft(cfg, s, p, c, flags, now, locked, wake);
    case Kick(_, _) => MoveNoneLeft(cfg, s, l);
    case Take(_) => MoveNoneLeft(cfg, s, l);
    case Handle(w, v, named, wake) =>
      QueuedOcc(s.t.hand, w);
      NotLeft(s, s.t.hand[w][0]);
      HandleNoneLeft(cfg, s, w, s.t.hand[w][0], v, named, wake);
    case Exit(w) =>
    case Drain => EventNoneLeft(cfg, s, l);
    case ServeBegin => EventNoneLeft(cfg, s, l);
    case ServeEnd(_) => EventNoneLeft(cfg, s, l);
    case _ => LeftKept(s, Apply(cfg, s, l));
  }

  lemma SubmitNoneLeft(cfg: Config, s: State, p: nat, c: nat, flags: Flags, now: int, locked: bool, wake: set<nat>)
    requires Fits(cfg, s) && NoneLeftEarly(s) && c in s.b.net.live
    ensures NoneLeftEarly(Submitted(cfg, s, p, c, flags, now, locked, wake))
  {
    if !Refused(cfg, s, p, flags) && locked && !StageFull(cfg, s, p, flags) {
      var s2 := MakeRoom(cfg, Relieved(cfg, Register(s, p, c, now), p), cfg.first[p], flags, now);
      assert s2.t.thread == s.t.thread;
    }
  }

  lemma HandleNoneLeft(cfg: Config, s: State, w: nat, r: Rid, v: Verdict, named: Option<nat>, wake: set<nat>)
    requires Fits(cfg, s) && w < |cfg.home| && r in s.b.req
    requires forall x :: 0 <= x < |s.t.thread| ==> s.t.thread[x] != Exited
    ensures NoneLeftEarly(Handled(cfg, s, w, r, v, named, wake))
  {
    HandleLeft(cfg, s, w, r, v, named, wake);
  }
}
