/**
  What one step does to the lists, the counts and the threads, field by field: who is let in and
  where a request comes to stand, where each verdict sends it, who is moved, and who is woken.
*/
module PipelineLaws {
  import opened PipelineState
  import opened PipelineBooks
  import opened PipelineFifo
  import opened PipelineRuns

  // ------------------------------------------------------------------- every state

  /** What holds of every state, doubled requests or not. */
  ghost predicate Sound(cfg: Config, s: State) {
    Lengths(cfg, s) && ActiveList(s) && s.e.counter < TWO64 && |s.b.req| < TWO64 && Numbered(s)
  }

  lemma StepCounter(cfg: Config, s: State, l: Label)
    requires Enabled(cfg, s, l) && s.e.counter < TWO64
    ensures Apply(cfg, s, l).e.counter < TWO64
  {
    if l.Handle? {
      var r := s.t.hand[l.w][0];
      assert HandleFrame(TurnTaken(Named(s, l.w, l.named), r), Handled(cfg, s, l.w, r, l.verdict, l.named, l.wake));
    }
  }

  lemma StepSound(cfg: Config, s: State, l: Label)
    requires Sound(cfg, s) && Enabled(cfg, s, l)
    ensures Sound(cfg, Apply(cfg, s, l))
  {
    StepLengths(cfg, s, l);
    StepActive(cfg, s, l);
    StepCounter(cfg, s, l);
    StepNumbered(cfg, s, l);
  }

  lemma {:induction false} RunSound(cfg: Config, run: seq<Label>, s: State)
    requires Wired(cfg) && RunsTo(cfg, run, s)
    ensures Sound(cfg, s)
    decreases |run|
  {
    if run == [] {
      InitCore(cfg);
    } else {
      var k := |run| - 1;
      var p :| RunsTo(cfg, run[..k], p) && Enabled(cfg, p, run[k]) && s == Apply(cfg, p, run[k]);
      RunSound(cfg, run[..k], p);
      StepSound(cfg, p, run[k]);
    }
  }

  // ------------------------------------------------------------------------ threads

  /** The threads after a signal to a stage: one that waits there is woken, if any does, perhaps
      more of them, and nobody else. */
  ghost predicate Signalled(home: seq<nat>, st: nat, before: seq<Thread>, after: seq<Thread>) {
    && |after| == |before|
    && (forall w :: 0 <= w < |before| ==>
          after[w] == before[w] || (before[w] == Blocked && after[w] == Woken && w < |home| && home[w] == st))
    && ((exists w :: 0 <= w < |before| && Waits(home, st, before, w)) ==>
          exists w :: 0 <= w < |before| && before[w] == Blocked && after[w] == Woken)
  }

  predicate Waits(home: seq<nat>, st: nat, thread: seq<Thread>, w: nat) {
    w < |home| && w < |thread| && home[w] == st && thread[w] == Blocked
  }

  lemma SignalIsSignalled(home: seq<nat>, st: nat, thread: seq<Thread>, wake: set<nat>)
    requires MayWake(home, thread, st, wake)
    ensures Signalled(home, st, thread, WakeThreads(thread, wake))
  {
    if exists w :: 0 <= w < |thread| && Waits(home, st, thread, w) {
      var w :| w in wake;
      assert WakeThreads(thread, wake)[w] == Woken;
    }
  }

  /** Everybody who waits is woken, or nobody. */
  ghost predicate AllWoken(all: bool, before: seq<Thread>, after: seq<Thread>) {
    |after| == |before| && forall w :: 0 <= w < |before| ==> after[w] == if all && before[w] == Blocked then Woken else before[w]
  }

  // ------------------------------------------------------------------------- submits

  /** Both checks of a submit, over what is in the queues. */
  predicate Admits(cfg: Config, s: State, p: nat, flags: Flags, locked: bool)
    requires Fits(cfg, s)
  {
    && p < |cfg.first| && !s.e.graceful && (flags.force || s.e.counter < cfg.queueSize)
    && (locked && !flags.force ==> U32(|s.q.queue[cfg.first[p]]| + |s.q.over[p]|) < cfg.queueSize)
  }

  lemma AdmitsIff(cfg: Config, s: State, p: nat, flags: Flags, locked: bool)
    requires Lengths(cfg, s)
    ensures Admits(cfg, s, p, flags, locked) <==> !Refused(cfg, s, p, flags) && !(locked && StageFull(cfg, s, p, flags))
  {
    if p < |cfg.first| {
      RelievedLength(cfg, s, p);
    }
  }

  lemma RelievedLength(cfg: Config, s: State, p: nat)
    requires Lengths(cfg, s) && p < |cfg.first|
    ensures Relieved(cfg, s, p).q.queueLen[cfg.first[p]] == U32(|s.q.queue[cfg.first[p]]| + |s.q.over[p]|)
  {
    if s.q.over[p] != [] {
      ConcatLengths(cfg, s, p);
    }
  }

  /** Some of the entries, in the same order. */
  ghost predicate Among(a: seq<Rid>, b: seq<Rid>)
    decreases |b|
  {
    || a == []
    || (a != [] && b != [] && a[|a| - 1] == b[|b| - 1] && Among(a[..|a| - 1], b[..|b| - 1]))
    || (b != [] && Among(a, b[..|b| - 1]))
  }

  /** The sweep leaves what has not waited too long and takes out the rest, both in order. */
  ghost predicate Parts(line: seq<Rid>, kept: seq<Rid>, out: seq<Rid>, req: map<Rid, Request>, now: int, timeout: nat) {
    && Among(kept, line) && Among(out, line) && multiset(kept) + multiset(out) == multiset(line)
    && (forall r :: r in kept && r in req ==> now - req[r].clock <= timeout)
    && (forall r :: r in out ==> r in req && now - req[r].clock > timeout)
  }

  lemma {:induction false} SweepParts(line: seq<Rid>, req: map<Rid, Request>, now: int, timeout: nat)
    ensures Parts(line, Kept(line, req, now, timeout), Swept(line, req, now, timeout), req, now, timeout)
  {
    if line != [] {
      var k := |line| - 1;
      var kept, out := Kept(line[..k], req, now, timeout), Swept(line[..k], req, now, timeout);
      SweepParts(line[..k], req, now, timeout);
      if Expired(req, line[k], now, timeout) {
        assert kept + [] == kept;
        PartsOut(line, kept, out, req, now, timeout);
      } else {
        assert out + [] == out;
        PartsKept(line, kept, out, req, now, timeout);
      }
    }
  }

  lemma {:induction false} PartsKept(line: seq<Rid>, kept: seq<Rid>, out: seq<Rid>, req: map<Rid, Request>, now: int, timeout: nat)
    requires line != [] && Parts(line[..|line| - 1], kept, out, req, now, timeout) && !Expired(req, line[|line| - 1], now, timeout)
    ensures Parts(line, kept + [line[|line| - 1]], out, req, now, timeout)
  {
    OneMoreAmong(line, kept);
    assert line == line[..|line| - 1] + [line[|line| - 1]];
  }

  lemma {:induction false} PartsOut(line: seq<Rid>, kept: seq<Rid>, out: seq<Rid>, req: map<Rid, Request>, now: int, timeout: nat)
    requires line != [] && Parts(line[..|line| - 1], kept, out, req, now, timeout) && Expired(req, line[|line| - 1], now, timeout)
    ensures Parts(line, kept, out + [line[|line| - 1]], req, now, timeout)
  {
    OneMoreAmong(line, out);
    assert line == line[..|line| - 1] + [line[|line| - 1]];
  }

  lemma {:induction false} OneMoreAmong(line: seq<Rid>, a: seq<Rid>)
    requires line != [] && Among(a, line[..|line| - 1])
    ensures Among(a + [line[|line| - 1]], line)
  {
    var b := a + [line[|line| - 1]];
    assert b[..|b| - 1] == a;
  }

  /** Is the oldest waiting request kicked out? */
  predicate Overfull(cfg: Config, line: seq<Rid>, flags: Flags) {
    flags.force && flags.kickOut && line != [] && U32(|line|) >= cfg.queueSize
  }

  ghost predicate Timed(cfg: Config, line: seq<Rid>, flags: Flags, now: int, req: map<Rid, Request>, kept: seq<Rid>, out: seq<Rid>) {
    if flags.timeOut && cfg.timeout != 0 then Parts(line, kept, out, req, now, cfg.timeout) else kept == line && out == []
  }

  /** Room in the first stage's line: the oldest request may be kicked out and old ones swept out. */
  ghost predicate RoomMade(cfg: Config, line: seq<Rid>, flags: Flags, now: int, req: map<Rid, Request>, kept: seq<Rid>, out: seq<Rid>) {
    if Overfull(cfg, line, flags) then out != [] && out[0] == line[0] && Timed(cfg, line[1..], flags, now, req, kept, out[1..])
    else Timed(cfg, line, flags, now, req, kept, out)
  }

  /** The request has its number and its entry, and nobody's work is touched. */
  ghost predicate Entered(s: State, l: Label, s': State)
    requires l.Submit?
  {
    var r := s.b.inc + 1;
    && s'.b.inc == r && s'.b.req == s.b.req[r := Request(l.c, l.p, l.now, 0, 0)] && s'.b.leaked == s.b.leaked
    && s'.t.hand == s.t.hand && s'.e.done == s.e.done && s'.e.graceful == s.e.graceful
  }

  /** With the lock: the overflow queue moves behind the first stage's, room is made and the new request
      is last; `out` leaves the line. */
  ghost predicate InStage(cfg: Config, q: Queues, p: nat, flags: Flags, now: int, req: map<Rid, Request>, r: Rid, q': Queues, out: seq<Rid>) {
    && p < |cfg.first| && p < |q.over| && cfg.first[p] < |q.queue| == |q'.queue| && q'.over == q.over[p := []]
    && var st := cfg.first[p];
      && (forall i :: 0 <= i < |q.queue| && i != st ==> q'.queue[i] == q.queue[i])
      && EndsWith(q'.queue[st], r)
      && RoomMade(cfg, q.queue[st] + q.over[p], flags, now, req, q'.queue[st][..|q'.queue[st]| - 1], out)
  }

  ghost predicate InOverflow(q: Queues, p: nat, r: Rid, q': Queues) {
    q'.queue == q.queue && p < |q.over| && q'.over == q.over[p := q.over[p] + [r]]
  }

  /** A request that gets in: what leaves the line goes to the final queue and is counted down. */
  ghost predicate LetIn(cfg: Config, s: State, l: Label, s': State)
    requires l.Submit?
  {
    && Entered(s, l, s') && s.e.final <= s'.e.final
    && var out := s'.e.final[|s.e.final|..];
      && s'.e.counter == U64(s.e.counter + 1 - |out|)
      && if l.locked then
           && InStage(cfg, s.q, l.p, l.flags, l.now, s'.b.req, s.b.inc + 1, s'.q, out)
           && Signalled(cfg.home, cfg.first[l.p], s.t.thread, s'.t.thread)
         else InOverflow(s.q, l.p, s.b.inc + 1, s'.q) && out == [] && s'.t == s.t
  }

  /** One that does not may have moved the overflow queue, and no more. */
  ghost predicate TurnedAway(cfg: Config, s: State, l: Label, s': State)
    requires Fits(cfg, s) && l.Submit?
  {
    if l.p < |cfg.first| && !s.e.graceful && s.e.counter < cfg.queueSize then
      && s'.b.req == s.b.req && s'.e == s.e && s'.t == s.t && s'.q.over == s.q.over[l.p := []]
      && var st := cfg.first[l.p]; s'.q.queue == s.q.queue[st := s.q.queue[st] + s.q.over[l.p]]
    else s' == s
  }

  /** What a submit does. */
  ghost predicate SubmitEffect(cfg: Config, s: State, l: Label, s': State)
    requires Fits(cfg, s) && l.Submit?
  {
    if Admits(cfg, s, l.p, l.flags, l.locked) then LetIn(cfg, s, l, s') else TurnedAway(cfg, s, l, s')
  }

  predicate EndsWith(line: seq<Rid>, r: Rid) {
    line != [] && line[|line| - 1] == r
  }

  /** What went to the final queue, and was counted down. */
  ghost predicate WentOut(e: Events, e': Events, out: seq<Rid>) {
    e'.final == e.final + out && e'.counter == U64(e.counter - |out|)
  }

  lemma KickEffect(s: State, st: nat)
    requires st < |s.q.queue| == |s.q.queueLen| && s.q.queue[st] != []
    ensures var s' := KickOut(s, st); s'.q.queue[st] == s.q.queue[st][1..] && WentOut(s.e, s'.e, [s.q.queue[st][0]])
  {
  }

  lemma SweepEffect(cfg: Config, s: State, st: nat, flags: Flags, now: int) returns (out: seq<Rid>)
    requires st < |s.q.queue| == |s.q.queueLen| && s.e.counter < TWO64
    ensures var s' := if flags.timeOut && cfg.timeout != 0 then Sweep(s, st, now, cfg.timeout) else s;
      WentOut(s.e, s'.e, out) && Timed(cfg, s.q.queue[st], flags, now, s.b.req, s'.q.queue[st], out)
  {
    if flags.timeOut && cfg.timeout != 0 {
      out := Swept(s.q.queue[st], s.b.req, now, cfg.timeout);
      assert Sweep(s, st, now, cfg.timeout).q.queue[st] == Kept(s.q.queue[st], s.b.req, now, cfg.timeout);
      SweepParts(s.q.queue[st], s.b.req, now, cfg.timeout);
    } else {
      out := [];
      assert s.e.final + [] == s.e.final;
    }
  }

  lemma OutTwice(e: Events, e1: Events, e2: Events, r: Rid, out: seq<Rid>)
    requires WentOut(e, e1, [r]) && WentOut(e1, e2, out)
    ensures WentOut(e, e2, [r] + out) && ([r] + out)[1..] == out
  {
    WrapSum(e.counter - 1, -|out|, TWO64);
  }

  /** The line of the first stage once room has been made. */
  lemma RoomEffect(cfg: Config, s: State, st: nat, flags: Flags, now: int) returns (out: seq<Rid>)
    requires st < |s.q.queue| == |s.q.queueLen| && s.q.queueLen[st] == U32(|s.q.queue[st]|) && s.e.counter < TWO64
    ensures var s' := MakeRoom(cfg, s, st, flags, now);
      WentOut(s.e, s'.e, out) && RoomMade(cfg, s.q.queue[st], flags, now, s.b.req, s'.q.queue[st], out)
  {
    if Overfull(cfg, s.q.queue[st], flags) {
      KickEffect(s, st);
      var s1 := KickOut(s, st);
      var swept := SweepEffect(cfg, s1, st, flags, now);
      OutTwice(s.e, s1.e, MakeRoom(cfg, s, st, flags, now).e, s.q.queue[st][0], swept);
      out := [s.q.queue[st][0]] + swept;
    } else {
      out := SweepEffect(cfg, s, st, flags, now);
    }
  }

  lemma RelievedIs(cfg: Config, s: State, p: nat)
    requires Lengths(cfg, s) && p < |cfg.first|
    ensures var s1, st := Relieved(cfg, s, p), cfg.first[p];
      && s1.q.queue == s.q.queue[st := s.q.queue[st] + s.q.over[p]] && s1.q.over == s.q.over[p := []]
      && s1.t == s.t && s1.e == s.e && s1.b == s.b && Lengths(cfg, s1)
  {
    if s.q.over[p] != [] {
      ConcatLengths(cfg, s, p);
    } else {
      assert s.q.queue[cfg.first[p]] + [] == s.q.queue[cfg.first[p]];
    }
  }

  lemma Placing(line: seq<Rid>, r: Rid)
    ensures EndsWith(line + [r], r) && (line + [r])[..|line|] == line
  {
  }

  /** send_to_pipeline with the lock, list by list. */
  lemma SendEffect(cfg: Config, s: State, p: nat, r: Rid, flags: Flags, now: int, wake: set<nat>) returns (out: seq<Rid>)
    requires Lengths(cfg, s) && p < |cfg.first| && s.e.counter < TWO64
    ensures var s' := SendLocked(cfg, s, p, r, flags, now, wake);
      InStage(cfg, s.q, p, flags, now, s.b.req, r, s'.q, out) && WentOut(s.e, s'.e, out)
  {
    var st, s1 := cfg.first[p], Relieved(cfg, s, p);
    RelievedIs(cfg, s, p);
    out := RoomEffect(cfg, s1, st, flags, now);
    Placing(MakeRoom(cfg, s1, st, flags, now).q.queue[st], r);
  }

  lemma LockedIs(cfg: Config, s: State, l: Label)
    requires Lengths(cfg, s) && Enabled(cfg, s, l) && l.Submit? && l.locked && Admits(cfg, s, l.p, l.flags, true)
    ensures var s' := Apply(cfg, s, l);
      && s' == SendLocked(cfg, Register(s, l.p, l.c, l.now), l.p, s.b.inc + 1, l.flags, l.now, l.wake)
      && Entered(s, l, s') && s'.t.thread == WakeThreads(s.t.thread, l.wake) && WakeOk(cfg, s, cfg.first[l.p], l.wake)
  {
    AdmitsIff(cfg, s, l.p, l.flags, true);
    assert SendFrame(Register(s, l.p, l.c, l.now), Apply(cfg, s, l));
  }

  lemma LockedEffect(cfg: Config, s: State, l: Label)
    requires Sound(cfg, s) && Enabled(cfg, s, l) && l.Submit? && l.locked && Admits(cfg, s, l.p, l.flags, true)
    ensures LetIn(cfg, s, l, Apply(cfg, s, l))
  {
    LockedIs(cfg, s, l);
    var s0 := Register(s, l.p, l.c, l.now);
    var out := SendEffect(cfg, s0, l.p, s.b.inc + 1, l.flags, l.now, l.wake);
    SignalIsSignalled(cfg.home, cfg.first[l.p], s.t.thread, l.wake);
    LetInIs(cfg, s, l, Apply(cfg, s, l), out, s0.b.req);
  }

  lemma LetInIs(cfg: Config, s: State, l: Label, s': State, out: seq<Rid>, req: map<Rid, Request>)
    requires l.Submit? && l.locked && Entered(s, l, s') && req == s.b.req[s.b.inc + 1 := Request(l.c, l.p, l.now, 0, 0)]
    requires InStage(cfg, s.q, l.p, l.flags, l.now, req, s.b.inc + 1, s'.q, out)
    requires WentOut(s.e.(counter := U64(s.e.counter + 1)), s'.e, out)
    requires Signalled(cfg.home, cfg.first[l.p], s.t.thread, s'.t.thread)
    ensures LetIn(cfg, s, l, s')
  {
    CountedDown(s.e, s'.e, out);
  }

  lemma CountedDown(e: Events, e': Events, out: seq<Rid>)
    requires WentOut(e.(counter := U64(e.counter + 1)), e', out)
    ensures e.final <= e'.final && e'.final[|e.final|..] == out && e'.counter == U64(e.counter + 1 - |out|)
  {
    WrapSum(e.counter + 1, -|out|, TWO64);
  }

  lemma SubmitEffects(cfg: Config, s: State, l: Label)
    requires Sound(cfg, s) && Enabled(cfg, s, l) && l.Submit?
    ensures SubmitEffect(cfg, s, l, Apply(cfg, s, l))
  {
    AdmitsIff(cfg, s, l.p, l.flags, l.locked);
    if Admits(cfg, s, l.p, l.flags, l.locked) {
      if l.locked {
        LockedEffect(cfg, s, l);
      } else {
        assert s.e.final[|s.e.final|..] == [];
      }
    } else if l.p < |cfg.first| {
      RelievedIs(cfg, s, l.p);
    }
  }

  /** In every run: a submit gets in exactly past both checks, a forced one always unless the restart has
      begun, and then stands last in the queue of the first stage, or in the overflow queue without its lock. */
  lemma SubmitLaw(cfg: Config, run: seq<Label>, s: State, l: Label, s': State)
    requires Wired(cfg) && RunsTo(cfg, run, s) && Enabled(cfg, s, l) && l.Submit? && s' == Apply(cfg, s, l)
    ensures SubmitEffect(cfg, s, l, s')
    ensures s.b.inc + 1 in s'.b.req <==>
      && l.p < |cfg.first| && !s.e.graceful && (l.flags.force || s.e.counter < cfg.queueSize)
      && (l.locked && !l.flags.force ==> U32(|s.q.queue[cfg.first[l.p]]| + |s.q.over[l.p]|) < cfg.queueSize)
  {
    RunSound(cfg, run, s);
    SubmitEffects(cfg, s, l);
    EnteredIff(cfg, s, l, s');
  }

  lemma EnteredIff(cfg: Config, s: State, l: Label, s': State)
    requires Fits(cfg, s) && Numbered(s) && l.Submit? && SubmitEffect(cfg, s, l, s')
    ensures Admits(cfg, s, l.p, l.flags, l.locked) <==> s.b.inc + 1 in s'.b.req
  {
  }

  // --------------------------------------------------------------------------- turns

  /** The request is last in the queue of a stage, one hop further, and the stage is signalled; no other
      queue has changed. */
  ghost predicate Queued(cfg: Config, s: State, w: nat, r: Rid, st: nat, s': State) {
    && st < |s.q.queue| && s'.q.queue == s.q.queue[st := s.q.queue[st] + [r]] && s'.q.over == s.q.over && s'.q.active == s.q.active
    && s'.e == s.e && r in s.b.req && s'.b.req == s.b.req[r := s.b.req[r].(hops := s.b.req[r].hops + 1)]
    && w < |s.t.thread| && Signalled(cfg.home, st, s.t.thread[w := Ready], s'.t.thread)
  }

  /** The request is last in the done queue, and no other queue has changed. */
  predicate Finished(s: State, w: nat, r: Rid, s': State) {
    && s'.q == s.q && s'.e == s.e.(done := s.e.done + [r]) && s'.b.req == s.b.req
    && w < |s.t.thread| && s'.t.thread == s.t.thread[w := Ready]
  }

  ghost predicate Onward(cfg: Config, s: State, w: nat, r: Rid, to: Option<nat>, s': State) {
    if to.Some? && to.value < |cfg.next| then Queued(cfg, s, w, r, to.value, s') else Finished(s, w, r, s')
  }

  /** What each verdict means: done, the same stage again, or the stage in the worker's register and
      failing that the next one. */
  ghost predicate SentOn(cfg: Config, s: State, w: nat, r: Rid, v: Verdict, s': State)
    requires Fits(cfg, s) && w < |cfg.home|
  {
    match v
    case ToDone => Finished(s, w, r, s')
    case Requeue => Queued(cfg, s, w, r, cfg.home[w], s')
    case Continue => Onward(cfg, s, w, r, if s.t.jump[w].Some? then s.t.jump[w] else cfg.next[cfg.home[w]], s')
  }

  /** What submit_next does; `again` says that the loop check struck. */
  ghost predicate TurnEffect(cfg: Config, s: State, w: nat, r: Rid, v: Verdict, s': State)
    requires Fits(cfg, s) && w < |cfg.home| && r in s.b.req
  {
    var again := v != ToDone && s.b.req[r].hops > MAX_STAGE_JUMP;
    && s'.t.hand == s.t.hand[w := []]
    && s'.t.jump == (if v == Continue && !(again && cfg.cutoffReturns) then s.t.jump[w := None] else s.t.jump)
    && s'.b.doubled == (if again && !cfg.cutoffReturns then s.b.doubled + 1 else s.b.doubled)
    && if again && cfg.cutoffReturns then Finished(s, w, r, s')
       else SentOn(cfg, if again then InDone(s, r) else s, w, r, v, s')
  }

  /** As written, the loop check leaves the request in the done queue and goes on with it. */
  function InDone(s: State, r: Rid): State {
    s.(e := s.e.(done := s.e.done + [r]), b := s.b.(doubled := s.b.doubled + 1))
  }

  lemma ToStageEffect(cfg: Config, s: State, w: nat, r: Rid, v: Verdict, st: nat, wake: set<nat>)
    requires Fits(cfg, s) && w < |cfg.home| && r in s.b.req && st < |cfg.next| && s.t.thread[w] == Busy && WakeOk(cfg, s, st, wake)
    ensures Queued(cfg, s, w, r, st, ToStage(LetGo(s, w, v, false), st, r, wake))
  {
    StillWaits(cfg.home, s.t.thread, w, st, wake);
    SignalIsSignalled(cfg.home, st, s.t.thread[w := Ready], wake);
  }

  /** A thread that was busy is not one a signal could have woken. */
  lemma StillWaits(home: seq<nat>, thread: seq<Thread>, w: nat, st: nat, wake: set<nat>)
    requires w < |thread| && thread[w] == Busy && MayWake(home, thread, st, wake)
    ensures MayWake(home, thread[w := Ready], st, wake)
  {
    if v :| 0 <= v < |thread| && v < |home| && home[v] == st && thread[w := Ready][v] == Blocked {
      assert thread[v] == Blocked;
    }
  }

  lemma ForwardEffect(cfg: Config, s: State, w: nat, r: Rid, v: Verdict, to: Option<nat>, wake: set<nat>)
    requires Fits(cfg, s) && w < |cfg.home| && r in s.b.req && s.t.thread[w] == Busy
    requires to.Some? && to.value < |cfg.next| ==> WakeOk(cfg, s, to.value, wake)
    ensures Onward(cfg, s, w, r, to, Forward(LetGo(s, w, v, false), to, r, wake))
  {
    if to.Some? && to.value < |cfg.next| {
      ToStageEffect(cfg, s, w, r, v, to.value, wake);
    }
  }

  lemma SentOnIs(cfg: Config, s: State, w: nat, r: Rid, v: Verdict, wake: set<nat>)
    requires Fits(cfg, s) && w < |cfg.home| && r in s.b.req && s.t.thread[w] == Busy
    requires var to := Target(cfg, s, w, v); to.Some? && to.value < |cfg.next| ==> WakeOk(cfg, s, to.value, wake)
    ensures SentOn(cfg, s, w, r, v, Forward(LetGo(s, w, v, false), Target(cfg, s, w, v), r, wake))
  {
    ForwardEffect(cfg, s, w, r, v, Target(cfg, s, w, v), wake);
  }

  lemma TurnSends(cfg: Config, s: State, w: nat, r: Rid, v: Verdict, wake: set<nat>)
    requires Fits(cfg, s) && w < |cfg.home| && r in s.b.req && s.t.thread[w] == Busy && SignalOk(cfg, s, w, r, v, wake)
    ensures var s' := SubmitNext(cfg, s, w, r, v, wake);
      if Stopped(cfg, s, r, v) then Finished(s, w, r, s')
      else SentOn(cfg, if Looped(s, r, v) then InDone(s, r) else s, w, r, v, s')
  {
    if !Looped(s, r, v) {
      SentOnIs(cfg, s, w, r, v, wake);
    } else if !cfg.cutoffReturns {
      assert Doubled(AppendDone(LetGo(s, w, v, false), r)) == LetGo(InDone(s, r), w, v, false);
      SentOnIs(cfg, InDone(s, r), w, r, v, wake);
    }
  }

  lemma TurnFrame(cfg: Config, s: State, w: nat, r: Rid, v: Verdict, wake: set<nat>)
    requires Fits(cfg, s) && w < |cfg.home| && r in s.b.req
    ensures var s' := SubmitNext(cfg, s, w, r, v, wake);
      && s'.t.hand == s.t.hand[w := []]
      && s'.t.jump == (if v == Continue && !Stopped(cfg, s, r, v) then s.t.jump[w := None] else s.t.jump)
      && s'.b.doubled == (if Looped(s, r, v) && !cfg.cutoffReturns then s.b.doubled + 1 else s.b.doubled)
  {
  }

  lemma TurnEffects(cfg: Config, s: State, w: nat, r: Rid, v: Verdict, wake: set<nat>)
    requires Fits(cfg, s) && w < |cfg.home| && r in s.b.req && s.t.thread[w] == Busy && SignalOk(cfg, s, w, r, v, wake)
    ensures TurnEffect(cfg, s, w, r, v, SubmitNext(cfg, s, w, r, v, wake))
  {
    TurnSends(cfg, s, w, r, v, wake);
    TurnFrame(cfg, s, w, r, v, wake);
  }

  /** The state submit_next finds: the handler may have named a stage, and the request has had its turn. */
  function AfterHandler(s: State, w: nat, r: Rid, named: Option<nat>): State
    requires w < |s.t.jump| && r in s.b.req
  {
    s.(t := s.t.(jump := s.t.jump[w := if named.Some? then named else s.t.jump[w]]),
       b := s.b.(req := s.b.req[r := s.b.req[r].(handled := s.b.req[r].handled + 1)]))
  }

  lemma HandleEffects(cfg: Config, s: State, l: Label)
    requires Enabled(cfg, s, l) && l.Handle?
    ensures var r := s.t.hand[l.w][0]; TurnEffect(cfg, AfterHandler(s, l.w, r, l.named), l.w, r, l.verdict, Apply(cfg, s, l))
  {
    var r := s.t.hand[l.w][0];
    var s1 := TurnTaken(Named(s, l.w, l.named), r);
    assert s1 == AfterHandler(s, l.w, r, l.named);
    assert SignalOk(cfg, s1, l.w, r, l.verdict, l.wake);
    TurnEffects(cfg, s1, l.w, r, l.verdict, l.wake);
  }

  /** Whatever the state, as long as the loop check does not strike: REQUEUE puts the request back behind the
      queue it came from, a verdict that ends it puts it into the done queue, and CONTINUE sends it to the
      stage its handler named in this turn. */
  lemma VerdictLaw(cfg: Config, s: State, l: Label, s': State)
    requires Enabled(cfg, s, l) && l.Handle? && s' == Apply(cfg, s, l)
    requires s.b.req[s.t.hand[l.w][0]].hops <= MAX_STAGE_JUMP
    ensures var r, st := s.t.hand[l.w][0], cfg.home[l.w];
      l.verdict == Requeue ==> s'.q.queue == s.q.queue[st := s.q.queue[st] + [r]] && s'.q.over == s.q.over && s'.e == s.e
    ensures l.verdict == ToDone ==> s'.q == s.q && s'.e == s.e.(done := s.e.done + [s.t.hand[l.w][0]])
    ensures l.verdict == Continue && l.named.Some? ==>
      var r, st := s.t.hand[l.w][0], l.named.value;
      s'.q.queue == s.q.queue[st := s.q.queue[st] + [r]] && s'.q.over == s.q.over && s'.e == s.e
    ensures s'.t.hand == s.t.hand[l.w := []]
  {
    HandleEffects(cfg, s, l);
  }

  // ------------------------------------------------------- taking, moving and answering

  /** The worker takes the oldest request of its stage. */
  lemma TakeLaw(cfg: Config, s: State, l: Label)
    requires Enabled(cfg, s, l) && l.Take?
    ensures var s', st := Apply(cfg, s, l), cfg.home[l.w];
      && s.q.queue[st] == s'.t.hand[l.w] + s'.q.queue[st] && |s'.t.hand[l.w]| == 1 && s'.t.thread == s.t.thread[l.w := Busy]
      && (forall i :: 0 <= i < |s.q.queue| && i != st ==> s'.q.queue[i] == s.q.queue[i]) && s'.q.over == s.q.over
      && (forall w :: 0 <= w < |s.t.hand| && w != l.w ==> s'.t.hand[w] == s.t.hand[w]) && s'.e == s.e && s'.b == s.b
  {
  }

  /** The overflow queue moves behind the queue of the first stage, which is signalled. */
  ghost predicate MovedBehind(cfg: Config, s: State, p: nat, s': State)
    requires Fits(cfg, s) && p < |cfg.first|
  {
    var st := cfg.first[p];
    && s'.q.queue == s.q.queue[st := s.q.queue[st] + s.q.over[p]] && s'.q.over == s.q.over[p := []]
    && s'.t.hand == s.t.hand && Signalled(cfg.home, st, s.t.thread, s'.t.thread) && s'.e == s.e && s'.b == s.b
  }

  lemma KickLaw(cfg: Config, s: State, l: Label)
    requires Enabled(cfg, s, l) && l.Kick?
    ensures MovedBehind(cfg, s, l.p, Apply(cfg, s, l))
  {
    SignalIsSignalled(cfg.home, cfg.first[l.p], s.t.thread, l.wake);
  }

  /** Is the pipeline drained for a restart? */
  predicate RestartDone(e: Events) {
    e.graceful && e.counter == 0
  }

  /** The end of an answer frees the request, and wakes everybody who waits if that was the
      last one before a restart, and otherwise nobody. */
  lemma AnswerLaw(cfg: Config, s: State, l: Label)
    requires Enabled(cfg, s, l) && l.ServeEnd?
    ensures var s', r := Apply(cfg, s, l), s.e.final[0];
      && s.e.final == [r] + s'.e.final && s'.b.req == s.b.req - {r} && s'.q == s.q && s'.t.hand == s.t.hand
      && s'.e == s.e.(final := s'.e.final, serving := false)
      && AllWoken(RestartDone(s'.e), s.t.thread, s'.t.thread)
  {
  }
}
