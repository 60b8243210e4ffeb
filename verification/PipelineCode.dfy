/**
  The pipeline as the code changes it: one object whose methods are the critical sections
  of csf/pipeline.c and csf/submit_request.c, working field by field.  A ghost trace
  records the step of the transition system each of them amounts to, so that whatever
  holds in every run holds of the object.  What the environment decides (a trylock, the
  threads a signal wakes, a handler's verdict) is left arbitrary.
*/
module PipelineCode {
  import opened PipelineState
  import opened PipelineBooks
  import opened PipelineFifo
  import opened PipelineRefs
  import opened PipelineRuns
  import opened PipelineLaws

  const SUBMIT_GENERIC_ERROR: int := -1
  const SUBMIT_QUEUE_FULL: int := -2

  lemma Extend(cfg: Config, run: seq<Label>, s: State, l: Label)
    requires RunsTo(cfg, run, s) && Enabled(cfg, s, l) && Sound(cfg, s)
    ensures RunsTo(cfg, run + [l], Apply(cfg, s, l)) && Sound(cfg, Apply(cfg, s, l))
  {
    StepSound(cfg, s, l);
    assert (run + [l])[..|run|] == run;
    assert RunsTo(cfg, run + [l], Apply(cfg, s, l));
  }

  /** A busy worker has one request in its hands, and it is a live one. */
  lemma InHand(cfg: Config, run: seq<Label>, s: State, w: nat)
    requires GoodConfig(cfg) && RunsTo(cfg, run, s) && s.b.doubled == 0 && Fits(cfg, s)
    requires w < |s.t.thread| && s.t.thread[w] == Busy
    ensures |s.t.hand[w]| == 1 && s.t.hand[w][0] in s.b.req
  {
    RunCore(cfg, run, s);
    HandLive(s, w);
  }

  lemma HandLive(s: State, w: nat)
    requires Placed(s, None) && w < |s.t.hand| && s.t.hand[w] != []
    ensures s.t.hand[w][0] in s.b.req
  {
    var r := s.t.hand[w][0];
    OccUpdate(s.t.hand, w, [], r);
    OccFirst(s.t.hand[w], r);
    assert Count(s, r) + 0 == if r in s.b.req then 1 else 0;
  }

  /** The handler's turn followed by submit_next is the Handle step. */
  lemma HandleIs(cfg: Config, s: State, w: nat, r: Rid, v: Verdict, named: Option<nat>, wake: set<nat>)
    requires Fits(cfg, s) && w < |cfg.home| && s.t.thread[w] == Busy && s.t.hand[w] == [r] && r in s.b.req
    requires named.Some? ==> named.value < |cfg.next|
    requires SignalOk(cfg, TurnTaken(Named(s, w, named), r), w, r, v, wake)
    ensures var l := Handle(w, v, named, wake);
      Enabled(cfg, s, l) && Apply(cfg, s, l) == SubmitNext(cfg, TurnTaken(Named(s, w, named), r), w, r, v, wake)
  {
    var s1, s2 := Named(s, w, named), TurnTaken(Named(s, w, named), r);
    assert Target(cfg, s1, w, v) == Target(cfg, s2, w, v) && Stopped(cfg, s1, r, v) == Stopped(cfg, s2, r, v);
    assert SignalOk(cfg, s1, w, r, v, wake);
  }

  ghost predicate Answerable(s: State) {
    && s.e.final != [] && s.e.final[0] in s.b.req
    && Lasting(s.b.net, s.b.req[s.e.final[0]].conn)
  }

  /** The connection state is in memory, and outlasts a disconnect. */
  ghost predicate Lasting(net: Net, c: nat) {
    && c in net.live && net.live[c].refs > 0
    && (net.live[c].open ==> c in CloseConn(net, c).live && CloseConn(net, c).live[c].refs > 0)
  }

  /** The request to be answered is live, and so is its connection, even after a disconnect. */
  lemma AnswerLive(cfg: Config, run: seq<Label>, s: State)
    requires GoodConfig(cfg) && RunsTo(cfg, run, s) && s.b.doubled == 0 && s.e.final != []
    ensures Answerable(s)
  {
    RunCore(cfg, run, s);
    FinalLive(s);
    AnswerTouchesLive(s, s.e.final[0]);
  }

  lemma FinalLive(s: State)
    requires Placed(s, None) && s.e.final != []
    ensures s.e.final[0] in s.b.req
  {
    OccFirst(s.e.final, s.e.final[0]);
    assert Count(s, s.e.final[0]) + 0 == if s.e.final[0] in s.b.req then 1 else 0;
  }

  /** The first of the final requests has been counted down and cleaned up, and no other; everybody who waits
      is woken if that was the last one before a restart, and otherwise nobody. */
  ghost predicate AnsweredFirst(s: State, s': State) {
    && s.e.final != [] && s'.e.final == s.e.final[1..] && s'.b.req == s.b.req - {s.e.final[0]}
    && s'.e.graceful == s.e.graceful && AllWoken(RestartDone(s'.e), s.t.thread, s'.t.thread)
    && s'.e.counter == U64(s.e.counter - 1) && s'.e.serving == false && s'.b.doubled == s.b.doubled
    && s'.q == s.q && s'.e.done == s.e.done && s'.t.hand == s.t.hand
  }

  lemma EndedIs(s: State, disconnect: bool)
    requires s.e.final != [] && s.e.final[0] in s.b.req
    ensures AnsweredFirst(s, Ended(Begun(s), disconnect))
  {
  }

  function CountAfter(counter: nat, j: nat): nat {
    U64(counter - j)
  }

  /** The counter is zero after one of the first `k` answers. */
  ghost predicate PassesZero(counter: nat, k: nat) {
    exists j :: 1 <= j <= k && CountAfter(counter, j) == 0
  }

  /** The first `k` have been answered; everybody is woken if the counter came to zero in a restart. */
  ghost predicate AnsweredUpTo(s: State, s': State, k: nat) {
    && s'.e.graceful == s.e.graceful && AllWoken(s.e.graceful && PassesZero(s.e.counter, k), s.t.thread, s'.t.thread)
    && k <= |s.e.final| && s'.e.final == s.e.final[k..] && s'.b.req == s.b.req - (set r | r in s.e.final[..k])
    && s'.e.counter == U64(s.e.counter - k) && s'.e.serving == false && s'.b.doubled == s.b.doubled
    && s'.q == s.q && s'.e.done == s.e.done && s'.t.hand == s.t.hand
  }

  lemma NoAnswerYet(s: State)
    requires s.e.counter < TWO64 && !s.e.serving
    ensures AnsweredUpTo(s, s, 0)
  {
    assert s.b.req - {} == s.b.req;
  }

  lemma OneAnswerMore(s: State, s1: State, s2: State, k: nat)
    requires AnsweredUpTo(s, s1, k) && AnsweredFirst(s1, s2)
    ensures AnsweredUpTo(s, s2, k + 1)
  {
    var all := s.e.final;
    assert all[..k + 1] == all[..k] + [all[k]];
    assert s1.e.final[0] == all[k] && s1.e.final[1..] == all[k + 1..];
    WrapSum(s.e.counter - k, -1, TWO64);
    PassesZeroStep(s.e.counter, k);
  }

  lemma PassesZeroStep(counter: nat, k: nat)
    ensures PassesZero(counter, k + 1) <==> PassesZero(counter, k) || CountAfter(counter, k + 1) == 0
  {
  }

  /** How many requests the handler has answered: the final ones, and the done ones if it got hold of them. */
  function Answers(e: Events, e': Events): nat {
    |e.final| + if e'.done == [] then |e.done| else 0
  }

  /** They are counted down and freed, and nothing is left in the final queue. */
  ghost predicate Responded(e: Events, req: map<Rid, Request>, e': Events, req': map<Rid, Request>) {
    && e'.final == [] && !e'.serving && e'.graceful == e.graceful && e'.counter == U64(e.counter - Answers(e, e'))
    && (e'.done == [] ==> req' == req - (set r | r in e.final + e.done))
    && (e'.done != [] ==> e'.done == e.done && req' == req - (set r | r in e.final))
  }

  lemma RespondedIs(s: State, s1: State, s2: State)
    requires s.e.done != [] && s1 == s.(e := s1.e) && AnsweredUpTo(s1, s2, |s1.e.final|)
    requires s1.e == s.e || s1.e == s.e.(final := s.e.final + s.e.done, done := [])
    ensures Responded(s.e, s.b.req, s2.e, s2.b.req) && s2.b.doubled == s.b.doubled && s2.t.hand == s.t.hand
    ensures AllWoken(s.e.graceful && PassesZero(s.e.counter, Answers(s.e, s2.e)), s.t.thread, s2.t.thread)
  {
    var all := s1.e.final;
    assert all[..|all|] == all && all[|all|..] == [];
  }

  lemma KickedThenWoken(cfg: Config, moved: set<nat>, t0: seq<Thread>, t1: seq<Thread>, t2: seq<Thread>)
    requires KickedThreads(cfg, moved, t0, t1)
    ensures AllWoken(true, t1, t2) ==> AllWoken(true, t0, t2)
    ensures AllWoken(false, t1, t2) ==> KickedThreads(cfg, moved, t0, t2)
  {
    if AllWoken(false, t1, t2) {
      assert t2 == t1;
    }
  }

  /** A thread that was busy is not one a signal could have woken. */
  lemma SameWake(home: seq<nat>, thread: seq<Thread>, w: nat, st: nat, wake: set<nat>)
    requires w < |thread| && thread[w] == Busy && MayWake(home, thread[w := Ready], st, wake)
    ensures MayWake(home, thread, st, wake)
  {
    if v :| 0 <= v < |thread| && v < |home| && home[v] == st && thread[v] == Blocked {
      assert thread[w := Ready][v] == Blocked;
    }
  }

  // ---------------------------------------------------------------------- the sweep

  /** A waiting request moves to the final queue. */
  function TakeOut(s: State, st: nat, pos: nat): State
    requires st < |s.q.queue| && st < |s.q.queueLen| && pos < |s.q.queue[st]|
  {
    s.(q := s.q.(queue := s.q.queue[st := s.q.queue[st][..pos] + s.q.queue[st][pos + 1..]],
                 queueLen := s.q.queueLen[st := U32(s.q.queueLen[st] as int - 1)]),
       e := s.e.(counter := U64(s.e.counter - 1), final := s.e.final + [s.q.queue[st][pos]], kicked := s.e.kicked + 1))
  }

  /** The sweep has passed the first `i` of the requests. */
  function HalfSwept(s: State, st: nat, i: nat, now: int, timeout: nat): State
    requires st < |s.q.queue| && st < |s.q.queueLen| && i <= |s.q.queue[st]|
  {
    var q := s.q.queue[st];
    var out := Swept(q[..i], s.b.req, now, timeout);
    s.(q := s.q.(queue := s.q.queue[st := Kept(q[..i], s.b.req, now, timeout) + q[i..]],
                 queueLen := s.q.queueLen[st := U32(s.q.queueLen[st] - |out|)]),
       e := s.e.(counter := U64(s.e.counter - |out|), final := s.e.final + out, kicked := s.e.kicked + |out|))
  }

  lemma SweepEnds(s: State, st: nat, now: int, timeout: nat)
    requires st < |s.q.queue| && st < |s.q.queueLen| && s.q.queueLen[st] < TWO32 && s.e.counter < TWO64
    ensures HalfSwept(s, st, 0, now, timeout) == s
    ensures HalfSwept(s, st, |s.q.queue[st]|, now, timeout) == Sweep(s, st, now, timeout)
  {
    var q := s.q.queue[st];
    assert q[..0] == [] && q[0..] == q && q[..|q|] == q;
    assert [] + q == q && s.e.final + [] == s.e.final;
    assert Kept(q, s.b.req, now, timeout) + q[|q|..] == Kept(q, s.b.req, now, timeout);
  }

  lemma SweepOut(s: State, st: nat, i: nat, now: int, timeout: nat)
    requires st < |s.q.queue| && st < |s.q.queueLen| && i < |s.q.queue[st]| && Expired(s.b.req, s.q.queue[st][i], now, timeout)
    ensures var pos := |Kept(s.q.queue[st][..i], s.b.req, now, timeout)|; var s1 := HalfSwept(s, st, i, now, timeout);
      && pos < |s1.q.queue[st]| && HalfSwept(s, st, i + 1, now, timeout) == TakeOut(s1, st, pos)
      && |Kept(s.q.queue[st][..i + 1], s.b.req, now, timeout)| == pos
  {
    var q := s.q.queue[st];
    var kept, out := Kept(q[..i], s.b.req, now, timeout), Swept(q[..i], s.b.req, now, timeout);
    assert q[..i + 1][..i] == q[..i] && q[i..] == [q[i]] + q[i + 1..];
    assert (kept + q[i..])[..|kept|] == kept && (kept + q[i..])[|kept| + 1..] == q[i + 1..];
    WrapSum(s.q.queueLen[st] - |out|, -1, TWO32);
    WrapSum(s.e.counter - |out|, -1, TWO64);
    assert s.e.final + out + [q[i]] == s.e.final + (out + [q[i]]);
    assert kept + [] == kept;
  }

  lemma SweepPast(s: State, st: nat, i: nat, now: int, timeout: nat)
    requires st < |s.q.queue| && st < |s.q.queueLen| && i < |s.q.queue[st]| && !Expired(s.b.req, s.q.queue[st][i], now, timeout)
    ensures HalfSwept(s, st, i + 1, now, timeout) == HalfSwept(s, st, i, now, timeout)
    ensures |Kept(s.q.queue[st][..i + 1], s.b.req, now, timeout)| == |Kept(s.q.queue[st][..i], s.b.req, now, timeout)| + 1
  {
    var q := s.q.queue[st];
    var kept, out := Kept(q[..i], s.b.req, now, timeout), Swept(q[..i], s.b.req, now, timeout);
    assert q[..i + 1][..i] == q[..i] && q[i..] == [q[i]] + q[i + 1..];
    assert kept + q[i..] == kept + [q[i]] + q[i + 1..];
    assert out + [] == out;
  }

  // ---------------------------------------------------------------------- the submit

  /** The count of waiting requests goes up by one. */
  function CountUp(s: State): State {
    s.(e := s.e.(counter := U64(s.e.counter + 1)))
  }

  /** The request has its number and its hold on the connection. */
  function Alloc(s: State, p: nat, c: nat, now: int): State
    requires c in s.b.net.live
  {
    s.(b := s.b.(inc := s.b.inc + 1, req := s.b.req[s.b.inc + 1 := Request(c, p, now, 0, 0)], net := Hold(s.b.net, c)))
  }

  lemma KickThenCount(s: State, st: nat)
    requires st < |s.q.queue| && st < |s.q.queueLen| && s.q.queue[st] != []
    ensures KickOut(CountUp(s), st) == CountUp(KickOut(s, st))
  {
    CountCommutes(s.e.counter, 1);
  }

  lemma SweepThenCount(s: State, st: nat, now: int, timeout: nat)
    requires st < |s.q.queue| && st < |s.q.queueLen|
    ensures Sweep(CountUp(s), st, now, timeout) == CountUp(Sweep(s, st, now, timeout))
  {
    CountCommutes(s.e.counter, |Swept(s.q.queue[st], s.b.req, now, timeout)|);
  }

  /** Making room and counting up may be done in either order. */
  lemma RoomThenCount(cfg: Config, s: State, st: nat, flags: Flags, now: int)
    requires st < |s.q.queue| && st < |s.q.queueLen|
    ensures MakeRoom(cfg, CountUp(s), st, flags, now) == CountUp(MakeRoom(cfg, s, st, flags, now))
  {
    if flags.force && flags.kickOut && s.q.queueLen[st] >= cfg.queueSize && s.q.queue[st] != [] {
      KickThenCount(s, st);
      SweepThenCount(KickOut(s, st), st, now, cfg.timeout);
    } else {
      SweepThenCount(s, st, now, cfg.timeout);
    }
  }

  lemma CountCommutes(x: int, d: int)
    ensures U64(U64(x + 1) - d) == U64(U64(x - d) + 1)
  {
    WrapSum(x + 1, -d, TWO64);
    WrapSum(x - d, 1, TWO64);
  }

  /** send_to_pipeline. */
  function Sent(cfg: Config, s: State, p: nat, r: Rid, flags: Flags, now: int, locked: bool, wake: set<nat>): State
    requires Fits(cfg, s) && p < |cfg.first|
  {
    if locked && StageFull(cfg, s, p, flags) then Relieved(cfg, s, p)
    else if locked then SendLocked(cfg, CountUp(s), p, r, flags, now, wake)
    else SendOverflow(CountUp(s), p, r)
  }

  lemma SignalIs(cfg: Config, s: State, w: nat, r: Rid, v: Verdict, wake: set<nat>)
    requires Fits(cfg, s) && w < |s.t.hand| && r in s.b.req && s.t.thread[w] == Busy
    requires var next := Target(cfg, s, w, v);
      next.Some? && next.value < |cfg.next| ==> MayWake(cfg.home, s.t.thread[w := Ready], next.value, wake)
    ensures SignalOk(cfg, s, w, r, v, wake)
  {
    var next := Target(cfg, s, w, v);
    if next.Some? && next.value < |cfg.next| {
      SameWake(cfg.home, s.t.thread, w, next.value, wake);
    }
  }

  const TWO56: nat := 0x100_0000_0000_0000

  /** The tid: seven bits of the pipeline above 56 bits of the number, in 64 bits, as a signed integer. */
  function TransactionId(p: nat, inc: nat): int {
    var tid := U64((p % 128) * TWO56 + U64(inc));
    if tid < TWO64 / 2 then tid else tid - TWO64
  }

  /** Ids do not repeat, and are no error codes, as long as the numbers fit their 56 bits ... */
  lemma TidsApart(p: nat, inc: nat, p': nat, inc': nat)
    requires inc < TWO56 && inc' < TWO56
    ensures TransactionId(p, inc) >= 0
    ensures TransactionId(p, inc) == TransactionId(p', inc') <==> p % 128 == p' % 128 && inc == inc'
  {
    TidIs(p, inc);
    TidIs(p', inc');
  }

  lemma TidIs(p: nat, inc: nat)
    requires inc < TWO56
    ensures TransactionId(p, inc) == (p % 128) * TWO56 + inc < TWO64 / 2
  {
    assert p % 128 <= 127;
  }

  /** ... and no longer: after 2^56 requests the ids of a pipeline are those of the next one. */
  lemma TidsMeet(p: nat, inc: nat)
    requires p % 128 < 127 && inc + TWO56 < TWO64
    ensures TransactionId(p, inc + TWO56) == TransactionId(p + 1, inc)
  {
    assert (p + 1) % 128 == p % 128 + 1;
    assert (p % 128) * TWO56 + (inc + TWO56) == ((p + 1) % 128) * TWO56 + inc;
  }

  /** The request is allocated, then sent; a refused one is dropped on the floor. */
  lemma SentIs(cfg: Config, s: State, p: nat, c: nat, flags: Flags, now: int)
    requires Fits(cfg, s) && c in s.b.net.live && !Refused(cfg, s, p, flags)
    ensures var a, r := Alloc(s, p, c, now), s.b.inc + 1;
      && StageFull(cfg, a, p, flags) == StageFull(cfg, s, p, flags)
      && (StageFull(cfg, s, p, flags) ==>
            Relieved(cfg, a, p).(b := a.b.(req := s.b.req, leaked := s.b.leaked[r := a.b.req[r]])) == Leak(Relieved(cfg, s, p), p, c, now))
      && CountUp(a) == Register(s, p, c, now)
  {
  }

  /** The run went on with kicks of these pipelines: exactly their overflow queues were emptied, behind the
      queues of their first stages, and no other queue has changed. */
  ghost predicate Kicked(cfg: Config, run: seq<Label>, s: State, run': seq<Label>, s': State, moved: set<nat>) {
    && run <= run' && OnlyKicks(run'[|run|..], moved) && s'.e == s.e && s'.b == s.b && s'.t.hand == s.t.hand
    && KickedQueues(cfg, s.q, s'.q, moved) && KickedThreads(cfg, moved, s.t.thread, s'.t.thread)
  }

  predicate StartsAt(cfg: Config, moved: set<nat>, st: nat) {
    exists p :: p in moved && p < |cfg.first| && cfg.first[p] == st
  }

  ghost predicate KickedQueues(cfg: Config, q: Queues, q': Queues, moved: set<nat>) {
    && |q'.over| == |q.over| == |cfg.first| && |q'.queue| == |q.queue| == |cfg.next| && (forall p :: p in moved ==> p < |cfg.first|)
    && (forall p :: 0 <= p < |q.over| ==> q'.over[p] == if p in moved then [] else q.over[p])
    && (forall st :: 0 <= st < |q.queue| && !StartsAt(cfg, moved, st) ==> q'.queue[st] == q.queue[st])
    && (OwnFirst(cfg) ==> forall p :: p in moved && cfg.first[p] < |q.queue| ==> q'.queue[cfg.first[p]] == q.queue[cfg.first[p]] + q.over[p])
  }

  /** At each of their first stages a thread that waited has been woken, if any did, and nobody elsewhere. */
  ghost predicate KickedThreads(cfg: Config, moved: set<nat>, before: seq<Thread>, after: seq<Thread>) {
    && |after| == |before| == |cfg.home| && (forall p :: p in moved ==> p < |cfg.first|)
    && (forall w :: 0 <= w < |before| ==>
          after[w] == before[w] || (before[w] == Blocked && after[w] == Woken && StartsAt(cfg, moved, cfg.home[w])))
    && (forall p :: p in moved ==> OneUp(cfg.home, cfg.first[p], before, after))
  }

  ghost predicate OneUp(home: seq<nat>, st: nat, before: seq<Thread>, after: seq<Thread>) {
    (exists w :: 0 <= w < |before| && Waits(home, st, before, w)) ==>
      exists w :: 0 <= w < |before| && w < |after| && Waits(home, st, before, w) && after[w] == Woken
  }

  lemma NobodyKicked(cfg: Config, run: seq<Label>, s: State)
    requires Fits(cfg, s)
    ensures Kicked(cfg, run, s, run, s, {})
  {
    assert run[|run|..] == [];
  }

  lemma SignalledOneUp(home: seq<nat>, st: nat, t0: seq<Thread>, t1: seq<Thread>, t2: seq<Thread>)
    requires |t0| == |t1| && Signalled(home, st, t1, t2)
    requires forall w :: 0 <= w < |t0| ==> t1[w] == t0[w] || (t0[w] == Blocked && t1[w] == Woken)
    ensures OneUp(home, st, t0, t2)
  {
    if w :| 0 <= w < |t0| && Waits(home, st, t0, w) {
      if t1[w] == Blocked {
        assert Waits(home, st, t1, w);
        var v :| 0 <= v < |t1| && t1[v] == Blocked && t2[v] == Woken;
        assert Waits(home, st, t0, v);
      } else {
        assert t2[w] == Woken;
      }
    }
  }

  lemma StillOneUp(home: seq<nat>, st: nat, st': nat, t0: seq<Thread>, t1: seq<Thread>, t2: seq<Thread>)
    requires |t0| == |t1| && OneUp(home, st, t0, t1) && Signalled(home, st', t1, t2)
    ensures OneUp(home, st, t0, t2)
  {
  }

  lemma KickedThreadsStep(cfg: Config, moved: set<nat>, p: nat, t0: seq<Thread>, t1: seq<Thread>, t2: seq<Thread>)
    requires KickedThreads(cfg, moved, t0, t1) && p < |cfg.first| && Signalled(cfg.home, cfg.first[p], t1, t2)
    ensures KickedThreads(cfg, moved + {p}, t0, t2)
  {
    var moved' := moved + {p};
    forall w | 0 <= w < |t0| ensures t2[w] == t0[w] || (t0[w] == Blocked && t2[w] == Woken && StartsAt(cfg, moved', cfg.home[w])) {
      if t1[w] != t0[w] {
        var x :| x in moved && x < |cfg.first| && cfg.first[x] == cfg.home[w];
        assert x in moved';
      } else if t2[w] != t1[w] {
        assert p in moved';
      }
    }
    forall x | x in moved' ensures OneUp(cfg.home, cfg.first[x], t0, t2) {
      if x == p {
        SignalledOneUp(cfg.home, cfg.first[p], t0, t1, t2);
      } else {
        StillOneUp(cfg.home, cfg.first[x], cfg.first[p], t0, t1, t2);
      }
    }
  }

  lemma KickedQueuesStep(cfg: Config, moved: set<nat>, p: nat, q0: Queues, q1: Queues, q2: Queues)
    requires KickedQueues(cfg, q0, q1, moved) && p < |cfg.first| && p !in moved && cfg.first[p] < |cfg.next|
    requires q2.queue == q1.queue[cfg.first[p] := q1.queue[cfg.first[p]] + q1.over[p]] && q2.over == q1.over[p := []]
    ensures KickedQueues(cfg, q0, q2, moved + {p})
  {
    var moved', st := moved + {p}, cfg.first[p];
    forall i | 0 <= i < |q0.queue| && !StartsAt(cfg, moved', i) ensures q2.queue[i] == q0.queue[i] {
      assert p in moved' && forall x :: x in moved ==> x in moved';
    }
    if OwnFirst(cfg) {
      assert !StartsAt(cfg, moved, st);
    }
  }

  /** One more kick. */
  lemma KickedStep(cfg: Config, run: seq<Label>, s: State, run1: seq<Label>, s1: State, moved: set<nat>, l: Label, s2: State)
    requires Kicked(cfg, run, s, run1, s1, moved) && l.Kick? && l.p < |cfg.first| && l.p !in moved
    requires Fits(cfg, s1) && MovedBehind(cfg, s1, l.p, s2)
    ensures Kicked(cfg, run, s, run1 + [l], s2, moved + {l.p})
  {
    assert (run1 + [l])[|run|..] == run1[|run|..] + [l];
    KickedThreadsStep(cfg, moved, l.p, s.t.thread, s1.t.thread, s2.t.thread);
    KickedQueuesStep(cfg, moved, l.p, s.q, s1.q, s2.q);
  }

  ghost predicate OnlyKicks(steps: seq<Label>, moved: set<nat>) {
    forall i :: 0 <= i < |steps| ==> steps[i].Kick? && steps[i].p in moved
  }

  class Pipeline {
    const cfg: Config
    var q: Queues
    var t: Crew
    var e: Events
    var b: Ledger
    var doneLen: nat              // queue_len of the done queue
    ghost var trace: seq<Label>

    ghost function Snapshot(): State
      reads this
    {
      State(q, t, e, b)
    }

    ghost predicate Fit()
      reads this
    {
      Fits(cfg, Snapshot())
    }

    /** The fields are what the trace leads to. */
    ghost predicate Valid()
      reads this
    {
      cfg.queueSize > 0 && Sound(cfg, Snapshot()) && RunsTo(cfg, trace, Snapshot()) && DoneCounted()
    }

    ghost predicate DoneCounted()
      reads this
    {
      doneLen == U32(|e.done|)
    }

    constructor (cfg: Config)
      requires Wired(cfg) && cfg.queueSize > 0
      ensures Valid() && this.cfg == cfg && trace == []
    {
      this.cfg := cfg;
      q := Queues(seq(|cfg.next|, _ => []), seq(|cfg.next|, _ => 0), seq(|cfg.first|, _ => []), seq(|cfg.first|, _ => 0), []);
      t := Crew(seq(|cfg.home|, _ => []), seq(|cfg.home|, _ => None), seq(|cfg.home|, _ => Ready));
      e, doneLen := Events([], [], false, 0, 0, false), 0;
      b := Ledger(0, map[], map[], Net(map[], {}), 0);
      trace := [];
    }

    /** The step has been made. */
    ghost method Record(s: State, l: Label)
      requires cfg.queueSize > 0 && Sound(cfg, s) && RunsTo(cfg, trace, s) && Enabled(cfg, s, l)
      requires Snapshot() == Apply(cfg, s, l) && DoneCounted()
      modifies this`trace
      ensures Valid() && trace == old(trace) + [l]
    {
      Extend(cfg, trace, s, l);
      trace := trace + [l];
    }

    /** pthread_cond_signal */
    method Signal(st: nat) returns (wake: set<nat>)
      requires Fit()
      modifies this`t
      ensures WakeOk(cfg, old(Snapshot()), st, wake) && Snapshot() == Wake(old(Snapshot()), wake)
    {
      if w :| 0 <= w < |t.thread| && cfg.home[w] == st && t.thread[w] == Blocked {
        assert MayWake(cfg.home, t.thread, st, {w});
      } else {
        assert MayWake(cfg.home, t.thread, st, {});
      }
      wake :| MayWake(cfg.home, t.thread, st, wake);
      t := t.(thread := WakeThreads(t.thread, wake));
    }

    method InsertTail(st: nat, r: Rid)
      requires Fit() && st < |q.queue|
      modifies this`q
      ensures Snapshot() == AppendStage(old(Snapshot()), st, r)
    {
      q := q.(queue := q.queue[st := q.queue[st] + [r]], queueLen := q.queueLen[st := U32(q.queueLen[st] + 1)]);
    }

    method ToNextStage(st: nat, r: Rid) returns (wake: set<nat>)
      requires Fit() && st < |q.queue| && r in b.req
      modifies this`q, this`b, this`t
      ensures WakeOk(cfg, old(Snapshot()), st, wake)
      ensures Snapshot() == ToStage(old(Snapshot()), st, r, wake)
    {
      InsertTail(st, r);
      b := b.(req := b.req[r := b.req[r].(hops := b.req[r].hops + 1)]);
      wake := Signal(st);
    }

    method ToDoneStage(r: Rid)
      modifies this`e, this`doneLen
      ensures Snapshot() == AppendDone(old(Snapshot()), r) && (old(DoneCounted()) ==> DoneCounted())
    {
      WrapSum(|e.done|, 1, TWO32);
      e := e.(done := e.done + [r]);
      doneLen := U32(doneLen + 1);
    }

    // ------------------------------------------------------------------ submits

    method MoveToFinal(st: nat, pos: nat)
      requires Fit() && st < |q.queue| && pos < |q.queue[st]|
      modifies this`q, this`e
      ensures Snapshot() == TakeOut(old(Snapshot()), st, pos)
    {
      var line := q.queue[st];
      q := q.(queue := q.queue[st := line[..pos] + line[pos + 1..]]);
      e := e.(counter := U64(e.counter - 1));
      q := q.(queueLen := q.queueLen[st := U32(q.queueLen[st] as int - 1)]);
      e := e.(final := e.final + [line[pos]], kicked := e.kicked + 1);
    }

    /** The timeout sweep: every expired request of a stage moves to the final queue. */
    method SweepStage(st: nat, now: int)
      requires Fit() && st < |q.queue| && q.queueLen[st] < TWO32 && e.counter < TWO64
      modifies this`q, this`e
      ensures Snapshot() == Sweep(old(Snapshot()), st, now, cfg.timeout)
    {
      ghost var s := Snapshot();
      var line := q.queue[st];
      var i, pos := 0, 0;
      SweepEnds(s, st, now, cfg.timeout);
      while i < |line|
        invariant i <= |line| && pos == |Kept(line[..i], b.req, now, cfg.timeout)|
        invariant Snapshot() == HalfSwept(s, st, i, now, cfg.timeout)
      {
        if line[i] in b.req && now - b.req[line[i]].clock > cfg.timeout {
          SweepOut(s, st, i, now, cfg.timeout);
          MoveToFinal(st, pos);
        } else {
          SweepPast(s, st, i, now, cfg.timeout);
          pos := pos + 1;
        }
        i := i + 1;
      }
    }

    /** The overflow queue moves behind the first stage's queue. */
    method MoveOverflow(p: nat)
      requires Fit() && p < |q.over|
      modifies this`q
      ensures Snapshot() == Concat(cfg, old(Snapshot()), p)
    {
      var st := cfg.first[p];
      q := q.(queue := q.queue[st := q.queue[st] + q.over[p]], over := q.over[p := []]);
      q := q.(queueLen := q.queueLen[st := U32(q.queueLen[st] + q.overLen[p])]);
      q := q.(overLen := q.overLen[p := 0]);
      q := q.(active := Without(q.active, p));
    }

    /** The kick-out of the oldest waiting request, and the timeout sweep. */
    method Room(st: nat, flags: Flags, now: int)
      requires Lengths(cfg, Snapshot()) && st < |q.queue| && cfg.queueSize > 0 && e.counter < TWO64
      modifies this`q, this`e
      ensures Snapshot() == MakeRoom(cfg, old(Snapshot()), st, flags, now)
    {
      if flags.force && flags.kickOut && q.queueLen[st] >= cfg.queueSize {
        assert q.queue[st][..0] + q.queue[st][1..] == q.queue[st][1..];
        MoveToFinal(st, 0);
      }
      if flags.timeOut && cfg.timeout != 0 {
        SweepStage(st, now);
      }
    }

    method Overflow(p: nat, r: Rid)
      requires Fit() && p < |q.over|
      modifies this`q
      ensures Snapshot() == SendOverflow(old(Snapshot()), p, r)
    {
      q := q.(over := q.over[p := q.over[p] + [r]]);
      q := q.(overLen := q.overLen[p := U32(q.overLen[p] + 1)]);
      if p !in q.active {
        q := q.(active := q.active + [p]);
      }
    }

    /** send_to_pipeline past the second check, still holding the lock. */
    method Deliver(p: nat, r: Rid, flags: Flags, now: int) returns (wake: set<nat>)
      requires Lengths(cfg, Snapshot()) && p < |q.over| && cfg.queueSize > 0 && e.counter < TWO64
      modifies this`q, this`e, this`t
      ensures WakeOk(cfg, old(Snapshot()), cfg.first[p], wake)
      ensures var s, st := old(Snapshot()), cfg.first[p];
        Snapshot() == Wake(AppendStage(MakeRoom(cfg, CountUp(s), st, flags, now), st, r), wake)
    {
      var st := cfg.first[p];
      RoomThenCount(cfg, Snapshot(), st, flags, now);
      Room(st, flags, now);
      e := e.(counter := U64(e.counter + 1));
      InsertTail(st, r);
      wake := Signal(st);
    }

    method SendToPipeline(p: nat, r: Rid, flags: Flags, now: int, concat: bool) returns (rc: int, locked: bool, wake: set<nat>)
      requires Lengths(cfg, Snapshot()) && p < |q.over| && cfg.queueSize > 0 && e.counter < TWO64 && (concat <==> q.over[p] != [])
      modifies this`q, this`e, this`t
      ensures rc == if locked && StageFull(cfg, old(Snapshot()), p, flags) then SUBMIT_QUEUE_FULL else 0
      ensures locked && rc == 0 ==> WakeOk(cfg, old(Snapshot()), cfg.first[p], wake)
      ensures Snapshot() == Sent(cfg, old(Snapshot()), p, r, flags, now, locked, wake)
    {
      rc, locked, wake := 0, *, {};
      if !locked {
        e := e.(counter := U64(e.counter + 1));
        Overflow(p, r);
        return;
      }
      if concat {
        ConcatLengths(cfg, Snapshot(), p);
        MoveOverflow(p);
      }
      if !flags.force && q.queueLen[cfg.first[p]] >= cfg.queueSize {
        rc := SUBMIT_QUEUE_FULL;
        return;
      }
      wake := Deliver(p, r, flags, now);
    }

    // ------------------------------------------------------------------ workers

    /** On to a stage, or to the done queue if there is none. */
    method GoOn(next: Option<nat>, r: Rid) returns (wake: set<nat>)
      requires Fit() && r in b.req
      modifies this`q, this`b, this`t, this`e, this`doneLen
      ensures Snapshot() == Forward(old(Snapshot()), next, r, wake) && (old(DoneCounted()) ==> DoneCounted())
      ensures next.Some? && next.value < |cfg.next| ==> WakeOk(cfg, old(Snapshot()), next.value, wake)
    {
      wake := {};
      if next.Some? && next.value < |q.queue| {
        wake := ToNextStage(next.value, r);
      } else {
        ToDoneStage(r);
      }
    }

    method NextStage(w: nat, v: Verdict) returns (next: Option<nat>)
      requires Fit() && w < |t.hand|
      ensures next == Target(cfg, Snapshot(), w, v)
    {
      next := None;
      if v == Requeue {
        next := Some(cfg.home[w]);
      } else if v == Continue {
        next := if t.jump[w].Some? then t.jump[w] else cfg.next[cfg.home[w]];
      }
    }

    method Release(w: nat, v: Verdict, stopped: bool)
      requires Fit() && w < |t.hand|
      modifies this`t
      ensures Snapshot() == LetGo(old(Snapshot()), w, v, stopped)
    {
      t := t.(hand := t.hand[w := []], thread := t.thread[w := Ready]);
      if v == Continue && !stopped {
        t := t.(jump := t.jump[w := None]);
      }
    }

    /** submit_next, with the verdicts FAILED, BREAK and unknown ones as ToDone. */
    method SubmitNext(w: nat, r: Rid, v: Verdict) returns (wake: set<nat>)
      requires Fit() && w < |t.hand| && t.hand[w] == [r] && r in b.req && t.thread[w] == Busy
      modifies this`q, this`b, this`t, this`e, this`doneLen
      ensures old(DoneCounted()) ==> DoneCounted()
      ensures SignalOk(cfg, old(Snapshot()), w, r, v, wake)
      ensures Snapshot() == PipelineState.SubmitNext(cfg, old(Snapshot()), w, r, v, wake)
      ensures TurnEffect(cfg, old(Snapshot()), w, r, v, Snapshot())
    {
      ghost var s := Snapshot();
      wake := PassOn(w, r, v);
      TurnEffects(cfg, s, w, r, v, wake);
    }

    method PassOn(w: nat, r: Rid, v: Verdict) returns (wake: set<nat>)
      requires Fit() && w < |t.hand| && t.hand[w] == [r] && r in b.req && t.thread[w] == Busy
      modifies this`q, this`b, this`t, this`e, this`doneLen
      ensures old(DoneCounted()) ==> DoneCounted()
      ensures SignalOk(cfg, old(Snapshot()), w, r, v, wake)
      ensures Snapshot() == PipelineState.SubmitNext(cfg, old(Snapshot()), w, r, v, wake)
    {
      wake := {};
      ghost var s := Snapshot();
      var next := NextStage(w, v);
      var looped := v != ToDone && b.req[r].hops > MAX_STAGE_JUMP;
      if looped {
        ToDoneStage(r);
        if cfg.cutoffReturns {
          Release(w, v, true);
          return;
        }
        b := b.(doubled := b.doubled + 1);
      }
      Release(w, v, false);
      assert Snapshot() == if looped then Doubled(AppendDone(LetGo(s, w, v, false), r)) else LetGo(s, w, v, false);
      wake := GoOn(next, r);
      SignalIs(cfg, s, w, r, v, wake);
    }

    // ------------------------------------------- critical sections, one step each

    /** submit_request. */
    method SubmitRequest(p: nat, c: nat, flags: Flags, now: int) returns (tid: int, ghost l: Label)
      requires Valid() && c in b.net.live && |b.req| + 1 < TWO64
      modifies this
      ensures Valid() && trace == old(trace) + [l]
      ensures l.Submit? && l.p == p && l.c == c && l.flags == flags && l.now == now
      ensures SubmitEffect(cfg, old(Snapshot()), l, Snapshot())
      ensures old(b.inc) + 1 in b.req <==>
        && p < |cfg.first| && old(!e.graceful) && (flags.force || old(e.counter) < cfg.queueSize)
        && (l.locked && !flags.force ==> U32(|old(q.queue[cfg.first[p]])| + |old(q.over[p])|) < cfg.queueSize)
      ensures tid == if Admits(cfg, old(Snapshot()), p, flags, l.locked) then TransactionId(p, old(b.inc) + 1)
        else if p < |cfg.first| && old(!e.graceful) && !flags.force && old(e.counter) >= cfg.queueSize then SUBMIT_QUEUE_FULL
        else SUBMIT_GENERIC_ERROR
    {
      ghost var s := Snapshot();
      tid, l := Enter(p, c, flags, now);
      Record(s, l);
    }

    method Enter(p: nat, c: nat, flags: Flags, now: int) returns (tid: int, ghost l: Label)
      requires Sound(cfg, Snapshot()) && cfg.queueSize > 0 && c in b.net.live && |b.req| + 1 < TWO64
      modifies this`q, this`t, this`e, this`b
      ensures l.Submit? && l.p == p && l.c == c && l.flags == flags && l.now == now
      ensures Enabled(cfg, old(Snapshot()), l) && Snapshot() == Apply(cfg, old(Snapshot()), l) && e.done == old(e.done)
      ensures SubmitEffect(cfg, old(Snapshot()), l, Snapshot())
      ensures old(b.inc) + 1 in b.req <==>
        && p < |cfg.first| && old(!e.graceful) && (flags.force || old(e.counter) < cfg.queueSize)
        && (l.locked && !flags.force ==> U32(|old(q.queue[cfg.first[p]])| + |old(q.over[p])|) < cfg.queueSize)
      ensures tid == if Admits(cfg, old(Snapshot()), p, flags, l.locked) then TransactionId(p, old(b.inc) + 1)
        else if p < |cfg.first| && old(!e.graceful) && !flags.force && old(e.counter) >= cfg.queueSize then SUBMIT_QUEUE_FULL
        else SUBMIT_GENERIC_ERROR
    {
      ghost var s := Snapshot();
      tid, l := CheckAndPlace(p, c, flags, now);
      SubmitEffects(cfg, s, l);
      EnteredIff(cfg, s, l, Snapshot());
    }

    method CheckAndPlace(p: nat, c: nat, flags: Flags, now: int) returns (tid: int, ghost l: Label)
      requires Sound(cfg, Snapshot()) && cfg.queueSize > 0 && c in b.net.live && |b.req| + 1 < TWO64
      modifies this`q, this`t, this`e, this`b
      ensures l.Submit? && l.p == p && l.c == c && l.flags == flags && l.now == now
      ensures Enabled(cfg, old(Snapshot()), l) && Snapshot() == Apply(cfg, old(Snapshot()), l) && e.done == old(e.done)
      ensures tid == if Admits(cfg, old(Snapshot()), p, flags, l.locked) then TransactionId(p, old(b.inc) + 1)
        else if p < |cfg.first| && old(!e.graceful) && !flags.force && old(e.counter) >= cfg.queueSize then SUBMIT_QUEUE_FULL
        else SUBMIT_GENERIC_ERROR
    {
      if p >= |cfg.first| || e.graceful {
        tid, l := SUBMIT_GENERIC_ERROR, Submit(p, c, flags, now, false, {});
      } else if !flags.force && e.counter >= cfg.queueSize {
        tid, l := SUBMIT_QUEUE_FULL, Submit(p, c, flags, now, false, {});
      } else {
        var rc, locked, wake := Place(p, c, flags, now);
        l := Submit(p, c, flags, now, locked, wake);
        AdmitsIff(cfg, old(Snapshot()), p, flags, locked);
        tid := if rc != 0 then SUBMIT_GENERIC_ERROR else TransactionId(p, b.inc);
      }
    }

    /** The part of submit_request past its checks. */
    method Place(p: nat, c: nat, flags: Flags, now: int) returns (rc: int, locked: bool, wake: set<nat>)
      requires Sound(cfg, Snapshot()) && cfg.queueSize > 0 && p < |cfg.first| && c in b.net.live && !Refused(cfg, Snapshot(), p, flags)
      modifies this`q, this`t, this`e, this`b
      ensures Snapshot() == Submitted(cfg, old(Snapshot()), p, c, flags, now, locked, wake)
      ensures locked && !StageFull(cfg, old(Snapshot()), p, flags) ==> WakeOk(cfg, old(Snapshot()), cfg.first[p], wake)
      ensures rc != 0 <==> locked && StageFull(cfg, old(Snapshot()), p, flags)
    {
      ghost var s := Snapshot();
      var before := b;
      var r := b.inc + 1;
      b := b.(inc := r, req := b.req[r := Request(c, p, now, 0, 0)], net := Hold(b.net, c));
      assert Snapshot() == Alloc(s, p, c, now);
      SentIs(cfg, s, p, c, flags, now);
      rc, locked, wake := SendToPipeline(p, r, flags, now, q.over[p] != []);
      if rc != 0 {
        b := b.(req := before.req, leaked := before.leaked[r := b.req[r]]);
      }
    }

    /** One pass of the worker loop up to the request or the wait: the first request is left in its
        queue while it is younger than the stage's delay. */
    method LookForRequest(w: nat, delay: nat, now: int) returns (ghost l: Label)
      requires Valid() && AtQueue(Snapshot(), w)
      modifies this
      ensures Valid() && trace == old(trace) + [l] && l in {Block(w), Delay(w), Take(w)}
      ensures l == Block(w) <==> old(q.queue[cfg.home[w]]) == []
      ensures l == Delay(w) ==> delay != 0
      ensures old(q.queue[cfg.home[w]]) != [] && old(q.queue[cfg.home[w]][0]) in b.req ==>
        (l == Delay(w) <==> delay != 0 && now - b.req[old(q.queue[cfg.home[w]][0])].clock < delay)
      ensures l == Take(w) ==> t.hand[w] == [old(q.queue[cfg.home[w]][0])] && q.queue[cfg.home[w]] == old(q.queue[cfg.home[w]][1..])
      ensures l != Take(w) ==> q == old(q) && t.hand == old(t.hand)
      ensures e == old(e) && b == old(b)
    {
      ghost var s := Snapshot();
      l := FirstRequest(w, delay, now);
      Record(s, l);
    }

    method FirstRequest(w: nat, delay: nat, now: int) returns (ghost l: Label)
      requires Fit() && AtQueue(Snapshot(), w)
      modifies this`q, this`t
      ensures Enabled(cfg, old(Snapshot()), l) && Snapshot() == Apply(cfg, old(Snapshot()), l) && l in {Block(w), Delay(w), Take(w)}
      ensures l == Block(w) <==> old(q.queue[cfg.home[w]]) == []
      ensures l == Delay(w) ==> delay != 0
      ensures old(q.queue[cfg.home[w]]) != [] && old(q.queue[cfg.home[w]][0]) in b.req ==>
        (l == Delay(w) <==> delay != 0 && now - b.req[old(q.queue[cfg.home[w]][0])].clock < delay)
      ensures l == Take(w) ==> t.hand[w] == [old(q.queue[cfg.home[w]][0])] && q.queue[cfg.home[w]] == old(q.queue[cfg.home[w]][1..])
      ensures l != Take(w) ==> q == old(q) && t.hand == old(t.hand)
    {
      var st := cfg.home[w];
      if q.queue[st] == [] {
        t := t.(thread := t.thread[w := Blocked]);
        return Block(w);
      }
      var r := q.queue[st][0];
      if delay != 0 && r in b.req && now - b.req[r].clock < delay {
        t := t.(thread := t.thread[w := Ready]);
        return Delay(w);
      }
      q := q.(queue := q.queue[st := q.queue[st][1..]]);
      q := q.(queueLen := q.queueLen[st := U32(q.queueLen[st] as int - 1)]);
      t := t.(hand := t.hand[w := [r]], thread := t.thread[w := Busy]);
      l := Take(w);
    }

    /** Back from pthread_cond_wait: the thread leaves when the pipeline is drained. */
    method AfterWait(w: nat) returns (leaves: bool)
      requires Valid() && w < |t.thread| && t.thread[w] == Woken
      modifies this
      ensures Valid() && leaves == (e.graceful && e.counter == 0)
      ensures leaves ==> trace == old(trace) + [Exit(w)]
      ensures !leaves ==> Snapshot() == old(Snapshot()) && trace == old(trace) && AtQueue(Snapshot(), w)
    {
      leaves := e.graceful && e.counter == 0;
      if leaves {
        ghost var s := Snapshot();
        t := t.(thread := t.thread[w := Exited]);
        Record(s, Exit(w));
      }
    }

    /** The handler runs and the request goes on. */
    method Process(w: nat) returns (ghost l: Label)
      requires Valid() && GoodConfig(cfg) && b.doubled == 0 && w < |t.thread| && t.thread[w] == Busy
      modifies this
      ensures Valid() && trace == old(trace) + [l] && l.Handle? && l.w == w
      ensures |old(t.hand[w])| == 1 && old(t.hand[w][0]) in old(b.req) && old(Fit()) && w < |old(t.jump)|
      ensures var r := old(t.hand[w][0]); TurnEffect(cfg, AfterHandler(old(Snapshot()), w, r, l.named), w, r, l.verdict, Snapshot())
    {
      ghost var s := Snapshot();
      InHand(cfg, trace, s, w);
      l := RunHandler(w);
      HandleEffects(cfg, s, l);
      Record(s, l);
    }

    method RunHandler(w: nat) returns (ghost l: Label)
      requires Fit() && w < |t.thread| && t.thread[w] == Busy && |t.hand[w]| == 1 && t.hand[w][0] in b.req
      modifies this`q, this`t, this`e, this`b, this`doneLen
      ensures old(DoneCounted()) ==> DoneCounted()
      ensures l.Handle? && l.w == w && Enabled(cfg, old(Snapshot()), l) && Snapshot() == Apply(cfg, old(Snapshot()), l)
    {
      ghost var s := Snapshot();
      var v: Verdict, named: Option<nat> := *, *;
      if named.Some? && named.value >= |cfg.next| {
        named := None;
      }
      var r := t.hand[w][0];
      if named.Some? {
        t := t.(jump := t.jump[w := named]);
      }
      b := b.(req := b.req[r := b.req[r].(handled := b.req[r].handled + 1)]);
      ghost var s1 := Snapshot();
      assert s1 == TurnTaken(Named(s, w, named), r);
      var wake := SubmitNext(w, r, v);
      l := Handle(w, v, named, wake);
      HandleIs(cfg, s, w, r, v, named, wake);
    }

    // ---------------------------------------------------------- the event thread

    /** One turn of kick_request_queue, with the lock of the first stage. */
    method KickOne(p: nat) returns (ghost l: Label)
      requires Valid() && p in q.active
      modifies this
      ensures Valid() && l.Kick? && l.p == p && trace == old(trace) + [l] && p < |cfg.first|
      ensures old(Fit()) && MovedBehind(cfg, old(Snapshot()), p, Snapshot()) && q.active == Without(old(q.active), p)
    {
      ghost var s := Snapshot();
      var wake := MoveAndSignal(p);
      l := Kick(p, wake);
      KickLaw(cfg, s, l);
      Record(s, l);
    }

    method MoveAndSignal(p: nat) returns (wake: set<nat>)
      requires Fit() && p < |q.over|
      modifies this`q, this`t
      ensures WakeOk(cfg, old(Snapshot()), cfg.first[p], wake) && Snapshot() == Wake(Concat(cfg, old(Snapshot()), p), wake)
    {
      MoveOverflow(p);
      wake := Signal(cfg.first[p]);
    }

    /** kick_request_queue: the overflow queues whose stage could be locked are moved; the case of
        an active pipeline with nothing to move does not arise. */
    method KickRequestQueue() returns (ghost moved: set<nat>)
      requires Valid()
      modifies this
      ensures Valid() && moved <= set p | p in old(q.active)
      ensures Kicked(cfg, old(trace), old(Snapshot()), trace, Snapshot(), moved)
    {
      ghost var run, s := trace, Snapshot();
      var todo := q.active;
      var i := 0;
      moved := {};
      NobodyKicked(cfg, run, s);
      while i < |todo|
        invariant i <= |todo| && Valid() && Kicked(cfg, run, s, trace, Snapshot(), moved)
        invariant forall j :: i <= j < |todo| ==> todo[j] in q.active
        invariant forall p :: p in moved ==> p in todo
      {
        moved := KickTurn(todo[i], run, s, moved);
        i := i + 1;
      }
    }

    /** An active pipeline has something to move; it is moved if the stage can be locked. */
    method KickTurn(p: nat, ghost run: seq<Label>, ghost s: State, ghost moved: set<nat>) returns (ghost moved': set<nat>)
      requires Valid() && p in q.active && Kicked(cfg, run, s, trace, Snapshot(), moved)
      modifies this
      ensures Valid() && Kicked(cfg, run, s, trace, Snapshot(), moved') && (moved' == moved || moved' == moved + {p})
      ensures forall x :: x in old(q.active) && x != p ==> x in q.active
    {
      assert q.over[p] != [];
      var locked := *;
      moved' := moved;
      if locked {
        WithoutIs(q.active, p);
        ghost var s1, run1 := Snapshot(), trace;
        ghost var l := KickOne(p);
        KickedStep(cfg, run, s, run1, s1, moved, l, Snapshot());
        moved' := moved + {p};
      }
    }

    /** The responder has answered; cleanup_request and the wake-up at the end of a drain. */
    method CleanUp(disconnect: bool)
      requires Answerable(Snapshot()) && (disconnect ==> b.net.live[b.req[e.final[0]].conn].open)
      modifies this`e, this`b, this`t
      ensures Snapshot() == Ended(old(Snapshot()), disconnect)
    {
      var r := e.final[0];
      var c := b.req[r].conn;
      if disconnect {
        b := b.(net := CloseConn(b.net, c));
      }
      e := e.(final := e.final[1..], serving := false);
      b := b.(req := b.req - {r}, net := PipelineState.Release(b.net, c));
      if e.graceful && e.counter == 0 {
        SignalAll();
      }
    }

    /** broadcast_signal_to_allqueue */
    method SignalAll()
      modifies this`t
      ensures Snapshot() == Broadcast(old(Snapshot()))
    {
      var all := set w | 0 <= w < |t.thread| && t.thread[w] == Blocked;
      t := t.(thread := WakeThreads(t.thread, all));
    }

    method CountDown()
      requires Valid() && !e.serving && e.final != []
      modifies this`e, this`trace
      ensures Valid() && trace == old(trace) + [ServeBegin] && Snapshot() == Begun(old(Snapshot()))
    {
      ghost var s := Snapshot();
      e := e.(serving := true, counter := U64(e.counter - 1));
      Record(s, ServeBegin);
    }

    /** One turn of the loop over the final queue.  A responder asks to disconnect at most once
        per connection. */
    method AnswerFirst() returns (ghost disconnected: bool)
      requires Valid() && GoodConfig(cfg) && b.doubled == 0 && !e.serving && e.final != []
      modifies this
      ensures Valid() && trace == old(trace) + [ServeBegin] + [ServeEnd(disconnected)]
      ensures old(e.final[0]) in old(b.req) && AnsweredFirst(old(Snapshot()), Snapshot())
    {
      CountDown();
      ghost var s := Snapshot();
      AnswerLive(cfg, trace, s);
      var disconnect := *;
      disconnect := disconnect && b.net.live[b.req[e.final[0]].conn].open;
      CleanUp(disconnect);
      EndedIs(old(Snapshot()), disconnect);
      disconnected := disconnect;
      Record(s, ServeEnd(disconnect));
    }

    /** The loop over the final queue: everything in it is answered, counted down and freed. */
    method AnswerAll()
      requires Valid() && GoodConfig(cfg) && b.doubled == 0 && !e.serving
      modifies this
      ensures Valid() && old(trace) <= trace
      ensures AnsweredUpTo(old(Snapshot()), Snapshot(), |old(e.final)|)
    {
      ghost var s := Snapshot();
      ghost var k := 0;
      NoAnswerYet(s);
      while e.final != []
        invariant Valid() && old(trace) <= trace
        invariant AnsweredUpTo(s, Snapshot(), k)
        decreases |s.e.final| - k
      {
        ghost var s1 := Snapshot();
        ghost var d := AnswerFirst();
        OneAnswerMore(s, s1, Snapshot(), k);
        k := k + 1;
      }
      assert |s.e.final[k..]| == |s.e.final| - k;
    }

    /** done_requests_handler, past the reading of the pipe. */
    method DoneRequestsHandler(timeout: bool) returns (ghost moved: set<nat>)
      requires Valid() && GoodConfig(cfg) && b.doubled == 0 && !e.serving
      modifies this
      ensures Valid() && old(trace) <= trace
      ensures b.doubled == 0 && t.hand == old(t.hand)
      ensures timeout || old(e.done) == [] ==> e == old(e) && b == old(b) && KickedThreads(cfg, moved, old(t.thread), t.thread)
      ensures !timeout && old(e.done) != [] ==> Responded(old(e), old(b.req), e, b.req)
      ensures !timeout && old(e.done) != [] ==>
        if old(e.graceful) && PassesZero(old(e.counter), Answers(old(e), e)) then AllWoken(true, old(t.thread), t.thread)
        else KickedThreads(cfg, moved, old(t.thread), t.thread)
    {
      moved := KickRequestQueue();
      ghost var thread := t.thread;
      if e.done != [] && !timeout {
        AnswerDone();
        KickedThenWoken(cfg, moved, old(t.thread), thread, t.thread);
      }
    }

    /** What is done is fetched, if the done queue can be locked, and the final queue is answered. */
    method AnswerDone()
      requires Valid() && GoodConfig(cfg) && b.doubled == 0 && !e.serving && e.done != []
      modifies this
      ensures Valid() && old(trace) <= trace
      ensures b.doubled == 0 && t.hand == old(t.hand) && Responded(old(e), old(b.req), e, b.req)
      ensures AllWoken(old(e.graceful) && PassesZero(old(e.counter), Answers(old(e), e)), old(t.thread), t.thread)
    {
      GetDoneRequests();
      ghost var s1 := Snapshot();
      AnswerAll();
      RespondedIs(old(Snapshot()), s1, Snapshot());
    }

    method GetDoneRequests()
      requires Valid()
      modifies this`e, this`trace, this`doneLen
      ensures Valid() && old(trace) <= trace
      ensures e == old(e) || e == old(e).(final := old(e.final + e.done), done := [])
      ensures old(e.done) == [] ==> trace == old(trace)
    {
      var locked := *;
      if e.done != [] && locked {
        ghost var s := Snapshot();
        e, doneLen := e.(final := e.final + e.done, done := []), 0;
        Record(s, Drain);
      }
    }

    /** The HUP step: nothing more is admitted, the overflow queues are kicked, and if the
        pipeline is already drained every waiting thread is woken. */
    method GracefulRestart() returns (ghost moved: set<nat>)
      requires Valid()
      modifies this
      ensures Valid() && old(trace) <= trace && e == old(e).(graceful := true) && b == old(b)
      ensures if e.counter == 0 then AllWoken(true, old(t.thread), t.thread) else KickedThreads(cfg, moved, old(t.thread), t.thread)
    {
      ghost var s := Snapshot();
      e := e.(graceful := true);
      Record(s, Hup);
      moved := KickRequestQueue();
      if e.counter == 0 {
        WakeEveryone();
      }
    }

    /** broadcast_signal_to_allqueue */
    method WakeEveryone()
      requires Valid() && e.graceful && e.counter == 0
      modifies this`t, this`trace
      ensures Valid() && trace == old(trace) + [WakeAll]
      ensures AllWoken(true, old(t.thread), t.thread)
    {
      ghost var s := Snapshot();
      SignalAll();
      Record(s, WakeAll);
    }

    /** Whatever holds in every run holds of the object. */
    lemma Invariants()
      requires Valid() && GoodConfig(cfg) && b.doubled == 0
      ensures Core(cfg, Snapshot())
      ensures e.kicked == 0 ==> Calm(cfg, Snapshot())
    {
      RunCore(cfg, trace, Snapshot());
      if e.kicked == 0 {
        WorkConservation(cfg, trace, Snapshot());
      }
    }
  }
}
