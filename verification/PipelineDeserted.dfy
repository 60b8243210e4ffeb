/**
  A run in which a request comes to a stage whose only worker has left: a swept-out request is
  counted down twice, so that the counter is zero while another one is still being handled.
*/
module PipelineDeserted {
  import opened PipelineState
  import opened PipelineThreads
  import opened PipelineWitness

  /** One pipeline of two stages with a worker each, and a timeout. */
  const PAIR := Config([0], [Some(1), None], [0, 1], 3, 1, true)

  function At(q0: seq<Rid>, q1: seq<Rid>, hand: seq<Rid>, second: Thread, e: Events, b: Ledger): State {
    State(Queues([q0, q1], [|q0|, |q1|], [[]], [0], []),
          Crew([hand, []], [None, None], [if hand == [] then Ready else Busy, second]), e, b)
  }

  function Fresh(clock: int): Request {
    Request(0, 0, clock, 0, 0)
  }

  function Sends(timeOut: bool, now: int): Label {
    Submit(0, 0, Flags(false, false, timeOut), now, true, {})
  }

  // -------------------------------------------------------------------- single steps

  lemma CanSend(q0: seq<Rid>, second: Thread, e: Events, b: Ledger, timeOut: bool, now: int)
    requires !e.graceful && e.counter < 3 && |q0| < 3 && 0 in b.net.live && |b.req| + 1 < TWO64
    ensures Enabled(PAIR, At(q0, [], [], second, e, b), Sends(timeOut, now))
    ensures !StageFull(PAIR, At(q0, [], [], second, e, b), 0, Flags(false, false, timeOut))
  {
    var s := At(q0, [], [], second, e, b);
    assert s.t.thread[0] == Ready && |s.t.thread| == 2;
    assert WakeOk(PAIR, s, 0, {});
  }

  lemma Appended(q0: seq<Rid>, second: Thread, e: Events, b: Ledger, r: Rid)
    requires |q0| < 3
    ensures Wake(AppendStage(At(q0, [], [], second, e, b), 0, r), {}) == At(q0 + [r], [], [], second, e, b)
  {
    var s := AppendStage(At(q0, [], [], second, e, b), 0, r);
    assert s.q.queue == [q0 + [r], []] && s.q.queueLen == [|q0| + 1, 0];
    assert WakeThreads([Ready, second], {}) == [Ready, second];
  }

  lemma Registered(q0: seq<Rid>, second: Thread, e: Events, inc: nat, req: map<Rid, Request>, now: int)
    requires inc + 1 !in req && e.counter < 3
    ensures Register(At(q0, [], [], second, e, Live(inc, req)), 0, 0, now) ==
      At(q0, [], [], second, e.(counter := e.counter + 1), Live(inc + 1, req[inc + 1 := Fresh(now)]))
  {
    var s := Register(At(q0, [], [], second, e, Live(inc, req)), 0, 0, now);
    assert |req[inc + 1 := Fresh(now)]| == |req| + 1;
    assert s.b.net == Live(inc + 1, req[inc + 1 := Fresh(now)]).net;
  }

  lemma SubmittedIs(q0: seq<Rid>, second: Thread, e: Events, b: Ledger, timeOut: bool, now: int)
    requires !e.graceful && e.counter < 3 && |q0| < 3 && 0 in b.net.live
    ensures var s := At(q0, [], [], second, e, b); var s1 := Register(s, 0, 0, now);
      Submitted(PAIR, s, 0, 0, Flags(false, false, timeOut), now, true, {}) ==
      Wake(AppendStage(if timeOut then Sweep(s1, 0, now, 1) else s1, 0, b.inc + 1), {})
  {
    var s := At(q0, [], [], second, e, b);
    var s1 := Register(s, 0, 0, now);
    assert !Refused(PAIR, s, 0, Flags(false, false, timeOut)) && !StageFull(PAIR, s, 0, Flags(false, false, timeOut));
    assert Relieved(PAIR, s1, 0) == s1;
  }

  lemma SendStep(q0: seq<Rid>, second: Thread, e: Events, inc: nat, req: map<Rid, Request>, now: int)
    requires !e.graceful && e.counter < 3 && |q0| < 3 && inc + 1 !in req && |req| + 1 < TWO64
    ensures Goes(PAIR, At(q0, [], [], second, e, Live(inc, req)), Sends(false, now),
      At(q0 + [inc + 1], [], [], second, e.(counter := e.counter + 1), Live(inc + 1, req[inc + 1 := Fresh(now)])))
  {
    CanSend(q0, second, e, Live(inc, req), false, now);
    SubmittedIs(q0, second, e, Live(inc, req), false, now);
    Registered(q0, second, e, inc, req, now);
    Appended(q0, second, e.(counter := e.counter + 1), Live(inc + 1, req[inc + 1 := Fresh(now)]), inc + 1);
  }

  lemma SweptOut(x: Rid, second: Thread, e: Events, b: Ledger, now: int)
    requires 0 < e.counter < TWO64 && x in b.req && now - b.req[x].clock > 1
    ensures Sweep(At([x], [], [], second, e, b), 0, now, 1) ==
      At([], [], [], second, e.(counter := e.counter - 1, final := e.final + [x], kicked := e.kicked + 1), b)
  {
    assert [x][..0] == [] && Swept([x], b.req, now, 1) == [x] && PipelineState.Kept([x], b.req, now, 1) == [];
    var s := Sweep(At([x], [], [], second, e, b), 0, now, 1);
    assert s.q.queue == [[], []] && s.q.queueLen == [0, 0];
  }

  /** A submit whose sweep takes the one waiting request out. */
  lemma SweepStep(x: Rid, second: Thread, e: Events, inc: nat, req: map<Rid, Request>, now: int)
    requires !e.graceful && e.counter < 3 && inc + 1 !in req && |req| + 1 < TWO64
    requires x in req && now - req[x].clock > 1
    ensures Goes(PAIR, At([x], [], [], second, e, Live(inc, req)), Sends(true, now),
      At([] + [inc + 1], [], [], second, e.(final := e.final + [x], kicked := e.kicked + 1), Live(inc + 1, req[inc + 1 := Fresh(now)])))
  {
    var b := Live(inc + 1, req[inc + 1 := Fresh(now)]);
    CanSend([x], second, e, Live(inc, req), true, now);
    SubmittedIs([x], second, e, Live(inc, req), true, now);
    Registered([x], second, e, inc, req, now);
    SweptOut(x, second, e.(counter := e.counter + 1), b, now);
    Appended([], second, e.(final := e.final + [x], kicked := e.kicked + 1), b, inc + 1);
  }

  lemma TakeOne(x: Rid, second: Thread, e: Events, b: Ledger)
    ensures Goes(PAIR, At([x], [], [], second, e, b), Take(0), At([], [], [x], second, e, b))
  {
    var s := Taken(PAIR, At([x], [], [], second, e, b), 0);
    assert [x][1..] == [];
    assert s.q.queue == [[], []] && s.q.queueLen == [0, 0] && s.t.hand == [[x], []] && s.t.thread == [Busy, second];
  }

  lemma LetsGo(x: Rid, second: Thread, e: Events, b: Ledger, v: Verdict)
    ensures LetGo(At([], [], [x], second, e, b), 0, v, false) == At([], [], [], second, e, b)
  {
    assert LetGo(At([], [], [x], second, e, b), 0, v, false).t == Crew([[], []], [None, None], [Ready, second]);
  }

  lemma DoneOne(x: Rid, second: Thread, e: Events, b: Ledger)
    requires x in b.req
    ensures Goes(PAIR, At([], [], [x], second, e, b), Handle(0, ToDone, None, {}),
      At([], [], [], second, e.(done := e.done + [x]), b.(req := b.req[x := b.req[x].(handled := b.req[x].handled + 1)])))
  {
    LetsGo(x, second, e, b.(req := b.req[x := b.req[x].(handled := b.req[x].handled + 1)]), ToDone);
  }

  lemma Blocks(e: Events, b: Ledger)
    ensures Goes(PAIR, At([], [], [], Ready, e, b), Block(1), At([], [], [], Blocked, e, b))
  {
    assert [Ready, Ready][1 := Blocked] == [Ready, Blocked];
  }

  lemma Restarts(hand: seq<Rid>, second: Thread, e: Events, b: Ledger)
    ensures Goes(PAIR, At([], [], hand, second, e, b), Hup, At([], [], hand, second, e.(graceful := true), b))
  {
  }

  lemma Drains(hand: seq<Rid>, second: Thread, e: Events, b: Ledger)
    ensures Goes(PAIR, At([], [], hand, second, e, b), Drain, At([], [], hand, second, e.(final := e.final + e.done, done := []), b))
  {
  }

  lemma Begins(hand: seq<Rid>, second: Thread, e: Events, b: Ledger)
    requires !e.serving && e.final != [] && 0 < e.counter < TWO64
    ensures Goes(PAIR, At([], [], hand, second, e, b), ServeBegin,
      At([], [], hand, second, e.(serving := true, counter := e.counter - 1), b))
  {
  }

  lemma AnsweredIs(hand: seq<Rid>, second: Thread, e: Events, inc: nat, req: map<Rid, Request>)
    requires e.final != [] && e.final[0] in req && req[e.final[0]].conn == 0
    ensures Answered(At([], [], hand, second, e, Live(inc, req)), false) ==
      At([], [], hand, second, e.(serving := false, final := e.final[1..]), Live(inc, req - {e.final[0]}))
  {
    var r := e.final[0];
    assert |req - {r}| == |req| - 1 && |req| >= 1;
    assert Answered(At([], [], hand, second, e, Live(inc, req)), false).b == Live(inc, req - {r});
  }

  lemma Ends(hand: seq<Rid>, second: Thread, e: Events, inc: nat, req: map<Rid, Request>)
    requires e.serving && e.final != [] && e.final[0] in req && req[e.final[0]].conn == 0 && e.counter > 0
    ensures Goes(PAIR, At([], [], hand, second, e, Live(inc, req)), ServeEnd(false),
      At([], [], hand, second, e.(serving := false, final := e.final[1..]), Live(inc, req - {e.final[0]})))
  {
    AnsweredIs(hand, second, e, inc, req);
  }

  /** With the counter at zero the answer wakes the second worker. */
  lemma EndsWaking(x: Rid, e: Events, inc: nat, req: map<Rid, Request>)
    requires e.serving && e.final != [] && e.final[0] in req && req[e.final[0]].conn == 0 && e.graceful && e.counter == 0
    ensures Goes(PAIR, At([], [], [x], Blocked, e, Live(inc, req)), ServeEnd(false),
      At([], [], [x], Woken, e.(serving := false, final := e.final[1..]), Live(inc, req - {e.final[0]})))
  {
    AnsweredIs([x], Blocked, e, inc, req);
    WakesSecond(x, e.(serving := false, final := e.final[1..]), Live(inc, req - {e.final[0]}));
  }

  lemma WakesSecond(x: Rid, e: Events, b: Ledger)
    ensures Broadcast(At([], [], [x], Blocked, e, b)) == At([], [], [x], Woken, e, b)
  {
    var s := At([], [], [x], Blocked, e, b);
    assert s.t.thread == [Busy, Blocked];
    assert Broadcast(s).t.thread == [Busy, Woken];
  }

  lemma Leaves(x: Rid, e: Events, b: Ledger)
    requires e.graceful && e.counter == 0
    ensures Goes(PAIR, At([], [], [x], Woken, e, b), Exit(1), At([], [], [x], Exited, e, b))
  {
    assert [Busy, Woken][1 := Exited] == [Busy, Exited];
  }

  // -------------------------------------------------------------------------- the run

  const TURNED := Request(0, 0, 0, 0, 1)
  const ONE := map[1 := Fresh(0)]
  const DONE_ONE := map[1 := TURNED]
  const TWO := map[1 := TURNED, 2 := Fresh(0)]
  const THREE := map[1 := TURNED, 2 := Fresh(0), 3 := Fresh(2)]

  lemma OpenStep()
    ensures Goes(PAIR, Init(PAIR), Accept(0), At([], [], [], Ready, Events([], [], false, 0, 0, false), Live(0, map[])))
  {
    var s := Init(PAIR);
    assert s.q.queue == [[], []] && s.q.queueLen == [0, 0] && s.t.hand == [[], []] && s.t.jump == [None, None] && s.t.thread == [Ready, Ready];
  }

  lemma FirstSent() returns (run: seq<Label>)
    ensures RunsTo(PAIR, run, At([1], [], [], Ready, Events([], [], false, 1, 0, false), Live(1, ONE)))
  {
    OpenStep();
    SendStep([], Ready, Events([], [], false, 0, 0, false), 0, map[], 0);
    assert map[][0 + 1 := Fresh(0)] == ONE && [] + [1] == [1];
    TwoMore(PAIR, [], Init(PAIR), Accept(0), At([], [], [], Ready, Events([], [], false, 0, 0, false), Live(0, map[])),
      Sends(false, 0), At([1], [], [], Ready, Events([], [], false, 1, 0, false), Live(1, ONE)));
    run := [] + [Accept(0)] + [Sends(false, 0)];
  }

  lemma FirstDone(run0: seq<Label>) returns (run: seq<Label>)
    requires RunsTo(PAIR, run0, At([1], [], [], Ready, Events([], [], false, 1, 0, false), Live(1, ONE)))
    ensures RunsTo(PAIR, run, At([], [], [], Ready, Events([1], [], false, 1, 0, false), Live(1, DONE_ONE)))
  {
    var e, b := Events([], [], false, 1, 0, false), Live(1, ONE);
    TakeOne(1, Ready, e, b);
    FirstTurn();
    TwoMore(PAIR, run0, At([1], [], [], Ready, e, b), Take(0), At([], [], [1], Ready, e, b), Handle(0, ToDone, None, {}),
      At([], [], [], Ready, Events([1], [], false, 1, 0, false), Live(1, DONE_ONE)));
    run := run0 + [Take(0)] + [Handle(0, ToDone, None, {})];
  }

  lemma FirstTurn()
    ensures Goes(PAIR, At([], [], [1], Ready, Events([], [], false, 1, 0, false), Live(1, ONE)), Handle(0, ToDone, None, {}),
      At([], [], [], Ready, Events([1], [], false, 1, 0, false), Live(1, DONE_ONE)))
  {
    DoneOne(1, Ready, Events([], [], false, 1, 0, false), Live(1, ONE));
    assert ONE[1 := TURNED] == DONE_ONE && [] + [1] == [1];
  }

  /** The second worker sleeps, and the second request is in the first stage. */
  lemma SecondSent(run0: seq<Label>) returns (run: seq<Label>)
    requires RunsTo(PAIR, run0, At([], [], [], Ready, Events([1], [], false, 1, 0, false), Live(1, DONE_ONE)))
    ensures RunsTo(PAIR, run, At([2], [], [], Blocked, Events([1], [], false, 2, 0, false), Live(2, TWO)))
  {
    var e := Events([1], [], false, 1, 0, false);
    Blocks(e, Live(1, DONE_ONE));
    SendStep([], Blocked, e, 1, DONE_ONE, 0);
    assert DONE_ONE[1 + 1 := Fresh(0)] == TWO && [] + [2] == [2];
    TwoMore(PAIR, run0, At([], [], [], Ready, e, Live(1, DONE_ONE)), Block(1), At([], [], [], Blocked, e, Live(1, DONE_ONE)),
      Sends(false, 0), At([2], [], [], Blocked, Events([1], [], false, 2, 0, false), Live(2, TWO)));
    run := run0 + [Block(1)] + [Sends(false, 0)];
  }

  /** The third submit sweeps the second request out; the third request is taken. */
  lemma ThirdTaken(run0: seq<Label>) returns (run: seq<Label>)
    requires RunsTo(PAIR, run0, At([2], [], [], Blocked, Events([1], [], false, 2, 0, false), Live(2, TWO)))
    ensures RunsTo(PAIR, run, At([], [], [3], Blocked, Events([1], [2], false, 2, 1, false), Live(3, THREE)))
  {
    var e, e1 := Events([1], [], false, 2, 0, false), Events([1], [2], false, 2, 1, false);
    SweepStep(2, Blocked, e, 2, TWO, 2);
    assert TWO[2 + 1 := Fresh(2)] == THREE && [] + [3] == [3] && [] + [2] == [2];
    TakeOne(3, Blocked, e1, Live(3, THREE));
    TwoMore(PAIR, run0, At([2], [], [], Blocked, e, Live(2, TWO)), Sends(true, 2), At([3], [], [], Blocked, e1, Live(3, THREE)),
      Take(0), At([], [], [3], Blocked, e1, Live(3, THREE)));
    run := run0 + [Sends(true, 2)] + [Take(0)];
  }

  lemma Restarted(run0: seq<Label>) returns (run: seq<Label>)
    requires RunsTo(PAIR, run0, At([], [], [3], Blocked, Events([1], [2], false, 2, 1, false), Live(3, THREE)))
    ensures RunsTo(PAIR, run, At([], [], [3], Blocked, Events([], [2, 1], false, 2, 1, true), Live(3, THREE)))
  {
    var e, b := Events([1], [2], false, 2, 1, false), Live(3, THREE);
    Restarts([3], Blocked, e, b);
    Drains([3], Blocked, e.(graceful := true), b);
    assert [2] + [1] == [2, 1];
    TwoMore(PAIR, run0, At([], [], [3], Blocked, e, b), Hup, At([], [], [3], Blocked, e.(graceful := true), b), Drain,
      At([], [], [3], Blocked, Events([], [2, 1], false, 2, 1, true), b));
    run := run0 + [Hup] + [Drain];
  }

  const TWO_LEFT := map[1 := TURNED, 3 := Fresh(2)]
  const ONE_LEFT := map[3 := Fresh(2)]

  /** The swept-out request is answered. */
  lemma FirstAnswer(run0: seq<Label>) returns (run: seq<Label>)
    requires RunsTo(PAIR, run0, At([], [], [3], Blocked, Events([], [2, 1], false, 2, 1, true), Live(3, THREE)))
    ensures RunsTo(PAIR, run, At([], [], [3], Blocked, Events([], [1], false, 1, 1, true), Live(3, TWO_LEFT)))
  {
    var e, e1 := Events([], [2, 1], false, 2, 1, true), Events([], [2, 1], true, 1, 1, true);
    Begins([3], Blocked, e, Live(3, THREE));
    Ends([3], Blocked, e1, 3, THREE);
    assert [2, 1][1..] == [1] && THREE - {2} == TWO_LEFT;
    TwoMore(PAIR, run0, At([], [], [3], Blocked, e, Live(3, THREE)), ServeBegin, At([], [], [3], Blocked, e1, Live(3, THREE)),
      ServeEnd(false), At([], [], [3], Blocked, Events([], [1], false, 1, 1, true), Live(3, TWO_LEFT)));
    run := run0 + [ServeBegin] + [ServeEnd(false)];
  }

  /** The done one is answered, and the counter is zero: the second worker is woken. */
  lemma SecondAnswer(run0: seq<Label>) returns (run: seq<Label>)
    requires RunsTo(PAIR, run0, At([], [], [3], Blocked, Events([], [1], false, 1, 1, true), Live(3, TWO_LEFT)))
    ensures RunsTo(PAIR, run, At([], [], [3], Woken, Events([], [], false, 0, 1, true), Live(3, ONE_LEFT)))
  {
    var e, e1 := Events([], [1], false, 1, 1, true), Events([], [1], true, 0, 1, true);
    Begins([3], Blocked, e, Live(3, TWO_LEFT));
    EndsWaking(3, e1, 3, TWO_LEFT);
    assert [1][1..] == [] && TWO_LEFT - {1} == ONE_LEFT;
    TwoMore(PAIR, run0, At([], [], [3], Blocked, e, Live(3, TWO_LEFT)), ServeBegin, At([], [], [3], Blocked, e1, Live(3, TWO_LEFT)),
      ServeEnd(false), At([], [], [3], Woken, Events([], [], false, 0, 1, true), Live(3, ONE_LEFT)));
    run := run0 + [ServeBegin] + [ServeEnd(false)];
  }

  const LAST := Handle(0, Continue, None, {})

  /** The ledger once the request of the first worker has had its turn. */
  function Turned(b: Ledger, x: Rid): Ledger
    requires x in b.req
  {
    b.(req := b.req[x := b.req[x].(handled := b.req[x].handled + 1)])
  }

  lemma CanHandOn(x: Rid, e: Events, b: Ledger)
    requires x in b.req && b.req[x].hops == 0
    ensures Enabled(PAIR, At([], [], [x], Exited, e, b), LAST)
  {
    var s := At([], [], [x], Exited, e, b);
    assert s.t.thread[0] == Busy && s.t.thread[1] == Exited && |s.t.thread| == 2;
    assert WakeOk(PAIR, s, 1, {});
  }

  lemma Arrives(x: Rid, e: Events, b: Ledger)
    requires x in b.req && b.req[x].hops == 0
    ensures ToStage(At([], [], [], Exited, e, b), 1, x, {}).q == Queues([[], [x]], [0, 1], [[]], [0], [])
    ensures ToStage(At([], [], [], Exited, e, b), 1, x, {}).t.thread == [Ready, Exited]
  {
    var s := ToStage(At([], [], [], Exited, e, b), 1, x, {});
    assert [] + [x] == [x];
    assert s.q.queue == [[], [x]] && s.q.queueLen == [0, 1];
    assert WakeThreads([Ready, Exited], {}) == [Ready, Exited];
  }

  lemma HandsOn(x: Rid, e: Events, b: Ledger)
    requires x in b.req && b.req[x].hops == 0
    ensures Handled(PAIR, At([], [], [x], Exited, e, b), 0, x, Continue, None, {}) == ToStage(At([], [], [], Exited, e, Turned(b, x)), 1, x, {})
  {
    assert TurnTaken(At([], [], [x], Exited, e, b), x) == At([], [], [x], Exited, e, Turned(b, x));
    LetsGo(x, Exited, e, Turned(b, x), Continue);
  }

  lemma NobodyThere(q: Queues, t: Crew, e: Events, b: Ledger, x: Rid)
    requires q.queue == [[], [x]] && t.thread == [Ready, Exited]
    ensures !Attended(PAIR, State(q, t, e, b))
  {
    var s := State(q, t, e, b);
    assert s.q.queue[1] != [] && !Awake(PAIR, s, 1);
  }

  /** The request goes into the queue of the second stage, whose worker has left. */
  lemma Strays(x: Rid, e: Events, b: Ledger) returns (s: State)
    requires x in b.req && b.req[x].hops == 0
    ensures Goes(PAIR, At([], [], [x], Exited, e, b), LAST, s)
    ensures s.q.queue == [[], [x]] && s.t.thread == [Ready, Exited] && !Attended(PAIR, s)
  {
    CanHandOn(x, e, b);
    HandsOn(x, e, b);
    Arrives(x, e, Turned(b, x));
    s := ToStage(At([], [], [], Exited, e, Turned(b, x)), 1, x, {});
    NobodyThere(s.q, s.t, s.e, s.b, x);
  }

  lemma UpToTheLast() returns (run: seq<Label>)
    ensures RunsTo(PAIR, run, At([], [], [3], Woken, Events([], [], false, 0, 1, true), Live(3, ONE_LEFT)))
  {
    run := FirstSent();
    run := FirstDone(run);
    run := SecondSent(run);
    run := ThirdTaken(run);
    run := Restarted(run);
    run := FirstAnswer(run);
    run := SecondAnswer(run);
  }

  /** The third request is in the queue of the second stage, and the stage has no thread any more. */
  lemma Deserted() returns (run: seq<Label>, s: State)
    ensures RunsTo(PAIR, run, s) && s.q.queue == [[], [3]] && s.t.thread == [Ready, Exited] && !Attended(PAIR, s)
  {
    var e, b := Events([], [], false, 0, 1, true), Live(3, ONE_LEFT);
    run := UpToTheLast();
    Leaves(3, e, b);
    s := Strays(3, e, b);
    TwoMore(PAIR, run, At([], [], [3], Woken, e, b), Exit(1), At([], [], [3], Exited, e, b), LAST, s);
    run := run + [Exit(1)] + [LAST];
  }
}
