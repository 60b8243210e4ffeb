/**
  A run in which a worker leaves while an accepted request is still waiting: a swept-out
  request is counted down twice.
*/
module PipelineExit {
  import opened PipelineState
  import opened PipelineDrain
  import opened PipelineWitness

  /** One pipeline of one stage with one worker, and a timeout. */
  const TIMED := Config([0], [None], [0], 3, 1, true)

  function At(queue: seq<Rid>, hand: seq<Rid>, thread: Thread, e: Events, b: Ledger): State {
    State(Queues([queue], [|queue|], [[]], [0], []), Crew([hand], [None], [thread]), e, b)
  }

  function Fresh(clock: int): Request {
    Request(0, 0, clock, 0, 0)
  }

  function Sends(timeOut: bool, now: int, wake: set<nat>): Label {
    Submit(0, 0, Flags(false, false, timeOut), now, true, wake)
  }

  /** The threads a signal wakes: the only one, if it sleeps. */
  function Sleeper(thread: Thread): set<nat> {
    if thread == Blocked then {0} else {}
  }

  function Woken1(thread: Thread): Thread {
    if thread == Blocked then Woken else thread
  }

  lemma CanSend(queue: seq<Rid>, thread: Thread, e: Events, b: Ledger, timeOut: bool, now: int)
    requires !e.graceful && e.counter < 3 && |queue| < 3 && 0 in b.net.live && |b.req| + 1 < TWO64
    ensures Enabled(TIMED, At(queue, [], thread, e, b), Sends(timeOut, now, Sleeper(thread)))
    ensures !StageFull(TIMED, At(queue, [], thread, e, b), 0, Flags(false, false, timeOut))
  {
    var s := At(queue, [], thread, e, b);
    assert s.t.thread[0] == thread && |s.t.thread| == 1;
    assert WakeOk(TIMED, s, 0, Sleeper(thread));
  }

  lemma Appended(queue: seq<Rid>, thread: Thread, e: Events, b: Ledger, r: Rid)
    requires |queue| < 3
    ensures Wake(AppendStage(At(queue, [], thread, e, b), 0, r), Sleeper(thread)) == At(queue + [r], [], Woken1(thread), e, b)
  {
    var s := AppendStage(At(queue, [], thread, e, b), 0, r);
    assert s.q.queue == [queue + [r]] && s.q.queueLen == [|queue| + 1];
    assert WakeThreads(s.t.thread, Sleeper(thread)) == [Woken1(thread)];
  }

  lemma SubmittedIs(queue: seq<Rid>, thread: Thread, e: Events, b: Ledger, timeOut: bool, now: int)
    requires !e.graceful && e.counter < 3 && |queue| < 3 && 0 in b.net.live
    ensures var s := At(queue, [], thread, e, b); var s1 := Register(s, 0, 0, now);
      Submitted(TIMED, s, 0, 0, Flags(false, false, timeOut), now, true, Sleeper(thread)) ==
      Wake(AppendStage(if timeOut then Sweep(s1, 0, now, 1) else s1, 0, b.inc + 1), Sleeper(thread))
  {
    var s := At(queue, [], thread, e, b);
    var s1 := Register(s, 0, 0, now);
    assert !Refused(TIMED, s, 0, Flags(false, false, timeOut)) && !StageFull(TIMED, s, 0, Flags(false, false, timeOut));
    assert Relieved(TIMED, s1, 0) == s1;
  }

  lemma Registered(queue: seq<Rid>, thread: Thread, e: Events, inc: nat, req: map<Rid, Request>, now: int)
    requires inc + 1 !in req && e.counter < 3
    ensures Register(At(queue, [], thread, e, Live(inc, req)), 0, 0, now) ==
      At(queue, [], thread, e.(counter := e.counter + 1), Live(inc + 1, req[inc + 1 := Fresh(now)]))
  {
    var s := Register(At(queue, [], thread, e, Live(inc, req)), 0, 0, now);
    assert |req[inc + 1 := Fresh(now)]| == |req| + 1;
    assert s.b.net == Live(inc + 1, req[inc + 1 := Fresh(now)]).net;
  }

  /** A plain submit. */
  lemma SendStep(queue: seq<Rid>, thread: Thread, e: Events, inc: nat, req: map<Rid, Request>, now: int)
    requires !e.graceful && e.counter < 3 && |queue| < 3 && inc + 1 !in req && |req| + 1 < TWO64
    ensures Goes(TIMED, At(queue, [], thread, e, Live(inc, req)), Sends(false, now, Sleeper(thread)),
      At(queue + [inc + 1], [], Woken1(thread), e.(counter := e.counter + 1), Live(inc + 1, req[inc + 1 := Fresh(now)])))
  {
    CanSend(queue, thread, e, Live(inc, req), false, now);
    SubmittedIs(queue, thread, e, Live(inc, req), false, now);
    Registered(queue, thread, e, inc, req, now);
    Appended(queue, thread, e.(counter := e.counter + 1), Live(inc + 1, req[inc + 1 := Fresh(now)]), inc + 1);
  }

  lemma SweepResult(x: Rid, thread: Thread, e: Events, b: Ledger, s1: State, r: Rid, now: int)
    requires e.counter < 3 && x in b.req && now - b.req[x].clock > 1
    requires s1 == At([x], [], thread, e.(counter := e.counter + 1), b)
    ensures Wake(AppendStage(Sweep(s1, 0, now, 1), 0, r), Sleeper(thread)) ==
      At([] + [r], [], Woken1(thread), e.(final := e.final + [x], kicked := e.kicked + 1), b)
  {
    SweptOut(x, thread, e.(counter := e.counter + 1), b, now);
    Appended([], thread, e.(final := e.final + [x], kicked := e.kicked + 1), b, r);
  }

  /** A submit whose sweep takes the one waiting request out. */
  lemma SweepStep(x: Rid, thread: Thread, e: Events, inc: nat, req: map<Rid, Request>, now: int)
    requires !e.graceful && e.counter < 3 && inc + 1 !in req && |req| + 1 < TWO64
    requires x in req && now - req[x].clock > 1
    ensures Goes(TIMED, At([x], [], thread, e, Live(inc, req)), Sends(true, now, Sleeper(thread)),
      At([] + [inc + 1], [], Woken1(thread), e.(final := e.final + [x], kicked := e.kicked + 1), Live(inc + 1, req[inc + 1 := Fresh(now)])))
  {
    CanSend([x], thread, e, Live(inc, req), true, now);
    SubmittedIs([x], thread, e, Live(inc, req), true, now);
    Registered([x], thread, e, inc, req, now);
    var s1 := Register(At([x], [], thread, e, Live(inc, req)), 0, 0, now);
    SweepResult(x, thread, e, Live(inc + 1, req[inc + 1 := Fresh(now)]), s1, inc + 1, now);
  }

  lemma SweptOut(x: Rid, thread: Thread, e: Events, b: Ledger, now: int)
    requires 0 < e.counter < TWO64 && x in b.req && now - b.req[x].clock > 1
    ensures Sweep(At([x], [], thread, e, b), 0, now, 1) ==
      At([], [], thread, e.(counter := e.counter - 1, final := e.final + [x], kicked := e.kicked + 1), b)
  {
    assert [x][..0] == [] && Swept([x], b.req, now, 1) == [x] && PipelineState.Kept([x], b.req, now, 1) == [];
    var s := Sweep(At([x], [], thread, e, b), 0, now, 1);
    assert s.q.queue == [[]] && s.q.queueLen == [0];
  }

  lemma TakeOne(x: Rid, e: Events, b: Ledger)
    ensures Goes(TIMED, At([x], [], Ready, e, b), Take(0), At([], [x], Busy, e, b))
  {
    var s := Taken(TIMED, At([x], [], Ready, e, b), 0);
    assert [x][1..] == [];
    assert s.q.queue == [[]] && s.q.queueLen == [0] && s.t.hand == [[x]] && s.t.thread == [Busy];
  }

  lemma DoneOne(x: Rid, e: Events, b: Ledger)
    requires x in b.req && b.req[x].hops == 0
    ensures Goes(TIMED, At([], [x], Busy, e, b), Handle(0, ToDone, None, {}),
      At([], [], Ready, e.(done := e.done + [x]), b.(req := b.req[x := b.req[x].(handled := b.req[x].handled + 1)])))
  {
    var s := At([], [x], Busy, e, b);
    var s1 := TurnTaken(s, x);
    var s2 := LetGo(s1, 0, ToDone, false);
    assert s2.t == Crew([[]], [None], [Ready]);
    assert SubmitNext(TIMED, s1, 0, x, ToDone, {}) == AppendDone(s2, x);
  }

  lemma Sleeps(e: Events, b: Ledger)
    ensures Goes(TIMED, At([], [], Ready, e, b), Block(0), At([], [], Blocked, e, b))
  {
  }

  lemma Restarts(queue: seq<Rid>, thread: Thread, e: Events, b: Ledger)
    ensures Goes(TIMED, At(queue, [], thread, e, b), Hup, At(queue, [], thread, e.(graceful := true), b))
  {
  }

  lemma Drains(queue: seq<Rid>, thread: Thread, e: Events, b: Ledger)
    ensures Goes(TIMED, At(queue, [], thread, e, b), Drain, At(queue, [], thread, e.(final := e.final + e.done, done := []), b))
  {
  }

  lemma Begins(queue: seq<Rid>, thread: Thread, e: Events, b: Ledger)
    requires !e.serving && e.final != [] && 0 < e.counter < TWO64
    ensures Goes(TIMED, At(queue, [], thread, e, b), ServeBegin, At(queue, [], thread, e.(serving := true, counter := e.counter - 1), b))
  {
  }

  lemma Ends(queue: seq<Rid>, thread: Thread, e: Events, inc: nat, req: map<Rid, Request>)
    requires e.serving && e.final != [] && e.final[0] in req && req[e.final[0]].conn == 0 && !(e.graceful && e.counter == 0)
    ensures Goes(TIMED, At(queue, [], thread, e, Live(inc, req)), ServeEnd(false),
      At(queue, [], thread, e.(serving := false, final := e.final[1..]), Live(inc, req - {e.final[0]})))
  {
    var r := e.final[0];
    assert |req - {r}| == |req| - 1 && |req| >= 1;
    var s := Answered(At(queue, [], thread, e, Live(inc, req)), false);
    assert s.b == Live(inc, req - {r});
  }

  // -------------------------------------------------------------------- the run

  const DONE := Request(0, 0, 0, 0, 1)

  lemma OpenFirst()
    ensures Goes(TIMED, Init(TIMED), Accept(0), At([], [], Ready, Events([], [], false, 0, 0, false), Live(0, map[])))
  {
  }

  /** The first request is in its stage. */
  lemma FirstSent() returns (run: seq<Label>)
    ensures RunsTo(TIMED, run, At([1], [], Ready, Events([], [], false, 1, 0, false), Live(1, map[1 := Fresh(0)])))
  {
    var e0, e1 := Events([], [], false, 0, 0, false), Events([], [], false, 1, 0, false);
    OpenFirst();
    SendStep([], Ready, e0, 0, map[], 0);
    assert map[][0 + 1 := Fresh(0)] == map[1 := Fresh(0)] && [] + [1] == [1];
    TwoMore(TIMED, [], Init(TIMED), Accept(0), At([], [], Ready, e0, Live(0, map[])), Sends(false, 0, {}),
      At([1], [], Ready, e1, Live(1, map[1 := Fresh(0)])));
    run := [] + [Accept(0)] + [Sends(false, 0, {})];
  }

  /** The first request is done. */
  lemma FirstDone() returns (run: seq<Label>)
    ensures RunsTo(TIMED, run, At([], [], Ready, Events([] + [1], [], false, 1, 0, false), Live(1, map[1 := DONE])))
  {
    run := FirstSent();
    run := DoneLeg(run);
  }

  lemma DoneLeg(run0: seq<Label>) returns (run: seq<Label>)
    requires RunsTo(TIMED, run0, At([1], [], Ready, Events([], [], false, 1, 0, false), Live(1, map[1 := Fresh(0)])))
    ensures RunsTo(TIMED, run, At([], [], Ready, Events([] + [1], [], false, 1, 0, false), Live(1, map[1 := DONE])))
  {
    var e1, b1 := Events([], [], false, 1, 0, false), Live(1, map[1 := Fresh(0)]);
    TakeOne(1, e1, b1);
    DoneOne(1, e1, b1);
    assert b1.(req := b1.req[1 := DONE]) == Live(1, map[1 := DONE]);
    TwoMore(TIMED, run0, At([1], [], Ready, e1, b1), Take(0), At([], [1], Busy, e1, b1), Handle(0, ToDone, None, {}),
      At([], [], Ready, Events([] + [1], [], false, 1, 0, false), Live(1, map[1 := DONE])));
    run := run0 + [Take(0)] + [Handle(0, ToDone, None, {})];
  }

  const WITH_TWO := map[1 := DONE, 2 := Fresh(0)]
  const WITH_THREE := map[1 := DONE, 2 := Fresh(0), 3 := Fresh(5)]

  /** The worker sleeps and is woken for the second request. */
  lemma SecondWaits(run0: seq<Label>) returns (run: seq<Label>)
    requires RunsTo(TIMED, run0, At([], [], Ready, Events([1], [], false, 1, 0, false), Live(1, map[1 := DONE])))
    ensures RunsTo(TIMED, run, At([] + [2], [], Woken, Events([1], [], false, 2, 0, false), Live(2, WITH_TWO)))
  {
    var e, b := Events([1], [], false, 1, 0, false), Live(1, map[1 := DONE]);
    Sleeps(e, b);
    SendStep([], Blocked, e, 1, map[1 := DONE], 0);
    assert map[1 := DONE][1 + 1 := Fresh(0)] == WITH_TWO;
    TwoMore(TIMED, run0, At([], [], Ready, e, b), Block(0), At([], [], Blocked, e, b), Sends(false, 0, {0}),
      At([] + [2], [], Woken, e.(counter := 2), Live(2, WITH_TWO)));
    run := run0 + [Block(0)] + [Sends(false, 0, {0})];
  }

  /** The third submit sweeps the second request out; then comes the restart. */
  lemma SecondSwept(run0: seq<Label>) returns (run: seq<Label>)
    requires RunsTo(TIMED, run0, At([2], [], Woken, Events([1], [], false, 2, 0, false), Live(2, WITH_TWO)))
    ensures RunsTo(TIMED, run, At([] + [3], [], Woken, Events([1], [] + [2], false, 2, 1, true), Live(3, WITH_THREE)))
  {
    var e := Events([1], [], false, 2, 0, false);
    SweepStep(2, Woken, e, 2, WITH_TWO, 5);
    assert WITH_TWO[2 + 1 := Fresh(5)] == WITH_THREE;
    var e1 := Events([1], [] + [2], false, 2, 1, false);
    Restarts([] + [3], Woken, e1, Live(3, WITH_THREE));
    TwoMore(TIMED, run0, At([2], [], Woken, e, Live(2, WITH_TWO)), Sends(true, 5, {}),
      At([] + [3], [], Woken, e1, Live(3, WITH_THREE)), Hup,
      At([] + [3], [], Woken, e1.(graceful := true), Live(3, WITH_THREE)));
    run := run0 + [Sends(true, 5, {})] + [Hup];
  }

  /** The swept-out request is answered. */
  lemma FirstAnswer(run0: seq<Label>) returns (run: seq<Label>)
    requires RunsTo(TIMED, run0, At([3], [], Woken, Events([1], [2], false, 2, 1, true), Live(3, WITH_THREE)))
    ensures RunsTo(TIMED, run, At([3], [], Woken, Events([], [2] + [1], true, 1, 1, true), Live(3, WITH_THREE)))
  {
    var e, b := Events([1], [2], false, 2, 1, true), Live(3, WITH_THREE);
    var e1 := Events([], [2] + [1], false, 2, 1, true);
    Drains([3], Woken, e, b);
    Begins([3], Woken, e1, b);
    TwoMore(TIMED, run0, At([3], [], Woken, e, b), Drain, At([3], [], Woken, e1, b), ServeBegin,
      At([3], [], Woken, e1.(serving := true, counter := 1), b));
    run := run0 + [Drain] + [ServeBegin];
  }

  /** The done one is being answered, and the counter is down to zero. */
  lemma SecondAnswer(run0: seq<Label>) returns (run: seq<Label>)
    requires RunsTo(TIMED, run0, At([3], [], Woken, Events([], [2, 1], true, 1, 1, true), Live(3, WITH_THREE)))
    ensures RunsTo(TIMED, run, At([3], [], Woken, Events([], [1], true, 0, 1, true), Live(3, WITH_THREE - {2})))
  {
    var e := Events([], [2, 1], true, 1, 1, true);
    var e1 := Events([], [1], false, 1, 1, true);
    Ends([3], Woken, e, 3, WITH_THREE);
    assert [2, 1][1..] == [1];
    Begins([3], Woken, e1, Live(3, WITH_THREE - {2}));
    TwoMore(TIMED, run0, At([3], [], Woken, e, Live(3, WITH_THREE)), ServeEnd(false), At([3], [], Woken, e1, Live(3, WITH_THREE - {2})),
      ServeBegin, At([3], [], Woken, e1.(serving := true, counter := 0), Live(3, WITH_THREE - {2})));
    run := run0 + [ServeEnd(false)] + [ServeBegin];
  }

  function Leaving(): State {
    At([3], [], Woken, Events([], [1], true, 0, 1, true), Live(3, WITH_THREE - {2}))
  }

  /** The worker may leave although the third request waits in its stage. */
  lemma LeavesEarly() returns (run: seq<Label>)
    ensures RunsTo(TIMED, run, Leaving()) && Enabled(TIMED, Leaving(), Exit(0))
    ensures Leaving().q.queue[0] == [3] && 3 in Waiting(Leaving()) && Leaving().e.kicked == 1
  {
    assert [] + [1] == [1] && [] + [2] == [2] && [] + [3] == [3] && [2] + [1] == [2, 1];
    run := FirstDone();
    run := SecondWaits(run);
    run := SecondSwept(run);
    run := FirstAnswer(run);
    run := SecondAnswer(run);
  }
}
