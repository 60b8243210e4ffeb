/**
  A run in which requests wait at a stage whose only worker sleeps: the second check of a submit
  moves the overflow queue behind the stage's queue and then fails, without a signal.
*/
module PipelineStall {
  import opened PipelineState
  import opened PipelineThreads
  import opened PipelineWitness
  import opened PipelineExit

  /** The only worker has nothing in its hands and its queue is empty; requests are in the overflow
      queue. */
  function Idle(over: seq<Rid>, thread: Thread, e: Events, b: Ledger): State {
    State(Queues([[]], [0], [over], [|over|], if over == [] then [] else [0]), Crew([[]], [None], [thread]), e, b)
  }

  const UNLOCKED := Submit(0, 0, Flags(false, false, false), 5, false, {})

  lemma OverflowStep(over: seq<Rid>, e: Events, inc: nat, req: map<Rid, Request>)
    requires !e.graceful && e.counter < 3 && |over| < 3 && inc + 1 !in req && |req| + 1 < TWO64
    ensures Goes(TIMED, Idle(over, Ready, e, Live(inc, req)), UNLOCKED,
      Idle(over + [inc + 1], Ready, e.(counter := e.counter + 1), Live(inc + 1, req[inc + 1 := Fresh(5)])))
  {
    var s := Idle(over, Ready, e, Live(inc, req));
    RegisteredIdle(over, e, inc, req, 5);
    var s1 := Register(s, 0, 0, 5);
    var s2 := SendOverflow(s1, 0, inc + 1);
    assert s2.q.over == [over + [inc + 1]] && s2.q.overLen == [|over| + 1] && s2.q.active == [0];
  }

  lemma RegisteredIdle(over: seq<Rid>, e: Events, inc: nat, req: map<Rid, Request>, now: int)
    requires inc + 1 !in req && e.counter < 3
    ensures Register(Idle(over, Ready, e, Live(inc, req)), 0, 0, now) ==
      Idle(over, Ready, e.(counter := e.counter + 1), Live(inc + 1, req[inc + 1 := Fresh(now)]))
  {
    var s := Register(Idle(over, Ready, e, Live(inc, req)), 0, 0, now);
    assert |req[inc + 1 := Fresh(now)]| == |req| + 1;
    assert s.b.net == Live(inc + 1, req[inc + 1 := Fresh(now)]).net;
  }

  lemma IdleBegins(over: seq<Rid>, thread: Thread, e: Events, b: Ledger)
    requires !e.serving && e.final != [] && 0 < e.counter < TWO64
    ensures Goes(TIMED, Idle(over, thread, e, b), ServeBegin, Idle(over, thread, e.(serving := true, counter := e.counter - 1), b))
  {
  }

  lemma IdleEnds(over: seq<Rid>, thread: Thread, e: Events, inc: nat, req: map<Rid, Request>)
    requires e.serving && e.final != [] && e.final[0] in req && req[e.final[0]].conn == 0 && !e.graceful
    ensures Goes(TIMED, Idle(over, thread, e, Live(inc, req)), ServeEnd(false),
      Idle(over, thread, e.(serving := false, final := e.final[1..]), Live(inc, req - {e.final[0]})))
  {
    var r := e.final[0];
    assert |req - {r}| == |req| - 1 && |req| >= 1;
    var s := Answered(Idle(over, thread, e, Live(inc, req)), false);
    assert s.b == Live(inc, req - {r});
  }

  lemma FallsAsleep(over: seq<Rid>, e: Events, b: Ledger)
    ensures Goes(TIMED, Idle(over, Ready, e, b), Block(0), Idle(over, Blocked, e, b))
  {
    assert [Ready][0 := Blocked] == [Blocked];
  }

  // -------------------------------------------------------------------------- the run

  const TWO := map[1 := Fresh(0), 2 := Fresh(5)]
  const ANSWERED := Request(0, 0, 5, 0, 1)
  const ONE_DONE := map[1 := Fresh(0), 2 := ANSWERED]

  /** The second submit sweeps the first request out. */
  lemma FirstSwept() returns (run: seq<Label>)
    ensures RunsTo(TIMED, run, At([2], [], Ready, Events([], [1], false, 1, 1, false), Live(2, TWO)))
  {
    var e1 := Events([], [], false, 1, 0, false);
    run := FirstSent();
    SweepStep(1, Ready, e1, 1, map[1 := Fresh(0)], 5);
    assert map[1 := Fresh(0)][1 + 1 := Fresh(5)] == TWO && [] + [1] == [1] && [] + [2] == [2];
    OneMore(TIMED, run, At([1], [], Ready, e1, Live(1, map[1 := Fresh(0)])), Sends(true, 5, {}),
      At([2], [], Ready, Events([], [1], false, 1, 1, false), Live(2, TWO)));
    run := run + [Sends(true, 5, {})];
  }

  /** The second request is done, and the worker, with the lock of its stage, looks for another. */
  lemma SecondDone(run0: seq<Label>) returns (run: seq<Label>)
    requires RunsTo(TIMED, run0, At([2], [], Ready, Events([], [1], false, 1, 1, false), Live(2, TWO)))
    ensures RunsTo(TIMED, run, At([], [], Ready, Events([2], [1], false, 1, 1, false), Live(2, ONE_DONE)))
  {
    var e, b := Events([], [1], false, 1, 1, false), Live(2, TWO);
    TakeOne(2, e, b);
    DoneOne(2, e, b);
    assert b.(req := b.req[2 := ANSWERED]) == Live(2, ONE_DONE) && [] + [2] == [2];
    TwoMore(TIMED, run0, At([2], [], Ready, e, b), Take(0), At([], [2], Busy, e, b), Handle(0, ToDone, None, {}),
      At([], [], Ready, Events([2], [1], false, 1, 1, false), Live(2, ONE_DONE)));
    run := run0 + [Take(0)] + [Handle(0, ToDone, None, {})];
  }

  /** The swept-out request is counted down a second time and is being answered. */
  lemma FirstBegun(run0: seq<Label>) returns (run: seq<Label>)
    requires RunsTo(TIMED, run0, At([], [], Ready, Events([2], [1], false, 1, 1, false), Live(2, ONE_DONE)))
    ensures RunsTo(TIMED, run, Idle([], Ready, Events([], [1, 2], true, 0, 1, false), Live(2, ONE_DONE)))
  {
    var e, b := Events([2], [1], false, 1, 1, false), Live(2, ONE_DONE);
    var e1 := Events([], [1, 2], false, 1, 1, false);
    Drains([], Ready, e, b);
    assert [1] + [2] == [1, 2];
    IdleBegins([], Ready, e1, b);
    assert At([], [], Ready, e1, b) == Idle([], Ready, e1, b);
    TwoMore(TIMED, run0, At([], [], Ready, e, b), Drain, Idle([], Ready, e1, b), ServeBegin,
      Idle([], Ready, Events([], [1, 2], true, 0, 1, false), b));
    run := run0 + [Drain] + [ServeBegin];
  }

  const THREE := map[1 := Fresh(0), 2 := ANSWERED, 3 := Fresh(5)]
  const FOUR := map[1 := Fresh(0), 2 := ANSWERED, 3 := Fresh(5), 4 := Fresh(5)]
  const FIVE := map[1 := Fresh(0), 2 := ANSWERED, 3 := Fresh(5), 4 := Fresh(5), 5 := Fresh(5)]
  const SECOND_LEFT := map[2 := ANSWERED, 3 := Fresh(5), 4 := Fresh(5), 5 := Fresh(5)]
  const WAITING := map[3 := Fresh(5), 4 := Fresh(5), 5 := Fresh(5)]

  function Answering(counter: nat): Events {
    Events([], [1, 2], true, counter, 1, false)
  }

  /** Its responder submits three requests while the worker has the lock. */
  lemma TwoOverflow(run0: seq<Label>) returns (run: seq<Label>)
    requires RunsTo(TIMED, run0, Idle([], Ready, Answering(0), Live(2, ONE_DONE)))
    ensures RunsTo(TIMED, run, Idle([3, 4], Ready, Answering(2), Live(4, FOUR)))
  {
    OverflowStep([], Answering(0), 2, ONE_DONE);
    assert ONE_DONE[2 + 1 := Fresh(5)] == THREE && [] + [3] == [3] && [3] + [4] == [3, 4];
    OverflowStep([3], Answering(1), 3, THREE);
    assert THREE[3 + 1 := Fresh(5)] == FOUR;
    TwoMore(TIMED, run0, Idle([], Ready, Answering(0), Live(2, ONE_DONE)), UNLOCKED, Idle([3], Ready, Answering(1), Live(3, THREE)),
      UNLOCKED, Idle([3, 4], Ready, Answering(2), Live(4, FOUR)));
    run := run0 + [UNLOCKED] + [UNLOCKED];
  }

  lemma ThirdOverflow(run0: seq<Label>) returns (run: seq<Label>)
    requires RunsTo(TIMED, run0, Idle([3, 4], Ready, Answering(2), Live(4, FOUR)))
    ensures RunsTo(TIMED, run, Idle([3, 4, 5], Ready, Answering(3), Live(5, FIVE)))
  {
    OverflowStep([3, 4], Answering(2), 4, FOUR);
    assert FOUR[4 + 1 := Fresh(5)] == FIVE && [3, 4] + [5] == [3, 4, 5];
    OneMore(TIMED, run0, Idle([3, 4], Ready, Answering(2), Live(4, FOUR)), UNLOCKED, Idle([3, 4, 5], Ready, Answering(3), Live(5, FIVE)));
    run := run0 + [UNLOCKED];
  }

  lemma FirstAnswered(run0: seq<Label>) returns (run: seq<Label>)
    requires RunsTo(TIMED, run0, Idle([3, 4, 5], Ready, Answering(3), Live(5, FIVE)))
    ensures RunsTo(TIMED, run, Idle([3, 4, 5], Ready, Events([], [2], false, 3, 1, false), Live(5, SECOND_LEFT)))
  {
    IdleEnds([3, 4, 5], Ready, Answering(3), 5, FIVE);
    assert FIVE - {1} == SECOND_LEFT && [1, 2][1..] == [2];
    OneMore(TIMED, run0, Idle([3, 4, 5], Ready, Answering(3), Live(5, FIVE)), ServeEnd(false),
      Idle([3, 4, 5], Ready, Events([], [2], false, 3, 1, false), Live(5, SECOND_LEFT)));
    run := run0 + [ServeEnd(false)];
  }

  /** The worker finds its queue empty and sleeps, which sets the lock free. */
  lemma WorkerSleeps(run0: seq<Label>) returns (run: seq<Label>)
    requires RunsTo(TIMED, run0, Idle([3, 4, 5], Ready, Events([], [2], false, 3, 1, false), Live(5, SECOND_LEFT)))
    ensures RunsTo(TIMED, run, Idle([3, 4, 5], Blocked, Events([], [2], true, 2, 1, false), Live(5, SECOND_LEFT)))
  {
    var e, b := Events([], [2], false, 3, 1, false), Live(5, SECOND_LEFT);
    FallsAsleep([3, 4, 5], e, b);
    IdleBegins([3, 4, 5], Blocked, e, b);
    TwoMore(TIMED, run0, Idle([3, 4, 5], Ready, e, b), Block(0), Idle([3, 4, 5], Blocked, e, b), ServeBegin,
      Idle([3, 4, 5], Blocked, Events([], [2], true, 2, 1, false), b));
    run := run0 + [Block(0)] + [ServeBegin];
  }

  function Before(): State {
    Idle([3, 4, 5], Blocked, Events([], [], false, 2, 1, false), Live(5, WAITING))
  }

  lemma SecondAnswered(run0: seq<Label>) returns (run: seq<Label>)
    requires RunsTo(TIMED, run0, Idle([3, 4, 5], Blocked, Events([], [2], true, 2, 1, false), Live(5, SECOND_LEFT)))
    ensures RunsTo(TIMED, run, Before())
  {
    var e := Events([], [2], true, 2, 1, false);
    IdleEnds([3, 4, 5], Blocked, e, 5, SECOND_LEFT);
    assert SECOND_LEFT - {2} == WAITING && [2][1..] == [];
    OneMore(TIMED, run0, Idle([3, 4, 5], Blocked, e, Live(5, SECOND_LEFT)), ServeEnd(false), Before());
    run := run0 + [ServeEnd(false)];
  }

  const LAST := Sends(false, 5, {})

  lemma LastIsUnsignalled()
    ensures Enabled(TIMED, Before(), LAST) && Unsignalled(TIMED, Before(), LAST) && !Awake(TIMED, Before(), 0)
    ensures Apply(TIMED, Before(), LAST).q.queue == [[3, 4, 5]] && Apply(TIMED, Before(), LAST).t.thread == [Blocked]
  {
    var s := Before();
    assert [] + [3, 4, 5] == [3, 4, 5];
    var s1 := Concat(TIMED, s, 0);
    assert s1.q.queue == [[3, 4, 5]] && s1.q.queueLen == [3];
  }

  /** Three requests are in the stage's queue, its only worker sleeps, and nobody has been signalled. */
  lemma Stalls() returns (run: seq<Label>, s: State)
    ensures RunsTo(TIMED, run, s) && s.q.queue == [[3, 4, 5]] && s.t.thread == [Blocked] && !Attended(TIMED, s)
  {
    run := FirstSwept();
    run := SecondDone(run);
    run := FirstBegun(run);
    run := TwoOverflow(run);
    run := ThirdOverflow(run);
    run := FirstAnswered(run);
    run := WorkerSleeps(run);
    run := SecondAnswered(run);
    LastIsUnsignalled();
    s := Apply(TIMED, Before(), LAST);
    OneMore(TIMED, run, Before(), LAST, s);
    run := run + [LAST];
    assert s.q.queue[0] != [] && !Awake(TIMED, s, 0);
  }
}
