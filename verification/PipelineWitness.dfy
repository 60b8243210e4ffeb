/**
  A run of the pipeline as it is written in which the loop check puts a request
  into two queues at once.
*/
module PipelineWitness {
  import opened PipelineState
  import opened PipelineBooks

  ghost predicate Goes(cfg: Config, s: State, l: Label, s': State) {
    Enabled(cfg, s, l) && Apply(cfg, s, l) == s'
  }

  lemma OneMore(cfg: Config, run: seq<Label>, s: State, l: Label, s': State)
    requires RunsTo(cfg, run, s) && Goes(cfg, s, l, s')
    ensures RunsTo(cfg, run + [l], s')
  {
    assert (run + [l])[..|run|] == run;
  }

  lemma TwoMore(cfg: Config, run: seq<Label>, s0: State, l: Label, s1: State, l': Label, s2: State)
    requires RunsTo(cfg, run, s0) && Goes(cfg, s0, l, s1) && Goes(cfg, s1, l', s2)
    ensures RunsTo(cfg, run + [l] + [l'], s2)
  {
    OneMore(cfg, run, s0, l, s1);
    OneMore(cfg, run + [l], s1, l', s2);
  }

  /** The only connection is open and held by the live requests. */
  function Live(inc: nat, req: map<Rid, Request>): Ledger {
    Ledger(inc, req, map[], Net(map[0 := Connection(true, 1 + |req|)], {}), 0)
  }

  /** A cycle of two steps, taken `n` times. */
  lemma {:induction false} Cycle(cfg: Config, start: seq<Label>, a: nat -> State, l: Label, b: nat -> State, l': Label, n: nat)
    returns (run: seq<Label>)
    requires RunsTo(cfg, start, a(0))
    requires forall k: nat :: k < n ==> Goes(cfg, a(k), l, b(k)) && Goes(cfg, b(k), l', a(k + 1))
    ensures RunsTo(cfg, run, a(n))
  {
    run := start;
    if n > 0 {
      var before := Cycle(cfg, start, a, l, b, l', n - 1);
      assert Goes(cfg, a(n - 1), l, b(n - 1)) && Goes(cfg, b(n - 1), l', a(n - 1 + 1));
      TwoMore(cfg, before, a(n - 1), l, b(n - 1), l', a(n));
      run := before + [l] + [l'];
    }
  }

  // ------------------------------------------------------------- an endless requeue

  /** One pipeline of one stage with one worker. */
  const LOOPING := Config([0], [None], [0], 10, 0, false)

  /** The only request waits in its stage after `n` rounds. */
  function Round(n: nat): State {
    State(Queues([[1]], [1], [[]], [0], []),
          Crew([[]], [None], [Ready]),
          Events([], [], false, 1, 0, false),
          Ledger(1, map[1 := Request(0, 0, 0, n, n)], map[], Net(map[0 := Connection(true, 2)], {}), 0))
  }

  /** The request in the worker's hands. */
  function Held(n: nat): State {
    State(Queues([[]], [0], [[]], [0], []),
          Crew([[1]], [None], [Busy]),
          Round(n).e,
          Round(n).b)
  }

  lemma TakeStep(n: nat)
    ensures Goes(LOOPING, Round(n), Take(0), Held(n))
  {
    var s, s' := Round(n), Taken(LOOPING, Round(n), 0);
    assert s.q.queue[0][1..] == [];
    assert s'.q.queue == [[]] && s'.q.queueLen == [0];
    assert s'.t.hand == [[1]] && s'.t.thread == [Busy];
  }

  lemma CanRequeue(n: nat)
    ensures Enabled(LOOPING, Held(n), Handle(0, Requeue, None, {}))
  {
    assert WakeOk(LOOPING, Held(n), 0, {});
  }

  /** Back into the only stage, with one more hop. */
  lemma BackToStage(s: State, n: nat)
    requires s.q == Held(n).q && s.t == Round(n).t && s.b.req == map[1 := Request(0, 0, 0, n, n + 1)]
    ensures var s' := ToStage(s, 0, 1, {});
      && s'.q == Round(n + 1).q && s'.t == Round(n + 1).t && s'.e == s.e
      && s'.b == s.b.(req := map[1 := Request(0, 0, 0, n + 1, n + 1)])
  {
    var s' := ToStage(s, 0, 1, {});
    assert s'.q.queue[0] == [1];
    assert s'.q.queue == [[1]] && s'.q.queueLen == [1];
    assert WakeThreads(s.t.thread, {}) == s.t.thread;
  }

  lemma Loosed(n: nat)
    ensures TurnTaken(Held(n), 1) == Held(n).(b := Held(n).b.(req := map[1 := Request(0, 0, 0, n, n + 1)]))
    ensures LetGo(TurnTaken(Held(n), 1), 0, Requeue, false).t == Round(n).t
  {
  }

  /** The handler answers PIPELINE_REQUEUE: another round, or, past MAX_STAGE_JUMP, two places. */
  lemma Requeued(n: nat)
    ensures Handled(LOOPING, Held(n), 0, 1, Requeue, None, {}) == if n <= MAX_STAGE_JUMP then Round(n + 1) else Both(n + 1)
  {
    Loosed(n);
    var s := LetGo(TurnTaken(Held(n), 1), 0, Requeue, false);
    BackToStage(s, n);
    BackToStage(Doubled(AppendDone(s, 1)), n);
  }

  /** The request in its stage queue and in the done queue. */
  function Both(n: nat): State {
    Round(n).(e := Events([1], [], false, 1, 0, false), b := Round(n).b.(doubled := 1))
  }

  lemma RequeueStep(n: nat)
    ensures Goes(LOOPING, Held(n), Handle(0, Requeue, None, {}), if n <= MAX_STAGE_JUMP then Round(n + 1) else Both(n + 1))
  {
    CanRequeue(n);
    Requeued(n);
  }

  const SUBMIT := Submit(0, 0, Flags(false, false, false), 0, true, {})

  const OPENED := Init(LOOPING).(b := Ledger(0, map[], map[], Net(map[0 := Connection(true, 1)], {}), 0))

  lemma CanSubmit()
    ensures Enabled(LOOPING, OPENED, SUBMIT)
  {
    assert OPENED.t.thread[0] == Ready && |OPENED.t.thread| == 1;
    assert !(exists w :: 0 <= w < |OPENED.t.thread| && OPENED.t.thread[w] == Blocked);
  }

  lemma SubmitResult()
    ensures Submitted(LOOPING, OPENED, 0, 0, SUBMIT.flags, 0, true, {}) == Round(0)
  {
    assert OPENED.q == Queues([[]], [0], [[]], [0], []) && OPENED.t == Round(0).t;
    var s := Register(OPENED, 0, 0, 0);
    assert s.b == Round(0).b;
    var s' := AppendStage(s, 0, 1);
    assert s'.q.queue[0] == [1];
    assert s'.q == Round(0).q;
    assert WakeThreads(s.t.thread, {}) == s.t.thread;
  }

  lemma OpenStep()
    ensures Goes(LOOPING, Init(LOOPING), Accept(0), OPENED)
  {
  }

  lemma SubmitStep()
    ensures Goes(LOOPING, OPENED, SUBMIT, Round(0))
  {
    CanSubmit();
    SubmitResult();
  }

  lemma LoopSteps()
    ensures forall k: nat :: k < 257 ==>
      Goes(LOOPING, Round(k), Take(0), Held(k)) && Goes(LOOPING, Held(k), Handle(0, Requeue, None, {}), Round(k + 1))
  {
    forall k: nat | k < 257
      ensures Goes(LOOPING, Round(k), Take(0), Held(k)) && Goes(LOOPING, Held(k), Handle(0, Requeue, None, {}), Round(k + 1))
    {
      TakeStep(k);
      RequeueStep(k);
    }
  }

  lemma LoopRun() returns (run: seq<Label>)
    ensures RunsTo(LOOPING, run, Round(257))
  {
    OpenStep();
    SubmitStep();
    TwoMore(LOOPING, [], Init(LOOPING), Accept(0), OPENED, SUBMIT, Round(0));
    LoopSteps();
    run := Cycle(LOOPING, [] + [Accept(0)] + [SUBMIT], Round, Take(0), Held, Handle(0, Requeue, None, {}), 257);
  }

  /** As written, a request that keeps being requeued ends up in a stage queue and in the done
      queue at the same time. */
  lemma LoopCheckDoubles()
    ensures exists run, s :: RunsTo(LOOPING, run, s) && s.b.doubled == 1 && s.q.queue == [[1]] && s.e.done == [1] && Count(s, 1) == 2
  {
    var run := LoopRun();
    TakeStep(257);
    RequeueStep(257);
    TwoMore(LOOPING, run, Round(257), Take(0), Held(257), Handle(0, Requeue, None, {}), Both(258));
    BothCount(258);
  }

  lemma BothCount(n: nat)
    ensures Count(Both(n), 1) == 2
  {
  }
}
