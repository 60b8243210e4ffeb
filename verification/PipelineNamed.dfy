/**
  The stage a handler names stays in the worker's register until a PIPELINE_CONTINUE uses it up.
  A handler that names a stage and answers something else leaves it to the worker's next request.
*/
module PipelineNamed {
  import opened PipelineState
  import opened PipelineRuns
  import opened PipelineWitness

  predicate HandledBy(l: Label, w: nat) {
    l.Handle? && l.w == w
  }

  /** The worker's request is cut off by the loop check. */
  ghost predicate CutOff(cfg: Config, s: State, w: nat) {
    w < |s.t.hand| && |s.t.hand[w]| == 1 && s.t.hand[w][0] in s.b.req && Stopped(cfg, s, s.t.hand[w][0], Continue)
  }

  /** Step `j` of the run is a CONTINUE of the worker that goes through. */
  ghost predicate UsesName(cfg: Config, run: seq<Label>, w: nat, j: nat)
    requires j < |run|
  {
    HandledBy(run[j], w) && run[j].verdict == Continue && !exists p :: RunsTo(cfg, run[..j], p) && CutOff(cfg, p, w)
  }

  /** `x` is the last stage the worker's handlers have named, and no CONTINUE of the worker has gone
      through since. */
  ghost predicate StillNamed(cfg: Config, run: seq<Label>, w: nat, x: nat) {
    exists i :: 0 <= i < |run| && NamedAt(cfg, run, w, x, i)
  }

  ghost predicate NamedAt(cfg: Config, run: seq<Label>, w: nat, x: nat, i: nat)
    requires i < |run|
  {
    && HandledBy(run[i], w) && run[i].named == Some(x)
    && (forall j :: i < j < |run| && HandledBy(run[j], w) ==> run[j].named == None)
    && (forall j :: i <= j < |run| ==> !UsesName(cfg, run, w, j))
  }

  lemma UsesPrefix(cfg: Config, run: seq<Label>, w: nat, j: nat)
    requires j < |run| - 1
    ensures UsesName(cfg, run[..|run| - 1], w, j) <==> UsesName(cfg, run, w, j)
  {
    assert run[..|run| - 1][..j] == run[..j];
  }

  lemma NamedBefore(cfg: Config, run: seq<Label>, w: nat, x: nat, i: nat)
    requires i < |run| - 1
    ensures var k := |run| - 1;
      NamedAt(cfg, run, w, x, i) <==>
        NamedAt(cfg, run[..k], w, x, i) && (HandledBy(run[k], w) ==> run[k].named == None) && !UsesName(cfg, run, w, k)
  {
    var k := |run| - 1;
    forall j | i <= j < k ensures UsesName(cfg, run[..k], w, j) <==> UsesName(cfg, run, w, j) {
      UsesPrefix(cfg, run, w, j);
    }
  }

  lemma StillNamedStep(cfg: Config, run: seq<Label>, w: nat, x: nat)
    requires run != []
    ensures var k := |run| - 1;
      StillNamed(cfg, run, w, x) <==>
        && !UsesName(cfg, run, w, k)
        && if HandledBy(run[k], w) && run[k].named.Some? then run[k].named == Some(x) else StillNamed(cfg, run[..k], w, x)
  {
    var k := |run| - 1;
    if StillNamed(cfg, run, w, x) {
      var i :| 0 <= i < |run| && NamedAt(cfg, run, w, x, i);
      if i < k {
        NamedBefore(cfg, run, w, x, i);
      }
    }
    if !UsesName(cfg, run, w, k) {
      if HandledBy(run[k], w) && run[k].named.Some? {
        assert run[k].named == Some(x) ==> NamedAt(cfg, run, w, x, k);
      } else if StillNamed(cfg, run[..k], w, x) {
        var i :| 0 <= i < k && NamedAt(cfg, run[..k], w, x, i);
        NamedBefore(cfg, run, w, x, i);
      }
    }
  }

  /** What a step does to the register. */
  lemma StepJump(cfg: Config, s: State, l: Label, w: nat)
    requires Enabled(cfg, s, l) && w < |cfg.home|
    ensures |Apply(cfg, s, l).t.jump| == |s.t.jump| == |cfg.home|
    ensures Apply(cfg, s, l).t.jump[w] ==
      if !HandledBy(l, w) then s.t.jump[w]
      else if l.verdict == Continue && !CutOff(cfg, s, w) then None
      else if l.named.Some? then l.named else s.t.jump[w]
  {
    if l.Handle? {
      HandleJump(cfg, s, l.w, s.t.hand[l.w][0], l.verdict, l.named, l.wake);
    }
  }

  lemma HandleJump(cfg: Config, s: State, w: nat, r: Rid, v: Verdict, named: Option<nat>, wake: set<nat>)
    requires Fits(cfg, s) && w < |cfg.home| && r in s.b.req
    ensures var jump := s.t.jump[w := if named.Some? then named else s.t.jump[w]];
      Handled(cfg, s, w, r, v, named, wake).t.jump == if v == Continue && !Stopped(cfg, s, r, v) then jump[w := None] else jump
  {
    var s1 := TurnTaken(Named(s, w, named), r);
    assert s1.t.jump == s.t.jump[w := if named.Some? then named else s.t.jump[w]];
    assert Looped(s1, r, v) == Looped(s, r, v);
  }

  lemma UsesIff(cfg: Config, run: seq<Label>, w: nat, p: State)
    requires run != [] && RunsTo(cfg, run[..|run| - 1], p)
    ensures var l := run[|run| - 1];
      UsesName(cfg, run, w, |run| - 1) <==> HandledBy(l, w) && l.verdict == Continue && !CutOff(cfg, p, w)
  {
    var k := |run| - 1;
    forall p' | RunsTo(cfg, run[..k], p') ensures p' == p {
      RunsToUnique(cfg, run[..k], p, p');
    }
  }

  /** In every run the register holds a stage exactly if it is still named. */
  lemma {:induction false} RegisterIff(cfg: Config, run: seq<Label>, s: State, w: nat, x: nat)
    requires Wired(cfg) && RunsTo(cfg, run, s) && w < |cfg.home|
    ensures |s.t.jump| == |cfg.home| && (s.t.jump[w] == Some(x) <==> StillNamed(cfg, run, w, x))
    decreases |run|
  {
    if run != [] {
      var k := |run| - 1;
      var p :| RunsTo(cfg, run[..k], p) && Enabled(cfg, p, run[k]) && s == Apply(cfg, p, run[k]);
      RegisterIff(cfg, run[..k], p, w, x);
      StepJump(cfg, p, run[k], w);
      UsesIff(cfg, run, w, p);
      StillNamedStep(cfg, run, w, x);
    }
  }

  lemma RegisterAll(cfg: Config, run: seq<Label>, s: State, w: nat)
    requires Wired(cfg) && RunsTo(cfg, run, s) && w < |cfg.home|
    ensures |s.t.jump| == |cfg.home| && forall x: nat :: s.t.jump[w] == Some(x) <==> StillNamed(cfg, run, w, x)
  {
    RegisterIff(cfg, run, s, w, 0);
    forall x: nat ensures s.t.jump[w] == Some(x) <==> StillNamed(cfg, run, w, x) {
      RegisterIff(cfg, run, s, w, x);
    }
  }

  lemma PlainTarget(cfg: Config, s: State, w: nat)
    requires Fits(cfg, s) && w < |cfg.home|
    ensures Target(cfg, Named(s, w, None), w, Continue) == if s.t.jump[w].Some? then s.t.jump[w] else cfg.next[cfg.home[w]]
  {
  }

  /** A plain CONTINUE sends its request elsewhere than to the next stage exactly if some other stage
      is still named from before. */
  lemma StaleTargetIff(cfg: Config, run: seq<Label>, s: State, w: nat)
    requires Fits(cfg, s) && RunsTo(cfg, run, s) && w < |cfg.home|
    ensures Target(cfg, Named(s, w, None), w, Continue) != cfg.next[cfg.home[w]] <==>
      exists x: nat :: StillNamed(cfg, run, w, x) && Some(x) != cfg.next[cfg.home[w]]
  {
    RegisterAll(cfg, run, s, w);
    PlainTarget(cfg, s, w);
    if s.t.jump[w].Some? {
      assert StillNamed(cfg, run, w, s.t.jump[w].value);
    }
  }

  // ------------------------------------------------------------------- a stale name

  /** Two pipelines of one stage each, with a worker each. */
  const ASIDE := Config([0, 1], [None, None], [0, 1], 10, 0, true)

  function At(q0: seq<Rid>, q1: seq<Rid>, hand: seq<Rid>, jump: Option<nat>, e: Events, b: Ledger): State {
    State(Queues([q0, q1], [|q0|, |q1|], [[], []], [0, 0], []),
          Crew([hand, []], [jump, None], [if hand == [] then Ready else Busy, Ready]), e, b)
  }

  function Counting(done: seq<Rid>, n: nat): Events {
    Events(done, [], false, n, 0, false)
  }

  const SENDS := Submit(0, 0, Flags(false, false, false), 0, true, {})

  lemma CanSend(jump: Option<nat>, e: Events, b: Ledger)
    requires !e.graceful && e.counter < 10 && 0 in b.net.live && |b.req| + 1 < TWO64
    ensures Enabled(ASIDE, At([], [], [], jump, e, b), SENDS)
  {
    var s := At([], [], [], jump, e, b);
    assert s.t.thread[0] == Ready && s.t.thread[1] == Ready && |s.t.thread| == 2;
    assert WakeOk(ASIDE, s, 0, {});
  }

  lemma SentResult(jump: Option<nat>, e: Events, b: Ledger)
    requires !e.graceful && e.counter < 10 && 0 in b.net.live
    ensures Submitted(ASIDE, At([], [], [], jump, e, b), 0, 0, SENDS.flags, 0, true, {}) ==
      At([] + [b.inc + 1], [], [], jump, e.(counter := e.counter + 1), Register(At([], [], [], jump, e, b), 0, 0, 0).b)
  {
    var s := At([], [], [], jump, e, b);
    var s1 := Register(s, 0, 0, 0);
    assert s1 == At([], [], [], jump, e.(counter := e.counter + 1), s1.b);
    assert Submitted(ASIDE, s, 0, 0, SENDS.flags, 0, true, {}) == Wake(AppendStage(s1, 0, b.inc + 1), {});
    AppendFirst(b.inc + 1, jump, s1.e, s1.b);
  }

  lemma AppendFirst(x: Rid, jump: Option<nat>, e: Events, b: Ledger)
    ensures Wake(AppendStage(At([], [], [], jump, e, b), 0, x), {}) == At([] + [x], [], [], jump, e, b)
  {
    var s := AppendStage(At([], [], [], jump, e, b), 0, x);
    assert s.q.queue == [[] + [x], []] && s.q.queueLen == [1, 0];
    assert WakeThreads([Ready, Ready], {}) == [Ready, Ready];
  }

  lemma RegisteredLedger(jump: Option<nat>, e: Events, inc: nat, req: map<Rid, Request>)
    requires inc + 1 !in req
    ensures Register(At([], [], [], jump, e, Live(inc, req)), 0, 0, 0).b == Live(inc + 1, req[inc + 1 := Request(0, 0, 0, 0, 0)])
  {
    assert |req[inc + 1 := Request(0, 0, 0, 0, 0)]| == |req| + 1;
  }

  lemma SendStep(jump: Option<nat>, e: Events, inc: nat, req: map<Rid, Request>)
    requires !e.graceful && e.counter < 10 && inc + 1 !in req && |req| + 1 < TWO64
    ensures Goes(ASIDE, At([], [], [], jump, e, Live(inc, req)), SENDS,
      At([] + [inc + 1], [], [], jump, e.(counter := e.counter + 1), Live(inc + 1, req[inc + 1 := Request(0, 0, 0, 0, 0)])))
  {
    CanSend(jump, e, Live(inc, req));
    SentResult(jump, e, Live(inc, req));
    RegisteredLedger(jump, e, inc, req);
  }

  lemma TakeOne(x: Rid, jump: Option<nat>, e: Events, b: Ledger)
    ensures Goes(ASIDE, At([x], [], [], jump, e, b), Take(0), At([], [], [x], jump, e, b))
  {
    var s := Taken(ASIDE, At([x], [], [], jump, e, b), 0);
    assert [x][1..] == [];
    assert s.q.queue == [[], []] && s.q.queueLen == [0, 0] && s.t.hand == [[x], []] && s.t.thread == [Busy, Ready];
  }

  /** The first handler names the second stage, and answers that the request is done. */
  lemma NameStep(x: Rid, e: Events, b: Ledger)
    requires x in b.req
    ensures Goes(ASIDE, At([], [], [x], None, e, b), Handle(0, ToDone, Some(1), {}),
      At([], [], [], Some(1), e.(done := e.done + [x]), b.(req := b.req[x := b.req[x].(handled := b.req[x].handled + 1)])))
  {
    var b1 := b.(req := b.req[x := b.req[x].(handled := b.req[x].handled + 1)]);
    assert TurnTaken(Named(At([], [], [x], None, e, b), 0, Some(1)), x) == At([], [], [x], Some(1), e, b1) by {
      assert [None, None][0 := Some(1)] == [Some(1), None];
    }
    GivesUp(x, e, b1);
  }

  lemma GivesUp(x: Rid, e: Events, b: Ledger)
    requires x in b.req
    ensures SubmitNext(ASIDE, At([], [], [x], Some(1), e, b), 0, x, ToDone, {}) == At([], [], [], Some(1), e.(done := e.done + [x]), b)
  {
    var s := LetGo(At([], [], [x], Some(1), e, b), 0, ToDone, false);
    assert s.t == Crew([[], []], [Some(1), None], [Ready, Ready]);
  }

  lemma CanContinue(x: Rid, e: Events, b: Ledger)
    requires x in b.req
    ensures Enabled(ASIDE, At([], [], [x], Some(1), e, b), Handle(0, Continue, None, {}))
  {
    var s := At([], [], [x], Some(1), e, b);
    assert s.t.thread[0] == Busy && s.t.thread[1] == Ready && |s.t.thread| == 2;
    assert WakeOk(ASIDE, s, 1, {});
  }

  lemma LetsGo(x: Rid, e: Events, b: Ledger)
    requires x in b.req
    ensures LetGo(At([], [], [x], Some(1), e, b), 0, Continue, false) == At([], [], [], None, e, b)
  {
    assert LetGo(At([], [], [x], Some(1), e, b), 0, Continue, false).t == Crew([[], []], [None, None], [Ready, Ready]);
  }

  lemma AppendAside(x: Rid, e: Events, b: Ledger)
    ensures AppendStage(At([], [], [], None, e, b), 1, x) == At([], [] + [x], [], None, e, b)
  {
    var s := AppendStage(At([], [], [], None, e, b), 1, x);
    assert s.q.queue == [[], [] + [x]] && s.q.queueLen == [0, 1];
  }

  lemma ToAside(x: Rid, e: Events, b: Ledger)
    requires x in b.req
    ensures Forward(At([], [], [], None, e, b), Some(1), x, {}) ==
      At([], [] + [x], [], None, e, b.(req := b.req[x := b.req[x].(hops := b.req[x].hops + 1)]))
  {
    AppendAside(x, e, b);
    NobodyWoken([x], e, b.(req := b.req[x := b.req[x].(hops := b.req[x].hops + 1)]));
  }

  lemma NobodyWoken(q1: seq<Rid>, e: Events, b: Ledger)
    ensures Wake(At([], [] + q1, [], None, e, b), {}) == At([], [] + q1, [], None, e, b)
  {
    assert WakeThreads([Ready, Ready], {}) == [Ready, Ready];
  }

  lemma GoesAside(x: Rid, e: Events, b: Ledger)
    requires x in b.req && b.req[x].hops == 0
    ensures SubmitNext(ASIDE, At([], [], [x], Some(1), e, b), 0, x, Continue, {}) ==
      At([], [] + [x], [], None, e, b.(req := b.req[x := b.req[x].(hops := 1)]))
  {
    LetsGo(x, e, b);
    ToAside(x, e, b);
  }

  const TURNED := Request(0, 0, 0, 0, 1)
  const HOPPED := Request(0, 0, 0, 1, 1)

  lemma OpenStep()
    ensures Goes(ASIDE, Init(ASIDE), Accept(0), At([], [], [], None, Counting([], 0), Live(0, map[])))
  {
    var s := Init(ASIDE);
    assert s.q.queue == [[], []] && s.q.queueLen == [0, 0] && s.t.hand == [[], []] && s.t.jump == [None, None] && s.t.thread == [Ready, Ready];
  }

  lemma FirstSent() returns (run: seq<Label>)
    ensures RunsTo(ASIDE, run, At([1], [], [], None, Counting([], 1), Live(1, FIRST)))
  {
    OpenStep();
    SendStep(None, Counting([], 0), 0, map[]);
    assert map[][0 + 1 := Request(0, 0, 0, 0, 0)] == FIRST && [] + [0 + 1] == [1];
    TwoMore(ASIDE, [], Init(ASIDE), Accept(0), At([], [], [], None, Counting([], 0), Live(0, map[])), SENDS,
      At([1], [], [], None, Counting([], 1), Live(1, FIRST)));
    run := [] + [Accept(0)] + [SENDS];
  }

  const FIRST := map[1 := Request(0, 0, 0, 0, 0)]

  lemma NameGoes()
    ensures Goes(ASIDE, At([], [], [1], None, Counting([], 1), Live(1, FIRST)), Handle(0, ToDone, Some(1), {}),
      At([], [], [], Some(1), Counting([1], 1), Live(1, map[1 := TURNED])))
  {
    NameStep(1, Counting([], 1), Live(1, FIRST));
    assert FIRST[1 := TURNED] == map[1 := TURNED] && [] + [1] == [1];
  }

  /** The first request leaves a name behind. */
  lemma NameLeft(run0: seq<Label>) returns (run: seq<Label>)
    requires RunsTo(ASIDE, run0, At([1], [], [], None, Counting([], 1), Live(1, FIRST)))
    ensures RunsTo(ASIDE, run, At([], [], [], Some(1), Counting([1], 1), Live(1, map[1 := TURNED])))
  {
    TakeOne(1, None, Counting([], 1), Live(1, FIRST));
    NameGoes();
    TwoMore(ASIDE, run0, At([1], [], [], None, Counting([], 1), Live(1, FIRST)), Take(0),
      At([], [], [1], None, Counting([], 1), Live(1, FIRST)), Handle(0, ToDone, Some(1), {}),
      At([], [], [], Some(1), Counting([1], 1), Live(1, map[1 := TURNED])));
    run := run0 + [Take(0)] + [Handle(0, ToDone, Some(1), {})];
  }

  const SECOND := map[1 := TURNED, 2 := Request(0, 0, 0, 0, 0)]

  lemma SecondTaken(run0: seq<Label>) returns (run: seq<Label>)
    requires RunsTo(ASIDE, run0, At([], [], [], Some(1), Counting([1], 1), Live(1, map[1 := TURNED])))
    ensures RunsTo(ASIDE, run, At([], [], [2], Some(1), Counting([1], 2), Live(2, SECOND)))
  {
    SendStep(Some(1), Counting([1], 1), 1, map[1 := TURNED]);
    assert map[1 := TURNED][1 + 1 := Request(0, 0, 0, 0, 0)] == SECOND && [] + [1 + 1] == [2];
    TakeOne(2, Some(1), Counting([1], 2), Live(2, SECOND));
    TwoMore(ASIDE, run0, At([], [], [], Some(1), Counting([1], 1), Live(1, map[1 := TURNED])), SENDS,
      At([2], [], [], Some(1), Counting([1], 2), Live(2, SECOND)), Take(0), At([], [], [2], Some(1), Counting([1], 2), Live(2, SECOND)));
    run := run0 + [SENDS] + [Take(0)];
  }

  function Astray(): State {
    At([], [2], [], None, Counting([1], 2), Live(2, map[1 := TURNED, 2 := HOPPED]))
  }

  /** The second request, whose handler names nothing and whose stage is the last one, goes to the
      stage that was named for the first. */
  lemma GoesAstray() returns (run: seq<Label>)
    ensures RunsTo(ASIDE, run + [Handle(0, Continue, None, {})], Astray()) && ASIDE.next[0] == None && Astray().q.queue[1] == [2]
  {
    run := FirstSent();
    run := NameLeft(run);
    run := SecondTaken(run);
    LastStep();
    OneMore(ASIDE, run, At([], [], [2], Some(1), Counting([1], 2), Live(2, SECOND)), Handle(0, Continue, None, {}), Astray());
  }

  const BOTH_TURNED := map[1 := TURNED, 2 := TURNED]

  lemma LastTurn()
    ensures TurnTaken(At([], [], [2], Some(1), Counting([1], 2), Live(2, SECOND)), 2) ==
      At([], [], [2], Some(1), Counting([1], 2), Live(2, BOTH_TURNED))
  {
    assert SECOND[2 := TURNED] == BOTH_TURNED;
  }

  lemma LastHop()
    ensures SubmitNext(ASIDE, At([], [], [2], Some(1), Counting([1], 2), Live(2, BOTH_TURNED)), 0, 2, Continue, {}) == Astray()
  {
    GoesAside(2, Counting([1], 2), Live(2, BOTH_TURNED));
    assert BOTH_TURNED[2 := HOPPED] == map[1 := TURNED, 2 := HOPPED] && [] + [2] == [2];
  }

  lemma LastStep()
    ensures Goes(ASIDE, At([], [], [2], Some(1), Counting([1], 2), Live(2, SECOND)), Handle(0, Continue, None, {}), Astray())
  {
    var s := At([], [], [2], Some(1), Counting([1], 2), Live(2, SECOND));
    CanContinue(2, Counting([1], 2), Live(2, SECOND));
    LastTurn();
    LastHop();
    assert s.t.hand[0] == [2] && Named(s, 0, None) == s;
  }
}
