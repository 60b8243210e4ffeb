/**
  The way of a request whose handlers always answer PIPELINE_CONTINUE and send it to no other
  stage than the next: whatever becomes of the other requests, it is handled at the stages of its
  pipeline's chain, once each and in order, and then done, unless it is kicked out of the first.
*/
module PipelineTrip {
  import opened PipelineState
  import opened PipelineBooks
  import opened PipelineFifo
  import opened PipelineThreads
  import opened PipelineRuns
  import opened Modules
  import opened Chains

  /** The configuration is the one built from the module queue; `ids` names the pipelines. */
  ghost predicate Chained(cfg: Config, q: seq<Module>, ids: seq<nat>) {
    && Sorted(q) && Wired(cfg) && cfg.next == NextOf(q) && |ids| == |cfg.first|
    && (forall i, j :: 0 <= i < j < |ids| ==> ids[i] != ids[j])
    && (forall p :: 0 <= p < |ids| ==> FirstOf(q, ids[p]) == Some(cfg.first[p]))
  }

  function Stops(q: seq<Module>, ids: seq<nat>, x: Request): seq<nat> {
    if x.pipeline < |ids| then Members(q, ids[x.pipeline]) else []
  }

  /** All the stops, or as many as the loop check allows. */
  function Turns(q: seq<Module>, ids: seq<nat>, x: Request): nat {
    var n := |Stops(q, ids, x)|;
    if n <= MAX_STAGE_JUMP + 2 then n else MAX_STAGE_JUMP + 2
  }

  /** The request has been handled at its first `hops` stops and is now at the next one. */
  ghost predicate At(q: seq<Module>, ids: seq<nat>, req: map<Rid, Request>, r: Rid, st: nat) {
    && r in req && req[r].handled == req[r].hops < |Stops(q, ids, req[r])| && req[r].hops <= MAX_STAGE_JUMP + 1
    && Stops(q, ids, req[r])[req[r].hops] == st
  }

  /** The request has been handled at all its stops, as far as the loop check lets it. */
  ghost predicate Through(q: seq<Module>, ids: seq<nat>, req: map<Rid, Request>, r: Rid) {
    r in req && req[r].handled == Turns(q, ids, req[r])
  }

  ghost predicate Untouched(req: map<Rid, Request>, r: Rid, p: nat) {
    r in req && req[r].pipeline == p && req[r].hops == req[r].handled == 0
  }

  ghost predicate Unhandled(req: map<Rid, Request>, r: Rid) {
    r in req && req[r].handled == 0
  }

  /** Wherever the request is, it is there at the right time; a request that was kicked out was never
      handled, and any other that is answered has had all its turns. */
  ghost predicate OnTrack(cfg: Config, q: seq<Module>, ids: seq<nat>, s: State, r: Rid, kicked: bool) {
    && Fits(cfg, s)
    && (forall st :: 0 <= st < |s.q.queue| && r in s.q.queue[st] ==> At(q, ids, s.b.req, r, st))
    && (forall p :: 0 <= p < |s.q.over| && r in s.q.over[p] ==> Untouched(s.b.req, r, p))
    && (forall w :: 0 <= w < |s.t.hand| && r in s.t.hand[w] ==> At(q, ids, s.b.req, r, cfg.home[w]))
    && (r in s.e.done ==> Through(q, ids, s.b.req, r))
    && (r in s.e.final ==> if kicked then Unhandled(s.b.req, r) else Through(q, ids, s.b.req, r))
    && (kicked ==> r <= s.b.inc && r !in s.e.done && (r in s.b.req ==> r in s.e.final))
  }

  /** The step is a turn of the request. */
  predicate TurnOf(s: State, l: Label, r: Rid) {
    l.Handle? && l.w < |s.t.hand| && r in s.t.hand[l.w]
  }

  /** If the step is a turn of the request, the answer is CONTINUE and it goes to the next stage. */
  ghost predicate PlainTurn(cfg: Config, s: State, l: Label, r: Rid)
    requires Enabled(cfg, s, l)
  {
    TurnOf(s, l, r) ==>
      l.verdict == Continue && Target(cfg, Named(s, l.w, l.named), l.w, Continue) == cfg.next[cfg.home[l.w]]
  }

  /** The step kicks or sweeps the request out. */
  ghost predicate KicksOut(cfg: Config, s: State, l: Label, r: Rid)
    requires Enabled(cfg, s, l)
  {
    l.Submit? && r !in s.e.final && r in Apply(cfg, s, l).e.final
  }

  // ------------------------------------------------------------------ small steps

  lemma NotIn(qs: seq<seq<Rid>>, r: Rid)
    requires OccAll(qs, r) == 0
    ensures forall i :: 0 <= i < |qs| ==> r !in qs[i]
  {
    forall i | 0 <= i < |qs| ensures r !in qs[i] {
      OccUpdate(qs, i, [], r);
      OccIn(qs[i], r);
    }
  }

  lemma HeldAlone(s: State, w: nat, r: Rid)
    requires Placed(s, None) && w < |s.t.hand| && s.t.hand[w] == [r]
    ensures forall st :: 0 <= st < |s.q.queue| ==> r !in s.q.queue[st]
    ensures forall p :: 0 <= p < |s.q.over| ==> r !in s.q.over[p]
    ensures forall x :: 0 <= x < |s.t.hand| && x != w ==> r !in s.t.hand[x]
    ensures r !in s.e.done && r !in s.e.final
  {
    OccUpdate(s.t.hand, w, [], r);
    OccFirst(s.t.hand[w], r);
    assert Count(s, r) + 0 == if r in s.b.req then 1 else 0;
    NotIn(s.q.queue, r);
    NotIn(s.q.over, r);
    NotIn(s.t.hand[w := []], r);
    forall x | 0 <= x < |s.t.hand| && x != w ensures r !in s.t.hand[x] {
      assert s.t.hand[w := []][x] == s.t.hand[x];
    }
    OccIn(s.e.done, r);
    OccIn(s.e.final, r);
  }

  /** A request that is not there is nowhere. */
  lemma GoneIsNowhere(s: State, r: Rid)
    requires Placed(s, None) && r !in s.b.req
    ensures forall st :: 0 <= st < |s.q.queue| ==> r !in s.q.queue[st]
    ensures forall p :: 0 <= p < |s.q.over| ==> r !in s.q.over[p]
    ensures forall w :: 0 <= w < |s.t.hand| ==> r !in s.t.hand[w]
    ensures r !in s.e.done && r !in s.e.final
  {
    assert Count(s, r) + 0 == 0;
    NotIn(s.q.queue, r);
    NotIn(s.q.over, r);
    NotIn(s.t.hand, r);
    OccIn(s.e.done, r);
    OccIn(s.e.final, r);
  }

  /** The first stop of a pipeline is its first stage. */
  lemma FirstStop(cfg: Config, q: seq<Module>, ids: seq<nat>, req: map<Rid, Request>, r: Rid, p: nat)
    requires Chained(cfg, q, ids) && p < |cfg.first| && Untouched(req, r, p)
    ensures At(q, ids, req, r, cfg.first[p])
  {
    ChainIsPipeline(q, ids[p]);
  }

  /** Only the first stop is a first stage. */
  lemma FirstOnly(cfg: Config, q: seq<Module>, ids: seq<nat>, req: map<Rid, Request>, r: Rid, p: nat)
    requires Chained(cfg, q, ids) && p < |cfg.first| && At(q, ids, req, r, cfg.first[p])
    ensures Unhandled(req, r)
  {
    var id := ids[req[r].pipeline];
    var stops := Members(q, id);
    MembersAre(q, id, 0);
    assert stops[req[r].hops] in stops;
    assert id == ids[p];
    ChainIsPipeline(q, id);
    assert stops[0] in stops && stops[0] == cfg.first[p];
  }

  /** The request's record and the places it is in are as they were, or it is in fewer. */
  ghost predicate Undisturbed(s: State, s': State, r: Rid) {
    && (r in s'.b.req <==> r in s.b.req) && (r in s.b.req ==> s'.b.req[r] == s.b.req[r]) && s.b.inc <= s'.b.inc
    && |s'.q.queue| == |s.q.queue| && (forall i :: 0 <= i < |s.q.queue| && r in s'.q.queue[i] ==> r in s.q.queue[i])
    && |s'.q.over| == |s.q.over| && (forall i :: 0 <= i < |s.q.over| && r in s'.q.over[i] ==> r in s.q.over[i])
    && |s'.t.hand| == |s.t.hand| && (forall i :: 0 <= i < |s.t.hand| && r in s'.t.hand[i] ==> r in s.t.hand[i])
    && (r in s'.e.done ==> r in s.e.done) && (r in s'.e.final <==> r in s.e.final)
  }

  lemma UndisturbedTrack(cfg: Config, q: seq<Module>, ids: seq<nat>, s: State, s': State, r: Rid, kicked: bool)
    requires OnTrack(cfg, q, ids, s, r, kicked) && Fits(cfg, s') && Undisturbed(s, s', r)
    ensures OnTrack(cfg, q, ids, s', r, kicked)
  {
  }

  // ------------------------------------------------------------------------- submits

  lemma ConcatTrack(cfg: Config, q: seq<Module>, ids: seq<nat>, s: State, p: nat, r: Rid, kicked: bool)
    requires Chained(cfg, q, ids) && OnTrack(cfg, q, ids, s, r, kicked) && p < |cfg.first|
    ensures OnTrack(cfg, q, ids, Concat(cfg, s, p), r, kicked)
  {
    if r in s.q.over[p] {
      FirstStop(cfg, q, ids, s.b.req, r, p);
    }
  }

  lemma {:induction false} KeptOrSwept(line: seq<Rid>, req: map<Rid, Request>, now: int, timeout: nat, r: Rid)
    ensures r in Kept(line, req, now, timeout) || r in Swept(line, req, now, timeout) <==> r in line
  {
    KeptSweptOcc(line, req, now, timeout, r);
    OccIn(Kept(line, req, now, timeout), r);
    OccIn(Swept(line, req, now, timeout), r);
    OccIn(line, r);
  }

  /** What was taken out of the first stage's queue is in the final queue. */
  ghost predicate TakenOut(s: State, s': State, st: nat, r: Rid) {
    && s'.b == s.b && s'.t == s.t && s'.e.done == s.e.done && s'.q.over == s.q.over && |s'.q.queue| == |s.q.queue|
    && |s'.q.queueLen| == |s.q.queueLen| && |s'.q.overLen| == |s.q.overLen|
    && (forall i :: 0 <= i < |s.q.queue| && r in s'.q.queue[i] ==> r in s.q.queue[i])
    && (r in s.e.final ==> r in s'.e.final)
    && (r in s'.e.final ==> r in s.e.final || (st < |s.q.queue| && r in s.q.queue[st]))
  }

  lemma KickedOut(s: State, st: nat, r: Rid)
    requires st < |s.q.queue| == |s.q.queueLen| && s.q.queue[st] != []
    ensures TakenOut(s, KickOut(s, st), st, r)
  {
    var line := s.q.queue[st];
    assert line == [line[0]] + line[1..];
  }

  lemma SweptOut(s: State, st: nat, now: int, timeout: nat, r: Rid)
    requires st < |s.q.queue| == |s.q.queueLen|
    ensures TakenOut(s, Sweep(s, st, now, timeout), st, r)
  {
    KeptOrSwept(s.q.queue[st], s.b.req, now, timeout, r);
  }

  lemma RoomTakesOut(cfg: Config, s: State, st: nat, flags: Flags, now: int, r: Rid)
    requires st < |s.q.queue| == |s.q.queueLen|
    ensures TakenOut(s, MakeRoom(cfg, s, st, flags, now), st, r)
  {
    var s1 := s;
    if flags.force && flags.kickOut && s.q.queueLen[st] >= cfg.queueSize && s.q.queue[st] != [] {
      KickedOut(s, st, r);
      s1 := KickOut(s, st);
    }
    if flags.timeOut && cfg.timeout != 0 {
      SweptOut(s1, st, now, cfg.timeout, r);
    }
  }

  lemma RoomTrack(cfg: Config, q: seq<Module>, ids: seq<nat>, s: State, p: nat, flags: Flags, now: int, r: Rid, kicked: bool)
    requires Chained(cfg, q, ids) && OnTrack(cfg, q, ids, s, r, kicked) && p < |cfg.first| && Numbered(s)
    requires r in s.q.queue[cfg.first[p]] ==> r !in s.e.done && r !in s.e.final
    ensures var s' := MakeRoom(cfg, s, cfg.first[p], flags, now);
      OnTrack(cfg, q, ids, s', r, kicked || (r !in s.e.final && r in s'.e.final))
  {
    var st := cfg.first[p];
    var s' := MakeRoom(cfg, s, st, flags, now);
    RoomTakesOut(cfg, s, st, flags, now, r);
    if r !in s.e.final && r in s'.e.final {
      FirstOnly(cfg, q, ids, s.b.req, r, p);
    }
  }

  lemma AppendTrack(cfg: Config, q: seq<Module>, ids: seq<nat>, s: State, st: nat, x: Rid, r: Rid, kicked: bool)
    requires OnTrack(cfg, q, ids, s, r, kicked) && st < |s.q.queue| && (x == r ==> At(q, ids, s.b.req, r, st))
    ensures OnTrack(cfg, q, ids, AppendStage(s, st, x), r, kicked)
  {
  }

  lemma RegisterTrack(cfg: Config, q: seq<Module>, ids: seq<nat>, s: State, p: nat, c: nat, now: int, r: Rid, kicked: bool)
    requires OnTrack(cfg, q, ids, s, r, kicked) && Numbered(s) && Placed(s, None) && c in s.b.net.live && p < |cfg.first|
    ensures OnTrack(cfg, q, ids, Register(s, p, c, now), r, kicked) && Untouched(Register(s, p, c, now).b.req, s.b.inc + 1, p)
  {
    if r == s.b.inc + 1 {
      GoneIsNowhere(s, r);
    } else {
      UndisturbedTrack(cfg, q, ids, s, Register(s, p, c, now), r, kicked);
    }
  }

  /** send_to_pipeline with the lock; `x` is the request it sends. */
  lemma SendTrack(cfg: Config, q: seq<Module>, ids: seq<nat>, s: State, p: nat, x: Rid, flags: Flags, now: int, wake: set<nat>, r: Rid, kicked: bool)
    requires Chained(cfg, q, ids) && OnTrack(cfg, q, ids, s, r, kicked) && p < |cfg.first| && Untouched(s.b.req, x, p)
    requires Numbered(s) && Placed(s, Some(x))
    ensures var s' := SendLocked(cfg, s, p, x, flags, now, wake);
      OnTrack(cfg, q, ids, s', r, kicked || (r !in s.e.final && r in s'.e.final))
  {
    var st, s1 := cfg.first[p], Relieved(cfg, s, p);
    ConcatTrack(cfg, q, ids, s, p, r, kicked);
    ConcatPlaced(cfg, s, p, Some(x));
    QueuedNotDone(s1, st, r, x);
    RoomTrack(cfg, q, ids, s1, p, flags, now, r, kicked);
    var s2 := MakeRoom(cfg, s1, st, flags, now);
    RoomTakesOut(cfg, s1, st, flags, now, r);
    var k := kicked || (r !in s.e.final && r in s2.e.final);
    FirstStop(cfg, q, ids, s.b.req, x, p);
    AppendTrack(cfg, q, ids, s2, st, x, r, k);
    UndisturbedTrack(cfg, q, ids, AppendStage(s2, st, x), SendLocked(cfg, s, p, x, flags, now, wake), r, k);
  }

  lemma QueuedNotDone(s: State, st: nat, r: Rid, x: Rid)
    requires Placed(s, Some(x)) && st < |s.q.queue|
    ensures r in s.q.queue[st] ==> r !in s.e.done && r !in s.e.final
  {
    OccIn(s.q.queue[st], r);
    OccUpdate(s.q.queue, st, [], r);
    OccIn(s.e.done, r);
    OccIn(s.e.final, r);
    assert Count(s, r) <= 1;
  }

  lemma OverflowTrack(cfg: Config, q: seq<Module>, ids: seq<nat>, s: State, p: nat, x: Rid, r: Rid, kicked: bool)
    requires OnTrack(cfg, q, ids, s, r, kicked) && p < |cfg.first| && Untouched(s.b.req, x, p)
    ensures OnTrack(cfg, q, ids, SendOverflow(s, p, x), r, kicked)
  {
  }

  lemma SubmitTrack(cfg: Config, q: seq<Module>, ids: seq<nat>, s: State, p: nat, c: nat, flags: Flags, now: int, locked: bool, wake: set<nat>, r: Rid, kicked: bool)
    requires Chained(cfg, q, ids) && OnTrack(cfg, q, ids, s, r, kicked) && Numbered(s) && Placed(s, None) && c in s.b.net.live
    ensures var s' := Submitted(cfg, s, p, c, flags, now, locked, wake);
      OnTrack(cfg, q, ids, s', r, kicked || (r !in s.e.final && r in s'.e.final))
  {
    var s' := Submitted(cfg, s, p, c, flags, now, locked, wake);
    if Refused(cfg, s, p, flags) {
      assert s' == s;
    } else if locked && StageFull(cfg, s, p, flags) {
      assert s' == Leak(Relieved(cfg, s, p), p, c, now);
      FullTrack(cfg, q, ids, s, p, c, now, r, kicked);
    } else {
      var s1 := Register(s, p, c, now);
      assert s' == if locked then SendLocked(cfg, s1, p, s.b.inc + 1, flags, now, wake) else SendOverflow(s1, p, s.b.inc + 1);
      AcceptedTrack(cfg, q, ids, s, p, c, flags, now, locked, wake, r, kicked);
    }
  }

  lemma FullTrack(cfg: Config, q: seq<Module>, ids: seq<nat>, s: State, p: nat, c: nat, now: int, r: Rid, kicked: bool)
    requires Chained(cfg, q, ids) && OnTrack(cfg, q, ids, s, r, kicked) && c in s.b.net.live && p < |cfg.first|
    ensures var s' := Leak(Relieved(cfg, s, p), p, c, now); OnTrack(cfg, q, ids, s', r, kicked) && s'.e.final == s.e.final
  {
    ConcatTrack(cfg, q, ids, s, p, r, kicked);
    UndisturbedTrack(cfg, q, ids, Relieved(cfg, s, p), Leak(Relieved(cfg, s, p), p, c, now), r, kicked);
  }

  lemma AcceptedTrack(cfg: Config, q: seq<Module>, ids: seq<nat>, s: State, p: nat, c: nat, flags: Flags, now: int, locked: bool, wake: set<nat>, r: Rid, kicked: bool)
    requires Chained(cfg, q, ids) && OnTrack(cfg, q, ids, s, r, kicked) && Numbered(s) && Placed(s, None) && c in s.b.net.live && p < |cfg.first|
    ensures var s1 := Register(s, p, c, now);
      var s' := if locked then SendLocked(cfg, s1, p, s.b.inc + 1, flags, now, wake) else SendOverflow(s1, p, s.b.inc + 1);
      OnTrack(cfg, q, ids, s', r, kicked || (r !in s.e.final && r in s'.e.final))
  {
    RegisterTrack(cfg, q, ids, s, p, c, now, r, kicked);
    var s1 := Register(s, p, c, now);
    if locked {
      RegisterPlaced(s, p, c, now);
      SendTrack(cfg, q, ids, s1, p, s.b.inc + 1, flags, now, wake, r, kicked);
    } else {
      OverflowTrack(cfg, q, ids, s1, p, s.b.inc + 1, r, kicked);
    }
  }

  // ------------------------------------------------------------------------- turns

  /** A turn of another request leaves this one alone. */
  lemma OtherTurn(cfg: Config, q: seq<Module>, ids: seq<nat>, s: State, w: nat, x: Rid, v: Verdict, named: Option<nat>, wake: set<nat>, r: Rid, kicked: bool)
    requires OnTrack(cfg, q, ids, s, r, kicked) && w < |cfg.home| && s.t.hand[w] == [x] && x in s.b.req && x != r
    ensures OnTrack(cfg, q, ids, Handled(cfg, s, w, x, v, named, wake), r, kicked)
  {
    OtherUndisturbed(cfg, TurnTaken(Named(s, w, named), x), w, x, v, wake, r);
    UndisturbedTrack(cfg, q, ids, s, Handled(cfg, s, w, x, v, named, wake), r, kicked);
  }

  lemma OtherUndisturbed(cfg: Config, s: State, w: nat, x: Rid, v: Verdict, wake: set<nat>, r: Rid)
    requires Fits(cfg, s) && w < |cfg.home| && x in s.b.req && x != r
    ensures Undisturbed(s, SubmitNext(cfg, s, w, x, v, wake), r) && Fits(cfg, SubmitNext(cfg, s, w, x, v, wake))
  {
    var target := Target(cfg, s, w, v);
    if !Looped(s, x, v) {
      OtherForward(LetGo(s, w, v, false), target, x, wake, r);
    } else if !cfg.cutoffReturns {
      OtherForward(Doubled(AppendDone(LetGo(s, w, v, false), x)), target, x, wake, r);
    }
  }

  lemma OtherForward(s: State, target: Option<nat>, x: Rid, wake: set<nat>, r: Rid)
    requires x in s.b.req && |s.q.queue| == |s.q.queueLen| && x != r
    ensures Undisturbed(s, Forward(s, target, x, wake), r)
  {
  }

  /** Where a request in a worker's hands goes next. */
  lemma StopAfter(cfg: Config, q: seq<Module>, ids: seq<nat>, s: State, w: nat, r: Rid)
    requires Chained(cfg, q, ids) && Fits(cfg, s) && w < |cfg.home| && At(q, ids, s.b.req, r, cfg.home[w])
    ensures var h, stops := s.b.req[r].hops, Stops(q, ids, s.b.req[r]);
      if h + 1 < |stops| then stops[h + 1] < |s.q.queue| && cfg.next[cfg.home[w]] == Some(stops[h + 1])
      else cfg.next[cfg.home[w]] == None
  {
    var h, p := s.b.req[r].hops, s.b.req[r].pipeline;
    NextStop(q, ids[p], h);
    if h + 1 < |Stops(q, ids, s.b.req[r])| {
      NextStop(q, ids[p], h + 1);
    }
  }

  /** The worker has let go of the request, which is nowhere for the moment. */
  ghost predicate Loose(cfg: Config, s: State, r: Rid) {
    && Fits(cfg, s) && r in s.b.req && r !in s.e.done && r !in s.e.final
    && (forall st :: 0 <= st < |s.q.queue| ==> r !in s.q.queue[st])
    && (forall p :: 0 <= p < |s.q.over| ==> r !in s.q.over[p])
    && (forall w :: 0 <= w < |s.t.hand| ==> r !in s.t.hand[w])
  }

  lemma LetGoLoose(cfg: Config, s: State, w: nat, named: Option<nat>, r: Rid, stopped: bool)
    requires Fits(cfg, s) && Placed(s, None) && w < |cfg.home| && s.t.hand[w] == [r] && r in s.b.req
    ensures var s2 := LetGo(TurnTaken(Named(s, w, named), r), w, Continue, stopped);
      Loose(cfg, s2, r) && s2.b.req[r] == s.b.req[r].(handled := s.b.req[r].handled + 1) && |s2.q.queue| == |s.q.queue|
  {
    HeldAlone(s, w, r);
  }

  lemma ArrivesAt(cfg: Config, q: seq<Module>, ids: seq<nat>, s: State, st: nat, r: Rid, wake: set<nat>)
    requires Loose(cfg, s, r) && st < |s.q.queue|
    requires At(q, ids, ToStage(s, st, r, wake).b.req, r, st)
    ensures OnTrack(cfg, q, ids, ToStage(s, st, r, wake), r, false)
  {
  }

  lemma ArrivesDone(cfg: Config, q: seq<Module>, ids: seq<nat>, s: State, r: Rid)
    requires Loose(cfg, s, r) && Through(q, ids, s.b.req, r)
    ensures OnTrack(cfg, q, ids, AppendDone(s, r), r, false)
  {
  }

  /** A plain turn: on to the next stop, or from the last one, or from the one the loop check cuts off at, to
      the done queue. */
  lemma HandleTrack(cfg: Config, q: seq<Module>, ids: seq<nat>, s: State, w: nat, named: Option<nat>, wake: set<nat>, r: Rid)
    requires Chained(cfg, q, ids) && Fits(cfg, s) && Placed(s, None) && w < |cfg.home| && s.t.hand[w] == [r]
    requires At(q, ids, s.b.req, r, cfg.home[w])
    requires Target(cfg, Named(s, w, named), w, Continue) == cfg.next[cfg.home[w]]
    requires Looped(s, r, Continue) ==> cfg.cutoffReturns
    ensures OnTrack(cfg, q, ids, Handled(cfg, s, w, r, Continue, named, wake), r, false)
  {
    PlainNext(cfg, s, w, named, wake, r);
    HandOnTrack(cfg, q, ids, s, w, named, wake, r);
  }

  lemma HandOnTrack(cfg: Config, q: seq<Module>, ids: seq<nat>, s: State, w: nat, named: Option<nat>, wake: set<nat>, r: Rid)
    requires Chained(cfg, q, ids) && Fits(cfg, s) && Placed(s, None) && w < |cfg.home| && s.t.hand[w] == [r]
    requires At(q, ids, s.b.req, r, cfg.home[w])
    ensures var s1, stopped := TurnTaken(Named(s, w, named), r), s.b.req[r].hops > MAX_STAGE_JUMP;
      OnTrack(cfg, q, ids, HandOn(LetGo(s1, w, Continue, stopped), stopped, cfg.next[cfg.home[w]], r, wake), r, false)
  {
    var s1, stopped := TurnTaken(Named(s, w, named), r), s.b.req[r].hops > MAX_STAGE_JUMP;
    LetGoLoose(cfg, s, w, named, r, stopped);
    StopAfter(cfg, q, ids, s, w, r);
    LooseTrack(cfg, q, ids, s.b.req[r], LetGo(s1, w, Continue, stopped), r, stopped, cfg.next[cfg.home[w]], wake);
  }

  function HandOn(s: State, stopped: bool, next: Option<nat>, r: Rid, wake: set<nat>): State
    requires r in s.b.req && |s.q.queue| == |s.q.queueLen|
  {
    if stopped then AppendDone(s, r) else Forward(s, next, r, wake)
  }

  /** A plain turn hands the request to the next stage, or to the done queue. */
  lemma PlainNext(cfg: Config, s: State, w: nat, named: Option<nat>, wake: set<nat>, r: Rid)
    requires Fits(cfg, s) && w < |cfg.home| && r in s.b.req
    requires Target(cfg, Named(s, w, named), w, Continue) == cfg.next[cfg.home[w]]
    requires Looped(s, r, Continue) ==> cfg.cutoffReturns
    ensures var s1, stopped := TurnTaken(Named(s, w, named), r), s.b.req[r].hops > MAX_STAGE_JUMP;
      Handled(cfg, s, w, r, Continue, named, wake) == HandOn(LetGo(s1, w, Continue, stopped), stopped, cfg.next[cfg.home[w]], r, wake)
  {
    assert Target(cfg, TurnTaken(Named(s, w, named), r), w, Continue) == cfg.next[cfg.home[w]];
  }

  /** `x` is the request's record before its turn. */
  lemma LooseTrack(cfg: Config, q: seq<Module>, ids: seq<nat>, x: Request, s: State, r: Rid, stopped: bool, next: Option<nat>, wake: set<nat>)
    requires Loose(cfg, s, r) && s.b.req[r] == x.(handled := x.handled + 1)
    requires x.handled == x.hops < |Stops(q, ids, x)| && x.hops <= MAX_STAGE_JUMP + 1 && (stopped <==> x.hops > MAX_STAGE_JUMP)
    requires if x.hops + 1 < |Stops(q, ids, x)| then Stops(q, ids, x)[x.hops + 1] < |s.q.queue| && next == Some(Stops(q, ids, x)[x.hops + 1])
             else next == None
    ensures OnTrack(cfg, q, ids, HandOn(s, stopped, next, r, wake), r, false)
  {
    if !stopped && next.Some? {
      ArrivesAt(cfg, q, ids, s, next.value, r, wake);
    } else {
      ArrivesDone(cfg, q, ids, s, r);
    }
  }

  lemma TurnTrack(cfg: Config, q: seq<Module>, ids: seq<nat>, s: State, l: Label, r: Rid, kicked: bool)
    requires Chained(cfg, q, ids) && OnTrack(cfg, q, ids, s, r, kicked) && Placed(s, None) && Enabled(cfg, s, l) && l.Handle?
    requires PlainTurn(cfg, s, l, r) && Apply(cfg, s, l).b.doubled == s.b.doubled
    ensures OnTrack(cfg, q, ids, Apply(cfg, s, l), r, kicked)
  {
    var x := s.t.hand[l.w][0];
    if x == r {
      HeldAlone(s, l.w, r);
      HandleTrack(cfg, q, ids, s, l.w, l.named, l.wake, r);
    } else {
      OtherTurn(cfg, q, ids, s, l.w, x, l.verdict, l.named, l.wake, r, kicked);
    }
  }

  // ------------------------------------------------------------------------- steps

  lemma TakeTrack(cfg: Config, q: seq<Module>, ids: seq<nat>, s: State, w: nat, r: Rid, kicked: bool)
    requires OnTrack(cfg, q, ids, s, r, kicked) && w < |cfg.home| && s.q.queue[cfg.home[w]] != []
    ensures OnTrack(cfg, q, ids, Taken(cfg, s, w), r, kicked)
  {
    var line := s.q.queue[cfg.home[w]];
    assert line == [line[0]] + line[1..];
  }

  lemma KickTrack(cfg: Config, q: seq<Module>, ids: seq<nat>, s: State, p: nat, wake: set<nat>, r: Rid, kicked: bool)
    requires Chained(cfg, q, ids) && OnTrack(cfg, q, ids, s, r, kicked) && p < |cfg.first|
    ensures OnTrack(cfg, q, ids, Wake(Concat(cfg, s, p), wake), r, kicked)
  {
    ConcatTrack(cfg, q, ids, s, p, r, kicked);
    UndisturbedTrack(cfg, q, ids, Concat(cfg, s, p), Wake(Concat(cfg, s, p), wake), r, kicked);
  }

  lemma DrainTrack(cfg: Config, q: seq<Module>, ids: seq<nat>, s: State, r: Rid, kicked: bool)
    requires OnTrack(cfg, q, ids, s, r, kicked)
    ensures OnTrack(cfg, q, ids, Drained(s), r, kicked)
  {
  }

  lemma EndTrack(cfg: Config, q: seq<Module>, ids: seq<nat>, s: State, disconnect: bool, r: Rid, kicked: bool)
    requires OnTrack(cfg, q, ids, s, r, kicked) && Placed(s, None) && s.e.final != [] && s.e.final[0] in s.b.req
    ensures OnTrack(cfg, q, ids, Ended(s, disconnect), r, kicked)
  {
    var s' := Ended(s, disconnect);
    assert s.e.final == [s.e.final[0]] + s.e.final[1..];
    if r == s.e.final[0] {
      EndPlaced(s, disconnect);
      GoneIsNowhere(s', r);
    } else {
      UndisturbedTrack(cfg, q, ids, s, s', r, kicked);
    }
  }

  /** Steps that move no request. */
  predicate Quiet(l: Label) {
    l.Accept? || l.Close? || l.Delay? || l.Block? || l.Spurious? || l.Exit? || l.ServeBegin? || l.Hup? || l.WakeAll?
  }

  lemma QuietTrack(cfg: Config, q: seq<Module>, ids: seq<nat>, s: State, l: Label, r: Rid, kicked: bool)
    requires OnTrack(cfg, q, ids, s, r, kicked) && Enabled(cfg, s, l) && Quiet(l)
    ensures OnTrack(cfg, q, ids, Apply(cfg, s, l), r, kicked)
  {
    UndisturbedTrack(cfg, q, ids, s, Apply(cfg, s, l), r, kicked);
  }

  lemma StepTrack(cfg: Config, q: seq<Module>, ids: seq<nat>, s: State, l: Label, r: Rid, kicked: bool)
    requires Chained(cfg, q, ids) && OnTrack(cfg, q, ids, s, r, kicked) && Placed(s, None) && Numbered(s)
    requires Enabled(cfg, s, l) && PlainTurn(cfg, s, l, r) && Apply(cfg, s, l).b.doubled == s.b.doubled
    ensures OnTrack(cfg, q, ids, Apply(cfg, s, l), r, kicked || KicksOut(cfg, s, l, r))
  {
    if Quiet(l) {
      QuietTrack(cfg, q, ids, s, l, r, kicked);
    } else if l.Handle? {
      TurnTrack(cfg, q, ids, s, l, r, kicked);
    } else if l.Submit? {
      SubmitTrack(cfg, q, ids, s, l.p, l.c, l.flags, l.now, l.locked, l.wake, r, kicked);
    } else {
      MoveTrack(cfg, q, ids, s, l, r, kicked);
    }
  }

  lemma MoveTrack(cfg: Config, q: seq<Module>, ids: seq<nat>, s: State, l: Label, r: Rid, kicked: bool)
    requires Chained(cfg, q, ids) && OnTrack(cfg, q, ids, s, r, kicked) && Placed(s, None) && Enabled(cfg, s, l)
    requires l.Kick? || l.Take? || l.Drain? || l.ServeEnd?
    ensures OnTrack(cfg, q, ids, Apply(cfg, s, l), r, kicked)
  {
    match l
    case Kick(p, wake) => KickTrack(cfg, q, ids, s, p, wake, r, kicked);
    case Take(w) => TakeTrack(cfg, q, ids, s, w, r, kicked);
    case Drain => DrainTrack(cfg, q, ids, s, r, kicked);
    case ServeEnd(disconnect) => EndTrack(cfg, q, ids, s, disconnect, r, kicked);
  }

  // -------------------------------------------------------------------------- runs

  /** Every turn of the request in the run is plain. */
  ghost predicate PlainRun(cfg: Config, run: seq<Label>, r: Rid) {
    forall i, p :: 0 <= i < |run| && RunsTo(cfg, run[..i], p) && Enabled(cfg, p, run[i]) ==> PlainTurn(cfg, p, run[i], r)
  }

  /** The request was kicked or swept out in the run. */
  ghost predicate WasKicked(cfg: Config, run: seq<Label>, r: Rid) {
    exists i :: 0 <= i < |run| && KickedAt(cfg, run, r, i)
  }

  ghost predicate KickedAt(cfg: Config, run: seq<Label>, r: Rid, i: nat)
    requires i < |run|
  {
    exists p :: RunsTo(cfg, run[..i], p) && Enabled(cfg, p, run[i]) && KicksOut(cfg, p, run[i], r)
  }

  lemma KickedBefore(cfg: Config, run: seq<Label>, r: Rid, i: nat)
    requires i < |run| - 1
    ensures KickedAt(cfg, run[..|run| - 1], r, i) <==> KickedAt(cfg, run, r, i)
  {
    var run' := run[..|run| - 1];
    assert run'[..i] == run[..i] && run'[i] == run[i];
  }

  lemma KickedLast(cfg: Config, run: seq<Label>, p: State, r: Rid)
    requires run != [] && RunsTo(cfg, run[..|run| - 1], p) && Enabled(cfg, p, run[|run| - 1])
    ensures KickedAt(cfg, run, r, |run| - 1) <==> KicksOut(cfg, p, run[|run| - 1], r)
  {
    var k := |run| - 1;
    forall p' | RunsTo(cfg, run[..k], p') ensures p' == p {
      RunsToUnique(cfg, run[..k], p, p');
    }
  }

  lemma PlainBefore(cfg: Config, run: seq<Label>, r: Rid)
    requires PlainRun(cfg, run, r) && run != []
    ensures PlainRun(cfg, run[..|run| - 1], r)
  {
    var run' := run[..|run| - 1];
    forall i, p | 0 <= i < |run'| && RunsTo(cfg, run'[..i], p) && Enabled(cfg, p, run'[i]) ensures PlainTurn(cfg, p, run'[i], r) {
      assert run'[..i] == run[..i];
    }
  }

  lemma KickedStep(cfg: Config, run: seq<Label>, p: State, r: Rid)
    requires run != [] && RunsTo(cfg, run[..|run| - 1], p) && Enabled(cfg, p, run[|run| - 1])
    ensures WasKicked(cfg, run, r) <==> WasKicked(cfg, run[..|run| - 1], r) || KicksOut(cfg, p, run[|run| - 1], r)
  {
    var k := |run| - 1;
    KickedLast(cfg, run, p, r);
    forall i | 0 <= i < k ensures KickedAt(cfg, run[..k], r, i) <==> KickedAt(cfg, run, r, i) {
      KickedBefore(cfg, run, r, i);
    }
    if WasKicked(cfg, run[..k], r) {
      var i :| 0 <= i < k && KickedAt(cfg, run[..k], r, i);
      assert KickedAt(cfg, run, r, i);
    }
  }

  lemma PlacedInRun(cfg: Config, q: seq<Module>, ids: seq<nat>, run: seq<Label>, s: State)
    requires Chained(cfg, q, ids) && RunsTo(cfg, run, s) && s.b.doubled == 0
    ensures Placed(s, None) && Numbered(s)
  {
    RunCore(cfg, run, s);
  }

  lemma RunTrack(cfg: Config, q: seq<Module>, ids: seq<nat>, run: seq<Label>, s: State, l: Label, r: Rid, kicked: bool)
    requires Chained(cfg, q, ids) && RunsTo(cfg, run, s) && OnTrack(cfg, q, ids, s, r, kicked) && s.b.doubled == 0
    requires Enabled(cfg, s, l) && PlainTurn(cfg, s, l, r) && Apply(cfg, s, l).b.doubled == 0
    ensures OnTrack(cfg, q, ids, Apply(cfg, s, l), r, kicked || KicksOut(cfg, s, l, r))
  {
    PlacedInRun(cfg, q, ids, run, s);
    StepTrack(cfg, q, ids, s, l, r, kicked);
  }

  /** A request all whose turns are plain, in a run in which the others do what they like: it is at the stop of
      its chain that it has earned, and when it is answered it has been at every stop, unless it was kicked out;
      then it has been at none. */
  lemma {:induction false} PlainRequestFollowsItsChain(cfg: Config, q: seq<Module>, ids: seq<nat>, run: seq<Label>, s: State, r: Rid)
    requires Chained(cfg, q, ids) && RunsTo(cfg, run, s) && s.b.doubled == 0 && PlainRun(cfg, run, r)
    ensures OnTrack(cfg, q, ids, s, r, WasKicked(cfg, run, r))
    decreases |run|
  {
    if run == [] {
      StartTrack(cfg, q, ids, r);
    } else {
      var k := |run| - 1;
      var p :| RunsTo(cfg, run[..k], p) && Enabled(cfg, p, run[k]) && s == Apply(cfg, p, run[k]);
      StepHistory(cfg, p, run[k]);
      PlainBefore(cfg, run, r);
      PlainRequestFollowsItsChain(cfg, q, ids, run[..k], p, r);
      KickedStep(cfg, run, p, r);
      RunTrack(cfg, q, ids, run[..k], p, run[k], r, WasKicked(cfg, run[..k], r));
    }
  }

  lemma StartTrack(cfg: Config, q: seq<Module>, ids: seq<nat>, r: Rid)
    requires Chained(cfg, q, ids)
    ensures OnTrack(cfg, q, ids, Init(cfg), r, false)
  {
  }

  // --------------------------------------------------------------- when all are plain

  /** The handler answers PIPELINE_CONTINUE and names no stage. */
  predicate Plain(l: Label) {
    l.Handle? ==> l.verdict == Continue && l.named == None
  }

  ghost predicate NoneNamed(s: State) {
    forall w :: 0 <= w < |s.t.jump| ==> s.t.jump[w] == None
  }

  lemma StepNamesNone(cfg: Config, s: State, l: Label)
    requires Enabled(cfg, s, l) && Plain(l) && NoneNamed(s)
    ensures NoneNamed(Apply(cfg, s, l)) && forall r :: PlainTurn(cfg, s, l, r)
  {
    if l.Handle? {
      TurnNamesNone(cfg, s, l.w, s.t.hand[l.w][0], l.wake);
      assert s.t.jump[l.w] == None;
    }
  }

  lemma TurnNamesNone(cfg: Config, s: State, w: nat, x: Rid, wake: set<nat>)
    requires Fits(cfg, s) && w < |cfg.home| && x in s.b.req && NoneNamed(s)
    ensures NoneNamed(Handled(cfg, s, w, x, Continue, None, wake))
  {
    assert Named(s, w, None) == s;
  }

  /** If all handlers are plain no stage is ever named, so every turn is plain. */
  lemma {:induction false} AllPlain(cfg: Config, run: seq<Label>, s: State)
    requires Wired(cfg) && RunsTo(cfg, run, s) && forall i :: 0 <= i < |run| ==> Plain(run[i])
    ensures NoneNamed(s) && forall r :: PlainRun(cfg, run, r)
    decreases |run|
  {
    if run != [] {
      var k := |run| - 1;
      var p :| RunsTo(cfg, run[..k], p) && Enabled(cfg, p, run[k]) && s == Apply(cfg, p, run[k]);
      AllPlain(cfg, run[..k], p);
      StepNamesNone(cfg, p, run[k]);
      forall r ensures PlainRun(cfg, run, r) {
        PlainAfter(cfg, run, p, r);
      }
    }
  }

  lemma PlainAfter(cfg: Config, run: seq<Label>, p: State, r: Rid)
    requires run != [] && RunsTo(cfg, run[..|run| - 1], p) && Enabled(cfg, p, run[|run| - 1])
    requires PlainRun(cfg, run[..|run| - 1], r) && PlainTurn(cfg, p, run[|run| - 1], r)
    ensures PlainRun(cfg, run, r)
  {
    var k := |run| - 1;
    forall i, p' | 0 <= i < |run| && RunsTo(cfg, run[..i], p') && Enabled(cfg, p', run[i]) ensures PlainTurn(cfg, p', run[i], r) {
      if i < k {
        assert run[..k][..i] == run[..i] && run[..k][i] == run[i];
      } else {
        RunsToUnique(cfg, run[..k], p, p');
      }
    }
  }

  /** No chain is longer than the loop check allows. */
  ghost predicate ShortChains(q: seq<Module>, ids: seq<nat>) {
    forall p :: 0 <= p < |ids| ==> |Members(q, ids[p])| <= MAX_STAGE_JUMP + 1
  }

  lemma PlainStepDoublesNone(cfg: Config, q: seq<Module>, ids: seq<nat>, s: State, l: Label)
    requires ShortChains(q, ids) && Enabled(cfg, s, l)
    requires l.Handle? ==> At(q, ids, s.b.req, s.t.hand[l.w][0], cfg.home[l.w])
    ensures Apply(cfg, s, l).b.doubled == s.b.doubled
  {
  }

  /** In a run of plain handlers on chains of that length the check never strikes ... */
  lemma {:induction false} PlainNeverDoubles(cfg: Config, q: seq<Module>, ids: seq<nat>, run: seq<Label>, s: State)
    requires Chained(cfg, q, ids) && ShortChains(q, ids) && RunsTo(cfg, run, s) && forall i :: 0 <= i < |run| ==> Plain(run[i])
    ensures s.b.doubled == 0
    decreases |run|
  {
    if run != [] {
      var k := |run| - 1;
      var p :| RunsTo(cfg, run[..k], p) && Enabled(cfg, p, run[k]) && s == Apply(cfg, p, run[k]);
      PlainNeverDoubles(cfg, q, ids, run[..k], p);
      PlainRunDoublesNone(cfg, q, ids, run[..k], p, run[k]);
    }
  }

  lemma PlainRunDoublesNone(cfg: Config, q: seq<Module>, ids: seq<nat>, run: seq<Label>, s: State, l: Label)
    requires Chained(cfg, q, ids) && ShortChains(q, ids) && RunsTo(cfg, run, s) && forall i :: 0 <= i < |run| ==> Plain(run[i])
    requires s.b.doubled == 0 && Enabled(cfg, s, l)
    ensures Apply(cfg, s, l).b.doubled == 0
  {
    if l.Handle? {
      AllPlain(cfg, run, s);
      HeldOnTrack(cfg, q, ids, run, s, l.w);
    }
    PlainStepDoublesNone(cfg, q, ids, s, l);
  }

  lemma HeldOnTrack(cfg: Config, q: seq<Module>, ids: seq<nat>, run: seq<Label>, s: State, w: nat)
    requires Chained(cfg, q, ids) && RunsTo(cfg, run, s) && s.b.doubled == 0 && w < |s.t.hand| && |s.t.hand[w]| == 1
    requires PlainRun(cfg, run, s.t.hand[w][0])
    ensures w < |cfg.home| && At(q, ids, s.b.req, s.t.hand[w][0], cfg.home[w])
  {
    PlainRequestFollowsItsChain(cfg, q, ids, run, s, s.t.hand[w][0]);
  }

  /** ... and every request follows its chain. */
  lemma PlainRequestsFollowTheirChain(cfg: Config, q: seq<Module>, ids: seq<nat>, run: seq<Label>, s: State)
    requires Chained(cfg, q, ids) && ShortChains(q, ids) && RunsTo(cfg, run, s) && forall i :: 0 <= i < |run| ==> Plain(run[i])
    ensures s.b.doubled == 0 && forall r :: OnTrack(cfg, q, ids, s, r, WasKicked(cfg, run, r))
  {
    PlainNeverDoubles(cfg, q, ids, run, s);
    AllPlain(cfg, run, s);
    forall r ensures OnTrack(cfg, q, ids, s, r, WasKicked(cfg, run, r)) {
      PlainRequestFollowsItsChain(cfg, q, ids, run, s, r);
    }
  }
}
