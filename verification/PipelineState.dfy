/**
  The staged request pipeline of csf/pipeline.c and csf/submit_request.c as a
  transition system.  Requests are numbered in the order of their submission;
  stages, pipelines, workers and connections are indices without a bound.
  A label carries everything a step does not decide itself: whether a trylock
  succeeded, which waiting threads a signal woke, what a handler or responder
  answered, and the clock.
*/
module PipelineState {

  type Rid = nat

  datatype Option<T> = None | Some(value: T)

  /** MAX_STAGE_JUMP */
  const MAX_STAGE_JUMP: nat := 256

  const TWO32: nat := 0x1_0000_0000
  const TWO64: nat := 0x1_0000_0000_0000_0000

  /** The value an unsigned integer of modulus `m` holds for `x`. */
  function Wrap(x: int, m: nat): (y: nat)
    requires m > 0
    ensures y < m && (0 <= x ==> y <= x) && (0 <= x < m ==> y == x)
    decreases x < 0, if x < 0 then -x else x
  {
    if x < 0 then Wrap(x + m, m) else if x < m then x else Wrap(x - m, m)
  }

  /** uint32_t and uint64_t arithmetic. */
  function U32(x: int): nat {
    Wrap(x, TWO32)
  }

  function U64(x: int): nat {
    Wrap(x, TWO64)
  }

  lemma {:induction false} WrapPeriod(x: int, m: nat)
    requires m > 0
    ensures Wrap(x + m, m) == Wrap(x, m)
  {
  }

  /** Wrapping may wait until after the sum. */
  lemma {:induction false} WrapSum(x: int, d: int, m: nat)
    requires m > 0
    ensures Wrap(Wrap(x, m) + d, m) == Wrap(x + d, m)
    decreases x < 0, if x < 0 then -x else x
  {
    if x < 0 {
      WrapSum(x + m, d, m);
      WrapPeriod(x + d, m);
    } else if x >= m {
      WrapSum(x - m, d, m);
      WrapPeriod(x - m + d, m);
    }
  }

  datatype Config = Config(
    first: seq<nat>,          // the first stage of each pipeline
    next: seq<Option<nat>>,   // the stage after each stage
    home: seq<nat>,           // the stage of each worker
    queueSize: nat,           // pipeline_queue_size
    timeout: nat,             // request_timeout, 0 for none
    cutoffReturns: bool)      // the loop check returns after handing the request to the done queue

  /** Pipelines start at, and workers belong to, stages that exist. */
  predicate Wired(cfg: Config) {
    && (forall p :: 0 <= p < |cfg.first| ==> cfg.first[p] < |cfg.next|)
    && (forall w :: 0 <= w < |cfg.home| ==> cfg.home[w] < |cfg.next|)
  }

  /** A positive queue size of 32 bits, a first stage of its own for every pipeline, and at least one
      thread for every stage. */
  ghost predicate GoodConfig(cfg: Config) {
    && 0 < cfg.queueSize < TWO32
    && Wired(cfg)
    && (forall p, q :: 0 <= p < q < |cfg.first| ==> cfg.first[p] != cfg.first[q])
    && (forall i :: 0 <= i < |cfg.next| ==> Staffed(cfg, i))
  }

  ghost predicate Staffed(cfg: Config, st: nat) {
    exists w :: 0 <= w < |cfg.home| && cfg.home[w] == st
  }

  /** `hops` is nstage; `handled` counts the turns the request has had in a worker's hands. */
  datatype Request = Request(conn: nat, pipeline: nat, clock: int, hops: nat, handled: nat)

  datatype Thread = Ready | Blocked | Woken | Busy | Exited

  datatype Connection = Connection(open: bool, refs: nat)

  datatype Net = Net(live: map<nat, Connection>, freed: set<nat>)

  /** The queues requests wait in. */
  datatype Queues = Queues(
    queue: seq<seq<Rid>>,     // request_head of every stage
    queueLen: seq<nat>,       // queue_len of every stage
    over: seq<seq<Rid>>,      // tmp_request_head of every pipeline
    overLen: seq<nat>,        // tmp_queue_len of every pipeline
    active: seq<nat>)         // apq, the pipelines with an overflow queue to kick

  /** The worker threads. */
  datatype Crew = Crew(
    hand: seq<seq<Rid>>,      // the request in each worker's hands, if any
    jump: seq<Option<nat>>,   // next_rqcbp of each worker
    thread: seq<Thread>)

  /** The event thread's side. */
  datatype Events = Events(
    done: seq<Rid>,           // the done queue
    final: seq<Rid>,          // final_request_head
    serving: bool,            // the first final request has been counted down and is being answered
    counter: nat,             // pipeline_queue_len
    kicked: nat,              // requests ever kicked or swept out
    graceful: bool)           // graceful_restart

  /** The requests and the connections they hold. */
  datatype Ledger = Ledger(
    inc: nat,                 // requests numbered so far
    req: map<Rid, Request>,   // accepted and not yet cleaned up
    leaked: map<Rid, Request>,// allocated, refused by the second check, and never freed
    net: Net,                 // connection states, in memory and freed
    doubled: nat)             // times a request was put into two queues at once

  datatype State = State(q: Queues, t: Crew, e: Events, b: Ledger)

  // ----------------------------------------------------------- queue operations

  function Without(s: seq<nat>, x: nat): seq<nat> {
    if s == [] then [] else (if s[0] == x then [] else [s[0]]) + Without(s[1..], x)
  }

  /** Appending to a stage queue. */
  function AppendStage(s: State, st: nat, r: Rid): State
    requires st < |s.q.queue| && st < |s.q.queueLen|
  {
    s.(q := s.q.(queue := s.q.queue[st := s.q.queue[st] + [r]],
                 queueLen := s.q.queueLen[st := U32(s.q.queueLen[st] + 1)]))
  }

  /** Moving a pipeline's overflow queue to its first stage. */
  function Concat(cfg: Config, s: State, p: nat): State
    requires Fits(cfg, s) && p < |cfg.first|
  {
    var st := cfg.first[p];
    s.(q := Queues(s.q.queue[st := s.q.queue[st] + s.q.over[p]],
                   s.q.queueLen[st := U32(s.q.queueLen[st] + s.q.overLen[p])],
                   s.q.over[p := []],
                   s.q.overLen[p := 0],
                   Without(s.q.active, p)))
  }

  /** Kicking the oldest waiting request out to the final queue. */
  function KickOut(s: State, st: nat): State
    requires st < |s.q.queue| && st < |s.q.queueLen| && s.q.queue[st] != []
  {
    s.(q := s.q.(queue := s.q.queue[st := s.q.queue[st][1..]],
                 queueLen := s.q.queueLen[st := U32(s.q.queueLen[st] as int - 1)]),
       e := s.e.(counter := U64(s.e.counter - 1), final := s.e.final + [s.q.queue[st][0]], kicked := s.e.kicked + 1))
  }

  predicate Expired(req: map<Rid, Request>, r: Rid, now: int, timeout: nat) {
    r in req && now - req[r].clock > timeout
  }

  /** The requests a timeout sweep leaves in a queue, and those it takes out. */
  function Kept(q: seq<Rid>, req: map<Rid, Request>, now: int, timeout: nat): seq<Rid> {
    if q == [] then []
    else
      var r := q[|q| - 1];
      Kept(q[..|q| - 1], req, now, timeout) + (if Expired(req, r, now, timeout) then [] else [r])
  }

  function Swept(q: seq<Rid>, req: map<Rid, Request>, now: int, timeout: nat): seq<Rid> {
    if q == [] then []
    else
      var r := q[|q| - 1];
      Swept(q[..|q| - 1], req, now, timeout) + (if Expired(req, r, now, timeout) then [r] else [])
  }

  function Sweep(s: State, st: nat, now: int, timeout: nat): State
    requires st < |s.q.queue| && st < |s.q.queueLen|
  {
    var out := Swept(s.q.queue[st], s.b.req, now, timeout);
    s.(q := s.q.(queue := s.q.queue[st := Kept(s.q.queue[st], s.b.req, now, timeout)],
                 queueLen := s.q.queueLen[st := U32(s.q.queueLen[st] - |out|)]),
       e := s.e.(counter := U64(s.e.counter - |out|), final := s.e.final + out, kicked := s.e.kicked + |out|))
  }

  // ------------------------------------------------------------------- signals

  /** Threads that pthread_cond_signal may wake: at least one, if any waits. */
  predicate MayWake(home: seq<nat>, thread: seq<Thread>, st: nat, wake: set<nat>) {
    && (forall w :: w in wake ==> w < |thread| && w < |home| && home[w] == st && thread[w] == Blocked)
    && ((exists w :: 0 <= w < |thread| && w < |home| && home[w] == st && thread[w] == Blocked) ==> wake != {})
  }

  predicate WakeOk(cfg: Config, s: State, st: nat, wake: set<nat>) {
    MayWake(cfg.home, s.t.thread, st, wake)
  }

  function WakeThreads(t: seq<Thread>, wake: set<nat>): (t': seq<Thread>)
    ensures |t'| == |t|
    ensures forall w :: 0 <= w < |t| ==> t'[w] == if w in wake then Woken else t[w]
  {
    if t == [] then []
    else
      var k := |t| - 1;
      WakeThreads(t[..k], wake) + [if k in wake then Woken else t[k]]
  }

  function Wake(s: State, wake: set<nat>): State {
    s.(t := s.t.(thread := WakeThreads(s.t.thread, wake)))
  }

  /** broadcast_signal_to_allqueue */
  function Broadcast(s: State): State {
    Wake(s, set w | 0 <= w < |s.t.thread| && s.t.thread[w] == Blocked)
  }

  // ------------------------------------------------------------------- submits

  datatype Flags = Flags(force: bool, kickOut: bool, timeOut: bool)

  /** submit_request turns the request away without allocating anything. */
  predicate Refused(cfg: Config, s: State, p: nat, flags: Flags) {
    p >= |cfg.first| || s.e.graceful || (!flags.force && s.e.counter >= cfg.queueSize)
  }

  /** The request gets its number, its hold on the connection and its place in the count. */
  function Register(s: State, p: nat, conn: nat, now: int): State
    requires conn in s.b.net.live
  {
    s.(b := s.b.(inc := s.b.inc + 1,
                 req := s.b.req[s.b.inc + 1 := Request(conn, p, now, 0, 0)],
                 net := Hold(s.b.net, conn)),
       e := s.e.(counter := U64(s.e.counter + 1)))
  }

  /** The request is allocated and holds the connection, but is dropped on the floor. */
  function Leak(s: State, p: nat, conn: nat, now: int): State
    requires conn in s.b.net.live
  {
    s.(b := s.b.(inc := s.b.inc + 1,
                 leaked := s.b.leaked[s.b.inc + 1 := Request(conn, p, now, 0, 0)],
                 net := Hold(s.b.net, conn)))
  }

  function Relieved(cfg: Config, s: State, p: nat): State
    requires Fits(cfg, s) && p < |cfg.first|
  {
    if s.q.over[p] != [] then Concat(cfg, s, p) else s
  }

  /** The second check, under the lock of the first stage. */
  predicate StageFull(cfg: Config, s: State, p: nat, flags: Flags)
    requires Fits(cfg, s) && p < |cfg.first|
  {
    !flags.force && Relieved(cfg, s, p).q.queueLen[cfg.first[p]] >= cfg.queueSize
  }

  /** What a submit leaves alone once the request is registered. */
  predicate SendFrame(s: State, s': State) {
    && s'.t.hand == s.t.hand && s'.t.jump == s.t.jump && s'.e.done == s.e.done && s'.e.serving == s.e.serving
    && s'.e.graceful == s.e.graceful && s'.b.inc == s.b.inc && s'.b.req == s.b.req && s'.b.leaked == s.b.leaked
    && s'.b.net == s.b.net && s'.b.doubled == s.b.doubled && s'.e.kicked >= s.e.kicked
    && |s'.q.queue| == |s.q.queue| && |s'.q.queueLen| == |s.q.queueLen| && |s'.q.over| == |s.q.over|
    && |s'.q.overLen| == |s.q.overLen| && |s'.t.thread| == |s.t.thread| && |s'.e.final| >= |s.e.final|
  }

  function MakeRoom(cfg: Config, s: State, st: nat, flags: Flags, now: int): (s': State)
    requires st < |s.q.queue| && st < |s.q.queueLen|
    ensures SendFrame(s, s')
    ensures s'.q.over == s.q.over && s'.q.overLen == s.q.overLen && s'.q.active == s.q.active && s'.t.thread == s.t.thread
    ensures forall i :: 0 <= i < |s.q.queue| && i != st ==> s'.q.queue[i] == s.q.queue[i]
  {
    var s1 := if flags.force && flags.kickOut && s.q.queueLen[st] >= cfg.queueSize && s.q.queue[st] != []
              then KickOut(s, st) else s;
    if flags.timeOut && cfg.timeout != 0 then Sweep(s1, st, now, cfg.timeout) else s1
  }

  /** send_to_pipeline with the lock, past the second check. */
  function SendLocked(cfg: Config, s: State, p: nat, r: Rid, flags: Flags, now: int, wake: set<nat>): (s': State)
    requires Fits(cfg, s) && p < |cfg.first|
    ensures SendFrame(s, s')
  {
    var st := cfg.first[p];
    Wake(AppendStage(MakeRoom(cfg, Relieved(cfg, s, p), st, flags, now), st, r), wake)
  }

  /** send_to_pipeline without the lock. */
  function SendOverflow(s: State, p: nat, r: Rid): State
    requires p < |s.q.over| && p < |s.q.overLen|
  {
    s.(q := s.q.(over := s.q.over[p := s.q.over[p] + [r]],
                 overLen := s.q.overLen[p := U32(s.q.overLen[p] + 1)],
                 active := if p in s.q.active then s.q.active else s.q.active + [p]))
  }

  // -------------------------------------------------------------------- workers

  datatype Verdict = ToDone | Continue | Requeue

  function AppendDone(s: State, r: Rid): State {
    s.(e := s.e.(done := s.e.done + [r]))
  }

  /** to_next_stage */
  function ToStage(s: State, st: nat, r: Rid, wake: set<nat>): State
    requires st < |s.q.queue| && st < |s.q.queueLen| && r in s.b.req
  {
    Wake(AppendStage(s, st, r).(b := s.b.(req := s.b.req[r := s.b.req[r].(hops := s.b.req[r].hops + 1)])), wake)
  }

  /** Where a request goes on: the stage named by the handler, the next one, or the same one. */
  function Target(cfg: Config, s: State, w: nat, v: Verdict): Option<nat>
    requires Fits(cfg, s) && w < |cfg.home|
  {
    if v == Requeue then Some(cfg.home[w])
    else if v == Continue then (if s.t.jump[w].Some? then s.t.jump[w] else cfg.next[cfg.home[w]])
    else None
  }

  /** The request has gone round too often. */
  predicate Looped(s: State, r: Rid, v: Verdict)
    requires r in s.b.req
  {
    v != ToDone && s.b.req[r].hops > MAX_STAGE_JUMP
  }

  /** The loop check ends the matter here. */
  predicate Stopped(cfg: Config, s: State, r: Rid, v: Verdict)
    requires r in s.b.req
  {
    cfg.cutoffReturns && Looped(s, r, v)
  }

  /** The threads woken are those a signal to the target stage may wake. */
  predicate SignalOk(cfg: Config, s: State, w: nat, r: Rid, v: Verdict, wake: set<nat>)
    requires Fits(cfg, s) && w < |cfg.home| && r in s.b.req
  {
    var target := Target(cfg, s, w, v);
    target.Some? && target.value < |cfg.next| && !Stopped(cfg, s, r, v) ==> WakeOk(cfg, s, target.value, wake)
  }

  /** The worker lets go of its request; CONTINUE also uses up the stage the handler named. */
  function LetGo(s: State, w: nat, v: Verdict, stopped: bool): State
    requires w < |s.t.hand| && w < |s.t.thread| && w < |s.t.jump|
  {
    s.(t := Crew(s.t.hand[w := []],
                 if v == Continue && !stopped then s.t.jump[w := None] else s.t.jump,
                 s.t.thread[w := Ready]))
  }

  function Doubled(s: State): State {
    s.(b := s.b.(doubled := s.b.doubled + 1))
  }

  /** What handing a request on leaves alone. */
  predicate HandleFrame(s: State, s': State) {
    && s'.q.over == s.q.over && s'.q.overLen == s.q.overLen && s'.q.active == s.q.active
    && s'.e.final == s.e.final && s'.e.serving == s.e.serving && s'.e.counter == s.e.counter && s'.e.graceful == s.e.graceful
    && s'.b.inc == s.b.inc && s'.b.leaked == s.b.leaked && s'.b.net == s.b.net && s'.e.kicked == s.e.kicked
    && s'.b.req.Keys == s.b.req.Keys
    && (forall x :: x in s.b.req ==> s'.b.req[x].conn == s.b.req[x].conn)
  }

  /** On to the target stage, or to the done queue after the last one. */
  function Forward(s: State, target: Option<nat>, r: Rid, wake: set<nat>): (s': State)
    requires r in s.b.req && |s.q.queue| == |s.q.queueLen|
    ensures HandleFrame(s, s')
  {
    if target.Some? && target.value < |s.q.queue| then ToStage(s, target.value, r, wake) else AppendDone(s, r)
  }

  /** submit_next.  As written the loop check falls through, and the request is queued again. */
  function SubmitNext(cfg: Config, s: State, w: nat, r: Rid, v: Verdict, wake: set<nat>): (s': State)
    requires Fits(cfg, s) && w < |cfg.home| && r in s.b.req
    ensures HandleFrame(s, s') && s'.t.hand == s.t.hand[w := []]
    ensures s'.t.thread == s.t.thread[w := Ready] ||
      (!Stopped(cfg, s, r, v) && Target(cfg, s, w, v).Some? && Target(cfg, s, w, v).value < |s.q.queue| &&
       s'.t.thread == WakeThreads(s.t.thread[w := Ready], wake))
  {
    var target := Target(cfg, s, w, v);
    if !Looped(s, r, v) then Forward(LetGo(s, w, v, false), target, r, wake)
    else if cfg.cutoffReturns then AppendDone(LetGo(s, w, v, true), r)
    else
      var s1 := AppendDone(LetGo(s, w, v, false), r);
      Forward(Doubled(s1), target, r, wake)
  }

  // ---------------------------------------------------------------- connections

  /** CS_HOLD */
  function Hold(net: Net, c: nat): Net
    requires c in net.live
  {
    net.(live := net.live[c := net.live[c].(refs := net.live[c].refs + 1)])
  }

  /** CS_RELE */
  function Release(net: Net, c: nat): Net
    requires c in net.live && net.live[c].refs > 0
  {
    if net.live[c].refs == 1 then Net(net.live - {c}, net.freed + {c})
    else net.(live := net.live[c := net.live[c].(refs := net.live[c].refs - 1)])
  }

  /** conn_state_cleanup */
  function CloseConn(net: Net, c: nat): Net
    requires c in net.live && net.live[c].refs > 0
  {
    Release(net.(live := net.live[c := net.live[c].(open := false)]), c)
  }

  /** The end of a request: the responder may ask to disconnect, then the hold is dropped. */
  function ReleaseFor(net: Net, c: nat, disconnect: bool): Net {
    var net1 := if disconnect && c in net.live && net.live[c].refs > 0 then CloseConn(net, c) else net;
    if c in net1.live && net1.live[c].refs > 0 then Release(net1, c) else net1
  }

  // ----------------------------------------------------------------------- steps

  datatype Label =
    | Accept(c: nat)
    | Close(c: nat)
    | Submit(p: nat, c: nat, flags: Flags, now: int, locked: bool, wake: set<nat>)
    | Kick(p: nat, wake: set<nat>)
    | Take(w: nat)
    | Delay(w: nat)
    | Block(w: nat)
    | Spurious(w: nat)
    | Exit(w: nat)
    | Handle(w: nat, verdict: Verdict, named: Option<nat>, wake: set<nat>)
    | Drain
    | ServeBegin
    | ServeEnd(disconnect: bool)
    | Hup
    | WakeAll

  predicate Fits(cfg: Config, s: State) {
    && |s.q.queue| == |s.q.queueLen| == |cfg.next|
    && |s.q.over| == |s.q.overLen| == |cfg.first|
    && |s.t.hand| == |s.t.jump| == |s.t.thread| == |cfg.home|
    && Wired(cfg)
  }

  function Init(cfg: Config): State {
    State(Queues(seq(|cfg.next|, _ => []), seq(|cfg.next|, _ => 0),
                 seq(|cfg.first|, _ => []), seq(|cfg.first|, _ => 0), []),
          Crew(seq(|cfg.home|, _ => []), seq(|cfg.home|, _ => None), seq(|cfg.home|, _ => Ready)),
          Events([], [], false, 0, 0, false),
          Ledger(0, map[], map[], Net(map[], {}), 0))
  }

  /** A worker past the check for the end, in front of its queue. */
  predicate AtQueue(s: State, w: nat) {
    && w < |s.t.thread|
    && (s.t.thread[w] == Ready || (s.t.thread[w] == Woken && !(s.e.graceful && s.e.counter == 0)))
  }

  ghost predicate Enabled(cfg: Config, s: State, l: Label) {
    Fits(cfg, s) &&
    match l
    case Accept(c) => c !in s.b.net.live && c !in s.b.net.freed
    case Close(c) => c in s.b.net.live && s.b.net.live[c].open && s.b.net.live[c].refs > 0
    case Submit(p, c, flags, _, locked, wake) =>
      && c in s.b.net.live && |s.b.req| + 1 < TWO64
      && (!Refused(cfg, s, p, flags) && locked && !StageFull(cfg, s, p, flags) ==> WakeOk(cfg, s, cfg.first[p], wake))
    case Kick(p, wake) => p in s.q.active && p < |cfg.first| && WakeOk(cfg, s, cfg.first[p], wake)
    case Take(w) => AtQueue(s, w) && s.q.queue[cfg.home[w]] != []
    case Delay(w) => AtQueue(s, w) && s.q.queue[cfg.home[w]] != []
    case Block(w) => AtQueue(s, w) && s.q.queue[cfg.home[w]] == []
    case Spurious(w) => w < |s.t.thread| && s.t.thread[w] == Blocked
    case Exit(w) => w < |s.t.thread| && s.t.thread[w] == Woken && s.e.graceful && s.e.counter == 0
    case Handle(w, v, named, wake) =>
      && w < |s.t.thread| && s.t.thread[w] == Busy && |s.t.hand[w]| == 1 && s.t.hand[w][0] in s.b.req
      && (named.Some? ==> named.value < |cfg.next|)
      && SignalOk(cfg, Named(s, w, named), w, s.t.hand[w][0], v, wake)
    case Drain => true
    case ServeBegin => !s.e.serving && s.e.final != []
    case ServeEnd(disconnect) =>
      && s.e.serving && s.e.final != [] && s.e.final[0] in s.b.req
      && (disconnect ==> s.b.req[s.e.final[0]].conn in s.b.net.live && s.b.net.live[s.b.req[s.e.final[0]].conn].open)
    case Hup => true
    case WakeAll => s.e.graceful && s.e.counter == 0
  }

  /** set_next_stage, called by the handler. */
  function Named(s: State, w: nat, named: Option<nat>): State {
    if named.Some? && w < |s.t.jump| then s.(t := s.t.(jump := s.t.jump[w := named])) else s
  }

  function TurnTaken(s: State, r: Rid): State
    requires r in s.b.req
  {
    s.(b := s.b.(req := s.b.req[r := s.b.req[r].(handled := s.b.req[r].handled + 1)]))
  }

  /** The responder has answered; the request is cleaned up. */
  function Answered(s: State, disconnect: bool): State
    requires s.e.final != [] && s.e.final[0] in s.b.req
  {
    var r := s.e.final[0];
    s.(e := s.e.(final := s.e.final[1..], serving := false),
       b := s.b.(req := s.b.req - {r}, net := ReleaseFor(s.b.net, s.b.req[r].conn, disconnect)))
  }

  function Submitted(cfg: Config, s: State, p: nat, c: nat, flags: Flags, now: int, locked: bool, wake: set<nat>): State
    requires Fits(cfg, s) && c in s.b.net.live
  {
    if Refused(cfg, s, p, flags) then s
    else if locked && StageFull(cfg, s, p, flags) then Leak(Relieved(cfg, s, p), p, c, now)
    else if locked then SendLocked(cfg, Register(s, p, c, now), p, s.b.inc + 1, flags, now, wake)
    else SendOverflow(Register(s, p, c, now), p, s.b.inc + 1)
  }

  function SetThread(s: State, w: nat, t: Thread): State
    requires w < |s.t.thread|
  {
    s.(t := s.t.(thread := s.t.thread[w := t]))
  }

  function Taken(cfg: Config, s: State, w: nat): State
    requires Fits(cfg, s) && w < |cfg.home| && s.q.queue[cfg.home[w]] != []
  {
    var st := cfg.home[w];
    s.(q := s.q.(queue := s.q.queue[st := s.q.queue[st][1..]],
                 queueLen := s.q.queueLen[st := U32(s.q.queueLen[st] as int - 1)]),
       t := s.t.(hand := s.t.hand[w := [s.q.queue[st][0]]], thread := s.t.thread[w := Busy]))
  }

  function Handled(cfg: Config, s: State, w: nat, r: Rid, v: Verdict, named: Option<nat>, wake: set<nat>): State
    requires Fits(cfg, s) && w < |cfg.home| && r in s.b.req
  {
    SubmitNext(cfg, TurnTaken(Named(s, w, named), r), w, r, v, wake)
  }

  function Drained(s: State): State {
    s.(e := s.e.(done := [], final := s.e.final + s.e.done))
  }

  function Begun(s: State): State {
    s.(e := s.e.(serving := true, counter := U64(s.e.counter - 1)))
  }

  function Ended(s: State, disconnect: bool): State
    requires s.e.final != [] && s.e.final[0] in s.b.req
  {
    var s1 := Answered(s, disconnect);
    if s1.e.graceful && s1.e.counter == 0 then Broadcast(s1) else s1
  }

  function Apply(cfg: Config, s: State, l: Label): State
    requires Enabled(cfg, s, l)
  {
    match l
    case Accept(c) => s.(b := s.b.(net := s.b.net.(live := s.b.net.live[c := Connection(true, 1)])))
    case Close(c) => s.(b := s.b.(net := CloseConn(s.b.net, c)))
    case Submit(p, c, flags, now, locked, wake) => Submitted(cfg, s, p, c, flags, now, locked, wake)
    case Kick(p, wake) => Wake(Concat(cfg, s, p), wake)
    case Take(w) => Taken(cfg, s, w)
    case Delay(w) => SetThread(s, w, Ready)
    case Block(w) => SetThread(s, w, Blocked)
    case Spurious(w) => SetThread(s, w, Woken)
    case Exit(w) => SetThread(s, w, Exited)
    case Handle(w, v, named, wake) => Handled(cfg, s, w, s.t.hand[w][0], v, named, wake)
    case Drain => Drained(s)
    case ServeBegin => Begun(s)
    case ServeEnd(disconnect) => Ended(s, disconnect)
    case Hup => s.(e := s.e.(graceful := true))
    case WakeAll => Broadcast(s)
  }

  /** `s` is the state after the steps of `run`. */
  ghost predicate RunsTo(cfg: Config, run: seq<Label>, s: State)
    decreases |run|
  {
    if run == [] then s == Init(cfg)
    else
      var k := |run| - 1;
      exists p :: RunsTo(cfg, run[..k], p) && Enabled(cfg, p, run[k]) && s == Apply(cfg, p, run[k])
  }
}
