/**
  The pipeline on its pointers.  Every step of the transition system is a short sequence of the
  macros of queue.h, on the request_entry links of the requests; carried out on the links, the
  steps of a run leave every queue holding the list the transition system has for it.
*/
module PipelineLinks {
  import opened PipelineState
  import opened PipelineBooks
  import opened PipelineFifo
  import opened PipelineThreads
  import opened PipelineRuns
  import T = TailQueue

  type Lists = map<nat, seq<nat>>

  // --------------------------------------------------------------------- heads

  const DONE: nat := 0
  const FINAL: nat := 1

  /** request_head of a stage, and tmp_request_head of a pipeline. */
  function StageHead(st: nat): nat {
    2 * st + 2
  }

  function OverHead(p: nat): nat {
    2 * p + 3
  }

  ghost predicate IsHead(stages: nat, pipelines: nat, h: nat) {
    || h == DONE || h == FINAL
    || (exists i :: 0 <= i < stages && h == StageHead(i))
    || (exists p :: 0 <= p < pipelines && h == OverHead(p))
  }

  predicate Holds(lists: Lists, h: nat, q: seq<Rid>) {
    h in lists && lists[h] == q
  }

  /** The queues hold the lists of the state, and there are no others. */
  ghost predicate Shows(lists: Lists, s: State) {
    && Holds(lists, DONE, s.e.done) && Holds(lists, FINAL, s.e.final)
    && (forall i :: 0 <= i < |s.q.queue| ==> Holds(lists, StageHead(i), s.q.queue[i]))
    && (forall p :: 0 <= p < |s.q.over| ==> Holds(lists, OverHead(p), s.q.over[p]))
    && (forall h :: h in lists ==> IsHead(|s.q.queue|, |s.q.over|, h))
  }

  lemma SameShows(lists: Lists, s: State, s': State)
    requires Shows(lists, s) && s'.q.queue == s.q.queue && s'.q.over == s.q.over && s'.e.done == s.e.done && s'.e.final == s.e.final
    ensures Shows(lists, s')
  {
  }

  lemma StageShows(lists: Lists, s: State, s': State, st: nat, q: seq<Rid>)
    requires Shows(lists, s) && st < |s.q.queue| && s'.q.queue == s.q.queue[st := q] && s'.q.over == s.q.over
    requires s'.e.done == s.e.done && s'.e.final == s.e.final
    ensures Shows(lists[StageHead(st) := q], s')
  {
    assert Holds(lists, StageHead(st), s.q.queue[st]);
  }

  lemma FinalShows(lists: Lists, s: State, s': State, q: seq<Rid>)
    requires Shows(lists, s) && s'.q.queue == s.q.queue && s'.q.over == s.q.over && s'.e.done == s.e.done && s'.e.final == q
    ensures Shows(lists[FINAL := q], s')
  {
  }

  lemma OverShows(lists: Lists, s: State, s': State, p: nat, q: seq<Rid>)
    requires Shows(lists, s) && p < |s.q.over| && s'.q.over == s.q.over[p := q] && s'.q.queue == s.q.queue
    requires s'.e.done == s.e.done && s'.e.final == s.e.final
    ensures Shows(lists[OverHead(p) := q], s')
  {
    assert Holds(lists, OverHead(p), s.q.over[p]);
  }

  // ---------------------------------------------------------------------- macros

  datatype Macro =
    | InsertTail(h: nat, e: nat)
    | Remove(h: nat, e: nat)
    | Join(h: nat, g: nat)
    | MoveEach(h: nat, g: nat, out: set<nat>)

  /** The element to be inserted is in no queue, the one to be removed is in its queue. */
  ghost predicate Allowed(lists: Lists, m: Macro) {
    m.h in lists &&
    match m
    case InsertTail(_, e) => T.InNone(lists, e)
    case Remove(h, e) => e in lists[h]
    case Join(h, g) => g in lists && g != h
    case MoveEach(h, g, _) => g in lists && g != h
  }

  ghost function After(lists: Lists, m: Macro): Lists
    requires Allowed(lists, m)
  {
    match m
    case InsertTail(h, e) => lists[h := lists[h] + [e]]
    case Remove(h, e) => lists[h := T.Keeping(lists[h], {e})]
    case Join(h, g) => lists[h := lists[h] + lists[g]][g := []]
    case MoveEach(h, g, out) => lists[h := T.Keeping(lists[h], out)][g := lists[g] + T.Leaving(lists[h], out)]
  }

  ghost predicate AllAllowed(lists: Lists, ms: seq<Macro>)
    decreases |ms|
  {
    ms == [] || (Allowed(lists, ms[0]) && AllAllowed(After(lists, ms[0]), ms[1..]))
  }

  ghost function AfterAll(lists: Lists, ms: seq<Macro>): Lists
    requires AllAllowed(lists, ms)
    decreases |ms|
  {
    if ms == [] then lists else AfterAll(After(lists, ms[0]), ms[1..])
  }

  /** The macros are possible and lead from lists that show one state to lists that show another. */
  ghost predicate Carries(lists: Lists, ms: seq<Macro>, s': State) {
    AllAllowed(lists, ms) && Shows(AfterAll(lists, ms), s')
  }

  lemma {:induction false} Chained(lists: Lists, a: seq<Macro>, b: seq<Macro>)
    requires AllAllowed(lists, a) && AllAllowed(AfterAll(lists, a), b)
    ensures AllAllowed(lists, a + b) && AfterAll(lists, a + b) == AfterAll(AfterAll(lists, a), b)
    decreases |a|
  {
    if a == [] {
      assert a + b == b;
    } else {
      assert (a + b)[1..] == a[1..] + b;
      Chained(After(lists, a[0]), a[1..], b);
    }
  }

  lemma OneMacro(lists: Lists, m: Macro, s': State)
    requires Allowed(lists, m) && Shows(After(lists, m), s')
    ensures Carries(lists, [m], s')
  {
    assert [m][1..] == [];
    assert AllAllowed(After(lists, m), []);
  }

  // --------------------------------------------------------- the macros of each step

  /** The requests a sweep takes out. */
  function Late(req: map<Rid, Request>, now: int, timeout: nat): set<Rid> {
    set r | r in req && now - req[r].clock > timeout
  }

  function RelieveMacros(cfg: Config, s: State, p: nat): seq<Macro>
    requires Fits(cfg, s) && p < |cfg.first|
  {
    if s.q.over[p] != [] then [Join(StageHead(cfg.first[p]), OverHead(p))] else []
  }

  function KickMacros(cfg: Config, s: State, st: nat, flags: Flags): seq<Macro>
    requires st < |s.q.queue| && st < |s.q.queueLen|
  {
    if flags.force && flags.kickOut && s.q.queueLen[st] >= cfg.queueSize && s.q.queue[st] != []
    then [Remove(StageHead(st), s.q.queue[st][0]), InsertTail(FINAL, s.q.queue[st][0])] else []
  }

  function SweepMacros(cfg: Config, s: State, st: nat, flags: Flags, now: int): seq<Macro> {
    if flags.timeOut && cfg.timeout != 0 then [MoveEach(StageHead(st), FINAL, Late(s.b.req, now, cfg.timeout))] else []
  }

  function SubmitMacros(cfg: Config, s: State, p: nat, c: nat, flags: Flags, now: int, locked: bool): seq<Macro>
    requires Fits(cfg, s) && c in s.b.net.live
  {
    if Refused(cfg, s, p, flags) then []
    else if locked && StageFull(cfg, s, p, flags) then RelieveMacros(cfg, s, p)
    else if locked then
      var st, s1 := cfg.first[p], Relieved(cfg, Register(s, p, c, now), p);
      RelieveMacros(cfg, s, p) + (KickMacros(cfg, s1, st, flags) + SweepMacros(cfg, s1, st, flags, now)) +
      [InsertTail(StageHead(st), s.b.inc + 1)]
    else [InsertTail(OverHead(p), s.b.inc + 1)]
  }

  function ForwardMacros(s: State, target: Option<nat>, r: Rid): seq<Macro> {
    [InsertTail(if target.Some? && target.value < |s.q.queue| then StageHead(target.value) else DONE, r)]
  }

  function SubmitNextMacros(cfg: Config, s: State, w: nat, r: Rid, v: Verdict): seq<Macro>
    requires Fits(cfg, s) && w < |cfg.home| && r in s.b.req
  {
    if Looped(s, r, v) then [InsertTail(DONE, r)] else ForwardMacros(s, Target(cfg, s, w, v), r)
  }

  function Macros(cfg: Config, s: State, l: Label): seq<Macro>
    requires Enabled(cfg, s, l)
  {
    match l
    case Submit(p, c, flags, now, locked, _) => SubmitMacros(cfg, s, p, c, flags, now, locked)
    case Kick(p, _) => [Join(StageHead(cfg.first[p]), OverHead(p))]
    case Take(w) => [Remove(StageHead(cfg.home[w]), s.q.queue[cfg.home[w]][0])]
    case Handle(w, v, named, _) => SubmitNextMacros(cfg, TurnTaken(Named(s, w, named), s.t.hand[w][0]), w, s.t.hand[w][0], v)
    case Drain => [Join(FINAL, DONE)]
    case ServeEnd(_) => [Remove(FINAL, s.e.final[0])]
    case _ => []
  }

  // -------------------------------------------------------------- lists and states

  lemma {:induction false} OccOne(qs: seq<seq<Rid>>, i: nat, r: Rid)
    requires i < |qs| && OccAll(qs, r) == 0
    ensures r !in qs[i]
  {
    OccUpdate(qs, i, [], r);
    OccIn(qs[i], r);
  }

  /** A request that is on its way is in no queue. */
  lemma LooseIsFree(lists: Lists, s: State, r: Rid)
    requires Shows(lists, s) && Placed(s, Some(r))
    ensures T.InNone(lists, r)
  {
    assert Count(s, r) == 0;
    OccIn(s.e.done, r);
    OccIn(s.e.final, r);
    forall h | h in lists ensures r !in lists[h] {
      if h != DONE && h != FINAL {
        if i :| 0 <= i < |s.q.queue| && h == StageHead(i) {
          OccOne(s.q.queue, i, r);
          assert Holds(lists, StageHead(i), s.q.queue[i]);
        } else {
          var p :| 0 <= p < |s.q.over| && h == OverHead(p);
          OccOne(s.q.over, p, r);
          assert Holds(lists, OverHead(p), s.q.over[p]);
        }
      }
    }
  }

  lemma {:induction false} KeepingIs(q: seq<Rid>, req: map<Rid, Request>, now: int, timeout: nat)
    ensures T.Keeping(q, Late(req, now, timeout)) == Kept(q, req, now, timeout)
    ensures T.Leaving(q, Late(req, now, timeout)) == Swept(q, req, now, timeout)
  {
    if q != [] {
      KeepingIs(q[..|q| - 1], req, now, timeout);
    }
  }

  lemma {:induction false} KeepingAll(q: seq<nat>, out: set<nat>)
    requires forall x :: x in q ==> x !in out
    ensures T.Keeping(q, out) == q
  {
    if q != [] {
      KeepingAll(q[..|q| - 1], out);
      assert q == q[..|q| - 1] + [q[|q| - 1]];
    }
  }

  lemma {:induction false} KeepingAppend(a: seq<nat>, b: seq<nat>, out: set<nat>)
    ensures T.Keeping(a + b, out) == T.Keeping(a, out) + T.Keeping(b, out)
    decreases |b|
  {
    if b == [] {
      assert a + b == a;
    } else {
      assert (a + b)[..|a + b| - 1] == a + b[..|b| - 1];
      KeepingAppend(a, b[..|b| - 1], out);
    }
  }

  /** Removing an element of a list without repetitions. */
  lemma {:induction false} KeepingLess(q: seq<nat>, i: nat)
    requires T.Distinct(q) && i < |q|
    ensures T.Keeping(q, {q[i]}) == T.Less(q, i)
  {
    KeepingOthers(q[..i], q[i], q[i + 1..]);
    assert q == q[..i] + ([q[i]] + q[i + 1..]);
  }

  lemma {:induction false} KeepingOthers(a: seq<nat>, e: nat, b: seq<nat>)
    requires e !in a && e !in b
    ensures T.Keeping(a + ([e] + b), {e}) == a + b
  {
    KeepingAppend(a, [e] + b, {e});
    KeepingAll(a, {e});
    KeepingRest(e, b);
  }

  lemma {:induction false} KeepingRest(e: nat, b: seq<nat>)
    requires e !in b
    ensures T.Keeping([e] + b, {e}) == b
  {
    KeepingAppend([e], b, {e});
    KeepingAll(b, {e});
    assert [e][..0] == [] && T.Keeping([e], {e}) == [];
  }

  /** No list has an element twice, and no element is in two lists. */
  ghost predicate Clean(lists: Lists) {
    (forall h :: h in lists ==> T.Distinct(lists[h])) && T.Apart(lists)
  }

  lemma CleanConcat(lists: Lists, h: nat, g: nat)
    requires Clean(lists) && Allowed(lists, Join(h, g))
    ensures Clean(After(lists, Join(h, g)))
  {
    T.ConcatApart(lists, h, g);
    T.ConcatDistinct(lists[h], lists[g]);
  }

  lemma FirstRemoved(lists: Lists, h: nat)
    requires Clean(lists) && h in lists && lists[h] != []
    ensures var m := Remove(h, lists[h][0]);
      Allowed(lists, m) && After(lists, m) == lists[h := lists[h][1..]] && T.InNone(After(lists, m), lists[h][0])
  {
    KeepingLess(lists[h], 0);
    T.LessFree(lists, h, 0);
    assert T.Less(lists[h], 0) == lists[h][1..];
  }

  // ------------------------------------------------------------------------ submits

  lemma ConcatCarries(cfg: Config, s: State, p: nat, lists: Lists)
    requires Shows(lists, s) && Fits(cfg, s) && p < |cfg.first|
    ensures var m := Join(StageHead(cfg.first[p]), OverHead(p)); Allowed(lists, m) && Shows(After(lists, m), Concat(cfg, s, p))
  {
    var st := cfg.first[p];
    assert Holds(lists, StageHead(st), s.q.queue[st]) && Holds(lists, OverHead(p), s.q.over[p]);
    var q := s.q.queue[st] + s.q.over[p];
    var s1 := s.(q := s.q.(queue := s.q.queue[st := q]));
    StageShows(lists, s, s1, st, q);
    OverShows(lists[StageHead(st) := q], s1, Concat(cfg, s, p), p, []);
  }

  lemma RelieveCarries(cfg: Config, s: State, p: nat, lists: Lists)
    requires Shows(lists, s) && Clean(lists) && Fits(cfg, s) && p < |cfg.first|
    ensures Carries(lists, RelieveMacros(cfg, s, p), Relieved(cfg, s, p)) && Clean(AfterAll(lists, RelieveMacros(cfg, s, p)))
  {
    if s.q.over[p] != [] {
      var m := Join(StageHead(cfg.first[p]), OverHead(p));
      ConcatCarries(cfg, s, p, lists);
      OneMacro(lists, m, Concat(cfg, s, p));
      CleanConcat(lists, m.h, m.g);
      assert AfterAll(After(lists, m), [m][1..]) == After(lists, m);
    }
  }

  lemma KickOutShows(s: State, st: nat, lists: Lists)
    requires Shows(lists, s) && st < |s.q.queue| && st < |s.q.queueLen| && s.q.queue[st] != []
    ensures Shows(lists[StageHead(st) := s.q.queue[st][1..]][FINAL := s.e.final + [s.q.queue[st][0]]], KickOut(s, st))
  {
    var s1 := s.(q := s.q.(queue := s.q.queue[st := s.q.queue[st][1..]]));
    StageShows(lists, s, s1, st, s.q.queue[st][1..]);
    FinalShows(lists[StageHead(st) := s.q.queue[st][1..]], s1, KickOut(s, st), s.e.final + [s.q.queue[st][0]]);
  }

  lemma KickOutCarries(s: State, st: nat, lists: Lists)
    requires Shows(lists, s) && Clean(lists) && st < |s.q.queue| && st < |s.q.queueLen| && s.q.queue[st] != []
    ensures Carries(lists, [Remove(StageHead(st), s.q.queue[st][0]), InsertTail(FINAL, s.q.queue[st][0])], KickOut(s, st))
  {
    var h, x := StageHead(st), s.q.queue[st][0];
    assert Holds(lists, h, s.q.queue[st]);
    FirstRemoved(lists, h);
    var lists1 := lists[h := lists[h][1..]];
    var m := InsertTail(FINAL, x);
    KickOutShows(s, st, lists);
    OneMacro(lists1, m, KickOut(s, st));
    assert [Remove(h, x), m][1..] == [m];
  }

  lemma SweepShows(s: State, st: nat, now: int, timeout: nat, lists: Lists)
    requires Shows(lists, s) && st < |s.q.queue| && st < |s.q.queueLen|
    ensures var kept, out := Kept(s.q.queue[st], s.b.req, now, timeout), Swept(s.q.queue[st], s.b.req, now, timeout);
      Shows(lists[StageHead(st) := kept][FINAL := s.e.final + out], Sweep(s, st, now, timeout))
  {
    var kept, out := Kept(s.q.queue[st], s.b.req, now, timeout), Swept(s.q.queue[st], s.b.req, now, timeout);
    var s1 := s.(q := s.q.(queue := s.q.queue[st := kept]));
    StageShows(lists, s, s1, st, kept);
    FinalShows(lists[StageHead(st) := kept], s1, Sweep(s, st, now, timeout), s.e.final + out);
  }

  lemma SweepCarries(s: State, st: nat, now: int, timeout: nat, lists: Lists)
    requires Shows(lists, s) && st < |s.q.queue| && st < |s.q.queueLen|
    ensures var m := MoveEach(StageHead(st), FINAL, Late(s.b.req, now, timeout));
      Allowed(lists, m) && Shows(After(lists, m), Sweep(s, st, now, timeout))
  {
    assert Holds(lists, StageHead(st), s.q.queue[st]) && Holds(lists, FINAL, s.e.final);
    KeepingIs(s.q.queue[st], s.b.req, now, timeout);
    SweepShows(s, st, now, timeout, lists);
  }

  lemma RoomCarries(cfg: Config, s: State, st: nat, flags: Flags, now: int, lists: Lists)
    requires Shows(lists, s) && Clean(lists) && st < |s.q.queue| && st < |s.q.queueLen|
    ensures Carries(lists, KickMacros(cfg, s, st, flags) + SweepMacros(cfg, s, st, flags, now), MakeRoom(cfg, s, st, flags, now))
  {
    var kick, sweep := KickMacros(cfg, s, st, flags), SweepMacros(cfg, s, st, flags, now);
    var s1 := if kick != [] then KickOut(s, st) else s;
    assert Carries(lists, kick, s1) by {
      if kick != [] {
        KickOutCarries(s, st, lists);
      }
    }
    var lists1 := AfterAll(lists, kick);
    assert Carries(lists1, sweep, MakeRoom(cfg, s, st, flags, now)) by {
      if sweep != [] {
        SweepCarries(s1, st, now, cfg.timeout, lists1);
        OneMacro(lists1, sweep[0], Sweep(s1, st, now, cfg.timeout));
      }
    }
    Chained(lists, kick, sweep);
  }

  lemma AppendCarries(s: State, st: nat, r: Rid, lists: Lists)
    requires Shows(lists, s) && st < |s.q.queue| && st < |s.q.queueLen| && Placed(s, Some(r))
    ensures Carries(lists, [InsertTail(StageHead(st), r)], AppendStage(s, st, r))
  {
    assert Holds(lists, StageHead(st), s.q.queue[st]);
    LooseIsFree(lists, s, r);
    var m := InsertTail(StageHead(st), r);
    StageShows(lists, s, AppendStage(s, st, r), st, s.q.queue[st] + [r]);
    OneMacro(lists, m, AppendStage(s, st, r));
  }

  /** send_to_pipeline with the lock. */
  lemma SendCarries(cfg: Config, s: State, p: nat, r: Rid, flags: Flags, now: int, wake: set<nat>, lists: Lists)
    requires Shows(lists, s) && Clean(lists) && Fits(cfg, s) && p < |cfg.first| && Placed(s, Some(r))
    ensures var st, s1 := cfg.first[p], Relieved(cfg, s, p);
      Carries(lists, RelieveMacros(cfg, s, p) + (KickMacros(cfg, s1, st, flags) + SweepMacros(cfg, s1, st, flags, now)) +
                     [InsertTail(StageHead(st), r)], SendLocked(cfg, s, p, r, flags, now, wake))
  {
    var st, s1 := cfg.first[p], Relieved(cfg, s, p);
    var a, b, c := RelieveMacros(cfg, s, p), KickMacros(cfg, s1, st, flags) + SweepMacros(cfg, s1, st, flags, now), [InsertTail(StageHead(st), r)];
    RelieveCarries(cfg, s, p, lists);
    ConcatPlaced(cfg, s, p, Some(r));
    var lists1 := AfterAll(lists, a);
    RoomCarries(cfg, s1, st, flags, now, lists1);
    MakeRoomPlaced(cfg, s1, st, flags, now, Some(r));
    var s2 := MakeRoom(cfg, s1, st, flags, now);
    var lists2 := AfterAll(lists1, b);
    AppendCarries(s2, st, r, lists2);
    Chained(lists, a, b);
    Chained(lists, a + b, c);
    SameShows(AfterAll(lists2, c), AppendStage(s2, st, r), SendLocked(cfg, s, p, r, flags, now, wake));
  }

  lemma OverflowCarries(s: State, p: nat, r: Rid, lists: Lists)
    requires Shows(lists, s) && p < |s.q.over| && p < |s.q.overLen| && Placed(s, Some(r))
    ensures Carries(lists, [InsertTail(OverHead(p), r)], SendOverflow(s, p, r))
  {
    assert Holds(lists, OverHead(p), s.q.over[p]);
    LooseIsFree(lists, s, r);
    var m := InsertTail(OverHead(p), r);
    OverShows(lists, s, SendOverflow(s, p, r), p, s.q.over[p] + [r]);
    OneMacro(lists, m, SendOverflow(s, p, r));
  }

  lemma SubmitCarries(cfg: Config, s: State, p: nat, c: nat, flags: Flags, now: int, locked: bool, wake: set<nat>, lists: Lists)
    requires Shows(lists, s) && Clean(lists) && Fits(cfg, s) && c in s.b.net.live && Placed(s, None) && Numbered(s)
    ensures Carries(lists, SubmitMacros(cfg, s, p, c, flags, now, locked), Submitted(cfg, s, p, c, flags, now, locked, wake))
  {
    var s' := Submitted(cfg, s, p, c, flags, now, locked, wake);
    if Refused(cfg, s, p, flags) {
      assert AllAllowed(lists, []);
    } else if locked && StageFull(cfg, s, p, flags) {
      RelieveCarries(cfg, s, p, lists);
      SameShows(AfterAll(lists, RelieveMacros(cfg, s, p)), Relieved(cfg, s, p), s');
    } else {
      var s1 := Register(s, p, c, now);
      RegisterPlaced(s, p, c, now);
      SameShows(lists, s, s1);
      if locked {
        assert RelieveMacros(cfg, s, p) == RelieveMacros(cfg, s1, p);
        SendCarries(cfg, s1, p, s.b.inc + 1, flags, now, wake, lists);
      } else {
        OverflowCarries(s1, p, s.b.inc + 1, lists);
      }
    }
  }

  // ------------------------------------------------------------------ the other steps

  lemma FirstOut(lists: Lists, h: nat, s: State, s': State)
    requires Shows(lists, s) && Clean(lists) && h in lists && lists[h] != [] && Shows(lists[h := lists[h][1..]], s')
    ensures Carries(lists, [Remove(h, lists[h][0])], s')
  {
    FirstRemoved(lists, h);
    OneMacro(lists, Remove(h, lists[h][0]), s');
  }

  lemma TakeCarries(cfg: Config, s: State, w: nat, lists: Lists)
    requires Shows(lists, s) && Clean(lists) && Fits(cfg, s) && w < |cfg.home| && s.q.queue[cfg.home[w]] != []
    ensures Carries(lists, [Remove(StageHead(cfg.home[w]), s.q.queue[cfg.home[w]][0])], Taken(cfg, s, w))
  {
    var st := cfg.home[w];
    assert Holds(lists, StageHead(st), s.q.queue[st]);
    StageShows(lists, s, Taken(cfg, s, w), st, s.q.queue[st][1..]);
    FirstOut(lists, StageHead(st), s, Taken(cfg, s, w));
  }

  lemma EndCarries(s: State, disconnect: bool, lists: Lists)
    requires Shows(lists, s) && Clean(lists) && s.e.final != [] && s.e.final[0] in s.b.req
    ensures Carries(lists, [Remove(FINAL, s.e.final[0])], Ended(s, disconnect))
  {
    assert Shows(lists[FINAL := s.e.final[1..]], Ended(s, disconnect));
    FirstOut(lists, FINAL, s, Ended(s, disconnect));
  }

  lemma DrainCarries(s: State, lists: Lists)
    requires Shows(lists, s)
    ensures Carries(lists, [Join(FINAL, DONE)], Drained(s))
  {
    var m := Join(FINAL, DONE);
    assert Shows(After(lists, m), Drained(s));
    OneMacro(lists, m, Drained(s));
  }

  lemma DoneCarries(s: State, r: Rid, lists: Lists)
    requires Shows(lists, s) && Placed(s, Some(r))
    ensures Carries(lists, [InsertTail(DONE, r)], AppendDone(s, r))
  {
    LooseIsFree(lists, s, r);
    var m := InsertTail(DONE, r);
    assert Shows(After(lists, m), AppendDone(s, r));
    OneMacro(lists, m, AppendDone(s, r));
  }

  lemma ForwardCarries(s: State, target: Option<nat>, r: Rid, wake: set<nat>, lists: Lists)
    requires Shows(lists, s) && |s.q.queue| == |s.q.queueLen| && r in s.b.req && Placed(s, Some(r))
    ensures Carries(lists, ForwardMacros(s, target, r), Forward(s, target, r, wake))
  {
    if target.Some? && target.value < |s.q.queue| {
      AppendCarries(s, target.value, r, lists);
      SameShows(AfterAll(lists, ForwardMacros(s, target, r)), AppendStage(s, target.value, r), Forward(s, target, r, wake));
    } else {
      DoneCarries(s, r, lists);
    }
  }

  lemma SubmitNextCarries(cfg: Config, s: State, w: nat, r: Rid, v: Verdict, wake: set<nat>, lists: Lists)
    requires Shows(lists, s) && Fits(cfg, s) && Placed(s, None) && w < |cfg.home| && s.t.hand[w] == [r] && r in s.b.req
    requires Looped(s, r, v) ==> cfg.cutoffReturns
    ensures Carries(lists, SubmitNextMacros(cfg, s, w, r, v), SubmitNext(cfg, s, w, r, v, wake))
  {
    var looped := Looped(s, r, v);
    var s1 := LetGo(s, w, v, looped);
    LetGoPlaced(s, w, r, v, looped);
    SameShows(lists, s, s1);
    if looped {
      DoneCarries(s1, r, lists);
    } else {
      ForwardCarries(s1, Target(cfg, s, w, v), r, wake, lists);
    }
  }

  lemma HandleCarries(cfg: Config, s: State, w: nat, r: Rid, v: Verdict, named: Option<nat>, wake: set<nat>, lists: Lists)
    requires Shows(lists, s) && Fits(cfg, s) && Placed(s, None) && w < |cfg.home| && s.t.hand[w] == [r] && r in s.b.req
    requires Looped(s, r, v) ==> cfg.cutoffReturns
    ensures Carries(lists, SubmitNextMacros(cfg, TurnTaken(Named(s, w, named), r), w, r, v), Handled(cfg, s, w, r, v, named, wake))
  {
    var s1 := TurnTaken(Named(s, w, named), r);
    assert forall x: Rid :: Count(s1, x) == Count(s, x);
    SameShows(lists, s, s1);
    SubmitNextCarries(cfg, s1, w, r, v, wake, lists);
  }

  lemma KickCarries(cfg: Config, s: State, p: nat, wake: set<nat>, lists: Lists)
    requires Shows(lists, s) && Fits(cfg, s) && p < |cfg.first|
    ensures Carries(lists, [Join(StageHead(cfg.first[p]), OverHead(p))], Wake(Concat(cfg, s, p), wake))
  {
    ConcatCarries(cfg, s, p, lists);
    var m := Join(StageHead(cfg.first[p]), OverHead(p));
    SameShows(After(lists, m), Concat(cfg, s, p), Wake(Concat(cfg, s, p), wake));
    OneMacro(lists, m, Wake(Concat(cfg, s, p), wake));
  }

  lemma SameCarries(lists: Lists, s: State, s': State)
    requires Shows(lists, s) && s'.q.queue == s.q.queue && s'.q.over == s.q.over && s'.e.done == s.e.done && s'.e.final == s.e.final
    ensures Carries(lists, [], s')
  {
    SameShows(lists, s, s');
  }

  lemma IdleCarries(cfg: Config, s: State, l: Label, lists: Lists)
    requires Shows(lists, s) && Enabled(cfg, s, l)
    requires !l.Submit? && !l.Kick? && !l.Take? && !l.Handle? && !l.Drain? && !l.ServeEnd?
    ensures Carries(lists, [], Apply(cfg, s, l))
  {
    SameCarries(lists, s, Apply(cfg, s, l));
  }

  lemma HandleStepCarries(cfg: Config, s: State, l: Label, lists: Lists)
    requires Shows(lists, s) && Enabled(cfg, s, l) && Placed(s, None) && l.Handle?
    requires Apply(cfg, s, l).b.doubled == s.b.doubled
    ensures Carries(lists, Macros(cfg, s, l), Apply(cfg, s, l))
  {
    HandleCarries(cfg, s, l.w, s.t.hand[l.w][0], l.verdict, l.named, l.wake, lists);
  }

  /** Every step of the pipeline is carried by its macros. */
  lemma StepCarries(cfg: Config, s: State, l: Label, lists: Lists)
    requires Shows(lists, s) && Clean(lists) && Enabled(cfg, s, l) && Placed(s, None) && Numbered(s)
    requires Apply(cfg, s, l).b.doubled == s.b.doubled
    ensures Carries(lists, Macros(cfg, s, l), Apply(cfg, s, l))
  {
    match l
    case Submit(p, c, flags, now, locked, wake) => SubmitCarries(cfg, s, p, c, flags, now, locked, wake, lists);
    case Kick(p, wake) => KickCarries(cfg, s, p, wake, lists);
    case Take(w) => TakeCarries(cfg, s, w, lists);
    case Handle(w, v, named, wake) => HandleStepCarries(cfg, s, l, lists);
    case Drain => DrainCarries(s, lists);
    case ServeEnd(disconnect) => EndCarries(s, disconnect, lists);
    case _ => IdleCarries(cfg, s, l, lists);
  }

  // ----------------------------------------------------------- on the links themselves

  method Perform(q: T.Queues, m: Macro)
    requires q.Valid() && Allowed(q.lists, m)
    modifies q
    ensures q.Valid() && q.lists == After(old(q.lists), m)
  {
    match m
    case InsertTail(h, e) => q.InsertTail(h, e);
    case Remove(h, e) =>
      ghost var i :| 0 <= i < |q.lists[h]| && q.lists[h][i] == e;
      KeepingLess(q.lists[h], i);
      q.Remove(h, e, i);
    case Join(h, g) => q.Concat(h, g);
    case MoveEach(h, g, out) => q.MoveEach(h, g, out);
  }

  method PerformAll(q: T.Queues, ms: seq<Macro>)
    requires q.Valid() && AllAllowed(q.lists, ms)
    modifies q
    ensures q.Valid() && q.lists == AfterAll(old(q.lists), ms)
  {
    var todo := ms;
    while todo != []
      invariant q.Valid() && AllAllowed(q.lists, todo) && AfterAll(q.lists, todo) == AfterAll(old(q.lists), ms)
      decreases |todo|
    {
      Perform(q, todo[0]);
      todo := todo[1..];
    }
  }

  // ------------------------------------------------------------- the active pipelines

  lemma {:induction false} WithoutNone(a: seq<nat>, x: nat)
    requires x !in a
    ensures Without(a, x) == a
  {
    if a != [] {
      WithoutNone(a[1..], x);
      assert a == [a[0]] + a[1..];
    }
  }

  lemma {:induction false} WithoutLess(a: seq<nat>, i: nat)
    requires T.Distinct(a) && i < |a|
    ensures Without(a, a[i]) == T.Less(a, i)
    decreases i
  {
    if i == 0 {
      WithoutNone(a[1..], a[0]);
    } else {
      WithoutLess(a[1..], i - 1);
      assert a[1..][i - 1] == a[i];
      assert T.Less(a, i) == [a[0]] + T.Less(a[1..], i - 1);
    }
  }

  lemma LessMembers(a: seq<nat>, i: nat)
    requires i < |a|
    ensures forall x :: x in a && x != a[i] ==> x in T.Less(a, i)
    ensures forall x :: x in T.Less(a, i) ==> x in a
  {
    assert a == a[..i] + [a[i]] + a[i + 1..];
  }

  /** apq, whose entries are marked empty while they are not in it. */
  class ActivePipes {
    const apq: T.Queues
    const size: nat

    ghost predicate Valid()
      reads this, apq
    {
      && apq.Valid() && apq.lists.Keys == {0}
      && (forall p :: p in apq.lists[0] ==> p < size)
      && (forall p :: 0 <= p < size && !apq.Marked(p) ==> p in apq.lists[0])
    }

    ghost function Active(): seq<nat>
      requires Valid()
      reads this, apq
    {
      apq.lists[0]
    }

    /** The entry of a pipeline that is waiting in the queue does not look empty. */
    lemma MarkedIff(p: nat)
      requires Valid() && p < size
      ensures apq.Marked(p) <==> p !in Active()
    {
      if apq.Marked(p) {
        apq.MarkedIsFree(p);
      }
    }

    constructor (n: nat)
      ensures Valid() && fresh(apq) && size == n && Active() == []
    {
      size := n;
      apq := new T.Queues();
      new;
      apq.Init(0);
      var p := 0;
      while p < n
        invariant p <= n && apq.Valid() && apq.lists == map[0 := []] && forall x :: 0 <= x < p ==> apq.Marked(x)
      {
        apq.EntryInit(p);
        p := p + 1;
      }
    }

    /** TAILQ_INSERT_TAIL of an empty entry. */
    method Put(p: nat)
      requires Valid() && p < size
      modifies apq
      ensures Valid() && Active() == if p in old(Active()) then old(Active()) else old(Active()) + [p]
    {
      MarkedIff(p);
      if apq.Marked(p) {
        apq.MarkedIsFree(p);
        apq.InsertTail(0, p);
      }
    }

    /** TAILQ_REMOVE and TAILQ_ENTRY_INIT of an entry that is not empty. */
    method Drop(p: nat)
      requires Valid() && p < size
      modifies apq
      ensures Valid() && Active() == Without(old(Active()), p)
    {
      MarkedIff(p);
      if !apq.Marked(p) {
        ghost var i :| 0 <= i < |apq.lists[0]| && apq.lists[0][i] == p;
        WithoutLess(apq.lists[0], i);
        Unlink(p, i);
      } else {
        WithoutNone(Active(), p);
      }
    }

    method Unlink(p: nat, ghost i: nat)
      requires Valid() && i < |Active()| && Active()[i] == p
      modifies apq
      ensures Valid() && Active() == T.Less(old(Active()), i)
    {
      T.LessFree(apq.lists, 0, i);
      apq.Remove(0, p, i);
      apq.EntryInit(p);
      LessMembers(old(apq.lists[0]), i);
    }
  }

  datatype Change = Same | Put(p: nat) | Drop(p: nat)

  /** What a step does to the queue of active pipelines. */
  function ActiveChange(cfg: Config, s: State, l: Label): Change
    requires Enabled(cfg, s, l)
  {
    if l.Kick? then Drop(l.p)
    else if !l.Submit? || Refused(cfg, s, l.p, l.flags) then Same
    else if !l.locked then Put(l.p)
    else if s.q.over[l.p] != [] then Drop(l.p)
    else Same
  }

  lemma ActiveIs(cfg: Config, s: State, l: Label)
    requires Enabled(cfg, s, l)
    ensures var a, a' := s.q.active, Apply(cfg, s, l).q.active;
      match ActiveChange(cfg, s, l)
      case Same => a' == a
      case Put(p) => p < |cfg.first| && a' == if p in a then a else a + [p]
      case Drop(p) => p < |cfg.first| && a' == Without(a, p)
  {
  }

  // --------------------------------------------------------------------------- runs

  /** TAILQ_INIT of every queue. */
  method Start(cfg: Config) returns (q: T.Queues)
    requires Wired(cfg)
    ensures fresh(q) && q.Valid() && Shows(q.lists, PipelineState.Init(cfg))
  {
    q := new T.Queues();
    q.Init(DONE);
    q.Init(FINAL);
    OpenStages(q, |cfg.next|);
    OpenOverflows(q, |cfg.next|, |cfg.first|);
    OpenedShows(cfg, q.lists);
  }

  lemma OpenedShows(cfg: Config, lists: Lists)
    requires Opened(lists, |cfg.next|, |cfg.first|)
    ensures Shows(lists, PipelineState.Init(cfg))
  {
  }

  method OpenStages(q: T.Queues, stages: nat)
    requires q.Valid() && Opened(q.lists, 0, 0)
    modifies q
    ensures q.Valid() && Opened(q.lists, stages, 0)
  {
    var i := 0;
    while i < stages
      invariant i <= stages && q.Valid() && Opened(q.lists, i, 0)
    {
      FreshStage(q.lists, i, 0);
      q.Init(StageHead(i));
      i := i + 1;
    }
  }

  method OpenOverflows(q: T.Queues, ghost stages: nat, pipelines: nat)
    requires q.Valid() && Opened(q.lists, stages, 0)
    modifies q
    ensures q.Valid() && Opened(q.lists, stages, pipelines)
  {
    var p := 0;
    while p < pipelines
      invariant p <= pipelines && q.Valid() && Opened(q.lists, stages, p)
    {
      FreshOverflow(q.lists, stages, p);
      q.Init(OverHead(p));
      p := p + 1;
    }
  }

  ghost predicate Opened(lists: Lists, stages: nat, pipelines: nat) {
    && Holds(lists, DONE, []) && Holds(lists, FINAL, [])
    && (forall i :: 0 <= i < stages ==> Holds(lists, StageHead(i), []))
    && (forall p :: 0 <= p < pipelines ==> Holds(lists, OverHead(p), []))
    && (forall h :: h in lists ==> IsHead(stages, pipelines, h))
  }

  lemma FreshStage(lists: Lists, stages: nat, pipelines: nat)
    requires Opened(lists, stages, pipelines)
    ensures StageHead(stages) !in lists && Opened(lists[StageHead(stages) := []], stages + 1, pipelines)
  {
  }

  lemma FreshOverflow(lists: Lists, stages: nat, pipelines: nat)
    requires Opened(lists, stages, pipelines)
    ensures OverHead(pipelines) !in lists && Opened(lists[OverHead(pipelines) := []], stages, pipelines + 1)
  {
  }

  /** The steps of a run, carried out on the links from TAILQ_INIT on, leave every queue with the
      list the run has for it. */
  method Replay(cfg: Config, run: seq<Label>, ghost end: State) returns (q: T.Queues, a: ActivePipes, s: State)
    requires Wired(cfg) && OwnFirst(cfg) && RunsTo(cfg, run, end) && end.b.doubled == 0
    ensures fresh(q) && fresh(a) && fresh(a.apq) && q != a.apq && q.Valid() && a.Valid() && a.size == |cfg.first|
    ensures s == end && Shows(q.lists, end) && a.Active() == end.q.active
    decreases |run|
  {
    if run == [] {
      q := Start(cfg);
      a := new ActivePipes(|cfg.first|);
      s := PipelineState.Init(cfg);
    } else {
      var k := |run| - 1;
      ghost var p :| RunsTo(cfg, run[..k], p) && Enabled(cfg, p, run[k]) && end == Apply(cfg, p, run[k]);
      StepHistory(cfg, p, run[k]);
      RunCore(cfg, run[..k], p);
      q, a, s := Replay(cfg, run[..k], p);
      Follow(cfg, q, a, s, run[k]);
      s := Apply(cfg, s, run[k]);
    }
  }

  /** One step on the links. */
  method Follow(cfg: Config, q: T.Queues, a: ActivePipes, s: State, l: Label)
    requires Wired(cfg) && OwnFirst(cfg) && Core(cfg, s) && Enabled(cfg, s, l) && Apply(cfg, s, l).b.doubled == 0 == s.b.doubled
    requires q != a.apq && q.Valid() && a.Valid() && a.size == |cfg.first| && Shows(q.lists, s) && a.Active() == s.q.active
    modifies q, a.apq
    ensures q.Valid() && a.Valid() && Shows(q.lists, Apply(cfg, s, l)) && a.Active() == Apply(cfg, s, l).q.active
  {
    FollowActive(cfg, a, s, l);
    StepCarries(cfg, s, l, q.lists);
    PerformAll(q, Macros(cfg, s, l));
  }

  method FollowActive(cfg: Config, a: ActivePipes, s: State, l: Label)
    requires Enabled(cfg, s, l) && a.Valid() && a.size == |cfg.first| && a.Active() == s.q.active
    modifies a.apq
    ensures a.Valid() && a.Active() == Apply(cfg, s, l).q.active
  {
    ActiveIs(cfg, s, l);
    match ActiveChange(cfg, s, l) {
      case Same =>
      case Put(p) => a.Put(p);
      case Drop(p) => a.Drop(p);
    }
  }
}
