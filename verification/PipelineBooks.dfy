/**
  Conservation: every accepted request is in exactly one place until it is cleaned
  up, every stored length is the length of its list, and the global counter is the
  number of live requests less those ever kicked or swept out.
*/
module PipelineBooks {
  import opened PipelineState

  // ------------------------------------------------------------------ counting

  /** How often a request occurs in a queue. */
  function Occ(q: seq<Rid>, r: Rid): nat {
    if q == [] then 0 else Occ(q[..|q| - 1], r) + (if q[|q| - 1] == r then 1 else 0)
  }

  lemma {:induction false} OccAppend(a: seq<Rid>, b: seq<Rid>, r: Rid)
    ensures Occ(a + b, r) == Occ(a, r) + Occ(b, r)
  {
    if b == [] {
      assert a + b == a;
    } else {
      var k := |b| - 1;
      assert (a + b)[..|a| + k] == a + b[..k];
      OccAppend(a, b[..k], r);
    }
  }

  lemma OccFirst(q: seq<Rid>, r: Rid)
    requires q != []
    ensures Occ(q, r) == Occ(q[1..], r) + (if q[0] == r then 1 else 0)
  {
    assert q == [q[0]] + q[1..];
    OccAppend([q[0]], q[1..], r);
  }

  lemma {:induction false} OccIn(q: seq<Rid>, r: Rid)
    ensures Occ(q, r) > 0 <==> r in q
  {
    if q != [] {
      OccIn(q[..|q| - 1], r);
      assert q == q[..|q| - 1] + [q[|q| - 1]];
    }
  }

  /** How often a request occurs in some queues. */
  function OccAll(qs: seq<seq<Rid>>, r: Rid): nat {
    if qs == [] then 0 else OccAll(qs[..|qs| - 1], r) + Occ(qs[|qs| - 1], r)
  }

  lemma {:induction false} OccUpdate(qs: seq<seq<Rid>>, i: nat, q: seq<Rid>, r: Rid)
    requires i < |qs|
    ensures OccAll(qs[i := q], r) == OccAll(qs, r) - Occ(qs[i], r) + Occ(q, r)
    ensures Occ(qs[i], r) <= OccAll(qs, r)
  {
    var k := |qs| - 1;
    if i < k {
      OccUpdate(qs[..k], i, q, r);
      assert qs[i := q][..k] == qs[..k][i := q];
    } else {
      assert qs[i := q][..k] == qs[..k];
    }
  }

  /** How often a request occurs anywhere. */
  function Count(s: State, r: Rid): nat {
    OccAll(s.q.queue, r) + OccAll(s.q.over, r) + OccAll(s.t.hand, r) + Occ(s.e.done, r) + Occ(s.e.final, r)
  }

  // ------------------------------------------------------------------- lengths

  /** Every stored length is the length of its list, as far as 32 bits go. */
  ghost predicate Lengths(cfg: Config, s: State) {
    && Fits(cfg, s)
    && (forall i :: 0 <= i < |s.q.queue| ==> s.q.queueLen[i] == U32(|s.q.queue[i]|))
    && (forall p :: 0 <= p < |s.q.over| ==> s.q.overLen[p] == U32(|s.q.over[p]|))
  }

  lemma {:induction false} KeptSwept(q: seq<Rid>, req: map<Rid, Request>, now: int, timeout: nat)
    ensures |Kept(q, req, now, timeout)| + |Swept(q, req, now, timeout)| == |q|
  {
    if q != [] {
      KeptSwept(q[..|q| - 1], req, now, timeout);
    }
  }

  lemma AppendLengths(cfg: Config, s: State, st: nat, r: Rid)
    requires Lengths(cfg, s) && st < |s.q.queue|
    ensures Lengths(cfg, AppendStage(s, st, r))
  {
    WrapSum(|s.q.queue[st]|, 1, TWO32);
  }

  lemma ConcatLengths(cfg: Config, s: State, p: nat)
    requires Lengths(cfg, s) && p < |cfg.first|
    ensures Lengths(cfg, Concat(cfg, s, p))
  {
    var st := cfg.first[p];
    WrapSum(|s.q.queue[st]|, s.q.overLen[p], TWO32);
    WrapSum(|s.q.over[p]|, |s.q.queue[st]|, TWO32);
  }

  lemma KickOutLengths(cfg: Config, s: State, st: nat)
    requires Lengths(cfg, s) && st < |s.q.queue| && s.q.queue[st] != []
    ensures Lengths(cfg, KickOut(s, st))
  {
    WrapSum(|s.q.queue[st]|, -1, TWO32);
  }

  lemma SweepLengths(cfg: Config, s: State, st: nat, now: int, timeout: nat)
    requires Lengths(cfg, s) && st < |s.q.queue|
    ensures Lengths(cfg, Sweep(s, st, now, timeout))
  {
    KeptSwept(s.q.queue[st], s.b.req, now, timeout);
    WrapSum(|s.q.queue[st]|, -|Swept(s.q.queue[st], s.b.req, now, timeout)|, TWO32);
  }

  lemma MakeRoomLengths(cfg: Config, s: State, st: nat, flags: Flags, now: int)
    requires Lengths(cfg, s) && st < |s.q.queue|
    ensures Lengths(cfg, MakeRoom(cfg, s, st, flags, now))
  {
    var s1 := s;
    if flags.force && flags.kickOut && s.q.queueLen[st] >= cfg.queueSize && s.q.queue[st] != [] {
      KickOutLengths(cfg, s, st);
      s1 := KickOut(s, st);
    }
    SweepLengths(cfg, s1, st, now, cfg.timeout);
  }

  lemma SendLengths(cfg: Config, s: State, p: nat, r: Rid, flags: Flags, now: int, wake: set<nat>)
    requires Lengths(cfg, s) && p < |cfg.first|
    ensures Lengths(cfg, SendLocked(cfg, s, p, r, flags, now, wake))
  {
    var st := cfg.first[p];
    var s1 := Relieved(cfg, s, p);
    ConcatLengths(cfg, s, p);
    MakeRoomLengths(cfg, s1, st, flags, now);
    AppendLengths(cfg, MakeRoom(cfg, s1, st, flags, now), st, r);
  }

  lemma SameQueuesLengths(cfg: Config, s: State, s': State)
    requires Lengths(cfg, s) && Fits(cfg, s')
    requires s'.q.queue == s.q.queue && s'.q.queueLen == s.q.queueLen && s'.q.over == s.q.over && s'.q.overLen == s.q.overLen
    ensures Lengths(cfg, s')
  {
  }

  lemma ForwardLengths(cfg: Config, s: State, target: Option<nat>, r: Rid, wake: set<nat>)
    requires Lengths(cfg, s) && r in s.b.req
    ensures Lengths(cfg, Forward(s, target, r, wake))
  {
    if target.Some? && target.value < |s.q.queue| {
      AppendLengths(cfg, s, target.value, r);
    }
  }

  lemma SubmitNextLengths(cfg: Config, s: State, w: nat, r: Rid, v: Verdict, wake: set<nat>)
    requires Lengths(cfg, s) && w < |cfg.home| && r in s.b.req
    ensures Lengths(cfg, SubmitNext(cfg, s, w, r, v, wake))
  {
    var target := Target(cfg, s, w, v);
    if !Looped(s, r, v) {
      SameQueuesLengths(cfg, s, LetGo(s, w, v, false));
      ForwardLengths(cfg, LetGo(s, w, v, false), target, r, wake);
    } else if !cfg.cutoffReturns {
      var s1 := AppendDone(LetGo(s, w, v, false), r);
      SameQueuesLengths(cfg, s, Doubled(s1));
      ForwardLengths(cfg, Doubled(s1), target, r, wake);
    } else {
      SameQueuesLengths(cfg, s, AppendDone(LetGo(s, w, v, true), r));
    }
  }

  lemma SubmitLengths(cfg: Config, s: State, p: nat, c: nat, flags: Flags, now: int, locked: bool, wake: set<nat>)
    requires Lengths(cfg, s) && c in s.b.net.live
    ensures Lengths(cfg, Submitted(cfg, s, p, c, flags, now, locked, wake))
  {
    if !Refused(cfg, s, p, flags) {
      if locked && StageFull(cfg, s, p, flags) {
        ConcatLengths(cfg, s, p);
      } else if locked {
        SendLengths(cfg, Register(s, p, c, now), p, s.b.inc + 1, flags, now, wake);
      } else {
        WrapSum(|s.q.over[p]|, 1, TWO32);
      }
    }
  }

  lemma StepLengths(cfg: Config, s: State, l: Label)
    requires Lengths(cfg, s) && Enabled(cfg, s, l)
    ensures Lengths(cfg, Apply(cfg, s, l))
  {
    match l
    case Submit(p, c, flags, now, locked, wake) => SubmitLengths(cfg, s, p, c, flags, now, locked, wake);
    case Kick(p, wake) => ConcatLengths(cfg, s, p);
    case Take(w) => WrapSum(|s.q.queue[cfg.home[w]]|, -1, TWO32);
    case Handle(w, v, named, wake) =>
      SubmitNextLengths(cfg, TurnTaken(Named(s, w, named), s.t.hand[w][0]), w, s.t.hand[w][0], v, wake);
    case _ =>
  }

  // ----------------------------------------------------------------- placement

  /** Every accepted request is in exactly one place, once; `loose`, if any, is on its way. */
  ghost predicate Placed(s: State, loose: Option<Rid>) {
    forall r: Rid :: Count(s, r) + (if loose == Some(r) then 1 else 0) == if r in s.b.req then 1 else 0
  }

  lemma AppendPlaced(s: State, st: nat, r: Rid)
    requires Placed(s, Some(r)) && st < |s.q.queue| == |s.q.queueLen|
    ensures Placed(AppendStage(s, st, r), None)
  {
    forall x: Rid ensures Count(AppendStage(s, st, r), x) == Count(s, x) + if x == r then 1 else 0 {
      OccUpdate(s.q.queue, st, s.q.queue[st] + [r], x);
      OccAppend(s.q.queue[st], [r], x);
    }
  }

  lemma ConcatPlaced(cfg: Config, s: State, p: nat, loose: Option<Rid>)
    requires Fits(cfg, s) && Placed(s, loose) && p < |cfg.first|
    ensures Placed(Concat(cfg, s, p), loose)
  {
    var st := cfg.first[p];
    forall x: Rid ensures Count(Concat(cfg, s, p), x) == Count(s, x) {
      OccUpdate(s.q.queue, st, s.q.queue[st] + s.q.over[p], x);
      OccAppend(s.q.queue[st], s.q.over[p], x);
      OccUpdate(s.q.over, p, [], x);
    }
  }

  lemma KickOutPlaced(s: State, st: nat, loose: Option<Rid>)
    requires Placed(s, loose) && st < |s.q.queue| == |s.q.queueLen| && s.q.queue[st] != []
    ensures Placed(KickOut(s, st), loose)
  {
    var q := s.q.queue[st];
    forall x: Rid ensures Count(KickOut(s, st), x) == Count(s, x) {
      OccUpdate(s.q.queue, st, q[1..], x);
      OccFirst(q, x);
      OccAppend(s.e.final, [q[0]], x);
    }
  }

  lemma {:induction false} KeptSweptOcc(q: seq<Rid>, req: map<Rid, Request>, now: int, timeout: nat, x: Rid)
    ensures Occ(Kept(q, req, now, timeout), x) + Occ(Swept(q, req, now, timeout), x) == Occ(q, x)
  {
    if q != [] {
      var q', last := q[..|q| - 1], q[|q| - 1];
      var kept, swept := Kept(q', req, now, timeout), Swept(q', req, now, timeout);
      KeptSweptOcc(q', req, now, timeout, x);
      OccAppend(kept, if Expired(req, last, now, timeout) then [] else [last], x);
      OccAppend(swept, if Expired(req, last, now, timeout) then [last] else [], x);
      assert Occ([last], x) == if last == x then 1 else 0;
    }
  }

  lemma SweepPlaced(s: State, st: nat, now: int, timeout: nat, loose: Option<Rid>)
    requires Placed(s, loose) && st < |s.q.queue| == |s.q.queueLen|
    ensures Placed(Sweep(s, st, now, timeout), loose)
  {
    var q := s.q.queue[st];
    forall x: Rid ensures Count(Sweep(s, st, now, timeout), x) == Count(s, x) {
      KeptSweptOcc(q, s.b.req, now, timeout, x);
      OccUpdate(s.q.queue, st, Kept(q, s.b.req, now, timeout), x);
      OccAppend(s.e.final, Swept(q, s.b.req, now, timeout), x);
    }
  }

  lemma MakeRoomPlaced(cfg: Config, s: State, st: nat, flags: Flags, now: int, loose: Option<Rid>)
    requires Placed(s, loose) && st < |s.q.queue| == |s.q.queueLen|
    ensures Placed(MakeRoom(cfg, s, st, flags, now), loose)
  {
    var s1 := s;
    if flags.force && flags.kickOut && s.q.queueLen[st] >= cfg.queueSize && s.q.queue[st] != [] {
      KickOutPlaced(s, st, loose);
      s1 := KickOut(s, st);
    }
    SweepPlaced(s1, st, now, cfg.timeout, loose);
  }

  lemma SendPlaced(cfg: Config, s: State, p: nat, r: Rid, flags: Flags, now: int, wake: set<nat>)
    requires Fits(cfg, s) && Placed(s, Some(r)) && p < |cfg.first|
    ensures Placed(SendLocked(cfg, s, p, r, flags, now, wake), None)
  {
    var st := cfg.first[p];
    var s1 := Relieved(cfg, s, p);
    ConcatPlaced(cfg, s, p, Some(r));
    MakeRoomPlaced(cfg, s1, st, flags, now, Some(r));
    var s2 := AppendStage(MakeRoom(cfg, s1, st, flags, now), st, r);
    AppendPlaced(MakeRoom(cfg, s1, st, flags, now), st, r);
    assert forall x: Rid :: Count(Wake(s2, wake), x) == Count(s2, x);
  }

  lemma OverflowPlaced(s: State, p: nat, r: Rid)
    requires Placed(s, Some(r)) && p < |s.q.over| == |s.q.overLen|
    ensures Placed(SendOverflow(s, p, r), None)
  {
    forall x: Rid ensures Count(SendOverflow(s, p, r), x) == Count(s, x) + if x == r then 1 else 0 {
      OccUpdate(s.q.over, p, s.q.over[p] + [r], x);
      OccAppend(s.q.over[p], [r], x);
    }
  }

  /** Request numbers run upwards. */
  ghost predicate Numbered(s: State) {
    (forall r :: r in s.b.req ==> r <= s.b.inc) && (forall r :: r in s.b.leaked ==> r <= s.b.inc)
  }

  lemma RegisterPlaced(s: State, p: nat, c: nat, now: int)
    requires Placed(s, None) && Numbered(s) && c in s.b.net.live
    ensures Placed(Register(s, p, c, now), Some(s.b.inc + 1))
  {
    assert forall x: Rid :: Count(Register(s, p, c, now), x) == Count(s, x);
  }

  lemma SubmitPlaced(cfg: Config, s: State, p: nat, c: nat, flags: Flags, now: int, locked: bool, wake: set<nat>)
    requires Fits(cfg, s) && Placed(s, None) && Numbered(s) && c in s.b.net.live
    ensures Placed(Submitted(cfg, s, p, c, flags, now, locked, wake), None)
  {
    if !Refused(cfg, s, p, flags) {
      if locked && StageFull(cfg, s, p, flags) {
        ConcatPlaced(cfg, s, p, None);
        assert forall x: Rid :: Count(Leak(Relieved(cfg, s, p), p, c, now), x) == Count(Relieved(cfg, s, p), x);
      } else {
        RegisterPlaced(s, p, c, now);
        var s1 := Register(s, p, c, now);
        if locked {
          SendPlaced(cfg, s1, p, s.b.inc + 1, flags, now, wake);
        } else {
          OverflowPlaced(s1, p, s.b.inc + 1);
        }
      }
    }
  }

  lemma LetGoPlaced(s: State, w: nat, r: Rid, v: Verdict, stopped: bool)
    requires Placed(s, None) && w < |s.t.hand| == |s.t.thread| == |s.t.jump| && s.t.hand[w] == [r]
    ensures Placed(LetGo(s, w, v, stopped), Some(r))
  {
    forall x: Rid ensures Count(LetGo(s, w, v, stopped), x) == Count(s, x) - if x == r then 1 else 0 {
      OccUpdate(s.t.hand, w, [], x);
      OccAppend([], [r], x);
    }
  }

  lemma DonePlaced(s: State, r: Rid)
    requires Placed(s, Some(r))
    ensures Placed(AppendDone(s, r), None)
  {
    forall x: Rid ensures Count(AppendDone(s, r), x) == Count(s, x) + if x == r then 1 else 0 {
      OccAppend(s.e.done, [r], x);
    }
  }

  lemma ForwardPlaced(s: State, target: Option<nat>, r: Rid, wake: set<nat>)
    requires Placed(s, Some(r)) && r in s.b.req && |s.q.queue| == |s.q.queueLen|
    ensures Placed(Forward(s, target, r, wake), None)
  {
    DonePlaced(s, r);
    if target.Some? && target.value < |s.q.queue| {
      AppendPlaced(s, target.value, r);
      assert forall x: Rid :: Count(ToStage(s, target.value, r, wake), x) == Count(AppendStage(s, target.value, r), x);
    }
  }

  /** A handled request goes to exactly one place unless the loop check falls through. */
  lemma SubmitNextPlaced(cfg: Config, s: State, w: nat, r: Rid, v: Verdict, wake: set<nat>)
    requires Fits(cfg, s) && Placed(s, None) && w < |cfg.home| && s.t.hand[w] == [r] && r in s.b.req
    requires Looped(s, r, v) ==> cfg.cutoffReturns
    ensures Placed(SubmitNext(cfg, s, w, r, v, wake), None)
  {
    LetGoPlaced(s, w, r, v, Looped(s, r, v));
    if Looped(s, r, v) {
      DonePlaced(LetGo(s, w, v, true), r);
    } else {
      ForwardPlaced(LetGo(s, w, v, false), Target(cfg, s, w, v), r, wake);
    }
  }

  lemma HandlePlaced(cfg: Config, s: State, w: nat, r: Rid, v: Verdict, named: Option<nat>, wake: set<nat>)
    requires Fits(cfg, s) && Placed(s, None) && w < |cfg.home| && s.t.hand[w] == [r] && r in s.b.req
    requires Looped(s, r, v) ==> cfg.cutoffReturns
    ensures Placed(Handled(cfg, s, w, r, v, named, wake), None)
  {
    var s1 := TurnTaken(Named(s, w, named), r);
    assert forall x: Rid :: Count(s1, x) == Count(s, x);
    SubmitNextPlaced(cfg, s1, w, r, v, wake);
  }

  lemma TakePlaced(cfg: Config, s: State, w: nat)
    requires Fits(cfg, s) && Placed(s, None) && w < |cfg.home| && s.q.queue[cfg.home[w]] != [] && s.t.hand[w] == []
    ensures Placed(Taken(cfg, s, w), None)
  {
    var q := s.q.queue[cfg.home[w]];
    forall x: Rid ensures Count(Taken(cfg, s, w), x) == Count(s, x) {
      OccUpdate(s.q.queue, cfg.home[w], q[1..], x);
      OccUpdate(s.t.hand, w, [q[0]], x);
      OccFirst(q, x);
    }
  }

  lemma DrainPlaced(s: State)
    requires Placed(s, None)
    ensures Placed(Drained(s), None)
  {
    forall x: Rid ensures Count(Drained(s), x) == Count(s, x) {
      OccAppend(s.e.final, s.e.done, x);
    }
  }

  lemma EndPlaced(s: State, disconnect: bool)
    requires Placed(s, None) && s.e.final != [] && s.e.final[0] in s.b.req
    ensures Placed(Ended(s, disconnect), None)
  {
    forall x: Rid ensures Count(Ended(s, disconnect), x) == Count(s, x) - if x == s.e.final[0] then 1 else 0 {
      OccFirst(s.e.final, x);
    }
  }
}
