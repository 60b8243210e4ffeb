/**
  The first stage's queue and the overflow queue behind it act as one queue: requests
  that have not been handled yet stay in the order of their submission, whatever the
  trylocks answer, and a pipeline is on the active list exactly while its overflow
  queue holds something.
*/
module PipelineFifo {
  import opened PipelineState

  /** A request that no worker has passed on yet. */
  predicate Unadvanced(req: map<Rid, Request>, r: Rid) {
    r in req && req[r].hops == 0
  }

  /** Its unadvanced requests are in the order of their numbers. */
  ghost predicate InOrder(q: seq<Rid>, req: map<Rid, Request>) {
    forall i, j :: 0 <= i < j < |q| && Unadvanced(req, q[i]) && Unadvanced(req, q[j]) ==> q[i] < q[j]
  }

  /** The waiting line of a pipeline. */
  function Line(cfg: Config, s: State, p: nat): seq<Rid>
    requires Fits(cfg, s) && p < |cfg.first|
  {
    s.q.queue[cfg.first[p]] + s.q.over[p]
  }

  ghost predicate UpTo(q: seq<Rid>, top: nat) {
    forall i :: 0 <= i < |q| ==> q[i] <= top
  }

  /** Every line is in order, and no number in it is above `top`. */
  ghost predicate Fifo(cfg: Config, s: State, top: nat) {
    && Fits(cfg, s)
    && (forall p :: 0 <= p < |cfg.first| ==> InOrder(Line(cfg, s, p), s.b.req) && UpTo(Line(cfg, s, p), top))
  }

  predicate OwnFirst(cfg: Config) {
    forall p, q :: 0 <= p < q < |cfg.first| ==> cfg.first[p] != cfg.first[q]
  }

  // ----------------------------------------------------------- lists in order

  /** Dropping a piece of the line, or letting requests advance, keeps the order. */
  lemma InOrderDrop(a: seq<Rid>, b: seq<Rid>, c: seq<Rid>, req: map<Rid, Request>)
    requires InOrder(a + b + c, req)
    ensures InOrder(a + c, req)
  {
    var q := a + b + c;
    forall i, j | 0 <= i < j < |a + c| && Unadvanced(req, (a + c)[i]) && Unadvanced(req, (a + c)[j])
      ensures (a + c)[i] < (a + c)[j]
    {
      assert (a + c)[i] == q[if i < |a| then i else i + |b|];
      assert (a + c)[j] == q[if j < |a| then j else j + |b|];
    }
  }

  lemma TailInOrder(q: seq<Rid>, o: seq<Rid>, req: map<Rid, Request>, top: nat)
    requires q != [] && InOrder(q + o, req) && UpTo(q + o, top)
    ensures InOrder(q[1..] + o, req) && UpTo(q[1..] + o, top)
  {
    var l, l' := q + o, q[1..] + o;
    assert l' == l[1..];
  }

  lemma {:induction false} KeptInOrder(q: seq<Rid>, tail: seq<Rid>, req: map<Rid, Request>, now: int, timeout: nat)
    requires InOrder(q + tail, req)
    ensures InOrder(Kept(q, req, now, timeout) + tail, req)
    decreases |q|
  {
    if q != [] {
      var q', last := q[..|q| - 1], [q[|q| - 1]];
      assert q + tail == q' + last + tail && q' + last + tail == q' + (last + tail);
      if Expired(req, last[0], now, timeout) {
        InOrderDrop(q', last, tail, req);
        KeptInOrder(q', tail, req, now, timeout);
        assert Kept(q, req, now, timeout) == Kept(q', req, now, timeout);
      } else {
        KeptInOrder(q', last + tail, req, now, timeout);
        assert Kept(q, req, now, timeout) + tail == Kept(q', req, now, timeout) + (last + tail);
      }
    }
  }

  lemma {:induction false} KeptIsPart(q: seq<Rid>, req: map<Rid, Request>, now: int, timeout: nat)
    ensures forall x :: x in Kept(q, req, now, timeout) ==> x in q
  {
    if q != [] {
      KeptIsPart(q[..|q| - 1], req, now, timeout);
    }
  }

  /** A newcomer at the end, or one that has advanced, keeps the order. */
  lemma InOrderAppend(q: seq<Rid>, r: Rid, req: map<Rid, Request>)
    requires InOrder(q, req)
    requires !Unadvanced(req, r) || forall i :: 0 <= i < |q| ==> q[i] < r
    ensures InOrder(q + [r], req)
  {
  }

  lemma InOrderInsert(q: seq<Rid>, r: Rid, o: seq<Rid>, req: map<Rid, Request>)
    requires InOrder(q + o, req) && !Unadvanced(req, r)
    ensures InOrder(q + [r] + o, req)
  {
    var l := q + [r] + o;
    forall i, j | 0 <= i < j < |l| && Unadvanced(req, l[i]) && Unadvanced(req, l[j]) ensures l[i] < l[j] {
      assert l[i] == (q + o)[if i < |q| then i else i - 1];
      assert l[j] == (q + o)[if j < |q| then j else j - 1];
    }
  }

  // ------------------------------------------------------------- the steps

  /** No request up to `top` goes back to being unadvanced. */
  ghost predicate OnlyAdvances(req: map<Rid, Request>, req': map<Rid, Request>, top: nat) {
    forall x: Rid :: x <= top && Unadvanced(req', x) ==> Unadvanced(req, x)
  }

  /** A step that changes one stage's queue. */
  lemma FifoStage(cfg: Config, s: State, s': State, st: nat, top: nat, top': nat)
    requires Fifo(cfg, s, top) && Fits(cfg, s') && top <= top' && OnlyAdvances(s.b.req, s'.b.req, top)
    requires s'.q.over == s.q.over && forall i :: 0 <= i < |s.q.queue| && i != st ==> s'.q.queue[i] == s.q.queue[i]
    requires forall p :: 0 <= p < |cfg.first| && cfg.first[p] == st ==>
      InOrder(Line(cfg, s', p), s'.b.req) && UpTo(Line(cfg, s', p), top')
    ensures Fifo(cfg, s', top')
  {
    forall p | 0 <= p < |cfg.first| ensures InOrder(Line(cfg, s', p), s'.b.req) && UpTo(Line(cfg, s', p), top') {
      if cfg.first[p] != st {
        assert Line(cfg, s', p) == Line(cfg, s, p);
      }
    }
  }

  /** A step that leaves all lines alone. */
  lemma FifoSame(cfg: Config, s: State, s': State, top: nat)
    requires Fifo(cfg, s, top) && Fits(cfg, s') && s'.q.queue == s.q.queue && s'.q.over == s.q.over
    requires OnlyAdvances(s.b.req, s'.b.req, top)
    ensures Fifo(cfg, s', top)
  {
    forall p | 0 <= p < |cfg.first| ensures InOrder(Line(cfg, s', p), s'.b.req) && UpTo(Line(cfg, s', p), top) {
      assert Line(cfg, s', p) == Line(cfg, s, p);
    }
  }

  /** The queue of stage `st` loses its first request. */
  lemma FifoTail(cfg: Config, s: State, s': State, st: nat, top: nat)
    requires Fifo(cfg, s, top) && Fits(cfg, s') && st < |s.q.queue| && s.q.queue[st] != []
    requires s'.q.queue == s.q.queue[st := s.q.queue[st][1..]] && s'.q.over == s.q.over && s'.b.req == s.b.req
    ensures Fifo(cfg, s', top)
  {
    var q := s.q.queue[st];
    forall p | 0 <= p < |cfg.first| && cfg.first[p] == st
      ensures InOrder(Line(cfg, s', p), s'.b.req) && UpTo(Line(cfg, s', p), top)
    {
      assert Line(cfg, s, p) == q + s.q.over[p];
      TailInOrder(q, s.q.over[p], s.b.req, top);
    }
    FifoStage(cfg, s, s', st, top, top);
  }

  lemma FifoSweep(cfg: Config, s: State, st: nat, now: int, timeout: nat, top: nat)
    requires Fifo(cfg, s, top) && st < |s.q.queue|
    ensures Fifo(cfg, Sweep(s, st, now, timeout), top)
  {
    var q, s' := s.q.queue[st], Sweep(s, st, now, timeout);
    var kept := Kept(q, s.b.req, now, timeout);
    forall p | 0 <= p < |cfg.first| && cfg.first[p] == st
      ensures InOrder(Line(cfg, s', p), s'.b.req) && UpTo(Line(cfg, s', p), top)
    {
      assert Line(cfg, s, p) == q + s.q.over[p];
      KeptInOrder(q, s.q.over[p], s.b.req, now, timeout);
      KeptIsPart(q, s.b.req, now, timeout);
      forall i | 0 <= i < |kept + s.q.over[p]| ensures (kept + s.q.over[p])[i] <= top {
        if i < |kept| {
          assert kept[i] in kept && kept[i] in q;
          var j :| 0 <= j < |q| && q[j] == kept[i];
          assert Line(cfg, s, p)[j] == q[j];
        } else {
          assert s.q.over[p][i - |kept|] == Line(cfg, s, p)[i - |kept| + |q|];
        }
      }
    }
    FifoStage(cfg, s, s', st, top, top);
  }

  lemma FifoConcat(cfg: Config, s: State, p: nat, top: nat)
    requires Fifo(cfg, s, top) && p < |cfg.first| && OwnFirst(cfg)
    ensures Fifo(cfg, Concat(cfg, s, p), top)
  {
    var s' := Concat(cfg, s, p);
    forall q | 0 <= q < |cfg.first| ensures Line(cfg, s', q) == Line(cfg, s, q) {
      if q == p {
        assert s.q.queue[cfg.first[p]] + s.q.over[p] + [] == s.q.queue[cfg.first[p]] + s.q.over[p];
      } else {
        assert cfg.first[p] != cfg.first[q];
      }
    }
  }

  lemma FifoMakeRoom(cfg: Config, s: State, st: nat, flags: Flags, now: int, top: nat)
    requires Fifo(cfg, s, top) && st < |s.q.queue|
    ensures Fifo(cfg, MakeRoom(cfg, s, st, flags, now), top) && MakeRoom(cfg, s, st, flags, now).q.over == s.q.over
  {
    var s1 := s;
    if flags.force && flags.kickOut && s.q.queueLen[st] >= cfg.queueSize && s.q.queue[st] != [] {
      s1 := KickOut(s, st);
      FifoTail(cfg, s, s1, st, top);
    }
    FifoSweep(cfg, s1, st, now, cfg.timeout, top);
  }

  /** A request joins the first stage's queue behind an empty overflow queue. */
  lemma FifoJoin(cfg: Config, s: State, p: nat, r: Rid)
    requires r > 0 && Fifo(cfg, s, r - 1) && p < |cfg.first| && s.q.over[p] == [] && OwnFirst(cfg)
    ensures Fifo(cfg, AppendStage(s, cfg.first[p], r), r)
  {
    var st := cfg.first[p];
    var s' := AppendStage(s, st, r);
    forall q | 0 <= q < |cfg.first| && cfg.first[q] == st
      ensures InOrder(Line(cfg, s', q), s'.b.req) && UpTo(Line(cfg, s', q), r)
    {
      assert q == p;
      assert Line(cfg, s, p) == s.q.queue[st] && Line(cfg, s', p) == s.q.queue[st] + [r];
      InOrderAppend(s.q.queue[st], r, s.b.req);
    }
    FifoStage(cfg, s, s', st, r - 1, r);
  }

  /** A request joins the overflow queue. */
  lemma FifoOverflow(cfg: Config, s: State, p: nat, r: Rid)
    requires r > 0 && Fifo(cfg, s, r - 1) && p < |cfg.first|
    ensures Fifo(cfg, SendOverflow(s, p, r), r)
  {
    var s' := SendOverflow(s, p, r);
    forall q | 0 <= q < |cfg.first| ensures InOrder(Line(cfg, s', q), s'.b.req) && UpTo(Line(cfg, s', q), r) {
      if q == p {
        assert Line(cfg, s', p) == Line(cfg, s, p) + [r];
        InOrderAppend(Line(cfg, s, p), r, s.b.req);
      } else {
        assert Line(cfg, s', q) == Line(cfg, s, q);
      }
    }
  }

  lemma FifoSend(cfg: Config, s: State, p: nat, r: Rid, flags: Flags, now: int, wake: set<nat>)
    requires r > 0 && Fifo(cfg, s, r - 1) && p < |cfg.first| && OwnFirst(cfg)
    ensures Fifo(cfg, SendLocked(cfg, s, p, r, flags, now, wake), r)
  {
    var st := cfg.first[p];
    FifoConcat(cfg, s, p, r - 1);
    var s1 := Relieved(cfg, s, p);
    FifoMakeRoom(cfg, s1, st, flags, now, r - 1);
    var s2 := MakeRoom(cfg, s1, st, flags, now);
    FifoJoin(cfg, s2, p, r);
    FifoSame(cfg, AppendStage(s2, st, r), Wake(AppendStage(s2, st, r), wake), r);
  }

  lemma FifoSubmit(cfg: Config, s: State, p: nat, c: nat, flags: Flags, now: int, locked: bool, wake: set<nat>)
    requires Fifo(cfg, s, s.b.inc) && c in s.b.net.live && OwnFirst(cfg)
    ensures var s' := Submitted(cfg, s, p, c, flags, now, locked, wake); Fifo(cfg, s', s'.b.inc)
  {
    var s' := Submitted(cfg, s, p, c, flags, now, locked, wake);
    if !Refused(cfg, s, p, flags) {
      if locked && StageFull(cfg, s, p, flags) {
        FifoConcat(cfg, s, p, s.b.inc);
        FifoSame(cfg, Relieved(cfg, s, p), s', s.b.inc);
      } else {
        FifoSame(cfg, s, Register(s, p, c, now), s.b.inc);
        if locked {
          FifoSend(cfg, Register(s, p, c, now), p, s.b.inc + 1, flags, now, wake);
        } else {
          FifoOverflow(cfg, Register(s, p, c, now), p, s.b.inc + 1);
        }
      }
    }
  }

  lemma FifoForward(cfg: Config, s: State, target: Option<nat>, r: Rid, wake: set<nat>, top: nat)
    requires Fifo(cfg, s, top) && r in s.b.req && r <= top
    ensures Fifo(cfg, Forward(s, target, r, wake), top)
  {
    var s' := Forward(s, target, r, wake);
    if target.Some? && target.value < |s.q.queue| {
      var st := target.value;
      forall p | 0 <= p < |cfg.first| && cfg.first[p] == st
        ensures InOrder(Line(cfg, s', p), s'.b.req) && UpTo(Line(cfg, s', p), top)
      {
        assert Line(cfg, s, p) == s.q.queue[st] + s.q.over[p];
        JoinAdvanced(s.q.queue[st], r, s.q.over[p], s.b.req, s'.b.req, top);
      }
      FifoStage(cfg, s, s', st, top, top);
    } else {
      FifoSame(cfg, s, s', top);
    }
  }

  lemma JoinAdvanced(q: seq<Rid>, r: Rid, o: seq<Rid>, req: map<Rid, Request>, req': map<Rid, Request>, top: nat)
    requires InOrder(q + o, req) && UpTo(q + o, top) && r <= top && !Unadvanced(req', r)
    requires OnlyAdvances(req, req', top)
    ensures InOrder(q + [r] + o, req') && UpTo(q + [r] + o, top)
  {
    assert InOrder(q + o, req');
    InOrderInsert(q, r, o, req');
    forall i | 0 <= i < |q + [r] + o| ensures (q + [r] + o)[i] <= top {
      if i != |q| {
        assert (q + [r] + o)[i] == (q + o)[if i < |q| then i else i - 1];
      }
    }
  }

  lemma FifoSubmitNext(cfg: Config, s: State, w: nat, r: Rid, v: Verdict, wake: set<nat>, top: nat)
    requires Fifo(cfg, s, top) && w < |cfg.home| && r in s.b.req && r <= top
    ensures Fifo(cfg, SubmitNext(cfg, s, w, r, v, wake), top)
  {
    var target := Target(cfg, s, w, v);
    if !Looped(s, r, v) {
      FifoSame(cfg, s, LetGo(s, w, v, false), top);
      FifoForward(cfg, LetGo(s, w, v, false), target, r, wake, top);
    } else if cfg.cutoffReturns {
      FifoSame(cfg, s, AppendDone(LetGo(s, w, v, true), r), top);
    } else {
      var s2 := AppendDone(LetGo(s, w, v, false), r);
      FifoSame(cfg, s, Doubled(s2), top);
      FifoForward(cfg, Doubled(s2), target, r, wake, top);
    }
  }

  lemma FifoHandle(cfg: Config, s: State, w: nat, r: Rid, v: Verdict, named: Option<nat>, wake: set<nat>, top: nat)
    requires Fifo(cfg, s, top) && w < |cfg.home| && r in s.b.req && r <= top
    ensures Fifo(cfg, Handled(cfg, s, w, r, v, named, wake), top)
  {
    var s1 := TurnTaken(Named(s, w, named), r);
    FifoSame(cfg, s, s1, top);
    FifoSubmitNext(cfg, s1, w, r, v, wake, top);
  }

  lemma StepFifo(cfg: Config, s: State, l: Label)
    requires Fifo(cfg, s, s.b.inc) && OwnFirst(cfg) && Enabled(cfg, s, l)
    requires forall r :: r in s.b.req ==> r <= s.b.inc
    ensures Fifo(cfg, Apply(cfg, s, l), Apply(cfg, s, l).b.inc)
  {
    match l
    case Submit(p, c, flags, now, locked, wake) => FifoSubmit(cfg, s, p, c, flags, now, locked, wake);
    case Kick(p, wake) =>
      FifoConcat(cfg, s, p, s.b.inc);
      FifoSame(cfg, Concat(cfg, s, p), Apply(cfg, s, l), s.b.inc);
    case Take(w) => FifoTail(cfg, s, Taken(cfg, s, w), cfg.home[w], s.b.inc);
    case Handle(w, v, named, wake) => FifoHandle(cfg, s, w, s.t.hand[w][0], v, named, wake, s.b.inc);
    case _ => FifoSame(cfg, s, Apply(cfg, s, l), s.b.inc);
  }

  // ------------------------------------------------------------- the active list

  /** The active list holds exactly the pipelines with an overflow queue, each once. */
  ghost predicate ActiveList(s: State) {
    && (forall i, j :: 0 <= i < j < |s.q.active| ==> s.q.active[i] != s.q.active[j])
    && (forall p :: p in s.q.active ==> p < |s.q.over|)
    && (forall p :: 0 <= p < |s.q.over| ==> (p in s.q.active <==> s.q.over[p] != []))
  }

  lemma {:induction false} WithoutIs(a: seq<nat>, x: nat)
    requires forall i, j :: 0 <= i < j < |a| ==> a[i] != a[j]
    ensures forall y: nat :: y in Without(a, x) <==> y in a && y != x
    ensures forall i, j :: 0 <= i < j < |Without(a, x)| ==> Without(a, x)[i] != Without(a, x)[j]
  {
    if a != [] {
      WithoutIs(a[1..], x);
      assert a == [a[0]] + a[1..];
      assert forall y: nat :: y in a <==> y == a[0] || y in a[1..];
      assert a[0] !in a[1..];
      assert forall k :: 0 <= k < |Without(a[1..], x)| ==> Without(a[1..], x)[k] in Without(a[1..], x);
    }
  }

  lemma ConcatActive(cfg: Config, s: State, p: nat)
    requires Fits(cfg, s) && ActiveList(s) && p < |cfg.first|
    ensures ActiveList(Concat(cfg, s, p))
  {
    WithoutIs(s.q.active, p);
  }

  lemma OverflowActive(s: State, p: nat, r: Rid)
    requires ActiveList(s) && p < |s.q.over| == |s.q.overLen|
    ensures ActiveList(SendOverflow(s, p, r))
  {
    var s' := SendOverflow(s, p, r);
    assert forall q: nat :: q in s'.q.active <==> q in s.q.active || q == p;
  }

  lemma SendActive(cfg: Config, s: State, p: nat, r: Rid, flags: Flags, now: int, wake: set<nat>)
    requires Fits(cfg, s) && ActiveList(s) && p < |cfg.first|
    ensures ActiveList(SendLocked(cfg, s, p, r, flags, now, wake))
  {
    ConcatActive(cfg, s, p);
    var s1 := Relieved(cfg, s, p);
    var s2 := MakeRoom(cfg, s1, cfg.first[p], flags, now);
    assert s2.q.over == s1.q.over && s2.q.active == s1.q.active;
  }

  lemma SubmitActive(cfg: Config, s: State, p: nat, c: nat, flags: Flags, now: int, locked: bool, wake: set<nat>)
    requires Fits(cfg, s) && ActiveList(s) && c in s.b.net.live
    ensures ActiveList(Submitted(cfg, s, p, c, flags, now, locked, wake))
  {
    if !Refused(cfg, s, p, flags) {
      if locked && StageFull(cfg, s, p, flags) {
        ConcatActive(cfg, s, p);
      } else if locked {
        SendActive(cfg, Register(s, p, c, now), p, s.b.inc + 1, flags, now, wake);
      } else {
        OverflowActive(Register(s, p, c, now), p, s.b.inc + 1);
      }
    }
  }

  lemma StepActive(cfg: Config, s: State, l: Label)
    requires ActiveList(s) && Enabled(cfg, s, l)
    ensures ActiveList(Apply(cfg, s, l))
  {
    match l
    case Submit(p, c, flags, now, locked, wake) => SubmitActive(cfg, s, p, c, flags, now, locked, wake);
    case Kick(p, wake) => ConcatActive(cfg, s, p);
    case Handle(w, v, named, wake) =>
      var r := s.t.hand[w][0];
      assert HandleFrame(TurnTaken(Named(s, w, named), r), Handled(cfg, s, w, r, v, named, wake));
    case _ =>
  }
}
