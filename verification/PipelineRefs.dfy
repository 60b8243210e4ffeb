/**
  Reference counts: a connection state is held once while the connection is open and
  once by every request on it, and is freed exactly when the last hold is dropped.
*/
module PipelineRefs {
  import opened PipelineState

  /** The requests of `m` on connection `c`, and how many they are. */
  function On(m: map<Rid, Request>, c: nat): set<Rid> {
    set r | r in m && m[r].conn == c
  }

  function Holds(m: map<Rid, Request>, c: nat): nat {
    |On(m, c)|
  }

  lemma HoldsAdd(m: map<Rid, Request>, r: Rid, q: Request, c: nat)
    requires r !in m
    ensures Holds(m[r := q], c) == Holds(m, c) + if q.conn == c then 1 else 0
  {
    assert r !in On(m, c);
    assert On(m[r := q], c) == if q.conn == c then On(m, c) + {r} else On(m, c);
  }

  lemma HoldsRemove(m: map<Rid, Request>, r: Rid, c: nat)
    requires r in m
    ensures Holds(m, c) == Holds(m - {r}, c) + if m[r].conn == c then 1 else 0
  {
    assert r !in On(m - {r}, c);
    assert On(m, c) == if m[r].conn == c then On(m - {r}, c) + {r} else On(m - {r}, c);
  }

  lemma HoldsSame(m: map<Rid, Request>, m': map<Rid, Request>, c: nat)
    requires m'.Keys == m.Keys && forall r :: r in m ==> m'[r].conn == m[r].conn
    ensures Holds(m', c) == Holds(m, c)
  {
    assert On(m, c) == On(m', c);
  }

  /** Every count is right, every hold is on a state in memory, and nothing freed is in memory. */
  ghost predicate RefsRight(net: Net, req: map<Rid, Request>, leaked: map<Rid, Request>) {
    && (forall c :: c in net.live ==>
      && net.live[c].refs == (if net.live[c].open then 1 else 0) + Holds(req, c) + Holds(leaked, c)
      && net.live[c].refs > 0)
    && (forall r :: r in req ==> req[r].conn in net.live)
    && (forall r :: r in leaked ==> leaked[r].conn in net.live)
    && net.live.Keys !! net.freed
  }

  ghost predicate Refs(s: State) {
    RefsRight(s.b.net, s.b.req, s.b.leaked)
  }

  lemma HoldRefs(net: Net, req: map<Rid, Request>, leaked: map<Rid, Request>, r: Rid, q: Request)
    requires RefsRight(net, req, leaked) && r !in req && q.conn in net.live
    ensures RefsRight(Hold(net, q.conn), req[r := q], leaked)
  {
    forall c | c in net.live ensures Holds(req[r := q], c) == Holds(req, c) + if q.conn == c then 1 else 0 {
      HoldsAdd(req, r, q, c);
    }
  }

  lemma LeakRefs(net: Net, req: map<Rid, Request>, leaked: map<Rid, Request>, r: Rid, q: Request)
    requires RefsRight(net, req, leaked) && r !in leaked && q.conn in net.live
    ensures RefsRight(Hold(net, q.conn), req, leaked[r := q])
  {
    forall c | c in net.live ensures Holds(leaked[r := q], c) == Holds(leaked, c) + if q.conn == c then 1 else 0 {
      HoldsAdd(leaked, r, q, c);
    }
  }

  lemma HeldPositive(m: map<Rid, Request>, r: Rid)
    requires r in m
    ensures Holds(m, m[r].conn) > 0
  {
    assert r in On(m, m[r].conn);
  }

  /** The done handler finds the connection state in memory, and it stays there through a
      disconnect until the request's own hold is dropped. */
  lemma AnswerTouchesLive(s: State, r: Rid)
    requires Refs(s) && r in s.b.req
    ensures s.b.req[r].conn in s.b.net.live && s.b.req[r].conn !in s.b.net.freed
    ensures s.b.net.live[s.b.req[r].conn].open ==>
      var net := CloseConn(s.b.net, s.b.req[r].conn);
      s.b.req[r].conn in net.live && net.live[s.b.req[r].conn].refs > 0 && net.freed == s.b.net.freed
  {
    HeldPositive(s.b.req, r);
  }

  /** The state is freed by this answer exactly when nothing else holds it. */
  lemma AnswerFrees(s: State, r: Rid, disconnect: bool)
    requires Refs(s) && r in s.b.req
    requires disconnect ==> s.b.net.live[s.b.req[r].conn].open
    ensures var c := s.b.req[r].conn; var net := ReleaseFor(s.b.net, c, disconnect);
      && net.freed == (if c in net.live then s.b.net.freed else s.b.net.freed + {c})
      && (c !in net.live <==>
          (disconnect || !s.b.net.live[c].open) && Holds(s.b.req, c) == 1 && Holds(s.b.leaked, c) == 0)
  {
    HeldPositive(s.b.req, r);
  }

  lemma CloseRefs(net: Net, req: map<Rid, Request>, leaked: map<Rid, Request>, c: nat)
    requires RefsRight(net, req, leaked) && c in net.live && net.live[c].open
    ensures RefsRight(CloseConn(net, c), req, leaked)
  {
    forall r | r in req && req[r].conn == c ensures c in CloseConn(net, c).live {
      HeldPositive(req, r);
    }
    forall r | r in leaked && leaked[r].conn == c ensures c in CloseConn(net, c).live {
      HeldPositive(leaked, r);
    }
  }

  /** One hold is dropped with the request it belongs to. */
  lemma DropRefs(net: Net, req: map<Rid, Request>, leaked: map<Rid, Request>, r: Rid)
    requires RefsRight(net, req, leaked) && r in req
    ensures net.live[req[r].conn].refs > 0 && RefsRight(Release(net, req[r].conn), req - {r}, leaked)
  {
    HeldPositive(req, r);
    LessHeld(net, req, r);
    StillHeld(net, req, leaked, r);
  }

  lemma LessHeld(net: Net, req: map<Rid, Request>, r: Rid)
    requires r in req
    ensures forall x :: x in net.live ==> Holds(req, x) == Holds(req - {r}, x) + if req[r].conn == x then 1 else 0
  {
    var c := req[r].conn;
    forall x | x in net.live ensures Holds(req, x) == Holds(req - {r}, x) + if c == x then 1 else 0 {
      HoldsRemove(req, r, x);
    }
  }

  lemma StillHeld(net: Net, req: map<Rid, Request>, leaked: map<Rid, Request>, r: Rid)
    requires RefsRight(net, req, leaked) && r in req && net.live[req[r].conn].refs > 0
    ensures var c := req[r].conn; var net' := Release(net, c);
      && (forall x :: x in req - {r} && req[x].conn == c ==> c in net'.live)
      && (forall x :: x in leaked && leaked[x].conn == c ==> c in net'.live)
  {
    var c := req[r].conn;
    HoldsRemove(req, r, c);
    forall x | x in req - {r} && req[x].conn == c ensures c in Release(net, c).live {
      HeldPositive(req - {r}, x);
    }
    forall x | x in leaked && leaked[x].conn == c ensures c in Release(net, c).live {
      HeldPositive(leaked, x);
    }
  }

  lemma AnswerRefs(s: State, disconnect: bool)
    requires Refs(s) && s.e.final != [] && s.e.final[0] in s.b.req
    requires disconnect ==> s.b.req[s.e.final[0]].conn in s.b.net.live && s.b.net.live[s.b.req[s.e.final[0]].conn].open
    ensures Refs(Ended(s, disconnect))
  {
    var r := s.e.final[0];
    var c := s.b.req[r].conn;
    AnswerTouchesLive(s, r);
    if disconnect {
      CloseRefs(s.b.net, s.b.req, s.b.leaked, c);
      DropRefs(CloseConn(s.b.net, c), s.b.req, s.b.leaked, r);
    } else {
      DropRefs(s.b.net, s.b.req, s.b.leaked, r);
    }
  }

  lemma RegisterRefs(s: State, p: nat, c: nat, now: int)
    requires Refs(s) && c in s.b.net.live && s.b.inc + 1 !in s.b.req
    ensures Refs(Register(s, p, c, now))
  {
    HoldRefs(s.b.net, s.b.req, s.b.leaked, s.b.inc + 1, Request(c, p, now, 0, 0));
  }

  lemma LeakedRefs(s: State, p: nat, c: nat, now: int)
    requires Refs(s) && c in s.b.net.live && s.b.inc + 1 !in s.b.leaked
    ensures Refs(Leak(s, p, c, now))
  {
    var x := Request(c, p, now, 0, 0);
    LeakRefs(s.b.net, s.b.req, s.b.leaked, s.b.inc + 1, x);
    assert Leak(s, p, c, now).b.net == Hold(s.b.net, x.conn) && Leak(s, p, c, now).b.leaked == s.b.leaked[s.b.inc + 1 := x];
  }

  lemma SameRefs(s: State, s': State)
    requires Refs(s) && s'.b.net == s.b.net && s'.b.req == s.b.req && s'.b.leaked == s.b.leaked
    ensures Refs(s')
  {
  }

  lemma SubmitRefs(cfg: Config, s: State, p: nat, c: nat, flags: Flags, now: int, locked: bool, wake: set<nat>)
    requires Fits(cfg, s) && Refs(s) && c in s.b.net.live && s.b.inc + 1 !in s.b.req && s.b.inc + 1 !in s.b.leaked
    ensures Refs(Submitted(cfg, s, p, c, flags, now, locked, wake))
  {
    var s' := Submitted(cfg, s, p, c, flags, now, locked, wake);
    if !Refused(cfg, s, p, flags) {
      if locked && StageFull(cfg, s, p, flags) {
        SameRefs(s, Relieved(cfg, s, p));
        LeakedRefs(Relieved(cfg, s, p), p, c, now);
      } else {
        RegisterRefs(s, p, c, now);
        SameRefs(Register(s, p, c, now), s');
      }
    }
  }

  lemma SameHoldsRefs(net: Net, req: map<Rid, Request>, req': map<Rid, Request>, leaked: map<Rid, Request>)
    requires RefsRight(net, req, leaked)
    requires req'.Keys == req.Keys && forall r :: r in req ==> req'[r].conn == req[r].conn
    ensures RefsRight(net, req', leaked)
  {
    forall c | c in net.live ensures Holds(req', c) == Holds(req, c) {
      HoldsSame(req, req', c);
    }
  }

  lemma HandleHolds(cfg: Config, s: State, w: nat, r: Rid, v: Verdict, named: Option<nat>, wake: set<nat>)
    requires Fits(cfg, s) && w < |cfg.home| && r in s.b.req
    ensures var s' := Handled(cfg, s, w, r, v, named, wake);
      && s'.b.net == s.b.net && s'.b.leaked == s.b.leaked && s'.b.req.Keys == s.b.req.Keys
      && (forall x :: x in s.b.req ==> s'.b.req[x].conn == s.b.req[x].conn)
  {
    var s1 := TurnTaken(Named(s, w, named), r);
    assert s1.b.net == s.b.net && s1.b.leaked == s.b.leaked && s1.b.req.Keys == s.b.req.Keys;
    assert HandleFrame(s1, SubmitNext(cfg, s1, w, r, v, wake));
  }

  lemma HandleRefs(cfg: Config, s: State, w: nat, r: Rid, v: Verdict, named: Option<nat>, wake: set<nat>)
    requires Fits(cfg, s) && Refs(s) && w < |cfg.home| && r in s.b.req
    ensures Refs(Handled(cfg, s, w, r, v, named, wake))
  {
    HandleHolds(cfg, s, w, r, v, named, wake);
    SameHoldsRefs(s.b.net, s.b.req, Handled(cfg, s, w, r, v, named, wake).b.req, s.b.leaked);
  }

  lemma StepRefs(cfg: Config, s: State, l: Label)
    requires Refs(s) && Enabled(cfg, s, l) && s.b.inc + 1 !in s.b.req && s.b.inc + 1 !in s.b.leaked
    ensures Refs(Apply(cfg, s, l))
  {
    match l
    case Accept(c) =>
      assert On(s.b.req, c) == {} && On(s.b.leaked, c) == {};
    case Close(c) => CloseRefs(s.b.net, s.b.req, s.b.leaked, c);
    case Submit(p, c, flags, now, locked, wake) => SubmitRefs(cfg, s, p, c, flags, now, locked, wake);
    case Handle(w, v, named, wake) => HandleRefs(cfg, s, w, s.t.hand[w][0], v, named, wake);
    case ServeEnd(disconnect) => AnswerRefs(s, disconnect);
    case _ =>
  }
}
