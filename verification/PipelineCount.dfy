/**
  The global counter: it is the number of live requests, less those ever kicked or
  swept out, less the one that is just being answered, modulo 2^64.
*/
module PipelineCount {
  import opened PipelineState

  ghost predicate Counted(s: State) {
    && s.e.counter == U64(|s.b.req| - s.e.kicked - (if s.e.serving then 1 else 0))
    && (s.e.serving ==> s.e.final != [])
  }

  lemma KickOutCounted(s: State, st: nat)
    requires Counted(s) && st < |s.q.queue| == |s.q.queueLen| && s.q.queue[st] != []
    ensures Counted(KickOut(s, st))
  {
    WrapSum(|s.b.req| - s.e.kicked - (if s.e.serving then 1 else 0), -1, TWO64);
  }

  lemma SweepCounted(s: State, st: nat, now: int, timeout: nat)
    requires Counted(s) && st < |s.q.queue| == |s.q.queueLen|
    ensures Counted(Sweep(s, st, now, timeout))
  {
    var out := Swept(s.q.queue[st], s.b.req, now, timeout);
    WrapSum(|s.b.req| - s.e.kicked - (if s.e.serving then 1 else 0), -|out|, TWO64);
  }

  lemma MakeRoomCounted(cfg: Config, s: State, st: nat, flags: Flags, now: int)
    requires Counted(s) && st < |s.q.queue| == |s.q.queueLen|
    ensures Counted(MakeRoom(cfg, s, st, flags, now))
  {
    if flags.force && flags.kickOut && s.q.queueLen[st] >= cfg.queueSize && s.q.queue[st] != [] {
      KickOutCounted(s, st);
      SweepCounted(KickOut(s, st), st, now, cfg.timeout);
    } else {
      SweepCounted(s, st, now, cfg.timeout);
    }
  }

  lemma SendCounted(cfg: Config, s: State, p: nat, r: Rid, flags: Flags, now: int, wake: set<nat>)
    requires Fits(cfg, s) && Counted(s) && p < |cfg.first|
    ensures Counted(SendLocked(cfg, s, p, r, flags, now, wake))
  {
    MakeRoomCounted(cfg, Relieved(cfg, s, p), cfg.first[p], flags, now);
  }

  lemma RegisterCounted(s: State, p: nat, c: nat, now: int)
    requires Counted(s) && c in s.b.net.live && s.b.inc + 1 !in s.b.req
    ensures Counted(Register(s, p, c, now))
  {
    WrapSum(|s.b.req| - s.e.kicked - (if s.e.serving then 1 else 0), 1, TWO64);
    assert |s.b.req[s.b.inc + 1 := Request(c, p, now, 0, 0)]| == |s.b.req| + 1;
  }

  lemma SubmitCounted(cfg: Config, s: State, p: nat, c: nat, flags: Flags, now: int, locked: bool, wake: set<nat>)
    requires Fits(cfg, s) && Counted(s) && c in s.b.net.live && s.b.inc + 1 !in s.b.req
    ensures Counted(Submitted(cfg, s, p, c, flags, now, locked, wake))
  {
    if !Refused(cfg, s, p, flags) {
      RegisterCounted(s, p, c, now);
      if locked && !StageFull(cfg, s, p, flags) {
        SendCounted(cfg, Register(s, p, c, now), p, s.b.inc + 1, flags, now, wake);
      }
    }
  }

  lemma BeginCounted(s: State)
    requires Counted(s) && !s.e.serving && s.e.final != []
    ensures Counted(Begun(s))
  {
    WrapSum(|s.b.req| - s.e.kicked, -1, TWO64);
  }

  lemma EndCounted(s: State, disconnect: bool)
    requires Counted(s) && s.e.serving && s.e.final != [] && s.e.final[0] in s.b.req
    ensures Counted(Ended(s, disconnect))
  {
    assert |s.b.req - {s.e.final[0]}| == |s.b.req| - 1;
  }

  lemma HandleCounted(cfg: Config, s: State, w: nat, r: Rid, v: Verdict, named: Option<nat>, wake: set<nat>)
    requires Fits(cfg, s) && Counted(s) && w < |cfg.home| && r in s.b.req
    ensures Counted(Handled(cfg, s, w, r, v, named, wake))
  {
    var s1 := TurnTaken(Named(s, w, named), r);
    var s' := SubmitNext(cfg, s1, w, r, v, wake);
    assert HandleFrame(s1, s') && s1.b.req.Keys == s.b.req.Keys;
    assert |s'.b.req.Keys| == |s'.b.req| && |s.b.req.Keys| == |s.b.req|;
  }

  lemma StepCounted(cfg: Config, s: State, l: Label)
    requires Counted(s) && Enabled(cfg, s, l) && s.b.inc + 1 !in s.b.req
    ensures Counted(Apply(cfg, s, l))
  {
    match l
    case Submit(p, c, flags, now, locked, wake) => SubmitCounted(cfg, s, p, c, flags, now, locked, wake);
    case Handle(w, v, named, wake) => HandleCounted(cfg, s, w, s.t.hand[w][0], v, named, wake);
    case ServeBegin => BeginCounted(s);
    case ServeEnd(disconnect) => EndCounted(s, disconnect);
    case _ =>
  }
}
