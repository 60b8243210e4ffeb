/**
  How a finished request wakes the event thread: every interleaving of the workers
  inside to_done_stage with the event thread inside done_requests_handler, one step
  per shared read or write.  The flag done_signalled is read and written without a
  lock, and the event thread only tries the lock of the done queue.
*/
module Wakeup {

  /** What the environment and the build decide. */
  datatype Config = Config(
    timeouts: bool,        // the one-second timer of the pipe event may fire
    notices: bool,         // submits may kick out requests and give notice
    noticeFdIsPipe: bool)  // the descriptor a notice is written to is the pipe

  /** A worker inside to_done_stage. */
  datatype Worker = Away | Locked | Inserted | Unlocked | SawClear | Flagged

  /** The event thread; `timeout` tells which event the callback was called for. */
  datatype Event =
    | Idle
    | Entered(timeout: bool)
    | Reading(timeout: bool)
    | Clearing(timeout: bool)
    | Checking(timeout: bool)
    | Trying
    | Merging
    | Answering
    | NoticeFlagged(inside: bool)   // a submit gives notice, inside the callback or between two

  datatype Lock = Free | ByWorker(w: nat) | ByEvent

  datatype State = State(
    done: seq<nat>,       // requests in the done queue
    drained: seq<nat>,    // requests the event thread has taken from it
    signalled: bool,      // done_signalled
    pipe: nat,            // bytes in the pipe
    lock: Lock,
    workers: seq<Worker>,
    event: Event)

  datatype Label =
    | Acquire(w: nat)
    | Insert(w: nat, request: nat)
    | Release(w: nat)
    | TestFlag(w: nat)
    | SetFlag(w: nat)
    | Write(w: nat, full: bool)   // a full pipe refuses the byte
    | Callback(timeout: bool)
    | EnterTest
    | ReadPipe
    | ClearFlag
    | CheckQueue
    | TryLock
    | Merge
    | Finish
    | Notice
    | NoticeWrite

  function Init(n: nat): State {
    State([], [], false, 0, Free, seq(n, _ => Away), Idle)
  }

  predicate Enabled(cfg: Config, s: State, l: Label) {
    match l
    case Acquire(w) => w < |s.workers| && s.workers[w] == Away && s.lock == Free
    case Insert(w, _) => w < |s.workers| && s.workers[w] == Locked
    case Release(w) => w < |s.workers| && s.workers[w] == Inserted
    case TestFlag(w) => w < |s.workers| && s.workers[w] == Unlocked
    case SetFlag(w) => w < |s.workers| && s.workers[w] == SawClear
    case Write(w, full) => w < |s.workers| && s.workers[w] == Flagged && (full ==> s.pipe > 0)
    case Callback(timeout) => s.event == Idle && (if timeout then cfg.timeouts else s.pipe > 0)
    case EnterTest => s.event.Entered?
    case ReadPipe => s.event.Reading?
    case ClearFlag => s.event.Clearing?
    case CheckQueue => s.event.Checking?
    case TryLock => s.event == Trying
    case Merge => s.event == Merging
    case Finish => s.event == Answering
    case Notice => (s.event == Idle || s.event == Answering) && cfg.notices
    case NoticeWrite => s.event.NoticeFlagged?
  }

  function Move(s: State, w: nat, to: Worker): State
    requires w < |s.workers|
  {
    s.(workers := s.workers[w := to])
  }

  function Apply(cfg: Config, s: State, l: Label): State
    requires Enabled(cfg, s, l)
  {
    match l
    case Acquire(w) => Move(s, w, Locked).(lock := ByWorker(w))
    case Insert(w, r) => Move(s, w, Inserted).(done := s.done + [r])
    case Release(w) => Move(s, w, Unlocked).(lock := Free)
    case TestFlag(w) => Move(s, w, if s.signalled then Away else SawClear)
    case SetFlag(w) => Move(s, w, Flagged).(signalled := true)
    case Write(w, full) => Move(s, w, Away).(pipe := if full then s.pipe else s.pipe + 1)
    case Callback(timeout) => s.(event := Entered(timeout))
    case EnterTest =>
      s.(event := if s.signalled then Reading(s.event.timeout) else Checking(s.event.timeout))
    case ReadPipe =>
      s.(event := Clearing(s.event.timeout), pipe := if s.pipe > 16 then s.pipe - 16 else 0)
    case ClearFlag => s.(event := Checking(s.event.timeout), signalled := false)
    case CheckQueue => s.(event := if s.done != [] && !s.event.timeout then Trying else Answering)
    case TryLock => if s.lock == Free then s.(event := Merging, lock := ByEvent) else s.(event := Answering)
    case Merge => s.(event := Answering, lock := Free, done := [], drained := s.drained + s.done)
    case Finish => s.(event := Idle)
    case Notice => if s.signalled then s else s.(event := NoticeFlagged(s.event == Answering), signalled := true)
    case NoticeWrite => s.(event := if s.event.inside then Answering else Idle, pipe := if cfg.noticeFdIsPipe then s.pipe + 1 else s.pipe)
  }

  /** The state after a run, if every step of it was enabled. */
  ghost predicate RunsTo(cfg: Config, n: nat, run: seq<Label>, s: State)
    decreases |run|
  {
    if run == [] then s == Init(n)
    else
      var k := |run| - 1;
      exists p :: RunsTo(cfg, n, run[..k], p) && Enabled(cfg, p, run[k]) && s == Apply(cfg, p, run[k])
  }

  /** A worker that has taken the lock and not yet finished with the flag and the pipe. */
  predicate Busy(w: Worker) {
    w != Away
  }

  /** Something will still wake the event thread. */
  ghost predicate WakeupPending(s: State) {
    s.pipe > 0 || exists w :: 0 <= w < |s.workers| && Busy(s.workers[w])
  }

  ghost predicate NoLostWakeup(s: State) {
    s.event == Idle && s.done != [] ==> WakeupPending(s)
  }

  predicate Safe(cfg: Config) {
    !cfg.timeouts && (cfg.notices ==> cfg.noticeFdIsPipe)
  }

  // ------------------------------------------------------------------ invariant

  ghost predicate LockOwned(s: State) {
    && (forall w :: 0 <= w < |s.workers| ==>
      (s.lock == ByWorker(w) <==> s.workers[w] == Locked || s.workers[w] == Inserted))
    && (s.lock.ByWorker? ==> s.lock.w < |s.workers|)
    && (s.lock == ByEvent <==> s.event == Merging)
  }

  /** A raised flag is backed by a byte, or by someone about to write one or to clear it. */
  ghost predicate FlagBacked(s: State) {
    s.signalled ==>
      || s.pipe > 0
      || (exists w :: 0 <= w < |s.workers| && s.workers[w] == Flagged)
      || s.event.Clearing? || s.event.NoticeFlagged?
  }

  /** The event thread is past its last look at the done queue, or not yet at its first. */
  predicate NotLooking(e: Event) {
    e == Idle || e.Entered? || e.Reading? || e == Answering || e.NoticeFlagged?
  }

  ghost predicate QueueWatched(s: State) {
    NotLooking(s.event) && s.done != [] ==> WakeupPending(s) || s.event.NoticeFlagged?
  }

  predicate ByRead(e: Event) {
    match e
    case Entered(t) => !t
    case Reading(t) => !t
    case Clearing(t) => !t
    case Checking(t) => !t
    case _ => true
  }

  ghost predicate Inv(cfg: Config, s: State) {
    && LockOwned(s) && FlagBacked(s) && QueueWatched(s) && ByRead(s.event)
    && (s.event.NoticeFlagged? ==> cfg.notices)
  }

  lemma WorkerStep(cfg: Config, s: State, l: Label)
    requires Inv(cfg, s) && Enabled(cfg, s, l)
    requires l.Acquire? || l.Insert? || l.Release? || l.TestFlag? || l.SetFlag? || l.Write?
    ensures Inv(cfg, Apply(cfg, s, l))
  {
    var s' := Apply(cfg, s, l);
    assert forall v :: 0 <= v < |s.workers| && v != l.w ==> s'.workers[v] == s.workers[v];
    if l.TestFlag? && s.signalled {
      if s.pipe == 0 && !s.event.Clearing? && !s.event.NoticeFlagged? {
        var v :| 0 <= v < |s.workers| && s.workers[v] == Flagged;
        assert s'.workers[v] == Flagged && Busy(s'.workers[v]);
      }
    } else if !l.Write? {
      assert Busy(s'.workers[l.w]);
    }
    if !l.Write? {
      assert l.SetFlag? ==> s'.workers[l.w] == Flagged;
    }
  }

  lemma EventStep(cfg: Config, s: State, l: Label)
    requires Safe(cfg) && Inv(cfg, s) && Enabled(cfg, s, l)
    requires !(l.Acquire? || l.Insert? || l.Release? || l.TestFlag? || l.SetFlag? || l.Write?)
    ensures Inv(cfg, Apply(cfg, s, l))
  {
    if l.TryLock? && s.lock != Free {
      assert Busy(s.workers[s.lock.w]);
    }
  }

  lemma {:induction false} InvHolds(cfg: Config, n: nat, run: seq<Label>, s: State)
    requires Safe(cfg) && RunsTo(cfg, n, run, s)
    ensures Inv(cfg, s)
    decreases |run|
  {
    if run != [] {
      var k := |run| - 1;
      var p :| RunsTo(cfg, n, run[..k], p) && Enabled(cfg, p, run[k]) && s == Apply(cfg, p, run[k]);
      InvHolds(cfg, n, run[..k], p);
      var l := run[k];
      if l.Acquire? || l.Insert? || l.Release? || l.TestFlag? || l.SetFlag? || l.Write? {
        WorkerStep(cfg, p, l);
      } else {
        EventStep(cfg, p, l);
      }
    }
  }

  // ---------------------------------------------------------- how it gets lost

  lemma StepOn(cfg: Config, n: nat, run: seq<Label>, s: State, l: Label)
    requires RunsTo(cfg, n, run, s) && Enabled(cfg, s, l)
    ensures RunsTo(cfg, n, run + [l], Apply(cfg, s, l))
  {
    assert (run + [l])[..|run|] == run;
  }

  /** Worker 0, alone, puts a request in the done queue. */
  lemma OneInserts(cfg: Config, n: nat, run: seq<Label>, s: State, r: nat) returns (run': seq<Label>, s': State)
    requires RunsTo(cfg, n, run, s) && |s.workers| > 0 && s.workers[0] == Away && s.lock == Free
    ensures RunsTo(cfg, n, run', s')
    ensures s' == s.(done := s.done + [r], workers := s.workers[0 := Unlocked])
  {
    StepOn(cfg, n, run, s, Acquire(0));
    run', s' := run + [Acquire(0)], Apply(cfg, s, Acquire(0));
    StepOn(cfg, n, run', s', Insert(0, r));
    run', s' := run' + [Insert(0, r)], Apply(cfg, s', Insert(0, r));
    StepOn(cfg, n, run', s', Release(0));
    run', s' := run' + [Release(0)], Apply(cfg, s', Release(0));
  }

  /** It then raises the flag and writes a byte, unless the flag is up already. */
  lemma OneSignals(cfg: Config, n: nat, run: seq<Label>, s: State) returns (run': seq<Label>, s': State)
    requires RunsTo(cfg, n, run, s) && |s.workers| > 0 && s.workers[0] == Unlocked
    ensures RunsTo(cfg, n, run', s')
    ensures s' == s.(workers := s.workers[0 := Away], signalled := true,
                     pipe := if s.signalled then s.pipe else s.pipe + 1)
  {
    StepOn(cfg, n, run, s, TestFlag(0));
    run', s' := run + [TestFlag(0)], Apply(cfg, s, TestFlag(0));
    if !s.signalled {
      StepOn(cfg, n, run', s', SetFlag(0));
      run', s' := run' + [SetFlag(0)], Apply(cfg, s', SetFlag(0));
      StepOn(cfg, n, run', s', Write(0, false));
      run', s' := run' + [Write(0, false)], Apply(cfg, s', Write(0, false));
    }
  }

  /** The timer's callback takes the byte and clears the flag, but leaves the queue alone. */
  lemma TimeoutLoses(cfg: Config) returns (run: seq<Label>, s: State)
    requires cfg.timeouts
    ensures RunsTo(cfg, 1, run, s) && !NoLostWakeup(s)
  {
    run, s := OneInserts(cfg, 1, [], Init(1), 7);
    run, s := OneSignals(cfg, 1, run, s);
    var labels := [Callback(true), EnterTest, ReadPipe, ClearFlag, CheckQueue, Finish];
    var i := 0;
    ghost var s0 := s;
    while i < 6
      invariant 0 <= i <= 6 && RunsTo(cfg, 1, run, s)
      invariant s == s0.(
        event := [Idle, Entered(true), Reading(true), Clearing(true), Checking(true), Answering, Idle][i],
        pipe := if i < 3 then 1 else 0, signalled := i < 4)
    {
      StepOn(cfg, 1, run, s, labels[i]);
      run, s := run + [labels[i]], Apply(cfg, s, labels[i]);
      i := i + 1;
    }
    assert forall w :: 0 <= w < |s.workers| ==> s.workers[w] == Away;
  }

  lemma NoticeRaises(cfg: Config) returns (run: seq<Label>, s: State)
    requires cfg.notices && !cfg.noticeFdIsPipe
    ensures RunsTo(cfg, 1, run, s) && s == Init(1).(signalled := true)
  {
    StepOn(cfg, 1, [], Init(1), Notice);
    run, s := [] + [Notice], Apply(cfg, Init(1), Notice);
    StepOn(cfg, 1, run, s, NoticeWrite);
    run, s := run + [NoticeWrite], Apply(cfg, s, NoticeWrite);
  }

  /** A notice on the wrong descriptor raises the flag for good: workers no longer write. */
  lemma NoticeLoses(cfg: Config) returns (run: seq<Label>, s: State)
    requires cfg.notices && !cfg.noticeFdIsPipe
    ensures RunsTo(cfg, 1, run, s) && !NoLostWakeup(s)
  {
    run, s := NoticeRaises(cfg);
    run, s := OneInserts(cfg, 1, run, s, 7);
    run, s := OneSignals(cfg, 1, run, s);
    assert forall w :: 0 <= w < |s.workers| ==> s.workers[w] == Away;
  }

  /** A step of done_requests_handler called for the pipe. */
  predicate OfCallback(l: Label) {
    || l == Callback(false) || l.EnterTest? || l.ReadPipe? || l.ClearFlag? || l.CheckQueue? || l.TryLock? || l.Merge? || l.Finish?
  }

  /** A byte in the pipe is enough: an undisturbed callback takes the whole done queue, in order. */
  lemma CallbackDrains(cfg: Config, n: nat, run: seq<Label>, s: State) returns (run': seq<Label>, s': State)
    requires RunsTo(cfg, n, run, s) && s.event == Idle && s.pipe > 0 && s.lock == Free
    ensures RunsTo(cfg, n, run', s') && run <= run' && forall i :: |run| <= i < |run'| ==> OfCallback(run'[i])
    ensures s'.event == Idle && s'.done == [] && s'.drained == s.drained + s.done
  {
    run', s' := run, s;
    ghost var went := false;
    while !(went && s'.event == Idle)
      invariant run <= run' && forall i :: |run| <= i < |run'| ==> OfCallback(run'[i])
      invariant RunsTo(cfg, n, run', s') && ByRead(s'.event) && (s'.lock == Free || s'.event == Merging)
      invariant !s'.event.NoticeFlagged? && (!went ==> s' == s)
      invariant s'.drained + s'.done == s.drained + s.done
      invariant went && (s'.event == Answering || s'.event == Idle) ==> s'.done == []
      decreases !went, Left(s'.event)
    {
      var l := match s'.event
        case Idle => Callback(false)
        case Entered(_) => EnterTest
        case Reading(_) => ReadPipe
        case Clearing(_) => ClearFlag
        case Checking(_) => CheckQueue
        case Trying => TryLock
        case Merging => Merge
        case _ => Finish;
      StepOn(cfg, n, run', s', l);
      run', s' := run' + [l], Apply(cfg, s', l);
      went := true;
    }
  }

  /** Steps left until the callback returns. */
  function Left(e: Event): nat {
    match e
    case Idle => 0
    case Entered(_) => 7
    case Reading(_) => 6
    case Clearing(_) => 5
    case Checking(_) => 4
    case Trying => 3
    case Merging => 2
    case Answering => 1
    case NoticeFlagged(_) => 1
  }

  /** No wakeup is ever lost, in any interleaving of any number of workers, exactly when the
      timer is off and notices, if any, go to the pipe. */
  lemma NoLostWakeupIffSafe(cfg: Config)
    ensures Safe(cfg) <==> forall n: nat, run, s :: RunsTo(cfg, n, run, s) ==> NoLostWakeup(s)
  {
    if Safe(cfg) {
      forall n: nat, run, s | RunsTo(cfg, n, run, s) ensures NoLostWakeup(s) {
        InvHolds(cfg, n, run, s);
      }
    } else if cfg.timeouts {
      var run, s := TimeoutLoses(cfg);
      assert RunsTo(cfg, 1, run, s) && !NoLostWakeup(s);
    } else {
      var run, s := NoticeLoses(cfg);
      assert RunsTo(cfg, 1, run, s) && !NoLostWakeup(s);
    }
  }
}
