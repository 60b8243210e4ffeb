/**
  The per-connection send buffer of csf/tcp.c: tcp_send_back writes at once if nothing is
  buffered and buffers the rest; tcp_send_back_handler flushes when the socket is writable.
*/
module TcpSend {

  type byte = bv8

  /** SEND_BUF_LEN */
  const SEND_BUF_LEN: nat := 1024

  /** What write may answer. */
  datatype Outcome = Wrote(n: nat) | Interrupted | WouldBlock | HardError

  /** What became of a message: accepted, or answered -1 with a part of it already written.  A
      hard error while flushing drops what was buffered. */
  datatype Event = Accepted(msg: seq<byte>) | Rejected(part: seq<byte>) | Dropped(lost: seq<byte>)

  /** What an event does to the bytes the peer is due. */
  function After(s: seq<byte>, e: Event): seq<byte> {
    match e
    case Accepted(msg) => s + msg
    case Rejected(part) => s + part
    case Dropped(lost) => if |lost| <= |s| then s[..|s| - |lost|] else s
  }

  /** The bytes the peer is due, in order. */
  function Stream(log: seq<Event>): seq<byte> {
    if log == [] then [] else After(Stream(log[..|log| - 1]), log[|log| - 1])
  }

  function Bytes(e: Event): seq<byte> {
    match e
    case Accepted(msg) => msg
    case Rejected(part) => part
    case Dropped(_) => []
  }

  /** The messages accepted and the written parts of the others, one after the other. */
  function Messages(log: seq<Event>): seq<byte> {
    if log == [] then [] else Messages(log[..|log| - 1]) + Bytes(log[|log| - 1])
  }

  /** Without a hard error, nothing is missing from the stream. */
  lemma {:induction false} NothingDropped(log: seq<Event>)
    requires forall e :: e in log ==> !e.Dropped?
    ensures Stream(log) == Messages(log)
  {
    if log != [] {
      NothingDropped(log[..|log| - 1]);
    }
  }

  lemma StreamStep(log: seq<Event>, e: Event)
    ensures Stream(log + [e]) == After(Stream(log), e)
  {
    assert (log + [e])[..|log|] == log;
  }

  function Min(a: nat, b: nat): nat {
    if a < b then a else b
  }

  /** How much of a message goes out at once. */
  function AtOnce(stored: nat, msg: seq<byte>, outcome: Outcome): (n: nat)
    ensures n <= |msg|
  {
    if stored == 0 && outcome.Wrote? then Min(outcome.n, |msg|) else 0
  }

  /** How many bytes the socket is ready to take before it would block or fails. */
  function Room(schedule: seq<Outcome>): nat {
    if schedule == [] || schedule[0] == WouldBlock || schedule[0] == HardError then 0
    else (if schedule[0].Wrote? then schedule[0].n else 0) + Room(schedule[1..])
  }

  /** It fails before it would block. */
  predicate Fails(schedule: seq<Outcome>) {
    schedule != [] && (schedule[0] == HardError || (schedule[0] != WouldBlock && Fails(schedule[1..])))
  }

  /** Exactly when tcp_send_back accepts a message. */
  predicate Accepts(tcp: bool, stored: nat, msg: seq<byte>, outcome: Outcome, eventAdded: bool) {
    && tcp && !(stored == 0 && outcome.HardError?)
    && (|| (stored == 0 && outcome.Wrote? && AtOnce(stored, msg, outcome) == |msg|)
        || (|msg| - AtOnce(stored, msg, outcome) <= SEND_BUF_LEN - stored && (stored == 0 ==> eventAdded)))
  }

  lemma Regroup(wire: seq<byte>, pending: seq<byte>, s: seq<byte>, msg: seq<byte>, n: nat)
    requires n <= |msg| && wire + pending == s + msg[..n]
    ensures wire + (pending + msg[n..]) == s + msg
  {
    assert wire + (pending + msg[n..]) == (wire + pending) + msg[n..];
    assert (s + msg[..n]) + msg[n..] == s + (msg[..n] + msg[n..]);
    assert msg[..n] + msg[n..] == msg;
  }

  class Connection {
    const tcp: bool
    const buf: array<byte>
    var sent: nat
    var stored: nat
    ghost var wire: seq<byte>
    ghost var log: seq<Event>

    /** What is on the wire and what waits in the buffer are the stream. */
    ghost predicate Valid()
      reads this, buf
    {
      && buf.Length == SEND_BUF_LEN && sent <= stored <= SEND_BUF_LEN
      && wire + buf[sent..stored] == Stream(log)
    }

    constructor (tcp: bool)
      ensures Valid() && fresh(buf) && this.tcp == tcp && log == [] && wire == [] && stored == 0
    {
      this.tcp := tcp;
      buf := new byte[SEND_BUF_LEN];
      sent, stored, wire, log := 0, 0, [], [];
    }

    /** memcpy to the end of the buffer. */
    method CopyIn(data: seq<byte>)
      requires buf.Length == SEND_BUF_LEN && sent <= stored && |data| <= SEND_BUF_LEN - stored
      modifies this`stored, buf
      ensures stored == old(stored) + |data| && buf[sent..stored] == old(buf[sent..stored]) + data
    {
      var i := 0;
      while i < |data|
        invariant i <= |data| && stored == old(stored)
        invariant forall j :: 0 <= j < stored ==> buf[j] == old(buf[j])
        invariant forall j :: 0 <= j < i ==> buf[stored + j] == data[j]
      {
        buf[stored + i] := data[i];
        i := i + 1;
      }
      stored := stored + |data|;
    }

    /** The write made at once when nothing is buffered: how much of the message went out. */
    method WriteNow(msg: seq<byte>, outcome: Outcome) returns (n: nat)
      requires stored == 0
      modifies this`wire
      ensures n == AtOnce(stored, msg, outcome) && wire == old(wire) + msg[..n]
    {
      n := if outcome.Wrote? then Min(outcome.n, |msg|) else 0;
      wire := wire + msg[..n];
    }

    /** The answer is -1; `part` of the message is out already. */
    method Reject(ghost part: seq<byte>) returns (rc: int)
      requires buf.Length == SEND_BUF_LEN && sent <= stored <= SEND_BUF_LEN
      requires wire + buf[sent..stored] == Stream(log) + part
      modifies this`log
      ensures Valid() && log == old(log) + [Rejected(part)] && rc == -1
    {
      StreamStep(log, Rejected(part));
      log := log + [Rejected(part)];
      return -1;
    }

    method Accept(ghost msg: seq<byte>) returns (rc: int)
      requires buf.Length == SEND_BUF_LEN && sent <= stored <= SEND_BUF_LEN
      requires wire + buf[sent..stored] == Stream(log) + msg
      modifies this`log
      ensures Valid() && log == old(log) + [Accepted(msg)] && rc == 0
    {
      StreamStep(log, Accepted(msg));
      log := log + [Accepted(msg)];
      return 0;
    }

    /** The rest of a message goes into the buffer, if there is room and the event can be set. */
    method Store(msg: seq<byte>, n: nat, eventAdded: bool) returns (rc: int)
      requires buf.Length == SEND_BUF_LEN && sent <= stored <= SEND_BUF_LEN && n <= |msg|
      requires wire + buf[sent..stored] == Stream(log) + msg[..n]
      modifies this, buf
      ensures Valid() && sent == old(sent) && wire == old(wire)
      ensures rc == 0 <==> |msg| - n <= SEND_BUF_LEN - old(stored) && (old(stored) == 0 ==> eventAdded)
      ensures rc == 0 ==> log == old(log) + [Accepted(msg)] && stored == old(stored) + |msg| - n
      ensures rc != 0 ==> rc == -1 && log == old(log) + [Rejected(msg[..n])] && stored == old(stored)
    {
      if SEND_BUF_LEN - stored < |msg| - n || (stored == 0 && !eventAdded) {
        rc := Reject(msg[..n]);
      } else {
        CopyIn(msg[n..]);
        Regroup(wire, old(buf[sent..stored]), Stream(log), msg, n);
        rc := Accept(msg);
      }
    }

    /** tcp_send_back */
    method SendBack(msg: seq<byte>, outcome: Outcome, eventAdded: bool) returns (rc: int)
      requires Valid()
      modifies this, buf
      ensures Valid() && sent == old(sent)
      ensures rc == 0 <==> Accepts(tcp, old(stored), msg, outcome, eventAdded)
      ensures rc == 0 ==> log == old(log) + [Accepted(msg)]
      ensures rc != 0 ==> rc == -1 && log == old(log) + [Rejected(if tcp then msg[..AtOnce(old(stored), msg, outcome)] else [])]
      ensures wire == old(wire) + if tcp && old(stored) == 0 && outcome.Wrote? then msg[..Min(outcome.n, |msg|)] else []
      ensures stored == old(stored) + if rc == 0 then |msg| - AtOnce(old(stored), msg, outcome) else 0
    {
      if !tcp || (stored == 0 && outcome.HardError?) {
        rc := Reject([]);
        return;
      }
      var n := 0;
      if stored == 0 {
        n := WriteNow(msg, outcome);
        if outcome.Wrote? && n == |msg| {
          rc := Accept(msg);
          return;
        }
      }
      rc := Store(msg, n, eventAdded);
    }

    /** The buffer is empty again. */
    method Reset()
      requires buf.Length == SEND_BUF_LEN
      modifies this`sent, this`stored, buf
      ensures sent == stored == 0
    {
      buf[0] := 0;
      sent := 0;
      stored := 0;
    }

    /** One successful write of the handler. */
    method WriteSome(n: nat)
      requires Valid() && sent < stored
      modifies this`wire, this`sent
      ensures Valid() && sent == old(sent) + Min(n, stored - old(sent)) && wire == old(wire) + buf[old(sent)..sent]
    {
      var m := Min(n, stored - sent);
      assert buf[sent..stored] == buf[sent..sent + m] + buf[sent + m..stored];
      wire := wire + buf[sent..sent + m];
      sent := sent + m;
    }

    /** A hard error: what is still buffered is lost. */
    method Drop() returns (ghost lost: seq<byte>)
      requires Valid() && sent < stored
      modifies this`log, this`sent, this`stored, buf
      ensures Valid() && sent == stored == 0 && lost == old(buf[sent..stored]) && log == old(log) + [Dropped(lost)]
    {
      lost := buf[sent..stored];
      StreamStep(log, Dropped(lost));
      assert Stream(log)[..|wire|] == wire;
      log := log + [Dropped(lost)];
      Reset();
    }

    /** tcp_send_back_handler against a schedule of answers.  What the socket takes of the buffered bytes goes
        out, in order; `done` says that the loop came to its end, rather than that the socket would block or
        the schedule ran out, and then whatever a failure left over is lost. */
    method Flush(schedule: seq<Outcome>) returns (done: bool, ghost lost: seq<byte>)
      requires Valid()
      modifies this, buf
      ensures Valid()
      ensures var pending := old(buf[sent..stored]);
        var k := Min(|pending|, Room(schedule));
        && wire == old(wire) + pending[..k] && (done <==> k == |pending| || Fails(schedule))
        && (!done ==> sent == old(sent) + k && stored == old(stored) && unchanged(buf))
        && lost == if done then pending[k..] else []
      ensures done ==> sent == stored == 0
      ensures log == if lost == [] then old(log) else old(log) + [Dropped(lost)]
    {
      ghost var pending, k := buf[sent..stored], Min(stored - sent, Room(schedule));
      var blocked := WriteOut(schedule);
      assert buf[old(sent)..sent] == pending[..k] && buf[sent..stored] == pending[k..];
      lost := [];
      done := !blocked;
      if done {
        lost := Clear();
      }
    }

    /** The end of the handler: what is still buffered, after a hard error, is lost. */
    method Clear() returns (ghost lost: seq<byte>)
      requires Valid()
      modifies this`log, this`sent, this`stored, buf
      ensures Valid() && sent == stored == 0 && lost == old(buf[sent..stored])
      ensures log == if lost == [] then old(log) else old(log) + [Dropped(lost)]
    {
      lost := [];
      if sent < stored {
        lost := Drop();
      } else {
        Reset();
      }
    }

    /** The writing loop; `blocked` says that it ended at a socket that would block. */
    method WriteOut(schedule: seq<Outcome>) returns (blocked: bool)
      requires Valid()
      modifies this`wire, this`sent
      ensures Valid() && sent == old(sent) + Min(stored - old(sent), Room(schedule)) && wire == old(wire) + buf[old(sent)..sent]
      ensures blocked <==> sent < stored && !Fails(schedule)
    {
      var t := 0;
      assert schedule[0..] == schedule;
      while sent < stored
        invariant Valid() && old(sent) <= sent && t <= |schedule| && wire == old(wire) + buf[old(sent)..sent]
        invariant sent < stored ==> sent - old(sent) + Room(schedule[t..]) == Room(schedule) && Fails(schedule[t..]) == Fails(schedule)
        invariant sent == stored ==> stored - old(sent) <= Room(schedule)
        decreases |schedule| - t
      {
        if t == |schedule| || schedule[t] == WouldBlock {
          return true;
        } else if schedule[t] == HardError {
          break;
        } else if schedule[t].Wrote? {
          WriteSome(schedule[t].n);
        }
        assert schedule[t..][1..] == schedule[t + 1..];
        t := t + 1;
      }
      blocked := false;
    }

    /** As long as no flush met a hard error, the wire and the buffer hold exactly the accepted
        messages in order, with the written parts of the rejected ones. */
    lemma NothingLost()
      requires Valid() && forall e :: e in log ==> !e.Dropped?
      ensures wire + buf[sent..stored] == Messages(log)
    {
      NothingDropped(log);
    }
  }
}
