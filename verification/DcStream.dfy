/**
 A stream over a message channel: whole messages are read into one buffer that is used again
 and again, and what a read does not take stays in that buffer as a range of it.
 */
module DcStream {
  import opened Bytes

  const BUFFER: nat := 65536

  /** The unread part of the last message, and the messages still to come. */
  datatype State = State(pending: bytes, inbox: seq<bytes>)

  /** A read of at most `size` bytes; it fails when no message is there or the next one is larger than the buffer. */
  function Read(s: State, size: nat): (r: (State, Option<bytes>)) {
    if s.pending != [] then
      var n := if size < |s.pending| then size else |s.pending|;
      (s.(pending := s.pending[n..]), Some(s.pending[..n]))
    else if s.inbox == [] || |s.inbox[0]| > BUFFER then (s, None)
    else
      var message := s.inbox[0];
      var n := if size < |message| then size else |message|;
      (State(message[n..], s.inbox[1..]), Some(message[..n]))
  }

  function Remaining(s: State): bytes {
    s.pending + Concat(s.inbox)
  }

  lemma ReadTakes(s: State, size: nat)
    ensures var (t, out) := Read(s, size);
            if out.Some? then |out.value| <= size && Remaining(s) == out.value + Remaining(t) else t == s
  {
    var (t, out) := Read(s, size);
    if s.pending != [] {
      assert s.pending == out.value + t.pending;
      assert out.value + t.pending + Concat(s.inbox) == out.value + (t.pending + Concat(s.inbox));
    } else if out.Some? {
      assert s.inbox[0] == out.value + t.pending;
      assert Concat(s.inbox) == s.inbox[0] + Concat(s.inbox[1..]);
      assert [] + Concat(s.inbox) == Concat(s.inbox);
      assert out.value + t.pending + Concat(t.inbox) == out.value + (t.pending + Concat(t.inbox));
    }
  }

  /** The bytes returned by reads of the given sizes, up to the first that fails. */
  function ReadAll(s: State, sizes: seq<nat>): bytes
    decreases |sizes|
  {
    if sizes == [] then []
    else
      var (t, out) := Read(s, sizes[0]);
      if out.None? then [] else out.value + ReadAll(t, sizes[1..])
  }

  predicate Fails(s: State, sizes: seq<nat>)
    decreases |sizes|
  {
    sizes != [] && (Read(s, sizes[0]).1.None? || Fails(Read(s, sizes[0]).0, sizes[1..]))
  }

  predicate AllFit(inbox: seq<bytes>) {
    forall i :: 0 <= i < |inbox| ==> |inbox[i]| <= BUFFER
  }

  /**
   Reads of any sizes give the messages' bytes in order; and once a read fails they have given
   all of them exactly when every message fits the buffer.
   */
  lemma {:induction false} StreamOfMessages(s: State, sizes: seq<nat>)
    ensures ReadAll(s, sizes) <= Remaining(s)
    ensures Fails(s, sizes) ==> (ReadAll(s, sizes) == Remaining(s) <==> AllFit(s.inbox))
    decreases |sizes|
  {
    if sizes != [] {
      hide Remaining, AllFit;
      var (t, out) := Read(s, sizes[0]);
      ReadTakes(s, sizes[0]);
      StreamOfMessages(t, sizes[1..]);
      if out.None? {
        FailsAt(s, sizes[0]);
      } else {
        FitsOn(s, sizes[0]);
        SameHead(out.value, ReadAll(t, sizes[1..]), Remaining(t));
      }
    }
  }

  /** A read fails with nothing left exactly when no message is too large. */
  lemma FailsAt(s: State, size: nat)
    requires Read(s, size).1.None?
    ensures Remaining(s) == [] <==> AllFit(s.inbox)
  {
    if s.inbox != [] { assert Concat(s.inbox) == s.inbox[0] + Concat(s.inbox[1..]); }
  }

  /** A read that succeeds takes no message that is too large. */
  lemma FitsOn(s: State, size: nat)
    requires Read(s, size).1.Some?
    ensures AllFit(Read(s, size).0.inbox) <==> AllFit(s.inbox)
  {
    if s.pending == [] {
      var rest := s.inbox[1..];
      assert forall i :: 0 < i < |s.inbox| ==> s.inbox[i] == rest[i - 1];
    }
  }

  lemma SameHead(head: bytes, a: bytes, b: bytes)
    ensures head + a == head + b <==> a == b
  {
    assert (head + a)[|head|..] == a && (head + b)[|head|..] == b;
  }

  // ---------- the connection object ----------

  class Conn {
    const readBuf: array<byte>
    var start: nat
    var end: nat
    var inbox: seq<bytes>

    ghost predicate Valid()
      reads this, readBuf
    {
      readBuf.Length == BUFFER && start <= end <= BUFFER
    }

    ghost function Abs(): State
      requires Valid()
      reads this, readBuf
    {
      State(readBuf[start..end], inbox)
    }

    constructor (inbox: seq<bytes>)
      ensures Valid() && fresh(readBuf) && Abs() == State([], inbox)
    {
      readBuf := new byte[BUFFER];
      start, end := 0, 0;
      this.inbox := inbox;
    }

    /** The next whole message into the buffer, over whatever it held. */
    method Receive() returns (n: int)
      requires Valid()
      modifies this`inbox, readBuf
      ensures n < 0 <==> old(inbox) == [] || |old(inbox)[0]| > BUFFER
      ensures n >= 0 ==> n == |old(inbox)[0]| && readBuf[..n] == old(inbox)[0] && inbox == old(inbox)[1..]
      ensures n < 0 ==> readBuf[..] == old(readBuf[..]) && inbox == old(inbox)
    {
      if inbox == [] || |inbox[0]| > BUFFER {
        return -1;
      }
      Append(readBuf, 0, inbox[0]);
      n := |inbox[0]|;
      inbox := inbox[1..];
    }

    /** As much of a range of the buffer as fits, copied out; the rest of the range. */
    method CopyOut(p: array<byte>, from: nat, to: nat) returns (n: nat)
      requires Valid() && p != readBuf && from <= to <= BUFFER
      modifies p
      ensures n == if p.Length < to - from then p.Length else to - from
      ensures p[..n] == readBuf[from..to][..n] && readBuf[from + n..to] == readBuf[from..to][n..]
    {
      n := if p.Length < to - from then p.Length else to - from;
      Append(p, 0, readBuf[from..from + n]);
    }

    method ReadBytes(p: array<byte>) returns (n: int)
      requires Valid() && p != readBuf
      modifies this, readBuf, p
      ensures Valid()
      ensures var (t, out) := Read(old(Abs()), p.Length);
              Abs() == t && (n < 0 <==> out.None?) && (n >= 0 ==> n <= p.Length && p[..n] == out.value)
    {
      if end - start > 0 {
        n := CopyOut(p, start, end);
        start := start + n;
        return;
      }
      assert readBuf[start..end] == [];
      var got := Receive();
      if got < 0 {
        return -1;
      }
      n := CopyOut(p, 0, got);
      if n < got {
        start, end := n, got;
      }
    }
  }
}
