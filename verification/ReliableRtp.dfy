/**
 Reliable, ordered delivery over RTP: 16-bit sequence numbers, acknowledgements,
 retransmission with a retry limit, and reads that may take part of a packet. Two endpoints
 exchange frames over a network that may lose, repeat and reorder them.
 */
module ReliableRtp {
  import opened Bytes

  const FLAG_DATA: byte := 0
  const FLAG_ACK: byte := 1
  const FLAG_RETRANSMIT: byte := 2
  const HEADER: nat := 3
  const MAX_RETRIES: nat := 10
  const RTO_INIT: nat := 100
  const WINDOW: nat := 256

  datatype Unacked = Unacked(frame: bytes, sentAt: nat, retries: nat)

  datatype State = State(
    writeSeq: nat,
    unacked: map<nat, Unacked>,
    readSeq: nat,
    readBuf: map<nat, bytes>,
    readPending: bytes)

  const FRESH := State(0, map[], 0, map[], [])

  function Frame(n: nat, flag: byte, payload: bytes): (r: bytes)
    ensures |r| == HEADER + |payload|
  {
    BE(n, 2) + [flag] + payload
  }

  function SeqOf(frame: bytes): nat
    requires |frame| >= HEADER
  {
    Val(frame[..2])
  }

  lemma FrameReads(n: nat, flag: byte, payload: bytes)
    requires n < U16
    ensures SeqOf(Frame(n, flag, payload)) == n
    ensures Frame(n, flag, payload)[2] == flag && Frame(n, flag, payload)[HEADER..] == payload
  {
    Widths();
    FieldReads(n, 2, [], [flag] + payload);
    assert Frame(n, flag, payload) == [] + BE(n, 2) + ([flag] + payload);
  }

  // ---------- the four operations ----------

  function Written(s: State, payload: bytes, now: nat): (r: (State, bytes)) {
    var frame := Frame(s.writeSeq, FLAG_DATA, payload);
    (s.(writeSeq := (s.writeSeq + 1) % U16, unacked := s.unacked[s.writeSeq := Unacked(frame, now, 0)]), frame)
  }

  /** What a read of at most `n` bytes returns; `None` when it has to wait. */
  function Read(s: State, n: nat): (r: (State, Option<bytes>)) {
    if s.readPending != [] then
      var k := if n < |s.readPending| then n else |s.readPending|;
      (s.(readPending := s.readPending[k..]), Some(s.readPending[..k]))
    else if s.readSeq in s.readBuf then
      var data := s.readBuf[s.readSeq];
      var k := if n < |data| then n else |data|;
      (s.(readBuf := s.readBuf - {s.readSeq}, readSeq := (s.readSeq + 1) % U16, readPending := data[k..]),
       Some(data[..k]))
    else (s, None)
  }

  /** A frame off the network, and the acknowledgement it calls for. */
  function Received(s: State, frame: bytes): (r: (State, Option<bytes>)) {
    if |frame| < HEADER then (s, None)
    else
      var n, flag := SeqOf(frame), frame[2];
      if flag == FLAG_DATA || flag == FLAG_RETRANSMIT then
        var kept := if |s.readBuf| < WINDOW then s.(readBuf := s.readBuf[n := frame[HEADER..]]) else s;
        (kept, Some(Frame(n, FLAG_ACK, [])))
      else if flag == FLAG_ACK then (s.(unacked := s.unacked - {n}), None)
      else (s, None)
  }

  function Shift(retries: nat): nat {
    if retries == 0 then 1 else 2 * Shift(retries - 1)
  }

  predicate Due(u: Unacked, now: nat) {
    now - u.sentAt > RTO_INIT * Shift(u.retries)
  }

  predicate Dropped(u: Unacked, now: nat) {
    Due(u, now) && u.retries >= MAX_RETRIES
  }

  predicate Resent(u: Unacked, now: nat) {
    Due(u, now) && u.retries < MAX_RETRIES
  }

  function AgainFrame(frame: bytes): bytes {
    if |frame| < HEADER then frame else frame[2 := FLAG_RETRANSMIT]
  }

  function TickOne(u: Unacked, now: nat): Unacked {
    if Resent(u, now) then u.(retries := u.retries + 1, sentAt := now) else u
  }

  /** One pass of the retransmission timer over the unacknowledged frames. */
  function Ticked(s: State, now: nat): (r: (State, set<bytes>)) {
    (s.(unacked := map k | k in s.unacked && !Dropped(s.unacked[k], now) :: TickOne(s.unacked[k], now)),
     set k | k in s.unacked && Resent(s.unacked[k], now) :: AgainFrame(s.unacked[k].frame))
  }

  // ---------- the endpoint object ----------

  class Endpoint {
    var writeSeq: nat
    var unacked: map<nat, Unacked>
    var readSeq: nat
    var readBuf: map<nat, bytes>
    var readPending: bytes

    ghost function Abs(): State
      reads this
    {
      State(writeSeq, unacked, readSeq, readBuf, readPending)
    }

    constructor ()
      ensures Abs() == FRESH
    {
      writeSeq, unacked, readSeq, readBuf, readPending := 0, map[], 0, map[], [];
    }

    method Write(p: bytes, now: nat) returns (frame: bytes)
      modifies this
      ensures (Abs(), frame) == Written(old(Abs()), p, now)
    {
      var n := writeSeq;
      writeSeq := (writeSeq + 1) % U16;
      frame := BE(n, 2) + [FLAG_DATA] + p;
      unacked := unacked[n := Unacked(frame, now, 0)];
    }

    method ReadSome(size: nat) returns (out: Option<bytes>)
      modifies this
      ensures (Abs(), out) == Read(old(Abs()), size)
    {
      if |readPending| > 0 {
        var n := if size < |readPending| then size else |readPending|;
        out := Some(readPending[..n]);
        readPending := readPending[n..];
        return;
      }
      if readSeq in readBuf {
        var data := readBuf[readSeq];
        readBuf := readBuf - {readSeq};
        readSeq := (readSeq + 1) % U16;
        var n := if size < |data| then size else |data|;
        if n < |data| {
          readPending := data[n..];
        }
        return Some(data[..n]);
      }
      return None;
    }

    method Receive(frame: bytes) returns (ack: Option<bytes>)
      modifies this
      ensures (Abs(), ack) == Received(old(Abs()), frame)
    {
      if |frame| < HEADER {
        return None;
      }
      var n := Val(frame[..2]);
      var flags := frame[2];
      if flags == FLAG_DATA || flags == FLAG_RETRANSMIT {
        var payload := frame[HEADER..];
        if |readBuf| < WINDOW {
          readBuf := readBuf[n := payload];
        }
        return Some(Frame(n, FLAG_ACK, []));
      } else if flags == FLAG_ACK {
        unacked := unacked - {n};
      }
      return None;
    }

    /** The timer pass visits the unacknowledged frames in any order. */
    method Tick(now: nat) returns (again: set<bytes>)
      modifies this`unacked
      ensures (Abs(), again) == Ticked(old(Abs()), now)
    {
      hide Shift, AgainFrame;
      again := {};
      ghost var before := unacked;
      var todo := unacked.Keys;
      while todo != {}
        invariant todo <= before.Keys
        invariant forall k :: k in todo ==> k in unacked && unacked[k] == before[k]
        invariant forall k :: k in unacked <==> k in before && (k in todo || !Dropped(before[k], now))
        invariant forall k :: k in unacked && k !in todo ==> unacked[k] == TickOne(before[k], now)
        invariant again == set k | k in before && k !in todo && Resent(before[k], now) :: AgainFrame(before[k].frame)
        decreases |todo|
      {
        var k :| k in todo;
        var u := unacked[k];
        todo := todo - {k};
        if now - u.sentAt > RTO_INIT * Shift(u.retries) {
          if u.retries >= MAX_RETRIES {
            unacked := unacked - {k};
          } else {
            again := again + {AgainFrame(u.frame)};
            unacked := unacked[k := u.(retries := u.retries + 1, sentAt := now)];
          }
        }
      }
      assert unacked == Ticked(old(Abs()), now).0.unacked;
      assert again == Ticked(old(Abs()), now).1;
    }
  }

  // ---------- two endpoints and a network ----------

  /**
   One direction's history: what was written and read, how often each data frame was handed
   over to be sent and how often it went out, and which acknowledgements came.
   */
  datatype History =
    History(written: seq<bytes>, read: bytes, scheduled: seq<nat>, sent: seq<nat>, acked: set<nat>)

  /**
   Both endpoints, the frames each has handed over to be sent that are not out yet, every frame
   ever put on the wire each way, and the two directions' histories.
   */
  datatype World = World(
    a: State,
    b: State,
    outA: multiset<bytes>,
    outB: multiset<bytes>,
    ab: set<bytes>,
    ba: set<bytes>,
    fromA: History,
    fromB: History)

  /** Handing a frame over and putting it on the wire are separate steps: anything may happen between them. */
  datatype Event =
    | WriteEvent(byA: bool, payload: bytes, now: nat)
    | TickEvent(byA: bool, now: nat)
    | SendEvent(byA: bool, frame: bytes)
    | DeliverEvent(toA: bool, frame: bytes)
    | ReadEvent(byA: bool, size: nat)

  const NO_HISTORY := History([], [], [], [], {})
  const START := World(FRESH, FRESH, multiset{}, multiset{}, {}, {}, NO_HISTORY, NO_HISTORY)

  /** The same world with the endpoints' names exchanged. */
  function Swap(w: World): World {
    World(w.b, w.a, w.outB, w.outA, w.ba, w.ab, w.fromB, w.fromA)
  }

  predicate IsData(frame: bytes) {
    |frame| >= HEADER && (frame[2] == FLAG_DATA || frame[2] == FLAG_RETRANSMIT)
  }

  predicate IsAck(frame: bytes) {
    |frame| >= HEADER && frame[2] == FLAG_ACK
  }

  function WroteIn(h: History, payload: bytes): History {
    h.(written := h.written + [payload], scheduled := h.scheduled + [1], sent := h.sent + [0])
  }

  function ScheduledIn(h: History, again: set<nat>): History {
    h.(scheduled := seq(|h.scheduled|, i requires 0 <= i < |h.scheduled| =>
      if i in again then h.scheduled[i] + 1 else h.scheduled[i]))
  }

  function SentIn(h: History, frame: bytes): History {
    if IsData(frame) && SeqOf(frame) < |h.sent|
    then h.(sent := h.sent[SeqOf(frame) := h.sent[SeqOf(frame)] + 1])
    else h
  }

  function AckedIn(h: History, frame: bytes): History {
    if IsAck(frame) then h.(acked := h.acked + {SeqOf(frame)}) else h
  }

  function ResentKeys(s: State, now: nat): set<nat> {
    set k | k in s.unacked && Resent(s.unacked[k], now)
  }

  /** A step of endpoint `a`; a frame that is not on the wire cannot be delivered. */
  function StepA(w: World, e: Event): World {
    match e
    case WriteEvent(_, payload, now) =>
      var out := Written(w.a, payload, now);
      w.(a := out.0, outA := w.outA + multiset{out.1}, fromA := WroteIn(w.fromA, payload))
    case TickEvent(_, now) =>
      var out := Ticked(w.a, now);
      w.(a := out.0, outA := w.outA + multiset(out.1), fromA := ScheduledIn(w.fromA, ResentKeys(w.a, now)))
    case SendEvent(_, frame) =>
      if frame !in w.outA then w
      else w.(outA := w.outA - multiset{frame}, ab := w.ab + {frame}, fromA := SentIn(w.fromA, frame))
    case DeliverEvent(_, frame) =>
      if frame !in w.ba then w
      else
        var out := Received(w.a, frame);
        w.(a := out.0, outA := if out.1.Some? then w.outA + multiset{out.1.value} else w.outA,
           fromA := AckedIn(w.fromA, frame))
    case ReadEvent(_, size) =>
      var out := Read(w.a, size);
      w.(a := out.0, fromB := w.fromB.(read := w.fromB.read + if out.1.Some? then out.1.value else []))
  }

  predicate ByA(e: Event) {
    match e
    case WriteEvent(byA, _, _) => byA
    case TickEvent(byA, _) => byA
    case SendEvent(byA, _) => byA
    case DeliverEvent(toA, _) => toA
    case ReadEvent(byA, _) => byA
  }

  function Step(w: World, e: Event): World {
    if ByA(e) then StepA(w, e) else Swap(StepA(Swap(w), e))
  }

  function Run(events: seq<Event>): World {
    if events == [] then START else Step(Run(events[..|events| - 1]), events[|events| - 1])
  }

  // ---------- what holds of one direction ----------

  /** A data frame carries the payload written under its number. */
  predicate FrameOk(frame: bytes, written: seq<bytes>) {
    IsData(frame) ==> SeqOf(frame) < |written| && frame[HEADER..] == written[SeqOf(frame)]
  }

  ghost predicate FramesOk(frames: set<bytes>, written: seq<bytes>) {
    forall f :: f in frames ==> FrameOk(f, written)
  }

  ghost predicate UnackedOk(unacked: map<nat, Unacked>, written: seq<bytes>, scheduled: seq<nat>) {
    forall k :: k in unacked ==>
      && k < |written| == |scheduled|
      && unacked[k].frame == Frame(k, FLAG_DATA, written[k])
      && unacked[k].retries <= MAX_RETRIES && scheduled[k] == unacked[k].retries + 1
  }

  /** What the receiving end holds and has read. */
  ghost predicate ReadOk(r: State, written: seq<bytes>, read: bytes) {
    && (forall k :: k in r.readBuf ==> k < |written| && r.readBuf[k] == written[k])
    && r.readSeq <= |written|
    && read + r.readPending == Concat(written[..r.readSeq])
  }

  ghost predicate OneWay(s: State, r: State, frames: set<bytes>, h: History) {
    && |h.scheduled| == |h.written| == s.writeSeq
    && FramesOk(frames, h.written)
    && UnackedOk(s.unacked, h.written, h.scheduled)
    && (forall k :: 0 <= k < |h.scheduled| ==> h.scheduled[k] <= MAX_RETRIES + 1)
    && ReadOk(r, h.written, h.read)
  }

  lemma WriteKeeps(s: State, r: State, frames: set<bytes>, h: History, payload: bytes, now: nat)
    requires OneWay(s, r, frames, h) && |h.written| + 1 < U16
    ensures var out := Written(s, payload, now);
            OneWay(out.0, r, frames + {out.1}, WroteIn(h, payload))
  {
    hide Frame;
    FrameReads(s.writeSeq, FLAG_DATA, payload);
    assert (h.written + [payload])[..r.readSeq] == h.written[..r.readSeq];
  }

  lemma AgainFrameIs(k: nat, payload: bytes)
    ensures AgainFrame(Frame(k, FLAG_DATA, payload)) == Frame(k, FLAG_RETRANSMIT, payload)
  {
  }

  lemma AgainFrameOk(k: nat, payload: bytes, written: seq<bytes>)
    requires k < |written| < U16 && written[k] == payload
    ensures FrameOk(AgainFrame(Frame(k, FLAG_DATA, payload)), written)
  {
    AgainFrameIs(k, payload);
    FrameReads(k, FLAG_RETRANSMIT, payload);
  }

  lemma TickKeeps(s: State, r: State, frames: set<bytes>, h: History, now: nat)
    requires OneWay(s, r, frames, h) && |h.written| < U16
    ensures OneWay(Ticked(s, now).0, r, frames + Ticked(s, now).1, ScheduledIn(h, ResentKeys(s, now)))
  {
    hide Frame, Due, FrameOk, AgainFrame;
    forall k | k in s.unacked ensures FrameOk(AgainFrame(s.unacked[k].frame), h.written) {
      AgainFrameOk(k, h.written[k], h.written);
    }
  }

  /** A frame that arrives changes what the receiver buffers. */
  lemma ReceiveKeepsIncoming(s: State, r: State, frames: set<bytes>, h: History, frame: bytes)
    requires OneWay(s, r, frames, h) && frame in frames
    ensures OneWay(s, Received(r, frame).0, frames, h)
  {
    assert FrameOk(frame, h.written);
  }

  lemma AckOk(frame: bytes, written: seq<bytes>)
    requires |frame| >= HEADER
    ensures FrameOk(Frame(SeqOf(frame), FLAG_ACK, []), written)
  {
    FlagAt(SeqOf(frame), FLAG_ACK, []);
  }

  lemma FewerWaiting(unacked: map<nat, Unacked>, n: nat, written: seq<bytes>, scheduled: seq<nat>)
    requires UnackedOk(unacked, written, scheduled)
    ensures UnackedOk(unacked - {n}, written, scheduled)
  {
  }

  lemma OneMoreFrame(frames: set<bytes>, frame: bytes, written: seq<bytes>)
    requires FramesOk(frames, written) && FrameOk(frame, written)
    ensures FramesOk(frames + {frame}, written)
  {
  }

  /** An acknowledgement that arrives frees its frame; a data frame that arrives makes one. */
  lemma ReceiveKeepsOutgoing(s: State, r: State, frames: set<bytes>, h: History, frame: bytes)
    requires OneWay(s, r, frames, h)
    ensures var out := Received(s, frame);
            OneWay(out.0, r, if out.1.Some? then frames + {out.1.value} else frames, h)
  {
    hide Frame, SeqOf, FrameOk, FramesOk, UnackedOk, ReadOk;
    if |frame| >= HEADER {
      AckOk(frame, h.written);
      OneMoreFrame(frames, Frame(SeqOf(frame), FLAG_ACK, []), h.written);
      FewerWaiting(s.unacked, SeqOf(frame), h.written, h.scheduled);
    }
  }

  lemma ReadKeeps(s: State, r: State, frames: set<bytes>, h: History, size: nat)
    requires OneWay(s, r, frames, h) && |h.written| < U16
    ensures var out := Read(r, size);
            OneWay(s, out.0, frames, h.(read := h.read + if out.1.Some? then out.1.value else []))
  {
    hide FramesOk, UnackedOk, Concat;
    var out := Read(r, size);
    assert h.read + [] == h.read;
    if r.readPending != [] {
      TakenAndRest(h.read, out.1.value, out.0.readPending, r.readPending);
    } else if r.readSeq in r.readBuf {
      var data := h.written[r.readSeq];
      TakenAndRest(h.read, out.1.value, out.0.readPending, data);
      OneMore(h.written, r.readSeq);
    }
  }

  lemma TakenAndRest(before: bytes, taken: bytes, rest: bytes, all: bytes)
    requires |taken| <= |all| && taken == all[..|taken|] && rest == all[|taken|..]
    ensures before + taken + rest == before + all
  {
  }

  lemma OneMore(parts: seq<bytes>, n: nat)
    requires n < |parts|
    ensures Concat(parts[..n + 1]) == Concat(parts[..n]) + parts[n]
  {
    FrontAndLast(parts[..n + 1]);
    assert parts[..n + 1][..n] == parts[..n];
    ConcatLast(parts[..n], parts[n]);
  }

  lemma WriteKeepsIncoming(s: State, r: State, frames: set<bytes>, h: History, payload: bytes, now: nat)
    requires OneWay(s, r, frames, h)
    ensures OneWay(s, Written(r, payload, now).0, frames, h)
  {
  }

  lemma TickKeepsIncoming(s: State, r: State, frames: set<bytes>, h: History, now: nat)
    requires OneWay(s, r, frames, h)
    ensures OneWay(s, Ticked(r, now).0, frames, h)
  {
  }

  lemma ReadKeepsOutgoing(s: State, r: State, frames: set<bytes>, h: History, size: nat)
    requires OneWay(s, r, frames, h)
    ensures OneWay(Read(s, size).0, r, frames, h)
  {
  }

  // ---------- frames handed over and frames sent ----------

  /** The copies of frame `k` that are still to go out. */
  function Copies(out: multiset<bytes>, k: nat, payload: bytes): nat {
    out[Frame(k, FLAG_DATA, payload)] + out[Frame(k, FLAG_RETRANSMIT, payload)]
  }

  /** Every copy of a data frame that was handed over was either sent or is still to go out. */
  ghost predicate Counted(out: multiset<bytes>, h: History) {
    && |h.sent| == |h.scheduled| == |h.written|
    && forall k :: 0 <= k < |h.sent| ==> h.sent[k] + Copies(out, k, h.written[k]) == h.scheduled[k]
  }

  /** Frames differ when their numbers or their flags do. */
  lemma FramesApart(n: nat, flag: byte, p: bytes, m: nat, other: byte, q: bytes)
    requires n < U16 && m < U16 && (n != m || flag != other)
    ensures Frame(n, flag, p) != Frame(m, other, q)
  {
    FrameReads(n, flag, p);
    FrameReads(m, other, q);
  }

  lemma DataFrameIs(frame: bytes)
    requires |frame| >= HEADER
    ensures SeqOf(frame) < U16 && frame == Frame(SeqOf(frame), frame[2], frame[HEADER..])
  {
    Widths();
    ValBound(frame[..2]);
    BEVal(frame[..2]);
    assert frame == frame[..2] + [frame[2]] + frame[HEADER..];
  }

  /** A number that was not written yet has no copies. */
  lemma NoCopies(out: multiset<bytes>, k: nat, payload: bytes, written: seq<bytes>)
    requires |written| <= k < U16 && forall f :: f in out ==> FrameOk(f, written)
    ensures Copies(out, k, payload) == 0
  {
    hide Frame, SeqOf;
    FrameReads(k, FLAG_DATA, payload);
    FrameReads(k, FLAG_RETRANSMIT, payload);
    assert Frame(k, FLAG_DATA, payload) !in out;
    assert Frame(k, FLAG_RETRANSMIT, payload) !in out;
  }

  lemma WriteCounts(s: State, out: multiset<bytes>, h: History, payload: bytes, now: nat)
    requires Counted(out, h) && s.writeSeq == |h.written| && |h.written| + 1 < U16
    requires forall f :: f in out ==> FrameOk(f, h.written)
    ensures Counted(out + multiset{Written(s, payload, now).1}, WroteIn(h, payload))
  {
    hide Frame, FrameOk;
    var n := s.writeSeq;
    NoCopies(out, n, payload, h.written);
    FramesApart(n, FLAG_DATA, payload, n, FLAG_RETRANSMIT, payload);
    forall k | 0 <= k < n
      ensures Frame(k, FLAG_DATA, h.written[k]) != Frame(n, FLAG_DATA, payload)
      ensures Frame(k, FLAG_RETRANSMIT, h.written[k]) != Frame(n, FLAG_DATA, payload)
    {
      FramesApart(k, FLAG_DATA, h.written[k], n, FLAG_DATA, payload);
      FramesApart(k, FLAG_RETRANSMIT, h.written[k], n, FLAG_DATA, payload);
    }
  }

  /** A timer pass hands over one copy of each frame that is due, and none of the others. */
  lemma AgainOnce(s: State, now: nat, h: History, k: nat)
    requires UnackedOk(s.unacked, h.written, h.scheduled) && k < |h.written| < U16
    ensures Frame(k, FLAG_DATA, h.written[k]) !in Ticked(s, now).1
    ensures Frame(k, FLAG_RETRANSMIT, h.written[k]) in Ticked(s, now).1 <==> k in ResentKeys(s, now)
  {
    hide Frame, AgainFrame, Due;
    forall j | j in s.unacked
      ensures AgainFrame(s.unacked[j].frame) == Frame(j, FLAG_RETRANSMIT, h.written[j])
      ensures AgainFrame(s.unacked[j].frame) != Frame(k, FLAG_DATA, h.written[k])
      ensures j != k ==> AgainFrame(s.unacked[j].frame) != Frame(k, FLAG_RETRANSMIT, h.written[k])
    {
      AgainFrameIs(j, h.written[j]);
      FramesApart(j, FLAG_RETRANSMIT, h.written[j], k, FLAG_DATA, h.written[k]);
      if j != k { FramesApart(j, FLAG_RETRANSMIT, h.written[j], k, FLAG_RETRANSMIT, h.written[k]); }
    }
  }

  lemma TickCounts(s: State, out: multiset<bytes>, h: History, now: nat)
    requires Counted(out, h) && UnackedOk(s.unacked, h.written, h.scheduled) && |h.written| < U16
    ensures Counted(out + multiset(Ticked(s, now).1), ScheduledIn(h, ResentKeys(s, now)))
  {
    hide Frame, UnackedOk, Ticked, ResentKeys;
    forall k | 0 <= k < |h.written|
      ensures Copies(out + multiset(Ticked(s, now).1), k, h.written[k])
           == Copies(out, k, h.written[k]) + if k in ResentKeys(s, now) then 1 else 0
    {
      AgainOnce(s, now, h, k);
    }
  }

  /** Sending one copy takes it out of those to go out, and touches no other frame's count. */
  lemma SendCounts(out: multiset<bytes>, h: History, frame: bytes)
    requires Counted(out, h) && frame in out && FrameOk(frame, h.written) && |h.written| < U16
    ensures Counted(out - multiset{frame}, SentIn(h, frame))
  {
    hide Frame, SeqOf;
    if |frame| >= HEADER { DataFrameIs(frame); }
    forall k | 0 <= k < |h.written|
      ensures Copies(out - multiset{frame}, k, h.written[k])
           == Copies(out, k, h.written[k]) - if IsData(frame) && SeqOf(frame) == k then 1 else 0
    {
      CopyGone(out, frame, h.written, k);
    }
  }

  lemma CopyGone(out: multiset<bytes>, frame: bytes, written: seq<bytes>, k: nat)
    requires frame in out && FrameOk(frame, written) && k < |written| < U16
    ensures Copies(out - multiset{frame}, k, written[k])
         == Copies(out, k, written[k]) - if IsData(frame) && SeqOf(frame) == k then 1 else 0
  {
    hide Frame, SeqOf;
    var data, again := Frame(k, FLAG_DATA, written[k]), Frame(k, FLAG_RETRANSMIT, written[k]);
    FrameReads(k, FLAG_DATA, written[k]);
    FrameReads(k, FLAG_RETRANSMIT, written[k]);
    assert IsData(data) && IsData(again);
    if |frame| >= HEADER { DataFrameIs(frame); }
  }

  /** An acknowledgement is no copy of a data frame. */
  lemma AckCounts(out: multiset<bytes>, h: History, n: nat)
    requires Counted(out, h) && |h.written| < U16
    ensures Counted(out + multiset{Frame(n, FLAG_ACK, [])}, h)
  {
    hide Frame;
    forall k | 0 <= k < |h.written|
      ensures Copies(out + multiset{Frame(n, FLAG_ACK, [])}, k, h.written[k]) == Copies(out, k, h.written[k])
    {
      FlagAt(n, FLAG_ACK, []);
      FlagAt(k, FLAG_DATA, h.written[k]);
      FlagAt(k, FLAG_RETRANSMIT, h.written[k]);
    }
  }

  // ---------- every run ----------

  /** The frames of one direction: on the wire or still to go out. */
  ghost function Frames(wire: set<bytes>, out: multiset<bytes>): set<bytes> {
    wire + set f | f in out
  }

  /** Acknowledgements name frames that were written, and a frame that was acknowledged is not waiting any more. */
  ghost predicate AcksOk(s: State, back: set<bytes>, h: History) {
    && (forall f :: f in back && IsAck(f) ==> SeqOf(f) < |h.written|)
    && (forall k :: k in h.acked ==> k < |h.written| && k !in s.unacked)
  }

  /** One direction, as long as fewer than 65536 writes were made. */
  ghost predicate InOrder(s: State, r: State, frames: set<bytes>, back: set<bytes>, out: multiset<bytes>, h: History) {
    |h.written| < U16 ==> OneWay(s, r, frames, h) && AcksOk(s, back, h) && Counted(out, h)
  }

  ghost predicate Good(w: World) {
    var ab, ba := Frames(w.ab, w.outA), Frames(w.ba, w.outB);
    InOrder(w.a, w.b, ab, ba, w.outA, w.fromA) && InOrder(w.b, w.a, ba, ab, w.outB, w.fromB)
  }

  lemma FlagAt(n: nat, flag: byte, payload: bytes)
    ensures Frame(n, flag, payload)[2] == flag
  {
  }

  /** Handing a frame over adds it to the direction's frames; sending it adds none. */
  lemma FramesGrow(wire: set<bytes>, out: multiset<bytes>, more: set<bytes>)
    ensures Frames(wire, out + multiset(more)) == Frames(wire, out) + more
  {
  }

  lemma FramesMove(wire: set<bytes>, out: multiset<bytes>, frame: bytes)
    requires frame in out
    ensures Frames(wire + {frame}, out - multiset{frame}) <= Frames(wire, out)
  {
  }

  lemma FewerFrames(s: State, r: State, frames: set<bytes>, fewer: set<bytes>, h: History, sent: seq<nat>)
    requires OneWay(s, r, frames, h) && fewer <= frames
    ensures OneWay(s, r, fewer, h.(sent := sent))
  {
  }

  lemma WriteStep(w: World, e: Event)
    requires Good(w) && e.WriteEvent?
    ensures Good(StepA(w, e))
  {
    hide OneWay, Counted, Frame, Frames, FrameOk, SeqOf, Concat;
    var frame := Written(w.a, e.payload, e.now).1;
    FlagAt(w.a.writeSeq, FLAG_DATA, e.payload);
    FramesGrow(w.ab, w.outA, {frame});
    assert multiset({frame}) == multiset{frame};
    if |w.fromA.written| + 1 < U16 {
      WriteKeeps(w.a, w.b, Frames(w.ab, w.outA), w.fromA, e.payload, e.now);
      SizesOf(w.a, w.b, Frames(w.ab, w.outA), w.fromA);
      OutOk(w.a, w.b, w.ab, w.outA, w.fromA);
      WriteCounts(w.a, w.outA, w.fromA, e.payload, e.now);
    }
    if |w.fromB.written| < U16 {
      WriteKeepsIncoming(w.b, w.a, Frames(w.ba, w.outB), w.fromB, e.payload, e.now);
    }
  }

  lemma SizesOf(s: State, r: State, frames: set<bytes>, h: History)
    requires OneWay(s, r, frames, h)
    ensures |h.scheduled| == |h.written| == s.writeSeq && UnackedOk(s.unacked, h.written, h.scheduled)
  {
  }

  lemma OutOk(s: State, r: State, wire: set<bytes>, out: multiset<bytes>, h: History)
    requires OneWay(s, r, Frames(wire, out), h)
    ensures forall f :: f in out ==> FrameOk(f, h.written)
  {
    hide FrameOk;
  }

  /** What the timer hands over are no acknowledgements. */
  lemma AgainNoAck(s: State, now: nat, back: set<bytes>, t: State, h: History)
    requires AcksOk(t, back, h)
    ensures AcksOk(t, back + Ticked(s, now).1, h)
  {
    hide SeqOf, Due;
  }

  lemma TickKeepsAcks(s: State, now: nat, back: set<bytes>, h: History)
    requires AcksOk(s, back, h)
    ensures AcksOk(Ticked(s, now).0, back, ScheduledIn(h, ResentKeys(s, now)))
  {
    hide SeqOf, Due;
  }

  lemma TickStep(w: World, e: Event)
    requires Good(w) && e.TickEvent?
    ensures Good(StepA(w, e))
  {
    FramesGrow(w.ab, w.outA, Ticked(w.a, e.now).1);
    var ab, ba := Frames(w.ab, w.outA), Frames(w.ba, w.outB);
    hide OneWay, Counted, Frames, UnackedOk, AcksOk, Ticked, ResentKeys;
    if |w.fromA.written| < U16 {
      TickKeepsAcks(w.a, e.now, ba, w.fromA);
      TickKeeps(w.a, w.b, ab, w.fromA, e.now);
      SizesOf(w.a, w.b, ab, w.fromA);
      TickCounts(w.a, w.outA, w.fromA, e.now);
    }
    if |w.fromB.written| < U16 {
      TickKeepsIncoming(w.b, w.a, ba, w.fromB, e.now);
      AgainNoAck(w.a, e.now, ab, w.b, w.fromB);
    }
  }

  lemma SendStep(w: World, e: Event)
    requires Good(w) && e.SendEvent?
    ensures Good(StepA(w, e))
  {
    hide OneWay, Counted, Frames, FrameOk, SeqOf;
    if e.frame in w.outA {
      var ab, less := Frames(w.ab, w.outA), Frames(w.ab + {e.frame}, w.outA - multiset{e.frame});
      FramesMove(w.ab, w.outA, e.frame);
      if |w.fromA.written| < U16 {
        FewerFrames(w.a, w.b, ab, less, w.fromA, SentIn(w.fromA, e.frame).sent);
        OutOk(w.a, w.b, w.ab, w.outA, w.fromA);
        SendCounts(w.outA, w.fromA, e.frame);
      }
    }
  }

  lemma OneWayIgnores(s: State, r: State, frames: set<bytes>, h: History, acked: set<nat>)
    requires OneWay(s, r, frames, h)
    ensures OneWay(s, r, frames, h.(acked := acked))
  {
  }

  /** An acknowledgement that arrived names a frame that was written and is no longer waiting. */
  lemma AckArrives(s: State, back: set<bytes>, h: History, frame: bytes)
    requires AcksOk(s, back, h) && frame in back
    ensures AcksOk(Received(s, frame).0, back, AckedIn(h, frame))
  {
    hide SeqOf, Frame;
  }

  /** The acknowledgement of a frame that arrived names a frame that was written. */
  lemma AckMade(s: State, t: State, frames: set<bytes>, back: set<bytes>, h: History, frame: bytes)
    requires OneWay(t, s, frames, h) && frame in frames && AcksOk(t, back, h)
    ensures Received(s, frame).1.Some? ==> AcksOk(t, back + {Received(s, frame).1.value}, h)
  {
    hide Frame, SeqOf;
    assert FrameOk(frame, h.written);
    if IsData(frame) {
      DataFrameIs(frame);
      FrameReads(SeqOf(frame), FLAG_ACK, []);
    }
  }

  lemma CountedIgnores(out: multiset<bytes>, h: History, acked: set<nat>)
    requires Counted(out, h)
    ensures Counted(out, h.(acked := acked))
  {
  }

  lemma DeliverStep(w: World, e: Event)
    requires Good(w) && e.DeliverEvent?
    ensures Good(StepA(w, e))
  {
    if e.frame in w.ba {
      var ab, ba, out := Frames(w.ab, w.outA), Frames(w.ba, w.outB), Received(w.a, e.frame);
      assert e.frame in ba;
      if out.1.Some? {
        FramesGrow(w.ab, w.outA, {out.1.value});
        assert multiset({out.1.value}) == multiset{out.1.value};
      }
      hide OneWay, Counted, Frames, AcksOk, Frame, SeqOf;
      if |w.fromA.written| < U16 {
        ReceiveKeepsOutgoing(w.a, w.b, ab, w.fromA, e.frame);
        OneWayIgnores(out.0, w.b, if out.1.Some? then ab + {out.1.value} else ab, w.fromA,
                      AckedIn(w.fromA, e.frame).acked);
        AckArrives(w.a, ba, w.fromA, e.frame);
        if out.1.Some? { AckCounts(w.outA, w.fromA, SeqOf(e.frame)); }
        CountedIgnores(StepA(w, e).outA, w.fromA, AckedIn(w.fromA, e.frame).acked);
      }
      if |w.fromB.written| < U16 {
        ReceiveKeepsIncoming(w.b, w.a, ba, w.fromB, e.frame);
        AckMade(w.a, w.b, ba, ab, w.fromB, e.frame);
      }
    }
  }

  lemma ReadStep(w: World, e: Event)
    requires Good(w) && e.ReadEvent?
    ensures Good(StepA(w, e))
  {
    hide OneWay, Frames, Frame, SeqOf;
    if |w.fromA.written| < U16 { ReadKeepsOutgoing(w.a, w.b, Frames(w.ab, w.outA), w.fromA, e.size); }
    if |w.fromB.written| < U16 { ReadKeeps(w.b, w.a, Frames(w.ba, w.outB), w.fromB, e.size); }
  }

  lemma StepKeeps(w: World, e: Event)
    requires Good(w)
    ensures Good(Step(w, e))
  {
    hide InOrder, StepA;
    var v := if ByA(e) then w else Swap(w);
    match e
    case WriteEvent(_, _, _) => WriteStep(v, e);
    case TickEvent(_, _) => TickStep(v, e);
    case SendEvent(_, _) => SendStep(v, e);
    case DeliverEvent(_, _) => DeliverStep(v, e);
    case ReadEvent(_, _) => ReadStep(v, e);
  }

  lemma StartGood()
    ensures Good(START)
  {
  }

  lemma {:induction false} RunKeeps(events: seq<Event>)
    ensures Good(Run(events))
  {
    hide Good, Step;
    if events == [] {
      StartGood();
    } else {
      RunKeeps(events[..|events| - 1]);
      StepKeeps(Run(events[..|events| - 1]), events[|events| - 1]);
    }
  }

  /** One direction of a run: everything the receiver read, and how often each frame went out. */
  predicate Delivered(h: History) {
    && h.read <= Concat(h.written)
    && |h.sent| == |h.scheduled| == |h.written|
    && forall k :: 0 <= k < |h.sent| ==> h.sent[k] <= h.scheduled[k] <= 11
  }

  lemma OneWayDelivers(s: State, r: State, frames: set<bytes>, out: multiset<bytes>, h: History)
    requires OneWay(s, r, frames, h) && Counted(out, h)
    ensures Delivered(h)
  {
    hide FramesOk, UnackedOk, Copies;
    ConcatPrefix(h.written, r.readSeq);
  }

  /**
   In every run, in each direction, as long as at most 65535 writes were made: the bytes read
   are a prefix of the bytes written, for any read sizes, and no frame went out more than
   eleven times.
   */
  lemma ReliableDelivery(events: seq<Event>)
    ensures |Run(events).fromA.written| < U16 ==> Delivered(Run(events).fromA)
    ensures |Run(events).fromB.written| < U16 ==> Delivered(Run(events).fromB)
  {
    hide Run, OneWay, Counted, Delivered, Frames;
    RunKeeps(events);
    var w := Run(events);
    if |w.fromA.written| < U16 { OneWayDelivers(w.a, w.b, Frames(w.ab, w.outA), w.outA, w.fromA); }
    if |w.fromB.written| < U16 { OneWayDelivers(w.b, w.a, Frames(w.ba, w.outB), w.outB, w.fromB); }
  }

  // ---------- after the acknowledgement ----------

  function HistoryOf(w: World, byA: bool): History {
    if byA then w.fromA else w.fromB
  }

  function OutOf(w: World, byA: bool): multiset<bytes> {
    if byA then w.outA else w.outB
  }

  lemma RunLast(events: seq<Event>, e: Event)
    ensures Run(events + [e]) == Step(Run(events), e)
  {
    assert (events + [e])[..|events|] == events;
  }

  lemma OneMoreEvent(events: seq<Event>, more: seq<Event>)
    requires more != []
    ensures var last := |more| - 1;
            Run(events + more) == Step(Run(events + more[..last]), more[last])
  {
    hide Run;
    var last := |more| - 1;
    FrontAndLast(more);
    Associates(events, more[..last], [more[last]]);
    RunLast(events + more[..last], more[last]);
  }

  /** Growth of a direction's history that leaves frame `k`, once acknowledged, as it was. */
  predicate Grows(h: History, g: History, k: nat) {
    && |h.written| <= |g.written| && h.acked <= g.acked
    && (k in h.acked ==>
          && k < |h.written| == |h.scheduled| <= |g.scheduled|
          && g.scheduled[k] == h.scheduled[k] && g.written[k] == h.written[k])
  }

  lemma OwnStepGrows(w: World, e: Event, k: nat)
    requires AcksOk(w.a, Frames(w.ba, w.outB), w.fromA) && |w.fromA.written| == |w.fromA.scheduled|
    ensures Grows(w.fromA, StepA(w, e).fromA, k)
  {
    hide Frames, Frame, SeqOf, Due, Received, Ticked, Read;
  }

  lemma OtherStepGrows(w: World, e: Event, k: nat)
    requires k in w.fromB.acked ==> k < |w.fromB.written| == |w.fromB.scheduled|
    ensures Grows(w.fromB, StepA(w, e).fromB, k)
  {
    hide Received, Ticked, Read, Written;
  }

  /** No step takes an acknowledgement back or hands over an acknowledged frame. */
  lemma StepSchedulesNoMore(w: World, e: Event, byA: bool, k: nat)
    requires Good(w)
    requires |HistoryOf(w, byA).written| < U16
    ensures Grows(HistoryOf(w, byA), HistoryOf(Step(w, e), byA), k)
  {
    hide StepA, Frames, Counted, Grows, UnackedOk, FramesOk, ReadOk;
    var v := if ByA(e) then w else Swap(w);
    if byA == ByA(e) { OwnStepGrows(v, e, k); } else { OtherStepGrows(v, e, k); }
  }

  lemma WritesGrow(w: World, e: Event, byA: bool)
    ensures |HistoryOf(w, byA).written| <= |HistoryOf(Step(w, e), byA).written|
  {
    hide Received, Ticked, Read, Written;
  }

  /**
   Once the acknowledgement of a frame has arrived, no later step of any run hands the frame over
   again: whatever happens next, it goes out only as often as it was handed over before.
   */
  lemma {:induction false} AcknowledgedNotScheduled(events: seq<Event>, more: seq<Event>, byA: bool, k: nat)
    requires |HistoryOf(Run(events + more), byA).written| < U16 && k in HistoryOf(Run(events), byA).acked
    ensures var h, g := HistoryOf(Run(events), byA), HistoryOf(Run(events + more), byA);
            Grows(h, g, k) && k in g.acked
  {
    hide Run, Step, Good, HistoryOf;
    if more == [] {
      assert events + more == events;
      RunKeeps(events);
      StepSchedulesNoMore(Run(events), ReadEvent(byA, 0), byA, k);
    } else {
      var last := |more| - 1;
      OneMoreEvent(events, more);
      var w := Run(events + more[..last]);
      RunKeeps(events + more[..last]);
      WritesGrow(w, more[last], byA);
      StepSchedulesNoMore(w, more[last], byA, k);
      AcknowledgedNotScheduled(events, more[..last], byA, k);
    }
  }

  /** The run goes on so that frame `k` goes out again. */
  ghost predicate GoesOutAgain(events: seq<Event>, more: seq<Event>, byA: bool, k: nat) {
    var h, g := HistoryOf(Run(events), byA), HistoryOf(Run(events + more), byA);
    |g.written| < U16 && k < |h.sent| && k < |g.sent| && g.sent[k] > h.sent[k]
  }

  lemma CountedAt(events: seq<Event>, byA: bool, k: nat)
    requires var h := HistoryOf(Run(events), byA); |h.written| < U16 && k < |h.written|
    ensures var h := HistoryOf(Run(events), byA);
            && |h.sent| == |h.scheduled| == |h.written|
            && h.sent[k] + Copies(OutOf(Run(events), byA), k, h.written[k]) == h.scheduled[k]
  {
    hide Run, OneWay, AcksOk, Frames, Frame;
    RunKeeps(events);
  }

  lemma SendOnce(w: World, byA: bool, k: nat, flag: byte)
    requires flag == FLAG_DATA || flag == FLAG_RETRANSMIT
    requires k < |HistoryOf(w, byA).written| == |HistoryOf(w, byA).sent| < U16
    requires Frame(k, flag, HistoryOf(w, byA).written[k]) in OutOf(w, byA)
    ensures var h := HistoryOf(w, byA);
            var g := HistoryOf(Step(w, SendEvent(byA, Frame(k, flag, h.written[k]))), byA);
            g.written == h.written && |g.sent| == |h.sent| && g.sent[k] == h.sent[k] + 1
  {
    hide Frame, SeqOf;
    FrameReads(k, flag, HistoryOf(w, byA).written[k]);
  }

  lemma CopiesGoOut(events: seq<Event>, byA: bool, k: nat)
    requires var h := HistoryOf(Run(events), byA);
             |h.written| < U16 && k < |h.written| && Copies(OutOf(Run(events), byA), k, h.written[k]) > 0
    ensures exists more :: GoesOutAgain(events, more, byA, k)
  {
    hide Run, Step, Frame, HistoryOf, OutOf;
    CountedAt(events, byA, k);
    var w := Run(events);
    var h := HistoryOf(w, byA);
    var flag := if Frame(k, FLAG_DATA, h.written[k]) in OutOf(w, byA) then FLAG_DATA else FLAG_RETRANSMIT;
    SendOnce(w, byA, k, flag);
    var more := [SendEvent(byA, Frame(k, flag, h.written[k]))];
    RunLast(events, more[0]);
    assert GoesOutAgain(events, more, byA, k);
  }

  lemma NothingLeftGoesOut(events: seq<Event>, more: seq<Event>, byA: bool, k: nat)
    requires |HistoryOf(Run(events + more), byA).written| < U16 && k in HistoryOf(Run(events), byA).acked
    requires var h := HistoryOf(Run(events), byA);
             k < |h.written| < U16 && Copies(OutOf(Run(events), byA), k, h.written[k]) == 0
    ensures !GoesOutAgain(events, more, byA, k)
  {
    hide Run, Frame, HistoryOf, OutOf, Copies;
    AcknowledgedNotScheduled(events, more, byA, k);
    CountedAt(events, byA, k);
    CountedAt(events + more, byA, k);
  }

  /**
   A frame whose acknowledgement has arrived can still go out exactly when a copy of it was handed
   over before and is not out yet.
   */
  lemma LateSendsExactly(events: seq<Event>, byA: bool, k: nat)
    requires |HistoryOf(Run(events), byA).written| < U16 && k in HistoryOf(Run(events), byA).acked
    ensures k < |HistoryOf(Run(events), byA).written|
    ensures (exists more :: GoesOutAgain(events, more, byA, k))
       <==> Copies(OutOf(Run(events), byA), k, HistoryOf(Run(events), byA).written[k]) > 0
  {
    hide Run, Frame, HistoryOf, OutOf, Copies;
    AcknowledgedNotScheduled(events, [], byA, k);
    assert events + [] == events;
    if Copies(OutOf(Run(events), byA), k, HistoryOf(Run(events), byA).written[k]) > 0 {
      CopiesGoOut(events, byA, k);
    } else {
      forall more ensures !GoesOutAgain(events, more, byA, k) {
        if |HistoryOf(Run(events + more), byA).written| < U16 { NothingLeftGoesOut(events, more, byA, k); }
      }
    }
  }

  /**
   The timer fires while the acknowledgement is on its way, and the acknowledgement comes before
   the copy goes out.
   */
  function LateRun(): seq<Event> {
    var frame, ack := Frame(0, FLAG_DATA, [7]), Frame(0, FLAG_ACK, []);
    [WriteEvent(true, [7], 0)] + [SendEvent(true, frame)] + [DeliverEvent(false, frame)] + [SendEvent(false, ack)]
      + [TickEvent(true, 101)] + [DeliverEvent(true, ack)]
  }

  /** The frame is written, sent and received. */
  lemma LateStart(w1: World, w2: World, w3: World)
    requires var frame := Frame(0, FLAG_DATA, [7]);
             && w1 == Step(START, WriteEvent(true, [7], 0)) && w2 == Step(w1, SendEvent(true, frame))
             && w3 == Step(w2, DeliverEvent(false, frame))
    ensures w3.a.unacked == map[0 := Unacked(Frame(0, FLAG_DATA, [7]), 0, 0)]
    ensures w3.fromA.written == [[7]] && Frame(0, FLAG_ACK, []) in w3.outB
  {
    hide Frame, SeqOf;
    FrameReads(0, FLAG_DATA, [7]);
    var frame := Frame(0, FLAG_DATA, [7]);
    assert w1.a.unacked == map[0 := Unacked(frame, 0, 0)] && frame in w1.outA && w1.fromA.written == [[7]];
    assert w2.a == w1.a && frame in w2.ab && w2.fromA.written == [[7]];
    assert w3.a == w1.a && w3.fromA.written == [[7]];
  }

  /** The acknowledgement is sent, the timer fires, and the acknowledgement arrives. */
  lemma LateEnd(w3: World, w4: World, w5: World, w6: World)
    requires w3.a.unacked == map[0 := Unacked(Frame(0, FLAG_DATA, [7]), 0, 0)]
    requires w3.fromA.written == [[7]] && Frame(0, FLAG_ACK, []) in w3.outB
    requires var ack := Frame(0, FLAG_ACK, []);
             && w4 == Step(w3, SendEvent(false, ack)) && w5 == Step(w4, TickEvent(true, 101))
             && w6 == Step(w5, DeliverEvent(true, ack))
    ensures w6.fromA.written == [[7]] && 0 in w6.fromA.acked && Copies(w6.outA, 0, [7]) > 0
  {
    hide Frame, SeqOf;
    FrameReads(0, FLAG_ACK, []);
    AgainFrameIs(0, [7]);
    var u := Unacked(Frame(0, FLAG_DATA, [7]), 0, 0);
    assert w4.a == w3.a && Frame(0, FLAG_ACK, []) in w4.ba && w4.fromA.written == [[7]];
    assert Shift(0) == 1 && Resent(u, 101) && w4.a.unacked[0] == u;
    assert Frame(0, FLAG_RETRANSMIT, [7]) in Ticked(w4.a, 101).1;
    assert w5.ba == w4.ba && w5.fromA.written == [[7]] && Frame(0, FLAG_RETRANSMIT, [7]) in w5.outA;
  }

  /** A run in which a frame goes out again after its acknowledgement arrived. */
  lemma LateSendHappens()
    ensures 0 in Run(LateRun()).fromA.acked && |Run(LateRun()).fromA.written| == 1
    ensures exists more :: GoesOutAgain(LateRun(), more, true, 0)
  {
    hide Run, Step, Frame;
    var frame, ack := Frame(0, FLAG_DATA, [7]), Frame(0, FLAG_ACK, []);
    var e1 := [WriteEvent(true, [7], 0)];
    var e2 := e1 + [SendEvent(true, frame)];
    var e3 := e2 + [DeliverEvent(false, frame)];
    var e4 := e3 + [SendEvent(false, ack)];
    var e5 := e4 + [TickEvent(true, 101)];
    RunOne(e1[0]);
    RunLast(e1, SendEvent(true, frame));
    RunLast(e2, DeliverEvent(false, frame));
    RunLast(e3, SendEvent(false, ack));
    RunLast(e4, TickEvent(true, 101));
    RunLast(e5, DeliverEvent(true, ack));
    LateStart(Run(e1), Run(e2), Run(e3));
    LateEnd(Run(e3), Run(e4), Run(e5), Run(LateRun()));
    LateSendsExactly(LateRun(), true, 0);
  }

  lemma RunOne(e: Event)
    ensures Run([e]) == Step(START, e)
  {
    hide Step;
    assert [e][..0] == [];
    assert Run([]) == START;
  }

  // ---------- the bound is exact ----------

  /** `a` writes one byte, its frame goes out and reaches `b`, and `b` reads it. */
  function Round(n: nat): (r: seq<Event>)
    ensures |r| == 4
  {
    var frame := Frame(n, FLAG_DATA, [7]);
    [WriteEvent(true, [7], 0), SendEvent(true, frame), DeliverEvent(false, frame), ReadEvent(false, 1)]
  }

  function Rounds(n: nat): seq<Event> {
    if n == 0 then [] else Rounds(n - 1) + Round(n - 1)
  }

  /** After `n` rounds everything written was read, and frame 0 may still arrive once more. */
  ghost predicate Even(w: World, n: nat) {
    && w.a.writeSeq == w.b.readSeq == n % U16
    && w.b.readBuf == map[] && w.b.readPending == []
    && |w.fromA.written| == |w.fromA.read| == |Concat(w.fromA.written)| == n
    && (n > 0 ==> Frame(0, FLAG_DATA, [7]) in w.ab)
  }

  /** The frame goes out. */
  lemma RoundSends(w: World, n: nat)
    requires n < U16 && Frame(n, FLAG_DATA, [7]) in w.outA
    ensures var v := Step(w, Round(n)[1]);
            && v.a == w.a && v.b == w.b && v.ab == w.ab + {Frame(n, FLAG_DATA, [7])}
            && v.fromA.written == w.fromA.written && v.fromA.read == w.fromA.read
  {
    hide Frame, SeqOf;
  }

  /** The frame just sent reaches `b`, whose buffer is empty. */
  lemma RoundDelivers(w: World, n: nat)
    requires n < U16 && w.b.readBuf == map[] && Frame(n, FLAG_DATA, [7]) in w.ab
    ensures var v := Step(w, Round(n)[2]);
            && v.b.readBuf == map[n := [7]] && v.b.readSeq == w.b.readSeq && v.b.readPending == w.b.readPending
            && v.a == w.a && v.ab == w.ab && v.fromA == w.fromA
  {
    hide Frame, SeqOf;
    FrameReads(n, FLAG_DATA, [7]);
    assert w.b.readBuf[n := [7]] == map[n := [7]];
  }

  lemma RoundReads(w: World, n: nat)
    requires n < U16 && w.b.readBuf == map[n := [7]] && w.b.readSeq == n && w.b.readPending == []
    ensures var v := Step(w, Round(n)[3]);
            && v.b.readBuf == map[] && v.b.readSeq == (n + 1) % U16 && v.b.readPending == []
            && v.a == w.a && v.ab == w.ab && v.fromA == w.fromA.(read := w.fromA.read + [7])
  {
    hide Frame;
    assert map[n := [7]] - {n} == map[];
  }

  lemma RoundWrites(w: World, n: nat)
    requires n < U16 && w.a.writeSeq == n
    ensures var v := Step(w, Round(n)[0]);
            && v.a.writeSeq == (n + 1) % U16 && v.b == w.b && v.ab == w.ab && Frame(n, FLAG_DATA, [7]) in v.outA
            && v.fromA.written == w.fromA.written + [[7]] && v.fromA.read == w.fromA.read
  {
    hide Frame;
  }

  lemma RoundKeepsEven(w: World, n: nat)
    requires Even(w, n) && n < U16
    ensures Even(Step(Step(Step(Step(w, Round(n)[0]), Round(n)[1]), Round(n)[2]), Round(n)[3]), n + 1)
  {
    hide Frame, Concat, Step, Round;
    ConcatLast(w.fromA.written, [7]);
    var w1 := Step(w, Round(n)[0]);
    var w2 := Step(w1, Round(n)[1]);
    RoundWrites(w, n);
    RoundSends(w1, n);
    RoundDelivers(w2, n);
    RoundReads(Step(w2, Round(n)[2]), n);
  }

  lemma RunFour(es: seq<Event>, r: seq<Event>)
    requires |r| == 4
    ensures Run(es + r) == Step(Step(Step(Step(Run(es), r[0]), r[1]), r[2]), r[3])
  {
    hide Run, Step;
    RunLast(es, r[0]);
    RunLast(es + [r[0]], r[1]);
    RunLast(es + [r[0]] + [r[1]], r[2]);
    RunLast(es + [r[0]] + [r[1]] + [r[2]], r[3]);
    OneByOne(es, r);
  }

  lemma OneByOne<T>(s: seq<T>, r: seq<T>)
    requires |r| == 4
    ensures s + [r[0]] + [r[1]] + [r[2]] + [r[3]] == s + r
  {
  }

  lemma StartEven()
    ensures Even(Run([]), 0)
  {
    assert Run([]) == START;
    assert Concat([]) == [];
  }

  lemma {:induction false} RoundsEven(n: nat)
    requires n <= U16
    ensures Even(Run(Rounds(n)), n)
  {
    hide Run, Step, Even, Round;
    if n == 0 {
      StartEven();
    } else {
      RoundsEven(n - 1);
      RunFour(Rounds(n - 1), Round(n - 1));
      RoundKeepsEven(Run(Rounds(n - 1)), n - 1);
    }
  }

  /** A late copy of frame 0, read once more. */
  lemma RepeatedFrame(w: World)
    requires Even(w, U16)
    ensures var again := Step(Step(w, DeliverEvent(false, Frame(0, FLAG_DATA, [7]))), ReadEvent(false, 1));
            |again.fromA.written| == U16 && |again.fromA.read| == |Concat(again.fromA.written)| + 1
  {
    hide Frame, Concat, SeqOf;
    FrameReads(0, FLAG_DATA, [7]);
    var w1 := Step(w, DeliverEvent(false, Frame(0, FLAG_DATA, [7])));
    assert w1.b.readBuf == map[0 := [7]];
  }

  ghost predicate InOrderUpTo(n: nat) {
    forall events ::
      |Run(events).fromA.written| <= n ==> Run(events).fromA.read <= Concat(Run(events).fromA.written)
  }

  /** Every run of at most `n` writes is read in order exactly when `n` is at most 65535. */
  lemma BoundIsExact(n: nat)
    ensures InOrderUpTo(n) <==> n < U16
  {
    hide Run;
    if n < U16 {
      forall events | |Run(events).fromA.written| <= n
        ensures Run(events).fromA.read <= Concat(Run(events).fromA.written)
      {
        ReliableDelivery(events);
      }
    } else {
      hide Step, Even, Concat, Frame;
      RoundsEven(U16);
      var es := Rounds(U16);
      RepeatedFrame(Run(es));
      RunLast(es, DeliverEvent(false, Frame(0, FLAG_DATA, [7])));
      RunLast(es + [DeliverEvent(false, Frame(0, FLAG_DATA, [7]))], ReadEvent(false, 1));
    }
  }
}
