/**
 What reliable RTP does with frames that arrive: each is stored while there is room and always
 acknowledged, first copy or retransmission alike, and what was stored is read. Deliveries are
 given; nothing is said about whether the network makes them.
 */
module RtpProgress {
  import opened Bytes
  import opened ReliableRtp
  import Words

  // ---------- one direction ----------

  /** The endpoint that reads what `a`, or else `b`, writes. */
  function ReaderOf(w: World, byA: bool): State {
    if byA then w.b else w.a
  }

  function WireOf(w: World, byA: bool): set<bytes> {
    if byA then w.ab else w.ba
  }

  /** A frame of number `k` with the flag of a first copy, 0, or of a retransmission, 2. */
  predicate CopyOf(frame: bytes, k: nat) {
    |frame| >= 3 && Val(frame[..2]) == k && (frame[2] == 0 || frame[2] == 2)
  }

  /** The event brings the reader a copy of frame `k` that is on the wire. */
  predicate Brings(w: World, e: Event, byA: bool, k: nat) {
    e.DeliverEvent? && e.toA != byA && e.frame in WireOf(w, byA) && CopyOf(e.frame, k)
  }

  /** It does so while fewer than 256 packets wait to be read. */
  predicate BringsWithRoom(w: World, e: Event, byA: bool, k: nat) {
    Brings(w, e, byA, k) && |ReaderOf(w, byA).readBuf| < 256
  }

  /** Somewhere in the run a copy of frame `k` came while there was room. */
  ghost predicate CameThrough(events: seq<Event>, byA: bool, k: nat) {
    exists i :: 0 <= i < |events| && BringsWithRoom(Run(events[..i]), events[i], byA, k)
  }

  /** The acknowledgement of a number: the number, the flag 1, and nothing else. */
  function AckFor(k: nat): bytes {
    BE(k, 2) + [1]
  }

  /** Every copy that arrives, room or not, hands over the acknowledgement of its number. */
  lemma CopyIsAcknowledged(w: World, e: Event, byA: bool, k: nat)
    requires Brings(w, e, byA, k)
    ensures OutOf(Step(w, e), !byA) == OutOf(w, !byA) + multiset{AckFor(k)}
  {
    hide BE, Val;
    assert AckFor(k) + [] == AckFor(k);
  }

  // ---------- what came through stays until it is read ----------

  /** Frame `k` waits to be read, or has been taken. */
  predicate Got(r: State, k: nat) {
    k < r.readSeq || k in r.readBuf
  }

  lemma ReadKeepsGot(r: State, size: nat, k: nat)
    requires Got(r, k) && r.readSeq + 1 < U16
    ensures Got(Read(r, size).0, k) && r.readSeq <= Read(r, size).0.readSeq
  {
  }

  lemma ReceivedKeepsGot(r: State, frame: bytes, k: nat)
    requires Got(r, k) || (CopyOf(frame, k) && |r.readBuf| < 256)
    ensures Got(Received(r, frame).0, k) && Received(r, frame).0.readSeq == r.readSeq
  {
    hide Val, Frame;
  }

  /** The reader never runs ahead of what was written. */
  lemma ReaderBehind(events: seq<Event>, byA: bool)
    requires |HistoryOf(Run(events), byA).written| < U16
    ensures var r, h := ReaderOf(Run(events), byA), HistoryOf(Run(events), byA);
            ReadOk(r, h.written, h.read)
  {
    hide Run, Counted, AcksOk, Frames, ReadOk, UnackedOk, FramesOk;
    RunKeeps(events);
  }

  /** What a step does to what the reader holds and to what it has read. */
  ghost predicate ReaderStep(r: State, e: Event, arrives: bool, taken: bool, t: State, before: bytes, after: bytes) {
    if arrives then e.DeliverEvent? && t == Received(r, e.frame).0 && after == before
    else if taken then
      e.ReadEvent? && var out := Read(r, e.size);
      t == out.0 && after == before + if out.1.Some? then out.1.value else []
    else t.readSeq == r.readSeq && t.readBuf == r.readBuf && t.readPending == r.readPending && after == before
  }

  lemma StepAReader(w: World, e: Event)
    ensures ReaderStep(w.a, e, e.DeliverEvent? && e.frame in w.ba, e.ReadEvent?, StepA(w, e).a, w.fromB.read,
                       StepA(w, e).fromB.read)
    ensures StepA(w, e).b == w.b && StepA(w, e).fromA.read == w.fromA.read
  {
    hide Received, Read;
  }

  lemma ReaderAfter(w: World, e: Event, byA: bool)
    ensures ReaderStep(ReaderOf(w, byA), e,
                       e.DeliverEvent? && e.toA != byA && e.frame in WireOf(w, byA), e.ReadEvent? && e.byA != byA,
                       ReaderOf(Step(w, e), byA), HistoryOf(w, byA).read, HistoryOf(Step(w, e), byA).read)
  {
    hide StepA, Received, Read;
    StepAReader(if ByA(e) then w else Swap(w), e);
  }

  lemma StepKeepsGot(w: World, e: Event, byA: bool, k: nat)
    requires var r, h := ReaderOf(w, byA), HistoryOf(w, byA); ReadOk(r, h.written, h.read) && |h.written| < U16
    requires Got(ReaderOf(w, byA), k) || BringsWithRoom(w, e, byA, k)
    ensures Got(ReaderOf(Step(w, e), byA), k)
  {
    hide Received, CopyOf, Step, Read, Concat;
    var r := ReaderOf(w, byA);
    ReaderAfter(w, e, byA);
    if e.DeliverEvent? && e.toA != byA && e.frame in WireOf(w, byA) {
      ReceivedKeepsGot(r, e.frame, k);
    } else if e.ReadEvent? && e.byA != byA {
      NextIsWritten(r, HistoryOf(w, byA).written, HistoryOf(w, byA).read, e.size, k);
    }
  }

  lemma NextIsWritten(r: State, written: seq<bytes>, read: bytes, size: nat, k: nat)
    requires ReadOk(r, written, read) && |written| < U16 && Got(r, k)
    ensures Got(Read(r, size).0, k)
  {
    hide Concat;
    if r.readPending == [] && r.readSeq in r.readBuf { ReadKeepsGot(r, size, k); }
  }

  /** The writer's history up to an earlier state is shorter. */
  lemma {:induction false} WritesOnlyGrow(events: seq<Event>, byA: bool)
    requires events != []
    ensures |HistoryOf(Run(events[..|events| - 1]), byA).written| <= |HistoryOf(Run(events), byA).written|
  {
    hide Step;
    WritesGrow(Run(events[..|events| - 1]), events[|events| - 1], byA);
  }

  /** What came through was taken or waits to be. */
  lemma {:induction false} CameThroughIsGot(events: seq<Event>, byA: bool, k: nat)
    requires |HistoryOf(Run(events), byA).written| < U16 && CameThrough(events, byA, k)
    ensures Got(ReaderOf(Run(events), byA), k)
  {
    hide Step, BringsWithRoom, ReadOk;
    var last := |events| - 1;
    var front, e := events[..last], events[last];
    WritesOnlyGrow(events, byA);
    ReaderBehind(front, byA);
    var i :| 0 <= i < |events| && BringsWithRoom(Run(events[..i]), events[i], byA, k);
    if i < last {
      assert front[..i] == events[..i] && front[i] == events[i];
      CameThroughIsGot(front, byA, k);
    }
    StepKeepsGot(Run(front), e, byA, k);
  }

  // ---------- enough reads ----------

  /** The reads of at least one byte that the reader makes. */
  function ReadsIn(events: seq<Event>, byA: bool): nat {
    if events == [] then 0
    else
      var e := events[|events| - 1];
      ReadsIn(events[..|events| - 1], byA) + if e.ReadEvent? && e.byA != byA && e.size > 0 then 1 else 0
  }

  /** How many reads may still be needed until `total` bytes, in `n` packets, were read. */
  function Needed(r: State, read: bytes, n: nat, total: nat): nat {
    if |read| >= total then 0
    else total - |read| + if r.readSeq < n then n - r.readSeq else 0
  }

  lemma {:induction false} ConcatGrows(parts: seq<bytes>, m: nat, n: nat)
    requires m <= n <= |parts|
    ensures Concat(parts[..m]) <= Concat(parts[..n])
  {
    hide Concat;
    assert parts[..n][..m] == parts[..m];
    ConcatPrefix(parts[..n], m);
  }

  /** A read of at least one byte brings the reader nearer, as long as the next packet is there. */
  lemma ReadHelps(r: State, written: seq<bytes>, read: bytes, n: nat, size: nat)
    requires ReadOk(r, written, read) && n <= |written| < U16 && size > 0
    requires forall k: nat :: k < n ==> Got(r, k)
    ensures var (t, out), total := Read(r, size), |Concat(written[..n])|;
            var more := read + if out.Some? then out.value else [];
            Needed(r, read, n, total) > 0 ==> Needed(t, more, n, total) < Needed(r, read, n, total)
  {
    hide Concat;
    if r.readSeq >= n { ConcatGrows(written, n, r.readSeq); } else { ConcatGrows(written, r.readSeq, n); }
    if r.readSeq < n { assert Got(r, r.readSeq); }
  }

  /** Nothing that happens takes the reader further away. */
  lemma StepNeedsNoMore(w: World, e: Event, byA: bool, n: nat, total: nat)
    requires var r, h := ReaderOf(w, byA), HistoryOf(w, byA); ReadOk(r, h.written, h.read) && |h.written| < U16
    ensures Needed(ReaderOf(Step(w, e), byA), HistoryOf(Step(w, e), byA).read, n, total)
         <= Needed(ReaderOf(w, byA), HistoryOf(w, byA).read, n, total)
  {
    hide Received, Step, Read, ReadOk, Needed;
    var r, h := ReaderOf(w, byA), HistoryOf(w, byA);
    ReaderAfter(w, e, byA);
    if e.DeliverEvent? && e.toA != byA && e.frame in WireOf(w, byA) {
      ReceivedSame(r, e.frame);
      SameNeed(r, Received(r, e.frame).0, h.read, n, total);
    } else if e.ReadEvent? && e.byA != byA {
      ReadNeedsNoMore(r, h.written, h.read, e.size, n, total);
    } else {
      SameNeed(r, ReaderOf(Step(w, e), byA), h.read, n, total);
    }
  }

  lemma ReceivedSame(r: State, frame: bytes)
    ensures Received(r, frame).0.readSeq == r.readSeq
  {
    hide Val, Frame;
  }

  lemma SameNeed(r: State, t: State, read: bytes, n: nat, total: nat)
    requires t.readSeq == r.readSeq
    ensures Needed(t, read, n, total) == Needed(r, read, n, total)
  {
  }

  lemma ReadNeedsNoMore(r: State, written: seq<bytes>, read: bytes, size: nat, n: nat, total: nat)
    requires ReadOk(r, written, read) && |written| < U16
    ensures var (t, out) := Read(r, size);
            Needed(t, read + if out.Some? then out.value else [], n, total) <= Needed(r, read, n, total)
  {
    hide Concat;
  }

  lemma ReadStepHelps(w: World, e: Event, byA: bool, n: nat)
    requires var r, h := ReaderOf(w, byA), HistoryOf(w, byA); ReadOk(r, h.written, h.read) && n <= |h.written| < U16
    requires e.ReadEvent? && e.byA != byA && e.size > 0
    requires forall k: nat :: k < n ==> Got(ReaderOf(w, byA), k)
    ensures var total, before := |Concat(HistoryOf(w, byA).written[..n])|, HistoryOf(w, byA).read;
            Needed(ReaderOf(w, byA), before, n, total) > 0 ==>
              Needed(ReaderOf(Step(w, e), byA), HistoryOf(Step(w, e), byA).read, n, total)
                < Needed(ReaderOf(w, byA), before, n, total)
  {
    hide ReadOk, Needed, Read, Concat, Got, Step;
    ReaderAfter(w, e, byA);
    ReadHelps(ReaderOf(w, byA), HistoryOf(w, byA).written, HistoryOf(w, byA).read, n, e.size);
  }

  /** What was written stays, and more may be written. */
  lemma WrittenGrows(w: World, e: Event, byA: bool)
    ensures HistoryOf(w, byA).written <= HistoryOf(Step(w, e), byA).written
  {
    hide Received, Ticked, Read, Written;
  }

  lemma {:induction false} WrittenGrowsOn(events: seq<Event>, more: seq<Event>, byA: bool)
    ensures HistoryOf(Run(events), byA).written <= HistoryOf(Run(events + more), byA).written
  {
    hide Run, Step, HistoryOf;
    if more == [] {
      assert events + more == events;
    } else {
      var last := |more| - 1;
      OneMoreEvent(events, more);
      WrittenGrowsOn(events, more[..last], byA);
      WrittenGrows(Run(events + more[..last]), more[last], byA);
    }
  }

  /** Each further read pays for one that was needed. */
  lemma {:induction false} ReadsPay(events: seq<Event>, more: seq<Event>, byA: bool, n: nat)
    requires |HistoryOf(Run(events + more), byA).written| < U16 && n <= |HistoryOf(Run(events), byA).written|
    requires forall k: nat :: k < n ==> CameThrough(events, byA, k)
    ensures var w, v := Run(events), Run(events + more);
            var total := |Concat(HistoryOf(w, byA).written[..n])|;
            && (forall k: nat :: k < n ==> Got(ReaderOf(v, byA), k))
            && HistoryOf(w, byA).written <= HistoryOf(v, byA).written
            && var left := Needed(ReaderOf(v, byA), HistoryOf(v, byA).read, n, total);
               left == 0 || left + ReadsIn(more, byA) <= Needed(ReaderOf(w, byA), HistoryOf(w, byA).read, n, total)
    decreases |more|, 1
  {
    hide Run, Step, HistoryOf, ReaderOf, CameThrough, Got, Needed, ReadOk, Concat;
    WrittenGrowsOn(events, more, byA);
    if more == [] {
      assert events + more == events;
      forall k: nat | k < n ensures Got(ReaderOf(Run(events), byA), k) { CameThroughIsGot(events, byA, k); }
    } else {
      OnePays(events, more, byA, n);
    }
  }

  lemma {:induction false} OnePays(events: seq<Event>, more: seq<Event>, byA: bool, n: nat)
    requires |HistoryOf(Run(events + more), byA).written| < U16 && n <= |HistoryOf(Run(events), byA).written|
    requires (forall k: nat :: k < n ==> CameThrough(events, byA, k)) && more != []
    ensures var w, v := Run(events), Run(events + more);
            var total := |Concat(HistoryOf(w, byA).written[..n])|;
            && (forall k: nat :: k < n ==> Got(ReaderOf(v, byA), k))
            && var left := Needed(ReaderOf(v, byA), HistoryOf(v, byA).read, n, total);
               left == 0 || left + ReadsIn(more, byA) <= Needed(ReaderOf(w, byA), HistoryOf(w, byA).read, n, total)
    decreases |more|, 0
  {
    hide Run, Step, HistoryOf, ReaderOf, CameThrough, Got, Needed, ReadOk, Concat;
    var last := |more| - 1;
    var front, e := more[..last], more[last];
    var w, u := Run(events), Run(events + front);
    OneMoreEvent(events, more);
    WritesGrow(u, e, byA);
    WrittenGrowsOn(events, front, byA);
    ReadsPay(events, front, byA, n);
    ReaderBehind(events + front, byA);
    var h, g := HistoryOf(w, byA), HistoryOf(u, byA);
    assert g.written[..n] == h.written[..n];
    forall k: nat | k < n ensures Got(ReaderOf(Step(u, e), byA), k) { StepKeepsGot(u, e, byA, k); }
    StepNeedsNoMore(u, e, byA, n, |Concat(h.written[..n])|);
    if e.ReadEvent? && e.byA != byA && e.size > 0 { ReadStepHelps(u, e, byA, n); }
  }

  /**
   In every run of at most 65535 writes: if of each of the first `n` frames some copy, first or
   retransmitted, was delivered while fewer than 256 packets were buffered, then any continuation
   with enough reads, whatever else happens in it, has read the first `n` payloads in order.
   */
  lemma {:induction false} DeliveredIsRead(events: seq<Event>, more: seq<Event>, byA: bool, n: nat)
    requires |HistoryOf(Run(events + more), byA).written| < U16 && n <= |HistoryOf(Run(events), byA).written|
    requires forall k: nat :: k < n ==> CameThrough(events, byA, k)
    requires ReadsIn(more, byA) >= |Concat(HistoryOf(Run(events), byA).written[..n])| + n
    ensures Concat(HistoryOf(Run(events), byA).written[..n]) <= HistoryOf(Run(events + more), byA).read
  {
    hide Run, HistoryOf, ReaderOf, CameThrough, Got, ReadsIn, Concat;
    ReadsPay(events, more, byA, n);
    ReliableFor(events + more, byA);
    var h, g := HistoryOf(Run(events), byA), HistoryOf(Run(events + more), byA);
    assert g.written[..n] == h.written[..n];
    ConcatPrefix(g.written, n);
    PrefixesOf(Concat(h.written[..n]), g.read, Concat(g.written));
  }

  lemma ReliableFor(events: seq<Event>, byA: bool)
    requires |HistoryOf(Run(events), byA).written| < U16
    ensures HistoryOf(Run(events), byA).read <= Concat(HistoryOf(Run(events), byA).written)
  {
    hide Run, Concat;
    ReliableDelivery(events);
  }

  lemma PrefixesOf(a: bytes, b: bytes, all: bytes)
    requires a <= all && b <= all && |a| <= |b|
    ensures a <= b
  {
  }

  // ---------- the timer ----------

  function SenderOf(w: World, byA: bool): State {
    if byA then w.a else w.b
  }

  /** The wait before the next copy: 100 milliseconds, doubled with each copy. */
  function Wait(retries: nat): nat {
    100 * Words.Pow2(retries)
  }

  lemma {:induction false} ShiftIsPow2(n: nat)
    ensures Shift(n) == Words.Pow2(n)
  {
    if n > 0 { ShiftIsPow2(n - 1); }
  }

  /** The time of the write that took number `k`. */
  function WrittenAt(events: seq<Event>, byA: bool, k: nat): nat {
    if events == [] then 0
    else
      var front, e := events[..|events| - 1], events[|events| - 1];
      if e.WriteEvent? && e.byA == byA && |HistoryOf(Run(front), byA).written| == k then e.now
      else WrittenAt(front, byA, k)
  }

  /** The latest copy of a frame was handed over no earlier than all the waits together after the write. */
  ghost predicate Spaced(unacked: map<nat, Unacked>, at: nat -> nat) {
    forall k :: k in unacked ==> unacked[k].sentAt >= at(k) + Wait(unacked[k].retries) - 100
  }

  lemma TickSpaced(s: State, now: nat, at: nat -> nat)
    requires Spaced(s.unacked, at)
    ensures Spaced(Ticked(s, now).0.unacked, at)
  {
    hide AgainFrame;
    forall k | k in Ticked(s, now).0.unacked
      ensures var u := Ticked(s, now).0.unacked[k]; u.sentAt >= at(k) + Wait(u.retries) - 100
    {
      ShiftIsPow2(s.unacked[k].retries);
    }
  }

  lemma SenderUnchanged(w: World, e: Event, byA: bool)
    requires !(e.WriteEvent? && e.byA == byA) && !(e.TickEvent? && e.byA == byA)
    ensures SenderOf(Step(w, e), byA).unacked.Keys <= SenderOf(w, byA).unacked.Keys
    ensures forall k :: k in SenderOf(Step(w, e), byA).unacked ==>
              SenderOf(Step(w, e), byA).unacked[k] == SenderOf(w, byA).unacked[k]
  {
    hide Frame, SeqOf, Ticked;
  }

  lemma SenderTicks(w: World, e: Event, byA: bool)
    requires e.TickEvent? && e.byA == byA
    ensures SenderOf(Step(w, e), byA) == Ticked(SenderOf(w, byA), e.now).0
  {
    hide Ticked;
  }

  lemma SenderWrites(w: World, e: Event, byA: bool)
    requires e.WriteEvent? && e.byA == byA
    ensures SenderOf(Step(w, e), byA) == Written(SenderOf(w, byA), e.payload, e.now).0
    ensures HistoryOf(Step(w, e), byA).written == HistoryOf(w, byA).written + [e.payload]
  {
    hide Written;
  }

  /** In every run copy number `r` of a frame is handed over at least 100 * (2^r - 1) milliseconds after its write. */
  lemma {:induction false} CopiesAreSpaced(events: seq<Event>, byA: bool)
    requires |HistoryOf(Run(events), byA).written| < U16
    ensures Spaced(SenderOf(Run(events), byA).unacked, k => WrittenAt(events, byA, k))
  {
    hide Step, Wait;
    if events != [] {
      var front, e := events[..|events| - 1], events[|events| - 1];
      var w, s := Run(front), SenderOf(Run(front), byA);
      WritesOnlyGrow(events, byA);
      CopiesAreSpaced(front, byA);
      NextNumber(front, byA);
      if e.WriteEvent? && e.byA == byA {
        SenderWrites(w, e, byA);
        OnlyNumber(front, e, byA);
        assert Wait(0) == 100 by { WaitZero(); }
      } else {
        assert forall k :: WrittenAt(events, byA, k) == WrittenAt(front, byA, k);
        if e.TickEvent? && e.byA == byA {
          SenderTicks(w, e, byA);
          TickSpaced(s, e.now, k => WrittenAt(front, byA, k));
        } else {
          SenderUnchanged(w, e, byA);
        }
      }
    }
  }

  lemma WaitZero()
    ensures Wait(0) == 100
  {
  }

  lemma NextNumber(events: seq<Event>, byA: bool)
    requires |HistoryOf(Run(events), byA).written| < U16
    ensures SenderOf(Run(events), byA).writeSeq == |HistoryOf(Run(events), byA).written|
  {
    hide Run, Counted, AcksOk, Frames, ReadOk, UnackedOk, FramesOk;
    RunKeeps(events);
  }

  lemma {:induction false} OnlyNumber(front: seq<Event>, e: Event, byA: bool)
    requires e.WriteEvent? && e.byA == byA
    ensures var n := |HistoryOf(Run(front), byA).written|;
            forall k :: WrittenAt(front + [e], byA, k) == if k == n then e.now else WrittenAt(front, byA, k)
  {
    hide Run;
    assert (front + [e])[..|front|] == front;
  }

  /** Ticks of one endpoint, one after another. */
  function TickAll(s: State, times: seq<nat>): State {
    if times == [] then s else Ticked(TickAll(s, times[..|times| - 1]), times[|times| - 1]).0
  }

  /** Each time is later than the one before, the first than `from`, by more than the wait then due. */
  ghost predicate Late(from: nat, times: seq<nat>) {
    forall i :: 0 <= i < |times| ==> times[i] > LastTime(from, times[..i]) + Wait(i)
  }

  function LastTime(from: nat, times: seq<nat>): nat {
    if times == [] then from else times[|times| - 1]
  }

  lemma LateFront(from: nat, times: seq<nat>, n: nat)
    requires Late(from, times) && n <= |times|
    ensures Late(from, times[..n])
  {
    hide Wait, LastTime;
    assert forall i :: 0 <= i < n ==> times[..n][..i] == times[..i];
  }

  /** The tick hands over another copy of frame `k`, flagged 2. */
  predicate HandsOver(s: State, now: nat, k: nat, payload: bytes) {
    BE(k, 2) + [2] + payload in Ticked(s, now).1
  }

  /** One tick of a frame that waits: a copy when it is due, and no more after the tenth. */
  lemma OneTick(s: State, now: nat, k: nat, payload: bytes)
    requires k in s.unacked && s.unacked[k].frame == Frame(k, FLAG_DATA, payload)
    ensures var u, t := s.unacked[k], Ticked(s, now).0.unacked;
            var due := now > u.sentAt + Wait(u.retries);
            && (k in t <==> !due || u.retries < 10)
            && (due && u.retries < 10 ==> t[k] == Unacked(u.frame, now, u.retries + 1) && HandsOver(s, now, k, payload))
            && (!due ==> t[k] == u)
  {
    hide Frame, AgainFrame, Wait;
    ShiftIsPow2(s.unacked[k].retries);
    AgainFrameIs(k, payload);
    WaitIs(s.unacked[k].retries);
    FrameIs(k, payload);
    if Resent(s.unacked[k], now) { assert AgainFrame(s.unacked[k].frame) in Ticked(s, now).1; }
  }

  lemma WaitIs(retries: nat)
    ensures Wait(retries) == RTO_INIT * Words.Pow2(retries)
  {
  }

  lemma FrameIs(k: nat, payload: bytes)
    ensures Frame(k, FLAG_RETRANSMIT, payload) == BE(k, 2) + [2] + payload
  {
  }

  /**
   A frame that is never acknowledged, under ticks that are late enough, is handed over again at
   each of the first ten and given up at the eleventh.
   */
  lemma {:induction false} TenCopies(s: State, times: seq<nat>, k: nat, payload: bytes)
    requires k in s.unacked && s.unacked[k].frame == Frame(k, FLAG_DATA, payload) && s.unacked[k].retries == 0
    requires |times| <= 10 && Late(s.unacked[k].sentAt, times)
    ensures var t := TickAll(s, times).unacked;
            k in t && t[k] == Unacked(Frame(k, FLAG_DATA, payload), LastTime(s.unacked[k].sentAt, times), |times|)
    ensures forall i :: 0 <= i < |times| ==> HandsOver(TickAll(s, times[..i]), times[i], k, payload)
  {
    hide Frame, Ticked, HandsOver, Wait;
    if times != [] {
      var last := |times| - 1;
      var front := times[..last];
      LateFront(s.unacked[k].sentAt, times, last);
      TenCopies(s, front, k, payload);
      OneTick(TickAll(s, front), times[last], k, payload);
      forall i | 0 <= i < |times| ensures HandsOver(TickAll(s, times[..i]), times[i], k, payload) {
        if i < last {
          assert front[..i] == times[..i] && front[i] == times[i];
        } else {
          assert times[..i] == front;
        }
      }
    }
  }

  lemma {:induction false} GivenUp(s: State, times: seq<nat>, k: nat, payload: bytes)
    requires k in s.unacked && s.unacked[k].frame == Frame(k, FLAG_DATA, payload) && s.unacked[k].retries == 0
    requires |times| == 11 && Late(s.unacked[k].sentAt, times)
    ensures k !in TickAll(s, times).unacked
  {
    hide Frame, Ticked, HandsOver, Wait;
    LateFront(s.unacked[k].sentAt, times, 10);
    TenCopies(s, times[..10], k, payload);
    OneTick(TickAll(s, times[..10]), times[10], k, payload);
  }
}
