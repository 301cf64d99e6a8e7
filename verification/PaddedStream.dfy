/**
 A byte stream hidden behind random padding: every write becomes a frame with or without
 padding, decoy frames may stand anywhere, and a burst of decoys goes before the first write.
 The reader strips all of it. Padding bytes and sizes are arbitrary inputs.
 */
module PaddedStream {
  import opened Bytes

  const FLAG_NONE: byte := 0
  const FLAG_PAD: byte := 1
  const FLAG_DECOY: byte := 2
  const FLAG_BURST_END: byte := 3

  // ---------- frames ----------

  datatype Op = WriteOp(payload: bytes, noise: bytes) | DecoyOp(data: bytes) | BurstEndOp

  function FrameOf(op: Op): bytes {
    match op
    case WriteOp(payload, noise) =>
      if noise == [] then [FLAG_NONE] + BE(|payload|, 2) + payload
      else [FLAG_PAD] + BE(|noise|, 2) + noise + BE(|payload|, 2) + payload
    case DecoyOp(data) => [FLAG_DECOY] + BE(|data|, 2) + data
    case BurstEndOp => [FLAG_BURST_END]
  }

  /** One frame off the wire: its payload, empty for decoys, and what follows; `None` when it is cut or unknown. */
  function OneFrame(w: bytes): (r: Option<(bytes, bytes)>)
    ensures r.Some? ==> |r.value.0| + |r.value.1| < |w|
  {
    if w == [] then None
    else if w[0] == FLAG_NONE then Prefixed(w[1..], 2)
    else if w[0] == FLAG_PAD then
      var pad := Prefixed(w[1..], 2);
      if pad.None? then None else Prefixed(pad.value.1, 2)
    else if w[0] == FLAG_DECOY then
      var decoy := Prefixed(w[1..], 2);
      if decoy.None? then None else Some(([], decoy.value.1))
    else if w[0] == FLAG_BURST_END then Some(([], w[1..]))
    else None
  }

  /** Everything a reader can get out of the wire. */
  function Decode(w: bytes): bytes
    decreases |w|
  {
    var f := OneFrame(w);
    if f.None? then [] else f.value.0 + Decode(f.value.1)
  }

  function PayloadOf(op: Op): bytes {
    if op.WriteOp? then op.payload else []
  }

  /** Every length fits its 16-bit field. */
  predicate Fits(op: Op) {
    match op
    case WriteOp(payload, noise) => |payload| < U16 && |noise| < U16
    case DecoyOp(data) => |data| < U16
    case BurstEndOp => true
  }

  lemma PlainReads(payload: bytes, after: bytes)
    requires |payload| < U16
    ensures OneFrame(FrameOf(WriteOp(payload, [])) + after) == Some((payload, after))
  {
    hide BE, Prefixed;
    Widths();
    PrefixedReads(payload, 2, after);
    var w := FrameOf(WriteOp(payload, [])) + after;
    assert w[1..] == BE(|payload|, 2) + payload + after;
  }

  lemma PaddedReads(payload: bytes, noise: bytes, after: bytes)
    requires |payload| < U16 && 0 < |noise| < U16
    ensures OneFrame(FrameOf(WriteOp(payload, noise)) + after) == Some((payload, after))
  {
    hide BE, Prefixed;
    Widths();
    var rest := BE(|payload|, 2) + payload + after;
    PrefixedReads(payload, 2, after);
    PrefixedReads(noise, 2, rest);
    var w := FrameOf(WriteOp(payload, noise)) + after;
    FramesRegroup([FLAG_PAD], BE(|noise|, 2), noise, BE(|payload|, 2), payload, after);
    assert w[1..] == BE(|noise|, 2) + noise + rest;
  }

  lemma FramesRegroup(a: bytes, b: bytes, c: bytes, d: bytes, e: bytes, f: bytes)
    ensures a + b + c + d + e + f == a + (b + c + (d + e + f))
  {
  }

  lemma DecoyReads(data: bytes, after: bytes)
    requires |data| < U16
    ensures OneFrame(FrameOf(DecoyOp(data)) + after) == Some(([], after))
  {
    hide BE, Prefixed;
    Widths();
    PrefixedReads(data, 2, after);
    var w := FrameOf(DecoyOp(data)) + after;
    assert w[1..] == BE(|data|, 2) + data + after;
  }

  lemma FrameReads(op: Op, after: bytes)
    requires Fits(op)
    ensures OneFrame(FrameOf(op) + after) == Some((PayloadOf(op), after))
  {
    match op
    case WriteOp(payload, noise) =>
      if noise == [] { PlainReads(payload, after); } else { PaddedReads(payload, noise, after); }
    case DecoyOp(data) => DecoyReads(data, after);
    case BurstEndOp =>
      assert (FrameOf(op) + after)[1..] == after;
  }

  // ---------- the writer ----------

  /** A burst: decoys one after another, and the end signal. */
  function Burst(decoys: seq<bytes>): bytes {
    DecoyFrames(decoys) + [FLAG_BURST_END]
  }

  function DecoyFrames(decoys: seq<bytes>): bytes {
    if decoys == [] then [] else DecoyFrames(decoys[..|decoys| - 1]) + FrameOf(DecoyOp(decoys[|decoys| - 1]))
  }

  /** What the operations put on the wire, with the burst before the first write. */
  function WireOf(ops: seq<Op>, burst: seq<bytes>, sent: bool): bytes {
    if ops == [] then []
    else
      (if ops[0].WriteOp? && !sent then Burst(burst) else []) + FrameOf(ops[0])
        + WireOf(ops[1..], burst, sent || ops[0].WriteOp?)
  }

  function PayloadsOf(ops: seq<Op>): bytes {
    if ops == [] then [] else PayloadOf(ops[0]) + PayloadsOf(ops[1..])
  }

  lemma DecodeOne(op: Op, after: bytes)
    requires Fits(op)
    ensures Decode(FrameOf(op) + after) == PayloadOf(op) + Decode(after)
  {
    hide OneFrame, FrameOf;
    FrameReads(op, after);
  }

  lemma {:induction false} DecodeDecoys(decoys: seq<bytes>, after: bytes)
    requires forall i :: 0 <= i < |decoys| ==> |decoys[i]| < U16
    ensures Decode(DecoyFrames(decoys) + after) == Decode(after)
  {
    hide Decode, FrameOf;
    if decoys == [] {
      assert [] + after == after;
    } else {
      var front, last := decoys[..|decoys| - 1], decoys[|decoys| - 1];
      assert DecoyFrames(decoys) + after == DecoyFrames(front) + (FrameOf(DecoyOp(last)) + after);
      DecodeDecoys(front, FrameOf(DecoyOp(last)) + after);
      DecodeOne(DecoyOp(last), after);
      assert [] + Decode(after) == Decode(after);
    }
  }

  lemma DecodeBurst(decoys: seq<bytes>, after: bytes)
    requires forall i :: 0 <= i < |decoys| ==> |decoys[i]| < U16
    ensures Decode(Burst(decoys) + after) == Decode(after)
  {
    hide Decode, DecoyFrames;
    assert Burst(decoys) + after == DecoyFrames(decoys) + ([FLAG_BURST_END] + after);
    DecodeDecoys(decoys, [FLAG_BURST_END] + after);
    DecodeOne(BurstEndOp, after);
    assert [] + Decode(after) == Decode(after);
  }

  /** The wire of any operations decodes to exactly the payloads written. */
  lemma {:induction false} WireDecodes(ops: seq<Op>, burst: seq<bytes>, sent: bool)
    requires (forall i :: 0 <= i < |ops| ==> Fits(ops[i])) && forall i :: 0 <= i < |burst| ==> |burst[i]| < U16
    ensures Decode(WireOf(ops, burst, sent)) == PayloadsOf(ops)
  {
    hide Decode, FrameOf, Burst;
    if ops == [] {
      assert Decode([]) == [] by { EmptyWire(); }
    } else {
      var rest := WireOf(ops[1..], burst, sent || ops[0].WriteOp?);
      WireDecodes(ops[1..], burst, sent || ops[0].WriteOp?);
      DecodeOne(ops[0], rest);
      if ops[0].WriteOp? && !sent {
        DecodeBurst(burst, FrameOf(ops[0]) + rest);
        assert WireOf(ops, burst, sent) == Burst(burst) + (FrameOf(ops[0]) + rest);
      } else {
        assert WireOf(ops, burst, sent) == FrameOf(ops[0]) + rest;
      }
    }
  }

  lemma EmptyWire()
    ensures Decode([]) == []
  {
  }

  // ---------- a wire that is cut ----------

  lemma PrefixedCut(b: bytes, n: nat, k: nat)
    requires n <= |b| && Prefixed(b[..n], k).Some?
    ensures Prefixed(b, k) == Some((Prefixed(b[..n], k).value.0, Prefixed(b[..n], k).value.1 + b[n..]))
  {
    var short := b[..n];
    assert short[..k] == b[..k];
    var m := k + Val(b[..k]);
    assert short[k..m] == b[k..m] && b[m..] == short[m..] + b[n..];
  }

  lemma FrameCut(w: bytes, n: nat)
    requires n <= |w| && OneFrame(w[..n]).Some?
    ensures OneFrame(w) == Some((OneFrame(w[..n]).value.0, OneFrame(w[..n]).value.1 + w[n..]))
  {
    hide Prefixed;
    var cut := w[..n];
    assert cut[1..] == w[1..][..n - 1] && w[1..][n - 1..] == w[n..];
    if w[0] == FLAG_NONE {
      PrefixedCut(w[1..], n - 1, 2);
    } else if w[0] == FLAG_PAD {
      PrefixedCut(w[1..], n - 1, 2);
      var inner := Prefixed(cut[1..], 2).value.1;
      var all := inner + w[n..];
      assert all[..|inner|] == inner && all[|inner|..] == w[n..];
      PrefixedCut(all, |inner|, 2);
    } else if w[0] == FLAG_DECOY {
      PrefixedCut(w[1..], n - 1, 2);
    } else {
      assert w[1..] == cut[1..] + w[n..];
    }
  }

  /** A cut wire decodes to a prefix. */
  lemma {:induction false} CutDecodes(w: bytes, n: nat)
    requires n <= |w|
    ensures Decode(w[..n]) <= Decode(w)
    decreases n
  {
    hide OneFrame;
    if OneFrame(w[..n]).Some? {
      FrameCut(w, n);
      var f := OneFrame(w[..n]).value;
      var rest := f.1 + w[n..];
      assert rest[..|f.1|] == f.1;
      CutDecodes(rest, |f.1|);
    }
  }

  // ---------- a burst that is cut ----------

  /** The inner stream took whole frames of the burst only. */
  ghost predicate OnBoundary(decoys: seq<bytes>, c: nat) {
    c == |Burst(decoys)| || exists k :: 0 <= k <= |decoys| && c == |DecoyFrames(decoys[..k])|
  }

  /** Whatever is written behind the first `c` bytes of the burst reads back. */
  ghost predicate ReadsBack(decoys: seq<bytes>, c: nat)
    requires c <= |Burst(decoys)|
  {
    forall ops :: (forall i :: 0 <= i < |ops| ==> Fits(ops[i])) ==>
      Decode(Burst(decoys)[..c] + WireOf(ops, decoys, true)) == PayloadsOf(ops)
  }

  lemma {:induction false} FramesPrefix(decoys: seq<bytes>, k: nat)
    requires k <= |decoys|
    ensures DecoyFrames(decoys[..k]) <= DecoyFrames(decoys)
  {
    hide FrameOf;
    if k == |decoys| {
      assert decoys[..k] == decoys;
    } else {
      FramesPrefix(decoys[..|decoys| - 1], k);
      assert decoys[..|decoys| - 1][..k] == decoys[..k];
    }
  }

  lemma BoundaryDecodes(decoys: seq<bytes>, c: nat, after: bytes)
    requires (forall i :: 0 <= i < |decoys| ==> |decoys[i]| < U16) && OnBoundary(decoys, c) && c <= |Burst(decoys)|
    ensures Decode(Burst(decoys)[..c] + after) == Decode(after)
  {
    hide Decode, DecoyFrames;
    if c == |Burst(decoys)| {
      assert Burst(decoys)[..c] == Burst(decoys);
      DecodeBurst(decoys, after);
    } else {
      var k :| 0 <= k <= |decoys| && c == |DecoyFrames(decoys[..k])|;
      FramesPrefix(decoys, k);
      assert Burst(decoys)[..c] == DecoyFrames(decoys[..k]);
      DecodeDecoys(decoys[..k], after);
    }
  }

  /** Three bytes are too few for a payload. */
  lemma {:induction false} ShortDecodes(w: bytes)
    requires |w| <= 3
    ensures Decode(w) == []
    decreases |w|
  {
    if OneFrame(w).Some? { ShortDecodes(OneFrame(w).value.1); }
  }

  /** The decoy that a cut off a boundary falls into, and where in its frame. */
  lemma {:induction false} CutDecoy(decoys: seq<bytes>, c: nat) returns (k: nat, j: nat)
    requires c < |DecoyFrames(decoys)| && forall k :: 0 <= k <= |decoys| ==> c != |DecoyFrames(decoys[..k])|
    ensures k < |decoys| && 0 < j < |FrameOf(DecoyOp(decoys[k]))|
    ensures DecoyFrames(decoys)[..c] == DecoyFrames(decoys[..k]) + FrameOf(DecoyOp(decoys[k]))[..j]
  {
    hide FrameOf;
    var n := |decoys| - 1;
    var front := decoys[..n];
    assert |DecoyFrames(decoys[..n])| != c;
    if c < |DecoyFrames(front)| {
      forall i | 0 <= i <= |front| ensures c != |DecoyFrames(front[..i])| { assert front[..i] == decoys[..i]; }
      k, j := CutDecoy(front, c);
      assert front[..k] == decoys[..k];
      assert DecoyFrames(decoys)[..c] == DecoyFrames(front)[..c];
    } else {
      k, j := n, c - |DecoyFrames(front)|;
    }
  }

  /** A decoy that is cut swallows the beginning of the next frame. */
  lemma CutDecoySwallows(data: bytes, j: nat)
    requires |data| < U16 && 0 < j < |FrameOf(DecoyOp(data))|
    ensures Decode(FrameOf(DecoyOp(data))[..j] + FrameOf(WriteOp([7], []))) == []
  {
    var frame, next := FrameOf(DecoyOp(data)), FrameOf(WriteOp([7], []));
    var x := frame[..j] + next;
    Widths();
    ValBE(|data|, 2);
    SmallModulo(|data|, U16);
    assert |next| == 4 && next[0] == 0;
    assert frame[1..3] == BE(|data|, 2);
    if j >= 3 { assert x[1..][..2] == frame[1..3]; }
    hide BE, Val, Decode, FrameOf;
    var f := OneFrame(x);
    if f.Some? { ShortDecodes(f.value.1); }
    assert Decode(x) == [] by { DecodesTo(x); }
  }

  lemma DecodesTo(x: bytes)
    requires OneFrame(x).Some? ==> OneFrame(x).value.0 == [] && Decode(OneFrame(x).value.1) == []
    ensures Decode(x) == []
  {
    hide OneFrame;
  }

  /**
   A burst may fail without the write failing. Behind the part that was taken, all that is written
   reads back exactly when that part ends with a whole frame.
   */
  lemma BurstCutExactly(decoys: seq<bytes>, c: nat)
    requires (forall i :: 0 <= i < |decoys| ==> |decoys[i]| < U16) && c <= |Burst(decoys)|
    ensures ReadsBack(decoys, c) <==> OnBoundary(decoys, c)
  {
    if OnBoundary(decoys, c) {
      hide Decode, Burst, OnBoundary, FrameOf;
      forall ops | forall i :: 0 <= i < |ops| ==> Fits(ops[i])
        ensures Decode(Burst(decoys)[..c] + WireOf(ops, decoys, true)) == PayloadsOf(ops)
      {
        BoundaryDecodes(decoys, c, WireOf(ops, decoys, true));
        WireDecodes(ops, decoys, true);
      }
    } else {
      LostBehindCut(decoys, c);
    }
  }

  lemma OneWrite(decoys: seq<bytes>)
    ensures var ops := [WriteOp([7], [])];
            WireOf(ops, decoys, true) == FrameOf(ops[0]) && PayloadsOf(ops) == [7] && Fits(ops[0])
  {
    hide FrameOf, Burst;
    var ops := [WriteOp([7], [])];
    assert ops[1..] == [];
    assert [] + FrameOf(ops[0]) + [] == FrameOf(ops[0]);
  }

  /** Behind a cut decoy the frame of a write decodes to nothing. */
  lemma CutSwallows(decoys: seq<bytes>, c: nat)
    requires (forall i :: 0 <= i < |decoys| ==> |decoys[i]| < U16) && c <= |Burst(decoys)| && !OnBoundary(decoys, c)
    ensures Decode(Burst(decoys)[..c] + FrameOf(WriteOp([7], []))) == []
  {
    hide Decode, DecoyFrames, FrameOf;
    assert decoys[..|decoys|] == decoys;
    var k, j := CutDecoy(decoys, c);
    var head, rest, frame := DecoyFrames(decoys[..k]), FrameOf(DecoyOp(decoys[k]))[..j], FrameOf(WriteOp([7], []));
    assert Burst(decoys)[..c] == head + rest;
    Associates(head, rest, frame);
    DecodeDecoys(decoys[..k], rest + frame);
    CutDecoySwallows(decoys[k], j);
  }

  lemma LostBehindCut(decoys: seq<bytes>, c: nat)
    requires (forall i :: 0 <= i < |decoys| ==> |decoys[i]| < U16) && c <= |Burst(decoys)| && !OnBoundary(decoys, c)
    ensures !ReadsBack(decoys, c)
  {
    hide Decode, Burst, FrameOf, WireOf, PayloadsOf, OnBoundary, Fits;
    var ops := [WriteOp([7], [])];
    OneWrite(decoys);
    CutSwallows(decoys, c);
    assert Decode(Burst(decoys)[..c] + WireOf(ops, decoys, true)) != PayloadsOf(ops);
  }

  // ---------- the reader ----------

  datatype Reader = Reader(readBuf: bytes, input: bytes)

  datatype Found = Payload(data: bytes, rest: bytes) | Failed(rest: bytes)

  /** What is left unread when a frame cannot be read: nothing, or all but the unknown flag. */
  function AfterFailure(w: bytes): bytes {
    if w != [] && w[0] > FLAG_BURST_END then w[1..] else []
  }

  /** The next payload that is not empty. */
  function NextPayload(w: bytes): Found
    decreases |w|
  {
    var f := OneFrame(w);
    if f.None? then Failed(AfterFailure(w))
    else if f.value.0 == [] then NextPayload(f.value.1)
    else Payload(f.value.0, f.value.1)
  }

  function ReadOnce(s: Reader, size: nat): (r: (Reader, Option<bytes>)) {
    if s.readBuf != [] then
      var n := Min(size, |s.readBuf|);
      (s.(readBuf := s.readBuf[n..]), Some(s.readBuf[..n]))
    else
      var found := NextPayload(s.input);
      if found.Failed? then (s.(input := found.rest), None)
      else
        var n := Min(size, |found.data|);
        (Reader(found.data[n..], found.rest), Some(found.data[..n]))
  }

  lemma {:induction false} NextPayloadDecodes(w: bytes)
    ensures match NextPayload(w)
            case Payload(data, rest) => Decode(w) == data + Decode(rest)
            case Failed(_) => Decode(w) == []
    decreases |w|
  {
    hide OneFrame;
    var f := OneFrame(w);
    if f.Some? && f.value.0 == [] {
      NextPayloadDecodes(f.value.1);
      assert [] + Decode(f.value.1) == Decode(f.value.1);
    }
  }

  /** What a reader has still to give. */
  function Remaining(s: Reader): bytes {
    s.readBuf + Decode(s.input)
  }

  /** A read takes its bytes off the front of what remains; it fails only when nothing remains. */
  lemma ReadTakes(s: Reader, size: nat)
    ensures var (t, out) := ReadOnce(s, size);
            if out.Some? then |out.value| <= size && Remaining(s) == out.value + Remaining(t) else Remaining(s) == []
  {
    hide Decode, NextPayload;
    NextPayloadDecodes(s.input);
    var (t, out) := ReadOnce(s, size);
    if s.readBuf != [] {
      assert s.readBuf == out.value + t.readBuf;
      assert out.value + t.readBuf + Decode(s.input) == out.value + (t.readBuf + Decode(s.input));
    } else if out.Some? {
      var data := NextPayload(s.input).data;
      assert data == out.value + t.readBuf;
      assert [] + Decode(s.input) == Decode(s.input);
    } else {
      assert [] + Decode(s.input) == Decode(s.input);
    }
  }

  /** All bytes returned by reads of the given sizes, up to the first that fails. */
  function ReadAll(s: Reader, sizes: seq<nat>): bytes
    decreases |sizes|
  {
    if sizes == [] then []
    else
      var (t, out) := ReadOnce(s, sizes[0]);
      if out.None? then [] else out.value + ReadAll(t, sizes[1..])
  }

  predicate Fails(s: Reader, sizes: seq<nat>)
    decreases |sizes|
  {
    sizes != [] && (ReadOnce(s, sizes[0]).1.None? || Fails(ReadOnce(s, sizes[0]).0, sizes[1..]))
  }

  lemma {:induction false} ReadAllTakes(s: Reader, sizes: seq<nat>)
    ensures ReadAll(s, sizes) <= Remaining(s) && (Fails(s, sizes) ==> ReadAll(s, sizes) == Remaining(s))
    decreases |sizes|
  {
    if sizes != [] {
      hide ReadOnce, Remaining;
      ReadTakes(s, sizes[0]);
      ReadAllTakes(ReadOnce(s, sizes[0]).0, sizes[1..]);
    }
  }

  /**
   Byte-stream transparency: for any writes of at most 65535 bytes, any padding, decoys and
   burst, and any read sizes, the bytes read are a prefix of the bytes written, also when the
   wire is cut after `n` bytes; once a reader of the whole wire finds no more, it has them all.
   */
  lemma Transparent(ops: seq<Op>, burst: seq<bytes>, n: nat, sizes: seq<nat>)
    requires (forall i :: 0 <= i < |ops| ==> Fits(ops[i])) && forall i :: 0 <= i < |burst| ==> |burst[i]| < U16
    requires n <= |WireOf(ops, burst, false)|
    ensures var wire := WireOf(ops, burst, false);
            && ReadAll(Reader([], wire[..n]), sizes) <= PayloadsOf(ops)
            && (Fails(Reader([], wire), sizes) ==> ReadAll(Reader([], wire), sizes) == PayloadsOf(ops))
  {
    hide WireOf, Decode, ReadAll, Fails, PayloadsOf;
    var wire := WireOf(ops, burst, false);
    WireDecodes(ops, burst, false);
    CutDecodes(wire, n);
    ReadAllTakes(Reader([], wire[..n]), sizes);
    ReadAllTakes(Reader([], wire), sizes);
    assert [] + Decode(wire) == Decode(wire) && [] + Decode(wire[..n]) == Decode(wire[..n]);
  }

  // ---------- the bound on a write is exact ----------

  lemma {:induction false} DecodeShorter(w: bytes)
    ensures w != [] ==> |Decode(w)| < |w|
    decreases |w|
  {
    hide OneFrame;
    if OneFrame(w).Some? { DecodeShorter(OneFrame(w).value.1); }
  }

  lemma TruncatedPrefix(p: bytes, n: nat)
    requires |p| >= U16 && n == |p| % U16
    ensures Prefixed(BE(|p|, 2) + p, 2) == Some((p[..n], p[n..]))
  {
    hide BE, Val, Pow256;
    Widths();
    ValBE(|p|, 2);
    var b := BE(|p|, 2) + p;
    assert b[..2] == BE(|p|, 2) && b[2..2 + n] == p[..n] && b[2 + n..] == p[n..];
  }

  /** A single write reads back exactly when it is at most 65535 bytes. */
  lemma WriteBoundIsExact(payload: bytes, noise: bytes)
    requires |noise| < U16
    ensures Decode(FrameOf(WriteOp(payload, noise))) == payload <==> |payload| < U16
  {
    hide Decode, Prefixed, BE, Val, Pow256;
    var op := WriteOp(payload, noise);
    if |payload| < U16 {
      DecodeOne(op, []);
      EmptyWire();
      assert FrameOf(op) + [] == FrameOf(op) && payload + [] == payload;
    } else {
      var n := |payload| % U16;
      TruncatedPrefix(payload, n);
      var w := FrameOf(op);
      if noise == [] {
        assert w[1..] == BE(|payload|, 2) + payload;
      } else {
        Widths();
        PrefixedReads(noise, 2, BE(|payload|, 2) + payload);
        assert w[1..] == BE(|noise|, 2) + noise + (BE(|payload|, 2) + payload);
      }
      assert OneFrame(w) == Some((payload[..n], payload[n..]));
      DecodeStep(w);
      DecodeShorter(payload[n..]);
    }
  }

  lemma DecodeStep(w: bytes)
    requires OneFrame(w).Some?
    ensures Decode(w) == OneFrame(w).value.0 + Decode(OneFrame(w).value.1)
  {
  }

  // ---------- the stream object ----------

  /** The padding length drawn for a write. */
  function PadLength(minPad: nat, maxPad: nat, draw: nat): nat
    requires maxPad > minPad ==> draw < maxPad - minPad
  {
    if maxPad > minPad then minPad + draw else if maxPad > 0 then minPad else 0
  }

  /** Every length from the smallest on can be drawn, but never the largest, unless the range is empty. */
  lemma PadReaches(minPad: nat, maxPad: nat, n: nat)
    ensures (exists draw: nat :: (maxPad > minPad ==> draw < maxPad - minPad) && PadLength(minPad, maxPad, draw) == n)
       <==> if minPad < maxPad then minPad <= n < maxPad else if maxPad == 0 then n == 0 else n == minPad
  {
    if minPad < maxPad {
      if minPad <= n < maxPad { assert PadLength(minPad, maxPad, n - minPad) == n; }
    } else {
      assert PadLength(minPad, maxPad, 0) == if maxPad == 0 then 0 else minPad;
    }
  }

  class Stream {
    const minPad: nat
    const maxPad: nat
    var burstSent: bool
    var readBuf: bytes
    var writeBuf: array<byte>
    var input: bytes
    var output: bytes

    constructor (minPad: nat, maxPad: nat, input: bytes)
      ensures this.minPad == minPad && this.maxPad == maxPad && !burstSent
      ensures fresh(writeBuf) && readBuf == [] && this.input == input && output == []
    {
      this.minPad, this.maxPad := minPad, maxPad;
      burstSent, readBuf, this.input, output := false, [], input, [];
      writeBuf := new byte[0];
    }

    /** The buffer is reused from write to write and grows when it is too small. */
    method Grow(n: nat)
      modifies this`writeBuf
      ensures writeBuf.Length >= n && (writeBuf == old(writeBuf) || fresh(writeBuf))
    {
      if writeBuf.Length < n {
        writeBuf := new byte[n];
      }
    }

    /** The inner stream takes as much as it can, and fails unless that is everything. */
    method Put(buf: bytes, room: nat) returns (ok: bool)
      modifies this`output
      ensures output == old(output) + buf[..Min(room, |buf|)] && ok == (room >= |buf|)
    {
      output := output + buf[..Min(room, |buf|)];
      ok := room >= |buf|;
    }

    /** `None` is the error of the inner stream; a burst that fails is not an error. */
    method Write(p: bytes, draw: nat, noise: bytes, decoys: seq<bytes>, burstRoom: nat, room: nat)
      returns (n: Option<nat>)
      requires maxPad > minPad ==> draw < maxPad - minPad
      requires |noise| == PadLength(minPad, maxPad, draw)
      modifies this`burstSent, this`writeBuf, this`output, writeBuf
      ensures burstSent && (writeBuf == old(writeBuf) || fresh(writeBuf))
      ensures var frame, burst := FrameOf(WriteOp(p, noise)), if old(burstSent) then [] else Burst(decoys);
              && n == (if room >= |frame| then Some(|p|) else None)
              && output == old(output) + burst[..Min(burstRoom, |burst|)] + frame[..Min(room, |frame|)]
    {
      hide FrameOf, Burst;
      if !burstSent {
        burstSent := true;
        var burst := BuildBurst(decoys);
        var sent := Put(burst, burstRoom);
      }
      var padLen := PadLength(minPad, maxPad, draw);
      var ok: bool;
      if padLen == 0 {
        Grow(1 + 2 + |p|);
        FillPlain(writeBuf, p);
        ok := Put(writeBuf[..1 + 2 + |p|], room);
      } else {
        Grow(1 + 2 + padLen + 2 + |p|);
        FillPadded(writeBuf, noise, p);
        ok := Put(writeBuf[..1 + 2 + padLen + 2 + |p|], room);
      }
      return if ok then Some(|p|) else None;
    }

    method WriteDecoy(data: bytes, room: nat) returns (ok: bool)
      modifies this`output
      ensures var frame := FrameOf(DecoyOp(data));
              output == old(output) + frame[..Min(room, |frame|)] && ok == (room >= |frame|)
    {
      hide FrameOf;
      var buf := new byte[1 + 2 + |data|];
      FillDecoy(buf, 0, data);
      assert buf[..] == buf[..1 + 2 + |data|];
      assert buf[..] == FrameOf(DecoyOp(data));
      ok := Put(buf[..], room);
    }

    method WriteBurstEnd(room: nat) returns (ok: bool)
      modifies this`output
      ensures var frame := FrameOf(BurstEndOp);
              output == old(output) + frame[..Min(room, |frame|)] && ok == (room >= |frame|)
    {
      ok := Put([FLAG_BURST_END], room);
    }

    /** Exactly `n` bytes, or nothing; a short input is used up. */
    method ReadFull(n: nat) returns (r: Option<bytes>)
      modifies this`input
      ensures if n <= |old(input)| then r == Some(old(input)[..n]) && input == old(input)[n..]
              else r.None? && input == []
    {
      if n <= |input| {
        r, input := Some(input[..n]), input[n..];
      } else {
        r, input := None, [];
      }
    }

    /** A length of two bytes and that many bytes. */
    method ReadPrefixed() returns (r: Option<bytes>)
      modifies this`input
      ensures var p := Prefixed(old(input), 2);
              if p.Some? then r == Some(p.value.0) && input == p.value.1 else r.None? && input == []
    {
      hide Val;
      ghost var w := input;
      var lenBuf := ReadFull(2);
      if lenBuf.None? {
        return None;
      }
      var n := Val(lenBuf.value);
      r := ReadFull(n);
      if r.Some? { assert w[2..][..n] == w[2..2 + n] && w[2..][n..] == w[2 + n..]; }
    }

    method Read(size: nat) returns (r: Option<bytes>)
      modifies this`readBuf, this`input
      ensures (Reader(readBuf, input), r) == ReadOnce(Reader(old(readBuf), old(input)), size)
    {
      hide Prefixed;
      if |readBuf| > 0 {
        var n := Min(size, |readBuf|);
        r := Some(readBuf[..n]);
        readBuf := readBuf[n..];
        return;
      }
      while true
        invariant readBuf == [] && NextPayload(input) == NextPayload(old(input)) && |input| <= |old(input)|
        decreases |input|
      {
        ghost var w := input;
        var flags := ReadFull(1);
        if flags.None? {
          return None;
        }
        var flag := flags.value[0];
        if flag == FLAG_BURST_END {
          continue;
        } else if flag == FLAG_DECOY {
          var decoy := ReadPrefixed();
          if decoy.None? {
            return None;
          }
          continue;
        } else if flag == FLAG_PAD {
          var pad := ReadPrefixed();
          if pad.None? {
            return None;
          }
        } else if flag != FLAG_NONE {
          return None;
        }
        var payload := ReadPrefixed();
        if payload.None? {
          return None;
        }
        if |payload.value| == 0 {
          continue;
        }
        var n := Min(size, |payload.value|);
        if n < |payload.value| {
          readBuf := payload.value[n..];
        }
        assert readBuf == payload.value[n..];
        return Some(payload.value[..n]);
      }
    }
  }

  method FillPlain(buf: array<byte>, p: bytes)
    requires buf.Length >= 3 + |p|
    modifies buf
    ensures buf[..3 + |p|] == FrameOf(WriteOp(p, []))
  {
    hide BE;
    Append(buf, 0, [FLAG_NONE]);
    Append(buf, 1, BE(|p|, 2));
    Append(buf, 3, p);
  }

  method FillPadded(buf: array<byte>, noise: bytes, p: bytes)
    requires buf.Length >= 5 + |noise| + |p| && noise != []
    modifies buf
    ensures buf[..5 + |noise| + |p|] == FrameOf(WriteOp(p, noise))
  {
    hide BE;
    Append(buf, 0, [FLAG_PAD]);
    Append(buf, 1, BE(|noise|, 2));
    Append(buf, 3, noise);
    var at := 3 + |noise|;
    ghost var header := [FLAG_PAD] + BE(|noise|, 2) + noise;
    assert buf[..at] == header;
    Append(buf, at, BE(|p|, 2));
    Append(buf, at + 2, p);
    assert buf[..at + 2 + |p|] == header + BE(|p|, 2) + p;
  }

  method FillDecoy(buf: array<byte>, offset: nat, data: bytes)
    requires offset + 3 + |data| <= buf.Length
    modifies buf
    ensures buf[..offset + 3 + |data|] == old(buf[..offset]) + FrameOf(DecoyOp(data))
  {
    hide BE;
    ghost var lead := buf[..offset];
    Append(buf, offset, [FLAG_DECOY]);
    Append(buf, offset + 1, BE(|data|, 2));
    Append(buf, offset + 3, data);
    assert buf[..offset + 3 + |data|] == lead + [FLAG_DECOY] + BE(|data|, 2) + data;
    Assemble(lead, [FLAG_DECOY], BE(|data|, 2), data);
  }

  lemma Assemble(a: bytes, b: bytes, c: bytes, d: bytes)
    ensures a + b + c + d == a + (b + c + d)
  {
  }

  /** The burst is laid out in one buffer at a moving offset and sent in one piece. */
  method BuildBurst(decoys: seq<bytes>) returns (r: bytes)
    ensures r == Burst(decoys)
  {
    hide FrameOf;
    var total := 1;
    for i := 0 to |decoys|
      invariant total == 1 + |DecoyFrames(decoys[..i])|
    {
      FrameLength(decoys[i]);
      assert decoys[..i + 1][..i] == decoys[..i];
      total := total + 1 + 2 + |decoys[i]|;
    }
    assert decoys[..|decoys|] == decoys;
    var buf := new byte[total];
    var offset := 0;
    for i := 0 to |decoys|
      invariant 0 <= offset < buf.Length == total && buf[..offset] == DecoyFrames(decoys[..i])
    {
      FrameLength(decoys[i]);
      assert decoys[..i + 1][..i] == decoys[..i];
      FramesGrow(decoys, i + 1);
      FillDecoy(buf, offset, decoys[i]);
      offset := offset + 1 + 2 + |decoys[i]|;
    }
    buf[offset] := FLAG_BURST_END;
    r := buf[..];
  }

  lemma FrameLength(data: bytes)
    ensures |FrameOf(DecoyOp(data))| == 3 + |data|
  {
  }

  lemma {:induction false} FramesGrow(decoys: seq<bytes>, n: nat)
    requires n <= |decoys|
    ensures |DecoyFrames(decoys[..n])| <= |DecoyFrames(decoys)|
  {
    if n == |decoys| {
      assert decoys[..n] == decoys;
    } else {
      var front := decoys[..|decoys| - 1];
      assert front[..n] == decoys[..n];
      FramesGrow(front, n);
    }
  }
}
