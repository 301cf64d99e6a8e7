/**
 Cutting handshake messages into fragments, and the round trip through the fragment buffer:
 whatever the order, the duplicates and the losses, a message comes out exactly when every one
 of its fragments is among those the buffer had room for, and then it is the unfragmented message.
 */
module Fragmentation {
  import opened Bytes
  import opened RecordLayer
  import opened FragmentBuffer

  /** A handshake message: its type, its message sequence number and its body. */
  datatype Message = Message(typ: byte, seqNum: nat, body: bytes)

  predicate Sendable(m: Message) {
    m.seqNum < U16 && |m.body| < U24
  }

  // ---------- splitting ----------

  function Pieces(b: bytes, n: nat): (r: seq<bytes>)
    requires n > 0
    decreases |b|
  {
    if b == [] then [] else [b[..Min(n, |b|)]] + Pieces(b[Min(n, |b|)..], n)
  }

  lemma {:induction false} PiecesConcat(b: bytes, n: nat)
    requires n > 0
    ensures Concat(Pieces(b, n)) == b
    ensures forall i :: 0 <= i < |Pieces(b, n)| ==> 0 < |Pieces(b, n)[i]| <= n
    decreases |b|
  {
    if b != [] {
      var k := Min(n, |b|);
      PiecesConcat(b[k..], n);
      assert Pieces(b, n)[1..] == Pieces(b[k..], n);
      assert b[..k] + b[k..] == b;
    }
  }

  method SplitBytes(b: bytes, splitLen: nat) returns (split: seq<bytes>)
    requires splitLen > 0
    ensures split == Pieces(b, splitLen)
  {
    split := [];
    var i := 0;
    assert b[0..] == b;
    while i < |b|
      invariant 0 <= i
      invariant split + Pieces(b[Min(i, |b|)..], splitLen) == Pieces(b, splitLen)
      decreases |b| - i
    {
      var j := i + splitLen;
      if j > |b| {
        j := |b|;
      }
      NextPiece(b, i, splitLen, split);
      split := split + [b[i..j]];
      i := i + splitLen;
    }
  }

  lemma NextPiece(b: bytes, i: nat, n: nat, done: seq<bytes>)
    requires n > 0 && i < |b|
    ensures var j := Min(i + n, |b|);
            done + Pieces(b[i..], n) == done + [b[i..j]] + Pieces(b[j..], n)
  {
    var j, tail := Min(i + n, |b|), b[i..];
    assert tail[..j - i] == b[i..j] && tail[j - i..] == b[j..];
    assert done + ([b[i..j]] + Pieces(b[j..], n)) == done + [b[i..j]] + Pieces(b[j..], n);
  }

  // ---------- fragments ----------

  function PieceHeader(m: Message, offset: nat, length: nat): Header {
    Header(m.typ, |m.body|, m.seqNum, offset, length)
  }

  /** The fragment of `m` that starts at `offset` when pieces have `mtu` bytes. */
  function FragmentAt(m: Message, mtu: nat, offset: nat): bytes
    requires offset <= |m.body|
  {
    var end := Min(offset + mtu, |m.body|);
    EncodeHeader(PieceHeader(m, offset, end - offset)) + m.body[offset..end]
  }

  function FragmentsFrom(m: Message, mtu: nat, offset: nat): (r: seq<bytes>)
    requires mtu > 0
    decreases |m.body| - offset
  {
    if offset >= |m.body| then [] else [FragmentAt(m, mtu, offset)] + FragmentsFrom(m, mtu, offset + mtu)
  }

  /** All fragments of a message; an empty message still has one, empty, fragment. */
  function Fragments(m: Message, mtu: nat): (r: seq<bytes>)
    requires mtu > 0
    ensures r != []
  {
    if m.body == [] then [FragmentAt(m, mtu, 0)] else FragmentsFrom(m, mtu, 0)
  }

  /** The offsets at which fragments start. */
  predicate IsCut(m: Message, mtu: nat, offset: nat)
    requires mtu > 0
  {
    offset == 0 || (mtu <= offset < |m.body| && IsCut(m, mtu, offset - mtu))
  }

  method FragmentHandshake(m: Message, mtu: nat) returns (fragmented: seq<bytes>)
    requires mtu > 0
    ensures fragmented == Fragments(m, mtu)
  {
    fragmented := [];
    var contentFragments := SplitBytes(m.body, mtu);
    if |contentFragments| == 0 {
      contentFragments := [[]];
    }
    var offset: nat := 0;
    assert m.body[0..] == m.body;
    for k := 0 to |contentFragments|
      invariant offset <= |m.body|
      invariant Remaining(m, mtu, offset, contentFragments, k)
      invariant fragmented + FragmentsLeft(m, mtu, offset, k) == Fragments(m, mtu)
    {
      var piece := contentFragments[k];
      PieceTaken(m, mtu, offset, contentFragments, k);
      NextFragment(m, mtu, offset, k, fragmented);
      var h := Header(m.typ, |m.body|, m.seqNum, offset, |piece|);
      offset := offset + |piece|;
      fragmented := fragmented + [EncodeHeader(h) + piece];
    }
  }

  ghost predicate Remaining(m: Message, mtu: nat, offset: nat, parts: seq<bytes>, k: nat)
    requires mtu > 0 && offset <= |m.body| && k <= |parts|
  {
    if m.body == [] then parts == [[]] else parts[k..] == Pieces(m.body[offset..], mtu)
  }

  function FragmentsLeft(m: Message, mtu: nat, offset: nat, k: nat): seq<bytes>
    requires mtu > 0
  {
    if m.body == [] then (if k == 0 then [FragmentAt(m, mtu, 0)] else []) else FragmentsFrom(m, mtu, offset)
  }

  lemma PieceTaken(m: Message, mtu: nat, offset: nat, parts: seq<bytes>, k: nat)
    requires mtu > 0 && offset <= |m.body| && k < |parts| && Remaining(m, mtu, offset, parts, k)
    ensures m.body == [] || offset < |m.body|
    ensures parts[k] == m.body[offset..Min(offset + mtu, |m.body|)]
    ensures Remaining(m, mtu, Min(offset + mtu, |m.body|), parts, k + 1)
  {
    if m.body != [] {
      var rest := m.body[offset..];
      var n := Min(mtu, |rest|);
      assert parts[k..][0] == parts[k] && parts[k..][1..] == parts[k + 1..];
      assert rest[..n] == m.body[offset..offset + n] && rest[n..] == m.body[offset + n..];
    }
  }

  lemma NextFragment(m: Message, mtu: nat, offset: nat, k: nat, done: seq<bytes>)
    requires mtu > 0 && offset <= |m.body| && (m.body == [] ==> k == 0) && (m.body != [] ==> offset < |m.body|)
    ensures done + FragmentsLeft(m, mtu, offset, k) ==
            done + [FragmentAt(m, mtu, offset)] + FragmentsLeft(m, mtu, Min(offset + mtu, |m.body|), k + 1)
  {
    if m.body == [] {
      assert done + [FragmentAt(m, mtu, 0)] + [] == done + [FragmentAt(m, mtu, 0)];
    } else {
      assert FragmentsFrom(m, mtu, |m.body|) == [];
      assert done + ([FragmentAt(m, mtu, offset)] + FragmentsFrom(m, mtu, offset + mtu))
          == done + [FragmentAt(m, mtu, offset)] + FragmentsFrom(m, mtu, offset + mtu);
    }
  }

  /** The list holds exactly the fragments that start at the cut offsets. */
  lemma {:induction false} FragmentsFromAt(m: Message, mtu: nat, start: nat, fragment: bytes)
    requires mtu > 0 && IsCut(m, mtu, start) && start < |m.body|
    ensures fragment in FragmentsFrom(m, mtu, start) ==>
              exists o :: start <= o < |m.body| && IsCut(m, mtu, o) && fragment == FragmentAt(m, mtu, o)
    decreases |m.body| - start
  {
    var here, rest := FragmentAt(m, mtu, start), FragmentsFrom(m, mtu, start + mtu);
    if fragment in FragmentsFrom(m, mtu, start) {
      if fragment == here {
        assert IsCut(m, mtu, start);
      } else {
        assert fragment in rest;
        if start + mtu < |m.body| { FragmentsFromAt(m, mtu, start + mtu, fragment); }
      }
    }
  }

  // ---------- what the buffer stores ----------

  /** A stored fragment that agrees with the fragment of `m` at its own offset. */
  ghost predicate FragmentOf(f: Fragment, m: Message, mtu: nat, epoch: nat)
    requires mtu > 0
  {
    && f.record.epoch == epoch
    && f.header.fragOffset <= |m.body| && (m.body != [] ==> f.header.fragOffset < |m.body|)
    && IsCut(m, mtu, f.header.fragOffset)
    && f.header == PieceHeader(m, f.header.fragOffset, Min(mtu, |m.body| - f.header.fragOffset))
    && f.data == m.body[f.header.fragOffset..f.header.fragOffset + f.header.fragLength]
  }

  ghost predicate AllOf(frags: seq<Fragment>, m: Message, mtu: nat, epoch: nat)
    requires mtu > 0
  {
    forall f :: f in frags ==> FragmentOf(f, m, mtu, epoch)
  }

  predicate Holds(frags: seq<Fragment>, offset: nat) {
    exists f :: f in frags && f.header.fragOffset == offset
  }

  /** Every fragment of the message is there. */
  ghost predicate Complete(frags: seq<Fragment>, m: Message, mtu: nat)
    requires mtu > 0
  {
    forall o :: IsCut(m, mtu, o) ==> Holds(frags, o)
  }

  ghost predicate CompleteFrom(frags: seq<Fragment>, m: Message, mtu: nat, offset: nat)
    requires mtu > 0
  {
    forall o :: offset <= o && IsCut(m, mtu, o) ==> Holds(frags, o)
  }

  lemma CompleteFromNext(frags: seq<Fragment>, m: Message, mtu: nat, offset: nat)
    requires mtu > 0 && IsCut(m, mtu, offset)
    ensures CompleteFrom(frags, m, mtu, offset) <==> Holds(frags, offset) && CompleteFrom(frags, m, mtu, offset + mtu)
  {
    forall o | offset <= o && IsCut(m, mtu, o) ensures o == offset || offset + mtu <= o {
      CutsApart(m, mtu, offset, o);
    }
  }

  /** A fragment links on to the next cut, unless it is the last. */
  lemma LinkOfFragment(f: Fragment, m: Message, mtu: nat, epoch: nat)
    requires mtu > 0 && Sendable(m) && FragmentOf(f, m, mtu, epoch)
    ensures HeaderFits(f.header) && f.header.fragOffset <= |m.body|
    ensures var o := f.header.fragOffset;
            var next := o + mtu;
            if IsLink(f.header)
            then FragmentEnd(f.header) == next < |m.body| && IsCut(m, mtu, next) && f.data == m.body[o..next]
            else next >= |m.body| && f.data == m.body[o..]
  {
  }

  lemma {:induction false} ChainOfFragments(frags: seq<Fragment>, m: Message, mtu: nat, epoch: nat, offset: nat)
    requires mtu > 0 && Sendable(m) && AllOf(frags, m, mtu, epoch)
    requires IsCut(m, mtu, offset)
    ensures forall f :: f in frags ==> HeaderFits(f.header)
    ensures Chain(frags, offset).Some? ==> offset <= |m.body| && Chain(frags, offset).value == m.body[offset..]
    ensures Chain(frags, offset).Some? <==> CompleteFrom(frags, m, mtu, offset)
    decreases |m.body| - offset
  {
    hide FragmentOf, IsCut, Sendable, CompleteFrom;
    forall f | f in frags ensures HeaderFits(f.header) { LinkOfFragment(f, m, mtu, epoch); }
    CompleteFromNext(frags, m, mtu, offset);
    var first := First(frags, offset);
    if first.None? {
      assert !Holds(frags, offset);
    } else {
      var next := offset + mtu;
      LinkOfFragment(first.value, m, mtu, epoch);
      if IsLink(first.value.header) {
        ChainOfFragments(frags, m, mtu, epoch, next);
        assert m.body[offset..next] + m.body[next..] == m.body[offset..];
      } else {
        NoCutBeyond(frags, m, mtu, next);
      }
    }
  }

  lemma NoCutBeyond(frags: seq<Fragment>, m: Message, mtu: nat, offset: nat)
    requires 0 < mtu <= offset && offset >= |m.body|
    ensures CompleteFrom(frags, m, mtu, offset)
  {
  }

  /** Distinct cuts are at least a piece apart. */
  lemma {:induction false} CutsApart(m: Message, mtu: nat, a: nat, b: nat)
    requires mtu > 0 && IsCut(m, mtu, a) && IsCut(m, mtu, b) && a <= b
    ensures a == b || a + mtu <= b
    decreases b
  {
    if a < mtu {
      assert a == 0;
    } else {
      CutsApart(m, mtu, a - mtu, b - mtu);
    }
  }

  function WholeMessage(m: Message): bytes {
    EncodeHeader(PieceHeader(m, 0, |m.body|)) + m.body
  }

  /**
   With nothing but fragments of `m` under the current number, in any order and with any
   duplicates, `pop` yields the unfragmented message and its epoch when every fragment is
   there, and nothing while one is missing.
   */
  lemma PopIsExact(b: Buffer, m: Message, mtu: nat, epoch: nat)
    requires Filed(b) && mtu > 0 && Sendable(m) && m.seqNum == b.current
    requires b.current in b.cache && AllOf(b.cache[b.current], m, mtu, epoch)
    ensures Popped(b).1 == if Complete(b.cache[b.current], m, mtu) then Some((WholeMessage(m), epoch)) else None
  {
    var frags := b.cache[b.current];
    ChainOfFragments(frags, m, mtu, epoch, 0);
    assert CompleteFrom(frags, m, mtu, 0) <==> Complete(frags, m, mtu);
    assert m.body[0..] == m.body;
    assert FragmentOf(frags[0], m, mtu, epoch);
  }

  // ---------- one fragment per record ----------

  predicate IsFragmentRecord(rec: bytes, m: Message, mtu: nat, epoch: nat)
    requires mtu > 0
  {
    && |rec| >= RECORD_HEADER
    && DecodeRecordHeader(rec).Some?
    && DecodeRecordHeader(rec).value.contentType == HANDSHAKE
    && DecodeRecordHeader(rec).value.epoch == epoch
    && rec[RECORD_HEADER..] in Fragments(m, mtu)
  }

  /** A fragment of the list is the one that starts at some cut. */
  lemma FragmentsAtCuts(m: Message, mtu: nat, fragment: bytes) returns (o: nat)
    requires mtu > 0 && fragment in Fragments(m, mtu)
    ensures IsCut(m, mtu, o) && o <= |m.body| && (m.body != [] ==> o < |m.body|)
    ensures fragment == FragmentAt(m, mtu, o)
  {
    o := 0;
    if m.body != [] {
      FragmentsFromAt(m, mtu, 0, fragment);
      o :| 0 <= o < |m.body| && IsCut(m, mtu, o) && fragment == FragmentAt(m, mtu, o);
    }
  }

  function Added(b: Buffer, k: nat, f: Fragment): Buffer {
    b.(cache := b.cache[k := Entry(b.cache, k) + [f]])
  }

  /** Pushing one fragment record either overflows or files that fragment behind those already there. */
  lemma PushFragmentRecord(b: Buffer, rec: bytes, m: Message, mtu: nat, epoch: nat) returns (f: Fragment)
    requires mtu > 0 && Sendable(m) && IsFragmentRecord(rec, m, mtu, epoch)
    ensures FragmentOf(f, m, mtu, epoch)
    ensures rec[RECORD_HEADER..] == FragmentAt(m, mtu, f.header.fragOffset)
    ensures Pushed(b, rec).0 == if Size(b.cache) + |rec| >= MAX_SIZE then b else Added(b, m.seqNum, f)
    ensures Size(b.cache) + |rec| < MAX_SIZE ==> Pushed(b, rec).1.Accepted?
  {
    hide PushAll, Pushed, Size, EncodeHeader, DecodeRecordHeader, Fragments, Entry;
    var o := FragmentsAtCuts(m, mtu, rec[RECORD_HEADER..]);
    var end := Min(o + mtu, |m.body|);
    f := Fragment(DecodeRecordHeader(rec).value, PieceHeader(m, o, end - o), m.body[o..end]);
    PushSingle(b, rec, f);
  }

  /** A record payload that is one header with no more data than its message consumes the whole record. */
  lemma PushSingle(b: Buffer, rec: bytes, f: Fragment)
    requires |rec| >= RECORD_HEADER && DecodeRecordHeader(rec) == Some(f.record) && f.record.contentType == HANDSHAKE
    requires HeaderFits(f.header) && |f.data| <= f.header.length
    requires rec[RECORD_HEADER..] == EncodeHeader(f.header) + f.data
    ensures Pushed(b, rec).0 == if Size(b.cache) + |rec| >= MAX_SIZE then b else Added(b, f.header.messageSeq, f)
    ensures Size(b.cache) + |rec| < MAX_SIZE ==> Pushed(b, rec).1.Accepted?
  {
    hide Size, EncodeHeader, DecodeHeader, DecodeRecordHeader;
    var buf := rec[RECORD_HEADER..];
    HeaderRoundTrip(f.header, f.data);
    assert buf[HANDSHAKE_HEADER..|buf|] == f.data && buf[|buf|..] == [];
    assert DecodeHeader(buf) == Some(f.header) && DataEnd(f.header, |buf|) == |buf|;
    var isRetransmit := f.header.fragOffset == 0 && f.header.messageSeq < b.current;
    var after := Added(b, f.header.messageSeq, f);
    assert PushAll(after, ZERO_RECORD, [], isRetransmit) == (after, Accepted(isRetransmit));
    assert PushAll(b, f.record, buf, false) == (after, Accepted(isRetransmit));
  }

  // ---------- the round trip ----------

  /** The two headers in front of the data of a fragment. */
  const OVERHEAD: nat := RECORD_HEADER + HANDSHAKE_HEADER

  function PushedAll(b: Buffer, records: seq<bytes>): Buffer {
    if records == [] then b else Pushed(PushedAll(b, records[..|records| - 1]), records[|records| - 1]).0
  }

  /** The data carried by records of one fragment each. */
  function Carried(records: seq<bytes>): nat {
    if records == [] then 0
    else
      var size := |records[|records| - 1]|;
      Carried(records[..|records| - 1]) + if size >= OVERHEAD then size - OVERHEAD else 0
  }

  /** The records a buffer takes: those that come while it has room for them, headers included. */
  function Kept(records: seq<bytes>): seq<bytes> {
    if records == [] then []
    else
      var kept, rec := Kept(records[..|records| - 1]), records[|records| - 1];
      if Carried(kept) + |rec| < MAX_SIZE then kept + [rec] else kept
  }

  lemma CarriedLast(records: seq<bytes>, rec: bytes)
    requires |rec| >= OVERHEAD
    ensures Carried(records + [rec]) == Carried(records) + |rec| - OVERHEAD
  {
    assert (records + [rec])[..|records|] == records;
  }

  lemma KeptLast(records: seq<bytes>, rec: bytes)
    ensures Kept(records + [rec])
         == if Carried(Kept(records)) + |rec| < MAX_SIZE then Kept(records) + [rec] else Kept(records)
  {
    assert (records + [rec])[..|records|] == records;
  }

  /** The fragment is the payload of one of the records. */
  predicate Arrived(fragment: bytes, records: seq<bytes>) {
    exists i :: 0 <= i < |records| && |records[i]| >= RECORD_HEADER && records[i][RECORD_HEADER..] == fragment
  }

  ghost predicate AllArrived(m: Message, mtu: nat, records: seq<bytes>)
    requires mtu > 0
  {
    forall x :: x in Fragments(m, mtu) ==> Arrived(x, records)
  }

  ghost predicate FragmentRecords(records: seq<bytes>, m: Message, mtu: nat, epoch: nat)
    requires mtu > 0
  {
    forall i :: 0 <= i < |records| ==> IsFragmentRecord(records[i], m, mtu, epoch)
  }

  /** The stored fragments are those of the records, one by one. */
  ghost predicate Stored(frags: seq<Fragment>, records: seq<bytes>, m: Message, mtu: nat, epoch: nat)
    requires mtu > 0
  {
    && |frags| == |records|
    && forall i :: 0 <= i < |frags| ==>
         && FragmentOf(frags[i], m, mtu, epoch) && |records[i]| >= RECORD_HEADER
         && records[i][RECORD_HEADER..] == FragmentAt(m, mtu, frags[i].header.fragOffset)
  }

  /** The buffer holds the fragments of the records, and nothing else. */
  ghost predicate Tracks(b: Buffer, records: seq<bytes>, m: Message, mtu: nat, epoch: nat)
    requires mtu > 0
  {
    && Filed(b) && b.current == m.seqNum
    && Size(b.cache) == FragmentsSize(Entry(b.cache, m.seqNum)) == Carried(records)
    && Stored(Entry(b.cache, m.seqNum), records, m, mtu, epoch) && (m.seqNum in b.cache <==> records != [])
  }

  lemma PushedFiled(b: Buffer, rec: bytes)
    requires Filed(b)
    ensures Filed(Pushed(b, rec).0) && Pushed(b, rec).0.current == b.current
  {
    hide PushAll, Size;
    if DecodeRecordHeader(rec).Some? { PushAllKeeps(b, DecodeRecordHeader(rec).value, rec[RECORD_HEADER..], false); }
  }

  lemma StoredNext(frags: seq<Fragment>, front: seq<bytes>, rec: bytes, f: Fragment, m: Message, mtu: nat, epoch: nat)
    requires mtu > 0 && Stored(frags, front, m, mtu, epoch) && FragmentOf(f, m, mtu, epoch)
    requires |rec| >= RECORD_HEADER && rec[RECORD_HEADER..] == FragmentAt(m, mtu, f.header.fragOffset)
    ensures Stored(frags + [f], front + [rec], m, mtu, epoch)
  {
    hide FragmentAt;
  }

  /** A record is its fragment's data behind the two headers. */
  lemma RecordLength(rec: bytes, f: Fragment, m: Message, mtu: nat, epoch: nat)
    requires mtu > 0 && FragmentOf(f, m, mtu, epoch) && |rec| >= RECORD_HEADER
    requires rec[RECORD_HEADER..] == FragmentAt(m, mtu, f.header.fragOffset)
    ensures |rec| == OVERHEAD + |f.data|
  {
    hide EncodeHeader;
  }

  lemma SizeOneMore(cache: map<nat, seq<Fragment>>, k: nat, f: Fragment)
    requires k < U16
    ensures FragmentsSize(Entry(cache, k) + [f]) == FragmentsSize(Entry(cache, k)) + |f.data|
    ensures Size(cache[k := Entry(cache, k) + [f]]) == Size(cache) + |f.data|
  {
    hide SizeBelow;
    var next := Entry(cache, k) + [f];
    assert next[..|next| - 1] == Entry(cache, k);
    SizeReplaced(cache, k, next);
  }

  lemma AddedTracked(b: Buffer, kept: seq<bytes>, rec: bytes, f: Fragment, m: Message, mtu: nat, epoch: nat)
    requires mtu > 0 && Tracks(b, kept, m, mtu, epoch) && Filed(Added(b, m.seqNum, f))
    requires FragmentOf(f, m, mtu, epoch) && |rec| >= RECORD_HEADER
    requires rec[RECORD_HEADER..] == FragmentAt(m, mtu, f.header.fragOffset)
    ensures Tracks(Added(b, m.seqNum, f), kept + [rec], m, mtu, epoch)
  {
    assert m.seqNum < U16;
    hide Size, FragmentOf, Filed, FragmentAt, Carried, Stored, FragmentsSize;
    RecordLength(rec, f, m, mtu, epoch);
    SizeOneMore(b.cache, m.seqNum, f);
    CarriedLast(kept, rec);
    StoredNext(Entry(b.cache, m.seqNum), kept, rec, f, m, mtu, epoch);
  }

  /** One more record is taken and filed, or refused for lack of room. */
  lemma RecordTracked(b: Buffer, kept: seq<bytes>, rec: bytes, m: Message, mtu: nat, epoch: nat)
    requires mtu > 0 && Sendable(m) && Tracks(b, kept, m, mtu, epoch) && IsFragmentRecord(rec, m, mtu, epoch)
    ensures Tracks(Pushed(b, rec).0, if Carried(kept) + |rec| < MAX_SIZE then kept + [rec] else kept, m, mtu, epoch)
  {
    hide Size, Pushed, IsFragmentRecord, FragmentOf, Filed, FragmentAt, Carried, Stored, FragmentsSize, Sendable, Added;
    var f := PushFragmentRecord(b, rec, m, mtu, epoch);
    LongEnough(rec, m, mtu, epoch);
    PushedFiled(b, rec);
    if Carried(kept) + |rec| < MAX_SIZE { AddedTracked(b, kept, rec, f, m, mtu, epoch); }
  }

  lemma NothingTracked(m: Message, mtu: nat, epoch: nat)
    requires mtu > 0 && Sendable(m)
    ensures Tracks(Buffer(map[], m.seqNum), [], m, mtu, epoch)
  {
    EmptySize();
  }

  lemma {:induction false} RecordsTracked(records: seq<bytes>, m: Message, mtu: nat, epoch: nat)
    requires mtu > 0 && Sendable(m) && FragmentRecords(records, m, mtu, epoch)
    ensures Tracks(PushedAll(Buffer(map[], m.seqNum), records), Kept(records), m, mtu, epoch)
  {
    hide Pushed, IsFragmentRecord, Tracks, Carried, Sendable;
    if records == [] {
      NothingTracked(m, mtu, epoch);
    } else {
      var front, rec := records[..|records| - 1], records[|records| - 1];
      RecordsTracked(front, m, mtu, epoch);
      RecordTracked(PushedAll(Buffer(map[], m.seqNum), front), Kept(front), rec, m, mtu, epoch);
    }
  }

  lemma LongEnough(rec: bytes, m: Message, mtu: nat, epoch: nat)
    requires mtu > 0 && IsFragmentRecord(rec, m, mtu, epoch)
    ensures |rec| >= RECORD_HEADER
  {
  }

  /** Fragments at different offsets differ. */
  lemma OffsetShows(m: Message, mtu: nat, o: nat, p: nat)
    requires Sendable(m) && o <= |m.body| && p <= |m.body| && FragmentAt(m, mtu, o) == FragmentAt(m, mtu, p)
    ensures o == p
  {
    hide EncodeHeader, DecodeHeader;
    var n, k := Min(o + mtu, |m.body|), Min(p + mtu, |m.body|);
    HeaderRoundTrip(PieceHeader(m, o, n - o), m.body[o..n]);
    HeaderRoundTrip(PieceHeader(m, p, k - p), m.body[p..k]);
  }

  /** Every cut has its fragment in the list. */
  lemma {:induction false} CutListed(m: Message, mtu: nat, from: nat, o: nat)
    requires mtu > 0 && IsCut(m, mtu, from) && IsCut(m, mtu, o) && from <= o < |m.body|
    ensures FragmentAt(m, mtu, o) in FragmentsFrom(m, mtu, from)
    decreases |m.body| - from
  {
    hide FragmentAt, IsCut;
    CutsApart(m, mtu, from, o);
    if from < o {
      NextCut(m, mtu, from, o);
      CutListed(m, mtu, from + mtu, o);
    }
  }

  lemma NextCut(m: Message, mtu: nat, from: nat, o: nat)
    requires mtu > 0 && IsCut(m, mtu, from) && from + mtu <= o < |m.body|
    ensures IsCut(m, mtu, from + mtu)
  {
  }

  lemma CutInList(m: Message, mtu: nat, o: nat)
    requires mtu > 0 && IsCut(m, mtu, o)
    ensures o <= |m.body| && FragmentAt(m, mtu, o) in Fragments(m, mtu)
  {
    hide FragmentAt;
    if m.body != [] { CutListed(m, mtu, 0, o); }
  }

  /** The stored fragments are complete exactly when every fragment of the message has arrived. */
  lemma CompleteIfArrived(frags: seq<Fragment>, records: seq<bytes>, m: Message, mtu: nat, epoch: nat)
    requires mtu > 0 && Sendable(m) && Stored(frags, records, m, mtu, epoch)
    ensures Complete(frags, m, mtu) <==> AllArrived(m, mtu, records)
  {
    hide FragmentAt, Fragments, IsCut;
    if Complete(frags, m, mtu) {
      forall x | x in Fragments(m, mtu) ensures Arrived(x, records) {
        var o := FragmentsAtCuts(m, mtu, x);
        assert Holds(frags, o);
        var i :| 0 <= i < |frags| && frags[i].header.fragOffset == o;
        assert records[i][RECORD_HEADER..] == x;
      }
    }
    if AllArrived(m, mtu, records) {
      forall o | IsCut(m, mtu, o) ensures Holds(frags, o) {
        CutInList(m, mtu, o);
        var i :| 0 <= i < |records| && |records[i]| >= RECORD_HEADER &&
            records[i][RECORD_HEADER..] == FragmentAt(m, mtu, o);
        OffsetShows(m, mtu, frags[i].header.fragOffset, o);
        assert frags[i] in frags;
      }
    }
  }

  lemma {:induction false} StaysFiled(records: seq<bytes>, m: Message)
    requires Sendable(m)
    ensures Filed(PushedAll(Buffer(map[], m.seqNum), records))
  {
    hide Pushed;
    if records != [] {
      StaysFiled(records[..|records| - 1], m);
      PushedFiled(PushedAll(Buffer(map[], m.seqNum), records[..|records| - 1]), records[|records| - 1]);
    }
  }

  /**
   For every message, every fragment size and every list of records that each carry one fragment
   of it, in any order and with any repetitions: `pop` yields exactly the unfragmented message if
   every fragment is among the records the buffer had room for, and nothing while one is missing.
   */
  lemma FragmentRoundTrip(records: seq<bytes>, m: Message, mtu: nat, epoch: nat)
    requires mtu > 0 && Sendable(m) && FragmentRecords(records, m, mtu, epoch)
    ensures var b := PushedAll(Buffer(map[], m.seqNum), records);
            && Filed(b)
            && Popped(b).1 == if AllArrived(m, mtu, Kept(records)) then Some((WholeMessage(m), epoch)) else None
  {
    RecordsTracked(records, m, mtu, epoch);
    hide Size, PushedAll, IsFragmentRecord, FragmentOf, Filed, Complete, WholeMessage, Carried, Sendable, Fragments;
    hide FragmentAt, Chain, Kept, FragmentsSize;
    var b := PushedAll(Buffer(map[], m.seqNum), records);
    if Kept(records) == [] {
      assert Fragments(m, mtu)[0] in Fragments(m, mtu);
    } else {
      PopIsExact(b, m, mtu, epoch);
      CompleteIfArrived(b.cache[m.seqNum], Kept(records), m, mtu, epoch);
    }
  }
}
