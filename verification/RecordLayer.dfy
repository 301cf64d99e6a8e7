/**
 The two headers every handshake record carries: the 13-byte record header of section 4.1
 of RFC 6347 and the 12-byte handshake header of its section 4.2.2, with the splitting of a
 datagram back into records.
 */
module RecordLayer {
  import opened Bytes

  const RECORD_HEADER: nat := 13
  const HANDSHAKE_HEADER: nat := 12
  const MAX_SEQUENCE: nat := 0xFFFF_FFFF_FFFF
  const HANDSHAKE: byte := 22
  const CONNECTION_ID: byte := 25

  datatype RecordHeader = RecordHeader(
    contentType: byte,
    major: byte,
    minor: byte,
    epoch: nat,
    seqNum: nat,
    connectionId: bytes,
    length: nat)

  datatype Header = Header(typ: byte, length: nat, messageSeq: nat, fragOffset: nat, fragLength: nat)

  /** DTLS 1.0 is written {254, 255} and DTLS 1.2 {254, 253}. */
  predicate KnownVersion(major: byte, minor: byte) {
    major == 0xfe && (minor == 0xff || minor == 0xfd)
  }

  predicate RecordFits(h: RecordHeader) {
    KnownVersion(h.major, h.minor) && h.epoch < U16 && h.seqNum <= MAX_SEQUENCE && h.length < U16
  }

  predicate HeaderFits(h: Header) {
    h.length < U24 && h.messageSeq < U16 && h.fragOffset < U24 && h.fragLength < U24
  }

  // ---------- record header ----------

  function HeaderSize(h: RecordHeader): nat {
    RECORD_HEADER + |h.connectionId|
  }

  /** The first eleven bytes: everything before the connection identifier and the length. */
  function HeaderLead(h: RecordHeader): (r: bytes)
    ensures |r| == RECORD_HEADER - 2
  {
    [h.contentType, h.major, h.minor] + BE(h.epoch, 2) + BE(h.seqNum, 6)
  }

  function EncodeRecordHeader(h: RecordHeader): (r: bytes)
    ensures |r| == HeaderSize(h)
  {
    HeaderLead(h) + h.connectionId + BE(h.length, 2)
  }

  /**
   Decoding into a header that holds the connection identifier `preset`. `None` stands for the
   decode errors: too short, and a version that is not DTLS 1.0 or 1.2. The length is not read.
   */
  function DecodeRecordHeaderInto(b: bytes, preset: bytes): (r: Option<RecordHeader>)
    ensures r.Some? <==> |b| >= RECORD_HEADER && KnownVersion(b[1], b[2])
                         && (b[0] == CONNECTION_ID ==> |b| >= RECORD_HEADER + |preset|)
    ensures r.Some? ==> RecordFits(r.value) && |r.value.connectionId| == |preset| && r.value.length == 0
  {
    if |b| < RECORD_HEADER || (b[0] == CONNECTION_ID && |b| < RECORD_HEADER + |preset|) then None
    else if !KnownVersion(b[1], b[2]) then None
    else
      Widths(); ValBound(b[3..5]); ValBound(b[5..11]);
      Some(RecordHeader(b[0], b[1], b[2], Val(b[3..5]), Val(b[5..11]),
                        if b[0] == CONNECTION_ID then b[11..11 + |preset|] else preset, 0))
  }

  /** Decoding into an empty header. */
  function DecodeRecordHeader(b: bytes): (r: Option<RecordHeader>)
    ensures r.Some? <==> |b| >= RECORD_HEADER && KnownVersion(b[1], b[2])
    ensures r.Some? ==> RecordFits(r.value) && r.value.connectionId == [] && r.value.length == 0
  {
    DecodeRecordHeaderInto(b, [])
  }

  lemma LeadReads(h: RecordHeader, rest: bytes)
    requires RecordFits(h)
    ensures var b := HeaderLead(h) + rest;
            b[0] == h.contentType && b[1] == h.major && b[2] == h.minor
            && Val(b[3..5]) == h.epoch && Val(b[5..11]) == h.seqNum && b[11..] == rest
  {
    Widths();
    var lead := [h.contentType, h.major, h.minor];
    FieldReads(h.epoch, 2, lead, BE(h.seqNum, 6) + rest);
    assert HeaderLead(h) + rest == lead + BE(h.epoch, 2) + (BE(h.seqNum, 6) + rest);
    FieldReads(h.seqNum, 6, lead + BE(h.epoch, 2), rest);
  }

  /** Of a written header everything but the length reads back, whatever follows it. */
  lemma HeaderFieldsRead(h: RecordHeader, preset: bytes, rest: bytes)
    requires RecordFits(h) && |preset| == |h.connectionId|
    requires h.contentType != CONNECTION_ID ==> preset == h.connectionId
    ensures DecodeRecordHeaderInto(EncodeRecordHeader(h) + rest, preset) == Some(h.(length := 0))
  {
    hide HeaderLead, BE;
    var tail := h.connectionId + BE(h.length, 2) + rest;
    LeadReads(h, tail);
    var b := EncodeRecordHeader(h) + rest;
    assert b == HeaderLead(h) + tail;
    assert b[11..11 + |preset|] == tail[..|preset|] == h.connectionId;
  }

  /** A written header decodes to itself exactly when its length is zero. */
  lemma RecordHeaderRoundTrip(h: RecordHeader, preset: bytes, rest: bytes)
    requires RecordFits(h) && |preset| == |h.connectionId|
    requires h.contentType != CONNECTION_ID ==> preset == h.connectionId
    ensures DecodeRecordHeaderInto(EncodeRecordHeader(h) + rest, preset) == Some(h) <==> h.length == 0
  {
    hide EncodeRecordHeader, DecodeRecordHeaderInto;
    HeaderFieldsRead(h, preset, rest);
  }

  /** The length stands in the last two bytes of the header. */
  lemma LengthReads(h: RecordHeader, rest: bytes)
    requires RecordFits(h)
    ensures var n := HeaderSize(h); Val((EncodeRecordHeader(h) + rest)[n - 2..n]) == h.length
  {
    Widths();
    FieldReads(h.length, 2, HeaderLead(h) + h.connectionId, rest);
  }

  // ---------- handshake header ----------

  function EncodeHeader(h: Header): (r: bytes)
    ensures |r| == HANDSHAKE_HEADER
  {
    [h.typ] + BE(h.length, 3) + BE(h.messageSeq, 2) + BE(h.fragOffset, 3) + BE(h.fragLength, 3)
  }

  function DecodeHeader(b: bytes): (r: Option<Header>)
    ensures r.Some? <==> |b| >= HANDSHAKE_HEADER
    ensures r.Some? ==> HeaderFits(r.value)
  {
    if |b| < HANDSHAKE_HEADER then None
    else
      Widths(); ValBound(b[1..4]); ValBound(b[4..6]); ValBound(b[6..9]); ValBound(b[9..12]);
      Some(Header(b[0], Val(b[1..4]), Val(b[4..6]), Val(b[6..9]), Val(b[9..12])))
  }

  lemma HeaderRoundTrip(h: Header, rest: bytes)
    requires HeaderFits(h)
    ensures DecodeHeader(EncodeHeader(h) + rest) == Some(h)
  {
    Widths();
    var b := EncodeHeader(h) + rest;
    var l, m, o, f := BE(h.length, 3), BE(h.messageSeq, 2), BE(h.fragOffset, 3), BE(h.fragLength, 3);
    FieldReads(h.length, 3, [h.typ], m + o + f + rest);
    assert b == [h.typ] + l + (m + o + f + rest);
    FieldReads(h.messageSeq, 2, [h.typ] + l, o + f + rest);
    assert b == [h.typ] + l + m + (o + f + rest);
    FieldReads(h.fragOffset, 3, [h.typ] + l + m, f + rest);
    assert b == [h.typ] + l + m + o + (f + rest);
    FieldReads(h.fragLength, 3, [h.typ] + l + m + o, rest);
  }

  // ---------- datagrams ----------

  /** The records of a datagram, cut by the length field of each header. */
  function Unpacked(b: bytes): (r: Option<seq<bytes>>)
    decreases |b|
  {
    if b == [] then Some([])
    else if |b| <= RECORD_HEADER then None
    else
      var n := RECORD_HEADER + Val(b[11..13]);
      if n > |b| then None
      else
        Continue([b[..n]], Unpacked(b[n..]))
  }

  method UnpackDatagram(b: bytes) returns (r: Option<seq<bytes>>)
    ensures r == Unpacked(b)
  {
    var out: seq<bytes> := [];
    var offset := 0;
    ContinueEmpty(Unpacked(b));
    assert b[0..] == b;
    while offset != |b|
      invariant 0 <= offset <= |b|
      invariant Unpacked(b) == Continue(out, Unpacked(b[offset..]))
      decreases |b| - offset
    {
      ghost var tail := b[offset..];
      if |b| - offset <= RECORD_HEADER {
        return None;
      }
      assert tail[11..13] == b[offset + 11..offset + 13];
      var n := RECORD_HEADER + Val(b[offset + 11..offset + 13]);
      if offset + n > |b| {
        return None;
      }
      assert tail[n..] == b[offset + n..];
      assert tail[..n] == b[offset..offset + n];
      ContinueTwice(out, [tail[..n]], Unpacked(tail[n..]));
      out := out + [b[offset..offset + n]];
      offset := offset + n;
    }
    ContinueDone(out);
    assert b[offset..] == [];
    return Some(out);
  }

  /** A record whose length field counts its payload, with at least one byte of payload. */
  predicate WholeRecord(rec: bytes) {
    |rec| > RECORD_HEADER && Val(rec[11..13]) == |rec| - RECORD_HEADER
  }

  /** A datagram made of whole records splits into exactly those records. */
  lemma {:induction false} UnpackConcat(records: seq<bytes>)
    requires forall i :: 0 <= i < |records| ==> WholeRecord(records[i])
    ensures Unpacked(Concat(records)) == Some(records)
  {
    if records != [] {
      var rec, rest := records[0], Concat(records[1..]);
      UnpackConcat(records[1..]);
      assert (rec + rest)[11..13] == rec[11..13];
      assert (rec + rest)[..|rec|] == rec && (rec + rest)[|rec|..] == rest;
      assert [rec] + records[1..] == records;
    }
  }

  lemma EncodedIsWhole(h: RecordHeader, payload: bytes)
    requires RecordFits(h) && h.connectionId == [] && h.length == |payload| > 0
    ensures WholeRecord(EncodeRecordHeader(h) + payload)
  {
    LengthReads(h, payload);
  }
}
