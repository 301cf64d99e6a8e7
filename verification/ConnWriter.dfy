/**
 The sending side of a connection: handshake messages are cached, cut into fragments and
 stamped with record sequence numbers; other packets are stamped as they are; the records of
 one call are packed into datagrams. Records are shown without encryption and without
 connection IDs.
 */
module ConnWriter {
  import opened Bytes
  import opened RecordLayer
  import opened HandshakeCache
  import opened Fragmentation

  datatype Packet =
    | HandshakePacket(epoch: nat, message: Message)
    | OtherPacket(epoch: nat, contentType: byte, payload: bytes)

  /** What a connection keeps for writing: the next number of each epoch, and the message cache. */
  datatype Conn = Conn(isClient: bool, mtu: nat, nextNumber: seq<nat>, cache: seq<Item>)

  // ---------- record numbers ----------

  function Extended(numbers: seq<nat>, epoch: nat): (r: seq<nat>)
    ensures |r| > epoch && |r| >= |numbers|
    ensures r[..|numbers|] == numbers
    ensures forall i :: |numbers| <= i < |r| ==> r[i] == 0
  {
    numbers + seq(if |numbers| <= epoch then epoch + 1 - |numbers| else 0, i => 0)
  }

  function Stamp(epoch: nat, number: nat, contentType: byte, payload: bytes): bytes {
    EncodeRecordHeader(RecordHeader(contentType, 0xfe, 0xfd, epoch, number, [], |payload|)) + payload
  }

  /** Stamps payloads in turn; drawing a number past the 48-bit limit ends the call with an error. */
  function StampAll(numbers: seq<nat>, epoch: nat, contentType: byte, payloads: seq<bytes>)
    : (r: (seq<nat>, Option<seq<bytes>>))
    requires epoch < |numbers|
    ensures |r.0| == |numbers|
    decreases |payloads|
  {
    if payloads == [] then (numbers, Some([]))
    else
      var number := numbers[epoch];
      var next := numbers[epoch := number + 1];
      if number > MAX_SEQUENCE then (next, None)
      else
        var rest := StampAll(next, epoch, contentType, payloads[1..]);
        (rest.0, Continue([Stamp(epoch, number, contentType, payloads[0])], rest.1))
  }

  function MessageItem(p: Packet, isClient: bool): Item
    requires p.HandshakePacket?
  {
    Item(p.message.typ, isClient, p.epoch, p.message.seqNum, WholeMessage(p.message))
  }

  /** The records of one packet; a handshake message enters the cache first, sent or not. */
  function WriteOne(c: Conn, p: Packet): (r: (Conn, Option<seq<bytes>>))
    requires c.mtu > 0
  {
    match p
    case HandshakePacket(epoch, m) =>
      var out := StampAll(Extended(c.nextNumber, epoch), epoch, HANDSHAKE, Fragments(m, c.mtu));
      (c.(nextNumber := out.0, cache := c.cache + [MessageItem(p, c.isClient)]), out.1)
    case OtherPacket(epoch, contentType, payload) =>
      var out := StampAll(Extended(c.nextNumber, epoch), epoch, contentType, [payload]);
      (c.(nextNumber := out.0), out.1)
  }

  function WriteAll(c: Conn, packets: seq<Packet>): (r: (Conn, Option<seq<bytes>>))
    requires c.mtu > 0
    decreases |packets|
  {
    if packets == [] then (c, Some([]))
    else
      var first := WriteOne(c, packets[0]);
      if first.1.None? then first
      else
        var rest := WriteAll(first.0, packets[1..]);
        (rest.0, Continue(first.1.value, rest.1))
  }

  // ---------- datagrams ----------

  function Compacted(records: seq<bytes>, mtu: nat, current: bytes): (r: seq<bytes>) {
    if records == [] then [current]
    else if |current| > 0 && |current| + |records[0]| >= mtu then [current] + Compacted(records[1..], mtu, records[0])
    else Compacted(records[1..], mtu, current + records[0])
  }

  function Compact(records: seq<bytes>, mtu: nat): (r: seq<bytes>) {
    if |records| == 1 then records else Compacted(records, mtu, [])
  }

  method CompactRawPackets(records: seq<bytes>, mtu: nat) returns (combined: seq<bytes>)
    ensures combined == Compact(records, mtu)
  {
    if |records| == 1 {
      return records;
    }
    combined := [];
    var current: bytes := [];
    assert records[0..] == records;
    for i := 0 to |records|
      invariant combined + Compacted(records[i..], mtu, current) == Compacted(records, mtu, [])
    {
      var rec := records[i];
      assert records[i..][0] == rec && records[i..][1..] == records[i + 1..];
      if |current| > 0 && |current| + |rec| >= mtu {
        Associates(combined, [current], Compacted(records[i + 1..], mtu, rec));
        combined := combined + [current];
        current := [];
      }
      assert [] + rec == rec;
      current := current + rec;
    }
    combined := combined + [current];
  }

  /** The records behind each datagram. */
  function Groups(records: seq<bytes>, mtu: nat, current: seq<bytes>): (r: seq<seq<bytes>>) {
    if records == [] then [current]
    else if |Concat(current)| > 0 && |Concat(current)| + |records[0]| >= mtu then
      [current] + Groups(records[1..], mtu, [records[0]])
    else Groups(records[1..], mtu, current + [records[0]])
  }

  function Flatten(groups: seq<seq<bytes>>): seq<bytes> {
    if groups == [] then [] else groups[0] + Flatten(groups[1..])
  }

  /** A datagram is one record, or shorter than the MTU. */
  predicate Fits(group: seq<bytes>, mtu: nat) {
    group != [] && (|group| == 1 || |Concat(group)| < mtu)
  }

  /** A datagram was closed because the next record would have reached the MTU. */
  predicate Full(group: seq<bytes>, next: seq<bytes>, mtu: nat) {
    next != [] && |Concat(group)| + |next[0]| >= mtu
  }

  predicate PackedWell(groups: seq<seq<bytes>>, mtu: nat) {
    groups == [] ||
    (Fits(groups[0], mtu) && (|groups| > 1 ==> Full(groups[0], groups[1], mtu)) && PackedWell(groups[1..], mtu))
  }

  lemma {:induction false} GroupsOfRecords(records: seq<bytes>, mtu: nat, current: seq<bytes>)
    requires Fits(current, mtu) && |Concat(current)| > 0
    requires forall i :: 0 <= i < |records| ==> |records[i]| > 0
    ensures var g := Groups(records, mtu, current);
            && Compacted(records, mtu, Concat(current)) == Datagrams(g)
            && Flatten(g) == current + records
            && PackedWell(g, mtu)
            && g != [] && g[0] != [] && g[0][0] == current[0]
    decreases |records|
  {
    hide Concat;
    var g := Groups(records, mtu, current);
    if records == [] {
      assert g[1..] == [] && Flatten(g) == current + Flatten([]);
    } else if |Concat(current)| + |records[0]| >= mtu {
      ConcatOne(records[0]);
      var h := Groups(records[1..], mtu, [records[0]]);
      GroupsOfRecords(records[1..], mtu, [records[0]]);
      assert g[1..] == h && [records[0]] + records[1..] == records;
      assert Datagrams(g) == [Concat(current)] + Datagrams(h);
    } else {
      ConcatLast(current, records[0]);
      GroupsOfRecords(records[1..], mtu, current + [records[0]]);
      assert current + [records[0]] + records[1..] == current + records;
    }
  }

  function Datagrams(groups: seq<seq<bytes>>): seq<bytes> {
    seq(|groups|, i requires 0 <= i < |groups| => Concat(groups[i]))
  }

  /**
   Packing keeps the records in order and whole: each datagram is the concatenation of one
   group of consecutive records, is a single record or shorter than the MTU, and is closed
   only when the next record would reach the MTU.
   */
  lemma CompactIsPacking(records: seq<bytes>, mtu: nat) returns (groups: seq<seq<bytes>>)
    requires records != [] && forall i :: 0 <= i < |records| ==> |records[i]| > 0
    ensures Compact(records, mtu) == Datagrams(groups)
    ensures Flatten(groups) == records
    ensures PackedWell(groups, mtu)
  {
    var first := [records[0]];
    ConcatOne(records[0]);
    GroupsOfRecords(records[1..], mtu, first);
    groups := Groups(records[1..], mtu, first);
    assert first + records[1..] == records;
    if |records| == 1 {
      assert groups == [first];
    } else {
      assert [] + records[0] == records[0];
    }
  }

  // ---------- what is stamped ----------

  predicate PayloadsFit(payloads: seq<bytes>) {
    forall p :: p in payloads ==> 0 < |p| < U16
  }

  /** The record length field has 16 bits, and the epoch too. */
  predicate PacketFits(p: Packet, mtu: nat) {
    p.epoch < U16 && 0 < mtu && mtu + HANDSHAKE_HEADER < U16 &&
    match p
    case HandshakePacket(_, m) => Sendable(m)
    case OtherPacket(_, _, payload) => 0 < |payload| < U16
  }

  function NumberOf(rec: bytes): nat {
    if |rec| < RECORD_HEADER then 0 else Val(rec[5..11])
  }

  function EpochOf(rec: bytes): nat {
    if |rec| < RECORD_HEADER then 0 else Val(rec[3..5])
  }

  lemma StampReads(epoch: nat, number: nat, contentType: byte, payload: bytes)
    requires epoch < U16 && number <= MAX_SEQUENCE && 0 < |payload| < U16
    ensures var rec := Stamp(epoch, number, contentType, payload);
            && WholeRecord(rec)
            && DecodeRecordHeader(rec) == Some(RecordHeader(contentType, 0xfe, 0xfd, epoch, number, [], 0))
            && EpochOf(rec) == epoch && NumberOf(rec) == number
            && rec[RECORD_HEADER..] == payload
  {
    var h := RecordHeader(contentType, 0xfe, 0xfd, epoch, number, [], |payload|);
    HeaderFieldsRead(h, [], payload);
    LeadReads(h, BE(h.length, 2) + payload);
    EncodedIsWhole(h, payload);
    assert (EncodeRecordHeader(h) + payload)[RECORD_HEADER..] == payload;
  }

  /** A whole record whose number lies in the part of its epoch's range drawn from `lo` up to `hi`. */
  predicate Drawn(rec: bytes, lo: seq<nat>, hi: seq<nat>) {
    && WholeRecord(rec) && EpochOf(rec) < |hi|
    && NumberOf(rec) < hi[EpochOf(rec)] && NumberOf(rec) <= MAX_SEQUENCE
    && (EpochOf(rec) < |lo| ==> lo[EpochOf(rec)] <= NumberOf(rec))
  }

  /** Records of one epoch carry strictly increasing numbers. */
  predicate Increasing(records: seq<bytes>) {
    forall i, j :: 0 <= i < j < |records| && EpochOf(records[i]) == EpochOf(records[j])
      ==> NumberOf(records[i]) < NumberOf(records[j])
  }

  predicate DrawnInOrder(records: seq<bytes>, lo: seq<nat>, hi: seq<nat>) {
    (forall i :: 0 <= i < |records| ==> Drawn(records[i], lo, hi)) && Increasing(records)
  }

  predicate Later(lo: seq<nat>, hi: seq<nat>) {
    |lo| <= |hi| && forall e :: 0 <= e < |lo| ==> lo[e] <= hi[e]
  }

  lemma DrawnWider(rec: bytes, lo: seq<nat>, low: seq<nat>, high: seq<nat>, hi: seq<nat>)
    requires Later(lo, low) && Later(high, hi) && Drawn(rec, low, high)
    ensures Drawn(rec, lo, hi)
  {
  }

  lemma DrawnTogether(a: seq<bytes>, b: seq<bytes>, lo: seq<nat>, mid: seq<nat>, hi: seq<nat>)
    requires Later(lo, mid) && Later(mid, hi) && DrawnInOrder(a, lo, mid) && DrawnInOrder(b, mid, hi)
    ensures DrawnInOrder(a + b, lo, hi)
  {
    hide WholeRecord, EpochOf, NumberOf;
    var all := a + b;
    forall i | 0 <= i < |all| ensures Drawn(all[i], lo, hi) {
      if i < |a| { DrawnWider(all[i], lo, lo, mid, hi); } else { DrawnWider(all[i], lo, mid, hi, hi); }
    }
    forall i, j | 0 <= i < j < |all| && EpochOf(all[i]) == EpochOf(all[j]) ensures NumberOf(all[i]) < NumberOf(all[j]) {
      if i < |a| { assert Drawn(all[i], lo, mid); }
      if j >= |a| { assert Drawn(all[j], mid, hi); }
    }
  }

  // ---------- what the records carry ----------

  /** A record without its number: what a retransmission must repeat. */
  datatype Content = Content(epoch: nat, contentType: byte, payload: bytes)

  function Contents(epoch: nat, contentType: byte, payloads: seq<bytes>): seq<Content> {
    seq(|payloads|, i requires 0 <= i < |payloads| => Content(epoch, contentType, payloads[i]))
  }

  function PacketContents(p: Packet, mtu: nat): seq<Content>
    requires mtu > 0
  {
    match p
    case HandshakePacket(epoch, m) => Contents(epoch, HANDSHAKE, Fragments(m, mtu))
    case OtherPacket(epoch, contentType, payload) => Contents(epoch, contentType, [payload])
  }

  function AllContents(packets: seq<Packet>, mtu: nat): seq<Content>
    requires mtu > 0
  {
    if packets == [] then [] else PacketContents(packets[0], mtu) + AllContents(packets[1..], mtu)
  }

  predicate CarriesOne(rec: bytes, c: Content) {
    && WholeRecord(rec)
    && DecodeRecordHeader(rec).Some?
    && DecodeRecordHeader(rec).value.contentType == c.contentType
    && DecodeRecordHeader(rec).value.epoch == c.epoch
    && rec[RECORD_HEADER..] == c.payload
  }

  predicate Carries(records: seq<bytes>, contents: seq<Content>) {
    |records| == |contents| && forall i :: 0 <= i < |records| ==> CarriesOne(records[i], contents[i])
  }

  lemma CarriesTogether(a: seq<bytes>, b: seq<bytes>, x: seq<Content>, y: seq<Content>)
    requires Carries(a, x) && Carries(b, y)
    ensures Carries(a + b, x + y)
  {
    hide CarriesOne;
  }

  lemma {:induction false} StampAllOrdered(numbers: seq<nat>, epoch: nat, contentType: byte, payloads: seq<bytes>)
    requires epoch < |numbers| && epoch < U16 && PayloadsFit(payloads)
    ensures var out := StampAll(numbers, epoch, contentType, payloads);
            && Later(numbers, out.0)
            && (out.1.Some? ==>
                  DrawnInOrder(out.1.value, numbers, out.0) &&
                    Carries(out.1.value, Contents(epoch, contentType, payloads)))
    decreases |payloads|
  {
    hide Stamp, WholeRecord, EpochOf, NumberOf, DecodeRecordHeader, Drawn;
    if payloads != [] && numbers[epoch] <= MAX_SEQUENCE {
      var next := numbers[epoch := numbers[epoch] + 1];
      assert forall p :: p in payloads[1..] ==> p in payloads;
      StampAllOrdered(next, epoch, contentType, payloads[1..]);
      var out := StampAll(next, epoch, contentType, payloads[1..]);
      if out.1.Some? {
        var rec := Stamp(epoch, numbers[epoch], contentType, payloads[0]);
        StampReads(epoch, numbers[epoch], contentType, payloads[0]);
        OneDrawn(rec, numbers, next);
        DrawnTogether([rec], out.1.value, numbers, next, out.0);
        CarriesTogether([rec], out.1.value, [Content(epoch, contentType, payloads[0])],
          Contents(epoch, contentType, payloads[1..]));
        assert [Content(epoch, contentType, payloads[0])] + Contents(epoch, contentType, payloads[1..])
            == Contents(epoch, contentType, payloads);
      }
    }
  }

  lemma OneDrawn(rec: bytes, lo: seq<nat>, hi: seq<nat>)
    requires WholeRecord(rec) && EpochOf(rec) < |lo| == |hi| && NumberOf(rec) <= MAX_SEQUENCE
    requires lo[EpochOf(rec)] == NumberOf(rec) && hi[EpochOf(rec)] == NumberOf(rec) + 1
    ensures DrawnInOrder([rec], lo, hi)
  {
  }

  lemma FragmentsFit(m: Message, mtu: nat)
    requires mtu > 0 && mtu + HANDSHAKE_HEADER < U16
    ensures PayloadsFit(Fragments(m, mtu))
  {
    forall f | f in Fragments(m, mtu) ensures 0 < |f| < U16 {
      var o := FragmentsAtCuts(m, mtu, f);
    }
  }

  lemma StampOnExtended(c: Conn, epoch: nat, contentType: byte, payloads: seq<bytes>)
    requires epoch < U16 && PayloadsFit(payloads)
    ensures var out := StampAll(Extended(c.nextNumber, epoch), epoch, contentType, payloads);
            && Later(c.nextNumber, out.0)
            && (out.1.Some? ==>
                  && DrawnInOrder(out.1.value, c.nextNumber, out.0)
                  && Carries(out.1.value, Contents(epoch, contentType, payloads)))
  {
    hide Carries, Increasing, Drawn;
    var numbers := Extended(c.nextNumber, epoch);
    assert forall e :: 0 <= e < |c.nextNumber| ==> numbers[e] == numbers[..|c.nextNumber|][e];
    StampAllOrdered(numbers, epoch, contentType, payloads);
    var out := StampAll(numbers, epoch, contentType, payloads);
    if out.1.Some? {
      forall i | 0 <= i < |out.1.value| ensures Drawn(out.1.value[i], c.nextNumber, out.0) {
        DrawnWider(out.1.value[i], c.nextNumber, numbers, out.0, out.0);
      }
    }
  }

  lemma WriteOneOrdered(c: Conn, p: Packet)
    requires PacketFits(p, c.mtu)
    ensures var out := WriteOne(c, p);
            && Later(c.nextNumber, out.0.nextNumber)
            && (out.1.Some? ==>
                  && DrawnInOrder(out.1.value, c.nextNumber, out.0.nextNumber)
                  && Carries(out.1.value, PacketContents(p, c.mtu)))
  {
    hide Carries, DrawnInOrder, Later, Fragments;
    match p
    case HandshakePacket(epoch, m) =>
      FragmentsFit(m, c.mtu);
      StampOnExtended(c, epoch, HANDSHAKE, Fragments(m, c.mtu));
    case OtherPacket(epoch, contentType, payload) =>
      StampOnExtended(c, epoch, contentType, [payload]);
  }

  /** One call draws increasing numbers, and what its records carry depends on the packets and the MTU alone. */
  lemma {:induction false} WriteAllOrdered(c: Conn, packets: seq<Packet>)
    requires c.mtu > 0 && forall i :: 0 <= i < |packets| ==> PacketFits(packets[i], c.mtu)
    ensures var out := WriteAll(c, packets);
            && out.0.mtu == c.mtu && out.0.isClient == c.isClient
            && Later(c.nextNumber, out.0.nextNumber)
            && (out.1.Some? ==>
                  && DrawnInOrder(out.1.value, c.nextNumber, out.0.nextNumber)
                  && Carries(out.1.value, AllContents(packets, c.mtu)))
    decreases |packets|
  {
    if packets != [] {
      hide Drawn, Increasing, CarriesOne, PacketContents, PacketFits;
      WriteOneOrdered(c, packets[0]);
      var first := WriteOne(c, packets[0]);
      if first.1.Some? {
        WriteAllOrdered(first.0, packets[1..]);
        var rest := WriteAll(first.0, packets[1..]);
        if rest.1.Some? {
          DrawnTogether(first.1.value, rest.1.value, c.nextNumber, first.0.nextNumber, rest.0.nextNumber);
          CarriesTogether(first.1.value, rest.1.value, PacketContents(packets[0], c.mtu),
            AllContents(packets[1..], c.mtu));
        }
      }
    }
  }

  /** The records sent by a run of calls; a call that fails sends nothing but keeps the numbers it drew. */
  function Sent(c: Conn, calls: seq<seq<Packet>>): (r: (Conn, seq<bytes>))
    requires c.mtu > 0
    ensures r.0.mtu == c.mtu
  {
    if calls == [] then (c, [])
    else
      var before := Sent(c, calls[..|calls| - 1]);
      var out := WriteAll(before.0, calls[|calls| - 1]);
      MtuKept(before.0, calls[|calls| - 1]);
      (out.0, before.1 + if out.1.Some? then out.1.value else [])
  }

  lemma {:induction false} MtuKept(c: Conn, packets: seq<Packet>)
    requires c.mtu > 0
    ensures WriteAll(c, packets).0.mtu == c.mtu
    decreases |packets|
  {
    if packets != [] { MtuKept(WriteOne(c, packets[0]).0, packets[1..]); }
  }

  /**
   Over every run of calls, retransmitted flights included, the records of one epoch carry
   strictly increasing numbers within 48 bits, so none is ever repeated.
   */
  lemma {:induction false} RunNumbering(c: Conn, calls: seq<seq<Packet>>)
    requires c.mtu > 0
    requires forall i, j :: 0 <= i < |calls| && 0 <= j < |calls[i]| ==> PacketFits(calls[i][j], c.mtu)
    ensures Later(c.nextNumber, Sent(c, calls).0.nextNumber)
    ensures DrawnInOrder(Sent(c, calls).1, c.nextNumber, Sent(c, calls).0.nextNumber)
  {
    hide Drawn, PacketFits;
    if calls != [] {
      var n := |calls| - 1;
      RunNumbering(c, calls[..n]);
      var before := Sent(c, calls[..n]);
      WriteAllOrdered(before.0, calls[n]);
      var out := WriteAll(before.0, calls[n]);
      var more := if out.1.Some? then out.1.value else [];
      assert DrawnInOrder(more, before.0.nextNumber, out.0.nextNumber);
      DrawnTogether(before.1, more, c.nextNumber, before.0.nextNumber, out.0.nextNumber);
    }
  }

  /** Sending the same packets again repeats every epoch, content type and payload, whatever was drawn between. */
  lemma RetransmissionRepeats(c: Conn, later: Conn, packets: seq<Packet>, i: nat)
    requires c.mtu > 0 && later.mtu == c.mtu
    requires forall k :: 0 <= k < |packets| ==> PacketFits(packets[k], c.mtu)
    requires WriteAll(c, packets).1.Some? && WriteAll(later, packets).1.Some?
    requires i < |WriteAll(c, packets).1.value|
    ensures |WriteAll(later, packets).1.value| == |WriteAll(c, packets).1.value|
    ensures var a, b := WriteAll(c, packets).1.value[i], WriteAll(later, packets).1.value[i];
            && |a| > RECORD_HEADER && |b| > RECORD_HEADER && a[RECORD_HEADER..] == b[RECORD_HEADER..]
            && DecodeRecordHeader(a).Some? && DecodeRecordHeader(b).Some?
            && DecodeRecordHeader(a).value.contentType == DecodeRecordHeader(b).value.contentType
            && DecodeRecordHeader(a).value.epoch == DecodeRecordHeader(b).value.epoch
  {
    hide PacketFits, AllContents, Drawn, Increasing, WriteAll;
    WriteAllOrdered(c, packets);
    WriteAllOrdered(later, packets);
    assert CarriesOne(WriteAll(c, packets).1.value[i], AllContents(packets, c.mtu)[i]);
  }

  // ---------- the writer object ----------

  /** The datagrams of one call: nothing on an error, and none for a call without records. */
  function DatagramsOf(records: Option<seq<bytes>>, mtu: nat): Option<seq<bytes>> {
    if records.None? then None else if records.value == [] then Some([]) else Some(Compact(records.value, mtu))
  }

  class Writer {
    const isClient: bool
    const mtu: nat
    const cache: Cache
    var nextNumber: seq<nat>

    ghost function Abs(): Conn
      reads this, cache
    {
      Conn(isClient, mtu, nextNumber, cache.items)
    }

    constructor (isClient: bool, mtu: nat)
      requires mtu > 0
      ensures fresh(cache) && Abs() == Conn(isClient, mtu, [], []) && this.mtu == mtu && this.isClient == isClient
    {
      this.isClient, this.mtu := isClient, mtu;
      cache := new Cache();
      nextNumber := [];
    }

    /** Appends zero counters until the epoch has one. */
    method Grow(epoch: nat)
      modifies this`nextNumber
      ensures nextNumber == Extended(old(nextNumber), epoch)
    {
      while |nextNumber| <= epoch
        invariant |old(nextNumber)| <= |nextNumber|
        invariant |old(nextNumber)| > epoch ==> nextNumber == old(nextNumber)
        invariant |old(nextNumber)| <= epoch ==> |nextNumber| <= epoch + 1
        invariant nextNumber == old(nextNumber) + seq(|nextNumber| - |old(nextNumber)|, i => 0)
      {
        nextNumber := nextNumber + [0];
      }
    }

    method ProcessPacket(epoch: nat, contentType: byte, payload: bytes) returns (raw: Option<bytes>)
      modifies this`nextNumber
      ensures (nextNumber, if raw.None? then None else Some([raw.value]))
              == StampAll(Extended(old(nextNumber), epoch), epoch, contentType, [payload])
    {
      Grow(epoch);
      var number := nextNumber[epoch];
      nextNumber := nextNumber[epoch := number + 1];
      assert StampAll(nextNumber, epoch, contentType, [payload][1..]) == (nextNumber, Some([]));
      if number > MAX_SEQUENCE {
        return None;
      }
      ContinueDone([Stamp(epoch, number, contentType, payload)]);
      return Some(Stamp(epoch, number, contentType, payload));
    }

    method ProcessHandshakePacket(epoch: nat, m: Message) returns (raw: Option<seq<bytes>>)
      requires mtu > 0
      modifies this`nextNumber
      ensures (nextNumber, raw) == StampAll(Extended(old(nextNumber), epoch), epoch, HANDSHAKE, Fragments(m, mtu))
    {
      var fragments := FragmentHandshake(m, mtu);
      Grow(epoch);
      ghost var all := StampAll(nextNumber, epoch, HANDSHAKE, fragments);
      var records: seq<bytes> := [];
      assert fragments[0..] == fragments;
      ContinueEmpty(all.1);
      for i := 0 to |fragments|
        invariant epoch < |nextNumber|
        invariant var rest := StampAll(nextNumber, epoch, HANDSHAKE, fragments[i..]);
                  all == (rest.0, Continue(records, rest.1))
      {
        var number := nextNumber[epoch];
        nextNumber := nextNumber[epoch := number + 1];
        assert fragments[i..][0] == fragments[i] && fragments[i..][1..] == fragments[i + 1..];
        if number > MAX_SEQUENCE {
          return None;
        }
        var rec := Stamp(epoch, number, HANDSHAKE, fragments[i]);
        ContinueTwice(records, [rec], StampAll(nextNumber, epoch, HANDSHAKE, fragments[i + 1..]).1);
        records := records + [rec];
      }
      ContinueDone(records);
      return Some(records);
    }

    method WritePackets(packets: seq<Packet>) returns (datagrams: Option<seq<bytes>>)
      requires mtu > 0
      modifies this`nextNumber, cache
      ensures Abs() == WriteAll(old(Abs()), packets).0
      ensures datagrams == DatagramsOf(WriteAll(old(Abs()), packets).1, mtu)
    {
      var records: seq<bytes> := [];
      ghost var all := WriteAll(Abs(), packets);
      assert packets[0..] == packets;
      ContinueEmpty(all.1);
      for i := 0 to |packets|
        invariant all == var rest := WriteAll(Abs(), packets[i..]); (rest.0, Continue(records, rest.1))
      {
        ghost var here := Abs();
        assert packets[i..][0] == packets[i] && packets[i..][1..] == packets[i + 1..];
        var out := WritePacket(packets[i]);
        if out.None? {
          return None;
        }
        ContinueTwice(records, out.value, WriteAll(Abs(), packets[i + 1..]).1);
        records := records + out.value;
      }
      ContinueDone(records);
      if |records| == 0 {
        return Some([]);
      }
      var compacted := CompactRawPackets(records, mtu);
      return Some(compacted);
    }

    method WritePacket(p: Packet) returns (records: Option<seq<bytes>>)
      requires mtu > 0
      modifies this`nextNumber, cache
      ensures (Abs(), records) == WriteOne(old(Abs()), p)
    {
      match p
      case HandshakePacket(epoch, m) =>
        cache.Push(EncodeHeader(Header(m.typ, |m.body|, m.seqNum, 0, |m.body|)) + m.body, epoch, m.seqNum, m.typ,
          isClient);
        records := ProcessHandshakePacket(epoch, m);
      case OtherPacket(epoch, contentType, payload) =>
        var raw := ProcessPacket(epoch, contentType, payload);
        records := if raw.None? then None else Some([raw.value]);
    }
  }
}
