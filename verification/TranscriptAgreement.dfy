/**
 Two honest peers and a network that may lose, repeat, delay and reorder datagrams. A peer
 sends flights, new or repeated, cut to its own MTU; the other reassembles them. Whatever the
 network does, the bytes the receiver caches for a message are the unfragmented bytes the
 sender cached, so the peers pull the same transcript and compute the same session hash.
 */
module TranscriptAgreement {
  import opened Bytes
  import opened RecordLayer
  import opened FragmentBuffer
  import opened Fragmentation
  import opened HandshakeCache
  import opened ConnWriter
  import opened ConnReader

  /** A peer: its writer and cache, its reassembly buffer, and the handshake packets it has sent, by number. */
  datatype Peer = Peer(conn: Conn, buf: Buffer, sent: seq<Packet>)

  /** The two peers and every datagram ever put on the wire in each direction. */
  datatype World = World(client: Peer, server: Peer, toServer: set<bytes>, toClient: set<bytes>)

  datatype Event =
    | Send(byClient: bool, packets: seq<Packet>)
    | Deliver(toTheClient: bool, datagram: bytes, index: nat)

  // ---------- sending ----------

  /** New messages take the next number; a number used before stands for the same message again. */
  function Numbered(sent: seq<Packet>, packets: seq<Packet>): (r: Option<seq<Packet>>)
    decreases |packets|
  {
    if packets == [] then Some(sent)
    else
      match packets[0]
      case OtherPacket(_, contentType, _) => if contentType == HANDSHAKE then None else Numbered(sent, packets[1..])
      case HandshakePacket(_, m) =>
        if m.seqNum < |sent| && sent[m.seqNum] == packets[0] then Numbered(sent, packets[1..])
        else if m.seqNum == |sent| && |sent| < U16 - 1 then Numbered(sent + [packets[0]], packets[1..])
        else None
  }

  ghost predicate SendBy(p: Peer, packets: seq<Packet>, q: Peer, out: seq<bytes>) {
    && p.conn.mtu > 0
    && (forall i :: 0 <= i < |packets| ==> PacketFits(packets[i], p.conn.mtu))
    && Numbered(p.sent, packets) == Some(q.sent)
    && q.buf == p.buf
    && WriteAll(p.conn, packets).0 == q.conn
    && DatagramsOf(WriteAll(p.conn, packets).1, p.conn.mtu) == Some(out)
  }

  // ---------- receiving ----------

  /** One record handed to the reassembly buffer. */
  ghost predicate DeliverTo(p: Peer, rec: bytes, q: Peer)
    requires Filed(p.buf)
  {
    var pushed := Pushed(p.buf, rec);
    && Filed(pushed.0)
    && q.sent == p.sent
    && if pushed.1.Accepted? then
         var out := Drained(pushed.0, p.conn.cache, !p.conn.isClient);
         q.buf == out.0 && q.conn == p.conn.(cache := out.1)
       else
         q.buf == pushed.0 && q.conn == p.conn
  }

  // ---------- what holds of one direction ----------

  /** A record is a fragment of a message already sent, or not a handshake record. */
  ghost predicate RecordOk(rec: bytes, sent: seq<Packet>, mtu: nat)
    requires mtu > 0
  {
    && DecodeRecordHeader(rec).Some?
    && (DecodeRecordHeader(rec).value.contentType == HANDSHAKE ==>
          exists k :: 0 <= k < |sent| && sent[k].HandshakePacket? &&
            IsFragmentRecord(rec, sent[k].message, mtu, sent[k].epoch))
  }

  ghost predicate DatagramOk(d: bytes, sent: seq<Packet>, mtu: nat)
    requires mtu > 0
  {
    Unpacked(d).Some? && forall rec :: rec in Unpacked(d).value ==> RecordOk(rec, sent, mtu)
  }

  /** The sent list: consecutive numbers, well-formed messages. */
  ghost predicate SentOk(sent: seq<Packet>) {
    && |sent| < U16
    && forall k :: 0 <= k < |sent| ==>
          sent[k].HandshakePacket? && sent[k].message.seqNum == k && Sendable(sent[k].message)
  }

  ghost predicate BufferOk(b: Buffer, sent: seq<Packet>, mtu: nat)
    requires mtu > 0 && SentOk(sent)
  {
    && Filed(b) && Size(b.cache) < MAX_SIZE && b.current <= |sent|
    && forall k :: k in b.cache ==> k < |sent| && AllOf(b.cache[k], sent[k].message, mtu, sent[k].epoch)
  }

  /** Of one side's messages the cache holds exactly the first `n`. */
  ghost predicate CacheHolds(cache: seq<Item>, isClient: bool, sent: seq<Packet>, n: nat)
    requires n <= |sent| && SentOk(sent)
  {
    && (forall c :: c in cache && c.isClient == isClient ==>
          exists k :: 0 <= k < n && c == MessageItem(sent[k], isClient))
    && (forall k :: 0 <= k < n ==> MessageItem(sent[k], isClient) in cache)
  }

  ghost predicate OneWay(s: Peer, r: Peer, wire: set<bytes>) {
    && s.conn.mtu > 0 && s.conn.isClient != r.conn.isClient
    && SentOk(s.sent)
    && (forall d :: d in wire ==> DatagramOk(d, s.sent, s.conn.mtu))
    && BufferOk(r.buf, s.sent, s.conn.mtu)
    && CacheHolds(r.conn.cache, s.conn.isClient, s.sent, r.buf.current)
    && CacheHolds(s.conn.cache, s.conn.isClient, s.sent, |s.sent|)
  }

  // ---------- sending keeps it ----------

  lemma {:induction false} NumberedKeeps(sent: seq<Packet>, packets: seq<Packet>, mtu: nat)
    requires SentOk(sent) && Numbered(sent, packets).Some?
    requires forall i :: 0 <= i < |packets| ==> PacketFits(packets[i], mtu)
    ensures SentOk(Numbered(sent, packets).value) && sent <= Numbered(sent, packets).value
    ensures forall p :: p in packets && p.HandshakePacket? ==> p in Numbered(sent, packets).value
    ensures forall p :: p in packets && p.OtherPacket? ==> p.contentType != HANDSHAKE
    decreases |packets|
  {
    if packets != [] {
      var p := packets[0];
      var next := if p.HandshakePacket? && p.message.seqNum == |sent| then sent + [p] else sent;
      assert p.HandshakePacket? ==> p in next;
      NumberedKeeps(next, packets[1..], mtu);
      assert forall x :: x in packets ==> x == p || x in packets[1..];
    }
  }

  /** What is sent later does not undo what held before. */
  lemma RecordOkLater(rec: bytes, sent: seq<Packet>, more: seq<Packet>, mtu: nat)
    requires mtu > 0 && RecordOk(rec, sent, mtu) && sent <= more
    ensures RecordOk(rec, more, mtu)
  {
  }

  lemma DatagramOkLater(d: bytes, sent: seq<Packet>, more: seq<Packet>, mtu: nat)
    requires mtu > 0 && DatagramOk(d, sent, mtu) && sent <= more
    ensures DatagramOk(d, more, mtu)
  {
    hide RecordOk, Unpacked;
    forall rec | rec in Unpacked(d).value ensures RecordOk(rec, more, mtu) { RecordOkLater(rec, sent, more, mtu); }
  }

  /** A record that carries part of a packet is in order for every list that contains the packet. */
  lemma CarriedRecordOk(rec: bytes, c: Content, p: Packet, sent: seq<Packet>, mtu: nat)
    requires mtu > 0 && CarriesOne(rec, c) && c in PacketContents(p, mtu)
    requires p.HandshakePacket? ==> p in sent
    requires p.OtherPacket? ==> p.contentType != HANDSHAKE
    ensures RecordOk(rec, sent, mtu)
  {
    hide DecodeRecordHeader, Fragments;
    if p.HandshakePacket? {
      var k :| 0 <= k < |sent| && sent[k] == p;
      assert IsFragmentRecord(rec, sent[k].message, mtu, sent[k].epoch);
    }
  }

  lemma {:induction false} ContentsOfPackets(packets: seq<Packet>, mtu: nat, c: Content) returns (p: Packet)
    requires mtu > 0 && c in AllContents(packets, mtu)
    ensures p in packets && c in PacketContents(p, mtu)
  {
    if c in PacketContents(packets[0], mtu) {
      p := packets[0];
    } else {
      p := ContentsOfPackets(packets[1..], mtu, c);
    }
  }

  lemma RecordsOk(records: seq<bytes>, packets: seq<Packet>, sent: seq<Packet>, mtu: nat, rec: bytes)
    requires mtu > 0 && Carries(records, AllContents(packets, mtu)) && rec in records
    requires forall p :: p in packets && p.HandshakePacket? ==> p in sent
    requires forall p :: p in packets && p.OtherPacket? ==> p.contentType != HANDSHAKE
    ensures WholeRecord(rec) && RecordOk(rec, sent, mtu)
  {
    hide AllContents, RecordOk;
    var i :| 0 <= i < |records| && records[i] == rec;
    var c := AllContents(packets, mtu)[i];
    assert CarriesOne(rec, c);
    var p := ContentsOfPackets(packets, mtu, c);
    CarriedRecordOk(rec, c, p, sent, mtu);
  }

  lemma {:induction false} InFlatten(groups: seq<seq<bytes>>, g: seq<bytes>, rec: bytes)
    requires g in groups && rec in g
    ensures rec in Flatten(groups)
  {
    if g != groups[0] { InFlatten(groups[1..], g, rec); }
  }

  /** Every datagram of a call splits back into records that are in order. */
  lemma PackedDatagramsOk(records: seq<bytes>, sent: seq<Packet>, mtu: nat, d: bytes)
    requires mtu > 0 && records != []
    requires forall rec :: rec in records ==> WholeRecord(rec) && RecordOk(rec, sent, mtu)
    requires d in Compact(records, mtu)
    ensures DatagramOk(d, sent, mtu)
  {
    hide RecordOk, Compact, Unpacked;
    assert forall i :: 0 <= i < |records| ==> records[i] in records;
    var groups := CompactIsPacking(records, mtu);
    var i :| 0 <= i < |groups| && Concat(groups[i]) == d;
    forall rec | rec in groups[i] ensures rec in records { InFlatten(groups, groups[i], rec); }
    UnpackConcat(groups[i]);
  }

  /** A call adds to the cache the messages among its packets, under the sender's own side, and nothing else. */
  lemma {:induction false} CacheAfterWrite(c: Conn, packets: seq<Packet>, x: Item)
    requires c.mtu > 0 && WriteAll(c, packets).1.Some?
    ensures x in WriteAll(c, packets).0.cache <==>
            x in c.cache || exists p :: p in packets && p.HandshakePacket? && x == MessageItem(p, c.isClient)
    decreases |packets|
  {
    if packets != [] {
      hide StampAll, WriteOne;
      var next := WriteOne(c, packets[0]).0;
      CacheAfterOne(c, packets[0]);
      CacheAfterWrite(next, packets[1..], x);
      assert forall p :: p in packets <==> p == packets[0] || p in packets[1..];
    }
  }

  lemma CacheAfterOne(c: Conn, p: Packet)
    requires c.mtu > 0
    ensures var d := WriteOne(c, p).0;
            && d.mtu == c.mtu && d.isClient == c.isClient
            && d.cache == c.cache + if p.HandshakePacket? then [MessageItem(p, c.isClient)] else []
  {
  }

  lemma SenderCacheHolds(c: Conn, packets: seq<Packet>, sent: seq<Packet>, more: seq<Packet>)
    requires c.mtu > 0 && WriteAll(c, packets).1.Some?
    requires SentOk(sent) && CacheHolds(c.cache, c.isClient, sent, |sent|)
    requires SentOk(more) && Numbered(sent, packets) == Some(more) && sent <= more
    requires forall p :: p in packets && p.HandshakePacket? ==> p in more
    ensures CacheHolds(WriteAll(c, packets).0.cache, c.isClient, more, |more|)
  {
    hide WriteAll, Sendable, Numbered;
    var cache := WriteAll(c, packets).0.cache;
    forall x | x in cache && x.isClient == c.isClient
      ensures exists k :: 0 <= k < |more| && x == MessageItem(more[k], c.isClient)
    {
      CacheAfterWrite(c, packets, x);
      if x in c.cache {
        var k :| 0 <= k < |sent| && x == MessageItem(sent[k], c.isClient);
        assert more[k] == sent[k];
      } else {
        var p :| p in packets && p.HandshakePacket? && x == MessageItem(p, c.isClient);
        var k :| 0 <= k < |more| && more[k] == p;
      }
    }
    forall k | 0 <= k < |more| ensures MessageItem(more[k], c.isClient) in cache {
      var x := MessageItem(more[k], c.isClient);
      CacheAfterWrite(c, packets, x);
      if k < |sent| {
        assert more[k] == sent[k];
      } else {
        NewOnesAreSent(sent, packets, k);
        assert more[k] in packets;
      }
    }
  }

  lemma {:induction false} NewOnesAreSent(sent: seq<Packet>, packets: seq<Packet>, k: nat)
    requires Numbered(sent, packets).Some? && |sent| <= k < |Numbered(sent, packets).value|
    ensures Numbered(sent, packets).value[k] in packets
    decreases |packets|
  {
    if packets != [] {
      var p := packets[0];
      var grows := p.HandshakePacket? && !(p.message.seqNum < |sent| && sent[p.message.seqNum] == p);
      var next := if grows then sent + [p] else sent;
      NumberedExtends(next, packets[1..]);
      if k >= |next| { NewOnesAreSent(next, packets[1..], k); }
    }
  }

  lemma {:induction false} NumberedExtends(sent: seq<Packet>, packets: seq<Packet>)
    requires Numbered(sent, packets).Some?
    ensures sent <= Numbered(sent, packets).value
    decreases |packets|
  {
    if packets != [] {
      var p := packets[0];
      var grows := p.HandshakePacket? && !(p.message.seqNum < |sent| && sent[p.message.seqNum] == p);
      NumberedExtends(if grows then sent + [p] else sent, packets[1..]);
    }
  }

  /** The receiver's buffer and cache stay right when more is sent. */
  lemma ReceiverLater(b: Buffer, cache: seq<Item>, isClient: bool, sent: seq<Packet>, more: seq<Packet>, mtu: nat)
    requires mtu > 0 && SentOk(sent) && SentOk(more) && sent <= more
    requires BufferOk(b, sent, mtu) && CacheHolds(cache, isClient, sent, b.current)
    ensures BufferOk(b, more, mtu) && CacheHolds(cache, isClient, more, b.current)
  {
    hide AllOf, Size, Sendable, MessageItem, Filed;
    assert forall k :: 0 <= k < |sent| ==> more[k] == sent[k];
    forall c | c in cache && c.isClient == isClient
      ensures exists k :: 0 <= k < b.current && c == MessageItem(more[k], isClient)
    {
      var k :| 0 <= k < b.current && c == MessageItem(sent[k], isClient);
      assert c == MessageItem(more[k], isClient);
    }
  }

  lemma SendKeepsOutgoing(p: Peer, r: Peer, wire: set<bytes>, packets: seq<Packet>, q: Peer, out: seq<bytes>)
    requires OneWay(p, r, wire) && SendBy(p, packets, q, out)
    ensures OneWay(q, r, wire + (set d | d in out))
  {
    hide BufferOk, CacheHolds, DatagramOk, PacketFits, Numbered, WriteAll, RecordOk, SentOk;
    var mtu := p.conn.mtu;
    NumberedKeeps(p.sent, packets, mtu);
    WriteAllOrdered(p.conn, packets);
    SenderCacheHolds(p.conn, packets, p.sent, q.sent);
    ReceiverLater(r.buf, r.conn.cache, p.conn.isClient, p.sent, q.sent, mtu);
    forall d | d in wire ensures DatagramOk(d, q.sent, mtu) { DatagramOkLater(d, p.sent, q.sent, mtu); }
    SentDatagramsOk(p, packets, q, out);
  }

  lemma SentDatagramsOk(p: Peer, packets: seq<Packet>, q: Peer, out: seq<bytes>)
    requires SendBy(p, packets, q, out) && SentOk(p.sent)
    ensures forall d :: d in out ==> DatagramOk(d, q.sent, p.conn.mtu)
  {
    hide DatagramOk, PacketFits, Numbered, WriteAll, RecordOk, Compact, SentOk;
    var mtu := p.conn.mtu;
    NumberedKeeps(p.sent, packets, mtu);
    WriteAllOrdered(p.conn, packets);
    var records := WriteAll(p.conn, packets).1.value;
    forall rec | rec in records ensures WholeRecord(rec) && RecordOk(rec, q.sent, mtu) {
      RecordsOk(records, packets, q.sent, mtu, rec);
    }
    forall d | d in out ensures DatagramOk(d, q.sent, mtu) {
      PackedDatagramsOk(records, q.sent, mtu, d);
    }
  }

  /** Sending touches neither what the sender has received nor what the other has sent. */
  lemma SendKeepsIncoming(s: Peer, p: Peer, wire: set<bytes>, packets: seq<Packet>, q: Peer, out: seq<bytes>)
    requires OneWay(s, p, wire) && SendBy(p, packets, q, out)
    ensures OneWay(s, q, wire)
  {
    hide DatagramOk, PacketFits, Numbered, WriteAll, SentOk, Size;
    WriteAllOrdered(p.conn, packets);
    assert CacheHolds(q.conn.cache, s.conn.isClient, s.sent, q.buf.current) by {
      forall x: Item | x.isClient == s.conn.isClient ensures x in q.conn.cache <==> x in p.conn.cache {
        CacheAfterWrite(p.conn, packets, x);
      }
    }
  }

  // ---------- receiving keeps it ----------

  lemma WholeMessageReads(m: Message)
    requires Sendable(m)
    ensures DecodeHeader(WholeMessage(m)) == Some(PieceHeader(m, 0, |m.body|))
  {
    HeaderRoundTrip(PieceHeader(m, 0, |m.body|), m.body);
  }

  /** A message comes out of the buffer as the very item its sender cached. */
  lemma PoppedIsSent(b: Buffer, sent: seq<Packet>, mtu: nat, isClient: bool)
    requires mtu > 0 && SentOk(sent) && BufferOk(b, sent, mtu)
    ensures Popped(b).1.Some? ==>
              && b.current < |sent| && Popped(b).0.current == b.current + 1
              && BufferOk(Popped(b).0, sent, mtu)
              && |Popped(b).1.value.0| >= HANDSHAKE_HEADER
              && ReceivedItem(Popped(b).1.value, isClient) == MessageItem(sent[b.current], isClient)
  {
    if Popped(b).1.Some? {
      hide Chain, WholeMessage, Size;
      PoppedKeeps(b);
      var p := sent[b.current];
      assert AllOf(b.cache[b.current], p.message, mtu, p.epoch);
      hide AllOf;
      PopIsExact(b, p.message, mtu, p.epoch);
      WholeMessageReads(p.message);
    }
  }

  lemma CacheHoldsNext(cache: seq<Item>, isClient: bool, sent: seq<Packet>, n: nat)
    requires SentOk(sent) && n < |sent| && CacheHolds(cache, isClient, sent, n)
    ensures CacheHolds(cache + [MessageItem(sent[n], isClient)], isClient, sent, n + 1)
  {
    hide WholeMessage, Sendable;
    var next := cache + [MessageItem(sent[n], isClient)];
    forall k | 0 <= k < n + 1 ensures MessageItem(sent[k], isClient) in next {
      if k == n { assert next[|cache|] == MessageItem(sent[n], isClient); }
    }
  }

  lemma {:induction false} DrainedKeeps(b: Buffer, cache: seq<Item>, sent: seq<Packet>, mtu: nat, isClient: bool)
    requires mtu > 0 && SentOk(sent) && BufferOk(b, sent, mtu) && CacheHolds(cache, isClient, sent, b.current)
    ensures var out := Drained(b, cache, isClient);
            && BufferOk(out.0, sent, mtu) && CacheHolds(out.1, isClient, sent, out.0.current)
            && b.current <= out.0.current
            && forall x: Item :: x.isClient != isClient ==> (x in out.1 <==> x in cache)
    decreases |b.cache|
  {
    hide BufferOk, Popped, SentOk, CacheHolds;
    assert Filed(b) by { BufferFiled(b, sent, mtu); }
    var out := Popped(b);
    if out.1.Some? {
      PoppedIsSent(b, sent, mtu, isClient);
      CacheHoldsNext(cache, isClient, sent, b.current);
      PoppedSmaller(b);
      DrainedKeeps(out.0, cache + [ReceivedItem(out.1.value, isClient)], sent, mtu, isClient);
    }
  }

  lemma BufferFiled(b: Buffer, sent: seq<Packet>, mtu: nat)
    requires mtu > 0 && SentOk(sent) && BufferOk(b, sent, mtu)
    ensures Filed(b)
  {
  }

  lemma PoppedSmaller(b: Buffer)
    requires Filed(b) && Popped(b).1.Some?
    ensures |Popped(b).0.cache| < |b.cache|
  {
  }

  /** A record in order leaves the buffer in order, and is accepted or changes nothing. */
  lemma PushedInOrder(b: Buffer, rec: bytes, sent: seq<Packet>, mtu: nat)
    requires mtu > 0 && SentOk(sent) && BufferOk(b, sent, mtu) && RecordOk(rec, sent, mtu)
    ensures BufferOk(Pushed(b, rec).0, sent, mtu)
    ensures Pushed(b, rec).0.current == b.current
  {
    hide IsFragmentRecord, FragmentOf, Size, Pushed, DecodeRecordHeader, Sendable, Filed;
    PushedKeeps(b, rec);
    if DecodeRecordHeader(rec).value.contentType == HANDSHAKE {
      var k :| 0 <= k < |sent| && sent[k].HandshakePacket? &&
          IsFragmentRecord(rec, sent[k].message, mtu, sent[k].epoch);
      var f := PushFragmentRecord(b, rec, sent[k].message, mtu, sent[k].epoch);
      FragmentsFiled(b, k, f, sent, mtu);
    } else {
      OtherRecord(b, rec);
    }
  }

  lemma OtherRecord(b: Buffer, rec: bytes)
    requires DecodeRecordHeader(rec).Some? && DecodeRecordHeader(rec).value.contentType != HANDSHAKE
    ensures Pushed(b, rec).0 == b
  {
  }

  /** One more fragment of the message it is filed under. */
  lemma FragmentsFiled(b: Buffer, k: nat, f: Fragment, sent: seq<Packet>, mtu: nat)
    requires mtu > 0 && SentOk(sent) && k < |sent| && FragmentOf(f, sent[k].message, mtu, sent[k].epoch)
    requires forall i :: i in b.cache ==> i < |sent| && AllOf(b.cache[i], sent[i].message, mtu, sent[i].epoch)
    ensures var c := Added(b, k, f).cache;
            forall i :: i in c ==> i < |sent| && AllOf(c[i], sent[i].message, mtu, sent[i].epoch)
  {
    hide FragmentOf, Sendable;
  }

  lemma DeliverKeepsIncoming(s: Peer, r: Peer, wire: set<bytes>, rec: bytes, q: Peer)
    requires OneWay(s, r, wire) && RecordOk(rec, s.sent, s.conn.mtu) && DeliverTo(r, rec, q)
    ensures OneWay(s, q, wire)
  {
    hide BufferOk, CacheHolds, DatagramOk, RecordOk, SentOk, Drained, Pushed;
    PushedInOrder(r.buf, rec, s.sent, s.conn.mtu);
    DrainedKeeps(Pushed(r.buf, rec).0, r.conn.cache, s.sent, s.conn.mtu, s.conn.isClient);
  }

  /** Receiving touches neither what the receiver has sent nor its own messages in its cache. */
  lemma DeliverKeepsOutgoing(s: Peer, r: Peer, other: Peer, wire: set<bytes>, back: set<bytes>, rec: bytes, q: Peer)
    requires OneWay(s, r, wire) && OneWay(r, other, back) && RecordOk(rec, s.sent, s.conn.mtu) && DeliverTo(r, rec, q)
    ensures OneWay(q, other, back)
  {
    hide BufferOk, DatagramOk, RecordOk, SentOk, Drained, Pushed;
    PushedInOrder(r.buf, rec, s.sent, s.conn.mtu);
    DrainedKeeps(Pushed(r.buf, rec).0, r.conn.cache, s.sent, s.conn.mtu, s.conn.isClient);
    assert forall x: Item :: x.isClient == r.conn.isClient ==> (x in q.conn.cache <==> x in r.conn.cache);
  }

  // ---------- runs ----------

  ghost predicate Good(w: World) {
    OneWay(w.client, w.server, w.toServer) && OneWay(w.server, w.client, w.toClient) && w.client.conn.isClient
  }

  /** A fresh connection: nothing sent, nothing received, any MTU on either side. */
  ghost predicate Init(w: World) {
    && w.client == Peer(Conn(true, w.client.conn.mtu, [], []), EMPTY, [])
    && w.server == Peer(Conn(false, w.server.conn.mtu, [], []), EMPTY, [])
    && w.client.conn.mtu > 0 && w.server.conn.mtu > 0
    && w.toServer == {} && w.toClient == {}
  }

  ghost predicate Next(w: World, e: Event, v: World)
    requires Filed(w.client.buf) && Filed(w.server.buf)
  {
    match e
    case Send(byClient, packets) =>
      if byClient then
        exists out :: SendBy(w.client, packets, v.client, out) &&
          v == World(v.client, w.server, w.toServer + (set d | d in out), w.toClient)
      else
        exists out :: SendBy(w.server, packets, v.server, out) &&
          v == World(w.client, v.server, w.toServer, w.toClient + (set d | d in out))
    case Deliver(toTheClient, d, i) =>
      && d in (if toTheClient then w.toClient else w.toServer)
      && Unpacked(d).Some? && i < |Unpacked(d).value|
      && if toTheClient then
           DeliverTo(w.client, Unpacked(d).value[i], v.client) && v == w.(client := v.client)
         else
           DeliverTo(w.server, Unpacked(d).value[i], v.server) && v == w.(server := v.server)
  }

  lemma InitGood(w: World)
    requires Init(w)
    ensures Good(w)
  {
    EmptySize();
  }

  lemma NextGood(w: World, e: Event, v: World)
    requires Good(w) && Filed(w.client.buf) && Filed(w.server.buf) && Next(w, e, v)
    ensures Good(v)
  {
    hide SendBy, DeliverTo, OneWay, Unpacked;
    match e
    case Send(byClient, packets) =>
      if byClient {
        var out :| SendBy(w.client, packets, v.client, out) &&
            v == World(v.client, w.server, w.toServer + (set d | d in out), w.toClient);
        SendKeepsOutgoing(w.client, w.server, w.toServer, packets, v.client, out);
        SendKeepsIncoming(w.server, w.client, w.toClient, packets, v.client, out);
        SideKept(w.client, packets, v.client, out);
      } else {
        var out :| SendBy(w.server, packets, v.server, out) &&
            v == World(w.client, v.server, w.toServer, w.toClient + (set d | d in out));
        SendKeepsOutgoing(w.server, w.client, w.toClient, packets, v.server, out);
        SendKeepsIncoming(w.client, w.server, w.toServer, packets, v.server, out);
      }
    case Deliver(toTheClient, d, i) =>
      var rec := Unpacked(d).value[i];
      if toTheClient {
        WireRecordOk(w.server, w.client, w.toClient, d, i);
        DeliverKeepsIncoming(w.server, w.client, w.toClient, rec, v.client);
        DeliverKeepsOutgoing(w.server, w.client, w.server, w.toClient, w.toServer, rec, v.client);
        DeliverSide(w.client, rec, v.client);
      } else {
        WireRecordOk(w.client, w.server, w.toServer, d, i);
        DeliverKeepsIncoming(w.client, w.server, w.toServer, rec, v.server);
        DeliverKeepsOutgoing(w.client, w.server, w.client, w.toServer, w.toClient, rec, v.server);
      }
  }

  lemma WireRecordOk(s: Peer, r: Peer, wire: set<bytes>, d: bytes, i: nat)
    requires OneWay(s, r, wire) && d in wire && Unpacked(d).Some? && i < |Unpacked(d).value|
    ensures s.conn.mtu > 0 && RecordOk(Unpacked(d).value[i], s.sent, s.conn.mtu)
  {
    hide Unpacked, RecordOk, BufferOk, CacheHolds;
    assert DatagramOk(d, s.sent, s.conn.mtu);
  }

  lemma SideKept(p: Peer, packets: seq<Packet>, q: Peer, out: seq<bytes>)
    requires SendBy(p, packets, q, out)
    ensures q.conn.isClient == p.conn.isClient
  {
    hide PacketFits;
    WriteAllOrdered(p.conn, packets);
  }

  lemma DeliverSide(p: Peer, rec: bytes, q: Peer)
    requires Filed(p.buf) && DeliverTo(p, rec, q)
    ensures q.conn.isClient == p.conn.isClient
  {
  }

  ghost predicate IsRun(worlds: seq<World>, events: seq<Event>) {
    && |worlds| == |events| + 1
    && Init(worlds[0])
    && forall i :: 0 <= i < |events| ==>
         Filed(worlds[i].client.buf) && Filed(worlds[i].server.buf) && Next(worlds[i], events[i], worlds[i + 1])
  }

  lemma {:induction false} RunGood(worlds: seq<World>, events: seq<Event>, i: nat)
    requires IsRun(worlds, events) && i < |worlds|
    ensures Good(worlds[i])
  {
    hide Good, Init, Next, Filed;
    if i == 0 {
      InitGood(worlds[0]);
    } else {
      RunGood(worlds, events, i - 1);
      NextGood(worlds[i - 1], events[i - 1], worlds[i - 1 + 1]);
    }
  }

  /** A peer never forgets or rewrites what it has sent. */
  lemma {:induction false} SentGrows(worlds: seq<World>, events: seq<Event>, i: nat, j: nat)
    requires IsRun(worlds, events) && i <= j < |worlds|
    ensures worlds[i].client.sent <= worlds[j].client.sent && worlds[i].server.sent <= worlds[j].server.sent
    decreases j - i
  {
    hide Next, Init, Filed;
    if i < j {
      SentGrows(worlds, events, i, j - 1);
      SentStep(worlds[j - 1], events[j - 1], worlds[j - 1 + 1]);
    }
  }

  lemma SentStep(w: World, e: Event, v: World)
    requires Filed(w.client.buf) && Filed(w.server.buf) && Next(w, e, v)
    ensures w.client.sent <= v.client.sent && w.server.sent <= v.server.sent
  {
    hide WriteAll, Drained, Pushed, Unpacked, PacketFits, Numbered, Filed;
    match e
    case Send(byClient, packets) =>
      NumberedExtends(if byClient then w.client.sent else w.server.sent, packets);
    case Deliver(_, _, _) =>
  }

  // ---------- the theorem ----------

  function PeerOf(w: World, isClient: bool): Peer {
    if isClient then w.client else w.server
  }

  /** How many messages of a side a peer has in its cache: all of its own, and those that came through of the other. */
  function Held(w: World, byClient: bool, side: bool): nat {
    if byClient == side then |PeerOf(w, side).sent| else PeerOf(w, byClient).buf.current
  }

  /** In state `w` a peer already has every message a rule asks for of those sent up to state `v`. */
  ghost predicate HasAll(w: World, byClient: bool, v: World, r: Rule) {
    var sent := PeerOf(v, r.isClient).sent;
    forall k :: 0 <= k < |sent| && sent[k].HandshakePacket? && Matches(MessageItem(sent[k], r.isClient), r) ==>
      k < Held(w, byClient, r.isClient)
  }

  /** Under a rule the cache holds exactly the messages of the list. */
  ghost predicate HoldsExactly(cache: seq<Item>, r: Rule, sent: seq<Packet>)
    requires SentOk(sent)
  {
    && (forall c :: c in cache && Matches(c, r) ==>
          exists k :: 0 <= k < |sent| && c == MessageItem(sent[k], r.isClient))
    && (forall k :: 0 <= k < |sent| && Matches(MessageItem(sent[k], r.isClient), r) ==>
          MessageItem(sent[k], r.isClient) in cache)
  }

  lemma GoodHolds(w: World, byClient: bool, side: bool)
    requires Good(w)
    ensures SentOk(PeerOf(w, side).sent) && Held(w, byClient, side) <= |PeerOf(w, side).sent|
    ensures CacheHolds(PeerOf(w, byClient).conn.cache, side, PeerOf(w, side).sent, Held(w, byClient, side))
  {
    hide DatagramOk, AllOf, Size, CacheHolds, SentOk;
  }

  lemma ExactUnder(w: World, byClient: bool, v: World, r: Rule)
    requires Good(w) && Good(v) && HasAll(w, byClient, v, r)
    requires PeerOf(w, r.isClient).sent <= PeerOf(v, r.isClient).sent
    ensures SentOk(PeerOf(v, r.isClient).sent)
    ensures HoldsExactly(PeerOf(w, byClient).conn.cache, r, PeerOf(v, r.isClient).sent)
  {
    hide Good, Sendable, WholeMessage;
    GoodHolds(w, byClient, r.isClient);
    GoodHolds(v, byClient, r.isClient);
    var cache, sent, all := PeerOf(w, byClient).conn.cache, PeerOf(w, r.isClient).sent, PeerOf(v, r.isClient).sent;
    forall c | c in cache && Matches(c, r) ensures exists k :: 0 <= k < |all| && c == MessageItem(all[k], r.isClient) {
      var k :| 0 <= k < Held(w, byClient, r.isClient) && c == MessageItem(sent[k], r.isClient);
      assert all[k] == sent[k];
    }
    forall k | 0 <= k < |all| && Matches(MessageItem(all[k], r.isClient), r)
      ensures MessageItem(all[k], r.isClient) in cache
    {
      assert all[k] == sent[k];
    }
  }

  lemma ExactAgree(a: seq<Item>, b: seq<Item>, r: Rule, sent: seq<Packet>)
    requires SentOk(sent) && HoldsExactly(a, r, sent) && HoldsExactly(b, r, sent)
    ensures SameUnder(a, b, r)
  {
    hide WholeMessage, Sendable;
    forall c | c in a && Matches(c, r) ensures c in b {
      var k :| 0 <= k < |sent| && c == MessageItem(sent[k], r.isClient);
    }
    forall c | c in b && Matches(c, r) ensures c in a {
      var k :| 0 <= k < |sent| && c == MessageItem(sent[k], r.isClient);
    }
  }

  lemma ItemOrigin(w: World, byClient: bool, v: World, c: Item) returns (k: nat)
    requires Good(w) && c in PeerOf(w, byClient).conn.cache
    requires PeerOf(w, c.isClient).sent <= PeerOf(v, c.isClient).sent
    ensures k < |PeerOf(v, c.isClient).sent| && PeerOf(v, c.isClient).sent[k].HandshakePacket?
    ensures c == MessageItem(PeerOf(v, c.isClient).sent[k], c.isClient) && c.seqNum == k
  {
    GoodHolds(w, byClient, c.isClient);
    hide Good, Sendable, WholeMessage;
    var sent := PeerOf(w, c.isClient).sent;
    k :| 0 <= k < Held(w, byClient, c.isClient) && c == MessageItem(sent[k], c.isClient);
    assert PeerOf(v, c.isClient).sent[k] == sent[k];
  }

  lemma CachesConsistent(w: World, x: bool, v: World, y: bool)
    requires Good(w) && Good(v)
    requires w.client.sent <= v.client.sent && w.server.sent <= v.server.sent
    ensures Consistent(PeerOf(w, x).conn.cache, PeerOf(v, y).conn.cache)
  {
    hide Good;
    forall c, d | c in PeerOf(w, x).conn.cache && d in PeerOf(v, y).conn.cache && c.typ == d.typ &&
      c.isClient == d.isClient &&
                  c.epoch == d.epoch && c.seqNum == d.seqNum
      ensures c.data == d.data
    {
      var k := ItemOrigin(w, x, v, c);
      var j := ItemOrigin(v, y, v, d);
    }
  }

  /**
   The transcript a peer pulls in one state of a run is the transcript any peer pulls in any
   later state, for rules whose messages both have: no loss, repetition, reordering, delay or
   fragmentation shows in it.
   */
  lemma SameTranscript(worlds: seq<World>, events: seq<Event>, i: nat, x: bool, j: nat, y: bool, rules: seq<Rule>)
    requires IsRun(worlds, events) && i <= j < |worlds|
    requires forall n :: 0 <= n < |rules| ==>
             HasAll(worlds[i], x, worlds[j], rules[n]) && HasAll(worlds[j], y, worlds[j], rules[n])
    ensures Transcript(PeerOf(worlds[i], x).conn.cache, rules) == Transcript(PeerOf(worlds[j], y).conn.cache, rules)
  {
    hide Next, Transcript, HasAll, SameUnder, Consistent, Good;
    var w, v := worlds[i], worlds[j];
    RunGood(worlds, events, i);
    RunGood(worlds, events, j);
    SentGrows(worlds, events, i, j);
    CachesConsistent(w, x, v, y);
    var a, b := PeerOf(w, x).conn.cache, PeerOf(v, y).conn.cache;
    forall n | 0 <= n < |rules| ensures SameUnder(a, b, rules[n]) {
      ExactUnder(w, x, v, rules[n]);
      ExactUnder(v, y, v, rules[n]);
      ExactAgree(a, b, rules[n], PeerOf(v, rules[n].isClient).sent);
    }
    TranscriptAgrees(a, b, rules);
  }

  /** The session hash agrees too, for every hash function and the same further bytes. */
  lemma SameSessionHash(worlds: seq<World>, events: seq<Event>, i: nat, x: bool, j: nat, y: bool,
                        hash: bytes -> bytes, epoch: nat, additional: seq<bytes>)
    requires IsRun(worlds, events) && i <= j < |worlds|
    requires forall n :: 0 <= n < |SessionRules(epoch)| ==>
               && HasAll(worlds[i], x, worlds[j], SessionRules(epoch)[n])
               && HasAll(worlds[j], y, worlds[j], SessionRules(epoch)[n])
    ensures SessionHash(PeerOf(worlds[i], x).conn.cache, hash, epoch, additional)
         == SessionHash(PeerOf(worlds[j], y).conn.cache, hash, epoch, additional)
  {
    hide IsRun, HasAll, SessionRules, Transcript;
    SameTranscript(worlds, events, i, x, j, y, SessionRules(epoch));
  }

  // ---------- a message that came through brings all before it ----------

  /** No message of a side from number `n` on falls under any of the rules. */
  ghost predicate NoneAfter(sent: seq<Packet>, isClient: bool, rules: seq<Rule>, n: nat) {
    forall k, m :: n <= k < |sent| && sent[k].HandshakePacket? && 0 <= m < |rules| && rules[m].isClient == isClient ==>
      !Matches(MessageItem(sent[k], isClient), rules[m])
  }

  /** Messages come through in order: a peer that has a message has all messages of its sender up to it. */
  lemma HeldUpTo(w: World, byClient: bool, c: Item)
    requires Good(w) && c in PeerOf(w, byClient).conn.cache
    ensures c.seqNum < Held(w, byClient, c.isClient)
  {
    hide Good, Sendable, WholeMessage;
    GoodHolds(w, byClient, c.isClient);
    var sent := PeerOf(w, c.isClient).sent;
    var k :| 0 <= k < Held(w, byClient, c.isClient) && c == MessageItem(sent[k], c.isClient);
  }

  /** A peer that holds message `c` has all a rule asks for, when nothing under the rules was sent after `c`. */
  lemma HasAllUpTo(w: World, byClient: bool, v: World, c: Item, rules: seq<Rule>, n: nat)
    requires Good(w) && c in PeerOf(w, byClient).conn.cache && n < |rules| && rules[n].isClient == c.isClient
    requires NoneAfter(PeerOf(v, c.isClient).sent, c.isClient, rules, c.seqNum + 1)
    ensures HasAll(w, byClient, v, rules[n])
  {
    hide Good, Matches, WholeMessage;
    HeldUpTo(w, byClient, c);
  }

  /** A peer has its own messages. */
  lemma HasOwn(w: World, side: bool, v: World, rules: seq<Rule>, n: nat)
    requires n < |rules| && rules[n].isClient == side
    requires NoneAfter(PeerOf(v, side).sent, side, rules, |PeerOf(w, side).sent|)
    ensures HasAll(w, side, v, rules[n])
  {
    hide Matches, WholeMessage;
  }

  /** Nothing was sent beyond what was sent. */
  lemma NothingBeyond(w: World, side: bool, rules: seq<Rule>)
    ensures NoneAfter(PeerOf(w, side).sent, side, rules, |PeerOf(w, side).sent|)
  {
  }

  // ---------- hashing a flight before it is sent ----------

  function ClientItems(flight: seq<Packet>): (r: seq<Item>)
    requires forall k :: 0 <= k < |flight| ==> flight[k].HandshakePacket?
    ensures |r| == |flight|
  {
    seq(|flight|, k requires 0 <= k < |flight| => MessageItem(flight[k], true))
  }

  /** The client has sent `flight` right after what it had sent before. */
  ghost predicate SentNext(before: seq<Packet>, flight: seq<Packet>, sent: seq<Packet>) {
    && flight != [] && (forall k :: 0 <= k < |flight| ==> flight[k].HandshakePacket?)
    && |before| + |flight| <= |sent| && sent[..|before|] == before
    && forall k :: 0 <= k < |flight| ==> sent[|before| + k] == flight[k]
  }

  /** Under a rule of the client's, its cache and the flight together hold exactly what it has sent. */
  lemma AheadExactOwn(w: World, v: World, flight: seq<Packet>, rules: seq<Rule>, n: nat)
    requires Good(w) && Good(v) && n < |rules| && rules[n].isClient
    requires SentNext(w.client.sent, flight, v.client.sent)
    requires NoneAfter(v.client.sent, true, rules, |w.client.sent| + |flight|)
    ensures SentOk(v.client.sent)
    ensures HoldsExactly(w.client.conn.cache + ClientItems(flight), rules[n], v.client.sent)
  {
    hide Good, WholeMessage, Sendable, Matches;
    GoodHolds(w, true, true);
    GoodHolds(v, true, true);
    var a, sent, m := w.client.conn.cache, v.client.sent, |w.client.sent|;
    var all := a + ClientItems(flight);
    forall c | c in all && Matches(c, rules[n]) ensures exists k :: 0 <= k < |sent| && c == MessageItem(sent[k], true) {
      AheadOrigin(w, v, flight, rules[n], c);
    }
    forall k | 0 <= k < |sent| && Matches(MessageItem(sent[k], true), rules[n])
      ensures MessageItem(sent[k], true) in all
    {
      if k < m {
        assert sent[k] == w.client.sent[k] && MessageItem(sent[k], true) in a;
      } else {
        assert sent[m + (k - m)] == flight[k - m];
        assert all[|a| + (k - m)] == MessageItem(sent[k], true);
      }
    }
  }

  lemma AheadOrigin(w: World, v: World, flight: seq<Packet>, r: Rule, c: Item)
    requires Good(w) && Good(v) && r.isClient && SentNext(w.client.sent, flight, v.client.sent)
    requires c in w.client.conn.cache + ClientItems(flight) && Matches(c, r)
    ensures exists k :: 0 <= k < |v.client.sent| && v.client.sent[k].HandshakePacket? &&
                        c == MessageItem(v.client.sent[k], true)
  {
    hide Good, WholeMessage, Sendable;
    GoodHolds(w, true, true);
    GoodHolds(v, true, true);
    var sent, m := v.client.sent, |w.client.sent|;
    if c in w.client.conn.cache {
      var k :| 0 <= k < m && c == MessageItem(w.client.sent[k], true);
      assert sent[k] == w.client.sent[k];
    } else {
      var k :| 0 <= k < |flight| && ClientItems(flight)[k] == c;
      assert sent[m + k] == flight[k];
    }
  }

  /** Under a rule of the server's, the flight adds nothing. */
  lemma AheadExactOther(w: World, v: World, flight: seq<Packet>, r: Rule)
    requires Good(w) && Good(v) && !r.isClient && HasAll(w, true, v, r) && w.server.sent <= v.server.sent
    requires forall k :: 0 <= k < |flight| ==> flight[k].HandshakePacket?
    ensures SentOk(v.server.sent) && HoldsExactly(w.client.conn.cache + ClientItems(flight), r, v.server.sent)
  {
    hide Good, WholeMessage, Sendable, HasAll;
    ExactUnder(w, true, v, r);
    var a := w.client.conn.cache;
    assert forall c :: c in ClientItems(flight) ==> !Matches(c, r);
  }

  /** Every item of the list is a message one of the peers has sent, under its number. */
  ghost predicate FromSent(cache: seq<Item>, w: World) {
    forall c :: c in cache ==>
      && c.seqNum < |PeerOf(w, c.isClient).sent| && PeerOf(w, c.isClient).sent[c.seqNum].HandshakePacket?
      && c == MessageItem(PeerOf(w, c.isClient).sent[c.seqNum], c.isClient)
  }

  lemma CacheFromSent(w: World, byClient: bool, v: World)
    requires Good(w) && w.client.sent <= v.client.sent && w.server.sent <= v.server.sent
    ensures FromSent(PeerOf(w, byClient).conn.cache, v)
  {
    hide Good, WholeMessage;
    forall c | c in PeerOf(w, byClient).conn.cache
      ensures c.seqNum < |PeerOf(v, c.isClient).sent| && PeerOf(v, c.isClient).sent[c.seqNum].HandshakePacket?
      ensures c == MessageItem(PeerOf(v, c.isClient).sent[c.seqNum], c.isClient)
    {
      var k := ItemOrigin(w, byClient, v, c);
    }
  }

  lemma FlightFromSent(w: World, v: World, flight: seq<Packet>)
    requires Good(v) && SentNext(w.client.sent, flight, v.client.sent)
    ensures FromSent(ClientItems(flight), v)
  {
    hide Good, WholeMessage, Sendable;
    GoodHolds(v, true, true);
    forall c | c in ClientItems(flight)
      ensures c.seqNum < |v.client.sent| && c == MessageItem(v.client.sent[c.seqNum], true) && c.isClient
    {
      var k :| 0 <= k < |flight| && ClientItems(flight)[k] == c;
      assert v.client.sent[|w.client.sent| + k] == flight[k];
    }
  }

  lemma FromSentConsistent(a: seq<Item>, b: seq<Item>, w: World)
    requires FromSent(a, w) && FromSent(b, w)
    ensures Consistent(a, b)
  {
    hide WholeMessage;
  }

  /** The server has what a rule asks for once it holds the last message of the client's flight. */
  lemma ServerHasAll(w: World, v: World, flight: seq<Packet>, rules: seq<Rule>, n: nat)
    requires Good(v) && n < |rules| && SentNext(w.client.sent, flight, v.client.sent)
    requires NoneAfter(v.client.sent, true, rules, |w.client.sent| + |flight|)
    requires MessageItem(flight[|flight| - 1], true) in v.server.conn.cache
    ensures HasAll(v, false, v, rules[n])
  {
    hide Good, WholeMessage, Sendable, Matches, NoneAfter;
    if rules[n].isClient {
      var c, last := MessageItem(flight[|flight| - 1], true), |w.client.sent| + (|flight| - 1);
      GoodHolds(v, true, true);
      assert v.client.sent[last] == flight[|flight| - 1] && c.seqNum == last;
      HasAllUpTo(v, false, v, c, rules, n);
    }
  }

  /** What the theorem on flights asks of the two states. */
  ghost predicate FlightComesThrough(w: World, v: World, rules: seq<Rule>, flight: seq<Packet>, at: seq<nat>,
                                     last: Item)
  {
    && SentNext(w.client.sent, flight, v.client.sent)
    && Fills(ClientItems(flight), rules, at) && NoneFrom(w.client.conn.cache, rules, at[0])
    && NoneAfter(v.client.sent, true, rules, |w.client.sent| + |flight|)
    && last in w.client.conn.cache && !last.isClient && NoneAfter(v.server.sent, false, rules, last.seqNum + 1)
    && MessageItem(flight[|flight| - 1], true) in v.server.conn.cache
  }

  /**
   The client pulls a transcript and appends the flight it is about to send. In any later state
   in which the last message of that flight has come through, the server pulls the same bytes
   from its own cache, as long as the client held the last of the server's messages under the
   rules and nobody has sent a message under the rules since.
   */
  lemma FlightTranscriptAgrees(worlds: seq<World>, events: seq<Event>, i: nat, j: nat,
                               rules: seq<Rule>, flight: seq<Packet>, at: seq<nat>, last: Item)
    requires IsRun(worlds, events) && i <= j < |worlds|
    requires FlightComesThrough(worlds[i], worlds[j], rules, flight, at, last)
    ensures Transcript(worlds[i].client.conn.cache, rules) + DataOf(ClientItems(flight))
         == Transcript(worlds[j].server.conn.cache, rules)
  {
    hide Next, Transcript, HasAll, SameUnder, Consistent, Good, NoneAfter, Fills, MessageItem, ClientItems, DataOf;
    hide NoneFrom, FromSent, HoldsExactly, IsRun;
    var w, v := worlds[i], worlds[j];
    RunGood(worlds, events, i);
    RunGood(worlds, events, j);
    SentGrows(worlds, events, i, j);
    var a, b := w.client.conn.cache + ClientItems(flight), v.server.conn.cache;
    AheadConsistent(w, v, flight);
    forall n | 0 <= n < |rules| ensures SameUnder(a, b, rules[n]) {
      ServerHasAll(w, v, flight, rules, n);
      ExactUnder(v, false, v, rules[n]);
      if rules[n].isClient {
        AheadExactOwn(w, v, flight, rules, n);
      } else {
        HasAllUpTo(w, true, v, last, rules, n);
        AheadExactOther(w, v, flight, rules[n]);
      }
      ExactAgree(a, b, rules[n], PeerOf(v, rules[n].isClient).sent);
    }
    TranscriptAgrees(a, b, rules);
    FlightAhead(w.client.conn.cache, rules, ClientItems(flight), at);
  }

  lemma AheadConsistent(w: World, v: World, flight: seq<Packet>)
    requires Good(w) && Good(v) && SentNext(w.client.sent, flight, v.client.sent)
    requires w.client.sent <= v.client.sent && w.server.sent <= v.server.sent
    ensures Consistent(w.client.conn.cache + ClientItems(flight), v.server.conn.cache)
  {
    hide Good, MessageItem, Consistent, ClientItems;
    CacheFromSent(w, true, v);
    CacheFromSent(v, false, v);
    FlightFromSent(w, v, flight);
    FromSentConsistent(w.client.conn.cache + ClientItems(flight), v.server.conn.cache, v);
  }

  /** What a client's CertificateVerify signs is what the server checks the signature over. */
  lemma SignedTextAgrees(worlds: seq<World>, events: seq<Event>, i: nat, j: nat, epoch: nat,
                         certificate: Packet, exchange: Packet, last: Item)
    requires IsRun(worlds, events) && i <= j < |worlds|
    requires FlightComesThrough(worlds[i], worlds[j], SessionRules(epoch), [certificate, exchange], [6, 7], last)
    ensures Transcript(worlds[i].client.conn.cache, SessionRules(epoch))
          + (WholeMessage(certificate.message) + WholeMessage(exchange.message))
         == Transcript(worlds[j].server.conn.cache, SessionRules(epoch))
  {
    hide IsRun, Fills, NoneFrom, NoneAfter, SessionRules, Transcript, DataOf, WholeMessage;
    FlightTranscriptAgrees(worlds, events, i, j, SessionRules(epoch), [certificate, exchange], [6, 7], last);
    assert [certificate, exchange][0] == certificate && [certificate, exchange][1] == exchange;
    var first, second := MessageItem(certificate, true), MessageItem(exchange, true);
    assert ClientItems([certificate, exchange]) == [first] + [second];
    DataOfSum([first], [second]);
    DataOfOne(first);
    DataOfOne(second);
  }

  /** The session hash of a client that is about to send its key exchange is the hash of the server that received it. */
  lemma SessionHashAgrees(worlds: seq<World>, events: seq<Event>, i: nat, j: nat,
                          hash: bytes -> bytes, epoch: nat, flight: seq<Packet>, at: seq<nat>, last: Item)
    requires IsRun(worlds, events) && i <= j < |worlds|
    requires FlightComesThrough(worlds[i], worlds[j], SessionRules(epoch), flight, at, last)
    ensures SessionHash(worlds[i].client.conn.cache, hash, epoch, [DataOf(ClientItems(flight))])
         == SessionHash(worlds[j].server.conn.cache, hash, epoch, [])
  {
    hide IsRun, Fills, NoneFrom, NoneAfter, SessionRules, Transcript, DataOf, ClientItems;
    FlightTranscriptAgrees(worlds, events, i, j, SessionRules(epoch), flight, at, last);
    var ahead, there := DataOf(ClientItems(flight)), Transcript(worlds[j].server.conn.cache, SessionRules(epoch));
    ConcatOne(ahead);
    assert there + Concat([]) == there;
  }
}
