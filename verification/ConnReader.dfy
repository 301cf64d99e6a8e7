/**
 The receiving side of a connection: a handshake record goes into the reassembly buffer, and
 every message that is then complete moves into the handshake cache.
 */
module ConnReader {
  import opened Bytes
  import opened RecordLayer
  import opened FragmentBuffer
  import opened HandshakeCache

  function ReceivedItem(content: (bytes, nat), fromClient: bool): Item
    requires |content.0| >= HANDSHAKE_HEADER
  {
    var h := DecodeHeader(content.0).value;
    Item(h.typ, fromClient, content.1, h.messageSeq, content.0)
  }

  /** The pop loop: every message that is complete moves into the cache. */
  function Drained(b: Buffer, cache: seq<Item>, fromClient: bool): (r: (Buffer, seq<Item>))
    requires Filed(b)
    decreases |b.cache|
  {
    var out := Popped(b);
    if out.1.None? then (b, cache)
    else Drained(out.0, cache + [ReceivedItem(out.1.value, fromClient)], fromClient)
  }

  class Reader {
    const isClient: bool
    const buffer: FragmentStore
    const cache: Cache

    constructor (isClient: bool, cache: Cache)
      ensures fresh(buffer) && this.cache == cache && this.isClient == isClient
      ensures buffer.Valid() && buffer.Abs() == EMPTY
    {
      this.isClient, this.cache := isClient, cache;
      buffer := new FragmentStore();
    }

    /** Pushes one record; on a handshake record runs the pop loop. Reports the push outcome. */
    method HandleRecord(rec: bytes) returns (outcome: PushOutcome)
      requires buffer.Valid()
      modifies buffer, cache
      ensures buffer.Valid()
      ensures outcome == Pushed(old(buffer.Abs()), rec).1
      ensures Filed(Pushed(old(buffer.Abs()), rec).0)
      ensures (buffer.Abs(), cache.items) ==
              var pushed := Pushed(old(buffer.Abs()), rec);
              if pushed.1.Accepted? then Drained(pushed.0, old(cache.items), !isClient)
              else (pushed.0, old(cache.items))
    {
      outcome := buffer.Push(rec);
      if outcome.Accepted? {
        ghost var all := Drained(buffer.Abs(), cache.items, !isClient);
        var content := buffer.Pop();
        while content.Some?
          invariant buffer.Valid()
          invariant content.Some? ==> |content.value.0| >= HANDSHAKE_HEADER
          invariant all == if content.None? then (buffer.Abs(), cache.items)
                           else Drained(buffer.Abs(), cache.items + [ReceivedItem(content.value, !isClient)], !isClient)
          decreases |buffer.cache|, if content.Some? then 1 else 0
        {
          var header := DecodeHeader(content.value.0);
          cache.Push(content.value.0, content.value.1, header.value.messageSeq, header.value.typ, !isClient);
          content := buffer.Pop();
        }
      }
    }
  }
}
