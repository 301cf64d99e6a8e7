/**
 Reassembly of fragmented handshake messages. Fragments are kept per message sequence
 number; `pop` follows the chain of offsets of the current message and hands it out whole.
 */
module FragmentBuffer {
  import opened Bytes
  import opened RecordLayer

  const MAX_SIZE: nat := 2_000_000

  datatype Fragment = Fragment(record: RecordHeader, header: Header, data: bytes)

  datatype Buffer = Buffer(cache: map<nat, seq<Fragment>>, current: nat)

  datatype PushError = Overflow | BadRecord | BadHeader

  datatype PushOutcome = NotHandshake | Accepted(isRetransmit: bool) | Failed(error: PushError)

  /** The header value a fresh fragment starts with. */
  const ZERO_RECORD := RecordHeader(0, 0, 0, 0, 0, [], 0)

  const EMPTY := Buffer(map[], 0)

  ghost predicate FragmentsOk(frags: seq<Fragment>, messageSeq: nat) {
    forall i :: 0 <= i < |frags| ==> HeaderFits(frags[i].header) && frags[i].header.messageSeq == messageSeq
  }

  /** Every stored fragment stands under its own message sequence number. */
  ghost predicate Filed(b: Buffer) {
    && b.current < U16
    && forall k :: k in b.cache ==> k < U16 && b.cache[k] != [] && FragmentsOk(b.cache[k], k)
  }

  // ---------- size ----------

  function FragmentsSize(frags: seq<Fragment>): nat {
    if frags == [] then 0 else FragmentsSize(frags[..|frags| - 1]) + |frags[|frags| - 1].data|
  }

  /** Bytes held under the keys of `keys` below `n`. */
  function SizeBelow(cache: map<nat, seq<Fragment>>, keys: set<nat>, n: nat): nat {
    if n == 0 then 0
    else SizeBelow(cache, keys, n - 1) +
         if n - 1 in keys && n - 1 in cache then FragmentsSize(cache[n - 1]) else 0
  }

  function Size(cache: map<nat, seq<Fragment>>): nat {
    SizeBelow(cache, cache.Keys, U16)
  }

  lemma {:induction false} SizeWithout(cache: map<nat, seq<Fragment>>, keys: set<nat>, k: nat, n: nat)
    requires k in keys && k in cache
    ensures SizeBelow(cache, keys, n) ==
            SizeBelow(cache, keys - {k}, n) + if k < n then FragmentsSize(cache[k]) else 0
  {
    if n > 0 { SizeWithout(cache, keys, k, n - 1); }
  }

  lemma {:induction false} SizeSame(c: map<nat, seq<Fragment>>, d: map<nat, seq<Fragment>>, keys: set<nat>,
    other: set<nat>, n: nat)
    requires forall k :: k < n && k in keys && k in c <==> k < n && k in other && k in d
    requires forall k :: k in keys && k in other && k in c && k in d ==> c[k] == d[k]
    ensures SizeBelow(c, keys, n) == SizeBelow(d, other, n)
  {
    if n > 0 { SizeSame(c, d, keys, other, n - 1); }
  }

  lemma {:induction false} SizeEmpty(cache: map<nat, seq<Fragment>>, n: nat)
    ensures SizeBelow(cache, {}, n) == 0
  {
    if n > 0 { SizeEmpty(cache, n - 1); }
  }

  lemma EmptySize()
    ensures Size(EMPTY.cache) == 0
  {
    assert EMPTY.cache.Keys == {};
    SizeEmpty(EMPTY.cache, U16);
  }

  /** Replacing one entry changes the size by the difference of that entry. */
  lemma SizeReplaced(cache: map<nat, seq<Fragment>>, k: nat, frags: seq<Fragment>)
    requires k < U16
    ensures Size(cache[k := frags]) ==
            Size(cache) - (if k in cache then FragmentsSize(cache[k]) else 0) + FragmentsSize(frags)
  {
    var after := cache[k := frags];
    SizeWithout(after, after.Keys, k, U16);
    SizeSame(cache, after, cache.Keys - {k}, after.Keys - {k}, U16);
    if k in cache {
      SizeWithout(cache, cache.Keys, k, U16);
    } else {
      assert cache.Keys - {k} == cache.Keys;
    }
  }

  lemma SizeRemoved(cache: map<nat, seq<Fragment>>, k: nat)
    requires k in cache
    ensures Size(cache - {k}) <= Size(cache)
  {
    SizeWithout(cache, cache.Keys, k, U16);
    SizeSame(cache - {k}, cache, (cache - {k}).Keys, cache.Keys - {k}, U16);
  }

  // ---------- push ----------

  function Entry(cache: map<nat, seq<Fragment>>, k: nat): seq<Fragment> {
    if k in cache then cache[k] else []
  }

  /** The end of the stored data: the whole message, or what the record holds of it. */
  function DataEnd(h: Header, size: nat): (r: nat)
    requires size >= HANDSHAKE_HEADER
    ensures HANDSHAKE_HEADER <= r <= size
  {
    if HANDSHAKE_HEADER + h.length > size then size else HANDSHAKE_HEADER + h.length
  }

  /** Only the first handshake message of a record keeps that record's header. */
  function PushAll(b: Buffer, record: RecordHeader, buf: bytes, isRetransmit: bool): (r: (Buffer, PushOutcome))
    decreases |buf|
  {
    if buf == [] then (b, Accepted(isRetransmit))
    else if |buf| < HANDSHAKE_HEADER then (b, Failed(BadHeader))
    else
      var h := DecodeHeader(buf).value;
      var end := DataEnd(h, |buf|);
      var frag := Fragment(record, h, buf[HANDSHAKE_HEADER..end]);
      PushAll(Buffer(b.cache[h.messageSeq := Entry(b.cache, h.messageSeq) + [frag]], b.current), ZERO_RECORD,
              buf[end..], h.fragOffset == 0 && h.messageSeq < b.current)
  }

  function Pushed(b: Buffer, buf: bytes): (r: (Buffer, PushOutcome)) {
    if Size(b.cache) + |buf| >= MAX_SIZE then (b, Failed(Overflow))
    else
      var record := DecodeRecordHeader(buf);
      if record.None? then (b, Failed(BadRecord))
      else if record.value.contentType != HANDSHAKE then (b, NotHandshake)
      else PushAll(b, record.value, buf[RECORD_HEADER..], false)
  }

  lemma {:induction false} PushAllKeeps(b: Buffer, record: RecordHeader, buf: bytes, isRetransmit: bool)
    requires Filed(b)
    ensures Filed(PushAll(b, record, buf, isRetransmit).0)
    ensures PushAll(b, record, buf, isRetransmit).0.current == b.current
    ensures Size(PushAll(b, record, buf, isRetransmit).0.cache) <= Size(b.cache) + |buf|
    decreases |buf|
  {
    if |buf| >= HANDSHAKE_HEADER {
      var h := DecodeHeader(buf).value;
      var end := DataEnd(h, |buf|);
      var frag := Fragment(record, h, buf[HANDSHAKE_HEADER..end]);
      var next := Entry(b.cache, h.messageSeq) + [frag];
      SizeReplaced(b.cache, h.messageSeq, next);
      assert next[..|next| - 1] == Entry(b.cache, h.messageSeq);
      PushAllKeeps(Buffer(b.cache[h.messageSeq := next], b.current), ZERO_RECORD, buf[end..],
                   h.fragOffset == 0 && h.messageSeq < b.current);
    }
  }

  /** The buffer stays filed and below the cap for every byte string offered. */
  lemma PushedKeeps(b: Buffer, buf: bytes)
    requires Filed(b) && Size(b.cache) < MAX_SIZE
    ensures Filed(Pushed(b, buf).0) && Size(Pushed(b, buf).0.cache) < MAX_SIZE
    ensures Pushed(b, buf).0.current == b.current
  {
    var record := DecodeRecordHeader(buf);
    if Size(b.cache) + |buf| < MAX_SIZE && record.Some? && record.value.contentType == HANDSHAKE {
      PushAllKeeps(b, record.value, buf[RECORD_HEADER..], false);
    }
  }

  // ---------- pop ----------

  /** The first fragment that starts at `offset`. */
  function First(frags: seq<Fragment>, offset: nat): (r: Option<Fragment>)
    ensures r.Some? ==> r.value in frags && r.value.header.fragOffset == offset
    ensures r.None? <==> forall f :: f in frags ==> f.header.fragOffset != offset
  {
    if frags == [] then None
    else if frags[0].header.fragOffset == offset then Some(frags[0])
    else First(frags[1..], offset)
  }

  function FragmentEnd(h: Header): nat {
    h.fragOffset + h.fragLength
  }

  predicate IsLink(h: Header) {
    FragmentEnd(h) != h.length && h.fragLength != 0
  }

  /** The data from `offset` on, collected fragment by fragment; offsets strictly grow along the chain. */
  function Chain(frags: seq<Fragment>, offset: nat): (r: Option<bytes>)
    requires forall f :: f in frags ==> HeaderFits(f.header)
    decreases if offset < U24 then U24 - offset else 0
  {
    var first := First(frags, offset);
    if first.None? then None
    else if IsLink(first.value.header) then Continue(first.value.data, Chain(frags, FragmentEnd(first.value.header)))
    else Some(first.value.data)
  }

  function WholeHeader(h: Header): Header {
    h.(fragOffset := 0, fragLength := h.length)
  }

  function Popped(b: Buffer): (r: (Buffer, Option<(bytes, nat)>))
    requires Filed(b)
  {
    if b.current !in b.cache then (b, None)
    else
      var frags := b.cache[b.current];
      var body := Chain(frags, 0);
      if body.None? then (b, None)
      else
        (Buffer(b.cache - {b.current}, (b.current + 1) % U16),
         Some((EncodeHeader(WholeHeader(frags[0].header)) + body.value, frags[0].record.epoch)))
  }

  /** A popped message carries the current number, which moves on by one; nothing grows. */
  lemma PoppedKeeps(b: Buffer)
    requires Filed(b) && Size(b.cache) < MAX_SIZE
    ensures Filed(Popped(b).0) && Size(Popped(b).0.cache) < MAX_SIZE
    ensures Popped(b).1.None? ==> Popped(b).0 == b
    ensures Popped(b).1.Some? ==>
              && Popped(b).0.current == (b.current + 1) % U16
              && DecodeHeader(Popped(b).1.value.0).Some?
              && DecodeHeader(Popped(b).1.value.0).value.messageSeq == b.current
  {
    if Popped(b).1.Some? {
      SizeRemoved(b.cache, b.current);
      var frags := b.cache[b.current];
      HeaderRoundTrip(WholeHeader(frags[0].header), Chain(frags, 0).value);
    }
  }

  // ---------- every sequence of pushes and pops ----------

  datatype Op = PushOp(buf: bytes) | PopOp

  function Step(b: Buffer, op: Op): (r: (Buffer, seq<bytes>))
    requires Filed(b)
  {
    match op
    case PushOp(buf) => (Pushed(b, buf).0, [])
    case PopOp => (Popped(b).0, if Popped(b).1.Some? then [Popped(b).1.value.0] else [])
  }

  lemma StepKeeps(b: Buffer, op: Op)
    requires Filed(b) && Size(b.cache) < MAX_SIZE
    ensures Filed(Step(b, op).0) && Size(Step(b, op).0.cache) < MAX_SIZE
    ensures |Step(b, op).1| <= 1 && Step(b, op).0.current == (b.current + |Step(b, op).1|) % U16
    ensures forall m :: m in Step(b, op).1 ==> DecodeHeader(m).Some? && DecodeHeader(m).value.messageSeq == b.current
  {
    hide Pushed, Popped, DecodeHeader, Size;
    match op
    case PushOp(buf) => PushedKeeps(b, buf);
    case PopOp => PoppedKeeps(b);
  }

  /** The buffer and the messages handed out after the given pushes and pops on a new buffer. */
  function Run(ops: seq<Op>): (r: (Buffer, seq<bytes>))
    ensures Filed(r.0) && Size(r.0.cache) < MAX_SIZE
  {
    if ops == [] then
      EmptySize();
      (EMPTY, [])
    else
      var r := Run(ops[..|ops| - 1]);
      var op := ops[|ops| - 1];
      StepKeeps(r.0, op);
      (Step(r.0, op).0, r.1 + Step(r.0, op).1)
  }

  /**
   Whatever bytes arrive, the buffer stays below its cap and the `i`-th message handed out
   carries sequence number `i`, taken modulo the 16-bit counter.
   */
  lemma {:induction false} ReassemblyRuns(ops: seq<Op>)
    ensures Size(Run(ops).0.cache) < MAX_SIZE
    ensures Run(ops).0.current == |Run(ops).1| % U16
    ensures forall i :: 0 <= i < |Run(ops).1| ==>
              && DecodeHeader(Run(ops).1[i]).Some?
              && DecodeHeader(Run(ops).1[i]).value.messageSeq == i % U16
  {
    hide Size, Step, DecodeHeader;
    if ops != [] {
      ReassemblyRuns(ops[..|ops| - 1]);
      StepKeeps(Run(ops[..|ops| - 1]).0, ops[|ops| - 1]);
    }
  }

  // ---------- the buffer object ----------

  class FragmentStore {
    var cache: map<nat, seq<Fragment>>
    var current: nat

    ghost predicate Valid()
      reads this
    {
      Filed(Abs()) && Size(cache) < MAX_SIZE
    }

    ghost function Abs(): Buffer
      reads this
    {
      Buffer(cache, current)
    }

    constructor ()
      ensures Valid() && Abs() == EMPTY
    {
      cache, current := map[], 0;
      new;
      EmptySize();
    }

    /** The bytes held, added up over the map in any order. */
    method TotalSize() returns (size: nat)
      requires Valid()
      ensures size == Size(cache)
    {
      size := 0;
      var keys := cache.Keys;
      while keys != {}
        invariant keys <= cache.Keys
        invariant size + SizeBelow(cache, keys, U16) == Size(cache)
        decreases |keys|
      {
        var i :| i in keys;
        SizeWithout(cache, keys, i, U16);
        var frags := cache[i];
        var sum := 0;
        for j := 0 to |frags|
          invariant sum == FragmentsSize(frags[..j])
        {
          assert frags[..j + 1][..j] == frags[..j];
          sum := sum + |frags[j].data|;
        }
        assert frags[..|frags|] == frags;
        size := size + sum;
        keys := keys - {i};
      }
      SizeEmpty(cache, U16);
    }

    method Push(input: bytes) returns (outcome: PushOutcome)
      requires Valid()
      modifies this
      ensures Valid()
      ensures (Abs(), outcome) == Pushed(old(Abs()), input)
    {
      PushedKeeps(Abs(), input);
      var size := TotalSize();
      if size + |input| >= MAX_SIZE {
        return Failed(Overflow);
      }
      var record := DecodeRecordHeader(input);
      if record.None? {
        return Failed(BadRecord);
      }
      if record.value.contentType != HANDSHAKE {
        return NotHandshake;
      }
      outcome := PushMessages(record.value, input[RECORD_HEADER..]);
    }

    /** The loop over the handshake messages of one record. */
    method PushMessages(first: RecordHeader, payload: bytes) returns (outcome: PushOutcome)
      modifies this
      ensures (Abs(), outcome) == PushAll(old(Abs()), first, payload, false)
    {
      var buf, record, isRetransmit := payload, first, false;
      while |buf| != 0
        invariant PushAll(Abs(), record, buf, isRetransmit) == PushAll(old(Abs()), first, payload, false)
        decreases |buf|
      {
        if |buf| < HANDSHAKE_HEADER {
          return Failed(BadHeader);
        }
        var h := DecodeHeader(buf).value;
        isRetransmit := h.fragOffset == 0 && h.messageSeq < current;
        var end := HANDSHAKE_HEADER + h.length;
        if end > |buf| {
          end := |buf|;
        }
        var frag := Fragment(record, h, buf[HANDSHAKE_HEADER..end]);
        cache := cache[h.messageSeq := Entry(cache, h.messageSeq) + [frag]];
        buf := buf[end..];
        record := ZERO_RECORD;
      }
      return Accepted(isRetransmit);
    }

    /** Finds the fragment at the offset, then the rest of the chain, and puts its data in front. */
    method AppendMessage(frags: seq<Fragment>, offset: nat) returns (raw: Option<bytes>)
      requires forall f :: f in frags ==> HeaderFits(f.header)
      ensures raw == Chain(frags, offset)
      decreases if offset < U24 then U24 - offset else 0
    {
      for i := 0 to |frags|
        invariant First(frags, offset) == First(frags[i..], offset)
      {
        var h := frags[i].header;
        assert frags[i..][0] == frags[i] && frags[i..][1..] == frags[i + 1..];
        assert frags[i] in frags;
        if h.fragOffset == offset {
          var fragmentEnd := h.fragOffset + h.fragLength;
          if fragmentEnd != h.length && h.fragLength != 0 {
            var rest := AppendMessage(frags, fragmentEnd);
            if rest.None? {
              return None;
            }
            return Some(frags[i].data + rest.value);
          }
          return Some(frags[i].data);
        }
      }
      return None;
    }

    method Pop() returns (content: Option<(bytes, nat)>)
      requires Valid()
      modifies this
      ensures Valid()
      ensures (Abs(), content) == Popped(old(Abs()))
    {
      PoppedKeeps(Abs());
      if current !in cache {
        return None;
      }
      var frags := cache[current];
      var raw := AppendMessage(frags, 0);
      if raw.None? {
        return None;
      }
      var first := frags[0].header;
      first := first.(fragOffset := 0);
      first := first.(fragLength := first.length);
      var epoch := frags[0].record.epoch;
      cache := cache - {current};
      current := (current + 1) % U16;
      return Some((EncodeHeader(first) + raw.value, epoch));
    }
  }
}
