/**
 How long a DNS response may be cached: a walk over the wire format of section 4.1 of RFC 1035
 that collects the smallest time to live of the answer and authority records.
 */
module DnsTtl {
  import opened Bytes

  const MAX_TTL: nat := 300
  const DNS_HEADER: nat := 12

  // ---------- names ----------

  /** The end of the name at `offset`: labels up to an empty one or a pointer. Other label types are malformed. */
  function NameEnd(data: bytes, offset: nat): (r: Option<nat>)
    ensures r.Some? ==> offset < r.value <= |data|
    decreases |data| - offset
  {
    if offset >= |data| then None
    else
      var n := data[offset];
      if n == 0 then Some(offset + 1)
      else if n >= 0xC0 then (if offset + 1 >= |data| then None else Some(offset + 2))
      else if n >= 0x40 then None
      else NameEnd(data, offset + 1 + n)
  }

  method SkipDnsName(data: bytes, start: nat) returns (r: int)
    ensures r == if NameEnd(data, start).Some? then NameEnd(data, start).value else -1
  {
    var offset := start;
    while true
      invariant NameEnd(data, offset) == NameEnd(data, start)
      decreases |data| - offset
    {
      if offset >= |data| {
        return -1;
      }
      var labelLen: int := data[offset];
      if labelLen == 0 {
        return offset + 1;
      }
      if labelLen / 64 == 3 {
        if offset + 1 >= |data| {
          return -1;
        }
        return offset + 2;
      }
      if labelLen / 64 != 0 {
        return -1;
      }
      offset := offset + 1 + labelLen;
    }
  }

  // ---------- sections ----------

  /** The end of `count` questions: a name, a type and a class each. */
  function QuestionsEnd(data: bytes, offset: nat, count: nat): Option<nat>
    decreases count
  {
    if count == 0 then Some(offset)
    else
      var end := NameEnd(data, offset);
      if end.None? || end.value + 4 > |data| then None else QuestionsEnd(data, end.value + 4, count - 1)
  }

  datatype Record = Record(ttl: nat, end: nat)

  /** The record at `offset`, if it lies in the data completely. */
  function RecordAt(data: bytes, offset: nat): Option<Record> {
    var end := NameEnd(data, offset);
    if end.None? || end.value + 10 > |data| then None
    else
      var at := end.value;
      var stop := at + 10 + Val(data[at + 8..at + 10]);
      if stop > |data| then None else Some(Record(Val(data[at + 4..at + 8]), stop))
  }

  /** The times to live of the records up to the first incomplete one. */
  function Ttls(data: bytes, offset: nat, count: nat): seq<nat>
    decreases count
  {
    if count == 0 || RecordAt(data, offset).None? then []
    else [RecordAt(data, offset).value.ttl] + Ttls(data, RecordAt(data, offset).value.end, count - 1)
  }

  /** All times to live of a response; `None` when the header or the questions are cut short. */
  function ResponseTtls(resp: bytes): Option<seq<nat>> {
    if |resp| < DNS_HEADER then None
    else
      var start := QuestionsEnd(resp, DNS_HEADER, Val(resp[4..6]));
      if start.None? then None else Some(Ttls(resp, start.value, Val(resp[6..8]) + Val(resp[8..10])))
  }

  ghost predicate IsMinimum(m: nat, xs: seq<nat>) {
    m in xs && forall x :: x in xs ==> m <= x
  }

  /** The smallest time to live capped at 300 seconds, and 300 when there is none or it is 0. */
  ghost predicate IsCacheTime(t: nat, resp: bytes) {
    var ttls := ResponseTtls(resp);
    if ttls.None? || ttls.value == [] || 0 in ttls.value then t == MAX_TTL
    else if forall x :: x in ttls.value ==> x >= MAX_TTL then t == MAX_TTL
    else t < MAX_TTL && IsMinimum(t, ttls.value)
  }

  /** The smaller of 300 and the minimum of a list. */
  function Capped(xs: seq<nat>): nat {
    if xs == [] then MAX_TTL
    else
      var rest := Capped(xs[..|xs| - 1]);
      if xs[|xs| - 1] < rest then xs[|xs| - 1] else rest
  }

  lemma {:induction false} CappedIs(xs: seq<nat>)
    ensures Capped(xs) <= MAX_TTL && (forall x :: x in xs ==> Capped(xs) <= x) &&
            (Capped(xs) in xs || Capped(xs) == MAX_TTL)
  {
    if xs != [] {
      CappedIs(xs[..|xs| - 1]);
      assert xs == xs[..|xs| - 1] + [xs[|xs| - 1]];
    }
  }

  function CacheTime(resp: bytes): nat {
    var ttls := ResponseTtls(resp);
    if ttls.None? || ttls.value == [] || Capped(ttls.value) == 0 then MAX_TTL else Capped(ttls.value)
  }

  /** The computed time is the described one, for every byte string, and lies between 1 and 300 seconds. */
  lemma CacheTimeIs(resp: bytes)
    ensures IsCacheTime(CacheTime(resp), resp) && 1 <= CacheTime(resp) <= MAX_TTL
  {
    hide ResponseTtls;
    if ResponseTtls(resp).Some? { CappedIs(ResponseTtls(resp).value); }
  }

  method SkipQuestions(resp: bytes, count: nat) returns (r: Option<nat>)
    ensures r == QuestionsEnd(resp, DNS_HEADER, count)
  {
    var offset: int := DNS_HEADER;
    for i := 0 to count
      invariant offset >= 0 && QuestionsEnd(resp, offset, count - i) == QuestionsEnd(resp, DNS_HEADER, count)
    {
      offset := SkipDnsName(resp, offset);
      if offset < 0 {
        return None;
      }
      offset := offset + 4;
      if offset > |resp| {
        return None;
      }
    }
    return Some(offset);
  }

  // ---------- messages written as section 4.1 of RFC 1035 says ----------

  /** Labels of 1 to 63 bytes, closed by the empty label or by a pointer to an offset below 2^14. */
  datatype Name = Name(labels: seq<bytes>, pointer: Option<nat>)

  predicate GoodName(n: Name) {
    (forall i :: 0 <= i < |n.labels| ==> 0 < |n.labels[i]| < 64) && (n.pointer.Some? ==> n.pointer.value < 0x4000)
  }

  function EncodeName(n: Name): (r: bytes)
    requires GoodName(n)
    ensures |r| > 0
    decreases |n.labels|
  {
    if n.labels != [] then [|n.labels[0]| as byte] + n.labels[0] + EncodeName(n.(labels := n.labels[1..]))
    else if n.pointer.None? then [0]
    else [0xC0 + n.pointer.value / 256, n.pointer.value % 256]
  }

  datatype Question = Question(name: Name, typeAndClass: bytes)

  datatype ResourceRecord = ResourceRecord(name: Name, typeAndClass: bytes, ttl: nat, data: bytes)

  predicate GoodQuestion(q: Question) {
    GoodName(q.name) && |q.typeAndClass| == 4
  }

  predicate GoodRecord(r: ResourceRecord) {
    GoodName(r.name) && |r.typeAndClass| == 4 && r.ttl < U32 && |r.data| < U16
  }

  function EncodeQuestions(qs: seq<Question>): bytes
    requires forall i :: 0 <= i < |qs| ==> GoodQuestion(qs[i])
  {
    if qs == [] then []
    else
      assert GoodQuestion(qs[0]);
      EncodeName(qs[0].name) + qs[0].typeAndClass + EncodeQuestions(qs[1..])
  }

  function EncodeRecord(r: ResourceRecord): bytes
    requires GoodRecord(r)
  {
    EncodeName(r.name) + (r.typeAndClass + BE(r.ttl, 4) + BE(|r.data|, 2) + r.data)
  }

  function EncodeRecords(rs: seq<ResourceRecord>): bytes
    requires forall i :: 0 <= i < |rs| ==> GoodRecord(rs[i])
  {
    if rs == [] then [] else EncodeRecord(rs[0]) + EncodeRecords(rs[1..])
  }

  function TtlsOf(rs: seq<ResourceRecord>): seq<nat> {
    if rs == [] then [] else [rs[0].ttl] + TtlsOf(rs[1..])
  }

  /** A name is skipped to its last byte, wherever it stands. */
  lemma {:induction false} NameReads(n: Name, before: bytes, after: bytes)
    requires GoodName(n)
    ensures NameEnd(before + EncodeName(n) + after, |before|) == Some(|before| + |EncodeName(n)|)
    decreases |n.labels|
  {
    var data := before + EncodeName(n) + after;
    if n.labels != [] {
      var first, rest := n.labels[0], n.(labels := n.labels[1..]);
      var longer := before + ([|first| as byte] + first);
      NameReads(rest, longer, after);
      assert data == longer + EncodeName(rest) + after;
      assert data[|before|] == |first|;
    }
  }

  lemma {:induction false} QuestionsRead(qs: seq<Question>, before: bytes, after: bytes)
    requires forall i :: 0 <= i < |qs| ==> GoodQuestion(qs[i])
    ensures QuestionsEnd(before + EncodeQuestions(qs) + after, |before|, |qs|) == Some(|before| + |EncodeQuestions(qs)|)
    decreases |qs|
  {
    hide NameEnd, EncodeName;
    if qs != [] {
      var q, rest := qs[0], EncodeQuestions(qs[1..]);
      var data := before + EncodeQuestions(qs) + after;
      NameReads(q.name, before, q.typeAndClass + rest + after);
      assert data == before + EncodeName(q.name) + (q.typeAndClass + rest + after);
      var longer := before + EncodeName(q.name) + q.typeAndClass;
      QuestionsRead(qs[1..], longer, after);
      assert data == longer + rest + after;
    }
  }

  lemma RecordReads(r: ResourceRecord, before: bytes, after: bytes)
    requires GoodRecord(r)
    ensures RecordAt(before + EncodeRecord(r) + after, |before|) == Some(Record(r.ttl, |before| + |EncodeRecord(r)|))
  {
    hide NameEnd, EncodeName, BE, Val, Pow256;
    var data := before + EncodeRecord(r) + after;
    var fixed := r.typeAndClass + BE(r.ttl, 4) + BE(|r.data|, 2) + r.data;
    NameReads(r.name, before, fixed + after);
    assert data == before + EncodeName(r.name) + (fixed + after);
    Widths();
    var lead := before + EncodeName(r.name) + r.typeAndClass;
    FieldReads(r.ttl, 4, lead, BE(|r.data|, 2) + r.data + after);
    assert data == lead + BE(r.ttl, 4) + (BE(|r.data|, 2) + r.data + after);
    FieldReads(|r.data|, 2, lead + BE(r.ttl, 4), r.data + after);
    assert data == lead + BE(r.ttl, 4) + BE(|r.data|, 2) + (r.data + after);
  }

  lemma {:induction false} RecordsRead(rs: seq<ResourceRecord>, before: bytes, after: bytes)
    requires forall i :: 0 <= i < |rs| ==> GoodRecord(rs[i])
    ensures Ttls(before + EncodeRecords(rs) + after, |before|, |rs|) == TtlsOf(rs)
    decreases |rs|
  {
    hide RecordAt, EncodeRecord, Ttls, GoodRecord;
    var data := before + EncodeRecords(rs) + after;
    if rs == [] {
      NoTtls(data, |before|);
    } else {
      var first, rest := EncodeRecord(rs[0]), EncodeRecords(rs[1..]);
      RecordReads(rs[0], before, rest + after);
      Inner(before, first, rest, after);
      TtlsStep(data, |before|, |rs|);
      RecordsRead(rs[1..], before + first, after);
    }
  }

  lemma NoTtls(data: bytes, offset: nat)
    ensures Ttls(data, offset, 0) == []
  {
  }

  lemma TtlsStep(data: bytes, offset: nat, count: nat)
    requires count > 0 && RecordAt(data, offset).Some?
    ensures Ttls(data, offset, count)
         == [RecordAt(data, offset).value.ttl] + Ttls(data, RecordAt(data, offset).value.end, count - 1)
  {
    hide RecordAt;
  }

  lemma Inner(a: bytes, b: bytes, c: bytes, d: bytes)
    ensures a + (b + c) + d == a + b + (c + d) == a + b + c + d
  {
  }

  /**
   A whole response with its counts in the header: the walk finds the times to live of exactly
   its answer and authority records, whatever additional records it counts and whatever follows.
   */
  lemma ResponseReads(id: bytes, qs: seq<Question>, answers: seq<ResourceRecord>, authority: seq<ResourceRecord>,
                      extra: nat, additional: bytes)
    requires |id| == 4 && |qs| < U16 && |answers| < U16 && |authority| < U16
    requires forall i :: 0 <= i < |qs| ==> GoodQuestion(qs[i])
    requires forall i :: 0 <= i < |answers + authority| ==> GoodRecord((answers + authority)[i])
    ensures var counts := BE(|qs|, 2) + BE(|answers|, 2) + BE(|authority|, 2) + BE(extra, 2);
            ResponseTtls(id + counts + EncodeQuestions(qs) + EncodeRecords(answers + authority) + additional)
              == Some(TtlsOf(answers + authority))
  {
    hide BE, Val, Pow256, EncodeQuestions, EncodeRecords, QuestionsEnd, Ttls;
    var questions, records := EncodeQuestions(qs), EncodeRecords(answers + authority);
    var header := id + (BE(|qs|, 2) + BE(|answers|, 2) + BE(|authority|, 2) + BE(extra, 2));
    var resp := header + questions + records + additional;
    CountsRead(id, |qs|, |answers|, |authority|, extra, questions + records + additional);
    CountsRegroup(header, questions, records, additional);
    QuestionsRead(qs, header, records + additional);
    RecordsRead(answers + authority, header + questions, additional);
    assert |answers + authority| == |answers| + |authority|;
  }

  lemma CountsRegroup(a: bytes, b: bytes, c: bytes, d: bytes)
    ensures a + b + c + d == a + b + (c + d) == a + (b + c + d)
  {
  }

  /** The first three counts of a header. */
  lemma CountsRead(id: bytes, questions: nat, answers: nat, authority: nat, extra: nat, body: bytes)
    requires |id| == 4 && questions < U16 && answers < U16 && authority < U16
    ensures var resp := id + (BE(questions, 2) + BE(answers, 2) + BE(authority, 2) + BE(extra, 2)) + body;
            |resp| >= DNS_HEADER && Val(resp[4..6]) == questions && Val(resp[6..8]) == answers &&
              Val(resp[8..10]) == authority
  {
    hide BE, Val, Pow256;
    Widths();
    var q, an, ns, ar := BE(questions, 2), BE(answers, 2), BE(authority, 2), BE(extra, 2);
    FourFields(id, q, an, ns, ar, body);
    FieldReads(questions, 2, id, an + ns + ar + body);
    FieldReads(answers, 2, id + q, ns + ar + body);
    FieldReads(authority, 2, id + q + an, ar + body);
  }

  lemma FourFields(id: bytes, a: bytes, b: bytes, c: bytes, d: bytes, body: bytes)
    ensures var all := id + (a + b + c + d) + body;
            && all == id + a + (b + c + d + body)
            && all == id + a + b + (c + d + body)
            && all == id + a + b + c + (d + body)
  {
  }

  lemma CappedLast(xs: seq<nat>, t: nat)
    ensures Capped(xs + [t]) == if t < Capped(xs) then t else Capped(xs)
  {
    assert (xs + [t])[..|xs|] == xs;
  }

  method ReadRecord(resp: bytes, start: nat) returns (r: Option<Record>)
    ensures r == RecordAt(resp, start)
  {
    hide NameEnd, Val;
    var offset := SkipDnsName(resp, start);
    if offset < 0 || offset + 10 > |resp| {
      return None;
    }
    var ttlSec := Val(resp[offset + 4..offset + 8]);
    var rdLen := Val(resp[offset + 8..offset + 10]);
    offset := offset + 10 + rdLen;
    if offset > |resp| {
      return None;
    }
    return Some(Record(ttlSec, offset));
  }

  method MinTtl(resp: bytes, start: nat, count: nat) returns (minTtl: nat, found: bool)
    ensures minTtl == Capped(Ttls(resp, start, count)) && (found <==> Ttls(resp, start, count) != [])
  {
    hide RecordAt, Capped;
    var offset := start;
    minTtl, found := MAX_TTL, false;
    ghost var seen: seq<nat> := [];
    assert Capped(seen) == MAX_TTL by { CappedNone(); }
    for i := 0 to count
      invariant seen + Ttls(resp, offset, count - i) == Ttls(resp, start, count)
      invariant minTtl == Capped(seen) && (found <==> seen != [])
    {
      var record := ReadRecord(resp, offset);
      if record.None? {
        break;
      }
      var ttl := record.value.ttl;
      ghost var rest := Ttls(resp, record.value.end, count - i - 1);
      assert seen + ([ttl] + rest) == (seen + [ttl]) + rest;
      CappedLast(seen, ttl);
      seen := seen + [ttl];
      if ttl < minTtl {
        minTtl, found := ttl, true;
      } else if !found {
        found := true;
      }
      offset := record.value.end;
    }
    assert seen + [] == seen;
  }

  lemma CappedNone()
    ensures Capped([]) == MAX_TTL
  {
  }

  method ParseDnsTtl(resp: bytes) returns (ttl: nat)
    ensures ttl == CacheTime(resp)
  {
    hide Val, Ttls, QuestionsEnd;
    if |resp| < DNS_HEADER {
      return MAX_TTL;
    }
    var qdcount, ancount, nscount := Val(resp[4..6]), Val(resp[6..8]), Val(resp[8..10]);
    var start := SkipQuestions(resp, qdcount);
    if start.None? {
      return MAX_TTL;
    }
    var minTtl, found := MinTtl(resp, start.value, ancount + nscount);
    if !found || minTtl <= 0 {
      return MAX_TTL;
    }
    return minTtl;
  }

  /** A response says the name does not exist. */
  predicate IsNxDomain(resp: bytes) {
    |resp| >= 4 && resp[3] % 16 == 3
  }
}
