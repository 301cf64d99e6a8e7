/**
 The cache of DNS responses: a map for look-up and a list, most recently used first, for
 eviction. The reference is one association list in order of use.
 */
module DnsCache {
  import opened Bytes
  import opened DnsTtl
  import opened UseList

  const MAX_ENTRIES: nat := 512
  const SECOND: nat := 1_000_000_000
  const NXDOMAIN_TTL: nat := 30

  /** A response that is stored has at least a DNS header. */
  type Response = b: bytes | |b| >= 12 witness seq(12, _ => 0)

  datatype Entry = Entry(response: Response, expiry: nat, ttl: nat)

  type Entries = Pairs<bytes, Entry>

  /** A query without its transaction number. */
  function KeyOf(query: bytes): bytes
    requires |query| >= DNS_HEADER
  {
    query[2..]
  }

  /** How long a response is kept: what its records allow, and 30 seconds if the name does not exist. */
  function KeepFor(response: bytes): nat {
    var ttl := CacheTime(response);
    SECOND * if IsNxDomain(response) && ttl > NXDOMAIN_TTL then NXDOMAIN_TTL else ttl
  }

  function Patched(query: bytes, response: bytes): bytes
    requires |query| >= 2 && |response| >= 2
  {
    query[..2] + response[2..]
  }

  /** Queries share a key exactly when they differ in their transaction numbers only. */
  lemma SameQuestion(q: bytes, r: bytes)
    requires |q| >= 12 && |r| >= 12
    ensures KeyOf(q) == KeyOf(r) <==> |q| == |r| && forall i :: 2 <= i < |q| ==> q[i] == r[i]
  {
    if KeyOf(q) == KeyOf(r) {
      forall i | 2 <= i < |q| ensures q[i] == r[i] { assert q[i] == KeyOf(q)[i - 2] == KeyOf(r)[i - 2]; }
    }
  }

  /** The response to one query with the transaction number of another. */
  ghost predicate Renumbered(r: bytes, query: bytes, response: bytes)
    requires |query| >= 2
  {
    && |r| == |response| >= 2 && r[0] == query[0] && r[1] == query[1]
    && forall i :: 2 <= i < |r| ==> r[i] == response[i]
  }

  /** The smallest time to live, at most 300 seconds, and at most 30 where the response code is 3. */
  lemma KeepForIs(response: bytes)
    requires |response| >= 12
    ensures var seconds := CacheTime(response);
            && 1 <= seconds <= 300
            && KeepFor(response) == 1_000_000_000 * if response[3] % 16 == 3 then Min(30, seconds) else seconds
  {
    CacheTimeIs(response);
  }

  // ---------- the reference: an association list in order of use ----------

  /** What a look-up returns. */
  datatype Answer = Miss | Hit(response: bytes, prefetch: bool)

  function Get(l: Entries, query: bytes, now: nat): (r: (Entries, Answer)) {
    if |query| < DNS_HEADER then (l, Miss)
    else
      var found := Find(l, KeyOf(query));
      if found.None? then (l, Miss)
      else if now > found.value.expiry then (Without(l, KeyOf(query)), Miss)
      else
        var e := found.value;
        ([(KeyOf(query), e)] + Without(l, KeyOf(query)),
          Hit(Patched(query, e.response), e.ttl > 0 && 10 * (e.expiry - now) < e.ttl))
  }

  function Put(l: Entries, query: bytes, response: bytes, now: nat): (r: Entries) {
    if |query| < DNS_HEADER || |response| < DNS_HEADER then l
    else
      var e := Entry(response, now + KeepFor(response), KeepFor(response));
      var others := Without(l, KeyOf(query));
      [(KeyOf(query), e)] + if |others| < |l| || |others| < MAX_ENTRIES then others else others[..MAX_ENTRIES - 1]
  }

  // ---------- runs ----------

  datatype Op = PutOp(query: bytes, response: bytes, now: nat) | GetOp(query: bytes, now: nat)

  function Step(l: Entries, op: Op): Entries {
    match op
    case PutOp(query, response, now) => Put(l, query, response, now)
    case GetOp(query, now) => Get(l, query, now).0
  }

  function Run(ops: seq<Op>): Entries {
    if ops == [] then [] else Step(Run(ops[..|ops| - 1]), ops[|ops| - 1])
  }

  lemma {:induction false} LastStep(ops: seq<Op>, op: Op)
    ensures Run(ops + [op]) == Step(Run(ops), op)
  {
    assert (ops + [op])[..|ops|] == ops;
  }

  /** The operation stores a response for the key. */
  predicate Stores(op: Op, key: bytes) {
    op.PutOp? && |op.query| >= DNS_HEADER && |op.response| >= DNS_HEADER && KeyOf(op.query) == key
  }

  /** The latest operation that stored a response for the key. */
  function Latest(ops: seq<Op>, key: bytes): Option<Op> {
    if ops == [] then None
    else if Stores(ops[|ops| - 1], key) then Some(ops[|ops| - 1])
    else Latest(ops[..|ops| - 1], key)
  }

  lemma {:induction false} LatestStores(ops: seq<Op>, key: bytes)
    requires Latest(ops, key).Some?
    ensures Stores(Latest(ops, key).value, key)
  {
    if !Stores(ops[|ops| - 1], key) { LatestStores(ops[..|ops| - 1], key); }
  }

  /** The operation uses the entry of the key: it stores it, or finds it. */
  predicate Uses(l: Entries, op: Op, key: bytes) {
    Stores(op, key) || (op.GetOp? && |op.query| >= DNS_HEADER && KeyOf(op.query) == key &&
      Get(l, op.query, op.now).1.Hit?)
  }

  /** The position after the last use of a key, or 0. */
  function LastUse(ops: seq<Op>, key: bytes): nat {
    if ops == [] then 0
    else if Uses(Run(ops[..|ops| - 1]), ops[|ops| - 1], key) then |ops|
    else LastUse(ops[..|ops| - 1], key)
  }

  lemma {:induction false} LastUseBound(ops: seq<Op>, key: bytes)
    ensures LastUse(ops, key) <= |ops|
  {
    if ops != [] { LastUseBound(ops[..|ops| - 1], key); }
  }

  /** The entry is what an operation stored. */
  ghost predicate StoredBy(e: Entry, op: Option<Op>) {
    op.Some? && op.value.PutOp? && e.response == op.value.response && e.ttl == KeepFor(op.value.response) &&
    e.expiry == op.value.now + e.ttl
  }

  ghost predicate Faithful(l: Entries, ops: seq<Op>) {
    forall i :: 0 <= i < |l| ==> StoredBy(l[i].1, Latest(ops, l[i].0))
  }

  /** The list is in order of last use, most recent first. */
  ghost predicate ByRecency(l: Entries, ops: seq<Op>) {
    forall i, j :: 0 <= i < j < |l| ==> LastUse(ops, l[i].0) > LastUse(ops, l[j].0)
  }

  ghost predicate Good(l: Entries, ops: seq<Op>) {
    l == Run(ops) && Distinct(l) && |l| <= MAX_ENTRIES && Faithful(l, ops) && ByRecency(l, ops)
  }

  /** A key that an operation does not touch keeps its history. */
  lemma {:induction false} Untouched(ops: seq<Op>, op: Op, key: bytes)
    requires !Uses(Run(ops), op, key)
    ensures Latest(ops + [op], key) == Latest(ops, key) && LastUse(ops + [op], key) == LastUse(ops, key)
  {
    assert (ops + [op])[..|ops|] == ops;
  }

  lemma {:induction false} Touched(ops: seq<Op>, op: Op, key: bytes)
    requires Uses(Run(ops), op, key)
    ensures LastUse(ops + [op], key) == |ops| + 1
    ensures Latest(ops + [op], key) == if Stores(op, key) then Some(op) else Latest(ops, key)
  {
    assert (ops + [op])[..|ops|] == ops;
  }

  lemma {:induction false} PartKeeps(l: Entries, rest: Entries, ops: seq<Op>, op: Op)
    requires Good(l, ops) && PartOf(rest, l)
    requires forall i :: 0 <= i < |rest| ==> !Uses(l, op, rest[i].0)
    ensures Distinct(rest) && Faithful(rest, ops + [op]) && ByRecency(rest, ops + [op])
    ensures forall i :: 0 <= i < |rest| ==> LastUse(ops + [op], rest[i].0) <= |ops|
  {
    hide Uses, Latest, LastUse, Run;
    forall i | 0 <= i < |rest|
      ensures Latest(ops + [op], rest[i].0) == Latest(ops, rest[i].0) &&
              LastUse(ops + [op], rest[i].0) == LastUse(ops, rest[i].0)
      ensures LastUse(ops + [op], rest[i].0) <= |ops|
    {
      Untouched(ops, op, rest[i].0);
      LastUseBound(ops, rest[i].0);
    }
  }

  lemma {:induction false} FrontKeeps(l: Entries, key: bytes, e: Entry, rest: Entries, ops: seq<Op>, op: Op)
    requires Good(l, ops) && PartOf(rest, l) && Uses(l, op, key) && StoredBy(e, Latest(ops + [op], key))
    requires forall i :: 0 <= i < |rest| ==> rest[i].0 != key && !Uses(l, op, rest[i].0)
    ensures var r := [(key, e)] + rest; Distinct(r) && Faithful(r, ops + [op]) && ByRecency(r, ops + [op])
  {
    hide Uses, Latest, LastUse, Run;
    PartKeeps(l, rest, ops, op);
    Touched(ops, op, key);
  }

  lemma {:induction false} FoundIsFaithful(l: Entries, ops: seq<Op>, key: bytes)
    requires Distinct(l) && Faithful(l, ops) && Find(l, key).Some?
    ensures StoredBy(Find(l, key).value, Latest(ops, key))
  {
    hide Latest, StoredBy;
    FindIs(l, key);
    var i :| 0 <= i < |l| && l[i].0 == key;
  }

  lemma {:induction false} GetKeeps(l: Entries, ops: seq<Op>, query: bytes, now: nat)
    requires Good(l, ops)
    ensures Good(Get(l, query, now).0, ops + [GetOp(query, now)])
  {
    hide LastUse, Latest, Without, Find, Patched, Run;
    var op := GetOp(query, now);
    LastStep(ops, op);
    if |query| < DNS_HEADER || Find(l, KeyOf(query)).None? {
      PartOfItself(l);
      PartKeeps(l, l, ops, op);
    } else {
      var key := KeyOf(query);
      var rest := Without(l, key);
      WithoutIsPart(l, key);
      if now > Find(l, key).value.expiry {
        PartKeeps(l, rest, ops, op);
      } else {
        FoundIsFaithful(l, ops, key);
        Touched(ops, op, key);
        FrontKeeps(l, key, Find(l, key).value, rest, ops, op);
        FindIs(l, key);
        var i :| 0 <= i < |l| && l[i].0 == key;
        WithoutPresent(l, key, i);
      }
    }
  }

  lemma {:induction false} PutKeeps(l: Entries, ops: seq<Op>, query: bytes, response: bytes, now: nat)
    requires Good(l, ops)
    ensures Good(Put(l, query, response, now), ops + [PutOp(query, response, now)])
  {
    hide LastUse, Latest, Without, Find, KeepFor, Run;
    var op := PutOp(query, response, now);
    LastStep(ops, op);
    if |query| < DNS_HEADER || |response| < DNS_HEADER {
      PartOfItself(l);
      PartKeeps(l, l, ops, op);
    } else {
      var key := KeyOf(query);
      var others := Without(l, key);
      WithoutIsPart(l, key);
      var n := if |others| < |l| || |others| < MAX_ENTRIES then |others| else MAX_ENTRIES - 1;
      assert others[..|others|] == others;
      PartTaken(others, l, n);
      Touched(ops, op, key);
      FrontKeeps(l, key, Entry(response, now + KeepFor(response), KeepFor(response)), others[..n], ops, op);
    }
  }

  /**
   In every run the list has at most 512 distinct keys in order of last use, so that the entry
   dropped for a new one is the least recently used, and each entry is the latest one stored.
   */
  lemma {:induction false} RunGood(ops: seq<Op>)
    ensures Good(Run(ops), ops)
  {
    if ops != [] {
      var front, op := ops[..|ops| - 1], ops[|ops| - 1];
      RunGood(front);
      hide Run, Good, Get, Put;
      assert front + [op] == ops;
      LastStep(front, op);
      match op
      case PutOp(query, response, now) => PutKeeps(Run(front), front, query, response, now);
      case GetOp(query, now) => GetKeeps(Run(front), front, query, now);
    }
  }

  /**
   Every hit in every run returns the latest response stored for that query, with the query's
   transaction number, within the time it may be kept: 300 seconds at most, 30 if the name
   does not exist.
   */
  lemma {:induction false} HitIsLatest(ops: seq<Op>, query: bytes, now: nat)
    requires Get(Run(ops), query, now).1.Hit?
    ensures |query| >= DNS_HEADER && Latest(ops, KeyOf(query)).Some?
    ensures var put := Latest(ops, KeyOf(query)).value;
            && put.PutOp? && |put.response| >= DNS_HEADER
            && |put.query| == |query| && (forall i :: 2 <= i < |query| ==> put.query[i] == query[i])
            && Renumbered(Get(Run(ops), query, now).1.response, query, put.response)
            && now <= put.now + KeepFor(put.response)
            && KeepFor(put.response) <= 300 * SECOND &&
                  (IsNxDomain(put.response) ==> KeepFor(put.response) <= 30 * SECOND)
  {
    hide Run, Latest, CacheTime, Without, Find;
    RunGood(ops);
    FoundIsFaithful(Run(ops), ops, KeyOf(query));
    CacheTimeIs(Latest(ops, KeyOf(query)).value.response);
    LatestStores(ops, KeyOf(query));
    SameQuestion(query, Latest(ops, KeyOf(query)).value.query);
  }

  // ---------- the cache object ----------

  class Cache {
    var entries: map<bytes, Entry>
    var lru: seq<bytes>

    ghost predicate Valid()
      reads this
    {
      Agree(lru, entries) && |lru| <= MAX_ENTRIES
    }

    ghost function Contents(): Entries
      requires Valid()
      reads this
    {
      PairsOf(lru, entries)
    }

    constructor ()
      ensures Valid() && Contents() == []
    {
      entries, lru := map[], [];
    }

    method Lookup(query: bytes, now: nat) returns (r: Answer)
      requires Valid()
      modifies this
      ensures Valid() && (Contents(), r) == Get(old(Contents()), query, now)
    {
      hide Without, Find, KeysWithout, PairsOf;
      if |query| < DNS_HEADER {
        return Miss;
      }
      var key := query[2..];
      PairsFind(lru, entries, key);
      if key !in entries {
        return Miss;
      }
      var entry := entries[key];
      if now > entry.expiry {
        Removed(lru, entries, key);
        lru := KeysWithout(lru, key);
        entries := entries - {key};
        return Miss;
      }
      MovedToFront(lru, entries, key, entry);
      assert entries[key := entry] == entries;
      lru := [key] + KeysWithout(lru, key);
      var response := entry.response;
      response := response[0 := query[0]][1 := query[1]];
      assert response == Patched(query, entry.response);
      var remaining := entry.expiry - now;
      return Hit(response, entry.ttl > 0 && 10 * remaining < entry.ttl);
    }

    method Store(query: bytes, response: bytes, now: nat)
      requires Valid()
      modifies this
      ensures Valid() && Contents() == Put(old(Contents()), query, response, now)
    {
      hide Without, KeysWithout, PairsOf, CacheTime, Agree;
      if |query| < DNS_HEADER || |response| < DNS_HEADER {
        return;
      }
      var key := query[2..];
      var ttl := ParseDnsTtl(response);
      if IsNxDomain(response) && ttl > NXDOMAIN_TTL {
        ttl := NXDOMAIN_TTL;
      }
      var entry := Entry(response, now + SECOND * ttl, SECOND * ttl);
      AgreeOn(lru, entries, key);
      if key in entries {
        MovedToFront(lru, entries, key, entry);
        entries := entries[key := entry];
        lru := [key] + KeysWithout(lru, key);
        return;
      }
      AbsentKey(lru, entries, key);
      while |lru| >= MAX_ENTRIES
        invariant Agree(lru, entries) && key !in lru && |lru| <= |old(lru)|
        invariant |lru| == |old(lru)| || |lru| == MAX_ENTRIES - 1
        invariant AgreeIn(lru, entries) && PairsOf(lru, entries) == old(Contents())[..|lru|]
      {
        Dropped(lru, entries);
        entries := entries - {lru[|lru| - 1]};
        lru := lru[..|lru| - 1];
      }
      Added(lru, entries, key, entry);
      lru := [key] + lru;
      entries := entries[key := entry];
    }
  }

  ghost predicate AgreeIn(keys: seq<bytes>, entries: map<bytes, Entry>) {
    forall k :: k in keys ==> k in entries
  }

  lemma AgreeOn(keys: seq<bytes>, entries: map<bytes, Entry>, key: bytes)
    requires Agree(keys, entries)
    ensures (key in keys <==> key in entries) && AgreeIn(keys, entries)
  {
  }
}
