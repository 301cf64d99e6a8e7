/**
 When a look-up in the cache of DNS responses hits: an entry that is live, and behind fewer than
 512 other keys in order of use, is found and returned.
 */
module DnsCacheHits {
  import opened Bytes
  import opened DnsTtl
  import opened UseList
  import opened DnsCache

  // ---------- what was used since ----------

  /** The key whose entry an operation stores or finds. */
  function UsedKey(l: Entries, op: Op): (r: Option<bytes>)
    ensures forall key :: Uses(l, op, key) <==> r == Some(key)
  {
    if |op.query| < DNS_HEADER then None
    else if Uses(l, op, KeyOf(op.query)) then Some(KeyOf(op.query))
    else None
  }

  /** The keys used by the operations from position `n` on. */
  function UsedSince(ops: seq<Op>, n: nat): set<bytes> {
    if |ops| <= n then {}
    else
      var front := ops[..|ops| - 1];
      var used := UsedKey(Run(front), ops[|ops| - 1]);
      UsedSince(front, n) + if used.Some? then {used.value} else {}
  }

  /** A key is among them exactly when its last use comes after. */
  lemma {:induction false} UsedSinceIs(ops: seq<Op>, n: nat, key: bytes)
    ensures key in UsedSince(ops, n) <==> LastUse(ops, key) > n
  {
    hide Uses, Run;
    LastUseBound(ops, key);
    if |ops| > n { UsedSinceIs(ops[..|ops| - 1], n, key); }
  }

  function Ahead(l: Entries, i: nat): (r: set<bytes>)
    requires i <= |l|
  {
    if i == 0 then {} else Ahead(l, i - 1) + {l[i - 1].0}
  }

  lemma {:induction false} AheadIs(l: Entries, i: nat, key: bytes)
    requires i <= |l|
    ensures key in Ahead(l, i) <==> exists j :: 0 <= j < i && l[j].0 == key
  {
    if i > 0 { AheadIs(l, i - 1, key); }
  }

  lemma {:induction false} AheadSize(l: Entries, i: nat)
    requires i <= |l| && Distinct(l)
    ensures |Ahead(l, i)| == i
  {
    if i > 0 {
      AheadSize(l, i - 1);
      AheadIs(l, i - 1, l[i - 1].0);
    }
  }

  lemma SubsetSize(a: set<bytes>, b: set<bytes>)
    requires a <= b
    ensures |a| <= |b|
  {
    assert b == a + (b - a);
  }

  /** What stands ahead of an entry was used after it. */
  lemma AheadUsed(ops: seq<Op>, i: nat)
    requires i < |Run(ops)|
    ensures Ahead(Run(ops), i) <= UsedSince(ops, LastUse(ops, Run(ops)[i].0))
  {
    hide Run, UsedSince, LastUse;
    RunGood(ops);
    var l, n := Run(ops), LastUse(ops, Run(ops)[i].0);
    forall key | key in Ahead(l, i) ensures key in UsedSince(ops, n) {
      AheadIs(l, i, key);
      UsedSinceIs(ops, n, key);
    }
  }

  // ---------- live entries ----------

  function Expiry(put: Op): nat
    requires put.PutOp?
  {
    put.now + KeepFor(put.response)
  }

  predicate LooksUp(op: Op, key: bytes) {
    op.GetOp? && |op.query| >= DNS_HEADER && KeyOf(op.query) == key
  }

  /** A response is stored for the key, and no look-up since came after it had expired. */
  ghost predicate Live(ops: seq<Op>, key: bytes) {
    ops != [] &&
    var front, op := ops[..|ops| - 1], ops[|ops| - 1];
    || Stores(op, key)
    || (Live(front, key) &&
        (LooksUp(op, key) && Latest(front, key).Some? && Latest(front, key).value.PutOp? ==>
           op.now <= Expiry(Latest(front, key).value)))
  }

  lemma {:induction false} FindWithout<K, V>(l: Pairs<K, V>, gone: K, key: K)
    requires Distinct(l) && gone != key
    ensures Find(Without(l, gone), key) == Find(l, key)
  {
    WithoutKeeps(l, gone, key);
    WithoutIsPart(l, gone);
    var rest := Without(l, gone);
    PartDistinct(rest, l);
    FindIs(l, key);
    FindIs(rest, key);
    if Find(rest, key).Some? {
      var i :| 0 <= i < |rest| && rest[i].0 == key;
      assert rest[i] in l;
    }
    if Find(l, key).Some? {
      var i :| 0 <= i < |l| && l[i].0 == key;
      assert l[i] in rest;
    }
  }

  lemma {:induction false} WithoutKeeps<K, V>(l: Pairs<K, V>, gone: K, key: K)
    requires gone != key
    ensures forall p :: p in l && p.0 == key ==> p in Without(l, gone)
  {
    if l != [] { WithoutKeeps(l[..|l| - 1], gone, key); }
  }

  lemma PartDistinct<K, V>(a: Pairs<K, V>, l: Pairs<K, V>)
    requires Distinct(l) && PartOf(a, l)
    ensures Distinct(a)
  {
    forall i, j | 0 <= i < j < |a| ensures a[i].0 != a[j].0 { assert Before(l, a[i], a[j]); }
  }

  lemma FindFirst<K, V>(key: K, v: V, rest: Pairs<K, V>, other: K)
    ensures Find([(key, v)] + rest, other) == if other == key then Some(v) else Find(rest, other)
  {
    assert ([(key, v)] + rest)[1..] == rest;
  }

  lemma FindTaken<K, V>(l: Pairs<K, V>, n: nat, i: nat, key: K)
    requires Distinct(l) && i < n <= |l| && l[i].0 == key
    ensures Find(l[..n], key).Some?
  {
    FindIs(l[..n], key);
    assert l[..n][i].0 == key;
  }

  /** A look-up keeps every entry but the one it finds expired. */
  lemma GetKeepsOthers(l: Entries, query: bytes, now: nat, key: bytes)
    requires Distinct(l) && Find(l, key).Some?
    requires |query| >= DNS_HEADER && KeyOf(query) == key ==> now <= Find(l, key).value.expiry
    ensures Find(Get(l, query, now).0, key).Some?
  {
    hide Without, Find;
    if |query| >= DNS_HEADER && Find(l, KeyOf(query)).Some? {
      var other := KeyOf(query);
      FindFirst(other, Find(l, other).value, Without(l, other), key);
      if other != key { FindWithout(l, other, key); }
    }
  }

  /** Storing keeps every entry but the last of a full list that lacks the key. */
  lemma PutKeepsOthers(l: Entries, query: bytes, response: bytes, now: nat, key: bytes, i: nat)
    requires Distinct(l) && |l| <= MAX_ENTRIES && i < |l| && l[i].0 == key
    requires i == MAX_ENTRIES - 1 && |query| >= DNS_HEADER ==> exists j :: 0 <= j < |l| && l[j].0 == KeyOf(query)
    ensures Find(Put(l, query, response, now), key).Some?
  {
    hide Without, Find, KeepFor;
    FindIs(l, key);
    if |query| >= DNS_HEADER && |response| >= DNS_HEADER {
      var other := KeyOf(query);
      var e, others := Entry(response, now + KeepFor(response), KeepFor(response)), Without(l, other);
      var cut := |others| >= |l| && |others| >= MAX_ENTRIES;
      var rest := if cut then others[..MAX_ENTRIES - 1] else others;
      FindFirst(other, e, rest, key);
      if other != key {
        FindWithout(l, other, key);
        if cut {
          forall j | 0 <= j < |l| ensures l[j].0 != other {
            if l[j].0 == other { WithoutPresent(l, other, j); }
          }
          WithoutAbsent(l, other);
          FindTaken(l, MAX_ENTRIES - 1, i, key);
        }
      }
    }
  }

  // ---------- every run ----------

  lemma {:induction false} LiveIsStored(ops: seq<Op>, key: bytes)
    requires Live(ops, key)
    ensures Latest(ops, key).Some? && Latest(ops, key).value.PutOp?
  {
    if !Stores(ops[|ops| - 1], key) { LiveIsStored(ops[..|ops| - 1], key); }
  }

  lemma UsedIsFound(l: Entries, op: Op, key: bytes)
    requires Uses(l, op, key)
    ensures Find(Step(l, op), key).Some?
  {
    hide Without, KeepFor;
  }

  /** Something else is stored. The entry would only be dropped behind 512 other keys used since. */
  lemma {:induction false} PutLeaves(front: seq<Op>, op: Op, key: bytes)
    requires op.PutOp? && !Uses(Run(front), op, key) && Find(Run(front), key).Some?
    requires |UsedSince(front + [op], LastUse(front, key))| < MAX_ENTRIES
    ensures Find(Step(Run(front), op), key).Some?
  {
    RunGood(front);
    var l, n := Run(front), LastUse(front, key);
    hide Run, Find, Put, LastUse, UsedSince, Live;
    FindIs(l, key);
    var i :| 0 <= i < |l| && l[i].0 == key;
    if i == MAX_ENTRIES - 1 && |op.query| >= DNS_HEADER && |op.response| >= DNS_HEADER {
      var other, all := KeyOf(op.query), UsedSince(front + [op], n);
      if forall j :: 0 <= j < |l| ==> l[j].0 != other {
        AheadUsed(front, i);
        AheadSize(l, i);
        AheadIs(l, i, other);
        UsedGrows(front, op, n, key);
        SubsetSize(Ahead(l, i) + {other}, all);
        assert false;
      }
    }
    if |op.query| < DNS_HEADER || |op.response| < DNS_HEADER {
      PutNothing(l, op);
    } else {
      PutKeepsOthers(l, op.query, op.response, op.now, key, i);
    }
  }

  lemma PutNothing(l: Entries, op: Op)
    requires op.PutOp? && (|op.query| < DNS_HEADER || |op.response| < DNS_HEADER)
    ensures Step(l, op) == l
  {
  }

  lemma {:induction false} UsedGrows(front: seq<Op>, op: Op, n: nat, key: bytes)
    requires n == LastUse(front, key)
    ensures UsedSince(front, n) <= UsedSince(front + [op], n)
    ensures forall k :: Uses(Run(front), op, k) ==> k in UsedSince(front + [op], n)
  {
    hide Run, LastUse, Uses;
    LastUseBound(front, key);
    assert (front + [op])[..|front|] == front;
  }

  /** In every run a live entry behind fewer than 512 other keys used since is there. */
  lemma {:induction false} StillThere(ops: seq<Op>, key: bytes)
    requires Live(ops, key) && |UsedSince(ops, LastUse(ops, key))| < MAX_ENTRIES
    ensures Find(Run(ops), key).Some?
    decreases |ops|, 0
  {
    var front, op := ops[..|ops| - 1], ops[|ops| - 1];
    var l := Run(front);
    FrontAndLast(ops);
    LastStep(front, op);
    if Uses(l, op, key) {
      UsedIsFound(l, op, key);
    } else {
      Untouched(front, op, key);
      StillThereAfter(front, op, key);
    }
  }

  lemma {:induction false} StillThereAfter(front: seq<Op>, op: Op, key: bytes)
    requires Live(front + [op], key) && !Uses(Run(front), op, key)
    requires |UsedSince(front + [op], LastUse(front, key))| < MAX_ENTRIES
    ensures Find(Step(Run(front), op), key).Some?
    decreases |front|, 1
  {
    assert (front + [op])[..|front|] == front && (front + [op])[|front|] == op;
    assert Live(front, key);
    var l := Run(front);
    UsedGrows(front, op, LastUse(front, key), key);
    SubsetSize(UsedSince(front, LastUse(front, key)), UsedSince(front + [op], LastUse(front, key)));
    StillThere(front, key);
    RunGood(front);
    LiveIsStored(front, key);
    hide Run, Find, Latest, UsedSince, LastUse, Get, Put, KeepFor;
    FoundIsFaithful(l, front, key);
    if op.PutOp? {
      PutLeaves(front, op, key);
    } else {
      GetKeepsOthers(l, op.query, op.now, key);
    }
  }

  lemma FoundHits(l: Entries, query: bytes, now: nat)
    requires |query| >= DNS_HEADER && Find(l, KeyOf(query)).Some?
    ensures Get(l, query, now).1.Hit? <==> now <= Find(l, KeyOf(query)).value.expiry
  {
    hide Find, Without;
  }

  /**
   In every run, a query whose latest response is live and not expired, and behind fewer than 512
   other keys used since its own last use, hits: it gets that response under its own number.
   */
  lemma {:induction false} LiveEntryHits(ops: seq<Op>, query: bytes, now: nat)
    requires |query| >= DNS_HEADER && Live(ops, KeyOf(query))
    requires Latest(ops, KeyOf(query)).Some? && Latest(ops, KeyOf(query)).value.PutOp?
    requires now <= Expiry(Latest(ops, KeyOf(query)).value)
    requires |UsedSince(ops, LastUse(ops, KeyOf(query)))| < MAX_ENTRIES
    ensures var put, answer := Latest(ops, KeyOf(query)).value, Get(Run(ops), query, now).1;
            && answer.Hit? && |put.response| >= DNS_HEADER && Renumbered(answer.response, query, put.response)
            && (answer.prefetch <==> KeepFor(put.response) > 0 && 10 * (Expiry(put) - now) < KeepFor(put.response))
  {
    hide Run, UsedSince, LastUse, Latest, Live, Find, KeepFor, Without, Get;
    var key := KeyOf(query);
    StillThere(ops, key);
    RunGood(ops);
    FoundIsFaithful(Run(ops), ops, key);
    FoundHits(Run(ops), query, now);
    HitIsLatest(ops, query, now);
    HitFlag(Run(ops), query, now);
  }

  lemma HitFlag(l: Entries, query: bytes, now: nat)
    requires |query| >= DNS_HEADER && Find(l, KeyOf(query)).Some? && Get(l, query, now).1.Hit?
    ensures var e := Find(l, KeyOf(query)).value;
            Get(l, query, now).1.prefetch <==> e.ttl > 0 && 10 * (e.expiry - now) < e.ttl
  {
    hide Find, Without;
  }

  // ---------- when nothing has expired the condition is exact ----------

  /** The operation is no look-up that finds an expired entry. */
  predicate NotExpired(l: Entries, op: Op) {
    op.GetOp? && |op.query| >= DNS_HEADER && Find(l, KeyOf(op.query)).Some? ==>
      op.now <= Find(l, KeyOf(op.query)).value.expiry
  }

  /** No look-up found an expired entry. */
  ghost predicate NoneExpired(ops: seq<Op>) {
    ops == [] || (NoneExpired(ops[..|ops| - 1]) && NotExpired(Run(ops[..|ops| - 1]), ops[|ops| - 1]))
  }

  /** Keys that were used and are gone are older than all that are there, and the list is full. */
  ghost predicate OldestGone(l: Entries, ops: seq<Op>, key: bytes) {
    LastUse(ops, key) > 0 && Find(l, key).None? ==>
      |l| == MAX_ENTRIES && forall i :: 0 <= i < |l| ==> LastUse(ops, l[i].0) > LastUse(ops, key)
  }

  lemma {:induction false} WithoutLength<K, V>(l: Pairs<K, V>, key: K, i: nat)
    requires Distinct(l) && i < |l| && l[i].0 == key
    ensures |Without(l, key)| == |l| - 1
  {
    var front := l[..|l| - 1];
    if i < |front| { WithoutLength(front, key, i); } else { WithoutAbsent(front, key); }
  }

  /** Unless an entry is dropped for being expired, a full list stays full. */
  lemma StaysFull(l: Entries, op: Op)
    requires Distinct(l) && |l| == MAX_ENTRIES && NotExpired(l, op)
    ensures |Step(l, op)| == MAX_ENTRIES
  {
    hide Without, Find, KeepFor;
    if |op.query| >= DNS_HEADER {
      var key := KeyOf(op.query);
      FindIs(l, key);
      if Find(l, key).Some? {
        var i :| 0 <= i < |l| && l[i].0 == key;
        WithoutLength(l, key, i);
      } else {
        WithoutAbsent(l, key);
      }
    }
  }

  /** Every entry after a step was there before, or is the one the step used. */
  lemma EntriesAfter(l: Entries, op: Op, i: nat)
    requires Distinct(l) && i < |Step(l, op)|
    ensures Uses(l, op, Step(l, op)[i].0) || exists j :: 0 <= j < |l| && l[j].0 == Step(l, op)[i].0
  {
    hide Without, Find, KeepFor;
    var e := Step(l, op)[i];
    if |op.query| >= DNS_HEADER {
      WithoutIs(l, KeyOf(op.query));
      if !Uses(l, op, e.0) {
        assert e in l;
      }
    }
  }

  /** Only the last entry of a full list is dropped. */
  lemma DroppedIsLast(l: Entries, op: Op, key: bytes)
    requires Distinct(l) && |l| <= MAX_ENTRIES && Find(l, key).Some? && Find(Step(l, op), key).None?
    requires NotExpired(l, op)
    ensures |l| == MAX_ENTRIES && l[MAX_ENTRIES - 1].0 == key
  {
    hide Find, Get, Put;
    FindIs(l, key);
    var i :| 0 <= i < |l| && l[i].0 == key;
    match op
    case PutOp(query, response, now) =>
      if i != MAX_ENTRIES - 1 { PutKeepsOthers(l, query, response, now, key, i); }
    case GetOp(query, now) => GetKeepsOthers(l, query, now, key);
  }

  lemma {:induction false} OldestGoneKeeps(front: seq<Op>, op: Op, key: bytes)
    requires Good(Run(front), front) && OldestGone(Run(front), front, key) && NotExpired(Run(front), op)
    requires Distinct(Step(Run(front), op))
    ensures OldestGone(Step(Run(front), op), front + [op], key)
  {
    hide Run, Find, LastUse, Get, Put, Uses, Step, NotExpired;
    var l, after := Run(front), Step(Run(front), op);
    if Uses(l, op, key) {
      UsedIsFound(l, op, key);
    } else {
      Untouched(front, op, key);
      if LastUse(front, key) > 0 && Find(after, key).None? {
        if Find(l, key).Some? { DroppedIsLast(l, op, key); }
        StaysFull(l, op);
        forall i | 0 <= i < |after| ensures LastUse(front + [op], after[i].0) > LastUse(front, key) {
          YoungerAfter(front, op, key, i);
        }
      }
    }
  }

  /** What is there after the step is younger than what is gone. */
  lemma {:induction false} YoungerAfter(front: seq<Op>, op: Op, key: bytes, i: nat)
    requires Good(Run(front), front) && i < |Step(Run(front), op)|
    requires Find(Step(Run(front), op), key).None? && Distinct(Step(Run(front), op))
    requires var l := Run(front);
             || (Find(l, key).None? && forall j :: 0 <= j < |l| ==> LastUse(front, l[j].0) > LastUse(front, key))
             || (l != [] && l[|l| - 1].0 == key)
    ensures LastUse(front + [op], Step(Run(front), op)[i].0) > LastUse(front, key)
  {
    var l := Run(front);
    hide Run, Find, LastUse, Get, Put, Uses;
    var k := Step(l, op)[i].0;
    EntriesAfter(l, op, i);
    LastUseBound(front, key);
    if Uses(l, op, k) {
      Touched(front, op, k);
    } else {
      Untouched(front, op, k);
      FindIs(Step(l, op), key);
      var j :| 0 <= j < |l| && l[j].0 == k;
    }
  }

  lemma {:induction false} OldestGoneRuns(ops: seq<Op>, key: bytes)
    requires NoneExpired(ops)
    ensures OldestGone(Run(ops), ops, key)
  {
    hide Step, Find, NotExpired, Faithful, ByRecency;
    if ops != [] {
      var front, op := ops[..|ops| - 1], ops[|ops| - 1];
      FrontAndLast(ops);
      OldestGoneRuns(front, key);
      RunGood(front);
      RunGood(ops);
      LastStep(front, op);
      OldestGoneKeeps(front, op, key);
    }
  }

  /**
   In runs in which no look-up found an expired entry, a key that was used is there exactly when
   fewer than 512 other keys were used since its own last use.
   */
  lemma {:induction false} ThereExactly(ops: seq<Op>, key: bytes)
    requires NoneExpired(ops) && LastUse(ops, key) > 0
    ensures Find(Run(ops), key).Some? <==> |UsedSince(ops, LastUse(ops, key))| < MAX_ENTRIES
  {
    hide Run, Find, UsedSince, LastUse, NoneExpired;
    RunGood(ops);
    OldestGoneRuns(ops, key);
    var l, since := Run(ops), UsedSince(ops, LastUse(ops, key));
    FindIs(l, key);
    if Find(l, key).Some? {
      var i :| 0 <= i < |l| && l[i].0 == key;
      AheadSize(l, i);
      forall k | k in since ensures k in Ahead(l, i) { UsedIsAhead(ops, key, i, k); }
      SubsetSize(since, Ahead(l, i));
    } else {
      AheadSize(l, |l|);
      forall k | k in Ahead(l, |l|) ensures k in since {
        AheadIs(l, |l|, k);
        UsedSinceIs(ops, LastUse(ops, key), k);
      }
      SubsetSize(Ahead(l, |l|), since);
    }
  }

  lemma {:induction false} UsedIsAhead(ops: seq<Op>, key: bytes, i: nat, k: bytes)
    requires NoneExpired(ops) && i < |Run(ops)| && Run(ops)[i].0 == key && k in UsedSince(ops, LastUse(ops, key))
    ensures k in Ahead(Run(ops), i)
  {
    hide Run, Find, UsedSince, LastUse, NoneExpired, Faithful, Ahead, Distinct;
    var l := Run(ops);
    RunGood(ops);
    OldestGoneRuns(ops, k);
    UsedSinceIs(ops, LastUse(ops, key), k);
    FindIs(l, k);
    var j := Standing(l, ops, i, k);
    assert j < i;
    AheadIs(l, i, k);
  }

  /** A key used after an entry that is there is there. */
  lemma Standing(l: Entries, ops: seq<Op>, i: nat, k: bytes) returns (j: nat)
    requires OldestGone(l, ops, k) && i < |l| && LastUse(ops, k) > LastUse(ops, l[i].0)
    requires Find(l, k).Some? <==> exists j :: 0 <= j < |l| && l[j].0 == k
    requires ByRecency(l, ops)
    ensures j < i && l[j].0 == k
  {
    hide LastUse, Find;
    j :| 0 <= j < |l| && l[j].0 == k;
  }

  /**
   In such runs hit and miss are exact: a query hits exactly when a response was stored for it that
   has not expired, and fewer than 512 other keys were used since its last use.
   */
  lemma {:induction false} HitExactly(ops: seq<Op>, query: bytes, now: nat)
    requires NoneExpired(ops) && |query| >= DNS_HEADER
    ensures var put := Latest(ops, KeyOf(query));
            Get(Run(ops), query, now).1.Hit? <==>
              && put.Some? && put.value.PutOp? && now <= Expiry(put.value)
              && |UsedSince(ops, LastUse(ops, KeyOf(query)))| < MAX_ENTRIES
  {
    hide Run, UsedSince, LastUse, Latest, Find, KeepFor, Without, NoneExpired;
    var key := KeyOf(query);
    RunGood(ops);
    if Latest(ops, key).Some? { StoredIsUsed(ops, key); }
    if LastUse(ops, key) > 0 { ThereExactly(ops, key); }
    if Find(Run(ops), key).Some? {
      FoundIsFaithful(Run(ops), ops, key);
      FoundHits(Run(ops), query, now);
    }
  }

  lemma {:induction false} StoredIsUsed(ops: seq<Op>, key: bytes)
    requires Latest(ops, key).Some?
    ensures LastUse(ops, key) > 0
  {
    hide Run, Get;
    if !Stores(ops[|ops| - 1], key) { StoredIsUsed(ops[..|ops| - 1], key); }
  }
}
