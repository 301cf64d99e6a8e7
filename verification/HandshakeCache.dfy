/**
 The cache of handshake messages sent and received, and the transcripts pulled from it.
 Of several messages that match a rule the one with the highest sequence number is taken,
 the earliest pushed among equals.
 */
module HandshakeCache {
  import opened Bytes
  import opened RecordLayer

  datatype Item = Item(typ: byte, isClient: bool, epoch: nat, seqNum: nat, data: bytes)

  datatype Rule = Rule(typ: byte, epoch: nat, isClient: bool, optional: bool)

  const CLIENT_HELLO: byte := 1
  const SERVER_HELLO: byte := 2
  const CERTIFICATE: byte := 11
  const SERVER_KEY_EXCHANGE: byte := 12
  const CERTIFICATE_REQUEST: byte := 13
  const SERVER_HELLO_DONE: byte := 14
  const CERTIFICATE_VERIFY: byte := 15
  const CLIENT_KEY_EXCHANGE: byte := 16
  const FINISHED: byte := 20

  predicate Matches(c: Item, r: Rule) {
    c.typ == r.typ && c.isClient == r.isClient && c.epoch == r.epoch
  }

  // ---------- pull ----------

  function Better(best: Option<Item>, c: Item, r: Rule): Option<Item> {
    if !Matches(c, r) then best
    else if best.None? then Some(c)
    else if best.value.seqNum < c.seqNum then Some(c)
    else best
  }

  function Best(cache: seq<Item>, r: Rule): (b: Option<Item>) {
    if cache == [] then None else Better(Best(cache[..|cache| - 1], r), cache[|cache| - 1], r)
  }

  /** The match with the highest number, and the first pushed of those. */
  ghost predicate IsBest(cache: seq<Item>, r: Rule, k: nat)
    requires k < |cache|
  {
    && Matches(cache[k], r)
    && (forall j :: 0 <= j < |cache| && Matches(cache[j], r) ==> cache[j].seqNum <= cache[k].seqNum)
    && (forall j :: 0 <= j < k && Matches(cache[j], r) ==> cache[j].seqNum < cache[k].seqNum)
  }

  /** A rule finds nothing exactly when nothing matches; otherwise it finds the best match. */
  lemma {:induction false} BestIsBest(cache: seq<Item>, r: Rule)
    ensures Best(cache, r).None? <==> forall c :: c in cache ==> !Matches(c, r)
    ensures Best(cache, r).Some? ==>
            exists k: nat :: k < |cache| && cache[k] == Best(cache, r).value && IsBest(cache, r, k)
  {
    if cache != [] {
      var n := |cache| - 1;
      var front := cache[..n];
      BestIsBest(front, r);
      assert forall c :: c in cache <==> c in front || c == cache[n];
      if Best(cache, r).Some? {
        if Best(front, r).Some? {
          var k: nat :| k < n && front[k] == Best(front, r).value && IsBest(front, r, k);
          if Best(cache, r) == Best(front, r) && !(Matches(cache[n], r) && cache[k].seqNum < cache[n].seqNum) {
            assert IsBest(cache, r, k);
          } else {
            assert IsBest(cache, r, n);
          }
        } else {
          assert IsBest(cache, r, n);
        }
      }
    }
  }

  function Pulled(cache: seq<Item>, rules: seq<Rule>): seq<Option<Item>> {
    seq(|rules|, i requires 0 <= i < |rules| => Best(cache, rules[i]))
  }

  function Merge(items: seq<Option<Item>>): bytes {
    if items == [] then []
    else Merge(items[..|items| - 1]) + if items[|items| - 1].Some? then items[|items| - 1].value.data else []
  }

  /** The transcript of the given rules. */
  function Transcript(cache: seq<Item>, rules: seq<Rule>): (r: bytes) {
    Merge(Pulled(cache, rules))
  }

  function SessionRules(epoch: nat): seq<Rule> {
    [ Rule(CLIENT_HELLO, epoch, true, false), Rule(SERVER_HELLO, epoch, false, false),
      Rule(CERTIFICATE, epoch, false, false), Rule(SERVER_KEY_EXCHANGE, epoch, false, false),
      Rule(CERTIFICATE_REQUEST, epoch, false, false), Rule(SERVER_HELLO_DONE, epoch, false, false),
      Rule(CERTIFICATE, epoch, true, false), Rule(CLIENT_KEY_EXCHANGE, epoch, true, false) ]
  }

  /** The session hash over the transcript and the messages not sent yet. */
  function SessionHash(cache: seq<Item>, hash: bytes -> bytes, epoch: nat, additional: seq<bytes>): bytes {
    hash(Transcript(cache, SessionRules(epoch)) + Concat(additional))
  }

  // ---------- pulling a gapless run of messages ----------

  /** Every rule that is not optional finds something. */
  predicate NoneMissing(cache: seq<Item>, rules: seq<Rule>) {
    forall i :: 0 <= i < |rules| && !rules[i].optional ==> Best(cache, rules[i]).Some?
  }

  /** The next expected number after checking the items found, or nothing at the first one that does not fit. */
  function InSequence(found: seq<Option<Item>>, start: int, parses: bytes -> bool): (r: Option<int>) {
    if found == [] then Some(start)
    else
      var before := InSequence(found[..|found| - 1], start, parses);
      var last := found[|found| - 1];
      if before.None? || last.None? then before
      else if !parses(last.value.data) || DecodeHeader(last.value.data).None? then None
      else if before.value % U16 != DecodeHeader(last.value.data).value.messageSeq then None
      else Some(before.value + 1)
  }

  /** The last rule for a message type. */
  function LastRule(rules: seq<Rule>, typ: byte): (r: Option<Rule>)
    ensures r.Some? ==> r.value in rules && r.value.typ == typ
    ensures r.None? ==> forall k :: 0 <= k < |rules| ==> rules[k].typ != typ
  {
    if rules == [] then None
    else if rules[|rules| - 1].typ == typ then Some(rules[|rules| - 1])
    else LastRule(rules[..|rules| - 1], typ)
  }

  function SlotOf(cache: seq<Item>, rules: seq<Rule>, typ: byte): Option<Item> {
    var r := LastRule(rules, typ);
    if r.None? then None else Best(cache, r.value)
  }

  /** What stands for each rule in a table with one slot per message type. */
  function Slots(cache: seq<Item>, rules: seq<Rule>): (r: seq<Option<Item>>)
    ensures |r| == |rules|
  {
    seq(|rules|, i requires 0 <= i < |rules| => SlotOf(cache, rules, rules[i].typ))
  }

  /** Rules for different message types do not share a slot. */
  lemma OwnSlots(cache: seq<Item>, rules: seq<Rule>)
    requires forall i, j :: 0 <= i < j < |rules| ==> rules[i].typ != rules[j].typ
    ensures Slots(cache, rules) == Pulled(cache, rules)
  {
    hide Best;
    forall i | 0 <= i < |rules| ensures LastRule(rules, rules[i].typ) == Some(rules[i]) {
      var r := LastRule(rules, rules[i].typ);
      var k :| 0 <= k < |rules| && rules[k] == r.value;
    }
  }

  /** The next expected number and the messages found, when they are all there, parse, and leave no gap. */
  function FullPull(cache: seq<Item>, start: int, rules: seq<Rule>, parses: bytes -> bool)
    : (r: Option<(int, seq<Option<Item>>)>)
  {
    if !NoneMissing(cache, rules) then None
    else
      var found := Slots(cache, rules);
      var next := InSequence(found, start, parses);
      if next.None? || (forall i :: 0 <= i < |found| ==> found[i].None?) then None else Some((next.value, found))
  }

  function Present(found: seq<Option<Item>>): (r: seq<Item>) {
    if found == [] then []
    else Present(found[..|found| - 1]) + if found[|found| - 1].Some? then [found[|found| - 1].value] else []
  }

  /** Once an item does not fit, nothing after it matters. */
  lemma {:induction false} StopsHere(found: seq<Option<Item>>, i: nat, start: int, parses: bytes -> bool)
    requires i < |found| && InSequence(found[..i + 1], start, parses).None?
    ensures InSequence(found, start, parses).None?
  {
    if i + 1 < |found| {
      assert found[..|found| - 1][..i + 1] == found[..i + 1];
      StopsHere(found[..|found| - 1], i, start, parses);
    } else {
      assert found[..i + 1] == found;
    }
  }

  /** The messages handed over carry consecutive numbers from the start, in the order of the rules. */
  lemma {:induction false} NoGap(found: seq<Option<Item>>, start: int, parses: bytes -> bool)
    requires InSequence(found, start, parses).Some?
    ensures InSequence(found, start, parses).value == start + |Present(found)|
    ensures forall k :: 0 <= k < |Present(found)| ==>
              && parses(Present(found)[k].data) && DecodeHeader(Present(found)[k].data).Some?
              && DecodeHeader(Present(found)[k].data).value.messageSeq == (start + k) % U16
  {
    hide DecodeHeader;
    if found != [] { NoGap(found[..|found| - 1], start, parses); }
  }

  // ---------- agreement ----------

  /** Messages of the same kind, side, epoch and number have the same bytes. */
  ghost predicate Consistent(cache: seq<Item>, other: seq<Item>) {
    forall c, d :: c in cache && d in other && c.typ == d.typ && c.isClient == d.isClient && c.epoch == d.epoch &&
      c.seqNum == d.seqNum
      ==> c.data == d.data
  }

  /** The two caches hold the same messages under a rule, in whatever order and number. */
  ghost predicate SameUnder(cache: seq<Item>, other: seq<Item>, r: Rule) {
    && (forall c :: c in cache && Matches(c, r) ==> c in other)
    && (forall c :: c in other && Matches(c, r) ==> c in cache)
  }

  lemma BestAgrees(cache: seq<Item>, other: seq<Item>, r: Rule)
    requires Consistent(cache, other) && SameUnder(cache, other, r)
    ensures Best(cache, r).None? <==> Best(other, r).None?
    ensures Best(cache, r).Some? ==> Best(cache, r).value.data == Best(other, r).value.data
  {
    hide Best;
    BestIsBest(cache, r);
    BestIsBest(other, r);
    if Best(cache, r).Some? {
      var k: nat :| k < |cache| && cache[k] == Best(cache, r).value && IsBest(cache, r, k);
      assert cache[k] in cache;
      var j: nat :| j < |other| && other[j] == Best(other, r).value && IsBest(other, r, j);
      assert other[j] in other && other[j] in cache && cache[k] in other;
    }
  }

  lemma {:induction false} MergeAgrees(a: seq<Option<Item>>, b: seq<Option<Item>>)
    requires |a| == |b|
    requires forall i :: 0 <= i < |a| ==>
             (a[i].None? <==> b[i].None?) && (a[i].Some? ==> a[i].value.data == b[i].value.data)
    ensures Merge(a) == Merge(b)
  {
    if a != [] { MergeAgrees(a[..|a| - 1], b[..|b| - 1]); }
  }

  /** Caches that hold the same messages give the same transcript, whatever the order and the duplicates. */
  lemma TranscriptAgrees(cache: seq<Item>, other: seq<Item>, rules: seq<Rule>)
    requires Consistent(cache, other)
    requires forall i :: 0 <= i < |rules| ==> SameUnder(cache, other, rules[i])
    ensures Transcript(cache, rules) == Transcript(other, rules)
  {
    hide Best, Consistent, SameUnder;
    forall i | 0 <= i < |rules|
      ensures var a, b := Pulled(cache, rules)[i], Pulled(other, rules)[i];
              (a.None? <==> b.None?) && (a.Some? ==> a.value.data == b.value.data)
    {
      BestAgrees(cache, other, rules[i]);
    }
    MergeAgrees(Pulled(cache, rules), Pulled(other, rules));
  }

  // ---------- the messages about to be sent ----------

  /** Pushing a message that a rule does not match leaves the rule's answer alone. */
  lemma BestUnmoved(cache: seq<Item>, c: Item, r: Rule)
    ensures !Matches(c, r) ==> Best(cache + [c], r) == Best(cache, r)
    ensures Matches(c, r) && Best(cache, r).None? ==> Best(cache + [c], r) == Some(c)
  {
    assert (cache + [c])[..|cache|] == cache;
  }

  lemma {:induction false} MergeSplit(a: seq<Option<Item>>, b: seq<Option<Item>>)
    ensures Merge(a + b) == Merge(a) + Merge(b)
  {
    if b == [] {
      assert a + b == a;
    } else {
      MergeSplit(a, b[..|b| - 1]);
      FrontOfSum(a, b);
    }
  }

  /**
   The client computes its Finished over the cache followed by the messages it is about to
   send; that is the transcript the cache gives once the next message has been pushed, as long
   as the message is the first match of its rule and no later rule has found anything.
   */
  lemma TranscriptAhead(cache: seq<Item>, c: Item, before: seq<Rule>, r: Rule, after: seq<Rule>)
    requires Matches(c, r) && Best(cache, r).None?
    requires forall i :: 0 <= i < |before| ==> !Matches(c, before[i])
    requires forall i :: 0 <= i < |after| ==> !Matches(c, after[i]) && Best(cache, after[i]).None?
    ensures Transcript(cache + [c], before + [r] + after) == Transcript(cache, before + [r] + after) + c.data
    ensures forall i :: 0 <= i < |after| ==> Best(cache + [c], after[i]).None?
  {
    hide Best, Matches;
    BestUnmoved(cache, c, r);
    forall i | 0 <= i < |before|
      ensures Best(cache + [c], before[i]) == Best(cache, before[i])
    {
      BestUnmoved(cache, c, before[i]);
    }
    forall i | 0 <= i < |after| ensures Best(cache + [c], after[i]).None? { BestUnmoved(cache, c, after[i]); }
    AheadParts(cache, before, r, after);
    AheadParts(cache + [c], before, r, after);
    assert Pulled(cache + [c], before) == Pulled(cache, before);
  }

  lemma AheadParts(cache: seq<Item>, before: seq<Rule>, r: Rule, after: seq<Rule>)
    requires forall i :: 0 <= i < |after| ==> Best(cache, after[i]).None?
    ensures Transcript(cache, before + [r] + after) ==
            Merge(Pulled(cache, before)) + if Best(cache, r).Some? then Best(cache, r).value.data else []
  {
    hide Best;
    var p, q, s := Pulled(cache, before), [Best(cache, r)], Pulled(cache, after);
    assert Pulled(cache, before + [r] + after) == p + q + s;
    MergeSplit(p + q, s);
    MergeSplit(p, q);
    assert q[..0] == [] && Merge(q[..0]) == [];
    MergeNothing(s);
  }

  lemma {:induction false} MergeNothing(a: seq<Option<Item>>)
    requires forall i :: 0 <= i < |a| ==> a[i].None?
    ensures Merge(a) == []
  {
    if a != [] { MergeNothing(a[..|a| - 1]); }
  }

  /** The rules of the whole handshake up to the client's Finished. */
  function FinishedRules(epoch: nat): seq<Rule> {
    SessionRules(epoch) + [Rule(CERTIFICATE_VERIFY, epoch, true, false), Rule(FINISHED, epoch + 1, true, false)]
  }

  function DataOf(items: seq<Item>): bytes {
    if items == [] then [] else DataOf(items[..|items| - 1]) + items[|items| - 1].data
  }

  predicate NoneYet(cache: seq<Item>, typ: byte, epoch: nat) {
    Best(cache, Rule(typ, epoch, true, false)).None?
  }

  /** One message ahead, at position `n` of the rules. */
  lemma AheadAt(cache: seq<Item>, c: Item, rules: seq<Rule>, n: nat)
    requires n < |rules| && Matches(c, rules[n]) && Best(cache, rules[n]).None?
    requires forall i :: 0 <= i < |rules| && i != n ==> !Matches(c, rules[i])
    requires forall i :: n < i < |rules| ==> Best(cache, rules[i]).None?
    ensures Transcript(cache + [c], rules) == Transcript(cache, rules) + c.data
    ensures forall i :: n < i < |rules| ==> Best(cache + [c], rules[i]).None?
  {
    hide Best, Transcript;
    assert rules[..n] + [rules[n]] + rules[n + 1..] == rules;
    TranscriptAhead(cache, c, rules[..n], rules[n], rules[n + 1..]);
    forall i | n < i < |rules| ensures Best(cache + [c], rules[i]).None? {
      assert rules[n + 1..][i - n - 1] == rules[i];
    }
  }

  /** Each message of a flight matches one rule only, and the rules come in the order of the messages. */
  ghost predicate Fills(items: seq<Item>, rules: seq<Rule>, at: seq<nat>) {
    && |items| == |at|
    && (forall k :: 0 <= k < |at| ==> at[k] < |rules| && Matches(items[k], rules[at[k]]))
    && (forall k, n :: 0 <= k < |at| && 0 <= n < |rules| && n != at[k] ==> !Matches(items[k], rules[n]))
    && (forall k, l :: 0 <= k < l < |at| ==> at[k] < at[l])
  }

  /** Nothing found yet from rule `n` on. */
  ghost predicate NoneFrom(cache: seq<Item>, rules: seq<Rule>, n: nat) {
    forall i :: n <= i < |rules| ==> Best(cache, rules[i]).None?
  }

  lemma {:induction false} DataOfSum(a: seq<Item>, b: seq<Item>)
    ensures DataOf(a + b) == DataOf(a) + DataOf(b)
  {
    if b == [] {
      assert a + b == a;
    } else {
      DataOfSum(a, b[..|b| - 1]);
      FrontOfSum(a, b);
      Associates(DataOf(a), DataOf(b[..|b| - 1]), b[|b| - 1].data);
    }
  }

  lemma DataOfOne(c: Item)
    ensures DataOf([c]) == c.data
  {
    assert DataOf([c]) == DataOf([]) + c.data;
    assert [] + c.data == c.data;
  }

  /**
   A peer hashes a flight before sending it. The transcript it uses, the cache followed by the
   flight, is the one the cache gives after the flight has been sent.
   */
  lemma {:induction false} FlightAhead(cache: seq<Item>, rules: seq<Rule>, items: seq<Item>, at: seq<nat>)
    requires Fills(items, rules, at) && (items != [] ==> NoneFrom(cache, rules, at[0]))
    ensures Transcript(cache + items, rules) == Transcript(cache, rules) + DataOf(items)
    decreases |items|
  {
    hide Best, Transcript, Matches, DataOf;
    if items == [] {
      assert cache + items == cache;
      DataOfNone();
      assert Transcript(cache, rules) + [] == Transcript(cache, rules);
    } else {
      var c, rest := items[0], items[1..];
      assert [c] + rest == items;
      AheadAt(cache, c, rules, at[0]);
      FlightAhead(cache + [c], rules, rest, at[1..]);
      Associates(cache, [c], rest);
      DataOfSum([c], rest);
      DataOfOne(c);
      Associates(Transcript(cache, rules), c.data, DataOf(rest));
    }
  }

  lemma DataOfNone()
    ensures DataOf([]) == []
  {
  }

  function ItemsOf(c: Option<Item>): seq<Item> {
    if c.Some? then [c.value] else []
  }

  /** The places of the client's last flight in the rules of the whole handshake. */
  function LastFlightAt(certificate: bool, verify: bool): seq<nat> {
    (if certificate then [6] else []) + [7] + (if verify then [8] else [])
  }

  /** The client's last flight before its Finished, and the transcript of the whole handshake. */
  lemma LastFlightAhead(cache: seq<Item>, epoch: nat, certificate: Option<Item>, exchange: Item, verify: Option<Item>)
    requires NoneYet(cache, CERTIFICATE, epoch) && NoneYet(cache, CLIENT_KEY_EXCHANGE, epoch)
    requires NoneYet(cache, CERTIFICATE_VERIFY, epoch) && NoneYet(cache, FINISHED, epoch + 1)
    requires certificate.Some? ==> Matches(certificate.value, Rule(CERTIFICATE, epoch, true, false))
    requires Matches(exchange, Rule(CLIENT_KEY_EXCHANGE, epoch, true, false))
    requires verify.Some? ==> Matches(verify.value, Rule(CERTIFICATE_VERIFY, epoch, true, false))
    ensures var flight := ItemsOf(certificate) + [exchange] + ItemsOf(verify);
            Transcript(cache + flight, FinishedRules(epoch)) == Transcript(cache, FinishedRules(epoch)) + DataOf(flight)
  {
    hide Best, Transcript, DataOf;
    FlightAhead(cache, FinishedRules(epoch), ItemsOf(certificate) + [exchange] + ItemsOf(verify),
                LastFlightAt(certificate.Some?, verify.Some?));
  }

  // ---------- the cache object ----------

  class Cache {
    var items: seq<Item>

    constructor ()
      ensures items == []
    {
      items := [];
    }

    method Push(data: bytes, epoch: nat, seqNum: nat, typ: byte, isClient: bool)
      modifies this
      ensures items == old(items) + [Item(typ, isClient, epoch, seqNum, data)]
    {
      items := items + [Item(typ, isClient, epoch, seqNum, data)];
    }

    method Pull(rules: seq<Rule>) returns (out: seq<Option<Item>>)
      ensures out == Pulled(items, rules)
    {
      out := seq(|rules|, i => None);
      for i := 0 to |rules|
        invariant |out| == |rules|
        invariant forall k :: 0 <= k < i ==> out[k] == Best(items, rules[k])
        invariant forall k :: i <= k < |rules| ==> out[k] == None
      {
        var r := rules[i];
        for j := 0 to |items|
          invariant |out| == |rules| && out[i] == Best(items[..j], r)
          invariant forall k :: 0 <= k < i ==> out[k] == Best(items, rules[k])
          invariant forall k :: i < k < |rules| ==> out[k] == None
        {
          var c := items[j];
          assert items[..j + 1][..j] == items[..j];
          if c.typ == r.typ && c.isClient == r.isClient && c.epoch == r.epoch {
            if out[i].None? {
              out := out[i := Some(c)];
            } else if out[i].value.seqNum < c.seqNum {
              out := out[i := Some(c)];
            }
          }
        }
        assert items[..|items|] == items;
      }
    }

    /** The match of a rule with the highest number, and the first pushed of those. */
    method Find(rule: Rule) returns (item: Option<Item>)
      ensures item == Best(items, rule)
    {
      item := None;
      for j := 0 to |items|
        invariant item == Best(items[..j], rule)
      {
        var c := items[j];
        assert items[..j + 1][..j] == items[..j];
        if c.typ == rule.typ && c.isClient == rule.isClient && c.epoch == rule.epoch {
          if item.None? {
            item := Some(c);
          } else if item.value.seqNum < c.seqNum {
            item := Some(c);
          }
        }
      }
      assert items[..|items|] == items;
    }

    /** One slot for each message type that a rule names. */
    method Collect(rules: seq<Rule>) returns (slots: Option<map<byte, Option<Item>>>)
      ensures slots.Some? <==> NoneMissing(items, rules)
      ensures slots.Some? ==> forall i :: 0 <= i < |rules| ==>
                rules[i].typ in slots.value && slots.value[rules[i].typ] == Slots(items, rules)[i]
    {
      hide Best;
      var ci: map<byte, Option<Item>> := map[];
      for i := 0 to |rules|
        invariant forall k :: 0 <= k < i && !rules[k].optional ==> Best(items, rules[k]).Some?
        invariant forall k :: 0 <= k < i ==> rules[k].typ in ci
        invariant forall typ :: typ in ci ==> ci[typ] == SlotOf(items, rules[..i], typ)
      {
        var item := Find(rules[i]);
        if !rules[i].optional && item.None? {
          return None;
        }
        assert rules[..i + 1][..i] == rules[..i];
        ci := ci[rules[i].typ := item];
      }
      assert rules[..|rules|] == rules;
      return Some(ci);
    }

    method FullPullMap(start: int, rules: seq<Rule>, parses: bytes -> bool)
      returns (out: Option<(int, seq<Option<Item>>)>)
      ensures out == FullPull(items, start, rules, parses)
    {
      hide Best, Slots, NoneMissing;
      var ci := Collect(rules);
      if ci.None? {
        return None;
      }
      var found: seq<Option<Item>> := [];
      var next, ok := start, false;
      for i := 0 to |rules|
        invariant found == Slots(items, rules)[..i]
        invariant InSequence(found, start, parses) == Some(next)
        invariant ok <==> exists k :: 0 <= k < |found| && found[k].Some?
      {
        var item := ci.value[rules[i].typ];
        ghost var before := found;
        found := found + [item];
        assert found == Slots(items, rules)[..i + 1] && found[..i] == before;
        if item.Some? {
          var data := item.value.data;
          var header := DecodeHeader(data);
          if !parses(data) || header.None? || next % U16 != header.value.messageSeq {
            StopsHere(Slots(items, rules), i, start, parses);
            return None;
          }
          next := next + 1;
          ok := true;
          assert found[i].Some?;
        } else {
          assert forall k :: 0 <= k < |before| ==> found[k] == before[k];
        }
      }
      assert found == Slots(items, rules);
      return if ok then Some((next, found)) else None;
    }

    method PullAndMerge(rules: seq<Rule>) returns (merged: bytes)
      ensures merged == Transcript(items, rules)
    {
      merged := [];
      var pulled := Pull(rules);
      for i := 0 to |pulled|
        invariant merged == Merge(pulled[..i])
      {
        assert pulled[..i + 1][..i] == pulled[..i];
        if pulled[i].Some? {
          merged := merged + pulled[i].value.data;
        }
      }
      assert pulled[..|pulled|] == pulled;
    }

    method ComputeSessionHash(hash: bytes -> bytes, epoch: nat, additional: seq<bytes>) returns (sum: bytes)
      ensures sum == SessionHash(items, hash, epoch, additional)
    {
      var merged := PullAndMerge(SessionRules(epoch));
      ghost var transcript := merged;
      for i := 0 to |additional|
        invariant merged == transcript + Concat(additional[..i])
      {
        ConcatLast(additional[..i], additional[i]);
        assert additional[..i + 1] == additional[..i] + [additional[i]];
        merged := merged + additional[i];
      }
      assert additional[..|additional|] == additional;
      sum := hash(merged);
    }
  }
}
