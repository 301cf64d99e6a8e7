/**
 What the transcripts are: the bytes of the handshake messages in the order of section 7.3 of
 RFC 5246, without the cookie exchange, as section 4.2.1 of RFC 6347 asks.
 */
module TranscriptOrder {
  import opened Bytes
  import opened HandshakeCache
  import opened HandshakeFsm
  import opened ServerProof

  /** A message type of section 7.4 of RFC 5246, its sender, and the epoch it is sent in. */
  datatype Kind = Kind(typ: byte, isClient: bool, epoch: nat)

  function KindOf(c: Item): Kind {
    Kind(c.typ, c.isClient, c.epoch)
  }

  /**
   The flights of a full handshake in the order they are sent: ClientHello; ServerHello,
   Certificate, ServerKeyExchange, CertificateRequest, ServerHelloDone; Certificate,
   ClientKeyExchange, CertificateVerify, Finished; Finished.
   */
  function Order(epoch: nat): seq<Kind> {
    [ Kind(1, true, epoch),
      Kind(2, false, epoch), Kind(11, false, epoch), Kind(12, false, epoch), Kind(13, false, epoch),
      Kind(14, false, epoch),
      Kind(11, true, epoch), Kind(16, true, epoch), Kind(15, true, epoch), Kind(20, true, epoch + 1),
      Kind(20, false, epoch + 1) ]
  }

  /** ClientHello; ServerHello, Finished; Finished. */
  function ResumedOrder(epoch: nat): seq<Kind> {
    [Kind(1, true, epoch), Kind(2, false, epoch), Kind(20, false, epoch + 1), Kind(20, true, epoch + 1)]
  }

  /** The messages stand in the given order, each at most once; `at` says which of them are there. */
  ghost predicate Sent(cache: seq<Item>, order: seq<Kind>, at: seq<nat>) {
    && |cache| == |at|
    && (forall k :: 0 <= k < |at| ==> at[k] < |order| && KindOf(cache[k]) == order[at[k]])
    && (forall k, l :: 0 <= k < l < |at| ==> at[k] < at[l])
  }

  /** The rules ask for the kinds of the order, one by one. */
  ghost predicate Asks(rules: seq<Rule>, order: seq<Kind>) {
    && |rules| == |order|
    && (forall i :: 0 <= i < |rules| ==> Kind(rules[i].typ, rules[i].isClient, rules[i].epoch) == order[i])
    && (forall i, j :: 0 <= i < j < |order| ==> order[i] != order[j])
  }

  lemma SentFills(cache: seq<Item>, order: seq<Kind>, rules: seq<Rule>, at: seq<nat>)
    requires Sent(cache, order, at) && Asks(rules, order)
    ensures Fills(cache, rules, at)
  {
  }

  lemma {:induction false} NothingMerged(rules: seq<Rule>)
    ensures Transcript([], rules) == [] && NoneFrom([], rules, 0)
  {
    MergeNothing(Pulled([], rules));
  }

  /** A transcript of messages sent in the order asked for is those messages' bytes in that order. */
  lemma OrderIsKept(cache: seq<Item>, order: seq<Kind>, rules: seq<Rule>, at: seq<nat>)
    requires Sent(cache, order, at) && Asks(rules, order)
    ensures Transcript(cache, rules) == DataOf(cache)
  {
    hide Transcript, Sent, Asks, DataOf, Fills, Best;
    SentFills(cache, order, rules, at);
    NothingMerged(rules);
    assert NoneFrom([], rules, if at == [] then 0 else at[0]);
    assert cache != [] ==> at != [] by { FillsSizes(cache, rules, at); }
    FlightAhead([], rules, cache, at);
    assert [] + cache == cache && [] + DataOf(cache) == DataOf(cache);
  }

  lemma FillsSizes(cache: seq<Item>, rules: seq<Rule>, at: seq<nat>)
    requires Fills(cache, rules, at)
    ensures |cache| == |at|
  {
  }

  // ---------- the transcripts of the handshake ----------

  /** The session hash covers ClientHello to ClientKeyExchange as they were sent. */
  lemma SessionOrder(cache: seq<Item>, epoch: nat, at: seq<nat>)
    requires Sent(cache, Order(epoch)[..8], at)
    ensures Transcript(cache, SessionRules(epoch)) == DataOf(cache)
    ensures forall hash, additional ::
              SessionHash(cache, hash, epoch, additional) == hash(DataOf(cache) + Concat(additional))
  {
    hide Transcript, DataOf, Sent;
    assert Asks(SessionRules(epoch), Order(epoch)[..8]);
    OrderIsKept(cache, Order(epoch)[..8], SessionRules(epoch), at);
  }

  /** The server's Finished covers everything up to the client's Finished. */
  lemma FinishedOrder(cache: seq<Item>, epoch: nat, at: seq<nat>)
    requires Sent(cache, Order(epoch)[..10], at)
    ensures Transcript(cache, FinishedRules(epoch)) == DataOf(cache)
  {
    hide Transcript, DataOf, Sent;
    assert Asks(FinishedRules(epoch), Order(epoch)[..10]);
    OrderIsKept(cache, Order(epoch)[..10], FinishedRules(epoch), at);
  }

  /** The client's Finished covers everything up to CertificateVerify. */
  lemma ClientFinishedOrder(cache: seq<Item>, epoch: nat, at: seq<nat>)
    requires Sent(cache, Order(epoch)[..9], at)
    ensures Transcript(cache, ClientFinishedRules(epoch)) == DataOf(cache)
  {
    hide Transcript, DataOf, Sent;
    assert Asks(ClientFinishedRules(epoch), Order(epoch)[..9]);
    OrderIsKept(cache, Order(epoch)[..9], ClientFinishedRules(epoch), at);
  }

  /** On resumption the server's Finished covers the two hellos, and the client's the server's Finished too. */
  lemma ResumedTranscripts(cache: seq<Item>, epoch: nat, at: seq<nat>)
    ensures Sent(cache, ResumedOrder(epoch)[..2], at) ==> Transcript(cache, HelloRules(epoch)) == DataOf(cache)
    ensures Sent(cache, ResumedOrder(epoch)[..3], at) ==> Transcript(cache, ResumedRules(epoch)) == DataOf(cache)
  {
    hide Transcript, DataOf, Sent;
    assert Asks(HelloRules(epoch), ResumedOrder(epoch)[..2]);
    assert Asks(ResumedRules(epoch), ResumedOrder(epoch)[..3]);
    if Sent(cache, ResumedOrder(epoch)[..2], at) {
      OrderIsKept(cache, ResumedOrder(epoch)[..2], HelloRules(epoch), at);
    }
    if Sent(cache, ResumedOrder(epoch)[..3], at) {
      OrderIsKept(cache, ResumedOrder(epoch)[..3], ResumedRules(epoch), at);
    }
  }

  // ---------- the cookie exchange is left out ----------

  /** The best match is unique. */
  lemma BestAt(cache: seq<Item>, r: Rule, k: nat)
    requires k < |cache| && IsBest(cache, r, k)
    ensures Best(cache, r) == Some(cache[k])
  {
    hide Best;
    BestIsBest(cache, r);
    assert cache[k] in cache;
    var j: nat :| j < |cache| && cache[j] == Best(cache, r).value && IsBest(cache, r, j);
  }

  lemma NoBest(cache: seq<Item>, r: Rule)
    requires forall i :: 0 <= i < |cache| ==> !Matches(cache[i], r)
    ensures Best(cache, r) == None
  {
    hide Best, Matches;
    BestIsBest(cache, r);
  }

  /** Messages that a rule does not ask for, or only below the number it finds, change nothing in front. */
  lemma BestSkips(before: seq<Item>, cache: seq<Item>, r: Rule)
    requires forall i :: 0 <= i < |before| && Matches(before[i], r) ==>
               exists k :: 0 <= k < |cache| && Matches(cache[k], r) && before[i].seqNum < cache[k].seqNum
    ensures Best(before + cache, r) == Best(cache, r)
  {
    hide Best, Matches;
    var all := before + cache;
    BestIsBest(cache, r);
    if Best(cache, r).None? {
      assert forall k :: 0 <= k < |cache| ==> cache[k] in cache;
      NoBest(all, r);
    } else {
      var k: nat :| k < |cache| && cache[k] == Best(cache, r).value && IsBest(cache, r, k);
      forall j | 0 <= j < |all| && Matches(all[j], r)
        ensures all[j].seqNum <= cache[k].seqNum && (j < |before| + k ==> all[j].seqNum < cache[k].seqNum)
      {
        if j >= |before| { assert all[j] == cache[j - |before|]; }
      }
      assert all[|before| + k] == cache[k];
      BestAt(all, r, |before| + k);
    }
  }

  /** Messages of the cookie exchange: an earlier hello of the client, and requests to verify it. */
  ghost predicate CookieExchange(before: seq<Item>, cache: seq<Item>, epoch: nat) {
    forall i :: 0 <= i < |before| ==>
      || before[i].typ == 3
      || (KindOf(before[i]) == Kind(1, true, epoch) &&
          exists k :: 0 <= k < |cache| && KindOf(cache[k]) == Kind(1, true, epoch)
                   && before[i].seqNum < cache[k].seqNum)
  }

  predicate NoRequests(rules: seq<Rule>) {
    forall i :: 0 <= i < |rules| ==> rules[i].typ != 3
  }

  /** A cookie exchange before the handshake proper shows in no transcript. */
  lemma CookieExchangeSkipped(before: seq<Item>, cache: seq<Item>, rules: seq<Rule>, epoch: nat)
    requires CookieExchange(before, cache, epoch) && NoRequests(rules)
    ensures Transcript(before + cache, rules) == Transcript(cache, rules)
  {
    hide Best;
    forall n | 0 <= n < |rules| ensures Best(before + cache, rules[n]) == Best(cache, rules[n]) {
      BestSkips(before, cache, rules[n]);
    }
    assert Pulled(before + cache, rules) == Pulled(cache, rules);
  }

  /** With a cookie exchange in front the transcripts are still the handshake proper, in order. */
  lemma AfterCookieExchange(before: seq<Item>, cache: seq<Item>, epoch: nat, at: seq<nat>)
    requires CookieExchange(before, cache, epoch)
    ensures Sent(cache, Order(epoch)[..8], at) ==> Transcript(before + cache, SessionRules(epoch)) == DataOf(cache)
    ensures Sent(cache, Order(epoch)[..9], at) ==>
              Transcript(before + cache, ClientFinishedRules(epoch)) == DataOf(cache)
    ensures Sent(cache, Order(epoch)[..10], at) ==> Transcript(before + cache, FinishedRules(epoch)) == DataOf(cache)
  {
    hide Transcript, DataOf, Sent, CookieExchange;
    assert NoRequests(SessionRules(epoch)) && NoRequests(ClientFinishedRules(epoch));
    assert NoRequests(FinishedRules(epoch));
    CookieExchangeSkipped(before, cache, SessionRules(epoch), epoch);
    CookieExchangeSkipped(before, cache, ClientFinishedRules(epoch), epoch);
    CookieExchangeSkipped(before, cache, FinishedRules(epoch), epoch);
    if Sent(cache, Order(epoch)[..8], at) { SessionOrder(cache, epoch, at); }
    if Sent(cache, Order(epoch)[..9], at) { ClientFinishedOrder(cache, epoch, at); }
    if Sent(cache, Order(epoch)[..10], at) { FinishedOrder(cache, epoch, at); }
  }
}
