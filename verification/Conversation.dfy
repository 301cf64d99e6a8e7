/**
 The two state machines in conversation: for every full handshake whose messages stand in the
 order of section 7.3 of RFC 5246, with any choice of the optional ones and with or without a
 cookie exchange, the machines of both sides, shown what was said so far, give their messages
 exactly the numbers and verify data they have in it, and both finish.
 */
module Conversation {
  import opened Bytes
  import opened RecordLayer
  import opened HandshakeCache
  import opened HandshakeFsm
  import opened HandshakeSteps
  import opened TranscriptOrder
  import Client = ClientRun
  import Server = ServerRun

  // ---------- what is found in a cache ----------

  /** A message that parses and whose header says what it is filed under. */
  ghost predicate Proper(c: Item, parses: bytes -> bool) {
    && c.seqNum < U16 && parses(c.data) && DecodeHeader(c.data).Some?
    && DecodeHeader(c.data).value.typ == c.typ && DecodeHeader(c.data).value.messageSeq == c.seqNum
  }

  ghost predicate NoneFits(items: seq<Item>, r: Rule) {
    forall k :: 0 <= k < |items| ==> !Matches(items[k], r)
  }

  /** Rule `at[k]` asks for message `k`, in increasing order. */
  ghost predicate Asked(part: seq<Item>, rules: seq<Rule>, at: seq<nat>) {
    && |part| == |at|
    && (forall k :: 0 <= k < |at| ==> at[k] < |rules| && Matches(part[k], rules[at[k]]))
    && (forall k, l :: 0 <= k < l < |at| ==> at[k] < at[l])
  }

  /** Messages in front of the match with lower numbers, and none behind it. */
  lemma FoundBetween(x: seq<Item>, c: Item, y: seq<Item>, r: Rule)
    requires Matches(c, r) && NoneFits(y, r)
    requires forall k :: 0 <= k < |x| && Matches(x[k], r) ==> x[k].seqNum < c.seqNum
    ensures Best(x + [c] + y, r) == Some(c)
  {
    hide Best;
    var all := x + [c] + y;
    forall j | 0 <= j < |all| && Matches(all[j], r)
      ensures all[j].seqNum <= c.seqNum && (j < |x| ==> all[j].seqNum < c.seqNum)
    {
    }
    BestAt(all, r, |x|);
  }

  lemma FoundNowhere(x: seq<Item>, part: seq<Item>, y: seq<Item>, r: Rule)
    requires NoneFits(x, r) && NoneFits(part, r) && NoneFits(y, r)
    ensures Best(x + part + y, r) == None
  {
    hide Best;
    NoBest(x + part + y, r);
  }

  /** Of the messages of one part, each rule finds the one that is there for it. */
  lemma PartFound(x: seq<Item>, part: seq<Item>, y: seq<Item>, rules: seq<Rule>, at: seq<nat>, k: nat)
    requires Asked(part, rules, at) && OwnTypes(rules) && k < |at|
    requires NoneFits(x, rules[at[k]]) && NoneFits(y, rules[at[k]])
    ensures Best(x + part + y, rules[at[k]]) == Some(part[k])
  {
    hide Best;
    var r := rules[at[k]];
    var a, b := x + part[..k], part[k + 1..] + y;
    forall j | 0 <= j < |part| && j != k ensures !Matches(part[j], r) {
      assert at[j] != at[k] by { assert if j < k then at[j] < at[k] else at[k] < at[j]; }
    }
    assert NoneFits(a, r) && NoneFits(b, r);
    FoundBetween(a, part[k], b, r);
    assert a + [part[k]] + b == x + part + y;
  }

  lemma PartMisses(x: seq<Item>, part: seq<Item>, y: seq<Item>, rules: seq<Rule>, at: seq<nat>, i: nat)
    requires Asked(part, rules, at) && OwnTypes(rules) && i < |rules| && i !in at
    requires NoneFits(x, rules[i]) && NoneFits(y, rules[i])
    ensures Best(x + part + y, rules[i]) == None
  {
    forall j | 0 <= j < |part| ensures !Matches(part[j], rules[i]) {
      assert at[j] in at;
    }
    FoundNowhere(x, part, y, rules[i]);
  }

  /** What the rules find, in their order. */
  ghost predicate Finds(found: seq<Option<Item>>, part: seq<Item>, at: seq<nat>) {
    && |part| == |at|
    && (forall k :: 0 <= k < |at| ==> at[k] < |found| && found[at[k]] == Some(part[k]))
    && (forall k, l :: 0 <= k < l < |at| ==> at[k] < at[l])
    && (forall i :: 0 <= i < |found| && i !in at ==> found[i] == None)
  }

  lemma LastThere(found: seq<Option<Item>>, part: seq<Item>, at: seq<nat>)
    requires Finds(found, part, at) && found != [] && at != [] && at[|at| - 1] == |found| - 1
    ensures Finds(found[..|found| - 1], part[..|part| - 1], at[..|at| - 1])
    ensures found[|found| - 1] == Some(part[|part| - 1])
  {
    var front, m := found[..|found| - 1], |at| - 1;
    forall i | 0 <= i < |front| && i !in at[..m] ensures front[i] == None {
      assert i !in at;
    }
  }

  lemma LastMissing(found: seq<Option<Item>>, part: seq<Item>, at: seq<nat>)
    requires Finds(found, part, at) && found != [] && (at == [] || at[|at| - 1] != |found| - 1)
    ensures Finds(found[..|found| - 1], part, at) && found[|found| - 1] == None
  {
    var n := |found| - 1;
    forall k | 0 <= k < |at| ensures at[k] < n {
      assert at[k] <= at[|at| - 1];
    }
  }

  lemma {:induction false} PresentIs(found: seq<Option<Item>>, part: seq<Item>, at: seq<nat>)
    requires Finds(found, part, at)
    ensures Present(found) == part
  {
    if found == [] {
      assert |at| == 0;
    } else if at != [] && at[|at| - 1] == |found| - 1 {
      LastThere(found, part, at);
      PresentIs(found[..|found| - 1], part[..|part| - 1], at[..|at| - 1]);
      FrontAndLast(part);
    } else {
      LastMissing(found, part, at);
      PresentIs(found[..|found| - 1], part, at);
    }
  }

  /** A part of a cache that is a whole flight under the rules. */
  lemma WholeIs(x: seq<Item>, part: seq<Item>, y: seq<Item>, rules: seq<Rule>, at: seq<nat>, start: nat,
                parses: bytes -> bool)
    requires Asked(part, rules, at) && OwnTypes(rules) && part != []
    requires forall i :: 0 <= i < |rules| ==>
               NoneFits(x, rules[i]) && NoneFits(y, rules[i]) && (rules[i].optional || i in at)
    requires forall k :: 0 <= k < |part| ==> Proper(part[k], parses) && part[k].seqNum == start + k
    ensures WholeFlight(x + part + y, rules, start, parses) && There(x + part + y, rules) == part
  {
    var cache := x + part + y;
    forall k | 0 <= k < |at| ensures Best(cache, rules[at[k]]) == Some(part[k]) {
      PartFound(x, part, y, rules, at, k);
    }
    forall i | 0 <= i < |rules| && i !in at ensures Best(cache, rules[i]) == None {
      PartMisses(x, part, y, rules, at, i);
    }
    hide Best, DecodeHeader, NoneFits;
    PresentIs(Pulled(cache, rules), part, at);
    MandatoryThere(x, part, y, rules, at);
    forall k | 0 <= k < |part| ensures part[k].seqNum == (start + k) % U16 { SmallModulo(part[k].seqNum, U16); }
  }

  lemma MandatoryThere(x: seq<Item>, part: seq<Item>, y: seq<Item>, rules: seq<Rule>, at: seq<nat>)
    requires Asked(part, rules, at) && forall i :: 0 <= i < |rules| ==> rules[i].optional || i in at
    ensures forall i :: 0 <= i < |rules| && !rules[i].optional ==>
              exists c :: c in x + part + y && Matches(c, rules[i])
  {
    forall i | 0 <= i < |rules| && !rules[i].optional ensures exists c :: c in x + part + y && Matches(c, rules[i]) {
      var k :| 0 <= k < |at| && at[k] == i;
      assert (x + part + y)[|x| + k] == part[k];
    }
  }

  /** One message under its rule. */
  lemma OneIs(v: View, x: seq<Item>, c: Item, y: seq<Item>, r: Rule)
    requires Matches(c, r) && NoneFits(y, r) && !r.optional && Proper(c, v.parses)
    requires forall k :: 0 <= k < |x| && Matches(x[k], r) ==> x[k].seqNum < c.seqNum
    ensures var cache := x + [c] + y;
            OneMessage(v, cache, r, c.seqNum) && Best(cache, r) == Some(c) && Reads(Best(cache, r), r.typ)
  {
    FoundBetween(x, c, y, r);
    assert (x + [c] + y)[|x|] == c;
    Client.OneNumbered(v, x + [c] + y, r, c, c.seqNum);
  }

  lemma NoneIs(v: View, cache: seq<Item>, r: Rule, n: int)
    requires NoneFits(cache, r) && !r.optional
    ensures !OneMessage(v, cache, r, n) && Best(cache, r).None?
  {
    NoBest(cache, r);
    hide Best, WholeFlight;
    OnePull(v, cache, r, n);
  }

  // ---------- a full handshake ----------

  /**
   What is said in a full handshake: a first hello and the request to verify it, if that is asked
   for; the hello; the server's flight; the client's flight and Finished; and the server's Finished.
   */
  datatype Talk = Talk(before: seq<Item>, hello: Item, flight4: seq<Item>, flight5: seq<Item>,
                       clientFinished: Item, serverFinished: Item)

  /** The number of the hello that is answered. */
  function Base(t: Talk): nat {
    if t.before == [] then 0 else 1
  }

  /** The handshake proper up to the client's flight. */
  function Covered(t: Talk): seq<Item> {
    [t.hello] + t.flight4 + t.flight5
  }

  /** A cookie exchange, or none. */
  ghost predicate BeforeFits(t: Talk, epoch: nat) {
    t.before == [] ||
    (|t.before| == 2 && KindOf(t.before[0]) == Kind(1, true, epoch) && KindOf(t.before[1]) == Kind(3, false, epoch)
     && t.before[0].seqNum == 0 && t.before[1].seqNum == 0)
  }

  /**
   ServerHello and ServerHelloDone, ServerKeyExchange unless there is a pre-shared key, and
   certificate messages only then; ClientKeyExchange; anything else is optional.
   */
  ghost predicate KindsFit(cfg: Config, t: Talk, at4: seq<nat>, at5: seq<nat>) {
    && KindOf(t.hello) == Kind(1, true, cfg.epoch)
    && Sent(t.flight4, Order(cfg.epoch)[1..6], at4) && Sent(t.flight5, Order(cfg.epoch)[6..9], at5)
    && |at4| >= 2 && at4[0] == 0 && at4[|at4| - 1] == 4 && 1 in at5
    && (if cfg.psk then 1 !in at4 && 3 !in at4 else 2 in at4)
    && KindOf(t.clientFinished) == Kind(20, true, cfg.epoch + 1)
    && KindOf(t.serverFinished) == Kind(20, false, cfg.epoch + 1)
  }

  /** Each side numbers its messages one after another. */
  ghost predicate NumbersFit(t: Talk) {
    var base := Base(t);
    && t.hello.seqNum == base
    && (forall k :: 0 <= k < |t.flight4| ==> t.flight4[k].seqNum == base + k)
    && (forall k :: 0 <= k < |t.flight5| ==> t.flight5[k].seqNum == base + 1 + k)
    && t.clientFinished.seqNum == base + 1 + |t.flight5|
    && t.serverFinished.seqNum == base + |t.flight4|
  }

  ghost predicate AllProper(items: seq<Item>, parses: bytes -> bool) {
    forall k :: 0 <= k < |items| ==> Proper(items[k], parses)
  }

  /** Each Finished carries the verify data of everything before it. */
  ghost predicate VerifyFits(cfg: Config, t: Talk, master: bytes) {
    && VerifyData(t.clientFinished.data) == cfg.clientVerify(master, DataOf(Covered(t)))
    && VerifyData(t.serverFinished.data) == cfg.serverVerify(master, DataOf(Covered(t) + [t.clientFinished]))
  }

  ghost predicate Fits(cfg: Config, t: Talk, at4: seq<nat>, at5: seq<nat>, parses: bytes -> bool, master: bytes) {
    && BeforeFits(t, cfg.epoch) && KindsFit(cfg, t, at4, at5) && NumbersFit(t) && VerifyFits(cfg, t, master)
    && AllProper(t.before + Covered(t) + [t.clientFinished, t.serverFinished], parses)
  }

  // ---------- what each side is shown ----------

  /** Everything outside the cache goes well, and no session is asked for. */
  function Shown(parses: bytes -> bool, cache: seq<Item>, later: seq<Item>, cookie: bytes, secret: bytes): View {
    View(cache, later, parses, true, true, cookie, [], NoSession, true, true, true, true, Accepted, false, true,
         secret, true, true)
  }

  /** What was said up to the server's flight, up to the client's flight, and up to either Finished. */
  function UpTo4(t: Talk): seq<Item> {
    t.before + [t.hello] + t.flight4
  }

  function UpTo5(t: Talk): seq<Item> {
    UpTo4(t) + t.flight5
  }

  function UpToFinished(t: Talk): seq<Item> {
    UpTo5(t) + [t.clientFinished]
  }

  function Everything(t: Talk): seq<Item> {
    UpToFinished(t) + [t.serverFinished]
  }

  /** A rule asks for none of a flight, because it asks for another side, epoch or type. */
  lemma FlightsApart(cfg: Config, t: Talk, at4: seq<nat>, at5: seq<nat>, r: Rule)
    requires KindsFit(cfg, t, at4, at5) && BeforeFits(t, cfg.epoch)
    ensures r.isClient || r.epoch != cfg.epoch || r.typ !in {2, 11, 12, 13, 14} ==> NoneFits(t.flight4, r)
    ensures !r.isClient || r.epoch != cfg.epoch || r.typ !in {11, 16, 15} ==> NoneFits(t.flight5, r)
    ensures r.epoch != cfg.epoch || r.typ !in {1, 3} ==> NoneFits(t.before + [t.hello], r)
  {
    var o := Order(cfg.epoch);
    assert forall k :: 0 <= k < |at4| ==> KindOf(t.flight4[k]) == o[1..6][at4[k]] == o[1 + at4[k]];
    assert forall k :: 0 <= k < |at5| ==> KindOf(t.flight5[k]) == o[6..9][at5[k]] == o[6 + at5[k]];
  }

  lemma NoneOfSum(a: seq<Item>, b: seq<Item>, r: Rule)
    requires NoneFits(a, r) && NoneFits(b, r)
    ensures NoneFits(a + b, r)
  {
  }

  /** Which rule for the server's flight asks for kind `i` of it. */
  function Place(psk: bool, i: nat): nat {
    if psk then if i == 2 then 0 else 1 else if i == 0 then 0 else i - 1
  }

  predicate CanFollow(psk: bool, i: nat) {
    0 < i <= 4 && (psk ==> i == 2 || i == 4)
  }

  lemma PlaceFits(cfg: Config, c: Item, i: nat)
    requires CanFollow(cfg.psk, i) && KindOf(c) == Order(cfg.epoch)[1..6][i]
    ensures Place(cfg.psk, i) < |ServerFlightRules(cfg)| && Matches(c, ServerFlightRules(cfg)[Place(cfg.psk, i)])
  {
  }

  lemma AllFollow(cfg: Config, t: Talk, at4: seq<nat>, at5: seq<nat>)
    requires KindsFit(cfg, t, at4, at5)
    ensures forall k :: 0 < k < |at4| ==> CanFollow(cfg.psk, at4[k])
  {
    forall k | 0 < k < |at4| ensures CanFollow(cfg.psk, at4[k]) {
      assert at4[0] < at4[k] && at4[k] in at4;
    }
  }

  function Places(psk: bool, at4: seq<nat>): (at: seq<nat>)
    requires at4 != [] && forall k :: 0 < k < |at4| ==> CanFollow(psk, at4[k])
    ensures |at| == |at4| - 1 && forall k :: 0 <= k < |at| ==> at[k] == Place(psk, at4[k + 1])
  {
    seq(|at4| - 1, k requires 0 <= k < |at4| - 1 => Place(psk, at4[k + 1]))
  }

  lemma ServerPartAsked(cfg: Config, t: Talk, at4: seq<nat>, at5: seq<nat>) returns (at: seq<nat>)
    requires KindsFit(cfg, t, at4, at5)
    ensures Asked(t.flight4[1..], ServerFlightRules(cfg), at)
    ensures forall i :: 0 <= i < |ServerFlightRules(cfg)| ==> ServerFlightRules(cfg)[i].optional || i in at
  {
    AllFollow(cfg, t, at4, at5);
    at := Places(cfg.psk, at4);
    var part, rules := t.flight4[1..], ServerFlightRules(cfg);
    forall k | 0 <= k < |at| ensures at[k] < |rules| && Matches(part[k], rules[at[k]]) {
      PlaceFits(cfg, part[k], at4[k + 1]);
    }
    forall k, l | 0 <= k < l < |at| ensures at[k] < at[l] { assert at4[k + 1] < at4[l + 1]; }
    MandatoryAsked(cfg, t, at4, at5);
  }

  lemma MandatoryAsked(cfg: Config, t: Talk, at4: seq<nat>, at5: seq<nat>)
    requires KindsFit(cfg, t, at4, at5) && forall k :: 0 < k < |at4| ==> CanFollow(cfg.psk, at4[k])
    ensures forall i :: 0 <= i < |ServerFlightRules(cfg)| ==>
              ServerFlightRules(cfg)[i].optional || i in Places(cfg.psk, at4)
  {
    var at := Places(cfg.psk, at4);
    assert at[|at| - 1] == |ServerFlightRules(cfg)| - 1;
    if !cfg.psk {
      var j :| 0 <= j < |at4| && at4[j] == 2;
      assert at[j - 1] == 1;
    }
  }

  lemma ClientPartAsked(cfg: Config, t: Talk, at4: seq<nat>, at5: seq<nat>)
    requires KindsFit(cfg, t, at4, at5)
    ensures Asked(t.flight5, ClientFlightRules(cfg), at5)
    ensures forall i :: 0 <= i < |ClientFlightRules(cfg)| ==> ClientFlightRules(cfg)[i].optional || i in at5
  {
    var o := Order(cfg.epoch);
    assert forall k :: 0 <= k < |at5| ==> KindOf(t.flight5[k]) == o[6..9][at5[k]] == o[6 + at5[k]];
  }

  lemma FitsParts(cfg: Config, t: Talk, at4: seq<nat>, at5: seq<nat>, parses: bytes -> bool, master: bytes)
    requires Fits(cfg, t, at4, at5, parses, master)
    ensures BeforeFits(t, cfg.epoch) && KindsFit(cfg, t, at4, at5) && NumbersFit(t)
  {
    hide BeforeFits, KindsFit, NumbersFit, VerifyFits, AllProper;
  }

  // ---------- the client's views ----------

  lemma AllOf(items: seq<Item>, more: seq<Item>, parses: bytes -> bool)
    requires AllProper(items + more, parses)
    ensures AllProper(items, parses) && AllProper(more, parses)
  {
    forall k | 0 <= k < |items| ensures Proper(items[k], parses) { assert (items + more)[k] == items[k]; }
    forall k | 0 <= k < |more| ensures Proper(more[k], parses) { assert (items + more)[|items| + k] == more[k]; }
  }

  /** Every message of a talk that fits is proper. */
  lemma EachProper(cfg: Config, t: Talk, at4: seq<nat>, at5: seq<nat>, parses: bytes -> bool, master: bytes)
    requires Fits(cfg, t, at4, at5, parses, master)
    ensures AllProper(t.before, parses) && Proper(t.hello, parses) && AllProper(t.flight4, parses)
    ensures AllProper(t.flight5, parses) && Proper(t.clientFinished, parses) && Proper(t.serverFinished, parses)
  {
    hide Proper, BeforeFits, KindsFit, NumbersFit, VerifyFits;
    var ends := [t.clientFinished, t.serverFinished];
    AllOf(t.before + Covered(t), ends, parses);
    AllOf(t.before, Covered(t), parses);
    AllOf([t.hello] + t.flight4, t.flight5, parses);
    AllOf([t.hello], t.flight4, parses);
    assert ends[0] == t.clientFinished && ends[1] == t.serverFinished && [t.hello][0] == t.hello;
  }

  /** The request is what the client reads first. */
  lemma RequestSeen(cfg: Config, t: Talk, v: View)
    requires BeforeFits(t, cfg.epoch) && t.before != [] && AllProper(t.before, v.parses)
    requires v.cache == t.before && v.versionOk
    ensures Client.FirstView(cfg, v)
  {
    assert t.before == [t.before[0]] + [t.before[1]] + [];
    OneIs(v, [t.before[0]], t.before[1], [], Rule(3, cfg.epoch, false, false));
    NoBest(t.before, Rule(2, cfg.epoch, false, true));
  }

  /** A request read before is not read again. */
  lemma NoOtherRequest(cfg: Config, t: Talk, at4: seq<nat>, at5: seq<nat>, v: View)
    requires BeforeFits(t, cfg.epoch) && KindsFit(cfg, t, at4, at5) && AllProper(t.before, v.parses)
    requires v.cache == UpTo4(t)
    ensures !OneMessage(v, v.cache, Rule(3, cfg.epoch, false, false), Base(t))
    ensures t.before == [] ==> Best(v.cache, Rule(3, cfg.epoch, false, true)).None?
  {
    var r, rest := Rule(3, cfg.epoch, false, false), [t.hello] + t.flight4;
    FlightsApart(cfg, t, at4, at5, r);
    NoneOfSum([t.hello], t.flight4, r);
    if t.before == [] {
      assert v.cache == rest;
      NoneIs(v, v.cache, r, 0);
      BestSame(v.cache, r, Rule(3, cfg.epoch, false, true));
    } else {
      assert v.cache == [t.before[0]] + [t.before[1]] + rest;
      OneIs(v, [t.before[0]], t.before[1], rest, r);
      Client.NotAgain(v, v.cache, r);
    }
  }

  /** The server's hello and the rest of its flight are read behind the request. */
  lemma ServerFlightSeen(cfg: Config, t: Talk, at4: seq<nat>, at5: seq<nat>, v: View)
    requires BeforeFits(t, cfg.epoch) && KindsFit(cfg, t, at4, at5) && NumbersFit(t)
    requires AllProper(t.before, v.parses) && AllProper(t.flight4, v.parses)
    requires v.cache == UpTo4(t) && v.versionOk && v.helloOk && v.exchangeOk
    ensures Client.SecondView(cfg, v, Base(t)) && There(v.cache, ServerFlightRules(cfg)) == t.flight4[1..]
  {
    hide Proper, Best, WholeFlight, There;
    NoOtherRequest(cfg, t, at4, at5, v);
    var x, first, rest := t.before + [t.hello], t.flight4[0], t.flight4[1..];
    assert x + [first] + rest == v.cache && x + [first] + rest + [] == v.cache;
    HelloFirst(cfg, t, at4, at5);
    OneIs(v, x, first, rest, Rule(2, cfg.epoch, false, false));
    var at := ServerPartAsked(cfg, t, at4, at5);
    RestApart(cfg, t, at4, at5);
    WholeIs(x + [first], rest, [], ServerFlightRules(cfg), at, Base(t) + 1, v.parses);
  }

  /** The server's hello is the first of its flight and the only one. */
  lemma HelloFirst(cfg: Config, t: Talk, at4: seq<nat>, at5: seq<nat>)
    requires BeforeFits(t, cfg.epoch) && KindsFit(cfg, t, at4, at5)
    ensures var r := Rule(2, cfg.epoch, false, false);
            Matches(t.flight4[0], r) && NoneFits(t.flight4[1..], r) && NoneFits(t.before + [t.hello], r)
  {
    AllFollow(cfg, t, at4, at5);
  }

  lemma RestApart(cfg: Config, t: Talk, at4: seq<nat>, at5: seq<nat>)
    requires BeforeFits(t, cfg.epoch) && KindsFit(cfg, t, at4, at5)
    ensures OwnTypes(ServerFlightRules(cfg))
    ensures forall i :: 0 <= i < |ServerFlightRules(cfg)| ==>
              NoneFits(t.before + [t.hello] + [t.flight4[0]], ServerFlightRules(cfg)[i])
  {
    HelloFirst(cfg, t, at4, at5);
  }

  // ---------- the transcripts ----------

  function Shifted(at: seq<nat>, lo: nat): (r: seq<nat>)
    ensures |r| == |at| && forall k :: 0 <= k < |r| ==> r[k] == at[k] + lo
  {
    seq(|at|, k requires 0 <= k < |at| => at[k] + lo)
  }

  lemma SentPlus(a: seq<Item>, b: seq<Item>, order: seq<Kind>, lo: nat, hi: nat, at: seq<nat>, bt: seq<nat>)
    requires lo <= hi <= |order| && Sent(a, order[..lo], at) && Sent(b, order[lo..hi], bt)
    ensures Sent(a + b, order[..hi], at + Shifted(bt, lo))
  {
    var all := at + Shifted(bt, lo);
    forall k | 0 <= k < |all| ensures all[k] < hi && KindOf((a + b)[k]) == order[..hi][all[k]] {
      if k >= |at| { assert order[lo..hi][bt[k - |at|]] == order[all[k]]; }
    }
  }

  lemma SentLonger(a: seq<Item>, order: seq<Kind>, lo: nat, hi: nat, at: seq<nat>)
    requires lo <= hi <= |order| && Sent(a, order[..lo], at)
    ensures Sent(a, order[..hi], at)
  {
  }

  /** The handshake proper stands in the order of the standard, up to each of its flights. */
  lemma InOrder(cfg: Config, t: Talk, at4: seq<nat>, at5: seq<nat>) returns (a: seq<nat>, b: seq<nat>, c: seq<nat>)
    requires KindsFit(cfg, t, at4, at5)
    ensures Sent([t.hello] + t.flight4, Order(cfg.epoch)[..10], a)
    ensures Sent(Covered(t), Order(cfg.epoch)[..9], b)
    ensures Sent(Covered(t) + [t.clientFinished], Order(cfg.epoch)[..10], c)
  {
    var o := Order(cfg.epoch);
    FirstAndLast(cfg, t, at4, at5);
    hide Sent, Order;
    SentPlus([t.hello], t.flight4, o, 1, 6, [0], at4);
    a := [0] + Shifted(at4, 1);
    SentPlus([t.hello] + t.flight4, t.flight5, o, 6, 9, a, at5);
    b := a + Shifted(at5, 6);
    SentPlus(Covered(t), [t.clientFinished], o, 9, 10, b, [0]);
    c := b + Shifted([0], 9);
    SentLonger([t.hello] + t.flight4, o, 6, 10, a);
  }

  lemma FirstAndLast(cfg: Config, t: Talk, at4: seq<nat>, at5: seq<nat>)
    requires KindsFit(cfg, t, at4, at5)
    ensures |Order(cfg.epoch)| == 11 && Sent([t.hello], Order(cfg.epoch)[..1], [0])
    ensures Sent([t.clientFinished], Order(cfg.epoch)[9..10], [0])
  {
  }

  lemma CookieLeftOut(cfg: Config, t: Talk, more: seq<Item>)
    requires BeforeFits(t, cfg.epoch) && KindOf(t.hello) == Kind(1, true, cfg.epoch) && t.hello.seqNum == Base(t)
    ensures CookieExchange(t.before, [t.hello] + more, cfg.epoch)
  {
    var cache := [t.hello] + more;
    assert cache[0] == t.hello;
    forall i | 0 <= i < |t.before| && t.before[i].typ != 3
      ensures exists k :: 0 <= k < |cache| && KindOf(cache[k]) == Kind(1, true, cfg.epoch)
                       && t.before[i].seqNum < cache[k].seqNum
    {
      assert KindOf(cache[0]) == Kind(1, true, cfg.epoch);
    }
  }

  /** What each Finished is computed over. */
  lemma Transcripts(cfg: Config, t: Talk, at4: seq<nat>, at5: seq<nat>)
    requires BeforeFits(t, cfg.epoch) && KindsFit(cfg, t, at4, at5) && NumbersFit(t)
    ensures Transcript(UpTo4(t), FinishedRules(cfg.epoch)) + DataOf(t.flight5) == DataOf(Covered(t))
    ensures Transcript(UpToFinished(t), FinishedRules(cfg.epoch)) == DataOf(Covered(t) + [t.clientFinished])
  {
    hide Transcript, DataOf, FinishedRules, Sent, CookieExchange, Order;
    var a, b, c := InOrder(cfg, t, at4, at5);
    var first, whole := [t.hello] + t.flight4, Covered(t) + [t.clientFinished];
    CookieLeftOut(cfg, t, t.flight4);
    CookieLeftOut(cfg, t, t.flight4 + t.flight5 + [t.clientFinished]);
    assert whole == [t.hello] + (t.flight4 + t.flight5 + [t.clientFinished]);
    AfterCookieExchange(t.before, first, cfg.epoch, a);
    AfterCookieExchange(t.before, whole, cfg.epoch, c);
    assert UpTo4(t) == t.before + first && UpToFinished(t) == t.before + whole;
    DataOfSum(first, t.flight5);
  }

  /** No message before the two Finished is of their epoch. */
  lemma FinishedApart(cfg: Config, t: Talk, at4: seq<nat>, at5: seq<nat>, r: Rule)
    requires BeforeFits(t, cfg.epoch) && KindsFit(cfg, t, at4, at5) && r.epoch == cfg.epoch + 1
    ensures NoneFits(UpTo5(t), r)
  {
    FlightsApart(cfg, t, at4, at5, r);
    hide NoneFits, BeforeFits, KindsFit;
    NoneOfSum(t.before + [t.hello], t.flight4, r);
    NoneOfSum(UpTo4(t), t.flight5, r);
  }

  lemma FinishedRead(cfg: Config, t: Talk, at4: seq<nat>, at5: seq<nat>, v: View)
    requires BeforeFits(t, cfg.epoch) && KindsFit(cfg, t, at4, at5)
    requires Proper(t.serverFinished, v.parses) && v.cache == Everything(t)
    ensures var r := Rule(20, cfg.epoch + 1, false, false);
            && OneMessage(v, v.cache, r, t.serverFinished.seqNum)
            && Best(v.cache, r) == Some(t.serverFinished) && Reads(Best(v.cache, r), 20)
  {
    var r := Rule(20, cfg.epoch + 1, false, false);
    FinishedApart(cfg, t, at4, at5, r);
    assert NoneFits([t.clientFinished], r);
    NoneOfSum(UpTo5(t), [t.clientFinished], r);
    hide Best, WholeFlight, Proper, UpToFinished;
    assert Everything(t) == UpToFinished(t) + [t.serverFinished] + [];
    OneIs(v, UpToFinished(t), t.serverFinished, [], r);
  }

  /** The server's Finished is what the client waits for. */
  lemma FinishedSeen(cfg: Config, t: Talk, at4: seq<nat>, at5: seq<nat>, v: View, master: bytes)
    requires Fits(cfg, t, at4, at5, v.parses, master) && v.cache == Everything(t) && v.prfOk && v.storeOk
    ensures Client.ThirdView(cfg, v, Base(t) + |t.flight4|, master)
  {
    hide Transcript, DataOf, FinishedRules, Sent, Best, WholeFlight, Proper, VerifyData, UpToFinished;
    EachProper(cfg, t, at4, at5, v.parses, master);
    Transcripts(cfg, t, at4, at5);
    FinishedRead(cfg, t, at4, at5, v);
    Client.SameTranscriptAfter(UpToFinished(t), t.serverFinished, FinishedRules(cfg.epoch), cfg.epoch);
  }

  // ---------- the server's views ----------

  function FirstHello(t: Talk): Item {
    if t.before == [] then t.hello else t.before[0]
  }

  lemma HelloSeen(cfg: Config, t: Talk, at4: seq<nat>, at5: seq<nat>, u: View)
    requires BeforeFits(t, cfg.epoch) && KindsFit(cfg, t, at4, at5) && NumbersFit(t) && Proper(FirstHello(t), u.parses)
    requires u.cache == [FirstHello(t)] && u.versionOk && u.helloOk && u.helloSession == []
    ensures Server.HelloView(cfg, u)
  {
    assert [] + [FirstHello(t)] + [] == u.cache;
    OneIs(u, [], FirstHello(t), [], Rule(1, cfg.epoch, true, false));
  }

  lemma CookieSeen(cfg: Config, t: Talk, at4: seq<nat>, at5: seq<nat>, u: View)
    requires BeforeFits(t, cfg.epoch) && KindsFit(cfg, t, at4, at5) && NumbersFit(t) && t.before != []
    requires Proper(t.hello, u.parses) && u.cache == t.before + [t.hello] && u.versionOk && u.helloCookie != []
    ensures Server.CookieView(cfg, u, u.helloCookie)
  {
    assert t.before + [t.hello] + [] == u.cache;
    OneIs(u, t.before, t.hello, [], Rule(1, cfg.epoch, true, false));
  }

  lemma ClientFlightSeen(cfg: Config, t: Talk, at4: seq<nat>, at5: seq<nat>, u: View)
    requires BeforeFits(t, cfg.epoch) && KindsFit(cfg, t, at4, at5) && NumbersFit(t)
    requires AllProper(t.flight5, u.parses) && u.cache == UpTo5(t)
    ensures WholeFlight(u.cache, ClientFlightRules(cfg), Base(t) + 1, u.parses)
    ensures There(u.cache, ClientFlightRules(cfg)) == t.flight5
    ensures Reads(Best(u.cache, Rule(16, cfg.epoch, true, false)), 16)
  {
    ClientPartAsked(cfg, t, at4, at5);
    var rules := ClientFlightRules(cfg);
    forall i | 0 <= i < |rules| ensures NoneFits(UpTo4(t), rules[i]) {
      FlightsApart(cfg, t, at4, at5, rules[i]);
      NoneOfSum(t.before + [t.hello], t.flight4, rules[i]);
    }
    assert UpTo4(t) + t.flight5 + [] == u.cache;
    var k :| 0 <= k < |at5| && at5[k] == 1;
    hide Best, WholeFlight, There;
    WholeIs(UpTo4(t), t.flight5, [], rules, at5, Base(t) + 1, u.parses);
    PartFound(UpTo4(t), t.flight5, [], rules, at5, k);
    assert Proper(t.flight5[k], u.parses);
  }

  lemma ClientFinishedSeen(cfg: Config, t: Talk, at4: seq<nat>, at5: seq<nat>, u: View)
    requires BeforeFits(t, cfg.epoch) && KindsFit(cfg, t, at4, at5) && NumbersFit(t)
    requires Proper(t.clientFinished, u.parses) && u.later == UpToFinished(t)
    ensures var r := Rule(20, cfg.epoch + 1, true, false);
            OneMessage(u, u.later, r, Base(t) + 1 + |t.flight5|) && Reads(Best(u.later, r), 20)
  {
    var r := Rule(20, cfg.epoch + 1, true, false);
    FinishedApart(cfg, t, at4, at5, r);
    assert UpTo5(t) + [t.clientFinished] + [] == u.later;
    hide Best, WholeFlight, Proper, UpTo5;
    OneIs(u, UpTo5(t), t.clientFinished, [], r);
  }

  // ---------- both machines ----------

  function Made(optional: nat, cache: seq<Item>, unsent: bytes, cookie: bytes, master: bytes): Draft {
    Draft(true, optional, cache, unsent, cookie, [], master)
  }

  const PLAIN := Draft(true, 0, [], [], [], [], [])

  /** The client's part: each flight is made and sent, and what has been said by then is shown. */
  function ClientInputs(t: Talk, parses: bytes -> bool, cookie: bytes, master: bytes): seq<Input>
    requires t.flight5 != []
  {
    var last := Round(Made(|t.flight5| - 1, UpTo4(t), DataOf(t.flight5), [], master), Done(t, parses));
    if t.before == [] then Round(PLAIN, Answered(t, parses)) + last
    else Round(PLAIN, Shown(parses, t.before, t.before, cookie, [])) + Round(PLAIN, Answered(t, parses)) + last
  }

  /** The server's part likewise, ended by its Finished. */
  function ServerInputs(t: Talk, parses: bytes -> bool, cookie: bytes, master: bytes): seq<Input>
    requires |t.flight4| >= 2
  {
    var first := Round(Made(0, [], [], cookie, []), Begun(t, parses));
    var flight := Round(Made(|t.flight4| - 2, [], [], [], []), Exchanged(t, parses, master));
    var last := [Generated(Made(0, UpToFinished(t), [], [], [])), Written(true)];
    if t.before == [] then first + flight + last
    else first + Round(PLAIN, Verified(t, parses, cookie)) + flight + last
  }

  /** What the client says before its flight 5, and the server before its flight 4. */
  function Opening(t: Talk, isClient: bool): seq<Item>
    requires t.before == [] || |t.before| == 2
  {
    if isClient then if t.before == [] then [t.hello] else [t.before[0], t.hello]
    else if t.before == [] then [] else [t.before[1]]
  }

  /** The messages of one side, in the order sent. */
  function SaidBy(t: Talk, isClient: bool): seq<Item>
    requires t.before == [] || |t.before| == 2
  {
    if isClient then Opening(t, true) + t.flight5 + [t.clientFinished]
    else Opening(t, false) + t.flight4 + [t.serverFinished]
  }

  function Numbers(items: seq<Item>): seq<nat> {
    seq(|items|, k requires 0 <= k < |items| => items[k].seqNum)
  }

  /** Numbered one after another from `n`. */
  ghost predicate Counts(items: seq<Item>, n: nat) {
    forall k :: 0 <= k < |items| ==> items[k].seqNum == n + k < U16
  }

  lemma CountsSum(a: seq<Item>, b: seq<Item>, n: nat)
    requires Counts(a, n) && Counts(b, n + |a|)
    ensures Counts(a + b, n)
  {
  }

  lemma CountsFrom(items: seq<Item>)
    requires Counts(items, 0)
    ensures Numbers(items) == NumbersFrom(0, |items|)
  {
    forall k | 0 <= k < |items| ensures items[k].seqNum == k % U16 {
      SmallModulo(items[k].seqNum, U16);
    }
  }

  lemma ThreeCount(a: seq<Item>, b: seq<Item>, c: Item)
    requires Counts(a, 0) && Counts(b, |a|) && Counts([c], |a| + |b|)
    ensures Numbers(a + b + [c]) == NumbersFrom(0, |a| + |b| + 1)
  {
    hide Counts, Numbers, NumbersFrom;
    CountsSum(a, b, 0);
    CountsSum(a + b, [c], 0);
    CountsFrom(a + b + [c]);
  }

  /** Both sides number their messages one after another. */
  lemma SaidInSequence(cfg: Config, t: Talk, at4: seq<nat>, at5: seq<nat>, parses: bytes -> bool, master: bytes)
    requires Fits(cfg, t, at4, at5, parses, master)
    ensures Numbers(SaidBy(t, true)) == NumbersFrom(0, Base(t) + 2 + |t.flight5|)
    ensures Numbers(SaidBy(t, false)) == NumbersFrom(0, Base(t) + 1 + |t.flight4|)
  {
    hide Fits, AllProper, Proper, KindsFit, NumbersFit, Counts, Numbers, NumbersFrom, Opening;
    EachProper(cfg, t, at4, at5, parses, master);
    FitsParts(cfg, t, at4, at5, parses, master);
    PartsCount(t, parses);
    ThreeCount(Opening(t, true), t.flight5, t.clientFinished);
    ThreeCount(Opening(t, false), t.flight4, t.serverFinished);
  }

  lemma PartsCount(t: Talk, parses: bytes -> bool)
    requires NumbersFit(t) && (t.before != [] ==> |t.before| == 2 && t.before[0].seqNum == t.before[1].seqNum == 0)
    requires Proper(t.hello, parses) && AllProper(t.flight4, parses) && AllProper(t.flight5, parses)
    requires Proper(t.clientFinished, parses) && Proper(t.serverFinished, parses)
    ensures var hellos, request := Opening(t, true), Opening(t, false);
            && |hellos| == Base(t) + 1 && |request| == Base(t)
            && Counts(hellos, 0) && Counts(t.flight5, |hellos|) && Counts([t.clientFinished], |hellos| + |t.flight5|)
            && Counts(request, 0) && Counts(t.flight4, |request|)
            && Counts([t.serverFinished], |request| + |t.flight4|)
  {
  }

  // ---------- the client's machine ----------

  function Answered(t: Talk, parses: bytes -> bool): View {
    Shown(parses, UpTo4(t), UpTo4(t), [], [])
  }

  function Done(t: Talk, parses: bytes -> bool): View {
    Shown(parses, Everything(t), Everything(t), [], [])
  }

  lemma ClientSees(cfg: Config, t: Talk, at4: seq<nat>, at5: seq<nat>, parses: bytes -> bool, cookie: bytes,
                   master: bytes)
    requires Fits(cfg, t, at4, at5, parses, master)
    ensures var read := |There(UpTo4(t), ServerFlightRules(cfg))|;
            && Client.SecondView(cfg, Answered(t, parses), Base(t))
            && Client.ThirdView(cfg, Done(t, parses), Base(t) + 1 + read, master)
    ensures t.before == [] ==> Best(UpTo4(t), Rule(3, cfg.epoch, false, true)).None?
    ensures t.before != [] ==> Client.FirstView(cfg, Shown(parses, t.before, t.before, cookie, []))
  {
    hide Client.FirstView, Client.SecondView, Client.ThirdView, There, Best, Proper, UpTo4, Everything;
    EachProper(cfg, t, at4, at5, parses, master);
    ServerFlightSeen(cfg, t, at4, at5, Answered(t, parses));
    FinishedSeen(cfg, t, at4, at5, Done(t, parses), master);
    NoOtherRequest(cfg, t, at4, at5, Answered(t, parses));
    if t.before != [] { RequestSeen(cfg, t, Shown(parses, t.before, t.before, cookie, [])); }
  }

  lemma ClientVerify(cfg: Config, t: Talk, at4: seq<nat>, at5: seq<nat>, parses: bytes -> bool, master: bytes, d: Draft)
    requires Fits(cfg, t, at4, at5, parses, master) && d.cache == UpTo4(t) && d.unsent == DataOf(t.flight5)
    ensures OwnVerify(cfg, F5, master, d) == VerifyData(t.clientFinished.data)
  {
    hide Transcript, DataOf, VerifyData, FinishedRules;
    Transcripts(cfg, t, at4, at5);
  }

  /** The client is finished, with the numbers and the verify data its messages have in the talk. */
  ghost predicate ClientDone(cfg: Config, t: Talk, inputs: seq<Input>)
    requires t.before == [] || |t.before| == 2
  {
    var m := Run(cfg, true, inputs);
    && m.phase == Finished && m.flight == F5 && m.state.localVerify == VerifyData(t.clientFinished.data)
    && Log(cfg, true, inputs) == Numbers(SaidBy(t, true))
  }

  /** The client's machine takes part in the handshake and finishes. */
  lemma {:induction false} ClientTakesPart(cfg: Config, t: Talk, at4: seq<nat>, at5: seq<nat>, parses: bytes -> bool,
                                           cookie: bytes, master: bytes)
    requires Fits(cfg, t, at4, at5, parses, master) && t.flight5 != []
    ensures ClientDone(cfg, t, ClientInputs(t, parses, cookie, master))
  {
    var d5 := Made(|t.flight5| - 1, UpTo4(t), DataOf(t.flight5), [], master);
    ClientSees(cfg, t, at4, at5, parses, cookie, master);
    ClientVerify(cfg, t, at4, at5, parses, master, d5);
    SaidInSequence(cfg, t, at4, at5, parses, master);
    hide Run, Log, Client.FirstView, Client.SecondView, Client.ThirdView, There, NumbersFrom, Transcript, DataOf,
         UpTo4, Everything, Best, Round, VerifyData, FinishedRules, Numbers, Fits, OwnVerify, SaidBy;
    if t.before == [] {
      Client.DirectHandshakeFinishes(cfg, PLAIN, Answered(t, parses), d5, Done(t, parses));
    } else {
      Client.FullHandshakeFinishes(cfg, PLAIN, Shown(parses, t.before, t.before, cookie, []), PLAIN,
                                   Answered(t, parses), d5, Done(t, parses));
    }
  }

  // ---------- the server's machine ----------

  function Begun(t: Talk, parses: bytes -> bool): View {
    Shown(parses, [FirstHello(t)], [FirstHello(t)], [], [])
  }

  function Verified(t: Talk, parses: bytes -> bool, cookie: bytes): View {
    Shown(parses, t.before + [t.hello], t.before + [t.hello], cookie, [])
  }

  function Exchanged(t: Talk, parses: bytes -> bool, master: bytes): View {
    Shown(parses, UpTo5(t), UpToFinished(t), [], master)
  }

  lemma HellosSeen(cfg: Config, t: Talk, at4: seq<nat>, at5: seq<nat>, parses: bytes -> bool, cookie: bytes,
                   master: bytes)
    requires Fits(cfg, t, at4, at5, parses, master) && cookie != []
    ensures Server.HelloView(cfg, Begun(t, parses))
    ensures t.before != [] ==> Server.CookieView(cfg, Verified(t, parses, cookie), cookie)
  {
    EachProper(cfg, t, at4, at5, parses, master);
    assert Proper(FirstHello(t), parses);
    hide Proper, AllProper, Server.HelloView, Server.CookieView, KindsFit, VerifyFits;
    HelloSeen(cfg, t, at4, at5, Begun(t, parses));
    if t.before != [] { CookieSeen(cfg, t, at4, at5, Verified(t, parses, cookie)); }
  }

  lemma ExchangedIs(t: Talk, parses: bytes -> bool, master: bytes)
    ensures var u := Exchanged(t, parses, master);
            && u.cache == UpTo5(t) && u.later == UpToFinished(t) && u.parses == parses && u.secret == master
            && u.certificates.Accepted? && !u.initialized && u.keyOk && u.queuedOk && u.storeOk && u.authOk
  {
    hide UpTo5, UpToFinished;
  }

  lemma FlightSeen(cfg: Config, t: Talk, at4: seq<nat>, at5: seq<nat>, parses: bytes -> bool, master: bytes)
    requires Fits(cfg, t, at4, at5, parses, master)
    ensures Server.FlightView(cfg, Exchanged(t, parses, master), Base(t) + 1)
  {
    hide Fits, Best, WholeFlight, There, OneMessage, Reads, Proper, AllProper, KindsFit, NumbersFit, BeforeFits,
         UpTo5, UpToFinished, ClientFlightRules, Exchanged, Base;
    EachProper(cfg, t, at4, at5, parses, master);
    FitsParts(cfg, t, at4, at5, parses, master);
    ExchangedIs(t, parses, master);
    ClientFlightSeen(cfg, t, at4, at5, Exchanged(t, parses, master));
    ClientFinishedSeen(cfg, t, at4, at5, Exchanged(t, parses, master));
  }

  lemma ServerVerify(cfg: Config, t: Talk, at4: seq<nat>, at5: seq<nat>, parses: bytes -> bool, master: bytes, d: Draft)
    requires Fits(cfg, t, at4, at5, parses, master) && d.cache == UpToFinished(t)
    ensures OwnVerify(cfg, F6, master, d) == VerifyData(t.serverFinished.data)
  {
    hide Transcript, DataOf, VerifyData, FinishedRules;
    Transcripts(cfg, t, at4, at5);
  }

  ghost predicate ServerDone(cfg: Config, t: Talk, inputs: seq<Input>)
    requires t.before == [] || |t.before| == 2
  {
    var m := Run(cfg, false, inputs);
    && m.phase == Finished && m.flight == F6 && m.state.localVerify == VerifyData(t.serverFinished.data)
    && Log(cfg, false, inputs) == Numbers(SaidBy(t, false))
  }

  /** The server's machine takes part in the handshake and finishes. */
  lemma {:induction false} ServerTakesPart(cfg: Config, t: Talk, at4: seq<nat>, at5: seq<nat>, parses: bytes -> bool,
                                           cookie: bytes, master: bytes)
    requires Fits(cfg, t, at4, at5, parses, master) && cookie != [] && |t.flight4| >= 2
    requires cfg.skipHelloVerify <==> t.before == []
    ensures ServerDone(cfg, t, ServerInputs(t, parses, cookie, master))
  {
    hide Run, Log, Server.HelloView, Server.CookieView, Server.FlightView, NumbersFrom, UpTo5, UpToFinished, Round,
         VerifyData, Numbers, OwnVerify, SaidBy, KindsFit, NumbersFit, VerifyFits, AllProper, Exchanged, Verified,
         Begun;
    var d0, d4 := Made(0, [], [], cookie, []), Made(|t.flight4| - 2, [], [], [], []);
    var d6, last := Made(0, UpToFinished(t), [], [], []), Exchanged(t, parses, master);
    HellosSeen(cfg, t, at4, at5, parses, cookie, master);
    FlightSeen(cfg, t, at4, at5, parses, master);
    ServerVerify(cfg, t, at4, at5, parses, master, d6);
    SaidInSequence(cfg, t, at4, at5, parses, master);
    ExchangedIs(t, parses, master);
    if t.before == [] {
      Server.DirectHandshakeFinishes(cfg, d0, Begun(t, parses), d4, last, d6);
    } else {
      Server.FullHandshakeFinishes(cfg, d0, Begun(t, parses), PLAIN, Verified(t, parses, cookie), d4, last, d6);
    }
  }

  // ---------- together ----------

  /**
   For every talk of a full handshake that fits, the two machines, each shown what has been said,
   both finish: the client in flight 5 and the server in flight 6. Each gives its messages exactly
   the numbers they have in the talk, and its Finished carries the verify data it computed itself.
   */
  lemma {:induction false} BothFinish(client: Config, server: Config, t: Talk, at4: seq<nat>, at5: seq<nat>,
                                      parses: bytes -> bool, cookie: bytes, master: bytes)
    requires Fits(client, t, at4, at5, parses, master) && Fits(server, t, at4, at5, parses, master)
    requires cookie != [] && (server.skipHelloVerify <==> t.before == [])
    ensures |t.flight4| >= 2 && t.flight5 != []
    ensures ClientDone(client, t, ClientInputs(t, parses, cookie, master))
    ensures ServerDone(server, t, ServerInputs(t, parses, cookie, master))
  {
    FlightsThere(client, t, at4, at5);
    hide *;
    ClientTakesPart(client, t, at4, at5, parses, cookie, master);
    ServerTakesPart(server, t, at4, at5, parses, cookie, master);
  }

  lemma FlightsThere(cfg: Config, t: Talk, at4: seq<nat>, at5: seq<nat>)
    requires KindsFit(cfg, t, at4, at5)
    ensures |t.flight4| >= 2 && t.flight5 != []
  {
  }
}
