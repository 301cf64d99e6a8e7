/**
 A full handshake seen by the client: with a request to verify its hello, a whole server flight
 and a matching Finished, a fresh client goes through flights 3 and 5 and finishes.
 */
module ClientRun {
  import opened Bytes
  import opened RecordLayer
  import opened HandshakeCache
  import opened HandshakeFsm
  import opened HandshakeSteps
  import opened ServerProof
  import opened TranscriptOrder

  // ---------- what the client is shown ----------

  /** A request to verify the hello, number 0, and no server hello yet. */
  ghost predicate FirstView(cfg: Config, v: View) {
    && OneMessage(v, v.cache, Rule(3, cfg.epoch, false, false), 0)
    && Reads(Best(v.cache, Rule(3, cfg.epoch, false, false)), 3)
    && Best(v.cache, Rule(2, cfg.epoch, false, true)).None? && v.versionOk
  }

  /** A server hello, number `n`, that is fine, and the rest of the server's flight behind it. */
  ghost predicate SecondView(cfg: Config, v: View, n: int) {
    && !OneMessage(v, v.cache, Rule(3, cfg.epoch, false, false), n)
    && OneMessage(v, v.cache, Rule(2, cfg.epoch, false, false), n)
    && Reads(Best(v.cache, Rule(2, cfg.epoch, false, false)), 2) && v.versionOk && v.helloOk
    && WholeFlight(v.cache, ServerFlightRules(cfg), n + 1, v.parses) && v.exchangeOk
  }

  /** The server's Finished, number `n`, with the verify data of the handshake. */
  ghost predicate ThirdView(cfg: Config, v: View, n: int, master: bytes) {
    var finished := Best(v.cache, Rule(20, cfg.epoch + 1, false, false));
    && OneMessage(v, v.cache, Rule(20, cfg.epoch + 1, false, false), n) && Reads(finished, 20)
    && VerifyData(finished.value.data) == cfg.serverVerify(master, Transcript(v.cache, FinishedRules(cfg.epoch)))
    && v.prfOk && v.storeOk
  }

  // ---------- step by step ----------

  lemma FirstParse(cfg: Config, s: State, v: View)
    requires s.recvSeq == 0 && FirstView(cfg, v)
    ensures Flight1Parse(cfg, s, v) == (s.(cookie := v.helloCookie, recvSeq := 1), Go(F3))
  {
    var request, hello := Rule(3, cfg.epoch, false, true), Rule(2, cfg.epoch, false, true);
    var rules := [request, hello];
    BestSame(v.cache, request, request.(optional := false));
    OnePull(v, v.cache, Rule(3, cfg.epoch, false, false), 0);
    var c := Best(v.cache, request);
    assert Pulled(v.cache, rules) == [c, None];
    assert Pulled(v.cache, [Rule(3, cfg.epoch, false, false)]) == [c];
    PresentPair(c);
    assert There(v.cache, rules) == There(v.cache, [Rule(3, cfg.epoch, false, false)]);
    PullExactly(v.cache, 0, rules, v.parses);
    hide FullPull, Best, Flight3Parse, There, DecodeHeader;
  }

  lemma PresentPair(c: Option<Item>)
    ensures Present([c, None]) == Present([c])
  {
    assert [c, None][..1] == [c];
  }

  lemma SecondParse(cfg: Config, s: State, v: View, n: int)
    requires s.recvSeq == n && s.sessionId == [] && SecondView(cfg, v, n)
    ensures Flight3Parse(cfg, s, v)
         == (s.(recvSeq := n + 1 + |There(v.cache, ServerFlightRules(cfg))|, master := [],
                sessionId := if cfg.hasStore then v.helloSession else []), Go(F5))
  {
    hide FullPull, Best, WholeFlight, Has, Transcript, VerifyData, There;
    ServerFlightExactly(cfg, s.(sessionId := if cfg.hasStore then v.helloSession else [], master := []), v);
    RequestPull(cfg, s, v);
    HelloPull(cfg, s, v);
  }

  /** Without a request, flight 1 reads the server's flight itself. */
  lemma DirectParse(cfg: Config, s: State, v: View)
    requires s.recvSeq == 0 && OneMessage(v, v.cache, Rule(2, cfg.epoch, false, false), 0)
    requires Best(v.cache, Rule(3, cfg.epoch, false, true)).None?
    ensures Flight1Parse(cfg, s, v) == Flight3Parse(cfg, s, v)
  {
    var request, hello := Rule(3, cfg.epoch, false, true), Rule(2, cfg.epoch, false, true);
    BestSame(v.cache, hello, hello.(optional := false));
    OnePull(v, v.cache, Rule(2, cfg.epoch, false, false), 0);
    var c := Best(v.cache, hello);
    assert Pulled(v.cache, [request, hello]) == [None, c];
    assert Pulled(v.cache, [hello.(optional := false)]) == [c];
    PresentSecond(c);
    assert There(v.cache, [request, hello]) == There(v.cache, [hello.(optional := false)]);
    PullExactly(v.cache, 0, [request, hello], v.parses);
    hide FullPull, Best, Flight3Parse, There, DecodeHeader;
  }

  lemma PresentSecond(c: Option<Item>)
    ensures Present([None, c]) == Present([c])
  {
    var none: Option<Item> := None;
    assert [none, c][..1] == [none] && [none][..0] == [] && [c][..0] == [];
    assert Present([none]) == [];
  }

  lemma ThirdParse(cfg: Config, s: State, v: View)
    requires ThirdView(cfg, v, s.recvSeq, s.master)
    ensures Flight5Parse(cfg, s, v) == (s, Go(F5))
  {
    OnePull(v, v.cache, FinishedRule(cfg, false)[0], s.recvSeq);
    hide FullPull, Best, WholeFlight, Transcript, VerifyData;
  }

  // ---------- from flight to flight ----------

  /** Ready for flight 5, with `sent` messages behind and the server's messages read up to number `read`. */
  ghost predicate AtFive(cfg: Config, inputs: seq<Input>, sent: nat, read: int) {
    var m := Run(cfg, true, inputs);
    && m.phase == Preparing && m.flight == F5 && m.state.recvSeq == read && m.state.sendSeq == sent
    && m.state.localVerify == [] && Log(cfg, true, inputs) == NumbersFrom(0, sent)
  }

  lemma StartsPreparing(cfg: Config)
    ensures Run(cfg, true, []) == Start(cfg, true) && Log(cfg, true, []) == [] == NumbersFrom(0, 0)
  {
  }

  /** What flights 1 and 3 make ready: one hello more. */
  lemma HelloReady(cfg: Config, m: Fsm, d: Draft)
    requires m.flight in {F1, F3} && m.state.localVerify == []
    ensures Ready(cfg, m, d).localVerify == [] && Ready(cfg, m, d).sendSeq == m.state.sendSeq + 1
    ensures Ready(cfg, m, d).recvSeq == m.state.recvSeq
    ensures Ready(cfg, m, d).sessionId == if m.flight == F1 then d.sessionId else m.state.sessionId
    ensures Given(cfg, m, d) == NumbersFrom(m.state.sendSeq, 1)
  {
  }

  /** With a request first: flight 3 has exactly its cookie. */
  lemma {:induction false} VerifiedToFive(cfg: Config, d1: Draft, v1: View, d3: Draft, v2: View)
    requires d1.ok && d3.ok && d1.sessionId == [] && FirstView(cfg, v1) && SecondView(cfg, v2, 1)
    ensures Run(cfg, true, Round(d1, v1)).flight == F3
    ensures Run(cfg, true, Round(d1, v1)).state.cookie == v1.helloCookie
    ensures AtFive(cfg, Round(d1, v1) + Round(d3, v2), 2, 2 + |There(v2.cache, ServerFlightRules(cfg))|)
  {
    StartsPreparing(cfg);
    hide Run, Log, FirstView, SecondView, Flight1Parse, Flight3Parse, There, NumbersFrom, Round, Ready, Given;
    var m0 := Start(cfg, true);
    HelloReady(cfg, m0, d1);
    FirstParse(cfg, Ready(cfg, m0, d1), v1);
    RoundRuns(cfg, true, [], d1, v1);
    NothingBefore(Round(d1, v1));
    MoreNumbers(0, 0, 1);
    var m1 := Run(cfg, true, Round(d1, v1));
    HelloReady(cfg, m1, d3);
    SecondParse(cfg, Ready(cfg, m1, d3), v2, 1);
    RoundRuns(cfg, true, Round(d1, v1), d3, v2);
    MoreNumbers(0, 1, 1);
  }

  lemma HelloSeen(cfg: Config, v: View, n: int)
    requires SecondView(cfg, v, n)
    ensures OneMessage(v, v.cache, Rule(2, cfg.epoch, false, false), n)
  {
  }

  /** Without a request the server's flight answers the first hello. */
  lemma {:induction false} DirectToFive(cfg: Config, d1: Draft, v2: View)
    requires d1.ok && d1.sessionId == [] && SecondView(cfg, v2, 0)
    requires Best(v2.cache, Rule(3, cfg.epoch, false, true)).None?
    ensures AtFive(cfg, Round(d1, v2), 1, 1 + |There(v2.cache, ServerFlightRules(cfg))|)
  {
    StartsPreparing(cfg);
    hide Run, Log, SecondView, Flight1Parse, Flight3Parse, There, NumbersFrom, Round, Ready, Given, Best;
    var m0 := Start(cfg, true);
    HelloReady(cfg, m0, d1);
    HelloSeen(cfg, v2, 0);
    DirectParse(cfg, Ready(cfg, m0, d1), v2);
    SecondParse(cfg, Ready(cfg, m0, d1), v2, 0);
    RoundRuns(cfg, true, [], d1, v2);
    NothingBefore(Round(d1, v2));
    MoreNumbers(0, 0, 1);
  }

  lemma FlightReady(cfg: Config, m: Fsm, d: Draft)
    requires m.flight == F5 && m.state.localVerify == []
    ensures var s := Ready(cfg, m, d);
            && s.recvSeq == m.state.recvSeq && s.master == d.master && s.sendSeq == m.state.sendSeq + 2 + d.optional
            && s.localVerify == OwnVerify(cfg, F5, d.master, d)
    ensures Given(cfg, m, d) == NumbersFrom(m.state.sendSeq, 2 + d.optional)
  {
    hide OwnVerify, NumbersFrom;
  }

  /** Flight 5 and a matching Finished end the handshake. */
  lemma {:induction false} FiveFinishes(cfg: Config, front: seq<Input>, sent: nat, read: int, d: Draft, v: View)
    requires AtFive(cfg, front, sent, read) && d.ok && ThirdView(cfg, v, read, d.master)
    ensures var inputs := front + Round(d, v);
            var m := Run(cfg, true, inputs);
            && m.phase == Finished && m.flight == F5 && m.state.localVerify == OwnVerify(cfg, F5, d.master, d)
            && Log(cfg, true, inputs) == NumbersFrom(0, sent + 2 + d.optional)
  {
    hide Run, Log, ThirdView, Flight5Parse, NumbersFrom, Round, Ready, Given, OwnVerify;
    var m := Run(cfg, true, front);
    FlightReady(cfg, m, d);
    ThirdParse(cfg, Ready(cfg, m, d), v);
    RoundRuns(cfg, true, front, d, v);
    MoreNumbers(0, sent, 2 + d.optional);
  }

  /**
   For every configuration and all drafts and views of that kind: the client gets to flight 3 with
   exactly the cookie of the request, to flight 5 with the whole server flight, and finishes with
   the matching Finished; its messages are numbered from 0, its own Finished last.
   */
  lemma {:induction false} FullHandshakeFinishes(cfg: Config, d1: Draft, v1: View, d3: Draft, v2: View, d5: Draft,
                                                 v3: View)
    requires d1.ok && d3.ok && d5.ok && d1.sessionId == []
    requires FirstView(cfg, v1) && SecondView(cfg, v2, 1)
    requires ThirdView(cfg, v3, 2 + |There(v2.cache, ServerFlightRules(cfg))|, d5.master)
    ensures var second := Round(d1, v1) + Round(d3, v2);
            var inputs := second + Round(d5, v3);
            var third, fifth, done := Run(cfg, true, Round(d1, v1)), Run(cfg, true, second), Run(cfg, true, inputs);
            && third.flight == F3 && third.state.cookie == v1.helloCookie
            && fifth.flight == F5 && done.flight == F5 && done.phase == Finished
            && done.state.localVerify == OwnVerify(cfg, F5, d5.master, d5)
            && Log(cfg, true, inputs) == NumbersFrom(0, 4 + d5.optional)
  {
    hide Run, Log, FirstView, SecondView, ThirdView, There, NumbersFrom, Round, OwnVerify;
    VerifiedToFive(cfg, d1, v1, d3, v2);
    FiveFinishes(cfg, Round(d1, v1) + Round(d3, v2), 2, 2 + |There(v2.cache, ServerFlightRules(cfg))|, d5, v3);
  }

  /** The same without a request to verify the hello. */
  lemma {:induction false} DirectHandshakeFinishes(cfg: Config, d1: Draft, v2: View, d5: Draft, v3: View)
    requires d1.ok && d5.ok && d1.sessionId == []
    requires SecondView(cfg, v2, 0) && Best(v2.cache, Rule(3, cfg.epoch, false, true)).None?
    requires ThirdView(cfg, v3, 1 + |There(v2.cache, ServerFlightRules(cfg))|, d5.master)
    ensures var inputs := Round(d1, v2) + Round(d5, v3);
            var fifth, done := Run(cfg, true, Round(d1, v2)), Run(cfg, true, inputs);
            && fifth.flight == F5 && done.flight == F5 && done.phase == Finished
            && done.state.localVerify == OwnVerify(cfg, F5, d5.master, d5)
            && Log(cfg, true, inputs) == NumbersFrom(0, 3 + d5.optional)
  {
    hide Run, Log, SecondView, ThirdView, There, NumbersFrom, Round, OwnVerify, Best;
    DirectToFive(cfg, d1, v2);
    FiveFinishes(cfg, Round(d1, v2), 1, 1 + |There(v2.cache, ServerFlightRules(cfg))|, d5, v3);
  }

  // ---------- for every server that can be understood ----------

  /** Which messages the client can parse, and the bodies of a server's messages. */
  datatype Server = Server(parses: bytes -> bool, request: bytes, hello: bytes, certificate: bytes, exchange: bytes,
                           certificateRequest: bytes, done: bytes)

  /** The messages of a server up to its hello done, with their types. */
  function Bodies(cfg: Config, peer: Server): (r: seq<(byte, bytes)>)
    ensures 4 <= |r| <= 6
  {
    [(3, peer.request), (2, peer.hello)]
      + if cfg.psk then [(12, peer.exchange), (14, peer.done)]
        else [(11, peer.certificate), (12, peer.exchange), (13, peer.certificateRequest), (14, peer.done)]
  }

  /** The client parses the server's messages, and a Finished with any twelve bytes of verify data. */
  ghost predicate Understood(cfg: Config, peer: Server) {
    && (forall k :: 0 <= k < |Bodies(cfg, peer)| ==>
          |Bodies(cfg, peer)[k].1| < U24 && peer.parses(Message(Bodies(cfg, peer)[k].0, k, Bodies(cfg, peer)[k].1)))
    && forall n: nat, data: bytes :: n < U16 && |data| == 12 ==> peer.parses(Message(20, n, data))
  }

  /** The server's messages as the client caches them, numbered from 0. */
  function ServerItems(cfg: Config, peer: Server): (r: seq<Item>)
    ensures |r| == |Bodies(cfg, peer)|
  {
    var b := Bodies(cfg, peer);
    seq(|b|, k requires 0 <= k < |b| => Item(b[k].0, false, cfg.epoch, k, Message(b[k].0, k, b[k].1)))
  }

  function ServerFinished(cfg: Config, peer: Server, master: bytes): Item {
    var n := |ServerItems(cfg, peer)|;
    var data := cfg.serverVerify(master, Transcript(ServerItems(cfg, peer), FinishedRules(cfg.epoch)));
    Item(20, false, cfg.epoch + 1, n, Message(20, n, data))
  }

  function Seen(peer: Server, cache: seq<Item>, cookie: bytes): View {
    View(cache, cache, peer.parses, true, true, cookie, [], NoSession, true, true, true, true, Accepted, false, true,
         [], true, true)
  }

  /** No two items are of one type. */
  ghost predicate OneEach(cache: seq<Item>) {
    forall i, j :: 0 <= i < j < |cache| ==> cache[i].typ != cache[j].typ
  }

  lemma FoundAt(cache: seq<Item>, r: Rule, k: nat)
    requires OneEach(cache) && k < |cache| && Matches(cache[k], r)
    ensures Best(cache, r) == Some(cache[k])
  {
    hide Best;
    BestAt(cache, r, k);
  }

  lemma ItemsOneEach(cfg: Config, peer: Server, n: nat)
    requires n <= |Bodies(cfg, peer)|
    ensures OneEach(ServerItems(cfg, peer)[..n])
  {
    hide Message;
  }

  /** An item of the server is read as one message under its own number. */
  lemma ItemReads(cfg: Config, peer: Server, v: View, k: nat, r: Rule)
    requires Understood(cfg, peer) && v.parses == peer.parses && k < |Bodies(cfg, peer)| && !r.optional
    requires OneEach(v.cache) && k < |v.cache| && v.cache[k] == ServerItems(cfg, peer)[k] && Matches(v.cache[k], r)
    ensures OneMessage(v, v.cache, r, k) && Best(v.cache, r) == Some(v.cache[k]) && Reads(Best(v.cache, r), r.typ)
  {
    var b := Bodies(cfg, peer)[k];
    MessageReads(b.0, k, b.1);
    SmallModulo(k, U16);
    FoundAt(v.cache, r, k);
    OneNumbered(v, v.cache, r, v.cache[k], k);
  }

  lemma OneNumbered(v: View, cache: seq<Item>, r: Rule, c: Item, n: nat)
    requires Best(cache, r) == Some(c) && c in cache && Matches(c, r) && n < U16 && v.parses(c.data)
    requires DecodeHeader(c.data).Some? && DecodeHeader(c.data).value.messageSeq == n
    ensures OneMessage(v, cache, r, n)
  {
    hide Best, DecodeHeader;
    SmallModulo(n, U16);
    assert Pulled(cache, [r]) == [Some(c)];
    assert [Some(c)][..0] == [] && Present([]) == [];
    assert Present([Some(c)]) == [c];
    assert [r][0] == r;
  }

  lemma FirstSeen(cfg: Config, peer: Server, cookie: bytes)
    requires Understood(cfg, peer)
    ensures FirstView(cfg, Seen(peer, ServerItems(cfg, peer)[..1], cookie))
  {
    hide Best, Message, Understood, WholeFlight;
    var v := Seen(peer, ServerItems(cfg, peer)[..1], cookie);
    ItemsOneEach(cfg, peer, 1);
    ItemReads(cfg, peer, v, 0, Rule(3, cfg.epoch, false, false));
    NoBest(v.cache, Rule(2, cfg.epoch, false, true));
  }

  lemma {:induction false} PresentAll(items: seq<Item>, found: seq<Option<Item>>)
    requires |found| == |items| && forall k :: 0 <= k < |items| ==> found[k] == Some(items[k])
    ensures Present(found) == items
  {
    if items != [] {
      PresentAll(items[..|items| - 1], found[..|found| - 1]);
      FrontAndLast(items);
    }
  }

  /** The rest of the server's flight stands behind its hello. */
  lemma RestThere(cfg: Config, peer: Server, v: View)
    requires Understood(cfg, peer) && v.parses == peer.parses && v.cache == ServerItems(cfg, peer)
    ensures WholeFlight(v.cache, ServerFlightRules(cfg), 2, v.parses)
    ensures |There(v.cache, ServerFlightRules(cfg))| == |Bodies(cfg, peer)| - 2
  {
    hide Best, Message, DecodeHeader, Understood, Bodies, ServerItems, ServerFlightRules;
    var rules, items := ServerFlightRules(cfg), ServerItems(cfg, peer)[2..];
    forall k | 0 <= k < |items| ensures RestItem(cfg, peer, v, items[k], k) { RestItemIs(cfg, peer, v, k); }
    RulesMeet(cfg, peer);
    PresentAll(items, Pulled(v.cache, rules));
    forall k | 0 <= k < |rules| ensures exists c :: c in v.cache && Matches(c, rules[k]) {
      assert RestItem(cfg, peer, v, items[k], k);
    }
  }

  lemma RulesMeet(cfg: Config, peer: Server)
    ensures |ServerFlightRules(cfg)| == |Bodies(cfg, peer)| - 2
    ensures forall k :: 0 <= k < |ServerFlightRules(cfg)| ==>
              && ServerFlightRules(cfg)[k].typ == Bodies(cfg, peer)[k + 2].0
              && ServerFlightRules(cfg)[k].epoch == cfg.epoch && !ServerFlightRules(cfg)[k].isClient
  {
  }

  /** The item is found by its rule, parses, and has its number. */
  ghost predicate RestItem(cfg: Config, peer: Server, v: View, c: Item, k: nat) {
    && k < |ServerFlightRules(cfg)| && c in v.cache && Matches(c, ServerFlightRules(cfg)[k])
    && Best(v.cache, ServerFlightRules(cfg)[k]) == Some(c)
    && peer.parses(c.data) && DecodeHeader(c.data).Some?
    && DecodeHeader(c.data).value.messageSeq == (2 + k) % U16
  }

  lemma RestItemIs(cfg: Config, peer: Server, v: View, k: nat)
    requires Understood(cfg, peer) && v.cache == ServerItems(cfg, peer) && k + 2 < |v.cache|
    ensures RestItem(cfg, peer, v, v.cache[k + 2], k)
  {
    ItemsOneEach(cfg, peer, |v.cache|);
    assert v.cache[..|v.cache|] == v.cache;
    RulesMeet(cfg, peer);
    var b := Bodies(cfg, peer)[k + 2];
    MessageReads(b.0, k + 2, b.1);
    hide Best, Message, DecodeHeader, Bodies, ServerFlightRules;
    SmallModulo(k + 2, U16);
    FoundAt(v.cache, ServerFlightRules(cfg)[k], k + 2);
  }

  lemma SecondSeen(cfg: Config, peer: Server)
    requires Understood(cfg, peer)
    ensures var v := Seen(peer, ServerItems(cfg, peer), []);
            SecondView(cfg, v, 1) && |There(v.cache, ServerFlightRules(cfg))| == |Bodies(cfg, peer)| - 2
  {
    var v := Seen(peer, ServerItems(cfg, peer), []);
    assert v.cache[..|v.cache|] == v.cache;
    ItemsOneEach(cfg, peer, |v.cache|);
    RestThere(cfg, peer, v);
    hide Understood, Best, There;
    ItemReads(cfg, peer, v, 1, Rule(2, cfg.epoch, false, false));
    ItemReads(cfg, peer, v, 0, Rule(3, cfg.epoch, false, false));
    NotAgain(v, v.cache, Rule(3, cfg.epoch, false, false));
  }

  /** A message numbered 0 is not numbered 1. */
  lemma NotAgain(v: View, cache: seq<Item>, r: Rule)
    requires !r.optional && OneMessage(v, cache, r, 0)
    ensures !OneMessage(v, cache, r, 1)
  {
    hide Best, DecodeHeader;
    OnePull(v, cache, r, 0);
    OnePull(v, cache, r, 1);
    var c := There(cache, [r])[0];
    assert DecodeHeader(c.data).value.messageSeq == 0 % U16;
  }

  lemma ThirdSeen(cfg: Config, peer: Server, master: bytes)
    requires Understood(cfg, peer) && forall m, t :: |cfg.serverVerify(m, t)| == 12
    ensures var v := Seen(peer, ServerItems(cfg, peer) + [ServerFinished(cfg, peer, master)], []);
            ThirdView(cfg, v, |Bodies(cfg, peer)|, master)
  {
    var items, finished := ServerItems(cfg, peer), ServerFinished(cfg, peer, master);
    var v, n := Seen(peer, items + [finished], []), |items|;
    var data := cfg.serverVerify(master, Transcript(items, FinishedRules(cfg.epoch)));
    SameTranscriptAfter(items, finished, FinishedRules(cfg.epoch), cfg.epoch);
    hide Transcript, FinishedRules, Best;
    MessageReads(20, n, data);
    ItemsOneEach(cfg, peer, n);
    assert items[..n] == items;
    FinishedOneEach(cfg, peer, finished);
    assert v.cache[n] == finished;
    FoundAt(v.cache, Rule(20, cfg.epoch + 1, false, false), n);
    OneNumbered(v, v.cache, Rule(20, cfg.epoch + 1, false, false), finished, n);
  }

  lemma FinishedOneEach(cfg: Config, peer: Server, finished: Item)
    requires OneEach(ServerItems(cfg, peer)) && finished.typ == 20
    ensures OneEach(ServerItems(cfg, peer) + [finished])
  {
    hide Message;
  }

  /** The server's own Finished is in no transcript it is compared with. */
  lemma SameTranscriptAfter(items: seq<Item>, finished: Item, rules: seq<Rule>, epoch: nat)
    requires finished.typ == 20 && !finished.isClient && rules == FinishedRules(epoch)
    ensures Transcript(items + [finished], rules) == Transcript(items, rules)
  {
    forall i | 0 <= i < |rules| ensures Best(items + [finished], rules[i]) == Best(items, rules[i]) {
      assert !Matches(finished, rules[i]);
      BestUnmoved(items, finished, rules[i]);
    }
    hide Best;
    assert Pulled(items + [finished], rules) == Pulled(items, rules);
  }

  /** Under every configuration, and for every server whose messages it parses, some run of a client finishes. */
  lemma {:induction false} ClientFinishes(cfg: Config, peer: Server, cookie: bytes, master: bytes)
    returns (inputs: seq<Input>)
    requires Understood(cfg, peer) && forall m, t :: |cfg.serverVerify(m, t)| == 12
    ensures |inputs| == 9
    ensures Run(cfg, true, inputs[..3]).flight == F3 && Run(cfg, true, inputs[..3]).state.cookie == cookie
    ensures Run(cfg, true, inputs[..6]).flight == F5
    ensures Run(cfg, true, inputs).phase == Finished && Run(cfg, true, inputs).flight == F5
  {
    hide Run, Understood, FirstView, SecondView, ThirdView, There, ServerItems, ServerFinished, Bodies;
    hide ServerFlightRules;
    var d := DRAFT.(master := master);
    var v1, v2 := Seen(peer, ServerItems(cfg, peer)[..1], cookie), Seen(peer, ServerItems(cfg, peer), []);
    var v3 := Seen(peer, ServerItems(cfg, peer) + [ServerFinished(cfg, peer, master)], []);
    FirstSeen(cfg, peer, cookie);
    SecondSeen(cfg, peer);
    ThirdSeen(cfg, peer, master);
    FullHandshakeFinishes(cfg, d, v1, d, v2, d, v3);
    inputs := Round(d, v1) + Round(d, v2) + Round(d, v3);
    assert inputs[..3] == Round(d, v1) && inputs[..6] == Round(d, v1) + Round(d, v2);
  }
}
