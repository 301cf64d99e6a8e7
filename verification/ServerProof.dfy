/**
 What a finished server knows about its client. A server that resumed a session compared the
 client's verify data with its own; a server that went through the full handshake only saw
 that a Finished message came.
 */
module ServerProof {
  import opened Bytes
  import opened RecordLayer
  import opened HandshakeCache
  import opened HandshakeFsm
  import ClientHello

  /** The rules of everything a client's Finished in a full handshake covers. */
  function ClientFinishedRules(epoch: nat): seq<Rule> {
    SessionRules(epoch) + [Rule(CERTIFICATE_VERIFY, epoch, true, false)]
  }

  function Flight4Pull(cfg: Config, s: State, v: View): Option<(int, seq<Option<Item>>)> {
    FullPull(v.cache, s.recvSeq, Flight4Rules(cfg.epoch), v.parses)
  }

  /** The verify data a client of the full handshake should send. */
  function Expected(cfg: Config, s: State, v: View): bytes {
    cfg.clientVerify(if v.initialized then s.master else v.secret, Transcript(v.later, ClientFinishedRules(cfg.epoch)))
  }

  /** A server in flight 4 is shown the verify data it should be shown. */
  ghost predicate FullProved(cfg: Config, m: Fsm, i: Input) {
    m.phase == Waiting && m.flight == F4 && i.Received? &&
    var s, v := m.state, i.view;
    var pull := Flight4Pull(cfg, s, v);
    pull.Some? && Verified(FullPull(v.later, pull.value.0, FinishedRule(cfg, true), v.parses), Expected(cfg, s, v))
  }

  /** A server in flight 4 is shown a Finished with other verify data than it should be shown. */
  ghost predicate OtherShown(cfg: Config, m: Fsm, i: Input) {
    m.phase == Waiting && m.flight == F4 && i.Received? &&
    var s, v := m.state, i.view;
    var pull := Flight4Pull(cfg, s, v);
    pull.Some? &&
    var last := FullPull(v.later, pull.value.0, FinishedRule(cfg, true), v.parses);
    && last.Some? && |last.value.1| == 1 && Has(last.value.1[0], FINISHED)
    && VerifyData(last.value.1[0].value.data) != Expected(cfg, s, v)
  }

  /** In one of the two handshakes the server is shown matching verify data. */
  ghost predicate Shown(cfg: Config, m: Fsm, i: Input) {
    ClientProved(cfg, m, i) || FullProved(cfg, m, i)
  }

  ghost predicate ShownIn(cfg: Config, inputs: seq<Input>) {
    exists n :: 0 <= n < |inputs| && Shown(cfg, Run(cfg, false, inputs[..n]), inputs[n])
  }

  // ---------- the verify data does not matter ----------

  lemma OnePulled(cache: seq<Item>, start: int, r: Rule, parses: bytes -> bool)
    requires !r.optional
    ensures var pull := FullPull(cache, start, [r], parses);
            pull.Some? ==> pull.value.0 == start + 1 && pull.value.1 == [Best(cache, r)] && Best(cache, r).Some?
  {
    hide Best, DecodeHeader;
    OwnSlots(cache, [r]);
    var found := Pulled(cache, [r]);
    assert found == [Best(cache, r)] && found[..0] == [];
    assert InSequence(found[..0], start, parses) == Some(start);
    assert NoneMissing(cache, [r]) ==> [r][0] == r && Best(cache, [r][0]).Some?;
  }

  /**
   Any other cache that yields a Finished message in the same place leads flight 4 to the same
   state and the same next flight, whatever verify data it carries.
   */
  lemma VerifyDataIgnored(cfg: Config, s: State, v: View, later: seq<Item>)
    requires Flight4Parse(cfg, s, v).1 == Go(F6)
    requires var pull := Flight4Pull(cfg, s, v);
             pull.Some? ==>
               var last := FullPull(later, pull.value.0, FinishedRule(cfg, true), v.parses);
               last.Some? && Has(last.value.1[0], FINISHED)
    ensures Flight4Parse(cfg, s, v.(later := later)) == Flight4Parse(cfg, s, v)
  {
    hide FullPull, Has;
    var pull := Flight4Pull(cfg, s, v);
    if pull.Some? {
      OnePulled(v.later, pull.value.0, FinishedRule(cfg, true)[0], v.parses);
      OnePulled(later, pull.value.0, FinishedRule(cfg, true)[0], v.parses);
    }
  }

  // ---------- a run that ends without a match ----------

  function Message(typ: byte, n: nat, body: bytes): bytes {
    EncodeHeader(Header(typ, |body|, n, 0, |body|)) + body
  }

  function ClientItem(typ: byte, epoch: nat, n: nat, body: bytes): Item {
    Item(typ, true, epoch, n, Message(typ, n, body))
  }

  lemma MessageReads(typ: byte, n: nat, body: bytes)
    requires n < U16 && |body| < U24
    ensures DecodeHeader(Message(typ, n, body)) == Some(Header(typ, |body|, n, 0, |body|))
    ensures VerifyData(Message(typ, n, body)) == body
  {
    HeaderRoundTrip(Header(typ, |body|, n, 0, |body|), body);
    assert Message(typ, n, body)[HANDSHAKE_HEADER..] == body;
  }

  /** Which messages the server can parse, and the bodies of a client's hellos and key exchange. */
  datatype Client = Client(parses: bytes -> bool, hello: nat -> bytes, exchange: bytes)

  /** The client's messages parse, and so does a Finished with any twelve bytes of verify data. */
  ghost predicate Speaks(peer: Client) {
    && (forall n: nat :: n < 2 ==> |peer.hello(n)| < U24 && peer.parses(Message(CLIENT_HELLO, n, peer.hello(n))))
    && |peer.exchange| < U24
    && (forall n: nat :: n < 10 ==> peer.parses(Message(CLIENT_KEY_EXCHANGE, n, peer.exchange)))
    && (forall n: nat, data: bytes :: n < U16 && |data| == 12 ==> peer.parses(Message(FINISHED, n, data)))
  }

  /** Everything outside the cache goes well, and no session is asked for. */
  function Smooth(peer: Client, cache: seq<Item>, later: seq<Item>, cookie: bytes): View {
    View(cache, later, peer.parses, true, true, cookie, [], NoSession, true, true, true, true, Accepted, false, true,
         [], true, true)
  }

  const DRAFT := Draft(true, 0, [], [], [1], [], [])

  /** The `k` hellos a client has sent. */
  function Hellos(peer: Client, epoch: nat, k: nat): seq<Item> {
    if k == 0 then [] else Hellos(peer, epoch, k - 1) + [ClientItem(CLIENT_HELLO, epoch, k - 1, peer.hello(k - 1))]
  }

  lemma BestOfSum(cache: seq<Item>, c: Item, r: Rule)
    ensures Best(cache + [c], r) == Better(Best(cache, r), c, r)
  {
    assert (cache + [c])[..|cache|] == cache;
  }

  /** Of several hellos the last one is found, and nothing else is among them. */
  lemma {:induction false} HellosFound(peer: Client, epoch: nat, k: nat, r: Rule)
    ensures Best(Hellos(peer, epoch, k), r)
         == if k > 0 && r.typ == CLIENT_HELLO && r.isClient && r.epoch == epoch
            then Some(ClientItem(CLIENT_HELLO, epoch, k - 1, peer.hello(k - 1))) else None
  {
    hide Message;
    if k > 0 {
      HellosFound(peer, epoch, k - 1, r);
      BestOfSum(Hellos(peer, epoch, k - 1), ClientItem(CLIENT_HELLO, epoch, k - 1, peer.hello(k - 1)), r);
    }
  }

  /** A rule whose best match carries the expected number is pulled. */
  lemma PullsIt(cache: seq<Item>, start: nat, r: Rule, c: Item, parses: bytes -> bool)
    requires start < U16 && !r.optional && Best(cache, r) == Some(c)
    requires DecodeHeader(c.data).Some? && DecodeHeader(c.data).value.messageSeq == start && parses(c.data)
    ensures FullPull(cache, start, [r], parses) == Some((start + 1, [Some(c)]))
  {
    hide Best, DecodeHeader;
    OwnSlots(cache, [r]);
    var found := Pulled(cache, [r]);
    assert found == [Some(c)] && found[..0] == [];
    assert InSequence(found[..0], start, parses) == Some(start);
    SmallModulo(start, U16);
  }

  /** The client's key exchange is pulled without its optional companions. */
  lemma PullsMiddle(cache: seq<Item>, start: nat, epoch: nat, c: Item, parses: bytes -> bool)
    requires start < U16 && Best(cache, Rule(CLIENT_KEY_EXCHANGE, epoch, true, false)) == Some(c)
    requires Best(cache, Rule(CERTIFICATE, epoch, true, true)).None?
    requires Best(cache, Rule(CERTIFICATE_VERIFY, epoch, true, true)).None?
    requires DecodeHeader(c.data).Some? && DecodeHeader(c.data).value.messageSeq == start && parses(c.data)
    ensures FullPull(cache, start, Flight4Rules(epoch), parses) == Some((start + 1, [None, Some(c), None]))
  {
    hide Best, DecodeHeader;
    OwnSlots(cache, Flight4Rules(epoch));
    var found := Pulled(cache, Flight4Rules(epoch));
    assert found == [None, Some(c), None];
    assert found[..2] == [None, Some(c)] && found[..2][..1] == [None] && found[..2][..1][..0] == [];
    assert InSequence(found[..2][..1][..0], start, parses) == Some(start);
    assert InSequence(found[..2][..1], start, parses) == Some(start);
    SmallModulo(start, U16);
    assert InSequence(found[..2], start, parses) == Some(start + 1);
  }

  /** A cache without a client's Finished shows no verify data. */
  lemma NothingShown(cfg: Config, m: Fsm, v: View)
    requires Best(v.cache, FinishedRule(cfg, true)[0]).None? && m.flight != F4
    ensures !Shown(cfg, m, Received(v))
  {
    hide Best, Transcript;
    assert FinishedRule(cfg, true)[0] in FinishedRule(cfg, true);
  }

  /** Getting a flight out. */
  lemma SentOut(cfg: Config, m: Fsm, w: Fsm)
    requires m.phase == Preparing && !IsLastSend(m.flight)
    requires w == Step(cfg, Step(cfg, m, Generated(DRAFT)), Written(true))
    ensures w.phase == Waiting && w.flight == m.flight && w.state.recvSeq == m.state.recvSeq
    ensures w.state.cookie == if m.flight == F0 && !cfg.skipHelloVerify then [1]
                              else if m.flight == F1 then [] else m.state.cookie
    ensures m.flight == F4 ==> w.state.sessionId == []
  {
    hide OwnVerify, NumbersFrom;
  }

  /** The first hello leads to flight 4, or to flight 2 when hellos are to be verified. */
  lemma FirstHello(cfg: Config, peer: Client, m: Fsm)
    requires m.phase == Waiting && m.flight == F0 && Speaks(peer)
    ensures var w := Step(cfg, m, Received(Smooth(peer, Hellos(peer, cfg.epoch, 1), [], [])));
            && w.phase == Preparing && w.flight == (if cfg.skipHelloVerify then F4 else F2)
            && w.state.recvSeq == 1 && w.state.cookie == m.state.cookie
  {
    hide Best, FullPull, Message;
    var r := Rule(CLIENT_HELLO, cfg.epoch, true, false);
    var c := ClientItem(CLIENT_HELLO, cfg.epoch, 0, peer.hello(0));
    HellosFound(peer, cfg.epoch, 1, r);
    MessageReads(CLIENT_HELLO, 0, peer.hello(0));
    PullsIt(Hellos(peer, cfg.epoch, 1), 0, r, c, peer.parses);
  }

  /** The second hello returns the cookie. */
  lemma SecondHello(cfg: Config, peer: Client, m: Fsm)
    requires m.phase == Waiting && m.flight == F2 && m.state.recvSeq == 1 && m.state.cookie == [1]
    requires Speaks(peer)
    ensures var w := Step(cfg, m, Received(Smooth(peer, Hellos(peer, cfg.epoch, 2), [], [1])));
            w.phase == Preparing && w.flight == F4 && w.state.recvSeq == 2
  {
    hide Best, FullPull, Message;
    var r := Rule(CLIENT_HELLO, cfg.epoch, true, false);
    var c := ClientItem(CLIENT_HELLO, cfg.epoch, 1, peer.hello(1));
    HellosFound(peer, cfg.epoch, 2, r);
    MessageReads(CLIENT_HELLO, 1, peer.hello(1));
    PullsIt(Hellos(peer, cfg.epoch, 2), 1, r, c, peer.parses);
  }

  /** Verify data that is not `expected`. */
  function Other(expected: bytes): (r: bytes)
    ensures |r| == 12 && r != expected
  {
    assert Zeros(12)[0] != seq(12, _ => 1)[0];
    if expected == Zeros(12) then seq(12, _ => 1) else Zeros(12)
  }

  function LastCache(cfg: Config, peer: Client, k: nat): seq<Item> {
    Hellos(peer, cfg.epoch, k) + [ClientItem(CLIENT_KEY_EXCHANGE, cfg.epoch, k, peer.exchange)]
  }

  /** A Finished message whose verify data is not that of the handshake. */
  function WrongFinished(cfg: Config, peer: Client, k: nat): Item {
    var expected := cfg.clientVerify([], Transcript(LastCache(cfg, peer, k), ClientFinishedRules(cfg.epoch)));
    ClientItem(FINISHED, cfg.epoch + 1, k + 1, Other(expected))
  }

  /** The client's key exchange in the cache, and its Finished behind it. */
  function LastView(cfg: Config, peer: Client, k: nat): View {
    Smooth(peer, LastCache(cfg, peer, k), LastCache(cfg, peer, k) + [WrongFinished(cfg, peer, k)], [])
  }

  /** What the rules of flight 4 and the Finished find in the last view. */
  lemma LastViewFound(cfg: Config, peer: Client, k: nat, r: Rule)
    ensures r.typ == CLIENT_KEY_EXCHANGE && r.isClient && r.epoch == cfg.epoch ==>
              Best(LastView(cfg, peer, k).cache, r)
                == Some(ClientItem(CLIENT_KEY_EXCHANGE, cfg.epoch, k, peer.exchange))
    ensures r.typ !in {CLIENT_HELLO, CLIENT_KEY_EXCHANGE} ==> Best(LastView(cfg, peer, k).cache, r).None?
    ensures r.typ != FINISHED ==> Best(LastView(cfg, peer, k).later, r) == Best(LastView(cfg, peer, k).cache, r)
    ensures r == FinishedRule(cfg, true)[0] ==>
              Best(LastView(cfg, peer, k).later, r) == Some(WrongFinished(cfg, peer, k))
  {
    hide Message, Best;
    HellosFound(peer, cfg.epoch, k, r);
    BestOfSum(Hellos(peer, cfg.epoch, k), ClientItem(CLIENT_KEY_EXCHANGE, cfg.epoch, k, peer.exchange), r);
    BestOfSum(LastCache(cfg, peer, k), WrongFinished(cfg, peer, k), r);
  }

  /** The transcript does not depend on the Finished that follows it. */
  lemma SameCovered(cfg: Config, peer: Client, k: nat)
    ensures var v := LastView(cfg, peer, k);
            Transcript(v.later, ClientFinishedRules(cfg.epoch)) == Transcript(v.cache, ClientFinishedRules(cfg.epoch))
  {
    hide LastView, Best;
    var v, rules := LastView(cfg, peer, k), ClientFinishedRules(cfg.epoch);
    forall i | 0 <= i < |rules| ensures Best(v.later, rules[i]) == Best(v.cache, rules[i]) {
      LastViewFound(cfg, peer, k, rules[i]);
    }
    assert Pulled(v.later, rules) == Pulled(v.cache, rules);
  }

  /** Both pulls of flight 4 succeed on the last view. */
  lemma LastViewPulled(cfg: Config, peer: Client, k: nat)
    requires k < 10 && Speaks(peer)
    ensures var v := LastView(cfg, peer, k);
            && FullPull(v.cache, k, Flight4Rules(cfg.epoch), v.parses)
                 == Some((k + 1, [None, Some(ClientItem(CLIENT_KEY_EXCHANGE, cfg.epoch, k, peer.exchange)), None]))
            && FullPull(v.later, k + 1, FinishedRule(cfg, true), v.parses)
                 == Some((k + 2, [Some(WrongFinished(cfg, peer, k))]))
  {
    var v := LastView(cfg, peer, k);
    WrongReads(cfg, peer, k);
    MessageReads(CLIENT_KEY_EXCHANGE, k, peer.exchange);
    LastViewFound(cfg, peer, k, Rule(CLIENT_KEY_EXCHANGE, cfg.epoch, true, false));
    LastViewFound(cfg, peer, k, Rule(CERTIFICATE, cfg.epoch, true, true));
    LastViewFound(cfg, peer, k, Rule(CERTIFICATE_VERIFY, cfg.epoch, true, true));
    LastViewFound(cfg, peer, k, FinishedRule(cfg, true)[0]);
    hide Best, FullPull, Message, Transcript, DecodeHeader, WrongFinished, LastCache;
    PullsMiddle(v.cache, k, cfg.epoch, ClientItem(CLIENT_KEY_EXCHANGE, cfg.epoch, k, peer.exchange), v.parses);
    PullsIt(v.later, k + 1, FinishedRule(cfg, true)[0], WrongFinished(cfg, peer, k), v.parses);
  }

  lemma WrongReads(cfg: Config, peer: Client, k: nat)
    requires k < 10 && Speaks(peer)
    ensures var data := WrongFinished(cfg, peer, k).data;
            && DecodeHeader(data).Some? && DecodeHeader(data).value.messageSeq == k + 1
            && DecodeHeader(data).value.typ == FINISHED
            && VerifyData(data)
                 != cfg.clientVerify([], Transcript(LastCache(cfg, peer, k), ClientFinishedRules(cfg.epoch)))
  {
    hide Transcript, ClientFinishedRules, LastCache, Message, DecodeHeader, VerifyData;
    var expected := cfg.clientVerify([], Transcript(LastCache(cfg, peer, k), ClientFinishedRules(cfg.epoch)));
    MessageReads(FINISHED, k + 1, Other(expected));
  }

  /** What flight 4 asks of a client that has no certificate. */
  lemma Flight4Passes(cfg: Config, s: State, v: View, exchange: Item, finished: Item)
    requires Flight4Pull(cfg, s, v).Some? && Flight4Pull(cfg, s, v).value.1 == [None, Some(exchange), None]
    requires Has(Some(exchange), CLIENT_KEY_EXCHANGE) && Has(Some(finished), FINISHED)
    requires var last := FullPull(v.later, Flight4Pull(cfg, s, v).value.0, FinishedRule(cfg, true), v.parses);
             last.Some? && last.value.1 == [Some(finished)]
    requires s.sessionId == [] && v.certificates.Accepted? && v.keyOk && v.queuedOk && v.authOk
    ensures Flight4Parse(cfg, s, v).1 == Go(F6)
  {
    hide FullPull, FinishedRule, Flight4Rules;
    assert !Has(None, CERTIFICATE);
    hide Has;
  }

  lemma LastViewParsed(cfg: Config, peer: Client, s: State, k: nat)
    requires s.recvSeq == k < 10 && s.sessionId == [] && Speaks(peer)
    ensures Flight4Parse(cfg, s, LastView(cfg, peer, k)).1 == Go(F6)
  {
    LastViewPulled(cfg, peer, k);
    WrongReads(cfg, peer, k);
    MessageReads(CLIENT_KEY_EXCHANGE, k, peer.exchange);
    hide Best, FullPull, Message, DecodeHeader, WrongFinished, LastCache, VerifyData, Flight4Parse, Transcript;
    Flight4Passes(cfg, s, LastView(cfg, peer, k), ClientItem(CLIENT_KEY_EXCHANGE, cfg.epoch, k, peer.exchange),
                  WrongFinished(cfg, peer, k));
  }

  lemma GoesOn(cfg: Config, m: Fsm, v: View)
    requires m.phase == Waiting && m.flight == F4 && Parse(cfg, F4, m.state, v).1 == Go(F6)
    ensures Step(cfg, m, Received(v)).phase == Preparing && Step(cfg, m, Received(v)).flight == F6
  {
    hide Parse;
  }

  /** The last view leads flight 4 to flight 6. */
  lemma LastViewPasses(cfg: Config, peer: Client, m: Fsm, k: nat)
    requires m.phase == Waiting && m.flight == F4 && m.state.recvSeq == k < 10 && m.state.sessionId == []
    requires Speaks(peer)
    ensures var w := Step(cfg, m, Received(LastView(cfg, peer, k))); w.phase == Preparing && w.flight == F6
  {
    hide Flight4Parse, LastView, Step;
    LastViewParsed(cfg, peer, m.state, k);
    GoesOn(cfg, m, LastView(cfg, peer, k));
  }

  /** The last view shows no matching verify data. */
  lemma LastViewShowsNothing(cfg: Config, peer: Client, m: Fsm, k: nat)
    requires m.state.recvSeq == k < 10 && Speaks(peer)
    ensures !Shown(cfg, m, Received(LastView(cfg, peer, k)))
  {
    LastViewPulled(cfg, peer, k);
    WrongReads(cfg, peer, k);
    SameCovered(cfg, peer, k);
    LastViewFound(cfg, peer, k, FinishedRule(cfg, true)[0]);
    hide Best, FullPull, Message, Transcript, DecodeHeader, WrongFinished, LastCache, VerifyData;
    NotPulled(LastView(cfg, peer, k).cache, k, FinishedRule(cfg, true)[0], LastView(cfg, peer, k).parses);
    hide ClientFinishedRules, Flight4Rules;
  }

  lemma LastViewShowsOther(cfg: Config, peer: Client, m: Fsm, k: nat)
    requires m.phase == Waiting && m.flight == F4 && m.state.recvSeq == k < 10 && Speaks(peer)
    ensures OtherShown(cfg, m, Received(LastView(cfg, peer, k)))
  {
    LastViewPulled(cfg, peer, k);
    WrongReads(cfg, peer, k);
    SameCovered(cfg, peer, k);
    hide Best, FullPull, Message, Transcript, DecodeHeader, WrongFinished, LastCache, VerifyData;
    hide ClientFinishedRules, Flight4Rules;
  }

  lemma NotPulled(cache: seq<Item>, start: int, r: Rule, parses: bytes -> bool)
    requires !r.optional && Best(cache, r).None?
    ensures FullPull(cache, start, [r], parses).None?
  {
    hide Best;
    assert [r][0] == r;
  }

  // ---------- every configuration has such a run ----------

  /** One more input that shows nothing. */
  lemma {:induction false} Extends(cfg: Config, front: seq<Input>, i: Input)
    requires !ShownIn(cfg, front) && !Shown(cfg, Run(cfg, false, front), i)
    ensures !ShownIn(cfg, front + [i]) && Run(cfg, false, front + [i]) == Step(cfg, Run(cfg, false, front), i)
  {
    hide Shown, Run, Step;
    LastStep(cfg, false, front, i);
    var inputs := front + [i];
    forall n | 0 <= n < |inputs| ensures !Shown(cfg, Run(cfg, false, inputs[..n]), inputs[n]) {
      if n < |front| {
        assert inputs[..n] == front[..n] && inputs[n] == front[n];
      } else {
        assert inputs[..n] == front && inputs[n] == i;
      }
    }
  }

  /** The messages of every view are parsed by the same parser. */
  ghost predicate ParsedBy(inputs: seq<Input>, parses: bytes -> bool) {
    forall i :: 0 <= i < |inputs| && inputs[i].Received? ==> inputs[i].view.parses == parses
  }

  lemma ParsedByLast(inputs: seq<Input>, v: View)
    requires ParsedBy(inputs, v.parses)
    ensures ParsedBy(inputs + [Received(v)], v.parses)
  {
  }

  /** The flight is prepared and sent. */
  lemma {:induction false} FlightOut(cfg: Config, front: seq<Input>) returns (inputs: seq<Input>)
    requires !ShownIn(cfg, front) && Run(cfg, false, front).phase == Preparing
    ensures !ShownIn(cfg, inputs) && inputs == front + [Generated(DRAFT)] + [Written(true)]
    ensures forall parses :: ParsedBy(front, parses) ==> ParsedBy(inputs, parses)
    ensures Run(cfg, false, inputs)
         == Step(cfg, Step(cfg, Run(cfg, false, front), Generated(DRAFT)), Written(true))
  {
    hide ShownIn, Run, Step;
    Extends(cfg, front, Generated(DRAFT));
    Extends(cfg, front + [Generated(DRAFT)], Written(true));
    inputs := front + [Generated(DRAFT)] + [Written(true)];
  }

  lemma StartShowsNothing(cfg: Config)
    ensures !ShownIn(cfg, []) && Run(cfg, false, []) == Start(cfg, false)
  {
  }

  /** The client's hellos bring a server to flight 4. */
  lemma {:induction false} HellosArrive(cfg: Config, peer: Client) returns (inputs: seq<Input>, k: nat)
    requires Speaks(peer)
    ensures !ShownIn(cfg, inputs) && ParsedBy(inputs, peer.parses) && k < 10
    ensures var m := Run(cfg, false, inputs); m.phase == Preparing && m.flight == F4 && m.state.recvSeq == k
  {
    hide ShownIn, Shown, Run, Step, Best, FinishedRule, ParsedBy, Speaks, Hellos;
    assert ParsedBy([], peer.parses) by { NothingParsed(peer.parses); }
    StartShowsNothing(cfg);
    inputs := FlightOut(cfg, []);
    SentOut(cfg, Start(cfg, false), Run(cfg, false, inputs));
    HelloShowsNothing(cfg, peer, Run(cfg, false, inputs), 1, []);
    FirstHello(cfg, peer, Run(cfg, false, inputs));
    var first := Received(Smooth(peer, Hellos(peer, cfg.epoch, 1), [], []));
    Extends(cfg, inputs, first);
    ParsedByLast(inputs, first.view);
    inputs, k := inputs + [first], 1;
    if !cfg.skipHelloVerify {
      var before := Run(cfg, false, inputs);
      inputs := FlightOut(cfg, inputs);
      SentOut(cfg, before, Run(cfg, false, inputs));
      HelloShowsNothing(cfg, peer, Run(cfg, false, inputs), 2, [1]);
      SecondHello(cfg, peer, Run(cfg, false, inputs));
      var second := Received(Smooth(peer, Hellos(peer, cfg.epoch, 2), [], [1]));
      Extends(cfg, inputs, second);
      ParsedByLast(inputs, second.view);
      inputs, k := inputs + [second], 2;
    }
  }

  lemma NothingParsed(parses: bytes -> bool)
    ensures ParsedBy([], parses)
  {
  }

  lemma HelloShowsNothing(cfg: Config, peer: Client, m: Fsm, k: nat, cookie: bytes)
    requires m.flight != F4
    ensures !Shown(cfg, m, Received(Smooth(peer, Hellos(peer, cfg.epoch, k), [], cookie)))
  {
    hide Shown, Best;
    HellosFound(peer, cfg.epoch, k, FinishedRule(cfg, true)[0]);
    NothingShown(cfg, m, Smooth(peer, Hellos(peer, cfg.epoch, k), [], cookie));
  }

  lemma LastViewParses(cfg: Config, peer: Client, k: nat)
    ensures LastView(cfg, peer, k).parses == peer.parses
  {
  }

  lemma LastFlightOut(cfg: Config, m: Fsm, w: Fsm)
    requires m.phase == Preparing && m.flight == F6
    requires w == Step(cfg, Step(cfg, m, Generated(DRAFT)), Written(true))
    ensures w.phase == Finished && w.flight == F6
  {
    hide OwnVerify, NumbersFrom;
  }

  /**
   Under every configuration and for every client whose messages parse, some run finishes in
   flight 6 on a Finished with other verify data than expected, and no matching verify data was
   ever shown.
   */
  lemma {:induction false} FinishedUnshown(cfg: Config, peer: Client) returns (inputs: seq<Input>, n: nat)
    requires Speaks(peer)
    ensures ParsedBy(inputs, peer.parses)
    ensures Run(cfg, false, inputs).phase == Finished && Run(cfg, false, inputs).flight == F6
    ensures n < |inputs| && OtherShown(cfg, Run(cfg, false, inputs[..n]), inputs[n])
    ensures !ShownIn(cfg, inputs)
  {
    hide ShownIn, Shown, Run, Step, LastView, OtherShown, ParsedBy, Speaks;
    var k: nat;
    inputs, k := HellosArrive(cfg, peer);
    var before := Run(cfg, false, inputs);
    inputs := FlightOut(cfg, inputs);
    SentOut(cfg, before, Run(cfg, false, inputs));
    LastViewPasses(cfg, peer, Run(cfg, false, inputs), k);
    LastViewShowsNothing(cfg, peer, Run(cfg, false, inputs), k);
    LastViewShowsOther(cfg, peer, Run(cfg, false, inputs), k);
    n := |inputs|;
    var front := inputs;
    Extends(cfg, inputs, Received(LastView(cfg, peer, k)));
    LastViewParses(cfg, peer, k);
    ParsedByLast(inputs, LastView(cfg, peer, k));
    inputs := inputs + [Received(LastView(cfg, peer, k))];
    before := Run(cfg, false, inputs);
    inputs := FlightOut(cfg, inputs);
    LastFlightOut(cfg, before, Run(cfg, false, inputs));
    assert inputs[..n] == front;
  }

  /** Every run of a server with the given parser that finishes in flight `f` was shown matching verify data. */
  ghost predicate AlwaysShown(cfg: Config, parses: bytes -> bool, f: Flight) {
    forall inputs :: ParsedBy(inputs, parses) ==>
      Run(cfg, false, inputs).phase == Finished && Run(cfg, false, inputs).flight == f ==> ShownIn(cfg, inputs)
  }

  lemma {:induction false} ProofIsShown(cfg: Config, inputs: seq<Input>)
    requires ClientProofSeen(cfg, inputs)
    ensures ShownIn(cfg, inputs)
  {
    hide ClientProved, Run;
  }

  /**
   A finished server is certain to have been shown matching verify data exactly when it finished
   in flight 4b, under every configuration and for every parser that some client can satisfy.
   */
  lemma {:induction false} ShownExactly(cfg: Config, peer: Client, f: Flight)
    requires f in {F4b, F6} && Speaks(peer)
    ensures AlwaysShown(cfg, peer.parses, f) <==> f == F4b
  {
    hide ShownIn, Run, ClientProofSeen, ParsedBy, Speaks, OtherShown;
    if f == F4b {
      forall inputs |
        && ParsedBy(inputs, peer.parses)
        && Run(cfg, false, inputs).phase == Finished && Run(cfg, false, inputs).flight == f
        ensures ShownIn(cfg, inputs)
      {
        ResumedServerFinishesProved(cfg, inputs);
        ProofIsShown(cfg, inputs);
      }
    } else {
      var inputs, n := FinishedUnshown(cfg, peer);
      assert !ShownIn(cfg, inputs);
    }
  }

  // ---------- clients that can be parsed ----------

  /** A parser that reads hellos as the server does; how it reads key exchanges depends on the suite. */
  function Parser(exchangeOk: bytes -> bool): bytes -> bool {
    data =>
      var h := DecodeHeader(data);
      && h.Some? && |data| >= HANDSHAKE_HEADER
      && (h.value.typ == CLIENT_HELLO ==> ClientHello.Decode(data[HANDSHAKE_HEADER..]).Some?)
      && (h.value.typ == CLIENT_KEY_EXCHANGE ==> exchangeOk(data[HANDSHAKE_HEADER..]))
  }

  function HelloBody(h: ClientHello.Hello): bytes {
    if ClientHello.Encode(h).Some? then ClientHello.Encode(h).value else []
  }

  lemma HelloBodySize(h: ClientHello.Hello)
    requires ClientHello.WellFormed(h)
    ensures |HelloBody(h)| < U24 && ClientHello.Decode(HelloBody(h)).Some?
  {
    ClientHello.EncodedSize(h);
    ClientHello.HelloRoundTrip(h);
  }

  /** Two well-formed hellos and a key exchange that is read make a client whose messages parse. */
  lemma HellosSpeak(first: ClientHello.Hello, second: ClientHello.Hello, exchange: bytes, exchangeOk: bytes -> bool)
    requires ClientHello.WellFormed(first) && ClientHello.WellFormed(second) && |exchange| < U24 && exchangeOk(exchange)
    ensures Speaks(Client(Parser(exchangeOk), n => HelloBody(if n == 0 then first else second), exchange))
  {
    hide ClientHello.WellFormed, HelloBody, ClientHello.Decode, DecodeHeader, Message;
    HelloBodySize(first);
    HelloBodySize(second);
    forall typ: byte, n: nat, body: bytes | n < U16 && |body| < U24
      ensures Parser(exchangeOk)(Message(typ, n, body)) <==>
              && (typ == CLIENT_HELLO ==> ClientHello.Decode(body).Some?)
              && (typ == CLIENT_KEY_EXCHANGE ==> exchangeOk(body))
    {
      ParserReads(exchangeOk, typ, n, body);
    }
  }

  lemma ParserReads(exchangeOk: bytes -> bool, typ: byte, n: nat, body: bytes)
    requires n < U16 && |body| < U24
    ensures Parser(exchangeOk)(Message(typ, n, body)) <==>
            && (typ == CLIENT_HELLO ==> ClientHello.Decode(body).Some?)
            && (typ == CLIENT_KEY_EXCHANGE ==> exchangeOk(body))
  {
    hide ClientHello.Decode, DecodeHeader;
    MessageReads(typ, n, body);
    assert Message(typ, n, body)[HANDSHAKE_HEADER..] == body;
  }
}
