/**
 When the handshake goes on: for each parser that reads a flight, exactly what it needs, and over
 runs, what a peer in a later flight was shown before.
 */
module HandshakeSteps {
  import opened Bytes
  import opened RecordLayer
  import opened HandshakeCache
  import opened HandshakeFsm

  // ---------- a flight that is complete and in sequence ----------

  ghost predicate Numbered(there: seq<Item>, start: int, parses: bytes -> bool) {
    forall k :: 0 <= k < |there| ==>
      && parses(there[k].data) && DecodeHeader(there[k].data).Some?
      && DecodeHeader(there[k].data).value.messageSeq == (start + k) % U16
  }

  /** The messages that the rules find, in the order of the rules. */
  function There(cache: seq<Item>, rules: seq<Rule>): seq<Item> {
    Present(Pulled(cache, rules))
  }

  /**
   No message that must be there is missing, there is at least one, all of them parse, and they
   are numbered one after another from `start`.
   */
  ghost predicate WholeFlight(cache: seq<Item>, rules: seq<Rule>, start: int, parses: bytes -> bool) {
    && (forall i :: 0 <= i < |rules| && !rules[i].optional ==> exists c :: c in cache && Matches(c, rules[i]))
    && There(cache, rules) != [] && Numbered(There(cache, rules), start, parses)
  }

  lemma {:induction false} InSequenceExactly(found: seq<Option<Item>>, start: int, parses: bytes -> bool)
    ensures InSequence(found, start, parses).Some? <==> Numbered(Present(found), start, parses)
  {
    hide DecodeHeader;
    if found != [] {
      var front, last := found[..|found| - 1], found[|found| - 1];
      InSequenceExactly(front, start, parses);
      if InSequence(front, start, parses).Some? { NoGap(front, start, parses); }
      var a, b := Present(front), Present(found);
      assert forall k :: 0 <= k < |a| ==> b[k] == a[k];
      if last.Some? { assert b[|a|] == last.value; }
    }
  }

  lemma {:induction false} PresentIsEmpty(found: seq<Option<Item>>)
    ensures Present(found) == [] <==> forall i :: 0 <= i < |found| ==> found[i].None?
  {
    if found != [] {
      PresentIsEmpty(found[..|found| - 1]);
      assert forall i :: 0 <= i < |found| - 1 ==> found[..|found| - 1][i] == found[i];
    }
  }

  predicate OwnTypes(rules: seq<Rule>) {
    forall i, j :: 0 <= i < j < |rules| ==> rules[i].typ != rules[j].typ
  }

  /** A pull hands over exactly the whole flights. */
  lemma PullExactly(cache: seq<Item>, start: int, rules: seq<Rule>, parses: bytes -> bool)
    requires OwnTypes(rules)
    ensures FullPull(cache, start, rules, parses)
         == if WholeFlight(cache, rules, start, parses)
            then Some((start + |There(cache, rules)|, Pulled(cache, rules))) else None
  {
    hide Best, Matches, InSequence, Present, Numbered;
    OwnSlots(cache, rules);
    var found := Pulled(cache, rules);
    InSequenceExactly(found, start, parses);
    PresentIsEmpty(found);
    if InSequence(found, start, parses).Some? { NoGap(found, start, parses); }
    forall i | 0 <= i < |rules|
      ensures Best(cache, rules[i]).Some? <==> exists c :: c in cache && Matches(c, rules[i])
    {
      BestIsBest(cache, rules[i]);
    }
  }

  // ---------- what each flight is ----------

  /** ServerKeyExchange or nothing, and ServerHelloDone, with a pre-shared key; otherwise with certificates. */
  function ServerFlightRules(cfg: Config): seq<Rule> {
    if cfg.psk then [Rule(12, cfg.epoch, false, true), Rule(14, cfg.epoch, false, false)]
    else [ Rule(11, cfg.epoch, false, true), Rule(12, cfg.epoch, false, false),
           Rule(13, cfg.epoch, false, true), Rule(14, cfg.epoch, false, false) ]
  }

  /** A message of the given type stands under a rule. */
  predicate Reads(c: Option<Item>, typ: byte) {
    c.Some? && DecodeHeader(c.value.data).Some? && DecodeHeader(c.value.data).value.typ == typ
  }

  /** One message, numbered `start`. */
  ghost predicate OneMessage(v: View, cache: seq<Item>, r: Rule, start: int) {
    WholeFlight(cache, [r], start, v.parses)
  }

  lemma OnePull(v: View, cache: seq<Item>, r: Rule, start: int)
    requires !r.optional
    ensures FullPull(cache, start, [r], v.parses)
         == if OneMessage(v, cache, r, start) then Some((start + 1, [Best(cache, r)])) else None
    ensures OneMessage(v, cache, r, start) ==> Best(cache, r).Some?
  {
    hide Best, Numbered, Matches;
    PullExactly(cache, start, [r], v.parses);
    BestIsBest(cache, r);
    assert Pulled(cache, [r]) == [Best(cache, r)];
    assert [r][0] == r;
    OnePresent(Best(cache, r));
  }

  lemma OnePresent(c: Option<Item>)
    ensures |Present([c])| == if c.Some? then 1 else 0
  {
    assert [c][..0] == [];
  }

  // ---------- the client in flights 1 and 3 ----------

  /** The server's flight after its hello goes on exactly when it is whole and the keys are fine. */
  lemma ServerFlightExactly(cfg: Config, s: State, v: View)
    ensures var (t, out), rules := ServerFlight(cfg, s, v), ServerFlightRules(cfg);
            var whole := WholeFlight(v.cache, rules, s.recvSeq + 1, v.parses);
            && out == (if !whole then Stay else if v.exchangeOk then Go(F5) else Fail)
            && t == if whole then s.(recvSeq := s.recvSeq + 1 + |There(v.cache, rules)|) else s
  {
    hide FullPull, WholeFlight, There;
    PullExactly(v.cache, s.recvSeq + 1, ServerFlightRules(cfg), v.parses);
  }

  /** A request to verify the hello, numbered as expected. */
  ghost predicate Requested(cfg: Config, s: State, v: View) {
    OneMessage(v, v.cache, Rule(3, cfg.epoch, false, false), s.recvSeq)
      && Reads(Best(v.cache, Rule(3, cfg.epoch, false, false)), 3)
  }

  /** A server hello, numbered as expected. */
  ghost predicate HelloThere(cfg: Config, s: State, v: View) {
    OneMessage(v, v.cache, Rule(2, cfg.epoch, false, false), s.recvSeq)
      && Reads(Best(v.cache, Rule(2, cfg.epoch, false, false)), 2)
  }

  /** An optional rule alone is pulled as a mandatory one is. */
  lemma OptionalAlone(cache: seq<Item>, r: Rule, start: int, parses: bytes -> bool)
    requires r.optional
    ensures FullPull(cache, start, [r], parses) == FullPull(cache, start, [r.(optional := false)], parses)
  {
    var q := r.(optional := false);
    BestSame(cache, r, q);
    hide Best;
    OwnSlots(cache, [r]);
    OwnSlots(cache, [q]);
    assert Pulled(cache, [r]) == Pulled(cache, [q]) == [Best(cache, r)];
    assert [q][0] == q && [r][0] == r;
  }

  lemma {:induction false} BestSame(cache: seq<Item>, r: Rule, q: Rule)
    requires r.typ == q.typ && r.epoch == q.epoch && r.isClient == q.isClient
    ensures Best(cache, r) == Best(cache, q)
  {
    if cache != [] { BestSame(cache[..|cache| - 1], r, q); }
  }

  lemma RequestPull(cfg: Config, s: State, v: View)
    ensures var again := FullPull(v.cache, s.recvSeq, [Rule(HELLO_VERIFY_REQUEST, cfg.epoch, false, true)], v.parses);
            && (again.Some? && Has(again.value.1[0], HELLO_VERIFY_REQUEST) <==> Requested(cfg, s, v))
            && (again.Some? ==> again.value.0 == s.recvSeq + 1)
  {
    hide FullPull, Best, WholeFlight;
    OptionalAlone(v.cache, Rule(HELLO_VERIFY_REQUEST, cfg.epoch, false, true), s.recvSeq, v.parses);
    OnePull(v, v.cache, Rule(3, cfg.epoch, false, false), s.recvSeq);
  }

  lemma HelloPull(cfg: Config, s: State, v: View)
    ensures var pull := FullPull(v.cache, s.recvSeq, [Rule(SERVER_HELLO, cfg.epoch, false, false)], v.parses);
            && (pull.Some? && Has(pull.value.1[0], SERVER_HELLO) <==> HelloThere(cfg, s, v))
            && (pull.Some? <==> OneMessage(v, v.cache, Rule(2, cfg.epoch, false, false), s.recvSeq))
  {
    hide FullPull, Best, WholeFlight;
    OnePull(v, v.cache, Rule(2, cfg.epoch, false, false), s.recvSeq);
  }

  /** The server resumes the session the client asked for. */
  predicate Resumes(s: State, v: View) {
    v.helloSession != [] && s.sessionId == v.helloSession
  }

  /**
   A client with a server hello before it that is fine and resumes nothing goes on to flight 5
   exactly when the rest of the server's flight is whole and the keys are fine; a hello that is
   not fine ends the handshake.
   */
  lemma Flight3Exactly(cfg: Config, s: State, v: View)
    requires !Requested(cfg, s, v) && HelloThere(cfg, s, v) && !Resumes(s, v) && (s.sessionId != [] ==> v.storeOk)
    ensures var whole := WholeFlight(v.cache, ServerFlightRules(cfg), s.recvSeq + 1, v.parses);
            Flight3Parse(cfg, s, v).1
              == if !v.versionOk || !v.helloOk then Fail
                 else if !whole then Stay else if v.exchangeOk then Go(F5) else Fail
  {
    hide FullPull, Best, WholeFlight, ServerFlight, Requested, HelloThere, Has;
    RequestPull(cfg, s, v);
    HelloPull(cfg, s, v);
    ServerFlightExactly(cfg, s.(sessionId := if cfg.hasStore then v.helloSession else [], master := []), v);
  }

  /** A request to verify the hello sends the client to flight 3 with exactly the request's cookie. */
  lemma RequestObeyed(cfg: Config, s: State, v: View)
    requires Requested(cfg, s, v)
    ensures Flight3Parse(cfg, s, v)
         == if v.versionOk then (s.(cookie := v.helloCookie, recvSeq := s.recvSeq + 1), Go(F3)) else (s, Fail)
  {
    hide FullPull, Best, Requested, Has;
    RequestPull(cfg, s, v);
  }

  // ---------- what a client was shown ----------

  /** The state the parser of flight 1 or 3 hands to the server's flight has the same number to expect. */
  ghost predicate ServerFlightShown(cfg: Config, m: Fsm, i: Input) {
    m.phase == Waiting && m.flight in {F1, F3} && i.Received? &&
    var v := i.view;
    && v.exchangeOk && WholeFlight(v.cache, ServerFlightRules(cfg), m.state.recvSeq + 1, v.parses)
    && OneMessage(v, v.cache, Rule(2, cfg.epoch, false, false), m.state.recvSeq)
    && (HelloThere(cfg, m.state, v) ==> v.versionOk && v.helloOk)
  }

  lemma Flight3ToFive(cfg: Config, s: State, v: View)
    requires Flight3Parse(cfg, s, v).1 == Go(F5)
    ensures v.exchangeOk && WholeFlight(v.cache, ServerFlightRules(cfg), s.recvSeq + 1, v.parses)
    ensures OneMessage(v, v.cache, Rule(2, cfg.epoch, false, false), s.recvSeq)
    ensures HelloThere(cfg, s, v) ==> v.versionOk && v.helloOk
  {
    hide FullPull, Best, WholeFlight, ServerFlight, Requested, HelloThere, Has, OneMessage, Transcript, VerifyData;
    RequestPull(cfg, s, v);
    HelloPull(cfg, s, v);
    ServerFlightExactly(cfg, s, v);
    ServerFlightExactly(cfg, s.(sessionId := if cfg.hasStore then v.helloSession else [], master := []), v);
  }

  lemma FiveNeedsFlight(cfg: Config, m: Fsm, i: Input)
    requires Inv(m, true) && m.flight != F5 && Step(cfg, m, i).flight == F5
    ensures ServerFlightShown(cfg, m, i)
  {
    hide Parse, ServerFlightShown;
    assert m.phase == Waiting && i.Received?;
    FiveParsed(cfg, m, i.view);
  }

  lemma FiveParsed(cfg: Config, m: Fsm, v: View)
    requires m.phase == Waiting && OfSide(m.flight, true) && m.flight != F5
    requires Parse(cfg, m.flight, m.state, v).1 == Go(F5)
    ensures ServerFlightShown(cfg, m, Received(v))
  {
    hide FullPull, Flight3Parse, Best, WholeFlight, Has, OneMessage, HelloThere;
    Flight3ToFive(cfg, m.state, v);
  }

  // ---------- what was shown, over runs ----------

  /** Every step into `reached` makes the link, or keeps the links there were. */
  ghost predicate Links(cfg: Config, isClient: bool, reached: Fsm -> bool, link: (Fsm, Input, Fsm) -> bool) {
    && !reached(Start(cfg, isClient))
    && forall m, i :: Inv(m, isClient) && reached(Step(cfg, m, i)) ==>
         || link(m, i, Step(cfg, m, i))
         || (reached(m) && forall n, j :: link(n, j, m) ==> link(n, j, Step(cfg, m, i)))
  }

  /** Some step of the run is linked to its end. */
  ghost predicate Linked(cfg: Config, isClient: bool, inputs: seq<Input>, link: (Fsm, Input, Fsm) -> bool) {
    exists n :: 0 <= n < |inputs| && link(Run(cfg, isClient, inputs[..n]), inputs[n], Run(cfg, isClient, inputs))
  }

  lemma {:induction false} LinkedBefore(cfg: Config, isClient: bool, inputs: seq<Input>,
                                        reached: Fsm -> bool, link: (Fsm, Input, Fsm) -> bool)
    requires Links(cfg, isClient, reached, link) && reached(Run(cfg, isClient, inputs))
    ensures Linked(cfg, isClient, inputs, link)
  {
    hide Step, Inv;
    var last := |inputs| - 1;
    var front, i := inputs[..last], inputs[last];
    var m := Run(cfg, isClient, front);
    RunFlights(cfg, isClient, front);
    if !link(m, i, Step(cfg, m, i)) {
      LinkedBefore(cfg, isClient, front, reached, link);
      var n :| 0 <= n < last && link(Run(cfg, isClient, front[..n]), front[n], m);
      assert front[..n] == inputs[..n] && front[n] == inputs[n];
    }
  }

  /** In every run a client in flight 5 was shown a whole server flight with keys that are fine. */
  lemma {:induction false} ClientNeedsFlight(cfg: Config, inputs: seq<Input>)
    requires Run(cfg, true, inputs).flight == F5
    ensures exists n :: 0 <= n < |inputs| && ServerFlightShown(cfg, Run(cfg, true, inputs[..n]), inputs[n])
  {
    hide Run, Step, Inv, ServerFlightShown;
    var reached, link := (m: Fsm) => m.flight == F5, (m: Fsm, i: Input, n: Fsm) => ServerFlightShown(cfg, m, i);
    forall m, i | Inv(m, true) && reached(Step(cfg, m, i)) ensures link(m, i, Step(cfg, m, i)) || reached(m) {
      if m.flight != F5 { FiveNeedsFlight(cfg, m, i); }
    }
    LinkedBefore(cfg, true, inputs, reached, link);
  }

  /** A client in flight 1 or 3 is shown a request to verify its hello. */
  ghost predicate RequestShown(cfg: Config, m: Fsm, i: Input) {
    m.phase == Waiting && m.flight in {F1, F3} && i.Received? && i.view.versionOk &&
    exists c :: c in i.view.cache && Matches(c, Rule(3, cfg.epoch, false, false)) && Reads(Some(c), 3)
  }

  lemma VerifyingNeedsRequest(cfg: Config, s: State, v: View)
    ensures Flight3Parse(cfg, s, v).1 == Go(F3) ==>
              Flight3Parse(cfg, s, v).0.cookie == v.helloCookie && v.versionOk && Requested(cfg, s, v)
    ensures Flight3Parse(cfg, s, v).1 == Stay ==> Flight3Parse(cfg, s, v).0.cookie == s.cookie
  {
    hide FullPull, Best, Requested, Has, Transcript, VerifyData;
    RequestPull(cfg, s, v);
  }

  lemma RequestedIsThere(cfg: Config, s: State, v: View)
    requires Requested(cfg, s, v)
    ensures exists c :: c in v.cache && Matches(c, Rule(3, cfg.epoch, false, false)) && Reads(Some(c), 3)
  {
    hide Numbered, Best, DecodeHeader;
    OnePull(v, v.cache, Rule(3, cfg.epoch, false, false), s.recvSeq);
    BestIsBest(v.cache, Rule(3, cfg.epoch, false, false));
  }

  lemma FirstRequest(cfg: Config, s: State, v: View)
    ensures Flight1Parse(cfg, s, v).1 == Go(F3) ==>
              && Flight1Parse(cfg, s, v).0.cookie == v.helloCookie && v.versionOk
              && exists c :: c in v.cache && Matches(c, Rule(3, cfg.epoch, false, false)) && Reads(Some(c), 3)
    ensures Flight1Parse(cfg, s, v).1 == Stay ==> Flight1Parse(cfg, s, v).0.cookie == s.cookie
  {
    var rules := [Rule(HELLO_VERIFY_REQUEST, cfg.epoch, false, true), Rule(SERVER_HELLO, cfg.epoch, false, true)];
    PullExactly(v.cache, s.recvSeq, rules, v.parses);
    BestIsBest(v.cache, rules[0]);
    VerifyingNeedsRequest(cfg, s, v);
    assert Pulled(v.cache, rules)[0] == Best(v.cache, rules[0]);
    hide Best, Flight3Parse, Requested, Matches, FullPull, WholeFlight, DecodeHeader, There;
    if Requested(cfg, s, v) { RequestedIsThere(cfg, s, v); }
  }

  /** The client took its cookie from the request it was shown. */
  ghost predicate CookieFrom(cfg: Config, m: Fsm, i: Input, n: Fsm) {
    RequestShown(cfg, m, i) && n.state.cookie == i.view.helloCookie
  }

  lemma ThreeNeedsRequest(cfg: Config, m: Fsm, i: Input)
    requires Inv(m, true) && Step(cfg, m, i).flight == F3
    ensures CookieFrom(cfg, m, i, Step(cfg, m, i)) ||
            (m.flight == F3 && Step(cfg, m, i).state.cookie == m.state.cookie) || Step(cfg, m, i).phase == Errored
  {
    hide Matches, DecodeHeader, Flight1Parse, Flight3Parse, OwnVerify, NumbersFrom, LastParse, Flight5Parse;
    if m.phase == Waiting && i.Received? {
      ParseStaysOnSide(cfg, m.flight, m.state, i.view);
      if m.flight == F1 { FirstRequest(cfg, m.state, i.view); }
      if m.flight == F3 {
        VerifyingNeedsRequest(cfg, m.state, i.view);
        if Requested(cfg, m.state, i.view) { RequestedIsThere(cfg, m.state, i.view); }
      }
    }
  }

  /** In every run a client in flight 3 holds the cookie of a request it was shown. */
  lemma {:induction false} ClientHoldsCookie(cfg: Config, inputs: seq<Input>)
    requires Run(cfg, true, inputs).flight == F3 && Run(cfg, true, inputs).phase != Errored
    ensures exists n :: 0 <= n < |inputs| && RequestShown(cfg, Run(cfg, true, inputs[..n]), inputs[n])
                     && Run(cfg, true, inputs).state.cookie == inputs[n].view.helloCookie
  {
    hide Run, Step, Inv, RequestShown;
    var reached := (m: Fsm) => m.flight == F3 && m.phase != Errored;
    var link := (m: Fsm, i: Input, n: Fsm) => CookieFrom(cfg, m, i, n);
    forall m, i | Inv(m, true) && reached(Step(cfg, m, i))
      ensures link(m, i, Step(cfg, m, i)) ||
              (reached(m) && forall n, j :: link(n, j, m) ==> link(n, j, Step(cfg, m, i)))
    {
      ThreeNeedsRequest(cfg, m, i);
      StaysErrored(cfg, m, i);
    }
    LinkedBefore(cfg, true, inputs, reached, link);
  }

  // ---------- the server ----------

  function ClientFlightRules(cfg: Config): seq<Rule> {
    [Rule(11, cfg.epoch, true, true), Rule(16, cfg.epoch, true, false), Rule(15, cfg.epoch, true, true)]
  }

  /** The client's flight is whole, its key exchange is one, and everything else about it is fine. */
  ghost predicate ClientFlightFine(cfg: Config, s: State, v: View) {
    && WholeFlight(v.cache, ClientFlightRules(cfg), s.recvSeq, v.parses)
    && Reads(Best(v.cache, Rule(16, cfg.epoch, true, false)), 16)
    && v.certificates.Accepted? && (v.initialized || v.keyOk) && v.queuedOk
    && (s.sessionId == [] || v.storeOk || Reads(Best(v.cache, Rule(11, cfg.epoch, true, true)), 11))
  }

  /** The client's Finished follows its flight without a gap. */
  ghost predicate FinishedFollows(cfg: Config, s: State, v: View) {
    var next := s.recvSeq + |There(v.cache, ClientFlightRules(cfg))|;
    && OneMessage(v, v.later, Rule(20, cfg.epoch + 1, true, false), next)
    && Reads(Best(v.later, Rule(20, cfg.epoch + 1, true, false)), 20)
  }

  /** Flight 4 goes on exactly with a fine client flight, the Finished behind it, and the authentication asked for. */
  lemma Flight4Exactly(cfg: Config, s: State, v: View)
    ensures Flight4Parse(cfg, s, v).1 == Go(F6) <==>
            ClientFlightFine(cfg, s, v) && FinishedFollows(cfg, s, v) && v.authOk
    ensures Flight4Parse(cfg, s, v).1 == Go(F6) ==>
            Flight4Parse(cfg, s, v).0.master == if v.initialized then s.master else v.secret
  {
    Flight4Pulls(cfg, s, v);
    hide FullPull, Best, WholeFlight, There, OneMessage, DecodeHeader, Pulled, Flight4Rules, FinishedRule;
    hide ClientFlightRules;
    Flight4Outcome(cfg, s, v);
  }

  /** What the two pulls of flight 4 find. */
  lemma Flight4Pulls(cfg: Config, s: State, v: View)
    ensures var rules := ClientFlightRules(cfg);
            var first := FullPull(v.cache, s.recvSeq, Flight4Rules(cfg.epoch), v.parses);
            var next := s.recvSeq + |There(v.cache, rules)|;
            var last := FullPull(v.later, next, FinishedRule(cfg, true), v.parses);
            && (first.Some? <==> WholeFlight(v.cache, rules, s.recvSeq, v.parses))
            && (first.Some? ==> first.value.0 == next && |first.value.1| == 3
                                && first.value.1[0] == Best(v.cache, Rule(11, cfg.epoch, true, true))
                                && first.value.1[1] == Best(v.cache, Rule(16, cfg.epoch, true, false)))
            && (last.Some? <==> OneMessage(v, v.later, Rule(20, cfg.epoch + 1, true, false), next))
            && (last.Some? ==> last.value.1 == [Best(v.later, Rule(20, cfg.epoch + 1, true, false))])
  {
    var rules := ClientFlightRules(cfg);
    PullExactly(v.cache, s.recvSeq, rules, v.parses);
    OnePull(v, v.later, FinishedRule(cfg, true)[0], s.recvSeq + |There(v.cache, rules)|);
    var found := Pulled(v.cache, rules);
    assert found[0] == Best(v.cache, rules[0]) && found[1] == Best(v.cache, rules[1]);
    hide FullPull, Best, WholeFlight, There, OneMessage, Pulled;
  }

  /** Flight 4 in terms of its two pulls. */
  lemma Flight4Outcome(cfg: Config, s: State, v: View)
    ensures var first := FullPull(v.cache, s.recvSeq, Flight4Rules(cfg.epoch), v.parses);
            Flight4Parse(cfg, s, v).1 == Go(F6) <==>
              && first.Some? && Has(first.value.1[1], CLIENT_KEY_EXCHANGE)
              && v.certificates.Accepted? && (v.initialized || v.keyOk) && v.queuedOk
              && (s.sessionId == [] || v.storeOk || Has(first.value.1[0], CERTIFICATE))
              && v.authOk
              && var last := FullPull(v.later, first.value.0, FinishedRule(cfg, true), v.parses);
                 last.Some? && Has(last.value.1[0], FINISHED)
    ensures Flight4Parse(cfg, s, v).1 == Go(F6) ==>
            Flight4Parse(cfg, s, v).0.master == if v.initialized then s.master else v.secret
  {
    hide FullPull, Has;
    PullsOne(v.cache, s.recvSeq, Flight4Rules(cfg.epoch), v.parses);
  }

  ghost predicate ClientFlightShown(cfg: Config, m: Fsm, i: Input) {
    m.phase == Waiting && m.flight == F4 && i.Received? && i.view.authOk
      && ClientFlightFine(cfg, m.state, i.view) && FinishedFollows(cfg, m.state, i.view)
  }

  lemma SixNeedsFlight(cfg: Config, m: Fsm, i: Input)
    requires Inv(m, false) && m.flight != F6 && Step(cfg, m, i).flight == F6
    ensures ClientFlightShown(cfg, m, i)
  {
    hide Parse, ClientFlightFine, FinishedFollows;
    OnlyFromHello(cfg, m.flight, m.state, i.view);
    Flight4Exactly(cfg, m.state, i.view);
    assert Parse(cfg, F4, m.state, i.view) == Flight4Parse(cfg, m.state, i.view) by {
      FourParsed(cfg, m.state, i.view);
    }
  }

  lemma FourParsed(cfg: Config, s: State, v: View)
    ensures Parse(cfg, F4, s, v) == Flight4Parse(cfg, s, v)
  {
  }

  /** In every run a server in flight 6 was shown a whole client flight with everything about it fine. */
  lemma {:induction false} ServerNeedsFlight(cfg: Config, inputs: seq<Input>)
    requires Run(cfg, false, inputs).flight == F6
    ensures exists n :: 0 <= n < |inputs| && ClientFlightShown(cfg, Run(cfg, false, inputs[..n]), inputs[n])
  {
    hide Run, Step, Inv, ClientFlightShown;
    var reached, link := (m: Fsm) => m.flight == F6, (m: Fsm, i: Input, n: Fsm) => ClientFlightShown(cfg, m, i);
    forall m, i | Inv(m, false) && reached(Step(cfg, m, i)) ensures link(m, i, Step(cfg, m, i)) || reached(m) {
      if m.flight != F6 { SixNeedsFlight(cfg, m, i); }
    }
    LinkedBefore(cfg, false, inputs, reached, link);
  }

  /** A client hello, numbered as expected. */
  ghost predicate ClientHelloThere(cfg: Config, start: int, v: View) {
    OneMessage(v, v.cache, Rule(1, cfg.epoch, true, false), start)
      && Reads(Best(v.cache, Rule(1, cfg.epoch, true, false)), 1)
  }

  /** What the first hello leads to. */
  function HelloOutcome(cfg: Config, v: View): Outcome {
    if !v.versionOk || !v.helloOk then Fail
    else if v.helloSession == [] || v.stored.NoSession? then Go(if cfg.skipHelloVerify then F4 else F2)
    else if v.stored.StoreError? || !v.initOk then Fail
    else Go(F4b)
  }

  lemma HelloPulled(cfg: Config, start: int, v: View)
    ensures var pull := FullPull(v.cache, start, [Rule(CLIENT_HELLO, cfg.epoch, true, false)], v.parses);
            && (pull.Some? && Has(pull.value.1[0], CLIENT_HELLO) <==> ClientHelloThere(cfg, start, v))
            && (pull.Some? <==> OneMessage(v, v.cache, Rule(1, cfg.epoch, true, false), start))
            && (pull.Some? ==> pull.value.0 == start + 1)
  {
    hide FullPull, Best, WholeFlight;
    OnePull(v, v.cache, Rule(1, cfg.epoch, true, false), start);
  }

  /** Flight 0 answers a first hello, and only that, with the outcome it should have; a session brings its secret. */
  lemma Flight0Exactly(cfg: Config, s: State, v: View)
    ensures Flight0Parse(cfg, s, v).1 == if ClientHelloThere(cfg, 0, v) then HelloOutcome(cfg, v) else Stay
    ensures ClientHelloThere(cfg, 0, v) && HelloOutcome(cfg, v) == Go(F4b) ==>
              Flight0Parse(cfg, s, v).0 == s.(recvSeq := 1, sessionId := v.helloSession, master := v.stored.secret)
  {
    hide FullPull, Best, ClientHelloThere, Has, OneMessage;
    HelloPulled(cfg, 0, v);
  }

  /** Flight 2 goes on exactly when the second hello returns the cookie; the first one is answered again. */
  lemma Flight2Exactly(cfg: Config, s: State, v: View)
    ensures OneMessage(v, v.cache, Rule(1, cfg.epoch, true, false), s.recvSeq) ==>
              Flight2Parse(cfg, s, v).1
                == if !ClientHelloThere(cfg, s.recvSeq, v) then Stay
                   else if !v.versionOk then Fail
                   else if v.helloCookie == [] then Stay
                   else if v.helloCookie != s.cookie then Fail
                   else Go(F4)
    ensures !OneMessage(v, v.cache, Rule(1, cfg.epoch, true, false), s.recvSeq) ==>
              Flight2Parse(cfg, s, v) == Flight0Parse(cfg, s, v)
  {
    hide FullPull, Best, ClientHelloThere, Has, OneMessage, Flight0Parse;
    HelloPulled(cfg, s.recvSeq, v);
  }

  /** The server found a session for the hello it was shown, and uses its secret. */
  ghost predicate SessionFrom(m: Fsm, i: Input, n: Fsm) {
    m.phase == Waiting && m.flight in {F0, F2} && i.Received? &&
    var v := i.view;
    && v.versionOk && v.helloOk && v.helloSession != [] && v.stored.Session? && v.initOk
    && n.state.sessionId == v.helloSession && n.state.master == v.stored.secret
  }

  lemma ResumingNeedsSession(cfg: Config, m: Fsm, i: Input)
    requires Inv(m, false) && Step(cfg, m, i).flight == F4b
    ensures SessionFrom(m, i, Step(cfg, m, i)) ||
            (m.flight == F4b && Step(cfg, m, i).state.sessionId == m.state.sessionId
                             && Step(cfg, m, i).state.master == m.state.master)
  {
    hide FullPull, Best, Flight0Parse, Has, Transcript, VerifyData, OwnVerify, NumbersFrom, ClientHelloThere;
    hide OneMessage, Flight4Parse;
    if m.phase == Waiting && i.Received? {
      Flight0Exactly(cfg, m.state, i.view);
      Flight2Exactly(cfg, m.state, i.view);
      Flight4Never(cfg, m.state, i.view);
    }
  }

  lemma Flight4Never(cfg: Config, s: State, v: View)
    ensures Flight4Parse(cfg, s, v).1 != Go(F4b)
  {
    hide FullPull, Has;
  }

  /** In every run a resuming server uses the secret stored for the session of a hello it was shown. */
  lemma {:induction false} ResumingServerUsesSession(cfg: Config, inputs: seq<Input>)
    requires Run(cfg, false, inputs).flight == F4b
    ensures exists n :: 0 <= n < |inputs|
                     && SessionFrom(Run(cfg, false, inputs[..n]), inputs[n], Run(cfg, false, inputs))
  {
    hide Run, Step, Inv;
    var reached := (m: Fsm) => m.flight == F4b;
    var link := (m: Fsm, i: Input, n: Fsm) => SessionFrom(m, i, n);
    forall m, i | Inv(m, false) && reached(Step(cfg, m, i))
      ensures link(m, i, Step(cfg, m, i)) ||
              (reached(m) && forall n, j :: link(n, j, m) ==> link(n, j, Step(cfg, m, i)))
    {
      ResumingNeedsSession(cfg, m, i);
    }
    LinkedBefore(cfg, false, inputs, reached, link);
  }

  /** A peer in a last flight stays there exactly when the other side's Finished, read already, is there again. */
  lemma LastExactly(cfg: Config, s: State, v: View, f: Flight)
    requires f in {F5b, F6}
    ensures var r := Rule(20, cfg.epoch + 1, f == F6, false);
            && Parse(cfg, f, s, v).0 == s
            && Parse(cfg, f, s, v).1
                 == if OneMessage(v, v.cache, r, s.recvSeq - 1) && Reads(Best(v.cache, r), 20) then Go(f) else Stay
  {
    hide FullPull, Best, WholeFlight;
    OnePull(v, v.cache, Rule(20, cfg.epoch + 1, f == F6, false), s.recvSeq - 1);
  }

  // ---------- one flight out and the answer in ----------

  /** A flight is made, sent, and answered. */
  function Round(d: Draft, v: View): seq<Input> {
    [Generated(d), Written(true), Received(v)]
  }

  /** The state of a peer whose flight is prepared. */
  function Ready(cfg: Config, m: Fsm, d: Draft): (s: State)
    ensures s.sendSeq >= Count(m.flight, d)
  {
    var t := Generate(cfg, m.flight, m.state, d);
    t.(sendSeq := t.sendSeq + Count(m.flight, d))
  }

  /** The numbers a flight gets. */
  function Given(cfg: Config, m: Fsm, d: Draft): seq<nat> {
    NumbersFrom(Ready(cfg, m, d).sendSeq - Count(m.flight, d), Count(m.flight, d))
  }

  lemma PreparedIs(cfg: Config, m: Fsm, d: Draft)
    requires m.phase == Preparing && d.ok
    ensures var n := Step(cfg, m, Generated(d));
            n.phase == Sending && n.flight == m.flight && n.state == Ready(cfg, m, d) && n.numbers == Given(cfg, m, d)
  {
    hide OwnVerify, NumbersFrom;
  }

  lemma WrittenIs(cfg: Config, m: Fsm)
    requires m.phase == Sending
    ensures Step(cfg, m, Written(true)) == m.(phase := if m.flight in {F5b, F6} then Finished else Waiting)
  {
  }

  lemma AnsweredIs(cfg: Config, m: Fsm, v: View)
    requires m.phase == Waiting && Parse(cfg, m.flight, m.state, v).1.Go?
    ensures var (t, out), n := Parse(cfg, m.flight, m.state, v), Step(cfg, m, Received(v));
            && n.state == t && n.flight == out.flight
            && n.phase == if out.flight == m.flight && m.flight in {F5, F4b} then Finished else Preparing
  {
    hide Parse;
  }

  lemma {:induction false} OneMoreLogged(cfg: Config, isClient: bool, front: seq<Input>, i: Input)
    ensures var m, n := Run(cfg, isClient, front), Run(cfg, isClient, front + [i]);
            && n == Step(cfg, m, i)
            && Log(cfg, isClient, front + [i])
                 == Log(cfg, isClient, front) + if m.phase == Preparing && n.phase == Sending then n.numbers else []
  {
    hide Step;
    assert (front + [i])[..|front|] == front;
  }

  /** A flight goes out: the numbers given are logged. */
  lemma {:induction false} FlightOut(cfg: Config, isClient: bool, front: seq<Input>, d: Draft)
    requires Run(cfg, isClient, front).phase == Preparing && d.ok
    ensures var inputs := front + [Generated(d), Written(true)];
            var m, n := Run(cfg, isClient, front), Run(cfg, isClient, inputs);
            && n.flight == m.flight && n.state == Ready(cfg, m, d)
            && n.phase == (if m.flight in {F5b, F6} then Finished else Waiting)
            && Log(cfg, isClient, inputs) == Log(cfg, isClient, front) + Given(cfg, m, d)
  {
    hide Run, Step, Log, Ready, Given;
    var m := Run(cfg, isClient, front);
    OneMoreLogged(cfg, isClient, front, Generated(d));
    PreparedIs(cfg, m, d);
    OneMoreLogged(cfg, isClient, front + [Generated(d)], Written(true));
    WrittenIs(cfg, Run(cfg, isClient, front + [Generated(d)]));
    assert front + [Generated(d)] + [Written(true)] == front + [Generated(d), Written(true)];
    assert Log(cfg, isClient, front + [Generated(d)]) + [] == Log(cfg, isClient, front + [Generated(d)]);
  }

  /** One round of a peer whose parser goes on. */
  lemma {:induction false} RoundRuns(cfg: Config, isClient: bool, front: seq<Input>, d: Draft, v: View)
    requires var m := Run(cfg, isClient, front);
             && m.phase == Preparing && d.ok && m.flight !in {F5b, F6}
             && Parse(cfg, m.flight, Ready(cfg, m, d), v).1.Go?
    ensures var m, n := Run(cfg, isClient, front), Run(cfg, isClient, front + Round(d, v));
            var (t, out) := Parse(cfg, m.flight, Ready(cfg, m, d), v);
            && n.state == t && n.flight == out.flight
            && n.phase == (if out.flight == m.flight && m.flight in {F5, F4b} then Finished else Preparing)
            && Log(cfg, isClient, front + Round(d, v)) == Log(cfg, isClient, front) + Given(cfg, m, d)
  {
    hide Run, Step, Log, Ready, Given, Parse;
    FlightOut(cfg, isClient, front, d);
    var sent := front + [Generated(d), Written(true)];
    OneMoreLogged(cfg, isClient, sent, Received(v));
    AnsweredIs(cfg, Run(cfg, isClient, sent), v);
    assert sent + [Received(v)] == front + Round(d, v);
    assert Log(cfg, isClient, sent) + [] == Log(cfg, isClient, sent);
  }

  lemma MoreNumbers(first: nat, a: nat, b: nat)
    ensures NumbersFrom(first, a) + NumbersFrom(first + a, b) == NumbersFrom(first, a + b)
  {
  }

  lemma NothingBefore(s: seq<Input>)
    ensures [] + s == s
  {
  }
}
