/**
 A full handshake seen by the server: with a hello, the hello again with its cookie where it asks
 for one, and a whole client flight, a fresh server goes through flight 4 and finishes in flight 6.
 */
module ServerRun {
  import opened Bytes
  import opened HandshakeCache
  import opened HandshakeFsm
  import opened HandshakeSteps

  // ---------- what the server is shown ----------

  /** A first hello that is fine and resumes nothing. */
  ghost predicate HelloView(cfg: Config, u: View) {
    && ClientHelloThere(cfg, 0, u) && u.versionOk && u.helloOk
    && (u.helloSession == [] || u.stored.NoSession?)
  }

  /** A second hello that returns the cookie. */
  ghost predicate CookieView(cfg: Config, u: View, cookie: bytes) {
    ClientHelloThere(cfg, 1, u) && u.versionOk && u.helloCookie == cookie != []
  }

  /** A client flight from number `n` on, with its Finished, and everything about it fine. */
  ghost predicate FlightView(cfg: Config, u: View, n: int) {
    && WholeFlight(u.cache, ClientFlightRules(cfg), n, u.parses)
    && Reads(Best(u.cache, Rule(16, cfg.epoch, true, false)), 16)
    && OneMessage(u, u.later, Rule(20, cfg.epoch + 1, true, false), n + |There(u.cache, ClientFlightRules(cfg))|)
    && Reads(Best(u.later, Rule(20, cfg.epoch + 1, true, false)), 20)
    && u.certificates.Accepted? && !u.initialized && u.keyOk && u.queuedOk && u.storeOk && u.authOk
  }

  // ---------- step by step ----------

  lemma FirstHelloParsed(cfg: Config, s: State, u: View)
    requires HelloView(cfg, u)
    ensures Flight0Parse(cfg, s, u) == (s.(recvSeq := 1), Go(if cfg.skipHelloVerify then F4 else F2))
  {
    hide FullPull, Best, ClientHelloThere, Has, OneMessage;
    HelloPulled(cfg, 0, u);
  }

  lemma SecondHelloParsed(cfg: Config, s: State, u: View)
    requires s.recvSeq == 1 && CookieView(cfg, u, s.cookie)
    ensures Flight2Parse(cfg, s, u) == (s.(recvSeq := 2), Go(F4))
  {
    hide FullPull, Best, ClientHelloThere, Has, OneMessage, Flight0Parse;
    HelloPulled(cfg, 1, u);
  }

  lemma FlightParsed(cfg: Config, s: State, u: View)
    requires FlightView(cfg, u, s.recvSeq)
    ensures Flight4Parse(cfg, s, u).1 == Go(F6) && Flight4Parse(cfg, s, u).0.master == u.secret
  {
    hide WholeFlight, There, OneMessage, Reads, Best, Flight4Parse, ClientFlightRules;
    Flight4Exactly(cfg, s, u);
  }

  lemma ParseKeepsVerify(cfg: Config, f: Flight, s: State, v: View)
    ensures Parse(cfg, f, s, v).0.localVerify == s.localVerify
  {
    hide FullPull, Has, Transcript, VerifyData;
  }

  // ---------- from flight to flight ----------

  /** Ready for flight 4, with `sent` messages behind, the last number given being `sent - 1`. */
  ghost predicate AtFour(cfg: Config, inputs: seq<Input>, sent: nat) {
    var m := Run(cfg, false, inputs);
    && m.phase == Preparing && m.flight == F4 && m.state.recvSeq == sent + 1 && m.state.sendSeq == sent
    && m.state.localVerify == [] && Log(cfg, false, inputs) == NumbersFrom(0, sent)
  }

  lemma StartsPreparing(cfg: Config)
    ensures Run(cfg, false, []) == Start(cfg, false) && Log(cfg, false, []) == [] == NumbersFrom(0, 0)
  {
  }

  /** Flight 0 makes nothing ready but the cookie, and flight 2 the request, number 0. */
  lemma RequestReady(cfg: Config, m: Fsm, d: Draft)
    requires m.flight in {F0, F2} && m.state.localVerify == []
    ensures var s := Ready(cfg, m, d);
            && s.localVerify == [] && s.recvSeq == m.state.recvSeq
            && s.sendSeq == (if m.flight == F0 then m.state.sendSeq else 1)
            && s.cookie == if m.flight == F0 && !cfg.skipHelloVerify then d.cookie else m.state.cookie
    ensures Given(cfg, m, d) == if m.flight == F0 then [] else NumbersFrom(0, 1)
  {
  }

  /** Without verification the first hello leads to flight 4. */
  lemma {:induction false} DirectToFour(cfg: Config, d0: Draft, u0: View)
    requires cfg.skipHelloVerify && d0.ok && HelloView(cfg, u0)
    ensures AtFour(cfg, Round(d0, u0), 0)
  {
    StartsPreparing(cfg);
    hide Run, Log, HelloView, Flight0Parse, NumbersFrom, Round, Ready, Given;
    var m0 := Start(cfg, false);
    RequestReady(cfg, m0, d0);
    FirstHelloParsed(cfg, Ready(cfg, m0, d0), u0);
    RoundRuns(cfg, false, [], d0, u0);
    NothingBefore(Round(d0, u0));
  }

  /** With it, the request is number 0 and the hello that returns its cookie leads to flight 4. */
  lemma {:induction false} VerifiedToFour(cfg: Config, d0: Draft, u0: View, d2: Draft, u1: View)
    requires !cfg.skipHelloVerify && d0.ok && d2.ok && HelloView(cfg, u0) && CookieView(cfg, u1, d0.cookie)
    ensures AtFour(cfg, Round(d0, u0) + Round(d2, u1), 1)
  {
    StartsPreparing(cfg);
    hide Run, Log, HelloView, CookieView, Flight0Parse, Flight2Parse, NumbersFrom, Round, Ready, Given;
    var m0 := Start(cfg, false);
    RequestReady(cfg, m0, d0);
    FirstHelloParsed(cfg, Ready(cfg, m0, d0), u0);
    RoundRuns(cfg, false, [], d0, u0);
    NothingBefore(Round(d0, u0));
    var m1 := Run(cfg, false, Round(d0, u0));
    RequestReady(cfg, m1, d2);
    SecondHelloParsed(cfg, Ready(cfg, m1, d2), u1);
    RoundRuns(cfg, false, Round(d0, u0), d2, u1);
    assert [] + NumbersFrom(0, 1) == NumbersFrom(0, 1);
  }

  lemma FlightReady(cfg: Config, m: Fsm, d: Draft)
    requires m.flight == F4 && m.state.localVerify == []
    ensures var s := Ready(cfg, m, d);
            s.recvSeq == m.state.recvSeq && s.localVerify == [] && s.sendSeq == m.state.sendSeq + 2 + d.optional
    ensures Given(cfg, m, d) == NumbersFrom(m.state.sendSeq, 2 + d.optional)
  {
    hide NumbersFrom;
  }

  lemma LastReady(cfg: Config, m: Fsm, d: Draft)
    requires m.flight == F6 && m.state.localVerify == []
    ensures Ready(cfg, m, d).localVerify == OwnVerify(cfg, F6, m.state.master, d)
    ensures Given(cfg, m, d) == NumbersFrom(m.state.sendSeq, 1)
  {
    hide OwnVerify, NumbersFrom;
  }

  /** Ready for flight 6 with the given secret. */
  ghost predicate AtSix(cfg: Config, inputs: seq<Input>, sent: nat, master: bytes) {
    var m := Run(cfg, false, inputs);
    && m.phase == Preparing && m.flight == F6 && m.state.sendSeq == sent && m.state.master == master
    && m.state.localVerify == [] && Log(cfg, false, inputs) == NumbersFrom(0, sent)
  }

  lemma FourAnswered(cfg: Config, s: State, u: View)
    requires FlightView(cfg, u, s.recvSeq)
    ensures var (t, out) := Parse(cfg, F4, s, u);
            out == Go(F6) && t.master == u.secret && t.localVerify == s.localVerify && t.sendSeq == s.sendSeq
  {
    hide FlightView, Parse, Flight4Parse;
    FlightParsed(cfg, s, u);
    FourParsed(cfg, s, u);
    ParseKeepsVerify(cfg, F4, s, u);
    ParseKeepsNumber(cfg, F4, s, u);
  }

  lemma {:induction false} FourToSix(cfg: Config, front: seq<Input>, sent: nat, d: Draft, u: View)
    requires AtFour(cfg, front, sent) && d.ok && FlightView(cfg, u, sent + 1)
    ensures AtSix(cfg, front + Round(d, u), sent + 2 + d.optional, u.secret)
  {
    hide Run, Log, FlightView, NumbersFrom, Round, Ready, Given, OwnVerify, Parse;
    var m := Run(cfg, false, front);
    FlightReady(cfg, m, d);
    var s := Ready(cfg, m, d);
    FourAnswered(cfg, s, u);
    RoundRuns(cfg, false, front, d, u);
    MoreNumbers(0, sent, 2 + d.optional);
  }

  lemma {:induction false} SixFinishes(cfg: Config, front: seq<Input>, sent: nat, master: bytes, d: Draft)
    requires AtSix(cfg, front, sent, master) && d.ok
    ensures var inputs := front + [Generated(d), Written(true)];
            var m := Run(cfg, false, inputs);
            && m.phase == Finished && m.flight == F6 && m.state.localVerify == OwnVerify(cfg, F6, master, d)
            && Log(cfg, false, inputs) == NumbersFrom(0, sent + 1)
  {
    hide Run, Log, NumbersFrom, Ready, Given, OwnVerify;
    LastReady(cfg, Run(cfg, false, front), d);
    FlightOut(cfg, false, front, d);
    MoreNumbers(0, sent, 1);
  }

  /**
   From flight 4 on, for every configuration and all drafts and views of that kind: the server
   finishes in flight 6, its messages numbered on, its own Finished last.
   */
  lemma {:induction false} FourFinishes(cfg: Config, front: seq<Input>, sent: nat, d4: Draft, u: View, d6: Draft)
    requires AtFour(cfg, front, sent) && d4.ok && d6.ok && FlightView(cfg, u, sent + 1)
    ensures var inputs := front + Round(d4, u) + [Generated(d6), Written(true)];
            var m := Run(cfg, false, inputs);
            && m.phase == Finished && m.flight == F6 && m.state.localVerify == OwnVerify(cfg, F6, u.secret, d6)
            && Log(cfg, false, inputs) == NumbersFrom(0, sent + 3 + d4.optional)
  {
    hide *;
    FourToSix(cfg, front, sent, d4, u);
    SixFinishes(cfg, front + Round(d4, u), sent + 2 + d4.optional, u.secret, d6);
  }

  /** For every configuration that does not verify hellos: a hello and a client flight finish a fresh server. */
  lemma {:induction false} DirectHandshakeFinishes(cfg: Config, d0: Draft, u0: View, d4: Draft, u: View, d6: Draft)
    requires cfg.skipHelloVerify && d0.ok && d4.ok && d6.ok && HelloView(cfg, u0) && FlightView(cfg, u, 1)
    ensures var inputs := Round(d0, u0) + Round(d4, u) + [Generated(d6), Written(true)];
            var m := Run(cfg, false, inputs);
            && m.phase == Finished && m.flight == F6 && m.state.localVerify == OwnVerify(cfg, F6, u.secret, d6)
            && Log(cfg, false, inputs) == NumbersFrom(0, 3 + d4.optional)
  {
    hide *;
    DirectToFour(cfg, d0, u0);
    FourFinishes(cfg, Round(d0, u0), 0, d4, u, d6);
  }

  /** For every other configuration: a hello, the hello again with its cookie, and a client flight. */
  lemma {:induction false} FullHandshakeFinishes(cfg: Config, d0: Draft, u0: View, d2: Draft, u1: View, d4: Draft,
                                                 u: View, d6: Draft)
    requires !cfg.skipHelloVerify && d0.ok && d2.ok && d4.ok && d6.ok
    requires HelloView(cfg, u0) && CookieView(cfg, u1, d0.cookie) && FlightView(cfg, u, 2)
    ensures var inputs := Round(d0, u0) + Round(d2, u1) + Round(d4, u) + [Generated(d6), Written(true)];
            var m := Run(cfg, false, inputs);
            && m.phase == Finished && m.flight == F6 && m.state.localVerify == OwnVerify(cfg, F6, u.secret, d6)
            && Log(cfg, false, inputs) == NumbersFrom(0, 4 + d4.optional)
  {
    hide *;
    VerifiedToFour(cfg, d0, u0, d2, u1);
    FourFinishes(cfg, Round(d0, u0) + Round(d2, u1), 1, d4, u, d6);
  }
}
