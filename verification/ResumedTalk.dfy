/**
 The two state machines in conversation when a session is resumed: both hellos, the server's
 Finished and the client's, after which both have finished.
 */
module ResumedTalk {
  import opened Bytes
  import opened RecordLayer
  import opened HandshakeCache
  import opened HandshakeFsm
  import opened HandshakeSteps
  import opened TranscriptOrder
  import opened Conversation
  import Client = ClientRun
  import Server = ServerRun

  // ---------- what each side is shown ----------

  /** A server hello for the session asked for, and behind it the server's Finished over both hellos. */
  ghost predicate ResumeView(cfg: Config, v: View, session: bytes, secret: bytes) {
    var finished := Rule(20, cfg.epoch + 1, false, false);
    && !OneMessage(v, v.cache, Rule(3, cfg.epoch, false, false), 0)
    && Best(v.cache, Rule(3, cfg.epoch, false, true)).None?
    && OneMessage(v, v.cache, Rule(2, cfg.epoch, false, false), 0)
    && Reads(Best(v.cache, Rule(2, cfg.epoch, false, false)), 2)
    && v.versionOk && v.helloOk && v.helloSession == session != [] && v.initOk && v.queuedOk && v.prfOk
    && OneMessage(v, v.later, finished, 1) && Reads(Best(v.later, finished), 20)
    && VerifyData(Best(v.later, finished).value.data)
         == cfg.serverVerify(secret, Transcript(v.later, HelloRules(cfg.epoch)))
  }

  /** A hello that asks for a session the server has. */
  ghost predicate SessionView(cfg: Config, u: View, session: bytes, secret: bytes) {
    && ClientHelloThere(cfg, 0, u) && u.versionOk && u.helloOk
    && u.helloSession == session != [] && u.stored == Session(secret) && u.initOk
  }

  /** The client's Finished over both hellos and the server's Finished. */
  ghost predicate AnswerView(cfg: Config, u: View, secret: bytes) {
    var finished := Rule(20, cfg.epoch + 1, true, false);
    && OneMessage(u, u.cache, finished, 1) && Reads(Best(u.cache, finished), 20) && u.prfOk
    && VerifyData(Best(u.cache, finished).value.data)
         == cfg.clientVerify(secret, Transcript(u.cache, ResumedRules(cfg.epoch)))
  }

  // ---------- the parsers ----------

  lemma ResumeParsed(cfg: Config, s: State, v: View)
    requires s.recvSeq == 0 && ResumeView(cfg, v, s.sessionId, s.master)
    ensures Flight1Parse(cfg, s, v) == (s, Go(F5b))
  {
    Client.DirectParse(cfg, s, v);
    RequestPull(cfg, s, v);
    HelloPull(cfg, s, v);
    OnePull(v, v.later, FinishedRule(cfg, false)[0], 1);
    hide FullPull, Best, WholeFlight, Flight1Parse, Transcript, VerifyData;
  }

  lemma AnswerParsed(cfg: Config, s: State, u: View)
    requires s.recvSeq == 1 && AnswerView(cfg, u, s.master)
    ensures Flight4bParse(cfg, s, u) == (s, Go(F4b))
  {
    OnePull(u, u.cache, FinishedRule(cfg, true)[0], 1);
    hide FullPull, Best, WholeFlight, Transcript, VerifyData;
  }

  // ---------- each machine ----------

  lemma FirstReady(cfg: Config, d: Draft)
    ensures var s := Ready(cfg, Start(cfg, true), d);
            && s == State(true, 0, 1, [], d.sessionId, d.master, [])
            && Given(cfg, Start(cfg, true), d) == NumbersFrom(0, 1)
  {
  }

  lemma AnswerReady(cfg: Config, m: Fsm, d: Draft)
    requires m.flight == F5b && m.state.localVerify == []
    ensures Ready(cfg, m, d).localVerify == OwnVerify(cfg, F5b, m.state.master, d)
    ensures Given(cfg, m, d) == NumbersFrom(m.state.sendSeq, 1)
  {
    hide OwnVerify, NumbersFrom;
  }

  /** For every configuration: a client whose session is resumed finishes in flight 5b. */
  lemma {:induction false} ClientResumes(cfg: Config, d1: Draft, v: View, d5: Draft)
    requires d1.ok && d5.ok && ResumeView(cfg, v, d1.sessionId, d1.master)
    ensures var inputs := Round(d1, v) + [Generated(d5), Written(true)];
            var m := Run(cfg, true, inputs);
            && m.phase == Finished && m.flight == F5b && m.state.localVerify == OwnVerify(cfg, F5b, d1.master, d5)
            && Log(cfg, true, inputs) == NumbersFrom(0, 2)
  {
    Client.StartsPreparing(cfg);
    FirstReady(cfg, d1);
    hide Run, Log, ResumeView, Flight1Parse, NumbersFrom, Round, Ready, Given, OwnVerify;
    ResumeParsed(cfg, Ready(cfg, Start(cfg, true), d1), v);
    RoundRuns(cfg, true, [], d1, v);
    NothingBefore(Round(d1, v));
    MoreNumbers(0, 0, 1);
    AnswerReady(cfg, Run(cfg, true, Round(d1, v)), d5);
    FlightOut(cfg, true, Round(d1, v), d5);
    MoreNumbers(0, 1, 1);
  }

  lemma SessionReady(cfg: Config, d: Draft)
    ensures var s := Ready(cfg, Start(cfg, false), d);
            && s.recvSeq == 0 && s.sendSeq == 0 && s.localVerify == []
            && Given(cfg, Start(cfg, false), d) == []
  {
  }

  lemma HelloReady(cfg: Config, m: Fsm, d: Draft)
    requires m.flight == F4b && m.state.localVerify == []
    ensures var s := Ready(cfg, m, d);
            && s.localVerify == OwnVerify(cfg, F4b, m.state.master, d)
            && s.recvSeq == m.state.recvSeq && s.master == m.state.master
    ensures Given(cfg, m, d) == NumbersFrom(m.state.sendSeq, 2)
  {
    hide OwnVerify, NumbersFrom;
  }

  lemma SessionParsed(cfg: Config, s: State, u: View, session: bytes, secret: bytes)
    requires SessionView(cfg, u, session, secret)
    ensures Flight0Parse(cfg, s, u) == (s.(recvSeq := 1, sessionId := session, master := secret), Go(F4b))
  {
    hide ClientHelloThere, Flight0Parse;
    Flight0Exactly(cfg, s, u);
  }

  /** For every configuration: a server that finds the session finishes in flight 4b. */
  lemma {:induction false} ServerResumes(cfg: Config, d0: Draft, u0: View, d4: Draft, u: View, session: bytes,
                                         secret: bytes)
    requires d0.ok && d4.ok && SessionView(cfg, u0, session, secret) && AnswerView(cfg, u, secret)
    ensures var inputs := Round(d0, u0) + Round(d4, u);
            var m := Run(cfg, false, inputs);
            && m.phase == Finished && m.flight == F4b && m.state.localVerify == OwnVerify(cfg, F4b, secret, d4)
            && Log(cfg, false, inputs) == NumbersFrom(0, 2)
  {
    Server.StartsPreparing(cfg);
    SessionReady(cfg, d0);
    hide Run, Log, SessionView, AnswerView, Flight0Parse, Flight4bParse, NumbersFrom, Round, Ready, Given, OwnVerify;
    var m0 := Start(cfg, false);
    SessionParsed(cfg, Ready(cfg, m0, d0), u0, session, secret);
    RoundRuns(cfg, false, [], d0, u0);
    NothingBefore(Round(d0, u0));
    var m := Run(cfg, false, Round(d0, u0));
    HelloReady(cfg, m, d4);
    AnswerParsed(cfg, Ready(cfg, m, d4), u);
    RoundRuns(cfg, false, Round(d0, u0), d4, u);
    assert [] + [] + NumbersFrom(0, 2) == NumbersFrom(0, 2);
  }

  // ---------- together ----------

  /** What is said when a session is resumed. */
  datatype Short = Short(hello: Item, answer: Item, serverFinished: Item, clientFinished: Item)

  function Hellos(t: Short): seq<Item> {
    [t.hello, t.answer]
  }

  function WithServer(t: Short): seq<Item> {
    [t.hello, t.answer, t.serverFinished]
  }

  function Whole(t: Short): seq<Item> {
    [t.hello, t.answer, t.serverFinished, t.clientFinished]
  }

  /** In the order of section 7.3 of RFC 5246, numbered from 0 on each side, each Finished over everything before. */
  ghost predicate ShortFits(cfg: Config, t: Short, parses: bytes -> bool, secret: bytes) {
    && Sent(Whole(t), ResumedOrder(cfg.epoch), [0, 1, 2, 3]) && AllProper(Whole(t), parses)
    && t.hello.seqNum == 0 && t.answer.seqNum == 0 && t.serverFinished.seqNum == 1 && t.clientFinished.seqNum == 1
    && VerifyData(t.serverFinished.data) == cfg.serverVerify(secret, DataOf(Hellos(t)))
    && VerifyData(t.clientFinished.data) == cfg.clientVerify(secret, DataOf(WithServer(t)))
  }

  /** Everything outside the cache goes well, and the session is the one asked for. */
  function Known(parses: bytes -> bool, cache: seq<Item>, later: seq<Item>, session: bytes, secret: bytes): View {
    View(cache, later, parses, true, true, [], session, Session(secret), true, true, true, true, Accepted, false, true,
         [], true, true)
  }

  function ClientPart(t: Short, parses: bytes -> bool, session: bytes, secret: bytes): seq<Input> {
    Round(PLAIN.(sessionId := session, master := secret), Known(parses, Hellos(t), WithServer(t), session, secret))
      + [Generated(PLAIN.(cache := WithServer(t))), Written(true)]
  }

  function ServerPart(t: Short, parses: bytes -> bool, session: bytes, secret: bytes): seq<Input> {
    Round(PLAIN, Known(parses, [t.hello], [t.hello], session, secret))
      + Round(PLAIN.(cache := [t.hello], unsent := t.answer.data), Known(parses, Whole(t), Whole(t), session, secret))
  }

  lemma KindsAre(cfg: Config, t: Short, parses: bytes -> bool, secret: bytes)
    requires ShortFits(cfg, t, parses, secret)
    ensures KindOf(t.hello) == Kind(1, true, cfg.epoch) && KindOf(t.answer) == Kind(2, false, cfg.epoch)
    ensures KindOf(t.serverFinished) == Kind(20, false, cfg.epoch + 1)
    ensures KindOf(t.clientFinished) == Kind(20, true, cfg.epoch + 1)
    ensures Proper(t.hello, parses) && Proper(t.answer, parses)
    ensures Proper(t.serverFinished, parses) && Proper(t.clientFinished, parses)
  {
    var w, o := Whole(t), ResumedOrder(cfg.epoch);
    assert KindOf(w[0]) == o[0] && KindOf(w[1]) == o[1] && KindOf(w[2]) == o[2] && KindOf(w[3]) == o[3];
    assert Proper(w[0], parses) && Proper(w[1], parses) && Proper(w[2], parses) && Proper(w[3], parses);
  }

  /** A message no rule asks for is in no transcript. */
  lemma Unasked(cache: seq<Item>, c: Item, rules: seq<Rule>)
    requires forall i :: 0 <= i < |rules| ==> !Matches(c, rules[i])
    ensures Transcript(cache + [c], rules) == Transcript(cache, rules)
  {
    hide Best;
    forall i | 0 <= i < |rules| ensures Best(cache + [c], rules[i]) == Best(cache, rules[i]) {
      BestUnmoved(cache, c, rules[i]);
    }
    assert Pulled(cache + [c], rules) == Pulled(cache, rules);
  }

  lemma SentParts(cfg: Config, t: Short, parses: bytes -> bool, secret: bytes)
    requires ShortFits(cfg, t, parses, secret)
    ensures Sent(Hellos(t), ResumedOrder(cfg.epoch)[..2], [0, 1])
    ensures Sent(WithServer(t), ResumedOrder(cfg.epoch)[..3], [0, 1, 2])
    ensures Sent([t.hello], [Kind(1, true, cfg.epoch)], [0])
    ensures Asks([Rule(1, cfg.epoch, true, false)], [Kind(1, true, cfg.epoch)])
  {
    KindsAre(cfg, t, parses, secret);
  }

  /** The transcripts of the two Finished, wherever they are taken. */
  lemma ShortTranscripts(cfg: Config, t: Short, parses: bytes -> bool, secret: bytes)
    requires ShortFits(cfg, t, parses, secret)
    ensures Transcript(WithServer(t), HelloRules(cfg.epoch)) == DataOf(Hellos(t))
    ensures Transcript([t.hello], [Rule(1, cfg.epoch, true, false)]) + t.answer.data == DataOf(Hellos(t))
    ensures Transcript(WithServer(t), ResumedRules(cfg.epoch)) == DataOf(WithServer(t))
    ensures Transcript(Whole(t), ResumedRules(cfg.epoch)) == DataOf(WithServer(t))
  {
    KindsAre(cfg, t, parses, secret);
    SentParts(cfg, t, parses, secret);
    hide Transcript, DataOf, Sent, Proper, ShortFits, Asks;
    ResumedTranscripts(Hellos(t), cfg.epoch, [0, 1]);
    ResumedTranscripts(WithServer(t), cfg.epoch, [0, 1, 2]);
    assert WithServer(t) == Hellos(t) + [t.serverFinished] && Whole(t) == WithServer(t) + [t.clientFinished];
    Unasked(Hellos(t), t.serverFinished, HelloRules(cfg.epoch));
    Unasked(WithServer(t), t.clientFinished, ResumedRules(cfg.epoch));
    OrderIsKept([t.hello], [Kind(1, true, cfg.epoch)], [Rule(1, cfg.epoch, true, false)], [0]);
    assert Hellos(t) == [t.hello] + [t.answer];
    DataOfSum([t.hello], [t.answer]);
    DataOfOne(t.answer);
  }

  lemma AnswerRead(cfg: Config, t: Short, v: View, secret: bytes)
    requires ShortFits(cfg, t, v.parses, secret) && v.cache == Hellos(t)
    ensures !OneMessage(v, v.cache, Rule(3, cfg.epoch, false, false), 0)
    ensures Best(v.cache, Rule(3, cfg.epoch, false, true)).None?
    ensures OneMessage(v, v.cache, Rule(2, cfg.epoch, false, false), 0)
    ensures Reads(Best(v.cache, Rule(2, cfg.epoch, false, false)), 2)
  {
    hide Best, WholeFlight, Proper;
    KindsAre(cfg, t, v.parses, secret);
    assert Hellos(t) == [t.hello] + [t.answer] + [];
    NoneIs(v, Hellos(t), Rule(3, cfg.epoch, false, false), 0);
    BestSame(Hellos(t), Rule(3, cfg.epoch, false, false), Rule(3, cfg.epoch, false, true));
    OneIs(v, [t.hello], t.answer, [], Rule(2, cfg.epoch, false, false));
  }

  /** The last message of a cache, the only one of its kind, is read. */
  lemma LastRead(v: View, front: seq<Item>, c: Item, r: Rule)
    requires NoneFits(front, r) && Matches(c, r) && !r.optional && Proper(c, v.parses)
    ensures var cache := front + [c];
            OneMessage(v, cache, r, c.seqNum) && Best(cache, r) == Some(c) && Reads(Best(cache, r), r.typ)
  {
    hide Best, WholeFlight, Proper;
    assert front + [c] + [] == front + [c];
    OneIs(v, front, c, [], r);
  }

  lemma FinishedLast(cfg: Config, t: Short, parses: bytes -> bool, secret: bytes)
    requires ShortFits(cfg, t, parses, secret)
    ensures var r := Rule(20, cfg.epoch + 1, false, false);
            && WithServer(t) == Hellos(t) + [t.serverFinished] && NoneFits(Hellos(t), r)
            && Matches(t.serverFinished, r) && Proper(t.serverFinished, parses)
    ensures var r := Rule(20, cfg.epoch + 1, true, false);
            && Whole(t) == WithServer(t) + [t.clientFinished] && NoneFits(WithServer(t), r)
            && Matches(t.clientFinished, r) && Proper(t.clientFinished, parses)
    ensures [] + [t.hello] == [t.hello] && NoneFits([], Rule(1, cfg.epoch, true, false))
    ensures Matches(t.hello, Rule(1, cfg.epoch, true, false)) && Proper(t.hello, parses)
  {
    hide Proper;
    KindsAre(cfg, t, parses, secret);
  }

  lemma Verifies(cfg: Config, t: Short, parses: bytes -> bool, secret: bytes)
    requires ShortFits(cfg, t, parses, secret)
    ensures VerifyData(t.serverFinished.data)
         == cfg.serverVerify(secret, Transcript(WithServer(t), HelloRules(cfg.epoch)))
    ensures VerifyData(t.clientFinished.data)
         == cfg.clientVerify(secret, Transcript(Whole(t), ResumedRules(cfg.epoch)))
    ensures t.hello.seqNum == 0 && t.serverFinished.seqNum == 1 && t.clientFinished.seqNum == 1
  {
    hide Transcript, DataOf, VerifyData, Sent, AllProper, HelloRules, ResumedRules, Whole, WithServer, Hellos;
    ShortTranscripts(cfg, t, parses, secret);
  }

  lemma ClientShown(cfg: Config, t: Short, parses: bytes -> bool, session: bytes, secret: bytes)
    requires ShortFits(cfg, t, parses, secret) && session != []
    ensures ResumeView(cfg, Known(parses, Hellos(t), WithServer(t), session, secret), session, secret)
  {
    hide Best, WholeFlight, Transcript, Proper, VerifyData, HelloRules, ResumedRules, ShortFits, NoneFits, Matches,
         Hellos, WithServer, Whole;
    var v := Known(parses, Hellos(t), WithServer(t), session, secret);
    Verifies(cfg, t, parses, secret);
    AnswerRead(cfg, t, v, secret);
    FinishedLast(cfg, t, parses, secret);
    LastRead(v, Hellos(t), t.serverFinished, Rule(20, cfg.epoch + 1, false, false));
  }

  lemma ServerShown(cfg: Config, t: Short, parses: bytes -> bool, session: bytes, secret: bytes)
    requires ShortFits(cfg, t, parses, secret) && session != []
    ensures SessionView(cfg, Known(parses, [t.hello], [t.hello], session, secret), session, secret)
    ensures AnswerView(cfg, Known(parses, Whole(t), Whole(t), session, secret), secret)
  {
    hide Best, WholeFlight, Transcript, Proper, VerifyData, HelloRules, ResumedRules, ShortFits, NoneFits, Matches,
         Hellos, WithServer, Whole;
    Verifies(cfg, t, parses, secret);
    FinishedLast(cfg, t, parses, secret);
    LastRead(Known(parses, [t.hello], [t.hello], session, secret), [], t.hello, Rule(1, cfg.epoch, true, false));
    LastRead(Known(parses, Whole(t), Whole(t), session, secret), WithServer(t), t.clientFinished,
             Rule(20, cfg.epoch + 1, true, false));
  }

  lemma OwnVerifies(cfg: Config, t: Short, parses: bytes -> bool, secret: bytes)
    requires ShortFits(cfg, t, parses, secret)
    ensures OwnVerify(cfg, F5b, secret, PLAIN.(cache := WithServer(t))) == VerifyData(t.clientFinished.data)
    ensures OwnVerify(cfg, F4b, secret, PLAIN.(cache := [t.hello], unsent := t.answer.data))
         == VerifyData(t.serverFinished.data)
    ensures Numbers([t.hello, t.clientFinished]) == Numbers([t.answer, t.serverFinished]) == NumbersFrom(0, 2)
  {
    ShortTranscripts(cfg, t, parses, secret);
    hide Transcript, DataOf, VerifyData, ResumedRules, Sent, AllProper;
  }

  /**
   For every resumed handshake that fits, the two machines, each shown what has been said, both
   finish: the client in flight 5b and the server in flight 4b. Each gives its messages the numbers
   they have, and its Finished carries the verify data it computed itself.
   */
  lemma {:induction false} BothResume(client: Config, server: Config, t: Short, parses: bytes -> bool, session: bytes,
                                      secret: bytes)
    requires ShortFits(client, t, parses, secret) && ShortFits(server, t, parses, secret) && session != []
    ensures var inputs := ClientPart(t, parses, session, secret);
            var m := Run(client, true, inputs);
            && m.phase == Finished && m.flight == F5b && m.state.localVerify == VerifyData(t.clientFinished.data)
            && Log(client, true, inputs) == Numbers([t.hello, t.clientFinished])
    ensures var inputs := ServerPart(t, parses, session, secret);
            var m := Run(server, false, inputs);
            && m.phase == Finished && m.flight == F4b && m.state.localVerify == VerifyData(t.serverFinished.data)
            && Log(server, false, inputs) == Numbers([t.answer, t.serverFinished])
  {
    hide Run, Log, ShortFits, ResumeView, SessionView, AnswerView, NumbersFrom, Numbers, Round, OwnVerify, VerifyData,
         Known, Hellos, WithServer, Whole;
    ClientShown(client, t, parses, session, secret);
    ServerShown(server, t, parses, session, secret);
    OwnVerifies(client, t, parses, secret);
    OwnVerifies(server, t, parses, secret);
    var d := PLAIN.(sessionId := session, master := secret);
    ClientResumes(client, d, Known(parses, Hellos(t), WithServer(t), session, secret), PLAIN.(cache := WithServer(t)));
    ServerResumes(server, PLAIN, Known(parses, [t.hello], [t.hello], session, secret),
                  PLAIN.(cache := [t.hello], unsent := t.answer.data),
                  Known(parses, Whole(t), Whole(t), session, secret), session, secret);
  }
}
