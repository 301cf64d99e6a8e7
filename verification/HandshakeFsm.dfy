/**
 The handshake state machine of one peer: which flight it is in, what it does with the
 messages in the handshake cache, and when it considers the handshake finished. The contents
 of the cache at each step, and the answers of certificate, key and session code, are inputs.
 */
module HandshakeFsm {
  import opened Bytes
  import opened RecordLayer
  import opened HandshakeCache

  datatype Flight = F0 | F1 | F2 | F3 | F4 | F4b | F5 | F5b | F6

  datatype Phase = Preparing | Sending | Waiting | Finished | Errored

  const HELLO_VERIFY_REQUEST: byte := 3
  const MAX_INTERVAL: nat := 60000

  datatype Config = Config(
    epoch: nat, interval: nat, disableBackoff: bool, skipHelloVerify: bool, psk: bool, hasStore: bool,
    serverVerify: (bytes, bytes) -> bytes, clientVerify: (bytes, bytes) -> bytes)

  datatype State = State(
    isClient: bool, recvSeq: int, sendSeq: nat, cookie: bytes, sessionId: bytes, master: bytes, localVerify: bytes)

  /** What the server's session store answers. */
  datatype Stored = NoSession | StoreError | Session(secret: bytes)

  /** What became of the client's certificate: fine or none, refused, or its proof is still missing. */
  datatype Certificates = Accepted | Refused | Incomplete

  /** What one call of a parser sees: the cache before and after queued records are handled, and foreign answers. */
  datatype View = View(
    cache: seq<Item>, later: seq<Item>, parses: bytes -> bool,
    versionOk: bool, helloOk: bool, helloCookie: bytes, helloSession: bytes,
    stored: Stored, initOk: bool, queuedOk: bool, prfOk: bool, storeOk: bool,
    certificates: Certificates, initialized: bool, keyOk: bool, secret: bytes, exchangeOk: bool, authOk: bool)

  /** What a parser answers: keep reading, give up, or go on to a flight. */
  datatype Outcome = Stay | Fail | Go(flight: Flight)

  predicate IsLastSend(f: Flight) {
    f == F6 || f == F5b
  }

  predicate IsLastRecv(f: Flight) {
    f == F5 || f == F4b
  }

  // ---------- messages ----------

  /** A message was pulled and its body is of the type it was filed under. */
  predicate Has(x: Option<Item>, typ: byte) {
    x.Some? && DecodeHeader(x.value.data).Some? && DecodeHeader(x.value.data).value.typ == typ
  }

  /** The verify data of a Finished message: its whole body. */
  function VerifyData(data: bytes): bytes {
    if |data| < HANDSHAKE_HEADER then [] else data[HANDSHAKE_HEADER..]
  }

  function HelloRules(epoch: nat): seq<Rule> {
    [Rule(CLIENT_HELLO, epoch, true, false), Rule(SERVER_HELLO, epoch, false, false)]
  }

  function ResumedRules(epoch: nat): seq<Rule> {
    HelloRules(epoch) + [Rule(FINISHED, epoch + 1, false, false)]
  }

  function FinishedRule(cfg: Config, byClient: bool): seq<Rule> {
    [Rule(FINISHED, cfg.epoch + 1, byClient, false)]
  }

  // ---------- the parsers ----------

  function HelloResume(s: State, v: View, next: Flight): (State, Outcome) {
    if v.helloSession == [] || v.stored.NoSession? then (s, Go(next))
    else if v.stored.StoreError? then (s, Fail)
    else
      var resumed := s.(sessionId := v.helloSession, master := v.stored.secret);
      (resumed, if v.initOk then Go(F4b) else Fail)
  }

  function Flight0Parse(cfg: Config, s: State, v: View): (State, Outcome) {
    var pull := FullPull(v.cache, 0, [Rule(CLIENT_HELLO, cfg.epoch, true, false)], v.parses);
    if pull.None? then (s, Stay)
    else
      var t := s.(recvSeq := pull.value.0);
      if !Has(pull.value.1[0], CLIENT_HELLO) then (t, Stay)
      else if !v.versionOk || !v.helloOk then (t, Fail)
      else HelloResume(t, v, if cfg.skipHelloVerify then F4 else F2)
  }

  function Flight2Parse(cfg: Config, s: State, v: View): (State, Outcome) {
    var pull := FullPull(v.cache, s.recvSeq, [Rule(CLIENT_HELLO, cfg.epoch, true, false)], v.parses);
    if pull.None? then Flight0Parse(cfg, s, v)
    else
      var t := s.(recvSeq := pull.value.0);
      if !Has(pull.value.1[0], CLIENT_HELLO) then (t, Stay)
      else if !v.versionOk then (t, Fail)
      else if v.helloCookie == [] then (t, Stay)
      else if s.cookie != v.helloCookie then (t, Fail)
      else (t, Go(F4))
  }

  /** A HelloVerifyRequest sets the cookie for the next hello. */
  function VerifyRequested(s: State, next: int, v: View): (State, Outcome) {
    if v.versionOk then (s.(cookie := v.helloCookie, recvSeq := next), Go(F3)) else (s, Fail)
  }

  function Flight1Parse(cfg: Config, s: State, v: View): (State, Outcome) {
    var rules := [Rule(HELLO_VERIFY_REQUEST, cfg.epoch, false, true), Rule(SERVER_HELLO, cfg.epoch, false, true)];
    var pull := FullPull(v.cache, s.recvSeq, rules, v.parses);
    if pull.None? then (s, Stay)
    else if pull.value.1[1].Some? then Flight3Parse(cfg, s, v)
    else if Has(pull.value.1[0], HELLO_VERIFY_REQUEST) then VerifyRequested(s, pull.value.0, v)
    else (s, Stay)
  }

  function Flight3Parse(cfg: Config, s: State, v: View): (State, Outcome) {
    var again := FullPull(v.cache, s.recvSeq, [Rule(HELLO_VERIFY_REQUEST, cfg.epoch, false, true)], v.parses);
    if again.Some? && Has(again.value.1[0], HELLO_VERIFY_REQUEST) then VerifyRequested(s, again.value.0, v)
    else
      var pull := FullPull(v.cache, s.recvSeq, [Rule(SERVER_HELLO, cfg.epoch, false, false)], v.parses);
      if pull.None? then (s, Stay)
      else if !Has(pull.value.1[0], SERVER_HELLO) then ServerFlight(cfg, s, v)
      else if !v.versionOk || !v.helloOk then (s, Fail)
      else if v.helloSession != [] && s.sessionId == v.helloSession then Resumption(cfg, s, v)
      else if s.sessionId != [] && !v.storeOk then (s, Fail)
      else ServerFlight(cfg, s.(sessionId := if cfg.hasStore then v.helloSession else [], master := []), v)
  }

  /** The rest of the server's flight, after its hello. */
  function ServerFlight(cfg: Config, s: State, v: View): (State, Outcome) {
    var rules :=
      if cfg.psk then [Rule(SERVER_KEY_EXCHANGE, cfg.epoch, false, true),
        Rule(SERVER_HELLO_DONE, cfg.epoch, false, false)]
      else [ Rule(CERTIFICATE, cfg.epoch, false, true), Rule(SERVER_KEY_EXCHANGE, cfg.epoch, false, false),
             Rule(CERTIFICATE_REQUEST, cfg.epoch, false, true), Rule(SERVER_HELLO_DONE, cfg.epoch, false, false) ];
    var pull := FullPull(v.cache, s.recvSeq + 1, rules, v.parses);
    if pull.None? then (s, Stay)
    else (s.(recvSeq := pull.value.0), if v.exchangeOk then Go(F5) else Fail)
  }

  /** What a received Finished must carry, and what it does carry. */
  predicate Verified(pull: Option<(int, seq<Option<Item>>)>, expected: bytes) {
    pull.Some? && |pull.value.1| == 1 && Has(pull.value.1[0], FINISHED) &&
      VerifyData(pull.value.1[0].value.data) == expected
  }

  function Resumption(cfg: Config, s: State, v: View): (State, Outcome) {
    if !v.initOk || !v.queuedOk then (s, Fail)
    else
      var pull := FullPull(v.later, s.recvSeq + 1, FinishedRule(cfg, false), v.parses);
      if pull.None? || !Has(pull.value.1[0], FINISHED) then (s, Stay)
      else if !v.prfOk then (s, Fail)
      else if VerifyData(pull.value.1[0].value.data)
                != cfg.serverVerify(s.master, Transcript(v.later, HelloRules(cfg.epoch))) then (s, Fail)
      else (s, Go(F5b))
  }

  function Flight4Rules(epoch: nat): seq<Rule> {
    [ Rule(CERTIFICATE, epoch, true, true), Rule(CLIENT_KEY_EXCHANGE, epoch, true, false),
      Rule(CERTIFICATE_VERIFY, epoch, true, true) ]
  }

  function Flight4Parse(cfg: Config, s: State, v: View): (State, Outcome) {
    var pull := FullPull(v.cache, s.recvSeq, Flight4Rules(cfg.epoch), v.parses);
    if pull.None? || !Has(pull.value.1[1], CLIENT_KEY_EXCHANGE) then (s, Stay)
    else
      var t := if Has(pull.value.1[0], CERTIFICATE) then s.(sessionId := []) else s;
      if v.certificates.Refused? then (t, Fail)
      else if v.certificates.Incomplete? then (t, Stay)
      else if !v.initialized && !v.keyOk then (t, Fail)
      else
        var u := if v.initialized then t else t.(master := v.secret);
        if (u.sessionId != [] && !v.storeOk) || !v.queuedOk then (u, Fail)
        else
          var last := FullPull(v.later, pull.value.0, FinishedRule(cfg, true), v.parses);
          if last.None? then (u, Stay)
          else
            var w := u.(recvSeq := last.value.0);
            if !Has(last.value.1[0], FINISHED) then (w, Stay)
            else (w, if v.authOk then Go(F6) else Fail)
  }

  function Flight4bParse(cfg: Config, s: State, v: View): (State, Outcome) {
    var pull := FullPull(v.cache, s.recvSeq, FinishedRule(cfg, true), v.parses);
    if pull.None? || !Has(pull.value.1[0], FINISHED) then (s, Stay)
    else if !v.prfOk then (s, Fail)
    else if VerifyData(pull.value.1[0].value.data)
              != cfg.clientVerify(s.master, Transcript(v.cache, ResumedRules(cfg.epoch))) then (s, Fail)
    else (s, Go(F4b))
  }

  function Flight5Parse(cfg: Config, s: State, v: View): (State, Outcome) {
    var pull := FullPull(v.cache, s.recvSeq, FinishedRule(cfg, false), v.parses);
    if pull.None? || !Has(pull.value.1[0], FINISHED) then (s, Stay)
    else if !v.prfOk then (s, Fail)
    else if VerifyData(pull.value.1[0].value.data)
              != cfg.serverVerify(s.master, Transcript(v.cache, FinishedRules(cfg.epoch))) then (s, Fail)
    else if s.sessionId != [] && !v.storeOk then (s, Fail)
    else (s, Go(F5))
  }

  /** The parsers of the two flights that end a handshake by being sent. */
  function LastParse(cfg: Config, s: State, v: View, f: Flight): (State, Outcome) {
    var pull := FullPull(v.cache, s.recvSeq - 1, FinishedRule(cfg, f == F6), v.parses);
    (s, if pull.None? || !Has(pull.value.1[0], FINISHED) then Stay else Go(f))
  }

  function Parse(cfg: Config, f: Flight, s: State, v: View): (State, Outcome) {
    match f
    case F0 => Flight0Parse(cfg, s, v)
    case F1 => Flight1Parse(cfg, s, v)
    case F2 => Flight2Parse(cfg, s, v)
    case F3 => Flight3Parse(cfg, s, v)
    case F4 => Flight4Parse(cfg, s, v)
    case F4b => Flight4bParse(cfg, s, v)
    case F5 => Flight5Parse(cfg, s, v)
    case F5b => LastParse(cfg, s, v, F5b)
    case F6 => LastParse(cfg, s, v, F6)
  }

  // ---------- the generators ----------

  /** What a generator brings: the cache it reads, the bytes it is about to send, and fresh values. */
  datatype Draft = Draft(
    ok: bool,
    optional: nat,
    cache: seq<Item>,
    unsent: bytes,
    cookie: bytes,
    sessionId: bytes,
    master: bytes)

  /** The verify data a flight computes for its own Finished message. */
  function OwnVerify(cfg: Config, f: Flight, master: bytes, d: Draft): bytes {
    match f
    case F4b => cfg.serverVerify(master, Transcript(d.cache, [Rule(CLIENT_HELLO, cfg.epoch, true, false)]) + d.unsent)
    case F5 => cfg.clientVerify(master, Transcript(d.cache, FinishedRules(cfg.epoch)) + d.unsent)
    case F5b => cfg.clientVerify(master, Transcript(d.cache, ResumedRules(cfg.epoch)))
    case F6 => cfg.serverVerify(master, Transcript(d.cache, FinishedRules(cfg.epoch)))
    case _ => []
  }

  function Generate(cfg: Config, f: Flight, s: State, d: Draft): State {
    var t := s.(
      cookie := if f == F1 then [] else if f == F0 && !cfg.skipHelloVerify then d.cookie else s.cookie,
      sessionId := if f == F1 || f == F4 then d.sessionId else s.sessionId,
      master := if f == F1 || f == F5 then d.master else s.master,
      sendSeq := if f == F2 then 0 else s.sendSeq);
    if s.localVerify != [] then t else t.(localVerify := OwnVerify(cfg, f, t.master, d))
  }

  /** How many handshake messages a flight has; a certificate and its companions are optional in flights 4 and 5. */
  function Count(f: Flight, d: Draft): nat {
    match f
    case F0 => 0
    case F4 => 2 + d.optional
    case F4b => 2
    case F5 => 2 + d.optional
    case _ => 1
  }

  // ---------- the machine ----------

  datatype Fsm = Fsm(state: State, flight: Flight, phase: Phase, numbers: seq<nat>, retransmit: bool, interval: nat)

  datatype Input =
    | Generated(draft: Draft)
    | Written(ok: bool)
    | Received(view: View)
    | Retransmitted
    | Timeout
    | Cancelled

  /** The numbers given to the messages of a flight. */
  function NumbersFrom(first: nat, count: nat): seq<nat> {
    seq(count, i requires 0 <= i => (first + i) % U16)
  }

  function Prepare(cfg: Config, m: Fsm, d: Draft): Fsm {
    var t := Generate(cfg, m.flight, m.state, d);
    var flagged := m.(numbers := [], retransmit := m.flight != F2);
    if !d.ok then flagged.(state := t, phase := Errored)
    else flagged.(state := t.(sendSeq := t.sendSeq + Count(m.flight, d)),
      numbers := NumbersFrom(t.sendSeq, Count(m.flight, d)), phase := Sending)
  }

  function Send(m: Fsm, ok: bool): Fsm {
    m.(phase := if !ok then Errored else if IsLastSend(m.flight) then Finished else Waiting)
  }

  function Receive(cfg: Config, m: Fsm, v: View): Fsm {
    var (t, out) := Parse(cfg, m.flight, m.state, v);
    var n := m.(state := t, interval := cfg.interval);
    match out
    case Fail => n.(phase := Errored)
    case Stay => n
    case Go(next) => if IsLastRecv(next) && m.flight == next then n.(phase := Finished)
      else n.(flight := next, phase := Preparing)
  }

  function Backoff(cfg: Config, interval: nat): nat {
    var next := if cfg.disableBackoff then interval else 2 * interval;
    if next > MAX_INTERVAL then MAX_INTERVAL else next
  }

  function Expire(cfg: Config, m: Fsm): Fsm {
    if m.retransmit then m.(interval := Backoff(cfg, m.interval), phase := Sending) else m
  }

  function Finish(m: Fsm): Fsm {
    if m.state.isClient then m else m.(phase := Sending)
  }

  /** One step; an input that the phase does not wait for changes nothing. */
  function Step(cfg: Config, m: Fsm, i: Input): Fsm {
    match m.phase
    case Preparing => if i.Generated? then Prepare(cfg, m, i.draft) else m
    case Sending => if i.Written? then Send(m, i.ok) else m
    case Waiting => (
      match i
      case Received(v) => Receive(cfg, m, v)
      case Retransmitted => m.(phase := Sending)
      case Timeout => Expire(cfg, m)
      case Cancelled => m.(interval := cfg.interval, phase := Errored)
      case _ => m)
    case Finished => (
      match i
      case Received(_) => Finish(m)
      case Retransmitted => Finish(m)
      case Cancelled => m.(phase := Errored)
      case _ => m)
    case Errored => m
  }

  function Start(cfg: Config, isClient: bool): Fsm {
    Fsm(State(isClient, 0, 0, [], [], [], []), if isClient then F1 else F0, Preparing, [], false, cfg.interval)
  }

  function Run(cfg: Config, isClient: bool, inputs: seq<Input>): Fsm {
    if inputs == [] then Start(cfg, isClient)
    else Step(cfg, Run(cfg, isClient, inputs[..|inputs| - 1]), inputs[|inputs| - 1])
  }

  lemma {:induction false} LastStep(cfg: Config, isClient: bool, front: seq<Input>, i: Input)
    ensures Run(cfg, isClient, front + [i]) == Step(cfg, Run(cfg, isClient, front), i)
  {
    assert (front + [i])[..|front|] == front;
  }

  // ---------- which flights, and in which order ----------

  function Rank(f: Flight): nat {
    match f
    case F0 => 0 case F1 => 1 case F2 => 2 case F3 => 3 case F4 => 4
    case F4b => 5 case F5 => 6 case F5b => 7 case F6 => 8
  }

  predicate OfSide(f: Flight, isClient: bool) {
    if isClient then f in {F1, F3, F5, F5b} else f in {F0, F2, F4, F4b, F6}
  }

  /** A parser only names flights of its own side, and never an earlier one; the side itself does not change. */
  lemma ParseStaysOnSide(cfg: Config, f: Flight, s: State, v: View)
    ensures Parse(cfg, f, s, v).0.isClient == s.isClient
    ensures var out := Parse(cfg, f, s, v).1;
            out.Go? ==> OfSide(out.flight, OfSide(f, true)) && Rank(out.flight) >= Rank(f)
  {
    hide FullPull, Has, Transcript, VerifyData;
  }

  /** What holds in every reachable state. */
  predicate Inv(m: Fsm, isClient: bool) {
    && m.state.isClient == isClient && OfSide(m.flight, isClient)
    && (m.phase == Waiting ==> !IsLastSend(m.flight))
    && (m.phase == Finished ==> IsLastSend(m.flight) || IsLastRecv(m.flight))
    && (m.phase.Sending? || m.phase.Waiting? || m.phase.Finished? ==> m.retransmit == (m.flight != F2))
  }

  lemma StepKeeps(cfg: Config, m: Fsm, i: Input)
    requires Inv(m, m.state.isClient)
    ensures Inv(Step(cfg, m, i), m.state.isClient) && Rank(Step(cfg, m, i).flight) >= Rank(m.flight)
  {
    hide Parse;
    if m.phase.Waiting? && i.Received? { ParseStaysOnSide(cfg, m.flight, m.state, i.view); }
  }

  /**
   In every run the client stays in flights 1, 3, 5 and 5b and the server in 0, 2, 4, 4b and 6;
   the handshake is finished only in 5 or 5b by a client and 4b or 6 by a server; and nobody
   waits in flight 5b or 6, or retransmits flight 2 on a timer.
   */
  lemma {:induction false} RunFlights(cfg: Config, isClient: bool, inputs: seq<Input>)
    ensures var m := Run(cfg, isClient, inputs);
            && Inv(m, isClient)
            && (m.phase == Finished ==> m.flight in if isClient then {F5, F5b} else {F4b, F6})
  {
    if inputs != [] {
      hide Step;
      RunFlights(cfg, isClient, inputs[..|inputs| - 1]);
      StepKeeps(cfg, Run(cfg, isClient, inputs[..|inputs| - 1]), inputs[|inputs| - 1]);
    }
  }

  /** The flight's rank never decreases. */
  lemma {:induction false} RankGrows(cfg: Config, isClient: bool, inputs: seq<Input>, n: nat)
    requires n <= |inputs|
    ensures Rank(Run(cfg, isClient, inputs[..n]).flight) <= Rank(Run(cfg, isClient, inputs).flight)
  {
    if n == |inputs| {
      assert inputs[..n] == inputs;
    } else {
      hide Step, Rank;
      var front := inputs[..|inputs| - 1];
      assert front[..n] == inputs[..n];
      RankGrows(cfg, isClient, front, n);
      RunFlights(cfg, isClient, front);
      StepKeeps(cfg, Run(cfg, isClient, front), inputs[|inputs| - 1]);
    }
  }

  // ---------- nobody finishes without the peer's proof ----------

  /** The client is shown verify data over the whole handshake, equal to what it expects. */
  ghost predicate ServerProved(cfg: Config, m: Fsm, i: Input) {
    m.phase == Waiting && i.Received? &&
    var s, v := m.state, i.view;
    if m.flight == F5 then
      Verified(FullPull(v.cache, s.recvSeq, FinishedRule(cfg, false), v.parses),
        cfg.serverVerify(s.master, Transcript(v.cache, FinishedRules(cfg.epoch))))
    else
      Verified(FullPull(v.later, s.recvSeq + 1, FinishedRule(cfg, false), v.parses),
        cfg.serverVerify(s.master, Transcript(v.later, HelloRules(cfg.epoch))))
  }

  /** The server is shown verify data over the resumed handshake, equal to what it expects. */
  ghost predicate ClientProved(cfg: Config, m: Fsm, i: Input) {
    m.phase == Waiting && i.Received? &&
    var s, v := m.state, i.view;
    Verified(FullPull(v.cache, s.recvSeq, FinishedRule(cfg, true), v.parses),
      cfg.clientVerify(s.master, Transcript(v.cache, ResumedRules(cfg.epoch))))
  }

  /** The client's second hello returns the cookie the server holds. */
  ghost predicate CookieReturned(m: Fsm, i: Input) {
    m.phase == Waiting && m.flight == F2 && i.Received? && m.state.cookie != [] && i.view.helloCookie == m.state.cookie
  }

  lemma ServerMustProve(cfg: Config, m: Fsm, v: View)
    requires m.phase == Waiting && OfSide(m.flight, true) && m.flight != F5b
    requires var out := Parse(cfg, m.flight, m.state, v).1; out == Go(F5b) || (m.flight == F5 && out == Go(F5))
    ensures ServerProved(cfg, m, Received(v))
  {
    hide FullPull, Transcript, VerifyData, FinishedRules, HelloRules, DecodeHeader;
    PullsOne(v.cache, m.state.recvSeq, FinishedRule(cfg, false), v.parses);
    PullsOne(v.later, m.state.recvSeq + 1, FinishedRule(cfg, false), v.parses);
  }

  lemma PullsOne(cache: seq<Item>, start: int, rules: seq<Rule>, parses: bytes -> bool)
    ensures var pull := FullPull(cache, start, rules, parses); pull.Some? ==> |pull.value.1| == |rules|
  {
  }

  lemma ClientMustProve(cfg: Config, m: Fsm, v: View)
    requires m.phase == Waiting && m.flight == F4b && Parse(cfg, F4b, m.state, v).1 == Go(F4b)
    ensures ClientProved(cfg, m, Received(v))
  {
    hide FullPull, Transcript, VerifyData, ResumedRules, DecodeHeader;
    PullsOne(v.cache, m.state.recvSeq, FinishedRule(cfg, true), v.parses);
  }

  lemma CookieMustReturn(cfg: Config, m: Fsm, v: View)
    requires m.phase == Waiting && m.flight in {F0, F2} && !cfg.skipHelloVerify &&
             Parse(cfg, m.flight, m.state, v).1 == Go(F4)
    ensures CookieReturned(m, Received(v))
  {
    hide FullPull, DecodeHeader;
  }

  /** Somewhere in the run the server showed its proof. */
  ghost predicate ServerProofSeen(cfg: Config, inputs: seq<Input>) {
    exists n :: 0 <= n < |inputs| && ServerProved(cfg, Run(cfg, true, inputs[..n]), inputs[n])
  }

  ghost predicate ClientProofSeen(cfg: Config, inputs: seq<Input>) {
    exists n :: 0 <= n < |inputs| && ClientProved(cfg, Run(cfg, false, inputs[..n]), inputs[n])
  }

  ghost predicate CookieSeen(cfg: Config, inputs: seq<Input>) {
    exists n :: 0 <= n < |inputs| && CookieReturned(Run(cfg, false, inputs[..n]), inputs[n])
  }

  /** What was seen stays seen, and what the last step shows is seen. */
  lemma {:induction false} SeenLater(cfg: Config, front: seq<Input>, i: Input)
    ensures ServerProofSeen(cfg, front) || ServerProved(cfg, Run(cfg, true, front), i) ==>
            ServerProofSeen(cfg, front + [i])
    ensures ClientProofSeen(cfg, front) || ClientProved(cfg, Run(cfg, false, front), i) ==>
            ClientProofSeen(cfg, front + [i])
    ensures CookieSeen(cfg, front) || CookieReturned(Run(cfg, false, front), i) ==> CookieSeen(cfg, front + [i])
  {
    hide ServerProved, ClientProved, CookieReturned, Run;
    var inputs := front + [i];
    assert inputs[..|front|] == front && inputs[|front|] == i;
    if n :| 0 <= n < |front| && ServerProved(cfg, Run(cfg, true, front[..n]), front[n]) {
      assert inputs[..n] == front[..n] && inputs[n] == front[n];
    }
    if n :| 0 <= n < |front| && ClientProved(cfg, Run(cfg, false, front[..n]), front[n]) {
      assert inputs[..n] == front[..n] && inputs[n] == front[n];
    }
    if n :| 0 <= n < |front| && CookieReturned(Run(cfg, false, front[..n]), front[n]) {
      assert inputs[..n] == front[..n] && inputs[n] == front[n];
    }
  }

  /** A client that has finished, or is about to with flight 5b, was shown matching verify data by the server. */
  lemma {:induction false} ClientFinishesProved(cfg: Config, inputs: seq<Input>)
    ensures Run(cfg, true, inputs).phase == Finished || Run(cfg, true, inputs).flight == F5b ==>
            ServerProofSeen(cfg, inputs)
  {
    if inputs != [] {
      hide ServerProved, ServerProofSeen, Step, Inv, Run;
      var front, i := inputs[..|inputs| - 1], inputs[|inputs| - 1];
      var m := Run(cfg, true, front);
      ClientFinishesProved(cfg, front);
      RunFlights(cfg, true, front);
      FrontAndLast(inputs);
      LastStep(cfg, true, front, i);
      SeenLater(cfg, front, i);
      if m.phase != Finished && m.flight != F5b &&
        (Step(cfg, m, i).phase == Finished || Step(cfg, m, i).flight == F5b) {
        NewlyProved(cfg, m, i);
      }
    }
  }

  /** The step in which a client comes to be finished, or to be in flight 5b, is the step that shows the proof. */
  lemma NewlyProved(cfg: Config, m: Fsm, i: Input)
    requires Inv(m, true) && m.phase != Finished && m.flight != F5b
    requires Step(cfg, m, i).phase == Finished || Step(cfg, m, i).flight == F5b
    ensures ServerProved(cfg, m, i)
  {
    hide ServerProved, Parse;
    if m.phase == Waiting && i.Received? {
      ParseStaysOnSide(cfg, m.flight, m.state, i.view);
      ServerMustProve(cfg, m, i.view);
    }
  }

  /** A server that has finished by resumption was shown matching verify data by the client. */
  lemma {:induction false} ResumedServerFinishesProved(cfg: Config, inputs: seq<Input>)
    ensures Run(cfg, false, inputs).phase == Finished && Run(cfg, false, inputs).flight == F4b ==>
            ClientProofSeen(cfg, inputs)
  {
    if inputs != [] {
      hide ClientProved, ClientProofSeen, Step, Inv, Run;
      var front, i := inputs[..|inputs| - 1], inputs[|inputs| - 1];
      var m := Run(cfg, false, front);
      ResumedServerFinishesProved(cfg, front);
      RunFlights(cfg, false, front);
      FrontAndLast(inputs);
      LastStep(cfg, false, front, i);
      SeenLater(cfg, front, i);
      if !(m.phase == Finished && m.flight == F4b) && Step(cfg, m, i).phase == Finished &&
        Step(cfg, m, i).flight == F4b {
        NewlyResumed(cfg, m, i);
      }
    }
  }

  lemma NewlyResumed(cfg: Config, m: Fsm, i: Input)
    requires Inv(m, false) && !(m.phase == Finished && m.flight == F4b)
    requires Step(cfg, m, i).phase == Finished && Step(cfg, m, i).flight == F4b
    ensures ClientProved(cfg, m, i)
  {
    hide ClientProved, Parse;
    if m.phase == Waiting && i.Received? { ClientMustProve(cfg, m, i.view); }
  }

  /**
   Unless hello verification is switched off, a server enters the full handshake only for a client
   that returned its cookie.
   */
  lemma {:induction false} CookieBeforeFullHandshake(cfg: Config, inputs: seq<Input>)
    requires !cfg.skipHelloVerify
    ensures Run(cfg, false, inputs).flight in {F4, F6} ==> CookieSeen(cfg, inputs)
  {
    if inputs != [] {
      hide CookieReturned, CookieSeen, Step, Inv, Run;
      var front, i := inputs[..|inputs| - 1], inputs[|inputs| - 1];
      var m := Run(cfg, false, front);
      CookieBeforeFullHandshake(cfg, front);
      RunFlights(cfg, false, front);
      FrontAndLast(inputs);
      LastStep(cfg, false, front, i);
      SeenLater(cfg, front, i);
      if m.flight !in {F4, F6} && Step(cfg, m, i).flight in {F4, F6} { NewlyFull(cfg, m, i); }
    }
  }

  lemma NewlyFull(cfg: Config, m: Fsm, i: Input)
    requires Inv(m, false) && m.flight !in {F4, F6} && Step(cfg, m, i).flight in {F4, F6} && !cfg.skipHelloVerify
    ensures CookieReturned(m, i)
  {
    hide CookieReturned, Parse;
    OnlyFromHello(cfg, m.flight, m.state, i.view);
    CookieMustReturn(cfg, m, i.view);
  }

  /** Flight 4 follows only flights 0 and 2, and flight 6 only itself and flight 4. */
  lemma OnlyFromHello(cfg: Config, f: Flight, s: State, v: View)
    requires OfSide(f, false)
    ensures Parse(cfg, f, s, v).1 == Go(F4) ==> f in {F0, F2}
    ensures Parse(cfg, f, s, v).1 == Go(F6) ==> f in {F4, F6}
  {
    hide FullPull, Has, Transcript, VerifyData;
  }

  // ---------- message numbers ----------

  /** The numbers of every message prepared in a run, in order. */
  function Log(cfg: Config, isClient: bool, inputs: seq<Input>): seq<nat> {
    if inputs == [] then []
    else
      var front := inputs[..|inputs| - 1];
      var m, n := Run(cfg, isClient, front), Run(cfg, isClient, inputs);
      Log(cfg, isClient, front) + if m.phase.Preparing? && n.phase.Sending? then n.numbers else []
  }

  /** How many HelloVerifyRequests were prepared. */
  function Requests(cfg: Config, isClient: bool, inputs: seq<Input>): nat {
    if inputs == [] then 0
    else
      var front := inputs[..|inputs| - 1];
      var m, n := Run(cfg, isClient, front), Run(cfg, isClient, inputs);
      Requests(cfg, isClient, front) + if m.phase.Preparing? && n.phase.Sending? && m.flight == F2 then 1 else 0
  }

  function ZeroNumbers(k: nat): (r: seq<nat>)
    ensures |r| == k && forall i :: 0 <= i < k ==> r[i] == 0
  {
    seq(k, _ => 0)
  }

  /** The numbers in a log: 0 for each HelloVerifyRequest, then one after another. */
  ghost predicate Consecutive(log: seq<nat>, requests: nat, sendSeq: nat, f: Flight) {
    var first := if requests > 0 then 1 else 0;
    && sendSeq >= first && log == ZeroNumbers(requests) + NumbersFrom(first, sendSeq - first)
    && (f in {F0, F2} ==> sendSeq == first)
    && (requests > 0 ==> f !in {F0, F1, F3, F5, F5b})
  }

  lemma OneMoreRequest(requests: nat, first: nat)
    ensures ZeroNumbers(requests) + NumbersFrom(first, 0) + NumbersFrom(0, 1) == ZeroNumbers(requests + 1)
            + NumbersFrom(1, 0)
  {
  }

  lemma NumbersGoOn(requests: nat, first: nat, next: nat, count: nat)
    requires first <= next
    ensures ZeroNumbers(requests) + NumbersFrom(first, next - first) + NumbersFrom(next, count)
         == ZeroNumbers(requests) + NumbersFrom(first, next + count - first)
  {
  }

  lemma PreparedNumbers(cfg: Config, m: Fsm, i: Input)
    requires m.phase.Preparing? && Step(cfg, m, i).phase.Sending?
    ensures i.Generated?
    ensures var first := if m.flight == F2 then 0 else m.state.sendSeq;
            && Step(cfg, m, i).numbers == NumbersFrom(first, Count(m.flight, i.draft))
            && Step(cfg, m, i).state.sendSeq == first + Count(m.flight, i.draft)
  {
    hide OwnVerify, NumbersFrom;
  }

  lemma PreparedConsecutive(cfg: Config, m: Fsm, i: Input, log: seq<nat>, requests: nat)
    requires Consecutive(log, requests, m.state.sendSeq, m.flight) && m.phase.Preparing? &&
             Step(cfg, m, i).phase.Sending?
    ensures Consecutive(log + Step(cfg, m, i).numbers, if m.flight == F2 then requests + 1
            else requests, Step(cfg, m, i).state.sendSeq, m.flight)
  {
    hide Step, NumbersFrom, ZeroNumbers;
    PreparedNumbers(cfg, m, i);
    var first := if requests > 0 then 1 else 0;
    if m.flight == F2 {
      OneMoreRequest(requests, first);
    } else {
      NumbersGoOn(requests, first, m.state.sendSeq, Count(m.flight, i.draft));
    }
  }

  /**
   Outside preparation the next number stays, and the flights that carry numbers of their own are
   not left for earlier ones.
   */
  lemma OtherwiseConsecutive(cfg: Config, m: Fsm, i: Input, log: seq<nat>, requests: nat)
    requires Inv(m, m.state.isClient) && !(m.phase.Preparing? && Step(cfg, m, i).phase.Sending?)
    requires Consecutive(log, requests, m.state.sendSeq, m.flight) && Step(cfg, m, i).phase != Errored
    ensures Consecutive(log, requests, Step(cfg, m, i).state.sendSeq, Step(cfg, m, i).flight)
  {
    hide Parse, Prepare;
    if m.phase.Waiting? && i.Received? {
      ParseStaysOnSide(cfg, m.flight, m.state, i.view);
      ParseKeepsNumber(cfg, m.flight, m.state, i.view);
    } else if m.phase.Preparing? && i.Generated? {
      PrepareSendsOrFails(cfg, m, i.draft);
    }
  }

  lemma PrepareSendsOrFails(cfg: Config, m: Fsm, d: Draft)
    ensures Prepare(cfg, m, d).phase in {Sending, Errored}
  {
    hide Generate, NumbersFrom;
  }

  lemma ParseKeepsNumber(cfg: Config, f: Flight, s: State, v: View)
    ensures Parse(cfg, f, s, v).0.sendSeq == s.sendSeq
  {
    hide FullPull, Has, Transcript, VerifyData;
  }

  /**
   In every run the messages of a peer are numbered one after another from 0, except that each
   HelloVerifyRequest of a server is number 0 and the server's hello after it number 1.
   */
  lemma {:induction false} RunNumbers(cfg: Config, isClient: bool, inputs: seq<Input>)
    ensures var m := Run(cfg, isClient, inputs);
            m.phase != Errored ==> Consecutive(Log(cfg, isClient, inputs), Requests(cfg, isClient, inputs),
              m.state.sendSeq, m.flight)
    ensures isClient ==> Requests(cfg, isClient, inputs) == 0
  {
    if inputs == [] {
      assert NumbersFrom(0, 0) == [];
    } else {
      hide Step, Consecutive;
      var front, i := inputs[..|inputs| - 1], inputs[|inputs| - 1];
      var m := Run(cfg, isClient, front);
      RunNumbers(cfg, isClient, front);
      RunFlights(cfg, isClient, front);
      if Run(cfg, isClient, inputs).phase != Errored {
        StaysErrored(cfg, m, i);
        if m.phase.Preparing? && Run(cfg, isClient, inputs).phase.Sending? {
          PreparedConsecutive(cfg, m, i, Log(cfg, isClient, front), Requests(cfg, isClient, front));
          PreparesInPlace(cfg, m, i);
        } else {
          OtherwiseConsecutive(cfg, m, i, Log(cfg, isClient, front), Requests(cfg, isClient, front));
          assert Log(cfg, isClient, front) + [] == Log(cfg, isClient, front);
        }
      }
    }
  }

  lemma StaysErrored(cfg: Config, m: Fsm, i: Input)
    ensures m.phase == Errored ==> Step(cfg, m, i).phase == Errored
  {
  }

  lemma PreparesInPlace(cfg: Config, m: Fsm, i: Input)
    requires m.phase.Preparing?
    ensures Step(cfg, m, i).flight == m.flight
  {
    hide Generate, NumbersFrom;
  }

  // ---------- the timer ----------

  /** A timer that runs out again and again, the flight being sent each time. */
  function Expiries(cfg: Config, m: Fsm, k: nat): Fsm {
    if k == 0 then m else Step(cfg, Step(cfg, Expiries(cfg, m, k - 1), Timeout), Written(true))
  }

  function Doubled(interval: nat, k: nat): nat {
    if k == 0 then interval else 2 * Doubled(interval, k - 1)
  }

  /** The wait doubles at each expiry, up to a minute; the flight and its message numbers are the same each time. */
  lemma {:induction false} BackoffDoubles(cfg: Config, m: Fsm, k: nat)
    requires m.phase == Waiting && m.retransmit && !IsLastSend(m.flight) && !cfg.disableBackoff &&
             m.interval <= MAX_INTERVAL
    ensures var d := Doubled(m.interval, k);
            Expiries(cfg, m, k) == m.(interval := if d > MAX_INTERVAL then MAX_INTERVAL else d)
  {
    if k > 0 { BackoffDoubles(cfg, m, k - 1); }
  }

  // ---------- the machine object ----------

  class Handshaker {
    const cfg: Config
    var state: State
    var currentFlight: Flight
    var numbers: seq<nat>
    var retransmit: bool
    var retransmitInterval: nat

    ghost function Abs(phase: Phase): Fsm
      reads this
    {
      Fsm(state, currentFlight, phase, numbers, retransmit, retransmitInterval)
    }

    constructor (cfg: Config, isClient: bool)
      ensures this.cfg == cfg && Abs(Preparing) == Start(cfg, isClient)
    {
      this.cfg := cfg;
      state := State(isClient, 0, 0, [], [], [], []);
      currentFlight := if isClient then F1 else F0;
      numbers, retransmit, retransmitInterval := [], false, cfg.interval;
    }

    method PrepareFlight(d: Draft) returns (phase: Phase)
      modifies this
      ensures Abs(phase) == Step(cfg, old(Abs(Preparing)), Generated(d))
    {
      hide Generate;
      numbers := [];
      state := Generate(cfg, currentFlight, state, d);
      retransmit := currentFlight != F2;
      if !d.ok {
        return Errored;
      }
      var count, first := Count(currentFlight, d), state.sendSeq;
      for k := 0 to count
        invariant state == old(Generate(cfg, currentFlight, state, d)).(sendSeq := first + k)
        invariant numbers == NumbersFrom(first, k)
        invariant currentFlight == old(currentFlight) && retransmit == (currentFlight != F2)
        invariant retransmitInterval == old(retransmitInterval)
      {
        numbers := numbers + [state.sendSeq % U16];
        state := state.(sendSeq := state.sendSeq + 1);
      }
      return Sending;
    }

    method SendFlight(ok: bool) returns (phase: Phase)
      ensures Abs(phase) == Step(cfg, Abs(Sending), Written(ok))
    {
      if !ok {
        return Errored;
      }
      if IsLastSend(currentFlight) {
        return Finished;
      }
      return Waiting;
    }

    method Wait(i: Input) returns (phase: Phase)
      modifies this
      ensures Abs(phase) == Step(cfg, old(Abs(Waiting)), i)
    {
      hide Parse;
      match i
      case Retransmitted =>
        return Sending;
      case Received(v) =>
        var (next, out) := Parse(cfg, currentFlight, state, v);
        state := next;
        retransmitInterval := cfg.interval;
        match out {
          case Fail => return Errored;
          case Stay => return Waiting;
          case Go(f) =>
            if IsLastRecv(f) && currentFlight == f {
              return Finished;
            }
            currentFlight := f;
            return Preparing;
        }
      case Timeout =>
        if !retransmit {
          return Waiting;
        }
        if !cfg.disableBackoff {
          retransmitInterval := 2 * retransmitInterval;
        }
        if retransmitInterval > MAX_INTERVAL {
          retransmitInterval := MAX_INTERVAL;
        }
        return Sending;
      case Cancelled =>
        retransmitInterval := cfg.interval;
        return Errored;
      case _ =>
        return Waiting;
    }

    method FinishHandshake(i: Input) returns (phase: Phase)
      ensures Abs(phase) == Step(cfg, Abs(Finished), i)
    {
      if i.Received? || i.Retransmitted? {
        return if state.isClient then Finished else Sending;
      } else if i.Cancelled? {
        return Errored;
      }
      return Finished;
    }
  }
}
