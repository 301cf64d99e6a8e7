/**
 The state machines of both peers over the network between them. A peer's Finished is the last
 message it ever prepares, so a peer that holds the other's Finished holds everything the other
 has said; with that the two sides' verify data agree without further premises about what is sent.
 */
module SpokenRuns {
  import opened Bytes
  import opened HandshakeCache
  import opened HandshakeFsm
  import opened FinishedAgreement
  import ConnWriter
  import Net = TranscriptAgreement

  // ---------- the Finished is the last word ----------

  predicate EndsWithFinished(f: Flight) {
    f in {F4b, F5, F5b, F6}
  }

  /** The numbers of a flight's messages, and which of them is the Finished. */
  function Marked(f: Flight, numbers: seq<nat>): (r: seq<(nat, bool)>)
    ensures |r| == |numbers|
  {
    seq(|numbers|, i requires 0 <= i < |numbers| => (numbers[i], EndsWithFinished(f) && i == |numbers| - 1))
  }

  /** Every message prepared in a run, in order. */
  function Said(cfg: Config, isClient: bool, inputs: seq<Input>): seq<(nat, bool)> {
    if inputs == [] then []
    else
      var front := inputs[..|inputs| - 1];
      var m, n := Run(cfg, isClient, front), Run(cfg, isClient, inputs);
      Said(cfg, isClient, front) + if m.phase.Preparing? && n.phase.Sending? then Marked(m.flight, n.numbers) else []
  }

  /** The words are the numbered messages of the run's log. */
  lemma {:induction false} SaidIsLogged(cfg: Config, isClient: bool, inputs: seq<Input>)
    ensures |Said(cfg, isClient, inputs)| == |Log(cfg, isClient, inputs)|
    ensures forall i :: 0 <= i < |Said(cfg, isClient, inputs)| ==>
              Said(cfg, isClient, inputs)[i].0 == Log(cfg, isClient, inputs)[i]
  {
    hide Step, Run;
    if inputs != [] { SaidIsLogged(cfg, isClient, inputs[..|inputs| - 1]); }
  }

  /**
   No word but the last is a Finished. Once it is one, the flight ends with a Finished, nothing is
   being prepared, and the last number given is its own.
   */
  ghost predicate LastWord(words: seq<(nat, bool)>, m: Fsm) {
    && (forall i :: 0 <= i < |words| && words[i].1 ==> i == |words| - 1)
    && (words != [] && words[|words| - 1].1 ==>
          && EndsWithFinished(m.flight) && !m.phase.Preparing?
          && m.state.sendSeq > 0 && words[|words| - 1].0 == (m.state.sendSeq - 1) % U16)
  }

  /** Flights 4b and 5 lead only to themselves. */
  lemma StaysToTheEnd(cfg: Config, f: Flight, s: State, v: View)
    requires f in {F4b, F5}
    ensures Parse(cfg, f, s, v).1.Go? ==> Parse(cfg, f, s, v).1.flight == f
  {
    hide FullPull, Has, Transcript, VerifyData;
  }

  /** From a flight that ends with a Finished nothing is prepared again. */
  lemma NothingPreparedAfter(cfg: Config, m: Fsm, i: Input)
    requires Inv(m, m.state.isClient) && EndsWithFinished(m.flight) && !m.phase.Preparing?
    ensures var n := Step(cfg, m, i);
            n.flight == m.flight && !n.phase.Preparing? && n.state.sendSeq == m.state.sendSeq
  {
    hide Parse;
    if m.phase.Waiting? && i.Received? {
      StaysToTheEnd(cfg, m.flight, m.state, i.view);
      ParseKeepsNumber(cfg, m.flight, m.state, i.view);
    }
  }

  lemma PreparedLast(first: nat, count: nat)
    requires count > 0
    ensures NumbersFrom(first, count)[count - 1] == (first + count - 1) % U16
  {
  }

  /** A flight is added to words that are none of them a Finished. */
  lemma MarkedLast(words: seq<(nat, bool)>, f: Flight, numbers: seq<nat>)
    requires forall i :: 0 <= i < |words| ==> !words[i].1
    ensures var all := words + Marked(f, numbers);
            && (forall i :: 0 <= i < |all| && all[i].1 ==> i == |all| - 1)
            && (all != [] && all[|all| - 1].1 ==>
                  EndsWithFinished(f) && numbers != [] && all[|all| - 1].0 == numbers[|numbers| - 1])
  {
  }

  lemma PreparedWords(cfg: Config, m: Fsm, i: Input, words: seq<(nat, bool)>)
    requires LastWord(words, m) && m.phase.Preparing? && Step(cfg, m, i).phase.Sending?
    ensures LastWord(words + Marked(m.flight, Step(cfg, m, i).numbers), Step(cfg, m, i))
  {
    PreparedNumbers(cfg, m, i);
    PreparesInPlace(cfg, m, i);
    hide Step, NumbersFrom, Marked;
    var n := Step(cfg, m, i);
    MarkedLast(words, m.flight, n.numbers);
    if n.numbers != [] { PreparedLast(if m.flight == F2 then 0 else m.state.sendSeq, |n.numbers|); }
  }

  lemma SameWords(cfg: Config, m: Fsm, i: Input, words: seq<(nat, bool)>)
    requires LastWord(words, m) && Inv(m, m.state.isClient)
    requires !(m.phase.Preparing? && Step(cfg, m, i).phase.Sending?)
    ensures LastWord(words, Step(cfg, m, i))
  {
    hide Step;
    if words != [] && words[|words| - 1].1 { NothingPreparedAfter(cfg, m, i); }
  }

  /** In every run a peer's Finished is the last message it prepares. */
  lemma {:induction false} FinishedIsLast(cfg: Config, isClient: bool, inputs: seq<Input>)
    ensures LastWord(Said(cfg, isClient, inputs), Run(cfg, isClient, inputs))
  {
    if inputs != [] {
      hide Step, LastWord, Inv;
      var front, i := inputs[..|inputs| - 1], inputs[|inputs| - 1];
      var m, words := Run(cfg, isClient, front), Said(cfg, isClient, front);
      FinishedIsLast(cfg, isClient, front);
      RunFlights(cfg, isClient, front);
      SideOf(m, isClient);
      if m.phase.Preparing? && Step(cfg, m, i).phase.Sending? {
        PreparedWords(cfg, m, i, words);
      } else {
        SameWords(cfg, m, i, words);
        assert words + [] == words;
      }
    }
  }

  lemma SideOf(m: Fsm, isClient: bool)
    requires Inv(m, isClient)
    ensures m.state.isClient == isClient
  {
  }

  // ---------- what was sent is what was prepared ----------

  /** The number is given in the run, to a Finished or to another message. */
  ghost predicate Spoken(words: seq<(nat, bool)>, n: nat, finished: bool) {
    exists i :: 0 <= i < |words| && words[i] == (n, finished)
  }

  /** What a peer has sent was prepared by its state machine, which has not failed or run out of numbers. */
  ghost predicate SpokenBy(sent: seq<ConnWriter.Packet>, cfg: Config, isClient: bool, inputs: seq<Input>) {
    && Run(cfg, isClient, inputs).phase != Errored && Run(cfg, isClient, inputs).state.sendSeq <= U16
    && forall k :: 0 <= k < |sent| ==>
         && sent[k].HandshakePacket?
         && Spoken(Said(cfg, isClient, inputs), k, sent[k].message.typ == FINISHED)
  }

  /** The numbers of a log stay below the next number. */
  lemma ConsecutiveBelow(log: seq<nat>, requests: nat, sendSeq: nat, f: Flight, i: nat)
    requires Consecutive(log, requests, sendSeq, f) && sendSeq <= U16 && i < |log|
    ensures log[i] < sendSeq
  {
    if i >= requests {
      var first := if requests > 0 then 1 else 0;
      SmallModulo(first + (i - requests), U16);
    }
  }

  /** A Finished among the messages sent is the last of them. */
  lemma {:induction false} NothingAfterFinished(sent: seq<ConnWriter.Packet>, cfg: Config, isClient: bool,
                                                inputs: seq<Input>, n: nat)
    requires SpokenBy(sent, cfg, isClient, inputs) && n < |sent| && sent[n].message.typ == FINISHED
    ensures |sent| == n + 1
  {
    hide Run, Said, Consecutive, Log, Requests;
    var words, m := Said(cfg, isClient, inputs), Run(cfg, isClient, inputs);
    FinishedIsLast(cfg, isClient, inputs);
    SaidIsLogged(cfg, isClient, inputs);
    RunNumbers(cfg, isClient, inputs);
    assert Spoken(words, n, true);
    var i :| 0 <= i < |words| && words[i] == (n, true);
    SmallModulo(m.state.sendSeq - 1, U16);
    var k := |sent| - 1;
    assert Spoken(words, k, sent[k].message.typ == FINISHED);
    var j :| 0 <= j < |words| && words[j] == (k, sent[k].message.typ == FINISHED);
    ConsecutiveBelow(Log(cfg, isClient, inputs), Requests(cfg, isClient, inputs), m.state.sendSeq, m.flight, j);
  }

  // ---------- two machines and a network ----------

  /** Of the rules for messages of side `x` none asks for a Finished. */
  predicate NoOwnFinished(rules: seq<Rule>, x: bool) {
    forall i :: 0 <= i < |rules| && rules[i].isClient == x ==> rules[i].typ != FINISHED
  }

  /** Both peers' messages up to state `v` are those of runs of their state machines. */
  ghost predicate BothSpoken(v: Net.World, cfg: Config, clientInputs: seq<Input>, serverInputs: seq<Input>) {
    SpokenBy(v.client.sent, cfg, true, clientInputs) && SpokenBy(v.server.sent, cfg, false, serverInputs)
  }

  lemma NoneBeyond(sent: seq<ConnWriter.Packet>, side: bool, rules: seq<Rule>, n: nat)
    requires |sent| <= n
    ensures Net.NoneAfter(sent, side, rules, n)
  {
  }

  lemma OnlyFinishedLeft(sent: seq<ConnWriter.Packet>, side: bool, rules: seq<Rule>, n: nat)
    requires |sent| == n + 1 && sent[n].HandshakePacket? && sent[n].message.typ == FINISHED
    requires NoOwnFinished(rules, side)
    ensures Net.NoneAfter(sent, side, rules, n)
  {
    hide ConnWriter.Fragmentation.WholeMessage;
  }

  lemma FinishedEnds(v: Net.World, cfg: Config, ci: seq<Input>, si: seq<Input>, side: bool, n: nat)
    requires BothSpoken(v, cfg, ci, si) && n < |Net.PeerOf(v, side).sent|
    requires Net.PeerOf(v, side).sent[n].HandshakePacket? && Net.PeerOf(v, side).sent[n].message.typ == FINISHED
    ensures |Net.PeerOf(v, side).sent| == n + 1
  {
    hide SpokenBy;
    NothingAfterFinished(Net.PeerOf(v, side).sent, cfg, side, if side then ci else si, n);
  }

  /**
   A peer that holds the other's Finished and takes the next number for its own is settled with
   it: nothing under the rules comes after.
   */
  lemma {:induction false} FinishedSettles(worlds: seq<Net.World>, events: seq<Net.Event>, i: nat, x: bool, j: nat,
                                           rules: seq<Rule>, theirs: Item, mine: Item,
                                           cfg: Config, ci: seq<Input>, si: seq<Input>)
    requires Net.IsRun(worlds, events) && i <= j < |worlds| && BothSpoken(worlds[j], cfg, ci, si)
    requires NoOwnFinished(rules, x)
    requires theirs in Net.PeerOf(worlds[i], x).conn.cache && theirs.isClient != x && theirs.typ == FINISHED
    requires mine in Net.PeerOf(worlds[j], !x).conn.cache && mine.isClient == x && mine.typ == FINISHED
    requires mine.seqNum == |Net.PeerOf(worlds[i], x).sent|
    ensures Settled(worlds[i], x, worlds[j], rules, theirs, mine)
  {
    hide Net.IsRun, Net.Good, SpokenBy, BothSpoken, Net.NoneAfter, NoOwnFinished;
    var w, v := worlds[i], worlds[j];
    Net.RunGood(worlds, events, i);
    Net.RunGood(worlds, events, j);
    Net.SentGrows(worlds, events, i, j);
    var a := Net.ItemOrigin(w, x, v, theirs);
    var b := Net.ItemOrigin(v, !x, v, mine);
    FinishedEnds(v, cfg, ci, si, !x, a);
    FinishedEnds(v, cfg, ci, si, x, b);
    NoneBeyond(Net.PeerOf(v, !x).sent, !x, rules, a + 1);
    NoneBeyond(Net.PeerOf(v, x).sent, x, rules, b + 1);
    OnlyFinishedLeft(Net.PeerOf(v, x).sent, x, rules, b);
  }

  lemma Peers(w: Net.World)
    ensures Net.PeerOf(w, true) == w.client && Net.PeerOf(w, false) == w.server
  {
  }

  lemma OwnRules(epoch: nat)
    ensures NoOwnFinished(FinishedRules(epoch), false) && NoOwnFinished(ResumedRules(epoch), true)
  {
  }

  /**
   Full handshake, with the extended master secret and both peers run by their state machines. The
   client derives its master in state `h` and the server in state `g`; the server, holding the
   client's Finished, prepares its own in state `i`; the client reads it in state `j`, and accepts
   exactly the verify data the server computed.
   */
  lemma {:induction false} FullHandshakeSpoken(worlds: seq<Net.World>, events: seq<Net.Event>,
                                               h: nat, g: nat, i: nat, j: nat,
                                               cfg: Config, server: State, d: Draft, client: State, v: View,
                                               theirs: Item, ci: seq<Input>, si: seq<Input>,
                                               derive: (bytes, bytes) -> bytes, hash: bytes -> bytes, secret: bytes,
                                               flight: seq<ConnWriter.Packet>, at: seq<nat>, last: Item)
    requires Net.IsRun(worlds, events) && h <= g < |worlds| && i <= j < |worlds| && BothSpoken(worlds[j], cfg, ci, si)
    requires Net.FlightComesThrough(worlds[h], worlds[g], SessionRules(cfg.epoch), flight, at, last)
    requires var ahead := [DataOf(Net.ClientItems(flight))];
             client.master == derive(secret, SessionHash(worlds[h].client.conn.cache, hash, cfg.epoch, ahead))
    requires server.master == derive(secret, SessionHash(worlds[g].server.conn.cache, hash, cfg.epoch, []))
    requires d.cache == worlds[i].server.conn.cache && v.cache == worlds[j].client.conn.cache
    requires theirs in d.cache && theirs.isClient && theirs.typ == FINISHED
    requires PulledFinished(cfg, client, v, false).Some?
    requires PulledFinished(cfg, client, v, false).value.seqNum == |worlds[i].server.sent|
    requires server.localVerify == [] && v.prfOk && v.storeOk
    ensures Flight5Parse(cfg, client, v).1 == Go(F5) <==>
            VerifyData(PulledFinished(cfg, client, v, false).value.data) == Generate(cfg, F6, server, d).localVerify
  {
    hide *;
    OwnRules(cfg.epoch);
    Peers(worlds[i]);
    Peers(worlds[j]);
    PulledIsCached(cfg, client, v, false);
    FinishedSettles(worlds, events, i, false, j, FinishedRules(cfg.epoch), theirs,
                    PulledFinished(cfg, client, v, false).value, cfg, ci, si);
    FullHandshakeAgrees(worlds, events, h, g, i, j, cfg, server, d, client, v, theirs, derive, hash, secret,
                        flight, at, last);
  }

  /**
   Resumed handshake with both peers run by their state machines: the server accepts exactly the
   verify data the client computed.
   */
  lemma {:induction false} ResumedHandshakeSpoken(worlds: seq<Net.World>, events: seq<Net.Event>, i: nat, j: nat,
                                                  cfg: Config, client: State, d: Draft, server: State, v: View,
                                                  theirs: Item, ci: seq<Input>, si: seq<Input>)
    requires Net.IsRun(worlds, events) && i <= j < |worlds| && BothSpoken(worlds[j], cfg, ci, si)
    requires d.cache == worlds[i].client.conn.cache && v.cache == worlds[j].server.conn.cache
    requires theirs in d.cache && !theirs.isClient && theirs.typ == FINISHED
    requires PulledFinished(cfg, server, v, true).Some?
    requires PulledFinished(cfg, server, v, true).value.seqNum == |worlds[i].client.sent|
    requires client.localVerify == [] && client.master == server.master && v.prfOk
    ensures Flight4bParse(cfg, server, v).1 == Go(F4b) <==>
            VerifyData(PulledFinished(cfg, server, v, true).value.data) == Generate(cfg, F5b, client, d).localVerify
  {
    hide *;
    OwnRules(cfg.epoch);
    Peers(worlds[i]);
    Peers(worlds[j]);
    PulledIsCached(cfg, server, v, true);
    FinishedSettles(worlds, events, i, true, j, ResumedRules(cfg.epoch), theirs,
                    PulledFinished(cfg, server, v, true).value, cfg, ci, si);
    ClientFinishedAccepted(worlds, events, i, j, cfg, client, d, server, v, theirs);
  }
}
