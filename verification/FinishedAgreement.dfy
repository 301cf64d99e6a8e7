/**
 The end of the handshake across both peers and the network between them: the verify data one
 side computes from its own cache is the verify data the other side expects.
 */
module FinishedAgreement {
  import opened Bytes
  import opened HandshakeCache
  import opened HandshakeFsm
  import opened ServerProof
  import ConnWriter
  import Net = TranscriptAgreement

  /** The Finished message that was pulled. */
  function PulledFinished(cfg: Config, s: State, v: View, byClient: bool): Option<Item> {
    var pull := FullPull(v.cache, s.recvSeq, FinishedRule(cfg, byClient), v.parses);
    if pull.Some? && |pull.value.1| == 1 && Has(pull.value.1[0], FINISHED) then pull.value.1[0] else None
  }

  lemma PulledIsCached(cfg: Config, s: State, v: View, byClient: bool)
    ensures var c := PulledFinished(cfg, s, v, byClient);
            c.Some? ==> c.value in v.cache && c.value.isClient == byClient && c.value.typ == FINISHED
  {
    hide Best, Has;
    var r := FinishedRule(cfg, byClient)[0];
    OnePulled(v.cache, s.recvSeq, r, v.parses);
    BestIsBest(v.cache, r);
  }

  /**
   Peer `x` holds `theirs` in state `w`. Nothing under the rules is sent after it or after the
   message `mine` of `x`, nor by `x` between the two states.
   */
  ghost predicate Settled(w: Net.World, x: bool, v: Net.World, rules: seq<Rule>, theirs: Item, mine: Item) {
    && theirs in Net.PeerOf(w, x).conn.cache && theirs.isClient != x
    && Net.NoneAfter(Net.PeerOf(v, !x).sent, !x, rules, theirs.seqNum + 1)
    && Net.NoneAfter(Net.PeerOf(v, x).sent, x, rules, |Net.PeerOf(w, x).sent|)
    && Net.NoneAfter(Net.PeerOf(v, x).sent, x, rules, mine.seqNum + 1)
  }

  /** Messages come through in order, so both peers then have everything the rules ask for. */
  lemma SettledHaveAll(w: Net.World, x: bool, v: Net.World, rules: seq<Rule>, theirs: Item, mine: Item, n: nat)
    requires Net.Good(w) && Net.Good(v) && Settled(w, x, v, rules, theirs, mine) && n < |rules|
    requires mine in Net.PeerOf(v, !x).conn.cache && mine.isClient == x
    ensures Net.HasAll(w, x, v, rules[n]) && Net.HasAll(v, !x, v, rules[n])
  {
    hide Net.Good, Net.HasAll, Net.NoneAfter;
    if rules[n].isClient == x {
      Net.HasOwn(w, x, v, rules, n);
      Net.HasAllUpTo(v, !x, v, mine, rules, n);
    } else {
      Net.HasAllUpTo(w, x, v, theirs, rules, n);
      Net.NothingBeyond(v, !x, rules);
      Net.HasOwn(v, !x, v, rules, n);
    }
  }

  /** Settled peers pull the same transcript. */
  lemma SettledTranscript(worlds: seq<Net.World>, events: seq<Net.Event>, i: nat, x: bool, j: nat, rules: seq<Rule>,
                          theirs: Item, mine: Item)
    requires Net.IsRun(worlds, events) && i <= j < |worlds|
    requires Settled(worlds[i], x, worlds[j], rules, theirs, mine)
    requires mine in Net.PeerOf(worlds[j], !x).conn.cache && mine.isClient == x
    ensures Transcript(Net.PeerOf(worlds[i], x).conn.cache, rules)
            == Transcript(Net.PeerOf(worlds[j], !x).conn.cache, rules)
  {
    hide Net.Good, Net.HasAll, Settled, Net.IsRun, Transcript;
    Net.RunGood(worlds, events, i);
    Net.RunGood(worlds, events, j);
    forall n | 0 <= n < |rules|
      ensures Net.HasAll(worlds[i], x, worlds[j], rules[n]) && Net.HasAll(worlds[j], !x, worlds[j], rules[n])
    {
      SettledHaveAll(worlds[i], x, worlds[j], rules, theirs, mine, n);
    }
    Net.SameTranscript(worlds, events, i, x, j, !x, rules);
  }

  /**
   Full handshake. The server prepares flight 6 in one state of a run, holding the client's
   last message, and the client reads its Finished in the same or a later one, with the same
   master secret: the client accepts exactly the verify data the server computed.
   */
  lemma ServerFinishedAccepted(worlds: seq<Net.World>, events: seq<Net.Event>, i: nat, j: nat,
                               cfg: Config, server: State, d: Draft, client: State, v: View, theirs: Item)
    requires Net.IsRun(worlds, events) && i <= j < |worlds|
    requires d.cache == worlds[i].server.conn.cache && v.cache == worlds[j].client.conn.cache
    requires PulledFinished(cfg, client, v, false).Some?
    requires Settled(worlds[i], false, worlds[j], FinishedRules(cfg.epoch), theirs,
                     PulledFinished(cfg, client, v, false).value)
    requires server.localVerify == [] && client.master == server.master
    requires v.prfOk && v.storeOk
    ensures Flight5Parse(cfg, client, v).1 == Go(F5) <==>
            VerifyData(PulledFinished(cfg, client, v, false).value.data) == Generate(cfg, F6, server, d).localVerify
  {
    hide Transcript, FullPull, Has, FinishedRules, Net.IsRun, Settled, VerifyData;
    PulledIsCached(cfg, client, v, false);
    SettledTranscript(worlds, events, i, false, j, FinishedRules(cfg.epoch), theirs,
                      PulledFinished(cfg, client, v, false).value);
  }

  /**
   With the extended master secret of RFC 7627 the two masters need not be assumed equal: the
   client derives its own in state `h`, before it sends its key exchange, and the server in
   state `g`, once it has come through.
   */
  lemma FullHandshakeAgrees(worlds: seq<Net.World>, events: seq<Net.Event>, h: nat, g: nat, i: nat, j: nat,
                            cfg: Config, server: State, d: Draft, client: State, v: View, theirs: Item,
                            derive: (bytes, bytes) -> bytes, hash: bytes -> bytes, secret: bytes,
                            flight: seq<ConnWriter.Packet>, at: seq<nat>, last: Item)
    requires Net.IsRun(worlds, events) && h <= g < |worlds| && i <= j < |worlds|
    requires Net.FlightComesThrough(worlds[h], worlds[g], SessionRules(cfg.epoch), flight, at, last)
    requires client.master
          == derive(secret, SessionHash(worlds[h].client.conn.cache, hash, cfg.epoch,
            [DataOf(Net.ClientItems(flight))]))
    requires server.master == derive(secret, SessionHash(worlds[g].server.conn.cache, hash, cfg.epoch, []))
    requires d.cache == worlds[i].server.conn.cache && v.cache == worlds[j].client.conn.cache
    requires PulledFinished(cfg, client, v, false).Some?
    requires Settled(worlds[i], false, worlds[j], FinishedRules(cfg.epoch), theirs,
                     PulledFinished(cfg, client, v, false).value)
    requires server.localVerify == [] && v.prfOk && v.storeOk
    ensures Flight5Parse(cfg, client, v).1 == Go(F5) <==>
            VerifyData(PulledFinished(cfg, client, v, false).value.data) == Generate(cfg, F6, server, d).localVerify
  {
    hide SessionHash, PulledFinished, Flight5Parse, Generate, Net.IsRun, Settled, Net.FlightComesThrough, SessionRules;
    hide FinishedRules, DataOf, Net.ClientItems;
    Net.SessionHashAgrees(worlds, events, h, g, hash, cfg.epoch, flight, at, last);
    ServerFinishedAccepted(worlds, events, i, j, cfg, server, d, client, v, theirs);
  }

  /**
   The other half of the full handshake: the verify data the client computes in flight 5, before
   sending anything of that flight, is what the server in flight 4 has to expect.
   */
  lemma ClientVerifyExpected(worlds: seq<Net.World>, events: seq<Net.Event>, i: nat, j: nat,
                             cfg: Config, client: State, d: Draft, server: State, v: View,
                             flight: seq<ConnWriter.Packet>, at: seq<nat>, last: Item)
    requires Net.IsRun(worlds, events) && i <= j < |worlds|
    requires Net.FlightComesThrough(worlds[i], worlds[j], ClientFinishedRules(cfg.epoch), flight, at, last)
    requires d.cache == worlds[i].client.conn.cache && v.later == worlds[j].server.conn.cache
    requires d.unsent == DataOf(Net.ClientItems(flight)) && NoneYet(d.cache, FINISHED, cfg.epoch + 1)
    requires client.localVerify == [] && d.master == (if v.initialized then server.master else v.secret)
    ensures Generate(cfg, F5, client, d).localVerify == Expected(cfg, server, v)
  {
    NoFinishedYet(d.cache, cfg.epoch);
    hide Transcript, Net.IsRun, FinishedRules, ClientFinishedRules, DataOf, Net.ClientItems, Net.FlightComesThrough,
         Best;
    Net.FlightTranscriptAgrees(worlds, events, i, j, ClientFinishedRules(cfg.epoch), flight, at, last);
  }

  /** A Finished that was not sent yet adds nothing to the transcript. */
  lemma NoFinishedYet(cache: seq<Item>, epoch: nat)
    requires NoneYet(cache, FINISHED, epoch + 1)
    ensures Transcript(cache, FinishedRules(epoch)) == Transcript(cache, ClientFinishedRules(epoch))
  {
    hide Best;
    var rules := ClientFinishedRules(epoch);
    assert FinishedRules(epoch) == rules + [Rule(FINISHED, epoch + 1, true, false)];
    var found := Pulled(cache, FinishedRules(epoch));
    assert found[..|found| - 1] == Pulled(cache, rules);
    assert Merge(Pulled(cache, rules)) + [] == Merge(Pulled(cache, rules));
  }

  /** Both hellos of a cache, one after the other. */
  lemma HelloTranscript(cache: seq<Item>, epoch: nat)
    ensures Transcript(cache, HelloRules(epoch))
         == DataFor(cache, HelloRules(epoch)[0]) + DataFor(cache, HelloRules(epoch)[1])
    ensures Transcript(cache, [HelloRules(epoch)[0]]) == DataFor(cache, HelloRules(epoch)[0])
  {
    hide Best;
    var found := Pulled(cache, HelloRules(epoch));
    assert found[..1][..0] == [];
    assert found[..1] == Pulled(cache, [HelloRules(epoch)[0]]);
    assert Merge(found[..1]) == [] + DataFor(cache, HelloRules(epoch)[0]);
  }

  function DataFor(cache: seq<Item>, r: Rule): bytes {
    if Best(cache, r).Some? then Best(cache, r).value.data else []
  }

  /** The view of the cache in which a resuming client looks for the server's Finished. */
  function LaterView(v: View): View {
    v.(cache := v.later)
  }

  /**
   Resumed handshake, the server's side: it prepares flight 4b before its own hello is in its
   cache. In a later state, where the hello it was about to send is cached behind the same
   client hello, the client accepts exactly the verify data the server computed.
   */
  lemma ResumingServerAccepted(worlds: seq<Net.World>, events: seq<Net.Event>, k: nat, j: nat,
                               cfg: Config, server: State, d: Draft, client: State, v: View, theirs: Item)
    requires Net.IsRun(worlds, events) && k <= j < |worlds|
    requires DataFor(worlds[k].server.conn.cache, HelloRules(cfg.epoch)[0])
             == DataFor(d.cache, HelloRules(cfg.epoch)[0])
    requires DataFor(worlds[k].server.conn.cache, HelloRules(cfg.epoch)[1]) == d.unsent
    requires v.later == worlds[j].client.conn.cache && server.localVerify == [] && client.master == server.master
    requires PulledFinished(cfg, client.(recvSeq := client.recvSeq + 1), LaterView(v), false).Some?
    requires Settled(worlds[k], false, worlds[j], HelloRules(cfg.epoch), theirs,
                     PulledFinished(cfg, client.(recvSeq := client.recvSeq + 1), LaterView(v), false).value)
    requires v.initOk && v.queuedOk && v.prfOk
    ensures Resumption(cfg, client, v).1 == Go(F5b) <==>
            VerifyData(PulledFinished(cfg, client.(recvSeq := client.recvSeq + 1), LaterView(v), false).value.data)
              == Generate(cfg, F4b, server, d).localVerify
  {
    hide Transcript, FullPull, Has, HelloRules, DataFor, Generate, Net.IsRun, Settled, VerifyData;
    VerifyBeforeHello(cfg, server, d, worlds[k].server.conn.cache);
    PulledIsCached(cfg, client.(recvSeq := client.recvSeq + 1), LaterView(v), false);
    SettledTranscript(worlds, events, k, false, j, HelloRules(cfg.epoch), theirs,
                      PulledFinished(cfg, client.(recvSeq := client.recvSeq + 1), LaterView(v), false).value);
  }

  /** What flight 4b computes is the verify data over both hellos of a cache that holds them. */
  lemma VerifyBeforeHello(cfg: Config, server: State, d: Draft, cache: seq<Item>)
    requires DataFor(cache, HelloRules(cfg.epoch)[0]) == DataFor(d.cache, HelloRules(cfg.epoch)[0])
    requires DataFor(cache, HelloRules(cfg.epoch)[1]) == d.unsent && server.localVerify == []
    ensures Generate(cfg, F4b, server, d).localVerify
         == cfg.serverVerify(server.master, Transcript(cache, HelloRules(cfg.epoch)))
  {
    hide Transcript, DataFor;
    HelloTranscript(d.cache, cfg.epoch);
    HelloTranscript(cache, cfg.epoch);
    assert [HelloRules(cfg.epoch)[0]] == [Rule(CLIENT_HELLO, cfg.epoch, true, false)];
  }

  /** Resumed handshake: likewise for the client's flight 5b and the server that waits for it. */
  lemma ClientFinishedAccepted(worlds: seq<Net.World>, events: seq<Net.Event>, i: nat, j: nat,
                               cfg: Config, client: State, d: Draft, server: State, v: View, theirs: Item)
    requires Net.IsRun(worlds, events) && i <= j < |worlds|
    requires d.cache == worlds[i].client.conn.cache && v.cache == worlds[j].server.conn.cache
    requires PulledFinished(cfg, server, v, true).Some?
    requires Settled(worlds[i], true, worlds[j], ResumedRules(cfg.epoch), theirs,
                     PulledFinished(cfg, server, v, true).value)
    requires client.localVerify == [] && client.master == server.master && v.prfOk
    ensures Flight4bParse(cfg, server, v).1 == Go(F4b) <==>
            VerifyData(PulledFinished(cfg, server, v, true).value.data) == Generate(cfg, F5b, client, d).localVerify
  {
    hide Transcript, FullPull, Has, ResumedRules, Net.IsRun, Settled, VerifyData;
    PulledIsCached(cfg, server, v, true);
    SettledTranscript(worlds, events, i, true, j, ResumedRules(cfg.epoch), theirs,
                      PulledFinished(cfg, server, v, true).value);
  }
}
