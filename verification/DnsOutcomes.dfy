/**
 No query is forgotten: at every moment of every run each one is queued, in a batch that is yet to
 be flushed or registered, waiting for its answer, or done.
 */
module DnsOutcomes {
  import opened Bytes
  import opened DnsBatch

  ghost predicate HasResult(w: World, id: nat) {
    exists j :: 0 <= j < |w.results| && w.results[j].0 == id
  }

  /** Sent among others without a transaction number; nobody waits for it. */
  ghost predicate Unnumbered(w: World, k: nat, id: nat)
    requires k < |w.groups|
  {
    |w.groups[k]| > 1 && id < |w.submitted| && |w.submitted[id]| < 2
  }

  /** What becomes of query `i` of batch `k`. */
  ghost predicate Placed(w: World, k: nat, i: nat)
    requires k < |w.groups| && i < |w.groups[k]|
  {
    var id := w.groups[k][i];
    || k in w.unflushed
    || (k in w.flushing && w.flushing[k].next <= i)
    || id in w.waiting
    || HasResult(w, id)
    || Unnumbered(w, k, id)
  }

  // ---------- every step keeps it ----------

  lemma MoreResults(w: World, v: World, more: seq<(nat, Result)>, id: nat)
    requires v.results == w.results + more && HasResult(w, id)
    ensures HasResult(v, id)
  {
    var j :| 0 <= j < |w.results| && w.results[j].0 == id;
    assert v.results[j].0 == id;
  }

  lemma ResultAdded(w: World, v: World, id: nat, r: Result)
    requires v.results == w.results + [(id, r)]
    ensures HasResult(v, id)
  {
    assert v.results[|w.results|].0 == id;
  }

  lemma AllFailed(w: World, v: World, ids: seq<nat>, i: nat)
    requires v.results == w.results + Failures(ids) && i < |ids|
    ensures HasResult(v, ids[i])
  {
    assert v.results[|w.results| + i].0 == ids[i];
  }

  /** More results, and nothing else gone, keep a query where it is. */
  lemma KeptBy(w: World, v: World, more: seq<(nat, Result)>, k: nat, i: nat)
    requires k < |w.groups| && i < |w.groups[k]| && Placed(w, k, i)
    requires w.groups <= v.groups && w.submitted <= v.submitted && v.results == w.results + more
    requires k in w.unflushed ==> k in v.unflushed
    requires k in w.flushing ==> k in v.flushing && v.flushing[k] == w.flushing[k]
    requires w.groups[k][i] in w.waiting ==> w.groups[k][i] in v.waiting
    ensures Placed(v, k, i)
  {
    if HasResult(w, w.groups[k][i]) { MoreResults(w, v, more, w.groups[k][i]); }
  }

  lemma SettleKeeps(w: World, done: nat, r: Result, k: nat, i: nat)
    requires done in w.waiting && k < |w.groups| && i < |w.groups[k]| && Placed(w, k, i)
    ensures Settle(w, done, r).groups == w.groups && Placed(Settle(w, done, r), k, i)
  {
    var v := Settle(w, done, r);
    if w.groups[k][i] == done {
      ResultAdded(w, v, done, r);
    } else {
      KeptBy(w, v, [(done, r)], k, i);
    }
  }

  lemma RegisterKeeps(w: World, j: nat, k: nat, i: nat)
    requires j in w.flushing && j < |w.groups| && w.flushing[j].next < |w.groups[j]| && InOrder(w)
    requires k < |w.groups| && i < |w.groups[k]| && Placed(w, k, i)
    ensures Register(w, j).groups == w.groups && Placed(Register(w, j), k, i)
  {
    var v, id := Register(w, j), w.groups[k][i];
    var more := if v.results == w.results then [] else [(w.groups[j][w.flushing[j].next], Failure)];
    assert v.results == w.results + more;
    if j == k && i == w.flushing[j].next {
      Apart(w, k, k, id);
      if !Waits(w, w.groups[k], id) && |w.groups[k]| == 1 { ResultAdded(w, v, id, Failure); }
    } else if j == k {
      if HasResult(w, id) { MoreResults(w, v, more, id); }
    } else {
      KeptBy(w, v, more, k, i);
    }
  }

  lemma GroupsStay(w: World, e: Event)
    ensures w.groups <= Step(w, e).groups
  {
    hide Failures, Submit;
  }

  lemma OldBatch(w: World, e: Event, k: nat, i: nat)
    requires InOrder(w) && k < |w.groups| && i < |w.groups[k]| && Placed(w, k, i)
    ensures w.groups <= Step(w, e).groups && Placed(Step(w, e), k, i)
  {
    hide InOrder, Register, Settle, Failures, Waits, Placed, Submit;
    var v := Step(w, e);
    match e
    case RegisterEvent(j) => if v != w { RegisterKeeps(w, j, k, i); }
    case AnswerEvent(id) =>
      if v != w {
        var got := ChannelOf(w, w.waiting[id]).inbox[id];
        SettleKeeps(w, id, if got.Some? then Response(got.value) else Failure, k, i);
      }
    case GiveUpEvent(id) => if v != w { SettleKeeps(w, id, Failure, k, i); }
    case FlushEvent(j, c) => if v != w { FlushKeeps(w, j, c, k, i); }
    case NoChannelEvent(j) => if v != w { RefusedKeeps(w, v, j, k, i); }
    case CloseEvent(_) => KeptBy(w, v, Failures(w.core.queue), k, i);
    case _ => KeptBy(w, v, [], k, i);
  }

  lemma FlushKeeps(w: World, j: nat, c: nat, k: nat, i: nat)
    requires k < |w.groups| && i < |w.groups[k]| && Placed(w, k, i)
    ensures Placed(Flush(w, j, c), k, i)
  {
    if j != k { KeptBy(w, Flush(w, j, c), [], k, i); }
  }

  lemma RefusedKeeps(w: World, v: World, j: nat, k: nat, i: nat)
    requires k < |w.groups| && i < |w.groups[k]| && Placed(w, k, i) && j < |w.groups|
    requires v == Step(w, NoChannelEvent(j)) && j in w.unflushed
    ensures Placed(v, k, i)
  {
    if j == k {
      AllFailed(w, v, w.groups[k], i);
    } else {
      KeptBy(w, v, Failures(w.groups[j]), k, i);
    }
  }

  lemma NewBatch(w: World, e: Event, k: nat, i: nat)
    requires |w.groups| <= k < |Step(w, e).groups| && i < |Step(w, e).groups[k]|
    ensures Placed(Step(w, e), k, i)
  {
    hide Failures, Submit;
    if e.CloseEvent? { AllFailed(w, Step(w, e), w.core.queue, i); }
  }

  ghost predicate AllPlaced(w: World) {
    forall k, i :: 0 <= k < |w.groups| && 0 <= i < |w.groups[k]| ==> Placed(w, k, i)
  }

  lemma {:induction false} RunPlaces(events: seq<Event>)
    ensures AllPlaced(Run(events))
  {
    hide Step, Placed, Inv;
    if events != [] {
      var front, e := events[..|events| - 1], events[|events| - 1];
      var w, v := Run(front), Step(Run(front), e);
      RunPlaces(front);
      RunOrder(front);
      forall k, i | 0 <= k < |v.groups| && 0 <= i < |v.groups[k]| ensures Placed(v, k, i) {
        if k >= |w.groups| {
          NewBatch(w, e, k, i);
        } else {
          GroupsStay(w, e);
          OldBatch(w, e, k, i);
        }
      }
    }
  }

  lemma RunOrder(events: seq<Event>)
    ensures InOrder(Run(events))
  {
    hide Run, Timed, Staged, Answered, InOrder;
    RunInv(events);
  }

  // ---------- every query, at every moment ----------

  /** Consecutive ranges from 0 hold every number below their end. */
  lemma {:induction false} Holder(groups: seq<seq<nat>>, id: nat) returns (k: nat, i: nat)
    requires Ranges(groups) && id < Total(groups)
    ensures k < |groups| && i < |groups[k]| && groups[k][i] == id
  {
    var front, last := groups[..|groups| - 1], |groups| - 1;
    if id < Total(front) {
      FrontRanges(groups);
      k, i := Holder(front, id);
    } else {
      k, i := last, id - Total(front);
      assert IsRange(groups[last], Total(groups[..last]));
    }
  }

  lemma FrontRanges(groups: seq<seq<nat>>)
    requires Ranges(groups) && groups != []
    ensures Ranges(groups[..|groups| - 1])
  {
    var front := groups[..|groups| - 1];
    forall k | 0 <= k < |front| ensures IsRange(front[k], Total(front[..k])) {
      assert front[..k] == groups[..k];
    }
  }

  ghost predicate InBatch(w: World, id: nat, k: nat, i: nat) {
    k < |w.groups| && i < |w.groups[k]| && w.groups[k][i] == id && Placed(w, k, i)
  }

  /**
   In every run every submitted query is queued, or in a batch that is yet to be flushed, or yet to
   be registered, or waits for its answer, or has a result, or was sent among others without a
   transaction number.
   */
  lemma EveryQueryPlaced(events: seq<Event>, id: nat)
    requires id < |Run(events).submitted|
    ensures id in Run(events).core.queue || exists k, i :: InBatch(Run(events), id, k, i)
  {
    hide Run, Placed;
    RunPlaces(events);
    RunOrder(events);
    var w := Run(events);
    if id < Total(w.groups) {
      var k, i := Holder(w.groups, id);
      assert InBatch(w, id, k, i);
    } else {
      assert w.core.queue[id - Total(w.groups)] == id;
    }
  }

  /** Nothing is left to do. */
  ghost predicate Quiet(w: World) {
    && w.core.queue == [] && w.unflushed == {} && w.waiting == map[]
    && forall k :: k in w.flushing && k < |w.groups| ==> w.flushing[k].next >= |w.groups[k]|
  }

  ghost predicate OneResult(w: World, id: nat) {
    exists j :: 0 <= j < |w.results| && w.results[j].0 == id
             && forall i :: 0 <= i < |w.results| && w.results[i].0 == id ==> i == j
  }

  /** In every run, once nothing is left to do, every query with a transaction number has exactly one result. */
  lemma QuietMeansAnswered(events: seq<Event>, id: nat)
    requires Quiet(Run(events)) && id < |Run(events).submitted| && |Run(events).submitted[id]| >= 2
    ensures OneResult(Run(events), id)
  {
    hide Run;
    EveryQueryPlaced(events, id);
    AtMostOneResult(events);
    var w := Run(events);
    var k, i :| InBatch(w, id, k, i);
    assert HasResult(w, id);
    var j :| 0 <= j < |w.results| && w.results[j].0 == id;
    assert forall i :: 0 <= i < |w.results| && w.results[i].0 == id ==> i == j;
  }
}
