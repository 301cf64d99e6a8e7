/**
 DNS queries collected into batches by a short timer, sent over shared channels, and answered
 by transaction number. Every interleaving of callers, timer callbacks, flushes, channel
 readers and closing is a run of the steps below. A timer that was stopped too late still
 runs its callback.
 */
module DnsBatch {
  import opened Bytes

  const MAX_QUERIES: nat := 16

  // ---------- what the lock protects ----------

  /** The queued queries, by number of submission, and the running timer. */
  datatype Core = Core(queue: seq<nat>, timer: Option<nat>)

  /** What a submission does: a batch to send at once, or a timer to start. */
  datatype Submitted = Submitted(core: Core, flush: seq<nat>, started: bool, stopped: Option<nat>)

  function Submit(c: Core, id: nat, next: nat): Submitted {
    var queue := c.queue + [id];
    if |queue| >= MAX_QUERIES then Submitted(Core([], None), queue, false, c.timer)
    else if c.timer.None? then Submitted(Core(queue, Some(next)), [], true, None)
    else Submitted(Core(queue, c.timer), [], false, None)
  }

  class Batcher {
    var batchQueue: seq<nat>
    var batchTimer: Option<nat>

    ghost function Abs(): Core
      reads this
    {
      Core(batchQueue, batchTimer)
    }

    constructor ()
      ensures Abs() == Core([], None)
    {
      batchQueue, batchTimer := [], None;
    }

    method SubmitQuery(id: nat, next: nat) returns (flush: seq<nat>, started: bool, stopped: Option<nat>)
      modifies this
      ensures Submitted(Abs(), flush, started, stopped) == Submit(old(Abs()), id, next)
    {
      flush, started, stopped := [], false, None;
      batchQueue := batchQueue + [id];
      var queueLen := |batchQueue|;
      if queueLen >= MAX_QUERIES {
        flush := batchQueue;
        batchQueue := [];
        if batchTimer.Some? {
          stopped := batchTimer;
          batchTimer := None;
        }
      } else if batchTimer.None? {
        batchTimer := Some(next);
        started := true;
      }
    }

    /** The timer callback takes whatever is queued, whichever timer it belonged to. */
    method TimerFired() returns (batch: seq<nat>)
      modifies this
      ensures batch == old(batchQueue) && Abs() == Core([], None)
    {
      batch := batchQueue;
      batchQueue := [];
      batchTimer := None;
    }

    method Close() returns (failed: seq<nat>, stopped: Option<nat>)
      modifies this
      ensures failed == old(batchQueue) && stopped == old(batchTimer) && Abs() == Core([], None)
    {
      stopped := None;
      if batchTimer.Some? {
        stopped := batchTimer;
        batchTimer := None;
      }
      failed := [];
      for i := 0 to |batchQueue|
        invariant failed == batchQueue[..i] && batchQueue == old(batchQueue) && batchTimer == None
      {
        failed := failed + [batchQueue[i]];
      }
      batchQueue := [];
    }
  }

  /** One frame per query, one after another. */
  function Frames(batch: seq<bytes>): bytes {
    if batch == [] then [] else Frames(batch[..|batch| - 1]) + BE(|batch[|batch| - 1]|, 2) + batch[|batch| - 1]
  }

  method BuildFrames(batch: seq<bytes>) returns (buf: bytes)
    ensures buf == Frames(batch)
  {
    hide BE;
    buf := [];
    for i := 0 to |batch|
      invariant buf == Frames(batch[..i])
    {
      buf := buf + BE(|batch[i]|, 2);
      buf := buf + batch[i];
      assert batch[..i + 1][..i] == batch[..i];
    }
    assert batch[..|batch|] == batch;
  }

  /** The queries of a stream of frames. */
  function Unframed(b: bytes): Option<seq<bytes>>
    decreases |b|
  {
    if b == [] then Some([])
    else if |b| < 2 || |b| < 2 + Val(b[..2]) then None
    else Continue([b[2..2 + Val(b[..2])]], Unframed(b[2 + Val(b[..2])..]))
  }

  /** A batch written in one piece is still the queries one by one. */
  lemma {:induction false} FramesRead(batch: seq<bytes>, after: bytes)
    requires forall i :: 0 <= i < |batch| ==> |batch[i]| < U16
    ensures Unframed(Frames(batch) + after) == Continue(batch, Unframed(after))
  {
    if batch == [] {
      assert [] + after == after;
      ContinueEmpty(Unframed(after));
    } else {
      var front, last := batch[..|batch| - 1], batch[|batch| - 1];
      var tail := BE(|last|, 2) + last + after;
      FramesRead(front, tail);
      assert Frames(batch) + after == Frames(front) + tail;
      hide Frames, BE, Val;
      FrameReads(last, after);
      ContinueTwice(front, [last], Unframed(after));
      assert front + [last] == batch;
    }
  }

  lemma FrameReads(q: bytes, after: bytes)
    requires |q| < U16
    ensures Unframed(BE(|q|, 2) + q + after) == Continue([q], Unframed(after))
  {
    hide BE, Val;
    var b := BE(|q|, 2) + q + after;
    Widths();
    FieldReads(|q|, 2, [], q + after);
    assert b == [] + BE(|q|, 2) + (q + after);
    assert b[2..2 + |q|] == q && b[2 + |q|..] == after;
  }

  // ---------- the world ----------

  datatype Result = Response(data: bytes) | Failure

  /**
   A channel's registrations by transaction number, and what its reader handed to each query;
   `None` is the closing signal.
   */
  datatype Channel = Channel(pending: map<nat, nat>, inbox: map<nat, Option<bytes>>)

  /** A flush under way: the channel it uses, and how many queries of its batch are registered. */
  datatype Progress = Progress(channel: nat, next: nat)

  datatype World = World(
    submitted: seq<bytes>,
    core: Core,
    timers: set<nat>,
    nextTimer: nat,
    groups: seq<seq<nat>>,
    unflushed: set<nat>,
    flushing: map<nat, Progress>,
    settled: set<nat>,
    waiting: map<nat, nat>,
    channels: map<nat, Channel>,
    results: seq<(nat, Result)>)

  /** `late` says that a stopped timer had fired already, so that its callback still runs. */
  datatype Event =
    | SubmitEvent(query: bytes, late: bool)
    | TimerEvent(timer: nat)
    | CloseEvent(late: bool)
    | NoChannelEvent(group: nat)
    | FlushEvent(group: nat, channel: nat)
    | RegisterEvent(group: nat)
    | ReadEvent(channel: nat, response: bytes)
    | EndEvent(channel: nat)
    | AnswerEvent(id: nat)
    | GiveUpEvent(id: nat)

  const START := World([], Core([], None), {}, 0, [], {}, map[], {}, map[], map[], [])

  function Stopped(timers: set<nat>, timer: Option<nat>, late: bool): set<nat> {
    if timer.None? || late then timers else timers - {timer.value}
  }

  /** The batch leaves the queue and waits to be flushed. */
  function Leave(w: World, batch: seq<nat>): World {
    if batch == [] then w else w.(groups := w.groups + [batch], unflushed := w.unflushed + {|w.groups|})
  }

  function Failures(ids: seq<nat>): seq<(nat, Result)> {
    seq(|ids|, i requires 0 <= i < |ids| => (ids[i], Failure))
  }

  function ChannelOf(w: World, c: nat): Channel {
    if c in w.channels then w.channels[c] else Channel(map[], map[])
  }

  predicate HasNumber(q: bytes) {
    |q| >= 2
  }

  function NumberOf(q: bytes): nat
    requires HasNumber(q)
  {
    Val(q[..2])
  }

  /** A query sent alone must be a whole message; in a batch it needs a transaction number to be waited for. */
  predicate Waits(w: World, g: seq<nat>, id: nat) {
    id < |w.submitted| && |w.submitted[id]| >= if |g| == 1 then 12 else 2
  }

  /** A flush has a channel and starts registering its queries. */
  function Flush(w: World, k: nat, c: nat): World {
    w.(unflushed := w.unflushed - {k}, flushing := w.flushing[k := Progress(c, 0)])
  }

  /** A flush registers its next query; an equal number is taken over from an earlier one. */
  function Register(w: World, k: nat): World
    requires k in w.flushing && k < |w.groups| && w.flushing[k].next < |w.groups[k]|
  {
    var g, p := w.groups[k], w.flushing[k];
    var id := g[p.next];
    var v := w.(flushing := w.flushing[k := p.(next := p.next + 1)], settled := w.settled + {id});
    if Waits(w, g, id) then
      var ch := ChannelOf(w, p.channel);
      v.(waiting := w.waiting[id := p.channel],
         channels := w.channels[p.channel := ch.(pending := ch.pending[NumberOf(w.submitted[id]) := id])])
    else if |g| == 1 then v.(results := w.results + [(id, Failure)])
    else v
  }

  function Read(w: World, c: nat, response: bytes): World {
    var ch := ChannelOf(w, c);
    if !HasNumber(response) || NumberOf(response) !in ch.pending then w
    else
      var id := ch.pending[NumberOf(response)];
      w.(channels := w.channels[c := Channel(ch.pending - {NumberOf(response)},
                                             if id in ch.inbox then ch.inbox else ch.inbox[id := Some(response)])])
  }

  /** The reader stops: everyone registered gets the closing signal, unless an answer is there already. */
  function End(w: World, c: nat): World {
    var ch := ChannelOf(w, c);
    w.(channels := w.channels[c := Channel(map[], (map id | id in ch.pending.Values :: None) + ch.inbox)])
  }

  /** A waiting query ends with a result and gives up its transaction number. */
  function Settle(w: World, id: nat, r: Result): World
    requires id in w.waiting
  {
    var c := w.waiting[id];
    var ch := ChannelOf(w, c);
    var pending := if id < |w.submitted| && HasNumber(w.submitted[id]) then ch.pending - {NumberOf(w.submitted[id])}
                   else ch.pending;
    w.(waiting := w.waiting - {id}, channels := w.channels[c := ch.(pending := pending)],
       results := w.results + [(id, r)])
  }

  function Step(w: World, e: Event): World {
    match e
    case SubmitEvent(query, late) =>
      var id := |w.submitted|;
      var s := Submit(w.core, id, w.nextTimer);
      var v := w.(submitted := w.submitted + [query], core := s.core, nextTimer := w.nextTimer + 1,
                  timers := Stopped(w.timers, s.stopped, late) + if s.started then {w.nextTimer} else {});
      Leave(v, s.flush)
    case TimerEvent(timer) =>
      if timer !in w.timers then w
      else Leave(w.(core := Core([], None), timers := w.timers - {timer}), w.core.queue)
    case CloseEvent(late) =>
      var failed := w.core.queue;
      w.(core := Core([], None), timers := Stopped(w.timers, w.core.timer, late), groups := w.groups + [failed],
         settled := w.settled + (set id | id in failed), results := w.results + Failures(failed))
    case NoChannelEvent(k) =>
      if k !in w.unflushed || k >= |w.groups| then w
      else w.(unflushed := w.unflushed - {k}, settled := w.settled + (set id | id in w.groups[k]),
              results := w.results + Failures(w.groups[k]))
    case FlushEvent(k, c) => if k !in w.unflushed || k >= |w.groups| then w else Flush(w, k, c)
    case RegisterEvent(k) =>
      if k !in w.flushing || k >= |w.groups| || w.flushing[k].next >= |w.groups[k]| then w else Register(w, k)
    case ReadEvent(c, response) => Read(w, c, response)
    case EndEvent(c) => End(w, c)
    case AnswerEvent(id) =>
      if id !in w.waiting || id !in ChannelOf(w, w.waiting[id]).inbox then w
      else
        var got := ChannelOf(w, w.waiting[id]).inbox[id];
        Settle(w, id, if got.Some? then Response(got.value) else Failure)
    case GiveUpEvent(id) => if id !in w.waiting then w else Settle(w, id, Failure)
  }

  function Run(events: seq<Event>): World {
    if events == [] then START else Step(Run(events[..|events| - 1]), events[|events| - 1])
  }

  // ---------- a queue that is not empty has a timer ----------

  /** The running timer is outstanding, and there is one whenever something is queued. */
  ghost predicate Timed(w: World) {
    && (w.core.timer.Some? ==> w.core.timer.value in w.timers)
    && (w.core.queue != [] ==> w.core.timer.Some?)
    && |w.core.queue| < MAX_QUERIES
  }

  // ---------- every query leaves the queue once, in order ----------

  function Total(groups: seq<seq<nat>>): nat {
    if groups == [] then 0 else Total(groups[..|groups| - 1]) + |groups[|groups| - 1]|
  }

  ghost predicate IsRange(ids: seq<nat>, first: nat) {
    forall i :: 0 <= i < |ids| ==> ids[i] == first + i
  }

  /** The groups are consecutive ranges from 0, and the queue is the range after them. */
  ghost predicate Ranges(groups: seq<seq<nat>>) {
    forall k :: 0 <= k < |groups| ==> IsRange(groups[k], Total(groups[..k]))
  }

  ghost predicate InOrder(w: World) {
    && Ranges(w.groups) && IsRange(w.core.queue, Total(w.groups)) && Total(w.groups) + |w.core.queue| == |w.submitted|
    && forall k :: 0 <= k < |w.groups| ==> |w.groups[k]| <= MAX_QUERIES
  }

  lemma {:induction false} TotalLast(groups: seq<seq<nat>>, g: seq<nat>)
    ensures Total(groups + [g]) == Total(groups) + |g|
  {
    assert (groups + [g])[..|groups|] == groups;
  }

  lemma {:induction false} TotalGrows(groups: seq<seq<nat>>, j: nat, k: nat)
    requires j <= k <= |groups|
    ensures Total(groups[..j]) <= Total(groups[..k])
    decreases k - j
  {
    if j < k {
      TotalGrows(groups, j, k - 1);
      assert groups[..k][..k - 1] == groups[..k - 1];
    }
  }

  lemma RangesLast(groups: seq<seq<nat>>, g: seq<nat>)
    requires Ranges(groups) && IsRange(g, Total(groups))
    ensures Ranges(groups + [g])
  {
    var all := groups + [g];
    forall k | 0 <= k < |all| ensures IsRange(all[k], Total(all[..k])) {
      assert all[..k] == groups[..k];
      if k == |groups| { assert groups[..k] == groups; }
    }
  }

  /** A query is in one group only, and not in the queue. */
  lemma Apart(w: World, j: nat, k: nat, id: nat)
    requires InOrder(w) && j < |w.groups| && id in w.groups[j]
    ensures id < Total(w.groups) && (k < |w.groups| && id in w.groups[k] ==> j == k)
  {
    Within(w.groups, j, id);
    TotalGrows(w.groups, j + 1, |w.groups|);
    assert w.groups[..|w.groups|] == w.groups;
    if k < |w.groups| && id in w.groups[k] {
      Within(w.groups, k, id);
      if j < k { TotalGrows(w.groups, j + 1, k); }
      if k < j { TotalGrows(w.groups, k + 1, j); }
    }
  }

  lemma Within(groups: seq<seq<nat>>, k: nat, id: nat)
    requires Ranges(groups) && k < |groups| && id in groups[k]
    ensures Total(groups[..k]) <= id < Total(groups[..k + 1])
  {
    assert groups[..k + 1][..k] == groups[..k];
    var i :| 0 <= i < |groups[k]| && groups[k][i] == id;
  }

  // ---------- every query gets at most one result ----------

  ghost predicate NotSettled(ids: seq<nat>, settled: set<nat>) {
    forall i :: 0 <= i < |ids| ==> ids[i] !in settled
  }

  ghost predicate Once(results: seq<(nat, Result)>) {
    forall i, j :: 0 <= i < j < |results| ==> results[i].0 != results[j].0
  }

  /** Where in its batch a group's first query stands that is not settled yet. */
  ghost predicate OpenFrom(w: World, k: nat, n: nat) {
    (k in w.unflushed && n == 0) || (k in w.flushing && n == w.flushing[k].next)
  }

  ghost predicate GroupOpen(groups: seq<seq<nat>>, settled: set<nat>, k: nat, n: nat) {
    k < |groups| && n <= |groups[k]| && NotSettled(groups[k][n..], settled)
  }

  /**
   Results and waiting queries are settled ones and apart from each other; what is queued or not
   yet registered is not settled.
   */
  ghost predicate Staged(w: World) {
    && (forall k, n :: OpenFrom(w, k, n) ==> GroupOpen(w.groups, w.settled, k, n))
    && (forall k :: k in w.unflushed ==> k !in w.flushing)
    && (forall id :: id in w.settled ==> id < Total(w.groups))
    && (forall i :: 0 <= i < |w.results| ==> w.results[i].0 in w.settled && w.results[i].0 !in w.waiting)
    && (forall id :: id in w.waiting ==> id in w.settled)
    && Once(w.results)
  }

  // ---------- an answer carries the query's own number ----------

  predicate SameNumber(q: bytes, response: bytes) {
    |q| >= 2 && |response| >= 2 && q[..2] == response[..2]
  }

  ghost predicate ChannelOk(ch: Channel, submitted: seq<bytes>) {
    && (forall n :: n in ch.pending ==>
          && ch.pending[n] < |submitted| && HasNumber(submitted[ch.pending[n]])
          && NumberOf(submitted[ch.pending[n]]) == n)
    && (forall id :: id in ch.inbox && ch.inbox[id].Some? ==>
          id < |submitted| && SameNumber(submitted[id], ch.inbox[id].value))
  }

  ghost predicate Answered(w: World) {
    && (forall c :: c in w.channels ==> ChannelOk(w.channels[c], w.submitted))
    && (forall i :: 0 <= i < |w.results| && w.results[i].1.Response? ==>
          w.results[i].0 < |w.submitted| && SameNumber(w.submitted[w.results[i].0], w.results[i].1.data))
  }

  ghost predicate Inv(w: World) {
    Timed(w) && InOrder(w) && Staged(w) && Answered(w)
  }

  // ---------- the steps keep it ----------

  lemma TimedKeeps(w: World, e: Event)
    requires Timed(w)
    ensures Timed(Step(w, e))
  {
    hide Failures;
  }

  lemma LeaveInOrder(w: World, batch: seq<nat>)
    requires Ranges(w.groups) && IsRange(batch, Total(w.groups)) && |batch| <= MAX_QUERIES
    requires w.core.queue == [] && Total(w.groups) + |batch| == |w.submitted|
    requires forall k :: 0 <= k < |w.groups| ==> |w.groups[k]| <= MAX_QUERIES
    ensures InOrder(w.(groups := w.groups + [batch]))
  {
    TotalLast(w.groups, batch);
    RangesLast(w.groups, batch);
  }

  lemma InOrderKeeps(w: World, e: Event)
    requires Timed(w) && InOrder(w)
    ensures InOrder(Step(w, e))
  {
    hide Failures, Total, Ranges;
    match e
    case SubmitEvent(query, late) =>
      var s := Submit(w.core, |w.submitted|, w.nextTimer);
      if s.flush != [] {
        LeaveInOrder(w.(submitted := w.submitted + [query], core := s.core), s.flush);
      }
    case TimerEvent(timer) =>
      if w.core.queue != [] { LeaveInOrder(w.(core := Core([], None)), w.core.queue); }
    case CloseEvent(late) =>
      LeaveInOrder(w.(core := Core([], None)), w.core.queue);
    case _ =>
  }

  /** A batch that leaves the queue was not settled before. */
  lemma LeaveStaged(w: World, batch: seq<nat>)
    requires Staged(w) && IsRange(batch, Total(w.groups))
    ensures Staged(w.(groups := w.groups + [batch], unflushed := w.unflushed + {|w.groups|}))
    ensures NotSettled(batch, w.settled)
  {
    hide Total;
    TotalLast(w.groups, batch);
    var v := w.(groups := w.groups + [batch], unflushed := w.unflushed + {|w.groups|});
    forall k: nat, n: nat | OpenFrom(v, k, n) ensures GroupOpen(v.groups, v.settled, k, n) {
      if k == |w.groups| {
        NotFlushing(w);
        assert v.groups[k][0..] == batch;
      } else {
        assert OpenFrom(w, k, n) && v.groups[k] == w.groups[k];
      }
    }
    NotFlushing(w);
  }

  lemma NotFlushing(w: World)
    requires Staged(w)
    ensures |w.groups| !in w.flushing
  {
    hide Total;
    assert |w.groups| in w.flushing ==> OpenFrom(w, |w.groups|, w.flushing[|w.groups|].next);
  }

  /** Results for a group that was not settled, each query once. */
  lemma FailedStaged(w: World, unflushed: set<nat>, k: nat)
    requires InOrder(w) && Staged(w) && k < |w.groups| && NotSettled(w.groups[k], w.settled)
    requires unflushed <= w.unflushed && k !in unflushed && k !in w.flushing
    ensures Staged(w.(unflushed := unflushed, settled := w.settled + (set id | id in w.groups[k]),
                      results := w.results + Failures(w.groups[k])))
  {
    hide Total, Ranges, Failures, GroupOpen;
    RangeDistinct(w, k);
    var ids := set id | id in w.groups[k];
    var v := w.(unflushed := unflushed, settled := w.settled + ids);
    forall j, n | OpenFrom(v, j, n) ensures GroupOpen(v.groups, v.settled, j, n) {
      assert OpenFrom(w, j, n) && j != k;
      OthersStayOpen(w, j, n, k, ids);
    }
    FailedOnce(w, k);
  }

  lemma FailedOnce(w: World, k: nat)
    requires InOrder(w) && Staged(w) && k < |w.groups| && NotSettled(w.groups[k], w.settled)
    ensures Once(w.results + Failures(w.groups[k]))
    ensures var results := w.results + Failures(w.groups[k]);
            forall i :: 0 <= i < |results| ==>
              results[i].0 in w.settled + (set id | id in w.groups[k]) && results[i].0 !in w.waiting
  {
    hide Total, Ranges, GroupOpen;
    var g := w.groups[k];
    RangeDistinct(w, k);
    var results := w.results + Failures(g);
    forall i | 0 <= i < |results| ensures results[i].0 in w.settled + (set id | id in g) && results[i].0 !in w.waiting {
      if i >= |w.results| { assert results[i].0 == g[i - |w.results|] && g[i - |w.results|] in g; }
    }
    forall i, j | 0 <= i < j < |results| ensures results[i].0 != results[j].0 {
      if j >= |w.results| { assert results[j].0 == g[j - |w.results|]; }
      if i >= |w.results| { assert results[i].0 == g[i - |w.results|]; }
    }
  }

  lemma RangeDistinct(w: World, k: nat)
    requires InOrder(w) && k < |w.groups|
    ensures forall i, j :: 0 <= i < j < |w.groups[k]| ==> w.groups[k][i] != w.groups[k][j]
    ensures forall id :: id in w.groups[k] ==> id < Total(w.groups)
  {
    forall id | id in w.groups[k] ensures id < Total(w.groups) { Apart(w, k, k, id); }
  }

  /** Settling queries of one group leaves the others open. */
  lemma OthersStayOpen(w: World, j: nat, n: nat, k: nat, ids: set<nat>)
    requires InOrder(w) && GroupOpen(w.groups, w.settled, j, n) && k < |w.groups| && j != k
    requires forall id :: id in ids ==> id in w.groups[k]
    ensures GroupOpen(w.groups, w.settled + ids, j, n)
  {
    hide Total, Ranges;
    var rest := w.groups[j][n..];
    forall i | 0 <= i < |rest| ensures rest[i] !in w.settled + ids {
      assert rest[i] == w.groups[j][n + i];
      Apart(w, j, k, rest[i]);
    }
  }

  /** Settling the next query of a group leaves the rest of it open. */
  lemma RestStaysOpen(w: World, k: nat, n: nat)
    requires InOrder(w) && GroupOpen(w.groups, w.settled, k, n) && n < |w.groups[k]|
    ensures GroupOpen(w.groups, w.settled + {w.groups[k][n]}, k, n + 1)
    ensures w.groups[k][n] !in w.settled
  {
    hide Total, Ranges;
    RangeDistinct(w, k);
    var g := w.groups[k];
    assert g[n..][0] == g[n];
    var rest := g[n + 1..];
    forall i | 0 <= i < |rest| ensures rest[i] !in w.settled + {g[n]} {
      assert rest[i] == g[n..][i + 1] == g[n + 1 + i];
    }
  }

  lemma FlushStaged(w: World, k: nat, c: nat)
    requires InOrder(w) && Staged(w) && k in w.unflushed
    ensures Staged(Flush(w, k, c))
  {
    hide Total, Ranges, GroupOpen;
    var v := Flush(w, k, c);
    forall j, n | OpenFrom(v, j, n) ensures GroupOpen(v.groups, v.settled, j, n) { assert OpenFrom(w, j, n); }
  }

  /** Registering settles one query of the group and leaves the rest open. */
  lemma RegisterStaged(w: World, k: nat)
    requires InOrder(w) && Staged(w) && k in w.flushing && k < |w.groups| && w.flushing[k].next < |w.groups[k]|
    ensures Staged(Register(w, k))
  {
    hide Total, Ranges, GroupOpen, Waits, NumberOf;
    var id, v, at := w.groups[k][w.flushing[k].next], Register(w, k), w.flushing[k].next;
    assert OpenFrom(w, k, at);
    RestStaysOpen(w, k, at);
    RangeDistinct(w, k);
    assert id in w.groups[k];
    forall j, n | OpenFrom(v, j, n) ensures GroupOpen(v.groups, v.settled, j, n) {
      if j != k {
        assert OpenFrom(w, j, n);
        OthersStayOpen(w, j, n, k, {id});
      }
    }
  }

  lemma StagedKeeps(w: World, e: Event)
    requires Timed(w) && InOrder(w) && Staged(w)
    ensures Staged(Step(w, e))
  {
    hide Total, Ranges, Failures, Waits, Settle, NotSettled, Register, Flush, OpenFrom;
    match e
    case SubmitEvent(query, late) =>
      SubmitStaged(w, e);
    case TimerEvent(timer) => TimerStaged(w, e);
    case CloseEvent(late) => CloseStaged(w, e);
    case NoChannelEvent(k) =>
      if k in w.unflushed { WholeOpen(w, k); FailedStaged(w, w.unflushed - {k}, k); }
    case FlushEvent(k, c) =>
      if k in w.unflushed { FlushStaged(w, k, c); }
    case RegisterEvent(k) =>
      if k in w.flushing && k < |w.groups| && w.flushing[k].next < |w.groups[k]| { RegisterStaged(w, k); }
    case ReadEvent(c, response) => SameStage(w, Read(w, c, response));
    case EndEvent(c) => SameStage(w, End(w, c));
    case AnswerEvent(id) =>
      if id in w.waiting { SettleStaged(w, id); }
    case GiveUpEvent(id) =>
      if id in w.waiting { SettleStaged(w, id); }
  }

  lemma WholeOpen(w: World, k: nat)
    requires Staged(w) && k in w.unflushed
    ensures k < |w.groups| && NotSettled(w.groups[k], w.settled) && k !in w.flushing
  {
    hide Total;
    assert OpenFrom(w, k, 0);
    assert w.groups[k][0..] == w.groups[k];
  }

  /** What a world's stage depends on. */
  lemma SameStage(w: World, v: World)
    requires Staged(w)
    requires v.groups == w.groups && v.unflushed == w.unflushed && v.flushing == w.flushing
    requires v.settled == w.settled && v.waiting == w.waiting && v.results == w.results
    ensures Staged(v)
  {
    hide Total, GroupOpen;
    forall j, n | OpenFrom(v, j, n) ensures GroupOpen(v.groups, v.settled, j, n) { assert OpenFrom(w, j, n); }
  }

  lemma SubmitStaged(w: World, e: Event)
    requires Timed(w) && InOrder(w) && Staged(w) && e.SubmitEvent?
    ensures Staged(Step(w, e))
  {
    hide Total, Ranges, Staged;
    var s := Submit(w.core, |w.submitted|, w.nextTimer);
    if s.flush != [] {
      LeaveStaged(w, s.flush);
      SameStage(w.(groups := w.groups + [s.flush], unflushed := w.unflushed + {|w.groups|}), Step(w, e));
    } else {
      SameStage(w, Step(w, e));
    }
  }

  lemma TimerStaged(w: World, e: Event)
    requires InOrder(w) && Staged(w) && e.TimerEvent?
    ensures Staged(Step(w, e))
  {
    hide Total, Ranges, Staged;
    LeaveStaged(w, w.core.queue);
    if w.core.queue == [] || e.timer !in w.timers {
      SameStage(w, Step(w, e));
    } else {
      SameStage(w.(groups := w.groups + [w.core.queue], unflushed := w.unflushed + {|w.groups|}), Step(w, e));
    }
  }

  lemma SettleStaged(w: World, id: nat)
    requires Staged(w) && id in w.waiting
    ensures forall r :: Staged(Settle(w, id, r))
  {
    hide Total, GroupOpen;
    forall r ensures Staged(Settle(w, id, r)) {
      var v := Settle(w, id, r);
      forall j, n | OpenFrom(v, j, n) ensures GroupOpen(v.groups, v.settled, j, n) { assert OpenFrom(w, j, n); }
    }
  }

  lemma CloseStaged(w: World, e: Event)
    requires Timed(w) && InOrder(w) && Staged(w) && e.CloseEvent?
    ensures Staged(Step(w, e))
  {
    hide Total, Ranges, Failures, Staged;
    var failed := w.core.queue;
    LeaveStaged(w, failed);
    LeaveInOrder(w.(core := Core([], None)), failed);
    var v := w.(groups := w.groups + [failed], unflushed := w.unflushed + {|w.groups|});
    var done := v.(core := Core([], None));
    SameStage(v, done);
    WholeOpen(done, |w.groups|);
    IsNew(w);
    FailedStaged(done, w.unflushed, |w.groups|);
    SameStage(done.(unflushed := w.unflushed, settled := w.settled + (set id | id in failed),
                    results := w.results + Failures(failed)), Step(w, e));
  }

  lemma IsNew(w: World)
    requires Staged(w)
    ensures |w.groups| !in w.unflushed
  {
    hide Total;
    assert |w.groups| in w.unflushed ==> OpenFrom(w, |w.groups|, 0);
  }

  lemma ChannelGrows(ch: Channel, submitted: seq<bytes>, q: bytes)
    requires ChannelOk(ch, submitted)
    ensures ChannelOk(ch, submitted + [q])
  {
  }

  lemma SameNumberIs(q: bytes, response: bytes)
    requires HasNumber(q) && HasNumber(response) && NumberOf(q) == NumberOf(response)
    ensures SameNumber(q, response)
  {
    BEVal(q[..2]);
    BEVal(response[..2]);
  }

  lemma ReadOk(w: World, c: nat, response: bytes)
    requires Answered(w)
    ensures Answered(Read(w, c, response))
  {
    hide NumberOf;
    var ch := ChannelOf(w, c);
    assert ChannelOk(ch, w.submitted);
    if HasNumber(response) && NumberOf(response) in ch.pending {
      SameNumberIs(w.submitted[ch.pending[NumberOf(response)]], response);
    }
  }

  lemma SubmitOk(w: World, query: bytes)
    requires Answered(w)
    ensures Answered(w.(submitted := w.submitted + [query]))
  {
    hide ChannelOk;
    forall c | c in w.channels ensures ChannelOk(w.channels[c], w.submitted + [query]) {
      ChannelGrows(w.channels[c], w.submitted, query);
    }
  }

  lemma FailuresOk(w: World, ids: seq<nat>)
    requires Answered(w)
    ensures Answered(w.(results := w.results + Failures(ids)))
  {
    hide ChannelOk;
  }

  lemma RegisterOk(w: World, k: nat)
    requires Answered(w) && k in w.flushing && k < |w.groups| && w.flushing[k].next < |w.groups[k]|
    ensures Answered(Register(w, k))
  {
    EmptyChannelOk(w.submitted);
    hide NumberOf, SameNumber;
    assert ChannelOk(ChannelOf(w, w.flushing[k].channel), w.submitted);
  }

  lemma EmptyChannelOk(submitted: seq<bytes>)
    ensures ChannelOk(Channel(map[], map[]), submitted)
  {
  }

  lemma EndOk(w: World, c: nat)
    requires Answered(w)
    ensures Answered(End(w, c))
  {
    hide NumberOf;
    assert ChannelOk(ChannelOf(w, c), w.submitted);
  }

  lemma SettleOk(w: World, id: nat, r: Result)
    requires Answered(w) && id in w.waiting
    requires r.Response? ==> id < |w.submitted| && SameNumber(w.submitted[id], r.data)
    ensures Answered(Settle(w, id, r))
  {
    hide NumberOf, SameNumber;
    assert ChannelOk(ChannelOf(w, w.waiting[id]), w.submitted);
  }

  lemma AnswerOk(w: World, id: nat)
    requires Answered(w) && id in w.waiting && id in ChannelOf(w, w.waiting[id]).inbox
    ensures var got := ChannelOf(w, w.waiting[id]).inbox[id];
            got.Some? ==> id < |w.submitted| && SameNumber(w.submitted[id], got.value)
  {
    hide NumberOf, SameNumber;
    assert ChannelOk(ChannelOf(w, w.waiting[id]), w.submitted);
  }

  lemma AnsweredKeeps(w: World, e: Event)
    requires Answered(w)
    ensures Answered(Step(w, e))
  {
    hide ChannelOk, Register, Read, End, Settle, SameNumber, ChannelOf, Failures;
    match e
    case SubmitEvent(query, late) => SubmitOk(w, query);
    case TimerEvent(timer) =>
    case CloseEvent(late) => FailuresOk(w, w.core.queue);
    case NoChannelEvent(k) =>
      if k < |w.groups| { FailuresOk(w, w.groups[k]); }
    case FlushEvent(k, c) =>
    case RegisterEvent(k) =>
      if k in w.flushing && k < |w.groups| && w.flushing[k].next < |w.groups[k]| { RegisterOk(w, k); }
    case ReadEvent(c, response) => ReadOk(w, c, response);
    case EndEvent(c) => EndOk(w, c);
    case AnswerEvent(id) =>
      if id in w.waiting && id in ChannelOf(w, w.waiting[id]).inbox {
        AnswerOk(w, id);
        var got := ChannelOf(w, w.waiting[id]).inbox[id];
        SettleOk(w, id, if got.Some? then Response(got.value) else Failure);
      }
    case GiveUpEvent(id) =>
      if id in w.waiting { SettleOk(w, id, Failure); }
  }

  lemma {:induction false} RunInv(events: seq<Event>)
    ensures Inv(Run(events))
  {
    hide Step, Timed, InOrder, Staged, Answered;
    if events == [] {
      StartInv();
    } else {
      var w, e := Run(events[..|events| - 1]), events[|events| - 1];
      RunInv(events[..|events| - 1]);
      TimedKeeps(w, e);
      InOrderKeeps(w, e);
      StagedKeeps(w, e);
      AnsweredKeeps(w, e);
    }
  }

  lemma StartInv()
    ensures Timed(START) && InOrder(START) && Staged(START) && Answered(START)
  {
  }

  // ---------- the theorems ----------

  function Flat(groups: seq<seq<nat>>): seq<nat> {
    if groups == [] then [] else Flat(groups[..|groups| - 1]) + groups[|groups| - 1]
  }

  lemma {:induction false} FlatIsRange(groups: seq<seq<nat>>)
    requires Ranges(groups)
    ensures |Flat(groups)| == Total(groups) && IsRange(Flat(groups), 0)
  {
    if groups != [] {
      var n := |groups| - 1;
      forall k | 0 <= k < n ensures IsRange(groups[..n][k], Total(groups[..n][..k])) {
        assert groups[..n][..k] == groups[..k];
      }
      FlatIsRange(groups[..n]);
    }
  }

  /**
   Nothing is lost: in every run a queue that is not empty has an outstanding timer, no batch
   is longer than 16, and the batches and close failures in order, followed by the queue, are
   the submitted queries, each once and in order of submission.
   */
  lemma NothingLost(events: seq<Event>)
    ensures var w := Run(events);
            && (w.core.queue != [] ==> w.core.timer.Some? && w.core.timer.value in w.timers)
            && (forall k :: 0 <= k < |w.groups| ==> |w.groups[k]| <= 16)
            && |Flat(w.groups) + w.core.queue| == |w.submitted|
            && forall i :: 0 <= i < |w.submitted| ==> (Flat(w.groups) + w.core.queue)[i] == i
  {
    hide Run, Staged, Answered;
    RunInv(events);
    FlatIsRange(Run(events).groups);
  }

  /** In every run a query gets at most one result, and an answer carries the query's own transaction number. */
  lemma AtMostOneResult(events: seq<Event>)
    ensures var w := Run(events);
            && (forall i, j :: 0 <= i < j < |w.results| ==> w.results[i].0 != w.results[j].0)
            && (forall i :: 0 <= i < |w.results| && w.results[i].1.Response? ==>
                  w.results[i].0 < |w.submitted| && SameNumber(w.submitted[w.results[i].0], w.results[i].1.data))
  {
    hide Run, Timed, InOrder;
    RunInv(events);
  }

  // ---------- an answer reaches its query ----------

  /** A registered query waits on its channel and has nothing in its inbox; what has something there is settled. */
  ghost predicate Reachable(w: World) {
    forall c :: c in w.channels ==>
      && (forall n :: n in w.channels[c].pending ==>
            var id := w.channels[c].pending[n];
            id in w.waiting && w.waiting[id] == c && id !in w.channels[c].inbox)
      && (forall id :: id in w.channels[c].inbox ==> id in w.settled)
  }

  lemma RegisterReaches(w: World, k: nat)
    requires Staged(w) && InOrder(w) && Reachable(w)
    requires k in w.flushing && k < |w.groups| && w.flushing[k].next < |w.groups[k]|
    ensures Reachable(Register(w, k))
  {
    hide Total, Ranges, Waits, NumberOf, Once;
    var at := w.flushing[k].next;
    var id := w.groups[k][at];
    assert OpenFrom(w, k, at);
    RestStaysOpen(w, k, at);
    assert id !in w.waiting;
  }

  lemma SettleReaches(w: World, id: nat, r: Result)
    requires Answered(w) && Reachable(w) && id in w.waiting
    ensures Reachable(Settle(w, id, r))
  {
    hide NumberOf, Answered;
    forall n | n in ChannelOf(w, w.waiting[id]).pending && ChannelOf(w, w.waiting[id]).pending[n] == id
      ensures id < |w.submitted| && HasNumber(w.submitted[id]) && NumberOf(w.submitted[id]) == n
    {
      OwnNumber(w, w.waiting[id], n);
    }
  }

  /** A query is registered under its own number. */
  lemma OwnNumber(w: World, c: nat, n: nat)
    requires Answered(w) && n in ChannelOf(w, c).pending
    ensures var id := ChannelOf(w, c).pending[n];
            id < |w.submitted| && HasNumber(w.submitted[id]) && NumberOf(w.submitted[id]) == n
  {
    hide NumberOf, SameNumber;
    assert ChannelOk(w.channels[c], w.submitted);
  }

  lemma ReadReaches(w: World, c: nat, response: bytes)
    requires Answered(w) && Reachable(w) && Staged(w)
    ensures Reachable(Read(w, c, response))
  {
    hide NumberOf, SameNumber, Total, Once;
    var ch := ChannelOf(w, c);
    if HasNumber(response) && NumberOf(response) in ch.pending {
      var id := ch.pending[NumberOf(response)];
      assert ChannelOk(w.channels[c], w.submitted);
      assert id in w.settled;
    }
  }

  lemma EndReaches(w: World, c: nat)
    requires Reachable(w) && Staged(w)
    ensures Reachable(End(w, c))
  {
    hide Total, Once;
  }

  /** Leaving the queue and failing touch no channel. */
  lemma SameReach(w: World, v: World)
    requires Reachable(w) && v.channels == w.channels && v.waiting == w.waiting && w.settled <= v.settled
    ensures Reachable(v)
  {
  }

  lemma ReachableKeeps(w: World, e: Event)
    requires Timed(w) && InOrder(w) && Staged(w) && Answered(w) && Reachable(w)
    ensures Reachable(Step(w, e))
  {
    hide Timed, InOrder, Staged, Answered, Reachable, Register, Read, End, Settle, Failures, ChannelOf;
    match e
    case SubmitEvent(query, late) => SameReach(w, Step(w, e));
    case TimerEvent(timer) => SameReach(w, Step(w, e));
    case CloseEvent(late) => SameReach(w, Step(w, e));
    case NoChannelEvent(k) => SameReach(w, Step(w, e));
    case FlushEvent(k, c) => SameReach(w, Step(w, e));
    case RegisterEvent(k) =>
      if k in w.flushing && k < |w.groups| && w.flushing[k].next < |w.groups[k]| { RegisterReaches(w, k); }
    case ReadEvent(c, response) => ReadReaches(w, c, response);
    case EndEvent(c) => EndReaches(w, c);
    case AnswerEvent(id) =>
      if id in w.waiting && id in ChannelOf(w, w.waiting[id]).inbox {
        var got := ChannelOf(w, w.waiting[id]).inbox[id];
        SettleReaches(w, id, if got.Some? then Response(got.value) else Failure);
      }
    case GiveUpEvent(id) =>
      if id in w.waiting { SettleReaches(w, id, Failure); }
  }

  lemma {:induction false} RunReachable(events: seq<Event>)
    ensures Reachable(Run(events))
  {
    hide Step, Timed, InOrder, Staged, Answered;
    if events != [] {
      RunReachable(events[..|events| - 1]);
      RunInv(events[..|events| - 1]);
      ReachableKeeps(Run(events[..|events| - 1]), events[|events| - 1]);
    }
  }

  /** The query that waits for a transaction number on a channel. */
  ghost predicate WaitsFor(w: World, c: nat, n: nat, id: nat) {
    c in w.channels && n in w.channels[c].pending && w.channels[c].pending[n] == id
  }

  /**
   In every run a response whose number is registered, once the query it is registered for takes
   it, is that query's result; and the closing of the channel instead is its failure.
   */
  lemma {:induction false} ResponseReaches(events: seq<Event>, c: nat, response: bytes, id: nat)
    requires |response| >= 2 && WaitsFor(Run(events), c, Val(response[..2]), id)
    ensures var w := Run(events);
            && Step(Step(w, ReadEvent(c, response)), AnswerEvent(id)).results == w.results + [(id, Response(response))]
            && Step(Step(w, EndEvent(c)), AnswerEvent(id)).results == w.results + [(id, Failure)]
  {
    hide Run, Val;
    RunReachable(events);
    var w, n := Run(events), Val(response[..2]);
    assert w.channels[c].pending[n] in w.channels[c].pending.Values;
  }

  /** The next query of a flush, if it can be waited for, is the one that waits for its number. */
  lemma RegisteredWaits(w: World, k: nat)
    requires k in w.flushing && k < |w.groups| && w.flushing[k].next < |w.groups[k]|
    requires var id := w.groups[k][w.flushing[k].next];
             id < |w.submitted| && |w.submitted[id]| >= if |w.groups[k]| == 1 then 12 else 2
    ensures var id := w.groups[k][w.flushing[k].next];
            WaitsFor(Step(w, RegisterEvent(k)), w.flushing[k].channel, Val(w.submitted[id][..2]), id)
  {
    hide Val;
  }
}
