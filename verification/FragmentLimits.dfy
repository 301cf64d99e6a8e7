/**
 How much the fragment buffer can take, and what that means for a message: which messages can
 come through at all, which come through when nothing is repeated, and which come through
 whatever is repeated.
 */
module FragmentLimits {
  import opened Bytes
  import opened RecordLayer
  import opened FragmentBuffer
  import opened Fragmentation

  // ---------- the data of stored fragments ----------

  /** The data stored for one offset. */
  function SumAt(frags: seq<Fragment>, o: nat): nat {
    if frags == [] then 0
    else
      var last := frags[|frags| - 1];
      SumAt(frags[..|frags| - 1], o) + if last.header.fragOffset == o then |last.data| else 0
  }

  /** The data stored from an offset on. */
  function SumFrom(frags: seq<Fragment>, o: nat): nat {
    if frags == [] then 0
    else
      var last := frags[|frags| - 1];
      SumFrom(frags[..|frags| - 1], o) + if last.header.fragOffset >= o then |last.data| else 0
  }

  lemma {:induction false} SumIsSize(frags: seq<Fragment>)
    ensures SumFrom(frags, 0) == FragmentsSize(frags)
  {
    if frags != [] { SumIsSize(frags[..|frags| - 1]); }
  }

  lemma FrontOf(frags: seq<Fragment>, m: Message, mtu: nat, epoch: nat)
    requires mtu > 0 && frags != [] && AllOf(frags, m, mtu, epoch)
    ensures AllOf(frags[..|frags| - 1], m, mtu, epoch) && FragmentOf(frags[|frags| - 1], m, mtu, epoch)
  {
    hide FragmentOf;
  }

  /** From a cut on, the data is that at the cut and that from the next one on. */
  lemma {:induction false} SumSplits(frags: seq<Fragment>, m: Message, mtu: nat, epoch: nat, o: nat)
    requires mtu > 0 && AllOf(frags, m, mtu, epoch) && IsCut(m, mtu, o)
    ensures SumFrom(frags, o) == SumAt(frags, o) + SumFrom(frags, o + mtu)
  {
    hide AllOf, IsCut;
    if frags != [] {
      var p := frags[|frags| - 1].header.fragOffset;
      FrontOf(frags, m, mtu, epoch);
      SumSplits(frags[..|frags| - 1], m, mtu, epoch, o);
      if p > o { CutsApart(m, mtu, o, p); }
    }
  }

  lemma {:induction false} NothingBeyond(frags: seq<Fragment>, m: Message, mtu: nat, epoch: nat, o: nat)
    requires mtu > 0 && AllOf(frags, m, mtu, epoch) && o >= |m.body| && o > 0
    ensures SumFrom(frags, o) == 0
  {
    hide AllOf;
    if frags != [] {
      FrontOf(frags, m, mtu, epoch);
      NothingBeyond(frags[..|frags| - 1], m, mtu, epoch, o);
    }
  }

  /** What the fragment at an offset carries. */
  function PieceSize(m: Message, mtu: nat, o: nat): nat {
    if o >= |m.body| then 0 else Min(mtu, |m.body| - o)
  }

  lemma {:induction false} SumAtLeast(frags: seq<Fragment>, m: Message, mtu: nat, epoch: nat, o: nat)
    requires mtu > 0 && AllOf(frags, m, mtu, epoch) && Holds(frags, o)
    ensures SumAt(frags, o) >= PieceSize(m, mtu, o)
  {
    hide AllOf;
    var f :| f in frags && f.header.fragOffset == o;
    FrontOf(frags, m, mtu, epoch);
    if frags[|frags| - 1] != f {
      assert f in frags[..|frags| - 1];
      SumAtLeast(frags[..|frags| - 1], m, mtu, epoch, o);
    }
  }

  /** All of a message is at least its body. */
  lemma {:induction false} CoversBody(frags: seq<Fragment>, m: Message, mtu: nat, epoch: nat, o: nat)
    requires mtu > 0 && AllOf(frags, m, mtu, epoch) && CompleteFrom(frags, m, mtu, o)
    requires IsCut(m, mtu, o) && o < |m.body|
    ensures SumFrom(frags, o) >= |m.body| - o
    decreases |m.body| - o
  {
    hide AllOf, CompleteFrom, Holds;
    CompleteFromNext(frags, m, mtu, o);
    SumAtLeast(frags, m, mtu, epoch, o);
    SumSplits(frags, m, mtu, epoch, o);
    if o + mtu < |m.body| { CoversBody(frags, m, mtu, epoch, o + mtu); }
  }

  /** No offset occurs twice. */
  ghost predicate Once(frags: seq<Fragment>) {
    forall i, j :: 0 <= i < j < |frags| ==> frags[i].header.fragOffset != frags[j].header.fragOffset
  }

  lemma {:induction false} SumAtNone(frags: seq<Fragment>, o: nat)
    requires forall i :: 0 <= i < |frags| ==> frags[i].header.fragOffset != o
    ensures SumAt(frags, o) == 0
  {
    if frags != [] { SumAtNone(frags[..|frags| - 1], o); }
  }

  lemma {:induction false} SumAtMost(frags: seq<Fragment>, m: Message, mtu: nat, epoch: nat, o: nat)
    requires mtu > 0 && AllOf(frags, m, mtu, epoch) && Once(frags)
    ensures SumAt(frags, o) <= PieceSize(m, mtu, o)
  {
    hide AllOf;
    if frags != [] {
      var front, last := frags[..|frags| - 1], frags[|frags| - 1];
      FrontOf(frags, m, mtu, epoch);
      if last.header.fragOffset == o { SumAtNone(front, o); } else { SumAtMost(front, m, mtu, epoch, o); }
    }
  }

  /** Fragments that occur once carry at most the body. */
  lemma {:induction false} WithinBody(frags: seq<Fragment>, m: Message, mtu: nat, epoch: nat, o: nat)
    requires mtu > 0 && AllOf(frags, m, mtu, epoch) && Once(frags) && IsCut(m, mtu, o) && o <= |m.body|
    ensures SumFrom(frags, o) <= |m.body| - o
    decreases |m.body| - o
  {
    hide AllOf, Once;
    SumAtMost(frags, m, mtu, epoch, o);
    SumSplits(frags, m, mtu, epoch, o);
    if o + mtu < |m.body| {
      WithinBody(frags, m, mtu, epoch, o + mtu);
    } else {
      NothingBeyond(frags, m, mtu, epoch, o + mtu);
    }
  }

  // ---------- the records that are kept ----------

  /** What is kept always leaves room for the headers that came with it. */
  lemma {:induction false} KeptFits(records: seq<bytes>)
    requires forall i :: 0 <= i < |records| ==> |records[i]| >= OVERHEAD
    ensures Kept(records) != [] ==> Carried(Kept(records)) + OVERHEAD < MAX_SIZE
  {
    if records != [] {
      var front, rec := records[..|records| - 1], records[|records| - 1];
      KeptFits(front);
      CarriedLast(Kept(front), rec);
    }
  }

  lemma {:induction false} KeptAreRecords(records: seq<bytes>)
    ensures forall i :: 0 <= i < |Kept(records)| ==> Kept(records)[i] in records
  {
    hide Carried;
    if records != [] {
      var front := records[..|records| - 1];
      KeptAreRecords(front);
      assert forall x :: x in front ==> x in records;
    }
  }

  lemma KeptArrived(m: Message, mtu: nat, records: seq<bytes>)
    requires mtu > 0 && AllArrived(m, mtu, Kept(records))
    ensures AllArrived(m, mtu, records)
  {
    hide Kept, Fragments;
    KeptAreRecords(records);
    forall x | x in Fragments(m, mtu) ensures Arrived(x, records) {
      var i :| 0 <= i < |Kept(records)| && |Kept(records)[i]| >= RECORD_HEADER &&
               Kept(records)[i][RECORD_HEADER..] == x;
      var j :| 0 <= j < |records| && records[j] == Kept(records)[i];
    }
  }

  /** The length of a fragment record, by the offset it carries. */
  lemma RecordAtCut(rec: bytes, m: Message, mtu: nat, epoch: nat) returns (o: nat)
    requires mtu > 0 && IsFragmentRecord(rec, m, mtu, epoch)
    ensures IsCut(m, mtu, o) && o <= |m.body| && (m.body != [] ==> o < |m.body|)
    ensures rec[RECORD_HEADER..] == FragmentAt(m, mtu, o) && |rec| == OVERHEAD + PieceSize(m, mtu, o)
  {
    hide EncodeHeader;
    o := FragmentsAtCuts(m, mtu, rec[RECORD_HEADER..]);
  }

  lemma RecordsLong(records: seq<bytes>, m: Message, mtu: nat, epoch: nat)
    requires mtu > 0 && FragmentRecords(records, m, mtu, epoch)
    ensures forall i :: 0 <= i < |records| ==> |records[i]| >= OVERHEAD
  {
    hide IsFragmentRecord;
    forall i | 0 <= i < |records| ensures |records[i]| >= OVERHEAD { var o := RecordAtCut(records[i], m, mtu, epoch); }
  }

  /** The fragments a buffer holds after the records, and how much they carry. */
  lemma KeptFragments(records: seq<bytes>, m: Message, mtu: nat, epoch: nat) returns (frags: seq<Fragment>)
    requires mtu > 0 && Sendable(m) && FragmentRecords(records, m, mtu, epoch)
    ensures Stored(frags, Kept(records), m, mtu, epoch) && AllOf(frags, m, mtu, epoch)
    ensures FragmentsSize(frags) == Carried(Kept(records))
  {
    RecordsTracked(records, m, mtu, epoch);
    hide FragmentOf, FragmentAt, Kept, Carried, FragmentsSize, Size, PushedAll, Filed, FragmentRecords;
    frags := Entry(PushedAll(Buffer(map[], m.seqNum), records).cache, m.seqNum);
  }

  /** A message of which everything was kept fits the buffer together with one pair of headers. */
  lemma KeptWholeFits(records: seq<bytes>, m: Message, mtu: nat, epoch: nat)
    requires mtu > 0 && Sendable(m) && FragmentRecords(records, m, mtu, epoch) && AllArrived(m, mtu, Kept(records))
    ensures |m.body| + OVERHEAD < MAX_SIZE
  {
    assert Fragments(m, mtu)[0] in Fragments(m, mtu);
    hide Fragments, Kept, FragmentOf, Stored, AllOf, Complete, CompleteFrom;
    var frags := KeptFragments(records, m, mtu, epoch);
    CompleteIfArrived(frags, Kept(records), m, mtu, epoch);
    WholeFromStart(frags, m, mtu);
    if m.body != [] {
      CoversBody(frags, m, mtu, epoch, 0);
      SumIsSize(frags);
      RecordsLong(records, m, mtu, epoch);
      KeptFits(records);
    }
  }

  lemma WholeFromStart(frags: seq<Fragment>, m: Message, mtu: nat)
    requires mtu > 0 && Complete(frags, m, mtu)
    ensures CompleteFrom(frags, m, mtu, 0)
  {
  }

  // ---------- nothing repeated ----------

  /** No fragment is carried by two records. */
  ghost predicate NoRepeats(records: seq<bytes>) {
    && (forall i :: 0 <= i < |records| ==> |records[i]| >= RECORD_HEADER)
    && forall i, j :: 0 <= i < j < |records| ==> records[i][RECORD_HEADER..] != records[j][RECORD_HEADER..]
  }

  lemma StoredOnce(frags: seq<Fragment>, records: seq<bytes>, m: Message, mtu: nat, epoch: nat)
    requires mtu > 0 && Stored(frags, records, m, mtu, epoch) && NoRepeats(records)
    ensures Once(frags) && AllOf(frags, m, mtu, epoch)
  {
    hide FragmentOf, FragmentAt;
  }

  lemma NoRepeatsFront(records: seq<bytes>)
    requires records != [] && NoRepeats(records)
    ensures NoRepeats(records[..|records| - 1])
  {
  }

  /** A buffer that holds other fragments of a message that fits has room for one more. */
  lemma RoomForOneMore(frags: seq<Fragment>, front: seq<bytes>, rec: bytes, m: Message, mtu: nat, epoch: nat)
    requires mtu > 0 && Sendable(m) && Stored(frags, front, m, mtu, epoch) && FragmentsSize(frags) == Carried(front)
    requires IsFragmentRecord(rec, m, mtu, epoch) && NoRepeats(front + [rec]) && |m.body| + OVERHEAD < MAX_SIZE
    ensures Carried(front) + |rec| < MAX_SIZE
  {
    hide Stored, IsFragmentRecord, FragmentOf, FragmentAt, Carried, NoRepeats, Once, AllOf, Pushed, Size;
    LongEnough(rec, m, mtu, epoch);
    var f := PushFragmentRecord(Buffer(map[], m.seqNum), rec, m, mtu, epoch);
    RecordLength(rec, f, m, mtu, epoch);
    StoredNext(frags, front, rec, f, m, mtu, epoch);
    StoredOnce(frags + [f], front + [rec], m, mtu, epoch);
    WithinBody(frags + [f], m, mtu, epoch, 0);
    SumIsSize(frags + [f]);
    assert (frags + [f])[..|frags|] == frags;
  }

  /** Of a message that fits, everything is kept when nothing is repeated. */
  lemma {:induction false} AllKept(records: seq<bytes>, m: Message, mtu: nat, epoch: nat)
    requires mtu > 0 && Sendable(m) && FragmentRecords(records, m, mtu, epoch) && NoRepeats(records)
    requires |m.body| + OVERHEAD < MAX_SIZE
    ensures Kept(records) == records
  {
    hide Carried, NoRepeats, IsFragmentRecord, Stored, AllOf;
    if records != [] {
      var front, rec := records[..|records| - 1], records[|records| - 1];
      FrontAndLast(records);
      NoRepeatsFront(records);
      AllKept(front, m, mtu, epoch);
      var frags := KeptFragments(front, m, mtu, epoch);
      RoomForOneMore(frags, front, rec, m, mtu, epoch);
    }
  }

  /** What comes out is the message. */
  ghost predicate ComesOut(records: seq<bytes>, m: Message, epoch: nat)
    requires Sendable(m)
  {
    StaysFiled(records, m);
    Popped(PushedAll(Buffer(map[], m.seqNum), records)).1 == Some((WholeMessage(m), epoch))
  }

  lemma ComesOutIfKept(records: seq<bytes>, m: Message, mtu: nat, epoch: nat)
    requires mtu > 0 && Sendable(m) && FragmentRecords(records, m, mtu, epoch)
    ensures ComesOut(records, m, epoch) <==> AllArrived(m, mtu, Kept(records))
  {
    hide AllArrived, Kept, PushedAll, WholeMessage, Sendable, FragmentRecords, Filed, Popped;
    FragmentRoundTrip(records, m, mtu, epoch);
  }

  /**
   Without repetitions, in any order, a message comes out exactly when every fragment is among
   the records and its body and two headers are below 2,000,000 bytes.
   */
  lemma WithoutRepeats(records: seq<bytes>, m: Message, mtu: nat, epoch: nat)
    requires mtu > 0 && Sendable(m) && FragmentRecords(records, m, mtu, epoch) && NoRepeats(records)
    ensures ComesOut(records, m, epoch) <==> AllArrived(m, mtu, records) && |m.body| + OVERHEAD < MAX_SIZE
  {
    hide AllArrived, Kept, ComesOut, FragmentRecords, NoRepeats;
    ComesOutIfKept(records, m, mtu, epoch);
    if |m.body| + OVERHEAD < MAX_SIZE { AllKept(records, m, mtu, epoch); }
    if AllArrived(m, mtu, Kept(records)) {
      KeptArrived(m, mtu, records);
      KeptWholeFits(records, m, mtu, epoch);
    }
  }

  // ---------- which messages can come through ----------

  function RecordFor(epoch: nat, fragment: bytes): bytes {
    EncodeRecordHeader(RecordHeader(HANDSHAKE, 0xfe, 0xfd, epoch, 0, [], 0)) + fragment
  }

  lemma RecordForReads(epoch: nat, m: Message, mtu: nat, fragment: bytes)
    requires mtu > 0 && epoch < U16 && fragment in Fragments(m, mtu)
    ensures IsFragmentRecord(RecordFor(epoch, fragment), m, mtu, epoch)
    ensures RecordFor(epoch, fragment)[RECORD_HEADER..] == fragment
  {
    hide EncodeRecordHeader, Fragments;
    var h := RecordHeader(HANDSHAKE, 0xfe, 0xfd, epoch, 0, [], 0);
    HeaderFieldsRead(h, [], fragment);
    assert RecordFor(epoch, fragment)[RECORD_HEADER..] == fragment;
  }

  /** Every fragment once, in order. */
  function EachOnce(m: Message, mtu: nat, epoch: nat): (r: seq<bytes>)
    requires mtu > 0
    ensures |r| == |Fragments(m, mtu)|
  {
    seq(|Fragments(m, mtu)|, i requires 0 <= i < |Fragments(m, mtu)| => RecordFor(epoch, Fragments(m, mtu)[i]))
  }

  ghost predicate Distinct(r: seq<bytes>) {
    forall i, j :: 0 <= i < j < |r| ==> r[i] != r[j]
  }

  lemma DistinctFirst(x: bytes, rest: seq<bytes>)
    requires Distinct(rest) && forall j :: 0 <= j < |rest| ==> rest[j] != x
    ensures Distinct([x] + rest)
  {
  }

  lemma {:induction false} FragmentsDiffer(m: Message, mtu: nat, from: nat)
    requires mtu > 0 && Sendable(m) && IsCut(m, mtu, from) && from < |m.body|
    ensures Distinct(FragmentsFrom(m, mtu, from))
    decreases |m.body| - from
  {
    hide FragmentAt, Sendable;
    var here, rest := FragmentAt(m, mtu, from), FragmentsFrom(m, mtu, from + mtu);
    if from + mtu < |m.body| {
      FragmentsDiffer(m, mtu, from + mtu);
      forall j | 0 <= j < |rest| ensures rest[j] != here {
        FragmentsFromAt(m, mtu, from + mtu, rest[j]);
        var o :| from + mtu <= o < |m.body| && IsCut(m, mtu, o) && rest[j] == FragmentAt(m, mtu, o);
        if rest[j] == here { OffsetShows(m, mtu, o, from); }
      }
    }
    DistinctFirst(here, rest);
  }

  lemma AllDiffer(m: Message, mtu: nat)
    requires mtu > 0 && Sendable(m)
    ensures Distinct(Fragments(m, mtu))
  {
    hide FragmentAt, Sendable;
    if m.body != [] { FragmentsDiffer(m, mtu, 0); }
  }

  lemma EachOnceIs(m: Message, mtu: nat, epoch: nat)
    requires mtu > 0 && Sendable(m) && epoch < U16
    ensures FragmentRecords(EachOnce(m, mtu, epoch), m, mtu, epoch) && NoRepeats(EachOnce(m, mtu, epoch))
    ensures AllArrived(m, mtu, EachOnce(m, mtu, epoch))
  {
    hide Fragments, RecordFor, IsFragmentRecord, Sendable;
    AllDiffer(m, mtu);
    var all, records := Fragments(m, mtu), EachOnce(m, mtu, epoch);
    forall i | 0 <= i < |all|
      ensures IsFragmentRecord(records[i], m, mtu, epoch) && |records[i]| >= RECORD_HEADER
      ensures records[i][RECORD_HEADER..] == all[i]
    {
      RecordForReads(epoch, m, mtu, all[i]);
      LongEnough(records[i], m, mtu, epoch);
    }
    forall x | x in all ensures Arrived(x, records) {
      var i :| 0 <= i < |all| && all[i] == x;
      assert records[i][RECORD_HEADER..] == x;
    }
  }

  /** Some list of fragment records brings the message out. */
  ghost predicate CanComeOut(m: Message, mtu: nat, epoch: nat)
    requires mtu > 0 && Sendable(m)
  {
    exists records :: FragmentRecords(records, m, mtu, epoch) && ComesOut(records, m, epoch)
  }

  /**
   For every fragment size a message can come out exactly when its body and two headers are
   below 2,000,000 bytes.
   */
  lemma CanComeOutExactly(m: Message, mtu: nat, epoch: nat)
    requires mtu > 0 && Sendable(m) && epoch < U16
    ensures CanComeOut(m, mtu, epoch) <==> |m.body| + OVERHEAD < MAX_SIZE
  {
    hide FragmentRecords, ComesOut, AllArrived, Kept, NoRepeats, EachOnce, Sendable;
    if |m.body| + OVERHEAD < MAX_SIZE {
      EachOnceIs(m, mtu, epoch);
      WithoutRepeats(EachOnce(m, mtu, epoch), m, mtu, epoch);
    } else {
      forall records | FragmentRecords(records, m, mtu, epoch) ensures !ComesOut(records, m, epoch) {
        ComesOutIfKept(records, m, mtu, epoch);
        if AllArrived(m, mtu, Kept(records)) { KeptWholeFits(records, m, mtu, epoch); }
      }
    }
  }

  // ---------- whatever is repeated ----------

  /** The last cut from `o` on. */
  function LastCut(m: Message, mtu: nat, o: nat): (r: nat)
    requires mtu > 0 && o < |m.body|
    ensures o <= r < |m.body| <= r + mtu && (IsCut(m, mtu, o) ==> IsCut(m, mtu, r))
    decreases |m.body| - o
  {
    if o + mtu >= |m.body| then o else LastCut(m, mtu, o + mtu)
  }

  function Repeated(rec: bytes, n: nat): (r: seq<bytes>)
    ensures |r| == n && forall i :: 0 <= i < n ==> r[i] == rec
  {
    seq(n, _ => rec)
  }

  /** Copies of a record are kept until there is no room for another. */
  lemma {:induction false} RepeatedFills(rec: bytes, n: nat)
    requires |rec| > OVERHEAD
    ensures Carried(Kept(Repeated(rec, n))) + |rec| >= MAX_SIZE || Carried(Kept(Repeated(rec, n))) >= n
  {
    hide Carried, Kept;
    if n > 0 {
      RepeatedFills(rec, n - 1);
      assert Repeated(rec, n) == Repeated(rec, n - 1) + [rec];
      KeptLast(Repeated(rec, n - 1), rec);
      CarriedLast(Kept(Repeated(rec, n - 1)), rec);
    }
  }

  /** Once there is no room for the shortest record there is none for any. */
  lemma {:induction false} NothingMore(full: seq<bytes>, more: seq<bytes>, n: nat)
    requires Carried(Kept(full)) + n >= MAX_SIZE && forall i :: 0 <= i < |more| ==> |more[i]| >= n
    ensures Kept(full + more) == Kept(full)
  {
    hide Carried, Kept;
    if more == [] {
      assert full + more == full;
    } else {
      var front, rec := more[..|more| - 1], more[|more| - 1];
      NothingMore(full, front, n);
      FrontAndLast(more);
      Associates(full, front, [rec]);
      KeptLast(full + front, rec);
    }
  }

  /** The last fragment again and again, and then every fragment once. */
  function Flood(m: Message, mtu: nat, epoch: nat): seq<bytes>
    requires mtu > 0 && m.body != []
  {
    Repeated(RecordFor(epoch, FragmentAt(m, mtu, LastCut(m, mtu, 0))), MAX_SIZE) + EachOnce(m, mtu, epoch)
  }

  /** No fragment is shorter than the last one. */
  lemma LastIsShortest(m: Message, mtu: nat, epoch: nat, rec: bytes)
    requires mtu > 0 && m.body != [] && IsFragmentRecord(rec, m, mtu, epoch)
    ensures |rec| >= OVERHEAD + PieceSize(m, mtu, LastCut(m, mtu, 0)) > OVERHEAD
  {
    hide IsFragmentRecord, FragmentAt;
    var o := RecordAtCut(rec, m, mtu, epoch);
    var last := LastCut(m, mtu, 0);
    if o > last { CutsApart(m, mtu, last, o); }
  }

  lemma FloodKept(m: Message, mtu: nat, epoch: nat)
    requires mtu > 0 && Sendable(m) && m.body != [] && epoch < U16
    ensures var rec := RecordFor(epoch, FragmentAt(m, mtu, LastCut(m, mtu, 0)));
            IsFragmentRecord(rec, m, mtu, epoch) && Kept(Flood(m, mtu, epoch)) == Kept(Repeated(rec, MAX_SIZE))
  {
    hide Kept, Carried, RecordFor, FragmentAt, IsFragmentRecord, EachOnce, NoRepeats, AllArrived;
    var o, each := LastCut(m, mtu, 0), EachOnce(m, mtu, epoch);
    var rec := RecordFor(epoch, FragmentAt(m, mtu, o));
    CutInList(m, mtu, o);
    RecordForReads(epoch, m, mtu, FragmentAt(m, mtu, o));
    LongEnough(rec, m, mtu, epoch);
    FragmentRecordSize(m, mtu, o, rec);
    EachOnceIs(m, mtu, epoch);
    forall i | 0 <= i < |each| ensures |each[i]| >= |rec| { LastIsShortest(m, mtu, epoch, each[i]); }
    LastIsShortest(m, mtu, epoch, rec);
    RepeatedFills(rec, MAX_SIZE);
    NothingMore(Repeated(rec, MAX_SIZE), each, |rec|);
  }

  lemma FragmentRecordSize(m: Message, mtu: nat, o: nat, rec: bytes)
    requires mtu > 0 && o < |m.body| && |rec| >= RECORD_HEADER && rec[RECORD_HEADER..] == FragmentAt(m, mtu, o)
    ensures |rec| == OVERHEAD + PieceSize(m, mtu, o)
  {
    hide EncodeHeader;
  }

  /** A message of several fragments can be lost to repetitions though every fragment arrives. */
  lemma FloodLoses(m: Message, mtu: nat, epoch: nat)
    requires mtu > 0 && Sendable(m) && |m.body| > mtu && epoch < U16
    ensures FragmentRecords(Flood(m, mtu, epoch), m, mtu, epoch) && AllArrived(m, mtu, Flood(m, mtu, epoch))
    ensures !ComesOut(Flood(m, mtu, epoch), m, epoch)
  {
    hide Kept, RecordFor, FragmentAt, IsFragmentRecord, EachOnce, NoRepeats, ComesOut, Fragments, AllArrived;
    var o, each := LastCut(m, mtu, 0), EachOnce(m, mtu, epoch);
    var rec := RecordFor(epoch, FragmentAt(m, mtu, o));
    var copies := Repeated(rec, MAX_SIZE);
    EachOnceIs(m, mtu, epoch);
    FloodKept(m, mtu, epoch);
    FloodArrived(m, mtu, copies, each);
    CutInList(m, mtu, o);
    RecordForReads(epoch, m, mtu, FragmentAt(m, mtu, o));
    LongEnough(rec, m, mtu, epoch);
    FirstNotAmong(m, mtu, o, rec, copies);
    ComesOutIfKept(copies + each, m, mtu, epoch);
  }

  lemma FloodArrived(m: Message, mtu: nat, copies: seq<bytes>, each: seq<bytes>)
    requires mtu > 0 && AllArrived(m, mtu, each)
    ensures AllArrived(m, mtu, copies + each)
  {
    hide Fragments;
    forall x | x in Fragments(m, mtu) ensures Arrived(x, copies + each) {
      var i :| 0 <= i < |each| && |each[i]| >= RECORD_HEADER && each[i][RECORD_HEADER..] == x;
      assert (copies + each)[|copies| + i] == each[i];
    }
  }

  /** Copies of a later fragment do not bring the first one. */
  lemma FirstNotAmong(m: Message, mtu: nat, o: nat, rec: bytes, copies: seq<bytes>)
    requires mtu > 0 && Sendable(m) && 0 < o < |m.body| && |rec| >= RECORD_HEADER
    requires rec[RECORD_HEADER..] == FragmentAt(m, mtu, o) && forall i :: 0 <= i < |copies| ==> copies[i] == rec
    ensures !AllArrived(m, mtu, Kept(copies))
  {
    hide Kept, FragmentAt, Fragments;
    KeptAreRecords(copies);
    assert IsCut(m, mtu, 0);
    CutInList(m, mtu, 0);
    if Arrived(FragmentAt(m, mtu, 0), Kept(copies)) {
      var i :| 0 <= i < |Kept(copies)| && |Kept(copies)[i]| >= RECORD_HEADER &&
               Kept(copies)[i][RECORD_HEADER..] == FragmentAt(m, mtu, 0);
      OffsetShows(m, mtu, o, 0);
    }
  }

  /** Every list of fragment records in which every fragment arrives brings the message out. */
  ghost predicate AlwaysComesOut(m: Message, mtu: nat, epoch: nat)
    requires mtu > 0 && Sendable(m)
  {
    forall records :: FragmentRecords(records, m, mtu, epoch) && AllArrived(m, mtu, records) ==>
      ComesOut(records, m, epoch)
  }

  /** A message of one fragment that fits comes out with its first record. */
  lemma SingleComesOut(records: seq<bytes>, m: Message, mtu: nat, epoch: nat)
    requires mtu > 0 && Sendable(m) && |m.body| <= mtu && |m.body| + OVERHEAD < MAX_SIZE
    requires FragmentRecords(records, m, mtu, epoch) && records != []
    ensures ComesOut(records, m, epoch)
  {
    assert Fragments(m, mtu) == [FragmentAt(m, mtu, 0)] by { OneFragment(m, mtu); }
    hide FragmentAt, ComesOut, Fragments, Kept, Carried;
    RecordsLong(records, m, mtu, epoch);
    var o := RecordAtCut(records[0], m, mtu, epoch);
    FirstKept(records);
    KeptAreRecords(records);
    var c := Kept(records)[0];
    var j :| 0 <= j < |records| && records[j] == c;
    assert IsFragmentRecord(records[j], m, mtu, epoch);
    ComesOutIfKept(records, m, mtu, epoch);
  }

  lemma OneFragment(m: Message, mtu: nat)
    requires mtu > 0 && |m.body| <= mtu
    ensures Fragments(m, mtu) == [FragmentAt(m, mtu, 0)]
  {
    if m.body != [] { assert FragmentsFrom(m, mtu, mtu) == []; }
  }

  lemma {:induction false} FirstKept(records: seq<bytes>)
    requires records != [] && |records[0]| < MAX_SIZE
    ensures Kept(records) != []
  {
    if |records| > 1 {
      FirstKept(records[..|records| - 1]);
    } else {
      assert Kept(records[..0]) == [];
    }
  }

  /**
   A message comes out of every list in which all its fragments arrive exactly when it has one
   fragment and fits the buffer.
   */
  lemma AlwaysExactly(m: Message, mtu: nat, epoch: nat)
    requires mtu > 0 && Sendable(m) && epoch < U16
    ensures AlwaysComesOut(m, mtu, epoch) <==> |m.body| <= mtu && |m.body| + OVERHEAD < MAX_SIZE
  {
    hide ComesOut, FragmentRecords, AllArrived, NoRepeats, EachOnce, Flood, Sendable;
    if |m.body| > mtu {
      FloodLoses(m, mtu, epoch);
    } else if |m.body| + OVERHEAD >= MAX_SIZE {
      EachOnceIs(m, mtu, epoch);
      WithoutRepeats(EachOnce(m, mtu, epoch), m, mtu, epoch);
    } else {
      forall records | FragmentRecords(records, m, mtu, epoch) && AllArrived(m, mtu, records)
        ensures ComesOut(records, m, epoch)
      {
        SomeArrived(m, mtu, records);
        SingleComesOut(records, m, mtu, epoch);
      }
    }
  }

  lemma SomeArrived(m: Message, mtu: nat, records: seq<bytes>)
    requires mtu > 0 && AllArrived(m, mtu, records)
    ensures records != []
  {
    assert Fragments(m, mtu)[0] in Fragments(m, mtu);
    hide Fragments;
  }

  // ---------- two messages that are lost ----------

  /** A body of 2,000,000 bytes in one record arrives whole and does not come out. */
  lemma LargeMessageLost()
    ensures var m := Message(1, 0, Zeros(2_000_000));
            && Sendable(m) && AllArrived(m, 2_000_000, EachOnce(m, 2_000_000, 0))
            && !ComesOut(EachOnce(m, 2_000_000, 0), m, 0)
  {
    hide ComesOut, AllArrived, NoRepeats, EachOnce, FragmentRecords;
    var m := Message(1, 0, Zeros(2_000_000));
    EachOnceIs(m, 2_000_000, 0);
    WithoutRepeats(EachOnce(m, 2_000_000, 0), m, 2_000_000, 0);
  }

  /** A body of 2000 bytes in two fragments: copies of the second one keep the first one out. */
  lemma RepeatsLoseMessage()
    ensures var m := Message(1, 0, Zeros(2000));
            && Sendable(m) && AllArrived(m, 1000, Flood(m, 1000, 0)) && !ComesOut(Flood(m, 1000, 0), m, 0)
            && CanComeOut(m, 1000, 0)
  {
    hide ComesOut, AllArrived, FragmentRecords, Flood, CanComeOut;
    var m := Message(1, 0, Zeros(2000));
    FloodLoses(m, 1000, 0);
    CanComeOutExactly(m, 1000, 0);
  }
}
