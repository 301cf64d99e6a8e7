/**
 The randomization of a ClientHello: lists are cut short and shuffled in place, once when the
 flight is made and once more in a hook, yet a server can still agree to it. Random draws are
 an arbitrary function of their position, reduced to the range asked for. Without a seed nothing
 is cut, and a shuffle ends where the system's source of randomness fails.
 */
module HelloRandomize {
  import opened Bytes
  import opened Extensions

  /** TLS_ECDHE_ECDSA_WITH_AES_128_GCM_SHA256. */
  const REQUIRED: nat := 0xc02b

  /** The draw that decides how much is kept; without a seed there is none, and everything is kept. */
  type Draw = Option<nat>

  /** The draws of a shuffle; the system's source may fail, which ends the shuffle, and a seeded one never does. */
  type Draws = nat -> Option<nat>

  // ---------- shuffling ----------

  function Swapped<T>(s: seq<T>, i: nat, j: nat): (r: seq<T>)
    requires i < |s| && j < |s|
    ensures |r| == |s|
  {
    s[i := s[j]][j := s[i]]
  }

  lemma SwapPermutes<T>(s: seq<T>, i: nat, j: nat)
    requires i < |s| && j < |s|
    ensures multiset(Swapped(s, i, j)) == multiset(s)
  {
  }

  /** Fisher and Yates, from position `n - 1` down. */
  function Shuffled<T>(s: seq<T>, n: nat, draws: Draws): (r: seq<T>)
    requires n <= |s|
    ensures |r| == |s|
    decreases n
  {
    if n <= 1 || draws(n - 1).None? then s
    else Shuffled(Swapped(s, n - 1, draws(n - 1).value % n), n - 1, draws)
  }

  lemma {:induction false} ShuffledPermutes<T>(s: seq<T>, n: nat, draws: Draws)
    requires n <= |s|
    ensures multiset(Shuffled(s, n, draws)) == multiset(s)
    decreases n
  {
    if n > 1 && draws(n - 1).Some? {
      var j := draws(n - 1).value % n;
      SwapPermutes(s, n - 1, j);
      ShuffledPermutes(Swapped(s, n - 1, j), n - 1, draws);
    }
  }

  /** Only the draws below `n` matter. */
  lemma {:induction false} SameDraws<T>(s: seq<T>, n: nat, draws: Draws, others: Draws)
    requires n <= |s| && forall i: nat :: i < n ==> draws(i) == others(i)
    ensures Shuffled(s, n, draws) == Shuffled(s, n, others)
    decreases n
  {
    if n > 1 && draws(n - 1).Some? {
      SameDraws(Swapped(s, n - 1, draws(n - 1).value % n), n - 1, draws, others);
    }
  }

  /** The element wanted at the end of the first `n` is among them, and can be swapped there. */
  lemma OneInPlace<T>(s: seq<T>, t: seq<T>, n: nat) returns (j: nat)
    requires 1 < n <= |s| == |t| && multiset(s[..n]) == multiset(t[..n]) && s[n..] == t[n..]
    ensures j < n
    ensures var r := Swapped(s, n - 1, j);
            multiset(r[..n - 1]) == multiset(t[..n - 1]) && r[n - 1..] == t[n - 1..]
  {
    var a, b := s[..n], t[..n];
    j := SwapToEnd(a, b);
    var r := Swapped(s, n - 1, j);
    assert r[..n - 1] == Swapped(a, n - 1, j)[..n - 1] && t[..n - 1] == b[..n - 1];
    forall i | n - 1 <= i < |t| ensures r[i] == t[i] {
      if i >= n { assert s[n..][i - n] == t[n..][i - n]; }
    }
  }

  lemma SwapToEnd<T>(a: seq<T>, b: seq<T>) returns (j: nat)
    requires |a| == |b| > 0 && multiset(a) == multiset(b)
    ensures j < |a|
    ensures var n := |a| - 1;
            Swapped(a, n, j)[n] == b[n] && multiset(Swapped(a, n, j)[..n]) == multiset(b[..n])
  {
    j := Holder(a, b, b[|b| - 1]);
    SwapPermutes(a, |a| - 1, j);
    SameFronts(Swapped(a, |a| - 1, j), b);
  }

  /** What one order holds, every order of the same holds somewhere. */
  lemma Holder<T>(a: seq<T>, b: seq<T>, x: T) returns (j: nat)
    requires multiset(a) == multiset(b) && x in b
    ensures j < |a| && a[j] == x
  {
    assert x in multiset(b);
    assert x in multiset(a);
    j :| 0 <= j < |a| && a[j] == x;
  }

  lemma SameFronts<T>(a: seq<T>, b: seq<T>)
    requires |a| == |b| > 0 && multiset(a) == multiset(b) && a[|a| - 1] == b[|b| - 1]
    ensures multiset(a[..|a| - 1]) == multiset(b[..|b| - 1])
  {
    AllButLast(a);
    AllButLast(b);
  }

  lemma AllButLast<T>(s: seq<T>)
    requires s != []
    ensures multiset(s[..|s| - 1]) == multiset(s) - multiset{s[|s| - 1]}
  {
    FrontAndLast(s);
  }

  lemma NothingToDraw<T>(s: seq<T>, t: seq<T>, n: nat)
    requires n <= |s| == |t| && n <= 1 && multiset(s[..n]) == multiset(t[..n]) && s[n..] == t[n..]
    ensures s == t
  {
    if n == 1 {
      assert s[..1] == [s[0]] && t[..1] == [t[0]];
      assert s[0] in multiset(t[..1]);
    }
    assert s == s[..n] + s[n..] && t == t[..n] + t[n..];
  }

  /** Every order of the first `n` can be drawn. */
  lemma {:induction false} DrawsFor<T>(s: seq<T>, t: seq<T>, n: nat) returns (draws: Draws)
    requires n <= |s| == |t| && multiset(s[..n]) == multiset(t[..n]) && s[n..] == t[n..]
    ensures Shuffled(s, n, draws) == t && forall i: nat :: draws(i).Some?
    decreases n
  {
    hide Swapped;
    if n <= 1 {
      draws := _ => Some(0);
      NothingToDraw(s, t, n);
    } else {
      var j := OneInPlace(s, t, n);
      var rest := DrawsFor(Swapped(s, n - 1, j), t, n - 1);
      draws := i => if i == n - 1 then Some(j) else rest(i);
      SmallModulo(j, n);
      SameDraws(Swapped(s, n - 1, j), n - 1, draws, rest);
    }
  }

  /** The shuffles of a list are exactly its permutations. */
  lemma {:induction false} ShuffleReaches<T(!new)>(s: seq<T>, t: seq<T>)
    ensures (exists draws: Draws :: Shuffled(s, |s|, draws) == t) <==> multiset(s) == multiset(t)
  {
    if draws: Draws :| Shuffled(s, |s|, draws) == t { ShuffledPermutes(s, |s|, draws); }
    if multiset(s) == multiset(t) {
      SameSize(s, t);
      assert s[..|s|] == s && t[..|s|] == t && s[|s|..] == t[|s|..] == [];
      var draws := DrawsFor(s, t, |s|);
    }
  }

  lemma SameSize<T>(s: seq<T>, t: seq<T>)
    requires multiset(s) == multiset(t)
    ensures |s| == |t|
  {
    assert |multiset(s)| == |s| && |multiset(t)| == |t|;
  }

  method SwapWithin<T>(a: array<T>, from: nat, to: nat, i: nat, j: nat)
    requires from <= to <= a.Length && i < to - from && j < to - from
    modifies a
    ensures a[..from] == old(a[..from]) && a[to..] == old(a[to..])
    ensures a[from..to] == Swapped(old(a[from..to]), i, j)
  {
    a[from + i], a[from + j] := a[from + j], a[from + i];
  }

  /** Shuffles the part of an array from `from` to `to`. */
  method Shuffle<T>(a: array<T>, from: nat, to: nat, draws: Draws)
    requires from <= to <= a.Length
    modifies a
    ensures a[..from] == old(a[..from]) && a[to..] == old(a[to..])
    ensures a[from..to] == Shuffled(old(a[from..to]), to - from, draws)
  {
    hide Swapped;
    var n := to - from;
    ghost var s := a[from..to];
    while n > 1
      invariant 0 <= n <= to - from
      invariant a[..from] == old(a[..from]) && a[to..] == old(a[to..])
      invariant Shuffled(a[from..to], n, draws) == Shuffled(s, to - from, draws)
    {
      var i := n - 1;
      var drawn := draws(i);
      if drawn.None? {
        break;
      }
      var j := drawn.value % (i + 1);
      SwapWithin(a, from, to, i, j);
      n := i;
    }
  }

  // ---------- cutting the suites short ----------

  /** How many suites are kept: all of up to three, otherwise three or more. */
  function KeepCount(n: nat, draw: Draw): (r: nat)
    ensures Min(3, n) <= r <= n
  {
    if n <= 3 || draw.None? then n else Min(3 + draw.value % (n - 2), n)
  }

  /** The first suite from position `i` on that is the required one. */
  function FirstRequired(s: seq<nat>, i: nat): Option<nat>
    decreases |s| - i
  {
    if i >= |s| then None else if s[i] == REQUIRED then Some(i) else FirstRequired(s, i + 1)
  }

  lemma {:induction false} FirstRequiredIs(s: seq<nat>, i: nat)
    requires i <= |s|
    ensures match FirstRequired(s, i)
            case Some(k) => i <= k < |s| && s[k] == REQUIRED
            case None => REQUIRED !in s[i..]
    decreases |s| - i
  {
    if i < |s| {
      FirstRequiredIs(s, i + 1);
      assert s[i..] == [s[i]] + s[i + 1..];
    }
  }

  /** The list with the required suite swapped into the part that is kept, if it would be cut off. */
  function Arranged(s: seq<nat>, keep: nat): (r: seq<nat>)
    requires keep <= |s|
    ensures |r| == |s|
  {
    FirstRequiredIs(s, keep);
    if keep == 0 || |s| <= 3 || REQUIRED in s[..keep] || FirstRequired(s, keep).None? then s
    else Swapped(s, keep - 1, FirstRequired(s, keep).value)
  }

  function Truncated(s: seq<nat>, draw: Draw): (r: seq<nat>) {
    Arranged(s, KeepCount(|s|, draw))[..KeepCount(|s|, draw)]
  }

  /**
   Part of the offer, never fewer than three suites of three or more, and with the required suite
   if it was offered.
   */
  ghost predicate StillOffers(before: seq<nat>, after: seq<nat>) {
    multiset(after) <= multiset(before) && |after| >= Min(3, |before|) && (REQUIRED in before ==> REQUIRED in after)
  }

  lemma PrefixIsPart<T>(s: seq<T>, n: nat)
    requires n <= |s|
    ensures multiset(s[..n]) <= multiset(s)
  {
    assert s == s[..n] + s[n..];
  }

  lemma TruncatedStillOffers(s: seq<nat>, draw: Draw)
    ensures StillOffers(s, Truncated(s, draw))
  {
    hide Arranged;
    var keep := KeepCount(|s|, draw);
    ArrangedPermutes(s, keep);
    PrefixIsPart(Arranged(s, keep), keep);
    if REQUIRED in s {
      assert |s| <= 3 ==> s[..keep] == s;
      RequiredStays(s, keep);
    }
  }

  lemma ArrangedPermutes(s: seq<nat>, keep: nat)
    requires keep <= |s|
    ensures multiset(Arranged(s, keep)) == multiset(s)
  {
    FirstRequiredIs(s, keep);
    if Arranged(s, keep) != s { SwapPermutes(s, keep - 1, FirstRequired(s, keep).value); }
  }

  /** The required suite is among those kept. */
  lemma RequiredStays(s: seq<nat>, keep: nat)
    requires keep <= |s| && REQUIRED in s && (|s| > 3 ==> keep > 0) && (|s| <= 3 ==> s[..keep] == s)
    ensures REQUIRED in Arranged(s, keep)[..keep]
  {
    FirstRequiredIs(s, keep);
    assert s == s[..keep] + s[keep..];
    if REQUIRED !in s[..keep] { assert Arranged(s, keep)[..keep][keep - 1] == REQUIRED; }
  }

  /** The suites after truncation and shuffle, at one level. */
  function Randomized(s: seq<nat>, draw: Draw, draws: Draws): seq<nat> {
    var kept := Truncated(s, draw);
    Shuffled(kept, |kept|, draws)
  }

  lemma InMultiset(s: seq<nat>, t: seq<nat>, x: nat)
    requires multiset(s) == multiset(t)
    ensures x in s <==> x in t
  {
    assert x in s <==> x in multiset(s);
    assert x in t <==> x in multiset(t);
  }

  lemma RandomizedStillOffers(s: seq<nat>, draw: Draw, draws: Draws)
    ensures StillOffers(s, Randomized(s, draw, draws))
  {
    hide Truncated, Shuffled;
    TruncatedStillOffers(s, draw);
    var kept := Truncated(s, draw);
    ShuffledPermutes(kept, |kept|, draws);
    InMultiset(kept, Shuffled(kept, |kept|, draws), REQUIRED);
  }

  /** The draws decide how many suites are kept, and every number from three on can be drawn. */
  lemma KeepReaches(n: nat, k: nat)
    ensures (exists draw: Draw :: KeepCount(n, draw) == k) <==> Min(3, n) <= k <= n
  {
    if Min(3, n) <= k <= n && n > 3 {
      SmallModulo(k - 3, n - 2);
      assert KeepCount(n, Some(k - 3)) == k;
    } else if Min(3, n) <= k <= n {
      assert KeepCount(n, None) == k;
    }
  }

  /** The first `n` suites, with the required one as the last of them if it would be cut off. */
  ghost predicate KeptOf(s: seq<nat>, r: seq<nat>, n: nat) {
    && |r| == n <= |s|
    && forall i :: 0 <= i < n ==> r[i] == if i == n - 1 && REQUIRED in s && REQUIRED !in s[..n] then REQUIRED else s[i]
  }

  lemma TruncatedIs(s: seq<nat>, draw: Draw)
    ensures KeptOf(s, Truncated(s, draw), KeepCount(|s|, draw))
  {
    var n := KeepCount(|s|, draw);
    FirstRequiredIs(s, n);
    assert s == s[..n] + s[n..];
  }

  lemma KeptOfUnique(s: seq<nat>, r: seq<nat>, q: seq<nat>, n: nat)
    requires KeptOf(s, r, n) && KeptOf(s, q, n)
    ensures r == q
  {
  }

  /** What one level makes of the suites, over all draws: any order of what is kept, for any number from three on. */
  ghost predicate CanBecome(s: seq<nat>, t: seq<nat>) {
    exists n: nat, r: seq<nat> :: Min(3, |s|) <= n && KeptOf(s, r, n) && multiset(r) == multiset(t)
  }

  lemma SuitesReach(s: seq<nat>, t: seq<nat>)
    ensures (exists draw: Draw, draws: Draws :: Randomized(s, draw, draws) == t) <==> CanBecome(s, t)
  {
    hide Truncated, Shuffled, KeptOf, KeepCount;
    if draw: Draw, draws: Draws :| Randomized(s, draw, draws) == t {
      var kept := Truncated(s, draw);
      TruncatedIs(s, draw);
      ShuffledPermutes(kept, |kept|, draws);
      assert KeptOf(s, kept, KeepCount(|s|, draw));
    }
    if n: nat, r: seq<nat> :| Min(3, |s|) <= n && KeptOf(s, r, n) && multiset(r) == multiset(t) {
      KeptLength(s, r, n);
      KeepReaches(|s|, n);
      var draw: Draw :| KeepCount(|s|, draw) == n;
      TruncatedIs(s, draw);
      KeptOfUnique(s, r, Truncated(s, draw), n);
      ShuffleReaches(r, t);
      var draws: Draws :| Shuffled(r, |r|, draws) == t;
      assert Randomized(s, draw, draws) == t;
    }
  }

  lemma KeptLength(s: seq<nat>, r: seq<nat>, n: nat)
    requires KeptOf(s, r, n)
    ensures n <= |s|
  {
  }

  // ---------- agreement ----------

  /** The first suite of `a` that is also in `b`. */
  method FindMatching(a: seq<nat>, b: seq<nat>) returns (suite: nat, found: bool)
    ensures found <==> exists x :: x in a && x in b
    ensures found ==> suite in b && exists k :: 0 <= k < |a| && a[k] == suite && forall j :: 0 <= j < k ==> a[j] !in b
  {
    for i := 0 to |a|
      invariant forall j :: 0 <= j < i ==> a[j] !in b
    {
      for j := 0 to |b|
        invariant a[i] !in b[..j]
      {
        if a[i] == b[j] {
          assert a[i] in a && a[i] in b;
          return a[i], true;
        }
        assert b[..j + 1] == b[..j] + [b[j]];
      }
      assert b[..|b|] == b;
    }
    return 0, false;
  }

  /**
   After both levels of randomization, whatever the draws, the suites are part of the offer, at
   least three of three or more, and share one with any list that holds the required suite if
   that one was offered.
   */
  lemma NegotiationPossible(offered: seq<nat>, draw1: Draw, draws1: Draws, draw2: Draw, draws2: Draws, local: seq<nat>)
    ensures var after := Randomized(Randomized(offered, draw1, draws1), draw2, draws2);
            && StillOffers(offered, after)
            && (REQUIRED in offered && REQUIRED in local ==> exists x :: x in after && x in local)
  {
    hide Randomized;
    var once := Randomized(offered, draw1, draws1);
    RandomizedStillOffers(offered, draw1, draws1);
    RandomizedStillOffers(once, draw2, draws2);
  }

  /** The hook on the suites of a hello: the kept ones are the first ones of the same array. */
  method RandomizeSuites(a: array<nat>, n: nat, draw: Draw, draws: Draws) returns (keep: nat)
    requires n <= a.Length
    modifies a
    ensures keep <= n && a[..keep] == Randomized(old(a[..n]), draw, draws)
  {
    keep := n;
    if draw.Some? {
      keep := TruncateSuites(a, n, draw);
    } else {
      NothingCut(a[..n]);
    }
    Shuffle(a, 0, keep, draws);
    assert a[0..keep] == a[..keep];
  }

  lemma NothingCut(s: seq<nat>)
    ensures Truncated(s, None) == s
  {
    FirstRequiredIs(s, |s|);
    assert s[..|s|] == s;
  }

  method TruncateSuites(a: array<nat>, n: nat, draw: Draw) returns (keep: nat)
    requires n <= a.Length && draw.Some?
    modifies a
    ensures keep <= n && a[..keep] == Truncated(old(a[..n]), draw)
  {
    ghost var s := a[..n];
    if n <= 3 {
      assert s[..n] == s;
      return n;
    }
    keep := 3 + draw.value % (n - 2);
    if keep > n {
      keep := n;
    }
    assert keep == KeepCount(n, draw);
    hide KeepCount;
    MoveRequired(a, n, keep);
    assert a[..keep] == a[..n][..keep];
  }

  /** If the required suite would be cut off, it changes places with the last one kept. */
  method MoveRequired(a: array<nat>, n: nat, keep: nat)
    requires 3 <= keep <= n <= a.Length && n > 3
    modifies a
    ensures a[..n] == Arranged(old(a[..n]), keep)
  {
    ghost var s := a[..n];
    var hasRequired := false;
    for k := 0 to keep
      invariant !hasRequired && REQUIRED !in a[..k]
    {
      if a[k] == REQUIRED {
        hasRequired := true;
        break;
      }
      assert a[..k + 1] == a[..k] + [a[k]];
    }
    assert a[..keep] == s[..keep];
    if !hasRequired {
      var i := keep;
      while i < n
        invariant keep <= i <= n && a[..n] == s && FirstRequired(s, i) == FirstRequired(s, keep)
      {
        if a[i] == REQUIRED {
          a[keep - 1], a[i] := a[i], a[keep - 1];
          assert a[..n] == Swapped(s, keep - 1, i);
          break;
        }
        i := i + 1;
      }
    }
  }

  // ---------- the extensions ----------

  /** A prefix of at least one element, if there is any. */
  function Prefix(s: seq<nat>, longerThan: nat, draw: Draw): (r: seq<nat>)
    ensures r <= s && (s != [] ==> r != [])
  {
    if draw.Some? && |s| > longerThan && s != [] then s[..1 + draw.value % |s|] else s
  }

  function ShuffledAll(s: seq<nat>, draws: Draws): (r: seq<nat>)
    ensures |r| == |s|
  {
    Shuffled(s, |s|, draws)
  }

  /** All but the first element shuffled. */
  function ShuffledTail(s: seq<nat>, draws: Draws): (r: seq<nat>)
    ensures |r| == |s|
  {
    if |s| <= 1 then s else [s[0]] + ShuffledAll(s[1..], draws)
  }

  /** One extension after the hook. */
  function RandomizedField(e: Extension, draw: Draw, draws: Draws): Extension {
    match e
    case EllipticCurves(curves) => EllipticCurves(ShuffledAll(Prefix(curves, 1, draw), draws))
    case SignatureAlgorithms(algorithms) => SignatureAlgorithms(ShuffledTail(Prefix(algorithms, 2, draw), draws))
    case UseSrtp(profiles, mki) => UseSrtp(ShuffledAll(profiles, draws), mki)
    case PointFormats(formats) => PointFormats(Shuffled(formats, |formats|, draws))
    case _ => e
  }

  /**
   What may differ: a shorter or reordered list of curves, of algorithms behind the first, and the
   order of profiles and formats.
   */
  ghost predicate SameField(e: Extension, f: Extension) {
    match e
    case EllipticCurves(curves) => f.EllipticCurves? && multiset(f.curves) <= multiset(curves) &&
      (curves != [] ==> f.curves != [])
    case SignatureAlgorithms(algorithms) =>
      f.SignatureAlgorithms? && multiset(f.algorithms) <= multiset(algorithms) &&
      (algorithms != [] ==> f.algorithms != [] && f.algorithms[0] == algorithms[0])
    case UseSrtp(profiles, mki) => f.UseSrtp? && multiset(f.profiles) == multiset(profiles) && f.mki == mki
    case PointFormats(formats) => f.PointFormats? && multiset(f.formats) == multiset(formats)
    case _ => f == e
  }

  lemma TailPermutes(s: seq<nat>, draws: Draws)
    ensures multiset(ShuffledTail(s, draws)) == multiset(s) && (s != [] ==> ShuffledTail(s, draws)[0] == s[0])
  {
    hide Shuffled;
    if |s| > 1 {
      ShuffledPermutes(s[1..], |s| - 1, draws);
      assert s == [s[0]] + s[1..];
    }
  }

  lemma FieldKept(e: Extension, draw: Draw, draws: Draws)
    ensures SameField(e, RandomizedField(e, draw, draws))
  {
    hide Shuffled, ShuffledTail;
    match e
    case EllipticCurves(curves) =>
      var kept := Prefix(curves, 1, draw);
      PrefixIsPart(curves, |kept|);
      assert curves[..|kept|] == kept;
      ShuffledPermutes(kept, |kept|, draws);
    case SignatureAlgorithms(algorithms) =>
      var kept := Prefix(algorithms, 2, draw);
      PrefixIsPart(algorithms, |kept|);
      assert algorithms[..|kept|] == kept;
      TailPermutes(kept, draws);
    case UseSrtp(profiles, mki) => ShuffledPermutes(profiles, |profiles|, draws);
    case PointFormats(formats) => ShuffledPermutes(formats, |formats|, draws);
    case _ =>
  }

  /** A list longer than `longerThan` can be cut to any number of elements from one on, another not at all. */
  ghost predicate CutTo(r: seq<nat>, s: seq<nat>, longerThan: nat) {
    r == s || (|s| > longerThan && r != [] && r <= s)
  }

  lemma PrefixReaches(s: seq<nat>, longerThan: nat, r: seq<nat>)
    ensures (exists draw: Draw :: Prefix(s, longerThan, draw) == r) <==> CutTo(r, s, longerThan)
  {
    assert Prefix(s, longerThan, None) == s;
    if |s| > longerThan && r != [] && r <= s {
      SmallModulo(|r| - 1, |s|);
      assert Prefix(s, longerThan, Some(|r| - 1)) == r;
    }
  }

  /** The curves over all draws: any order of any first part of them, if there is more than one. */
  lemma CurvesReach(curves: seq<nat>, out: seq<nat>)
    ensures (exists draw: Draw, draws: Draws ::
               RandomizedField(EllipticCurves(curves), draw, draws) == EllipticCurves(out)) <==>
            exists r: seq<nat> :: CutTo(r, curves, 1) && multiset(r) == multiset(out)
  {
    hide Shuffled, Prefix, CutTo;
    if draw: Draw, draws: Draws :| RandomizedField(EllipticCurves(curves), draw, draws) == EllipticCurves(out) {
      var r := Prefix(curves, 1, draw);
      PrefixReaches(curves, 1, r);
      ShuffledPermutes(r, |r|, draws);
      assert CutTo(r, curves, 1);
    }
    if r: seq<nat> :| CutTo(r, curves, 1) && multiset(r) == multiset(out) {
      PrefixReaches(curves, 1, r);
      var draw: Draw :| Prefix(curves, 1, draw) == r;
      ShuffleReaches(r, out);
      var draws: Draws :| Shuffled(r, |r|, draws) == out;
      assert RandomizedField(EllipticCurves(curves), draw, draws) == EllipticCurves(out);
    }
  }

  /** The first element stays, and the others are in any order. */
  ghost predicate FirstStays(r: seq<nat>, out: seq<nat>) {
    |r| == |out| && (r != [] ==> out[0] == r[0] && multiset(out[1..]) == multiset(r[1..]))
  }

  lemma TailStays(r: seq<nat>, draws: Draws)
    ensures FirstStays(r, ShuffledTail(r, draws))
  {
    hide Shuffled;
    if |r| > 1 {
      ShuffledPermutes(r[1..], |r| - 1, draws);
      assert ShuffledTail(r, draws)[1..] == ShuffledAll(r[1..], draws);
    }
  }

  lemma TailDrawn(r: seq<nat>, out: seq<nat>) returns (draws: Draws)
    requires FirstStays(r, out)
    ensures ShuffledTail(r, draws) == out
  {
    draws := i => None;
    if |r| <= 1 {
      assert r == out;
    } else {
      hide Shuffled;
      ShuffleReaches(r[1..], out[1..]);
      draws :| Shuffled(r[1..], |r[1..]|, draws) == out[1..];
      assert [r[0]] + out[1..] == out;
    }
  }

  /** The signature algorithms: the first stays, and behind it any order of any first part, if there are over two. */
  lemma AlgorithmsReach(algorithms: seq<nat>, out: seq<nat>)
    ensures (exists draw: Draw, draws: Draws ::
               RandomizedField(SignatureAlgorithms(algorithms), draw, draws) == SignatureAlgorithms(out)) <==>
            exists r: seq<nat> :: CutTo(r, algorithms, 2) && FirstStays(r, out)
  {
    hide ShuffledTail, Prefix, CutTo, FirstStays;
    if draw: Draw, draws: Draws :| RandomizedField(SignatureAlgorithms(algorithms), draw, draws)
                                   == SignatureAlgorithms(out) {
      var r := Prefix(algorithms, 2, draw);
      PrefixReaches(algorithms, 2, r);
      TailStays(r, draws);
      assert CutTo(r, algorithms, 2) && FirstStays(r, out);
    }
    if r: seq<nat> :| CutTo(r, algorithms, 2) && FirstStays(r, out) {
      PrefixReaches(algorithms, 2, r);
      var draw: Draw :| Prefix(algorithms, 2, draw) == r;
      var draws := TailDrawn(r, out);
      assert RandomizedField(SignatureAlgorithms(algorithms), draw, draws) == SignatureAlgorithms(out);
    }
  }

  /** One extension after the flight level: shorter lists, and profiles in another order. */
  function FlightField(e: Extension, draw: Draw, draws: Draws): Extension {
    match e
    case EllipticCurves(curves) => EllipticCurves(Prefix(curves, 1, draw))
    case SignatureAlgorithms(algorithms) => SignatureAlgorithms(Prefix(algorithms, 2, draw))
    case UseSrtp(profiles, mki) => UseSrtp(ShuffledAll(profiles, draws), mki)
    case _ => e
  }

  /** The flight level over all draws: every cut of curves and algorithms, and every order of profiles. */
  lemma FlightReaches(s: seq<nat>, mki: bytes, out: seq<nat>)
    ensures (exists draw: Draw, draws: Draws :: FlightField(EllipticCurves(s), draw, draws) == EllipticCurves(out))
       <==> CutTo(out, s, 1)
    ensures (exists draw: Draw, draws: Draws ::
               FlightField(SignatureAlgorithms(s), draw, draws) == SignatureAlgorithms(out)) <==> CutTo(out, s, 2)
    ensures (exists draw: Draw, draws: Draws :: FlightField(UseSrtp(s, mki), draw, draws) == UseSrtp(out, mki))
       <==> multiset(s) == multiset(out)
  {
    hide Shuffled, Prefix, CutTo;
    PrefixReaches(s, 1, out);
    PrefixReaches(s, 2, out);
    ShuffleReaches(s, out);
    var none: Draws := i => None;
    if draw: Draw :| Prefix(s, 1, draw) == out {
      assert FlightField(EllipticCurves(s), draw, none) == EllipticCurves(out);
    }
    if draw: Draw :| Prefix(s, 2, draw) == out {
      assert FlightField(SignatureAlgorithms(s), draw, none) == SignatureAlgorithms(out);
    }
    if draws: Draws :| Shuffled(s, |s|, draws) == out {
      assert FlightField(UseSrtp(s, mki), None, draws) == UseSrtp(out, mki);
    }
    if draw: Draw, draws: Draws :| FlightField(UseSrtp(s, mki), draw, draws) == UseSrtp(out, mki) {
      ShuffledPermutes(s, |s|, draws);
    }
  }

  /** Both levels together change no more than one of them does. */
  lemma BothLevelsKept(e: Extension, draw1: Draw, draws1: Draws, draw2: Draw, draws2: Draws)
    ensures SameField(e, RandomizedField(FlightField(e, draw1, draws1), draw2, draws2))
  {
    hide Shuffled, RandomizedField;
    var once := FlightField(e, draw1, draws1);
    FieldKept(once, draw2, draws2);
    match e
    case EllipticCurves(curves) =>
      PrefixIsPart(curves, |once.curves|);
      assert curves[..|once.curves|] == once.curves;
    case SignatureAlgorithms(algorithms) =>
      PrefixIsPart(algorithms, |once.algorithms|);
      assert algorithms[..|once.algorithms|] == once.algorithms;
    case UseSrtp(profiles, mki) => ShuffledPermutes(profiles, |profiles|, draws1);
    case _ =>
  }

  method RandomizeField(e: Extension, draw: Draw, draws: Draws) returns (f: Extension)
    ensures f == RandomizedField(e, draw, draws)
  {
    hide Shuffled, Prefix;
    match e
    case EllipticCurves(curves) =>
      var kept := Cut(curves, 1, draw);
      var out := ShuffleList(kept, 0, draws);
      return EllipticCurves(out);
    case SignatureAlgorithms(algorithms) =>
      var kept := Cut(algorithms, 2, draw);
      if |kept| > 1 {
        kept := ShuffleList(kept, 1, draws);
      }
      return SignatureAlgorithms(kept);
    case UseSrtp(profiles, mki) =>
      var out := ShuffleList(profiles, 0, draws);
      return UseSrtp(out, mki);
    case PointFormats(formats) =>
      var a := new byte[|formats|](i requires 0 <= i < |formats| => formats[i]);
      assert a[0..|formats|] == formats;
      Shuffle(a, 0, |formats|, draws);
      assert a[0..|formats|] == a[..];
      return PointFormats(a[..]);
    case _ =>
      return e;
  }

  method Cut(s: seq<nat>, longerThan: nat, draw: Draw) returns (r: seq<nat>)
    ensures r == Prefix(s, longerThan, draw)
  {
    r := s;
    if draw.Some? && |s| > longerThan {
      var keep := 1 + draw.value % |s|;
      if keep > |s| {
        keep := |s|;
      }
      r := s[..keep];
    }
  }

  /** The list with everything from `from` on shuffled in place. */
  method ShuffleList(s: seq<nat>, from: nat, draws: Draws) returns (r: seq<nat>)
    requires from <= |s|
    ensures r == s[..from] + Shuffled(s[from..], |s| - from, draws)
  {
    var a := new nat[|s|](i requires 0 <= i < |s| => s[i]);
    assert a[..] == s;
    assert a[..from] == s[..from] && a[from..|s|] == s[from..];
    hide Shuffled;
    Shuffle(a, from, |s|, draws);
    ghost var head, tail := a[..from], a[from..|s|];
    assert a[..] == head + tail;
    return a[..];
  }

  // ---------- the whole list ----------

  function RandomizedFields(es: seq<Extension>, draw: nat -> Draw, draws: nat -> Draws): (r: seq<Extension>)
    ensures |r| == |es|
  {
    seq(|es|, i requires 0 <= i < |es| => RandomizedField(es[i], draw(i), draws(i)))
  }

  function RandomizedExtensions(es: seq<Extension>, draw: nat -> Draw, draws: nat -> Draws, order: Draws)
    : seq<Extension>
  {
    Shuffled(RandomizedFields(es, draw, draws), |es|, order)
  }

  function Types(es: seq<Extension>): (r: seq<nat>)
    ensures |r| == |es|
  {
    seq(|es|, i requires 0 <= i < |es| => TypeOf(es[i]))
  }

  lemma {:induction false} TypesOfShuffled(es: seq<Extension>, n: nat, order: Draws)
    requires n <= |es|
    ensures Types(Shuffled(es, n, order)) == Shuffled(Types(es), n, order)
    decreases n
  {
    if n > 1 && order(n - 1).Some? {
      var j := order(n - 1).value % n;
      assert Types(Swapped(es, n - 1, j)) == Swapped(Types(es), n - 1, j);
      TypesOfShuffled(Swapped(es, n - 1, j), n - 1, order);
    }
  }

  /** The hook keeps every extension, each with its own kind, and changes only their order and the lists inside. */
  lemma ExtensionsKept(es: seq<Extension>, draw: nat -> Draw, draws: nat -> Draws, order: Draws)
    ensures var after := RandomizedExtensions(es, draw, draws, order);
            && multiset(Types(after)) == multiset(Types(es))
            && multiset(after) == multiset(RandomizedFields(es, draw, draws))
            && forall i :: 0 <= i < |es| ==> SameField(es[i], RandomizedFields(es, draw, draws)[i])
  {
    hide Shuffled, RandomizedField, SameField;
    var fields := RandomizedFields(es, draw, draws);
    ShuffledPermutes(fields, |es|, order);
    TypesOfShuffled(fields, |es|, order);
    ShuffledPermutes(Types(fields), |es|, order);
    forall i | 0 <= i < |es| ensures SameField(es[i], fields[i]) && TypeOf(fields[i]) == TypeOf(es[i]) {
      FieldKept(es[i], draw(i), draws(i));
      SameKind(es[i], fields[i]);
    }
    assert Types(fields) == Types(es);
  }

  lemma SameKind(e: Extension, f: Extension)
    requires SameField(e, f)
    ensures TypeOf(f) == TypeOf(e)
  {
  }

  method RandomizeExtensions(a: array<Extension>, draw: nat -> Draw, draws: nat -> Draws, order: Draws)
    modifies a
    ensures a[..] == RandomizedExtensions(old(a[..]), draw, draws, order)
  {
    hide RandomizedField, Shuffled;
    ghost var es := a[..];
    for i := 0 to a.Length
      invariant forall k :: 0 <= k < i ==> a[k] == RandomizedField(es[k], draw(k), draws(k))
      invariant forall k :: i <= k < a.Length ==> a[k] == es[k]
    {
      a[i] := RandomizeField(a[i], draw(i), draws(i));
    }
    assert a[..] == RandomizedFields(es, draw, draws);
    assert a[0..a.Length] == a[..];
    Shuffle(a, 0, a.Length, order);
    assert a[0..a.Length] == a[..];
  }
}
