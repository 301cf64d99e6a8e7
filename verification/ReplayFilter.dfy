/**
 The sliding-window anti-replay filter: 128 words of 64 bits, bit `d` standing for the
 sequence number `maxSeq - d`. The window moves by a word shift followed by a bit shift.
 The two together are shown to be one shift of the whole 8192-bit set, and the filter to
 refine a plain set of accepted numbers over every sequence of calls.
 */
module ReplayFilter {
  import opened Words

  const WINDOW: nat := 8192
  const WORDS: nat := 128

  // ---------- the 8192-bit set ----------

  predicate BitAt(words: seq<word>, d: nat)
    requires |words| == WORDS && d < WINDOW
  {
    Bit(words[d / 64], d % 64)
  }

  function WordShifted(words: seq<word>, n: nat): (r: seq<word>)
    requires |words| == WORDS
  {
    seq(WORDS, i requires 0 <= i < WORDS => if i >= n then words[i - n] else 0)
  }

  function BitShifted(words: seq<word>, n: nat): (r: seq<word>)
    requires |words| == WORDS && 0 < n < 64
  {
    seq(WORDS, i requires 0 <= i < WORDS =>
      if i > 0 then Or64(Shl64(words[i], n), Shr64(words[i - 1], 64 - n)) else Shl64(words[0], n))
  }

  function Advanced(words: seq<word>, shift: nat): (r: seq<word>)
    requires |words| == WORDS
    ensures |r| == WORDS
  {
    var moved := WordShifted(words, shift / 64);
    if shift % 64 == 0 then moved else BitShifted(moved, shift % 64)
  }

  lemma WordShiftedIs(words: seq<word>, after: seq<word>, n: nat)
    requires |words| == |after| == WORDS && n < WORDS
    requires forall k :: 0 <= k < n ==> after[k] == 0
    requires forall k :: n <= k < WORDS ==> after[k] == words[k - n]
    ensures after == WordShifted(words, n)
  {
  }

  lemma WordShiftedAt(words: seq<word>, n: nat, d: nat)
    requires |words| == WORDS && d < WINDOW
    ensures BitAt(WordShifted(words, n), d) <==> d >= 64 * n && BitAt(words, d - 64 * n)
  {
    if d / 64 < n {
      NoBits(d % 64);
    }
  }

  lemma BitShiftedWord(words: seq<word>, n: nat, i: nat, j: nat)
    requires |words| == WORDS && 0 < n < 64 && i < WORDS && j < 64
    ensures Bit(BitShifted(words, n)[i], j) <==>
            if j >= n then Bit(words[i], j - n) else i > 0 && Bit(words[i - 1], j + 64 - n)
  {
    ShlBit(words[i], n, 64, j);
    if i > 0 {
      OrBit(Shl64(words[i], n), Shr64(words[i - 1], 64 - n), 64, j);
      ShrBit(words[i - 1], 64 - n, j);
      Pow64();
      if j >= n { BitBound(words[i - 1], 64, j + 64 - n); }
    }
  }

  lemma BitShiftedAt(words: seq<word>, n: nat, d: nat)
    requires |words| == WORDS && 0 < n < 64 && d < WINDOW
    ensures BitAt(BitShifted(words, n), d) <==> d >= n && BitAt(words, d - n)
  {
    var i, j := d / 64, d % 64;
    BitShiftedWord(words, n, i, j);
    if d >= n {
      assert j >= n ==> (d - n) / 64 == i && (d - n) % 64 == j - n;
      assert j < n ==> (d - n) / 64 == i - 1 && (d - n) % 64 == j + 64 - n;
    }
  }

  lemma ShiftsCompose(words: seq<word>, n: nat, b: nat, d: nat)
    requires |words| == WORDS && d < WINDOW && 0 < b < 64
    ensures BitAt(BitShifted(WordShifted(words, n), b), d) <==>
            d >= 64 * n + b && BitAt(words, d - 64 * n - b)
  {
    hide BitAt;
    var moved, e := WordShifted(words, n), d - 64 * n - b;
    BitShiftedAt(moved, b, d);
    if d >= b {
      WordShiftedAt(words, n, d - b);
      assert d - b - 64 * n == e;
    }
  }

  /** Shifting by whole words and then by the remaining bits is one shift of the whole bit set. */
  lemma AdvancedIsOneShift(words: seq<word>, shift: nat, d: nat)
    requires |words| == WORDS && d < WINDOW
    ensures BitAt(Advanced(words, shift), d) <==> d >= shift && BitAt(words, d - shift)
  {
    hide BitAt;
    if shift % 64 == 0 {
      WordShiftedAt(words, shift / 64, d);
    } else {
      ShiftsCompose(words, shift / 64, shift % 64, d);
    }
  }

  function WithBit(words: seq<word>, offset: nat): seq<word>
    requires |words| == WORDS && offset < WINDOW
  {
    words[offset / 64 := Or64(words[offset / 64], Shl64(1, offset % 64))]
  }

  /** Setting one bit changes that bit and no other. */
  lemma WithBitAt(words: seq<word>, offset: nat, d: nat)
    requires |words| == WORDS && offset < WINDOW && d < WINDOW
    ensures BitAt(WithBit(words, offset), d) <==> d == offset || BitAt(words, d)
  {
    OrBit(words[offset / 64], Shl64(1, offset % 64), 64, d % 64);
    MaskBit(offset % 64, 64, d % 64);
  }

  /** `after` has the bit `offset`, and every other bit as `words` has it. */
  ghost predicate OneBitSet(words: seq<word>, after: seq<word>, offset: nat)
    requires |words| == |after| == WORDS
  {
    forall d: nat :: d < WINDOW ==> (BitAt(after, d) <==> d == offset || BitAt(words, d))
  }

  lemma ZeroStaysZero(words: seq<word>, n: nat)
    requires |words| == WORDS && 0 < n < 64
    requires forall i :: 0 <= i < WORDS ==> words[i] == 0
    ensures BitShifted(words, n) == words
  {
    ShlZero(n, 64);
    OrZero(64);
    ShrBound(0, 64 - n);
  }

  // ---------- the set the filter stands for ----------

  datatype Window = Window(maxSeq: nat, accepted: set<nat>)

  predicate Fresh(w: Window, n: nat) {
    n !in w.accepted && (n > w.maxSeq || w.maxSeq - n < WINDOW)
  }

  function After(w: Window, n: nat): Window {
    if !Fresh(w, n) then w
    else Window(if n > w.maxSeq then n else w.maxSeq, w.accepted + {n})
  }

  /** The bitmap shows exactly the accepted numbers that are still inside the window. */
  ghost predicate Shows(words: seq<word>, w: Window)
    requires |words| == WORDS
  {
    && (forall n :: n in w.accepted ==> n <= w.maxSeq)
    && (forall d: nat :: d < WINDOW ==> (BitAt(words, d) <==> d <= w.maxSeq && w.maxSeq - d in w.accepted))
  }

  lemma AllClear(words: seq<word>)
    requires |words| == WORDS && forall i :: 0 <= i < WORDS ==> words[i] == 0
    ensures forall d: nat :: d < WINDOW ==> !BitAt(words, d)
  {
    forall d: nat | d < WINDOW ensures !BitAt(words, d) { NoBits(d % 64); }
  }

  lemma ShowsAfterAdvance(words: seq<word>, w: Window, n: nat)
    requires |words| == WORDS && Shows(words, w) && n > w.maxSeq
    ensures Shows(Advanced(words, n - w.maxSeq), Window(n, w.accepted))
  {
    hide BitAt, Advanced;
    var moved := Advanced(words, n - w.maxSeq);
    forall d: nat | d < WINDOW
      ensures BitAt(moved, d) <==> d <= n && n - d in w.accepted
    {
      AdvancedIsOneShift(words, n - w.maxSeq, d);
      assert d >= n - w.maxSeq ==> n - d == w.maxSeq - (d - (n - w.maxSeq));
    }
  }

  /** Clearing agrees with advancing by more than the window. */
  lemma ShowsAfterClear(words: seq<word>, w: Window, n: nat)
    requires |words| == WORDS && Shows(words, w) && n >= w.maxSeq + WINDOW
    ensures Shows(seq(WORDS, i => 0), Window(n, w.accepted))
  {
    AllClear(seq(WORDS, i => 0));
  }

  lemma ShowsAfterSet(words: seq<word>, after: seq<word>, w: Window, offset: nat)
    requires |words| == |after| == WORDS && Shows(words, w) && offset < WINDOW && offset <= w.maxSeq
    requires OneBitSet(words, after, offset)
    ensures Shows(after, w.(accepted := w.accepted + {w.maxSeq - offset}))
  {
    hide BitAt;
  }

  // ---------- the filter ----------

  class Filter {
    var maxSeq: word
    const bitmap: array<word>
    ghost var accepted: set<nat>

    ghost predicate Valid()
      reads this, bitmap
    {
      bitmap.Length == WORDS && Shows(bitmap[..], Abs())
    }

    ghost function Abs(): Window
      reads this
    {
      Window(maxSeq, accepted)
    }

    constructor ()
      ensures Valid() && fresh(bitmap) && Abs() == Window(0, {})
    {
      maxSeq, accepted := 0, {};
      bitmap := new word[WORDS](i => 0);
      new;
      AllClear(bitmap[..]);
    }

    /** The bit at `offset` is set afterwards, and no other bit changes. */
    method SetBit(offset: nat)
      requires bitmap.Length == WORDS && offset < WINDOW
      modifies bitmap
      ensures OneBitSet(old(bitmap[..]), bitmap[..], offset)
    {
      ghost var before := bitmap[..];
      var idx := offset / 64;
      var bit := offset % 64;
      bitmap[idx] := Or64(bitmap[idx], Shl64(1, bit));
      assert bitmap[..] == WithBit(before, offset);
      forall d: nat | d < WINDOW ensures BitAt(bitmap[..], d) <==> d == offset || BitAt(before, d) {
        WithBitAt(before, offset, d);
      }
    }

    /** In a filter whose bitmap shows the accepted numbers, the test says whether one was accepted. */
    method GetBit(offset: nat) returns (isSet: bool)
      requires bitmap.Length == WORDS && offset < WINDOW
      ensures isSet == BitAt(bitmap[..], offset)
      ensures Valid() ==> (isSet <==> offset <= maxSeq && maxSeq - offset in accepted)
    {
      var idx := offset / 64;
      var bit := offset % 64;
      MaskTest(bitmap[idx], bit, 64);
      isSet := And(bitmap[idx], Shl64(1, bit), 64) != 0;
    }

    method Clear()
      requires bitmap.Length == WORDS
      modifies bitmap
      ensures bitmap[..] == seq(WORDS, i => 0)
    {
      forall i | 0 <= i < bitmap.Length { bitmap[i] := 0; }
    }

    method AdvanceWindow(shift: nat)
      requires bitmap.Length == WORDS
      modifies bitmap
      ensures bitmap[..] == Advanced(old(bitmap[..]), shift)
    {
      ghost var before := bitmap[..];
      var wordShift := shift / 64;
      var bitShift := shift % 64;
      if wordShift >= WORDS {
        Clear();
        assert WordShifted(before, wordShift) == bitmap[..];
        if bitShift > 0 { ZeroStaysZero(bitmap[..], bitShift); }
        return;
      }
      if wordShift > 0 {
        ShiftWords(wordShift);
      } else {
        assert WordShifted(before, 0) == before;
      }
      if bitShift > 0 {
        ShiftBits(bitShift);
      }
    }

    method ShiftWords(n: nat)
      requires bitmap.Length == WORDS && 0 < n < WORDS
      modifies bitmap
      ensures bitmap[..] == WordShifted(old(bitmap[..]), n)
    {
      ghost var before := bitmap[..];
      var i: int := WORDS - 1;
      while i >= n
        invariant n - 1 <= i < WORDS
        invariant forall k :: i < k < WORDS ==> bitmap[k] == before[k - n]
        invariant forall k :: 0 <= k <= i ==> bitmap[k] == before[k]
      {
        bitmap[i] := bitmap[i - n];
        i := i - 1;
      }
      ClearLow(n);
      WordShiftedIs(before, bitmap[..], n);
    }

    method ClearLow(n: nat)
      requires n <= bitmap.Length
      modifies bitmap
      ensures forall k :: 0 <= k < n ==> bitmap[k] == 0
      ensures forall k :: n <= k < bitmap.Length ==> bitmap[k] == old(bitmap[k])
    {
      var i := 0;
      while i < n
        invariant 0 <= i <= n
        invariant forall k :: n <= k < bitmap.Length ==> bitmap[k] == old(bitmap[k])
        invariant forall k :: 0 <= k < i ==> bitmap[k] == 0
      {
        bitmap[i] := 0;
        i := i + 1;
      }
    }

    method ShiftBits(n: nat)
      requires bitmap.Length == WORDS && 0 < n < 64
      modifies bitmap
      ensures bitmap[..] == BitShifted(old(bitmap[..]), n)
    {
      var i := WORDS - 1;
      while i > 0
        invariant 0 <= i < WORDS
        invariant forall k :: i < k < WORDS ==>
                  bitmap[k] == Or64(Shl64(old(bitmap[k]), n), Shr64(old(bitmap[k - 1]), 64 - n))
        invariant forall k :: 0 <= k <= i ==> bitmap[k] == old(bitmap[k])
      {
        bitmap[i] := Or64(Shl64(bitmap[i], n), Shr64(bitmap[i - 1], 64 - n));
        i := i - 1;
      }
      bitmap[0] := Shl64(bitmap[0], n);
    }

    /** A number above the window top: move the window up to it and mark it. */
    method AcceptHigh(n: word)
      requires Valid() && n > maxSeq
      modifies this, bitmap
      ensures Valid() && Abs() == After(old(Abs()), n)
    {
      hide Advanced, BitAt, OneBitSet;
      ghost var words, w := bitmap[..], Abs();
      var shift := n - maxSeq;
      if shift >= WINDOW {
        Clear();
        ShowsAfterClear(words, w, n);
      } else {
        AdvanceWindow(shift);
        ShowsAfterAdvance(words, w, n);
      }
      maxSeq := n;
      ghost var moved, top := bitmap[..], Abs();
      SetBit(0);
      ShowsAfterSet(moved, bitmap[..], top, 0);
      accepted := accepted + {n};
    }

    /** A number is accepted exactly when it is fresh for the set of numbers accepted so far. */
    method Check(n: word) returns (ok: bool)
      requires Valid()
      modifies this, bitmap
      ensures Valid()
      ensures ok == Fresh(old(Abs()), n)
      ensures Abs() == After(old(Abs()), n)
    {
      hide BitAt, OneBitSet;
      if n > maxSeq {
        AcceptHigh(n);
        return true;
      }
      var diff := maxSeq - n;
      if diff >= WINDOW {
        return false;
      }
      var seen := GetBit(diff);
      if seen {
        return false;
      }
      ghost var before, w := bitmap[..], Abs();
      SetBit(diff);
      ShowsAfterSet(before, bitmap[..], w, diff);
      accepted := accepted + {n};
      return true;
    }
  }

  // ---------- every sequence of calls ----------

  function Run(calls: seq<nat>): Window {
    if calls == [] then Window(0, {}) else After(Run(calls[..|calls| - 1]), calls[|calls| - 1])
  }

  predicate Verdict(calls: seq<nat>, i: nat)
    requires i < |calls|
  {
    Fresh(Run(calls[..i]), calls[i])
  }

  function Highest(calls: seq<nat>): nat {
    if calls == [] then 0
    else
      var m := Highest(calls[..|calls| - 1]);
      if calls[|calls| - 1] > m then calls[|calls| - 1] else m
  }

  /** The verdict on a call depends on the calls before it only. */
  lemma VerdictOfPrefix(calls: seq<nat>, m: nat, j: nat)
    requires j < m <= |calls|
    ensures Verdict(calls, j) == Verdict(calls[..m], j)
  {
    assert calls[..j] == calls[..m][..j];
  }

  ghost predicate LetThrough(calls: seq<nat>, n: nat) {
    exists j: nat :: j < |calls| && calls[j] == n && Verdict(calls, j)
  }

  lemma LetThroughStep(calls: seq<nat>, n: nat)
    requires calls != []
    ensures var m := |calls| - 1;
            LetThrough(calls, n) <==> LetThrough(calls[..m], n) || (calls[m] == n && Verdict(calls, m))
  {
    var m := |calls| - 1;
    if LetThrough(calls[..m], n) {
      var j: nat :| j < m && calls[..m][j] == n && Verdict(calls[..m], j);
      VerdictOfPrefix(calls, m, j);
    }
    if LetThrough(calls, n) {
      var j: nat :| j < |calls| && calls[j] == n && Verdict(calls, j);
      if j < m {
        VerdictOfPrefix(calls, m, j);
        assert calls[..m][j] == n;
      }
    }
  }

  /** After any calls the window top is the largest number offered, and the set is the numbers let through. */
  lemma {:induction false} RunFromHistory(calls: seq<nat>)
    ensures Run(calls).maxSeq == Highest(calls)
    ensures forall n :: n in Run(calls).accepted <==> LetThrough(calls, n)
    ensures forall n :: n in Run(calls).accepted ==> n <= Run(calls).maxSeq
  {
    if calls != [] {
      var m := |calls| - 1;
      RunFromHistory(calls[..m]);
      forall n ensures n in Run(calls).accepted <==> LetThrough(calls, n) {
        LetThroughStep(calls, n);
      }
    }
  }

  /**
   The verdict on call `i` in terms of the calls alone: no earlier call with the same number
   was let through, and the number is less than a window behind the largest one offered.
   */
  lemma VerdictFromHistory(calls: seq<nat>, i: nat)
    requires i < |calls|
    ensures Verdict(calls, i) <==>
            (forall j: nat :: j < i && calls[j] == calls[i] ==> !Verdict(calls, j)) &&
            calls[i] + WINDOW > Highest(calls[..i])
  {
    RunFromHistory(calls[..i]);
    if LetThrough(calls[..i], calls[i]) {
      var j: nat :| j < i && calls[..i][j] == calls[i] && Verdict(calls[..i], j);
      VerdictOfPrefix(calls, i, j);
    }
    if j: nat :| j < i && calls[j] == calls[i] && Verdict(calls, j) {
      VerdictOfPrefix(calls, i, j);
      assert calls[..i][j] == calls[i];
    }
  }
}
