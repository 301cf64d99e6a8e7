/**
 Fixed-width unsigned words as numbers, with the bitwise operators spelled out bit by bit.
 */
module Words {

  /** Bit `i` of `w`. */
  predicate Bit(w: nat, i: nat) {
    if i == 0 then w % 2 == 1 else Bit(w / 2, i - 1)
  }

  function Pow2(n: nat): (r: nat)
    ensures r > 0
  {
    if n == 0 then 1 else 2 * Pow2(n - 1)
  }

  /** The low `width` bits of `a | b`. */
  function Or(a: nat, b: nat, width: nat): (r: nat) {
    if width == 0 then 0
    else (if a % 2 == 1 || b % 2 == 1 then 1 else 0) + 2 * Or(a / 2, b / 2, width - 1)
  }

  /** The low `width` bits of `a ^ b`. */
  function Xor(a: nat, b: nat, width: nat): (r: nat) {
    if width == 0 then 0 else (a + b) % 2 + 2 * Xor(a / 2, b / 2, width - 1)
  }

  /** The low `width` bits of `a & b`. */
  function And(a: nat, b: nat, width: nat): (r: nat) {
    if width == 0 then 0
    else (if a % 2 == 1 && b % 2 == 1 then 1 else 0) + 2 * And(a / 2, b / 2, width - 1)
  }

  /** The low `width` bits of `a &^ b`. */
  function AndNot(a: nat, b: nat, width: nat): (r: nat) {
    if width == 0 then 0
    else (if a % 2 == 1 && b % 2 == 0 then 1 else 0) + 2 * AndNot(a / 2, b / 2, width - 1)
  }

  /** `w << s` on words of `width` bits: the bits shifted out at the top are lost. */
  function Shl(w: nat, s: nat, width: nat): nat {
    if s == 0 then w else (2 * Shl(w, s - 1, width)) % Pow2(width)
  }

  /** `w >> s`. */
  function Shr(w: nat, s: nat): nat {
    if s == 0 then w else Shr(w, s - 1) / 2
  }

  /** A 64-bit unsigned word. */
  type word = w: nat | w < 0x1_0000_0000_0000_0000

  function Or64(a: word, b: word): word {
    OrBound(a, b, 64); Pow64();
    Or(a, b, 64)
  }

  function Shl64(w: word, s: nat): word {
    Pow64(); ShlBound(w, s, 64);
    Shl(w, s, 64)
  }

  function Shr64(w: word, s: nat): word {
    ShrBound(w, s);
    Shr(w, s)
  }

  lemma Pow64()
    ensures Pow2(64) == 0x1_0000_0000_0000_0000
  {
    assert Pow2(8) == 0x100;
    Pow2Sum(8, 8); Pow2Sum(16, 16); Pow2Sum(32, 32);
  }

  lemma {:induction false} Pow2Sum(a: nat, b: nat)
    ensures Pow2(a + b) == Pow2(a) * Pow2(b)
  {
    if b > 0 {
      Pow2Sum(a, b - 1);
      assert 2 * (Pow2(a) * Pow2(b - 1)) == Pow2(a) * (2 * Pow2(b - 1));
    }
  }

  lemma {:induction false} OrBit(a: nat, b: nat, width: nat, i: nat)
    ensures Bit(Or(a, b, width), i) <==> i < width && (Bit(a, i) || Bit(b, i))
  {
    if width == 0 {
      NoBits(i);
    } else if i > 0 {
      OrBit(a / 2, b / 2, width - 1, i - 1);
    }
  }

  lemma {:induction false} NoBits(i: nat)
    ensures !Bit(0, i)
  {
    if i > 0 { NoBits(i - 1); }
  }

  lemma {:induction false} OrZero(width: nat)
    ensures Or(0, 0, width) == 0
  {
    if width > 0 { OrZero(width - 1); }
  }

  lemma {:induction false} ShlZero(s: nat, width: nat)
    ensures Shl(0, s, width) == 0
  {
    if s > 0 { ShlZero(s - 1, width); }
  }

  lemma {:induction false} OrBound(a: nat, b: nat, width: nat)
    ensures Or(a, b, width) < Pow2(width)
  {
    if width > 0 { OrBound(a / 2, b / 2, width - 1); }
  }

  lemma {:induction false} XorBound(a: nat, b: nat, width: nat)
    ensures Xor(a, b, width) < Pow2(width)
  {
    if width > 0 { XorBound(a / 2, b / 2, width - 1); }
  }

  /** Exclusive or and clearing are bitwise. */
  lemma {:induction false} XorBit(a: nat, b: nat, width: nat, i: nat)
    ensures Bit(Xor(a, b, width), i) <==> i < width && Bit(a, i) != Bit(b, i)
  {
    if width == 0 {
      NoBits(i);
    } else {
      var last, rest := (a + b) % 2, Xor(a / 2, b / 2, width - 1);
      HalveSum(rest, last);
      Parity(a, b);
      if i > 0 { XorBit(a / 2, b / 2, width - 1, i - 1); }
    }
  }

  lemma {:induction false} AndNotBit(a: nat, b: nat, width: nat, i: nat)
    ensures Bit(AndNot(a, b, width), i) <==> i < width && Bit(a, i) && !Bit(b, i)
  {
    if width == 0 {
      NoBits(i);
    } else if i > 0 {
      AndNotBit(a / 2, b / 2, width - 1, i - 1);
    }
  }

  lemma XorLastBit(last: nat, rest: nat, a: nat, b: nat)
    requires last == (a + b) % 2
    ensures (last + 2 * rest) / 2 == rest
    ensures (last + 2 * rest + b) % 2 == a % 2
  {
  }

  /** Applying the same mask twice gives the word back. */
  lemma {:induction false} XorTwice(a: nat, b: nat, width: nat)
    requires a < Pow2(width)
    ensures Xor(Xor(a, b, width), b, width) == a
  {
    if width > 0 {
      XorTwice(a / 2, b / 2, width - 1);
      XorLastBit((a + b) % 2, Xor(a / 2, b / 2, width - 1), a, b);
    }
  }

  lemma HalveModulo(w: nat, d: nat, p: nat)
    requires d == 2 * p && p > 0
    ensures (w % d) / 2 == (w / 2) % p && (w % d) % 2 == w % 2
  {
    var q, r := w / d, w % d;
    QuotientAndRest(w, d);
    HalveParts(w, p, d, q, r);
  }

  lemma QuotientAndRest(n: nat, d: nat)
    requires d > 0
    ensures n / d >= 0 && n == d * (n / d) + n % d && n % d < d
  {
  }

  lemma HalveParts(w: nat, p: nat, d: nat, q: nat, r: nat)
    requires d == 2 * p && w == d * q + r && r < d
    ensures (w / 2) % p == r / 2 && w % 2 == r % 2
  {
    DoubleFirst(p, q);
    HalveSum(p * q, r);
    ModuloOfMultiple(p, q, r / 2);
  }

  lemma DoubleFirst(p: nat, q: nat)
    ensures (2 * p) * q == 2 * (p * q)
  {
  }

  lemma HalveSum(k: nat, r: nat)
    ensures (2 * k + r) / 2 == k + r / 2
    ensures (2 * k + r) % 2 == r % 2
  {
  }

  lemma ModuloOfMultiple(p: nat, q: nat, r: nat)
    requires r < p
    ensures (p * q + r) % p == r
  {
    var n := p * q + r;
    var d := n / p - q;
    assert n == p * (n / p) + n % p;
    assert p * d == r - n % p;
    MultipleApart(p, d);
  }

  lemma MultipleApart(p: int, d: int)
    requires p >= 0
    ensures d >= 1 ==> p * d >= p
    ensures d <= -1 ==> p * d <= -p
  {
  }

  lemma {:induction false} TruncatedBit(w: nat, width: nat, i: nat)
    ensures Bit(w % Pow2(width), i) <==> i < width && Bit(w, i)
  {
    if width == 0 {
      NoBits(i);
    } else {
      HalveModulo(w, Pow2(width), Pow2(width - 1));
      if i > 0 { TruncatedBit(w / 2, width - 1, i - 1); }
    }
  }

  lemma {:induction false} ShlBit(w: nat, s: nat, width: nat, i: nat)
    requires i < width
    ensures Bit(Shl(w, s, width), i) <==> i >= s && Bit(w, i - s)
  {
    if s > 0 {
      var half := Shl(w, s - 1, width);
      TruncatedBit(2 * half, width, i);
      if i > 0 {
        assert (2 * half) / 2 == half;
        ShlBit(w, s - 1, width, i - 1);
      }
    }
  }

  lemma {:induction false} ShlBound(w: nat, s: nat, width: nat)
    requires w < Pow2(width)
    ensures Shl(w, s, width) < Pow2(width)
  {
    if s > 0 { ShlBound(w, s - 1, width); }
  }

  lemma {:induction false} ShrBit(w: nat, s: nat, i: nat)
    ensures Bit(Shr(w, s), i) <==> Bit(w, i + s)
  {
    if s > 0 { ShrBit(w, s - 1, i + 1); }
  }

  lemma {:induction false} ShrBound(w: nat, s: nat)
    ensures Shr(w, s) <= w
  {
    if s > 0 { ShrBound(w, s - 1); }
  }

  /** A word has no bit at or above its width. */
  lemma {:induction false} BitBound(w: nat, width: nat, i: nat)
    requires w < Pow2(width) && i >= width
    ensures !Bit(w, i)
  {
    if width == 0 {
      NoBits(i);
    } else {
      BitBound(w / 2, width - 1, i - 1);
    }
  }

  /** `1 << j` has exactly the bit `j`. */
  lemma MaskBit(j: nat, width: nat, i: nat)
    requires i < width
    ensures Bit(Shl(1, j, width), i) <==> i == j
  {
    ShlBit(1, j, width, i);
    if i > j { NoBits(i - j - 1); }
  }

  lemma {:induction false} AndBit(a: nat, b: nat, width: nat, i: nat)
    ensures Bit(And(a, b, width), i) <==> i < width && Bit(a, i) && Bit(b, i)
  {
    if width == 0 {
      NoBits(i);
    } else if i > 0 {
      AndBit(a / 2, b / 2, width - 1, i - 1);
    }
  }

  lemma {:induction false} AndBound(a: nat, b: nat, width: nat)
    ensures And(a, b, width) < Pow2(width)
  {
    if width > 0 { AndBound(a / 2, b / 2, width - 1); }
  }

  lemma {:induction false} NoBitsIsZero(w: nat, width: nat)
    requires w < Pow2(width) && forall i :: 0 <= i < width ==> !Bit(w, i)
    ensures w == 0
  {
    if width > 0 {
      assert !Bit(w, 0);
      forall i | 0 <= i < width - 1 ensures !Bit(w / 2, i) { assert !Bit(w, i + 1); }
      NoBitsIsZero(w / 2, width - 1);
    }
  }

  /** Testing a word against `1 << j` reads its bit `j`. */
  lemma MaskTest(w: nat, j: nat, width: nat)
    requires j < width
    ensures And(w, Shl(1, j, width), width) != 0 <==> Bit(w, j)
  {
    hide And, Shl, Bit;
    var mask := Shl(1, j, width);
    forall i | 0 <= i < width ensures Bit(And(w, mask, width), i) <==> i == j && Bit(w, j) {
      AndBit(w, mask, width, i);
      MaskBit(j, width, i);
    }
    if Bit(w, j) {
      NoBits(j);
    } else {
      AndBound(w, mask, width);
      NoBitsIsZero(And(w, mask, width), width);
    }
  }

  lemma {:induction false} AndNotBound(a: nat, b: nat, width: nat)
    ensures AndNot(a, b, width) < Pow2(width)
  {
    if width > 0 { AndNotBound(a / 2, b / 2, width - 1); }
  }

  /** A full word is kept, and an empty one left empty, by a mask. */
  lemma {:induction false} AndMask(b: nat, width: nat)
    requires b < Pow2(width)
    ensures And(Pow2(width) - 1, b, width) == b && And(0, b, width) == 0
  {
    if width > 0 {
      AndMask(b / 2, width - 1);
      assert (2 * Pow2(width - 1) - 1) / 2 == Pow2(width - 1) - 1;
    }
  }

  /** Clearing bits leaves a word full exactly when it was full and none were cleared. */
  lemma {:induction false} AndNotFull(a: nat, b: nat, width: nat)
    requires a < Pow2(width) && b < Pow2(width)
    ensures AndNot(a, b, width) == Pow2(width) - 1 <==> a == Pow2(width) - 1 && b == 0
  {
    if width > 0 {
      AndNotFull(a / 2, b / 2, width - 1);
      AndNotBound(a / 2, b / 2, width - 1);
    }
  }

  lemma Parity(a: nat, b: nat)
    ensures (a + b) % 2 == 0 <==> a % 2 == b % 2
    ensures a == b <==> a / 2 == b / 2 && a % 2 == b % 2
  {
    assert a + b == 2 * (a / 2 + b / 2) + (a % 2 + b % 2);
    HalveSum(a / 2 + b / 2, a % 2 + b % 2);
  }

  lemma {:induction false} XorSame(a: nat, b: nat, width: nat)
    requires a < Pow2(width) && b < Pow2(width)
    ensures Xor(a, b, width) == 0 <==> a == b
  {
    if width > 0 {
      XorSame(a / 2, b / 2, width - 1);
      Parity(a, b);
    }
  }

  /** Every bit below the width is set. */
  predicate AllBits(w: nat, width: nat) {
    width == 0 || (Bit(w, width - 1) && AllBits(w, width - 1))
  }

  lemma {:induction false} AllBitsHalf(w: nat, width: nat)
    requires width > 0
    ensures AllBits(w, width) <==> w % 2 == 1 && AllBits(w / 2, width - 1)
  {
    if width > 1 { AllBitsHalf(w, width - 1); }
  }

  lemma {:induction false} AllBitsIsFull(w: nat, width: nat)
    requires w < Pow2(width)
    ensures AllBits(w, width) <==> w == Pow2(width) - 1
  {
    if width > 0 {
      AllBitsHalf(w, width);
      AllBitsIsFull(w / 2, width - 1);
    }
  }
}
