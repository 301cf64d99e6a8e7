/** Byte strings and big-endian numbers of a fixed width. */
module Bytes {
  import Words

  type byte = x: int | 0 <= x < 256
  type bytes = seq<byte>

  const U16: nat := 0x1_0000
  const U24: nat := 0x100_0000
  const U32: nat := 0x1_0000_0000
  const U64: nat := 0x1_0000_0000_0000_0000

  function Min(a: nat, b: nat): nat {
    if a < b then a else b
  }

  function Zeros(n: nat): (r: bytes)
    ensures |r| == n
  {
    seq(n, _ => 0)
  }
  const U48: nat := 0x1_0000_0000_0000

  datatype Option<+T> = None | Some(value: T)

  /** The list `done` followed by the rest of a computation that may fail. */
  function Continue<T>(done: seq<T>, rest: Option<seq<T>>): (r: Option<seq<T>>) {
    if rest.None? then None else Some(done + rest.value)
  }

  lemma ContinueTwice<T>(a: seq<T>, b: seq<T>, rest: Option<seq<T>>)
    ensures Continue(a, Continue(b, rest)) == Continue(a + b, rest)
  {
    if rest.Some? { assert a + (b + rest.value) == (a + b) + rest.value; }
  }

  lemma ContinueEmpty<T>(rest: Option<seq<T>>)
    ensures Continue([], rest) == rest
  {
    if rest.Some? { assert [] + rest.value == rest.value; }
  }

  lemma ContinueDone<T>(a: seq<T>)
    ensures Continue(a, Some([])) == Some(a)
  {
    assert a + [] == a;
  }

  lemma FrontAndLast<T>(s: seq<T>)
    requires s != []
    ensures s[..|s| - 1] + [s[|s| - 1]] == s
  {
  }

  lemma TailOfSum<T>(a: seq<T>, b: seq<T>)
    requires a != []
    ensures (a + b)[1..] == a[1..] + b
  {
  }

  lemma FrontOfSum<T>(a: seq<T>, b: seq<T>)
    requires b != []
    ensures (a + b)[..|a + b| - 1] == a + b[..|b| - 1]
  {
  }

  lemma Associates<T>(a: seq<T>, b: seq<T>, c: seq<T>)
    ensures a + b + c == a + (b + c)
  {
  }

  function Pow256(k: nat): (r: nat)
    ensures r > 0
  {
    if k == 0 then 1 else 256 * Pow256(k - 1)
  }

  /** The `k`-byte big-endian form of `n`; higher digits are dropped, as a narrowing conversion does. */
  function BE(n: nat, k: nat): (r: bytes)
    ensures |r| == k
  {
    if k == 0 then [] else BE(n / 256, k - 1) + [n % 256]
  }

  function Val(b: bytes): nat {
    if b == [] then 0 else 256 * Val(b[..|b| - 1]) + b[|b| - 1]
  }

  lemma {:induction false} ValBE(n: nat, k: nat)
    ensures Val(BE(n, k)) == n % Pow256(k)
  {
    if k > 0 {
      var front := BE(n / 256, k - 1);
      ValBE(n / 256, k - 1);
      assert BE(n, k)[..k - 1] == front;
      ModuloStep(n, Pow256(k - 1));
    }
  }

  lemma ModuloStep(n: nat, p: nat)
    requires p > 0
    ensures n % (256 * p) == 256 * ((n / 256) % p) + n % 256
  {
    var m, d := n / 256, n % 256;
    var q, r := m / p, m % p;
    assert n == (256 * p) * q + (256 * r + d) by {
      assert m == p * q + r;
      assert 256 * (p * q) == (256 * p) * q;
    }
    assert 256 * r + d < 256 * p;
    Words.ModuloOfMultiple(256 * p, q, 256 * r + d);
  }

  lemma {:induction false} ValBound(b: bytes)
    ensures Val(b) < Pow256(|b|)
  {
    if b != [] { ValBound(b[..|b| - 1]); }
  }

  lemma {:induction false} BEVal(b: bytes)
    ensures BE(Val(b), |b|) == b
  {
    if b != [] { BEVal(b[..|b| - 1]); }
  }

  lemma Widths()
    ensures Pow256(1) == 256 && Pow256(2) == U16 && Pow256(3) == U24 && Pow256(4) == U32 && Pow256(6) == U48
  {
    assert Pow256(5) == 256 * U32;
  }

  /** A field that fits its width reads back unchanged, wherever it stands. */
  lemma FieldReads(n: nat, k: nat, before: bytes, after: bytes)
    requires n < Pow256(k)
    ensures var b := before + BE(n, k) + after;
            b[|before|..|before| + k] == BE(n, k) && Val(b[|before|..|before| + k]) == n
  {
    ValBE(n, k);
    assert (before + BE(n, k) + after)[|before|..|before| + k] == BE(n, k);
    SmallModulo(n, Pow256(k));
  }

  lemma SmallModulo(n: nat, p: nat)
    requires n < p
    ensures n % p == n
  {
  }

  function Concat(parts: seq<bytes>): (r: bytes) {
    if parts == [] then [] else parts[0] + Concat(parts[1..])
  }

  lemma {:induction false} ConcatSum(a: seq<bytes>, b: seq<bytes>)
    ensures Concat(a + b) == Concat(a) + Concat(b)
  {
    if a == [] {
      assert a + b == b;
    } else {
      ConcatSum(a[1..], b);
      TailOfSum(a, b);
      Associates(a[0], Concat(a[1..]), Concat(b));
    }
  }

  lemma ConcatOne(x: bytes)
    ensures Concat([x]) == x
  {
    assert Concat([x]) == x + Concat([]);
  }

  lemma ConcatLast(a: seq<bytes>, x: bytes)
    ensures Concat(a + [x]) == Concat(a) + x
  {
    ConcatSum(a, [x]);
    ConcatOne(x);
  }

  /** A shorter list of parts gives a prefix of the longer one's bytes. */
  lemma ConcatPrefix(a: seq<bytes>, n: nat)
    requires n <= |a|
    ensures Concat(a[..n]) <= Concat(a)
  {
    ConcatSum(a[..n], a[n..]);
    assert a[..n] + a[n..] == a;
  }

  lemma OneByte(n: nat)
    requires n < 256
    ensures BE(n, 1) == [n]
  {
  }

  /** A string behind a length of `k` bytes, and what follows it. */
  function Prefixed(b: bytes, k: nat): (r: Option<(bytes, bytes)>)
    ensures r.Some? ==> |r.value.0| + |r.value.1| + k == |b|
  {
    if |b| < k then None
    else
      var n := Val(b[..k]);
      if |b| < k + n then None else Some((b[k..k + n], b[k + n..]))
  }

  lemma PrefixedReads(body: bytes, k: nat, after: bytes)
    requires |body| < Pow256(k)
    ensures Prefixed(BE(|body|, k) + body + after, k) == Some((body, after))
  {
    var b := BE(|body|, k) + body + after;
    FieldReads(|body|, k, [], body + after);
    assert b == [] + BE(|body|, k) + (body + after);
    assert b[k..k + |body|] == body && b[k + |body|..] == after;
  }

  /** Writes `src` into `a` from `at` on. */
  method Overwrite(a: array<byte>, at: nat, src: bytes)
    requires at + |src| <= a.Length
    modifies a
    ensures a[..] == old(a[..at]) + src + old(a[at + |src|..])
  {
    for k := 0 to |src|
      invariant forall i :: 0 <= i < at || at + k <= i < a.Length ==> a[i] == old(a[i])
      invariant forall i :: at <= i < at + k ==> a[i] == src[i - at]
    {
      a[at + k] := src[k];
    }
  }

  /** Writes `src` behind the first `at` bytes. */
  method Append(a: array<byte>, at: nat, src: bytes)
    requires at + |src| <= a.Length
    modifies a
    ensures a[..at + |src|] == old(a[..at]) + src
  {
    Overwrite(a, at, src);
  }
}
