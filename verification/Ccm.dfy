/**
 CCM, counter mode with CBC-MAC, over any 128-bit block cipher. The reference it is proved
 against is section 2 of RFC 3610: the authenticated blocks of section 2.2 and the key stream
 of section 2.3.
 */
module Ccm {
  import opened Bytes
  import Words

  const BLOCK: nat := 16

  type block = b: bytes | |b| == 16 witness seq(16, _ => 0)

  datatype Error =
    | InvalidTagSize
    | InvalidNonceSize
    | PlaintextTooLong
    | CiphertextTooShort
    | CiphertextTooLong
    | OpenFailed

  datatype Result<+T> = Ok(value: T) | Err(error: Error)

  /** The cipher with its two parameters, the size of the tag and of the length field, on ints of 64 or 32 bits. */
  datatype Params = Params(E: block -> block, M: nat, L: nat, wide: bool)

  predicate Valid(c: Params) {
    4 <= c.M <= 16 && c.M % 2 == 0 && 2 <= c.L <= 8
  }

  function NewCcm(E: block -> block, tagSize: int, nonceSize: int, wide: bool): (r: Result<Params>)
    ensures r.Ok? <==> tagSize in {4, 6, 8, 10, 12, 14, 16} && 7 <= nonceSize <= 13
    ensures r.Ok? ==> Valid(r.value) && NonceSize(r.value) == nonceSize && r.value.M == tagSize
  {
    if tagSize < 4 || tagSize > 16 || tagSize % 2 != 0 then Err(InvalidTagSize)
    else if 15 - nonceSize < 2 || 15 - nonceSize > 8 then Err(InvalidNonceSize)
    else Ok(Params(E, tagSize, 15 - nonceSize, wide))
  }

  function NonceSize(c: Params): int {
    15 - c.L
  }

  const MAX_INT64: nat := 0x7fff_ffff_ffff_ffff
  const MAX_INT32: nat := 0x7fff_ffff

  /**
   The longest plaintext, computed in 64-bit arithmetic: a shift by 64 gives 0, and 0 - 1 wraps.
   A result that an int of 32 bits does not hold is replaced.
   */
  function MaxLength(c: Params): nat
    requires Valid(c)
  {
    var shifted: nat := if c.L == 8 then 0 else Pow256(c.L);
    var mLen := (shifted + U64 - 1) % U64;
    var capped := if mLen > MAX_INT64 - c.M then MAX_INT64 - c.M else mLen;
    if !c.wide && capped > MAX_INT32 then MAX_INT32 - c.M else capped
  }

  lemma Powers()
    ensures Pow256(2) == U16 && Pow256(3) == U24 && Pow256(4) == U32 && Pow256(6) == U48
    ensures Pow256(7) == 256 * U48 && Pow256(8) == U64
  {
    Widths();
  }

  /** It is the largest number below both 256^L and the largest int less the tag. */
  lemma MaxLengthIs(c: Params)
    requires Valid(c)
    ensures var maxInt := if c.wide then MAX_INT64 else MAX_INT32;
            MaxLength(c) == Min(Pow256(c.L) - 1, maxInt - c.M)
    ensures MaxLength(c) < Pow256(c.L)
  {
    Powers();
    assert Pow256(5) == 256 * U32;
  }

  // ---------- bytes ----------

  function XorByte(a: byte, b: byte): byte {
    Words.XorBound(a, b, 8);
    assert Words.Pow2(8) == 256;
    Words.Xor(a, b, 8)
  }

  lemma XorByteTwice(a: byte, b: byte)
    ensures XorByte(XorByte(a, b), b) == a
  {
    assert Words.Pow2(8) == 256;
    Words.XorTwice(a, b, 8);
  }

  function OrByte(a: byte, b: byte): byte {
    Words.OrBound(a, b, 8);
    assert Words.Pow2(8) == 256;
    Words.Or(a, b, 8)
  }

  /** A number below 8 and a multiple of 8 have no bit in common. */
  lemma OrOctal(high: nat, low: nat)
    requires high < 32 && low < 8
    ensures OrByte(8 * high, low) == 8 * high + low
  {
    assert (8 * high) / 2 == 4 * high && (4 * high) / 2 == 2 * high && (2 * high) / 2 == high;
    var z := low / 2 / 2 / 2;
    assert z == 0;
    OrWithZero(high, 5);
    assert Words.Pow2(5) == 32;
    OrStep(8 * high, low, 8); OrStep(4 * high, low / 2, 7); OrStep(2 * high, low / 2 / 2, 6);
  }

  lemma OrStep(a: nat, b: nat, width: nat)
    requires width > 0
    ensures Words.Or(a, b, width) == (if a % 2 == 1 || b % 2 == 1 then 1 else 0) + 2 * Words.Or(a / 2, b / 2, width - 1)
  {
  }

  lemma {:induction false} OrWithZero(a: nat, width: nat)
    requires a < Words.Pow2(width)
    ensures Words.Or(a, 0, width) == a
  {
    if width > 0 { OrWithZero(a / 2, width - 1); }
  }

  /** `a` masked by the leading bytes of `b`. */
  function XorBytes(a: bytes, b: bytes): (r: bytes)
    requires |a| <= |b|
    ensures |r| == |a|
  {
    seq(|a|, i requires 0 <= i < |a| => XorByte(a[i], b[i]))
  }

  lemma XorBytesTwice(a: bytes, b: bytes)
    requires |a| <= |b|
    ensures XorBytes(XorBytes(a, b), b) == a
  {
    hide XorByte;
    forall i | 0 <= i < |a| ensures XorByte(XorByte(a[i], b[i]), b[i]) == a[i] { XorByteTwice(a[i], b[i]); }
  }

  // ---------- CBC-MAC ----------

  function Pad(data: bytes): block
    requires |data| <= BLOCK
  {
    data + Zeros(BLOCK - |data|)
  }

  /** A string cut into blocks, the last one filled up with zeros. */
  function Blocks(data: bytes): seq<block> {
    if data == [] then []
    else if |data| < BLOCK then [Pad(data)]
    else
      var first: block := data[..BLOCK];
      [first] + Blocks(data[BLOCK..])
  }

  function Chain(E: block -> block, x: block, blocks: seq<block>): block
    decreases |blocks|
  {
    if blocks == [] then x else Chain(E, E(XorBytes(x, blocks[0])), blocks[1..])
  }

  lemma {:induction false} ChainSum(E: block -> block, x: block, a: seq<block>, b: seq<block>)
    ensures Chain(E, x, a + b) == Chain(E, Chain(E, x, a), b)
    decreases |a|
  {
    if a == [] {
      assert a + b == b;
    } else {
      assert (a + b)[1..] == a[1..] + b;
      ChainSum(E, E(XorBytes(x, a[0])), a[1..], b);
    }
  }

  lemma ChainNone(E: block -> block, x: block)
    ensures Chain(E, x, []) == x
  {
  }

  lemma ChainOne(E: block -> block, x: block, b: block)
    ensures Chain(E, x, [b]) == E(XorBytes(x, b))
  {
    assert [b][1..] == [];
  }

  /** A prefix shorter than a block goes into the first block with as much of the rest as fits. */
  lemma BlocksHead(lead: bytes, a: bytes)
    requires 0 < |lead| < BLOCK
    ensures var n := if |a| < BLOCK - |lead| then |a| else BLOCK - |lead|;
            Blocks(lead + a) == [Pad(lead + a[..n])] + Blocks(a[n..])
  {
    var room := BLOCK - |lead|;
    if |a| < room {
      assert a[..|a|] == a && a[|a|..] == [];
      assert Blocks(lead + a) == [Pad(lead + a)] + [];
    } else {
      assert (lead + a)[..BLOCK] == lead + a[..room];
      assert Pad(lead + a[..room]) == lead + a[..room];
      assert (lead + a)[BLOCK..] == a[room..];
    }
  }

  // ---------- section 2.2 of RFC 3610 ----------

  function RfcFlags(c: Params, hasData: bool): byte
    requires Valid(c)
  {
    64 * (if hasData then 1 else 0) + 8 * ((c.M - 2) / 2) + (c.L - 1)
  }

  /** The first block: flags, nonce, and the length of the message in L bytes. */
  function B0(c: Params, nonce: bytes, length: nat, hasData: bool): (r: block)
    requires Valid(c) && |nonce| == NonceSize(c)
  {
    [RfcFlags(c, hasData)] + nonce + BE(length, c.L)
  }

  /** The length of the additional data as the standard writes it. */
  function RfcDataLength(n: nat): bytes {
    if n < 0xff00 then BE(n, 2) else if n < U32 then [0xff, 0xfe] + BE(n, 4) else [0xff, 0xff] + BE(n, 8)
  }

  /** The length of the additional data as the code writes it. */
  function DataLength(n: nat): bytes {
    if n <= 0xfeff then BE(n, 2) else if n < U32 then [0xfe, 0xff] + BE(n, 4) else [0xfe, 0xff] + BE(n, 8)
  }

  function DataBlocks(lead: bytes, adata: bytes): seq<block> {
    if adata == [] then [] else Blocks(lead + adata)
  }

  function RfcTag(c: Params, nonce: bytes, plaintext: bytes, adata: bytes): bytes
    requires Valid(c) && |nonce| == NonceSize(c)
  {
    Chain(c.E, c.E(B0(c, nonce, |plaintext|, adata != [])),
      DataBlocks(RfcDataLength(|adata|), adata) + Blocks(plaintext))[..c.M]
  }

  function TagValue(c: Params, nonce: bytes, plaintext: bytes, adata: bytes): bytes
    requires Valid(c) && |nonce| == NonceSize(c)
  {
    Chain(c.E, c.E(B0(c, nonce, |plaintext|, adata != [])),
      DataBlocks(DataLength(|adata|), adata) + Blocks(plaintext))[..c.M]
  }

  /**
   The blocks of the additional data are the standard's exactly up to 0xfeff bytes of it; past
   that the marker differs.
   */
  lemma DataBlocksAsRfc(adata: bytes)
    ensures DataBlocks(DataLength(|adata|), adata) == DataBlocks(RfcDataLength(|adata|), adata) <==> |adata| <= 0xfeff
    ensures |adata| > 0xfeff ==> DataLength(|adata|) == [0xfe, 0xff] + RfcDataLength(|adata|)[2..]
  {
    if |adata| > 0xfeff {
      var a, b := DataLength(|adata|) + adata, RfcDataLength(|adata|) + adata;
      assert Blocks(a)[0][0] == 0xfe;
      assert Blocks(b)[0][0] == 0xff;
    }
  }

  // ---------- section 2.3 of RFC 3610 ----------

  /** Counter block `i`. */
  function A(c: Params, nonce: bytes, i: nat): block
    requires Valid(c) && |nonce| == NonceSize(c)
  {
    [c.L - 1] + nonce + BE(i, c.L)
  }

  /** The next counter of counter mode: all sixteen bytes, as one big-endian number. */
  function Inc(x: block): block {
    BE(Val(x) + 1, BLOCK)
  }

  function IncTimes(x: block, k: nat): block {
    if k == 0 then x else Inc(IncTimes(x, k - 1))
  }

  /** Counter mode from a given first counter. */
  function Ctr(E: block -> block, iv: block, data: bytes): (r: bytes)
    ensures |r| == |data|
    decreases |data|
  {
    if |data| <= BLOCK then XorBytes(data, E(iv))
    else XorBytes(data[..BLOCK], E(iv)) + Ctr(E, Inc(iv), data[BLOCK..])
  }

  lemma {:induction false} ValSum(a: bytes, b: bytes)
    ensures Val(a + b) == Val(a) * Pow256(|b|) + Val(b)
  {
    if b == [] {
      assert a + b == a;
    } else {
      var front := b[..|b| - 1];
      assert (a + b)[..|a + b| - 1] == a + front;
      ValSum(a, front);
      FactorMoves(Val(a), Pow256(|front|));
      Digits(Val(a) * Pow256(|front|), Val(front), b[|front|]);
    }
  }

  lemma Digits(high: nat, low: nat, d: nat)
    ensures 256 * (high + low) + d == 256 * high + (256 * low + d)
  {
  }

  lemma FactorMoves(x: nat, p: nat)
    ensures 256 * (x * p) == x * (256 * p)
  {
  }

  lemma {:induction false} BESum(high: nat, low: nat, a: nat, b: nat)
    requires low < Pow256(b)
    ensures BE(high * Pow256(b) + low, a + b) == BE(high, a) + BE(low, b)
  {
    if b > 0 {
      var n, p := high * Pow256(b) + low, Pow256(b - 1);
      FactorMoves(high, p);
      DigitsApart(high * p, low);
      BESum(high, low / 256, a, b - 1);
      assert BE(n, a + b) == BE(n / 256, a + b - 1) + [n % 256];
    }
  }

  lemma DigitsApart(k: nat, low: nat)
    ensures (256 * k + low) / 256 == k + low / 256 && (256 * k + low) % 256 == low % 256
  {
  }

  /** Below 256^L the increment stays within the L counter bytes. */
  lemma IncIsNext(c: Params, nonce: bytes, i: nat)
    requires Valid(c) && |nonce| == NonceSize(c) && i + 1 < Pow256(c.L)
    ensures Inc(A(c, nonce, i)) == A(c, nonce, i + 1)
  {
    hide BE, Val, Pow256;
    var lead := [c.L - 1] + nonce;
    ValSum(lead, BE(i, c.L));
    ValBE(i, c.L);
    SmallModulo(i, Pow256(c.L));
    BESum(Val(lead), i + 1, BLOCK - c.L, c.L);
    BEVal(lead);
    assert lead + BE(i, c.L) == A(c, nonce, i);
  }

  lemma {:induction false} CounterNeverCarries(c: Params, nonce: bytes, k: nat)
    requires Valid(c) && |nonce| == NonceSize(c) && k + 1 < Pow256(c.L)
    ensures IncTimes(A(c, nonce, 1), k) == A(c, nonce, k + 1)
  {
    hide Inc, A;
    if k > 0 {
      CounterNeverCarries(c, nonce, k - 1);
      IncIsNext(c, nonce, k);
    }
  }

  lemma {:induction false} IncFirst(x: block, k: nat)
    ensures IncTimes(Inc(x), k) == IncTimes(x, k + 1)
  {
    hide Inc;
    if k > 0 { IncFirst(x, k - 1); }
  }

  lemma {:induction false} CtrAt(E: block -> block, iv: block, data: bytes, k: nat)
    requires k < |data|
    ensures Ctr(E, iv, data)[k] == XorByte(data[k], E(IncTimes(iv, k / BLOCK))[k % BLOCK])
    decreases |data|
  {
    hide Inc, XorByte;
    if k >= BLOCK {
      CtrAt(E, Inc(iv), data[BLOCK..], k - BLOCK);
      IncFirst(iv, (k - BLOCK) / BLOCK);
      assert (k - BLOCK) / BLOCK + 1 == k / BLOCK && (k - BLOCK) % BLOCK == k % BLOCK;
    }
  }

  lemma {:induction false} CtrTwice(E: block -> block, iv: block, data: bytes)
    ensures Ctr(E, iv, Ctr(E, iv, data)) == data
    decreases |data|
  {
    hide Inc, XorBytes;
    if |data| <= BLOCK {
      XorBytesTwice(data, E(iv));
    } else {
      var out := Ctr(E, iv, data);
      assert out[..BLOCK] == XorBytes(data[..BLOCK], E(iv)) && out[BLOCK..] == Ctr(E, Inc(iv), data[BLOCK..]);
      XorBytesTwice(data[..BLOCK], E(iv));
      CtrTwice(E, Inc(iv), data[BLOCK..]);
    }
  }

  // ---------- sealing and opening ----------

  function TagOf(c: Params, nonce: bytes, plaintext: bytes, adata: bytes): Result<bytes>
    requires Valid(c)
  {
    if |nonce| != NonceSize(c) then Err(InvalidNonceSize)
    else if |plaintext| > MaxLength(c) then Err(PlaintextTooLong)
    else Ok(TagValue(c, nonce, plaintext, adata))
  }

  function Sealed(c: Params, nonce: bytes, plaintext: bytes, adata: bytes): Result<bytes>
    requires Valid(c)
  {
    var tag := TagOf(c, nonce, plaintext, adata);
    if tag.Err? then Err(tag.error)
    else Ok(Ctr(c.E, A(c, nonce, 1), plaintext) + XorBytes(tag.value, c.E(A(c, nonce, 0))))
  }

  function Opened(c: Params, nonce: bytes, sealedText: bytes, adata: bytes): Result<bytes>
    requires Valid(c)
  {
    if |sealedText| < c.M then Err(CiphertextTooShort)
    else if |sealedText| > MaxLength(c) + c.M then Err(CiphertextTooLong)
    else if |nonce| != NonceSize(c) then Err(InvalidNonceSize)
    else
      var n := |sealedText| - c.M;
      var plaintext := Ctr(c.E, A(c, nonce, 1), sealedText[..n]);
      if XorBytes(sealedText[n..], c.E(A(c, nonce, 0))) != TagValue(c, nonce, plaintext, adata) then Err(OpenFailed)
      else Ok(plaintext)
  }

  /** Sealing is what the standard describes, byte by byte. */
  ghost predicate IsRfcSealed(c: Params, nonce: bytes, p: bytes, adata: bytes, out: bytes)
    requires Valid(c) && |nonce| == NonceSize(c)
  {
    && |out| == |p| + c.M
    && (forall k :: 0 <= k < |p| ==> out[k] == XorByte(p[k], c.E(A(c, nonce, 1 + k / BLOCK))[k % BLOCK]))
    && (forall t :: 0 <= t < c.M ==> out[|p| + t] == XorByte(RfcTag(c, nonce, p, adata)[t], c.E(A(c, nonce, 0))[t]))
  }

  lemma SealIsRfc(c: Params, nonce: bytes, p: bytes, adata: bytes)
    requires Valid(c) && |adata| <= 0xfeff && Sealed(c, nonce, p, adata).Ok?
    ensures IsRfcSealed(c, nonce, p, adata, Sealed(c, nonce, p, adata).value)
  {
    hide A, Inc, XorByte, Ctr, Chain, MaxLength;
    DataBlocksAsRfc(adata);
    MaxLengthIs(c);
    forall k | 0 <= k < |p|
      ensures Ctr(c.E, A(c, nonce, 1), p)[k] == XorByte(p[k], c.E(A(c, nonce, 1 + k / BLOCK))[k % BLOCK])
    {
      CtrAt(c.E, A(c, nonce, 1), p, k);
      Powers();
      assert k / BLOCK + 1 <= k + 1 <= |p| < Pow256(c.L);
      CounterNeverCarries(c, nonce, k / BLOCK);
    }
  }

  /** A sealed text is opened to `p` exactly when it is what sealing `p` gives. */
  lemma OpenIsSealInverse(c: Params, nonce: bytes, sealedText: bytes, adata: bytes, p: bytes)
    requires Valid(c)
    ensures Opened(c, nonce, sealedText, adata) == Ok(p) <==> Sealed(c, nonce, p, adata) == Ok(sealedText)
  {
    hide A, Ctr, Chain, MaxLength, TagValue, XorBytes;
    TagLength(c, nonce, p, adata);
    if Sealed(c, nonce, p, adata) == Ok(sealedText) {
      CtrTwice(c.E, A(c, nonce, 1), p);
      XorBytesTwice(TagValue(c, nonce, p, adata), c.E(A(c, nonce, 0)));
      assert sealedText[..|p|] == Ctr(c.E, A(c, nonce, 1), p);
    }
    if Opened(c, nonce, sealedText, adata) == Ok(p) {
      var n := |sealedText| - c.M;
      CtrTwice(c.E, A(c, nonce, 1), sealedText[..n]);
      XorBytesTwice(sealedText[n..], c.E(A(c, nonce, 0)));
      assert sealedText[..n] + sealedText[n..] == sealedText;
    }
  }

  lemma TagLength(c: Params, nonce: bytes, p: bytes, adata: bytes)
    requires Valid(c)
    ensures |nonce| == NonceSize(c) ==> |TagValue(c, nonce, p, adata)| == c.M
  {
  }

  // ---------- the code ----------

  method CbcRound(c: Params, mac: array<byte>, data: bytes)
    requires mac.Length == BLOCK == |data|
    modifies mac
    ensures mac[..] == c.E(XorBytes(old(mac[..]), data))
  {
    hide XorByte;
    for i := 0 to BLOCK
      invariant forall k :: 0 <= k < i ==> mac[k] == XorByte(old(mac[k]), data[k])
      invariant forall k :: i <= k < BLOCK ==> mac[k] == old(mac[k])
    {
      mac[i] := XorByte(mac[i], data[i]);
    }
    assert mac[..] == XorBytes(old(mac[..]), data);
    Overwrite(mac, 0, c.E(mac[..]));
  }

  method CbcData(c: Params, mac: array<byte>, data: bytes)
    requires mac.Length == BLOCK
    modifies mac
    ensures mac[..] == Chain(c.E, old(mac[..]), Blocks(data))
  {
    hide XorBytes;
    var rest := data;
    while |rest| >= BLOCK
      invariant Chain(c.E, mac[..], Blocks(rest)) == Chain(c.E, old(mac[..]), Blocks(data))
    {
      CbcRound(c, mac, rest[..BLOCK]);
      rest := rest[BLOCK..];
    }
    if |rest| > 0 {
      ChainOne(c.E, mac[..], Pad(rest));
      CbcRound(c, mac, Pad(rest));
    }
  }

  lemma FlagsAsRfc(c: Params, hasData: bool)
    requires Valid(c)
    ensures OrByte(OrByte(if hasData then 64 else 0, 4 * (c.M - 2)), c.L - 1) == RfcFlags(c, hasData)
  {
    var m := (c.M - 2) / 2;
    assert 4 * (c.M - 2) == 8 * m;
    MarkerApart(m);
    OrOctal(m, c.L - 1);
    OrOctal(8 + m, c.L - 1);
  }

  lemma MarkerApart(m: nat)
    requires m < 8
    ensures OrByte(64, 8 * m) == 8 * (8 + m) && OrByte(0, 8 * m) == 8 * m
  {
    hide Words.Or;
    assert (8 * m) / 2 == 4 * m && (4 * m) / 2 == 2 * m && (2 * m) / 2 == m;
    OrStep(64, 8 * m, 8);
    OrStep(32, 4 * m, 7);
    OrStep(16, 2 * m, 6);
    OrStep(0, 8 * m, 8);
    OrStep(0, 4 * m, 7);
    OrStep(0, 2 * m, 6);
    LowMarker(m);
  }

  lemma LowMarker(m: nat)
    requires m < 8
    ensures Words.Or(8, m, 5) == 8 + m && Words.Or(0, m, 5) == m
  {
    hide Words.Or;
    assert m / 2 / 2 / 2 == 0;
    OrStep(8, m, 5);
    OrStep(4, m / 2, 4);
    OrStep(2, m / 2 / 2, 3);
    OrStep(0, m, 5);
    OrStep(0, m / 2, 4);
    OrStep(0, m / 2 / 2, 3);
    OrWithZero(1, 2);
    OrWithZero(0, 2);
  }

  /** The low bytes of the 64-bit length are the length in L bytes. */
  lemma {:induction false} LengthTail(n: nat, k: nat, l: nat)
    requires l <= k
    ensures BE(n, k)[k - l..] == BE(n, l)
  {
    if l > 0 {
      LengthTail(n / 256, k - 1, l - 1);
      assert BE(n, k)[k - l..] == BE(n / 256, k - 1)[k - l..] + [n % 256];
    }
  }

  /** The nonce over the top of the length leaves its low bytes. */
  lemma NonceOverLength(first: bytes, length: bytes, nonce: bytes, l: nat, second: bytes)
    requires |first| == BLOCK && |length| == 8 && first[BLOCK - 8..] == length && 2 <= l <= 8 && |nonce| == 15 - l
    requires second == first[..1] + nonce + first[1 + |nonce|..]
    ensures second == [first[0]] + nonce + length[8 - l..]
  {
    assert first[1 + |nonce|..] == length[8 - l..];
  }

  method FirstBlock(c: Params, nonce: bytes, length: nat, hasData: bool) returns (mac: array<byte>)
    requires Valid(c) && |nonce| == NonceSize(c)
    ensures fresh(mac) && mac.Length == BLOCK && mac[..] == B0(c, nonce, length, hasData)
  {
    hide OrByte, RfcFlags, BE;
    mac := new byte[BLOCK](_ => 0);
    if hasData {
      mac[0] := 64;
    }
    mac[0] := OrByte(mac[0], 4 * (c.M - 2));
    mac[0] := OrByte(mac[0], c.L - 1);
    FlagsAsRfc(c, hasData);
    ghost var flags := mac[0];
    Overwrite(mac, BLOCK - 8, BE(length, 8));
    ghost var first := mac[..];
    assert first[0] == flags && first[BLOCK - 8..] == BE(length, 8);
    Overwrite(mac, 1, nonce);
    NonceOverLength(first, BE(length, 8), nonce, c.L, mac[..]);
    LengthTail(length, 8, c.L);
  }

  method Tag(c: Params, nonce: bytes, plaintext: bytes, adata: bytes) returns (r: Result<array<byte>>)
    requires Valid(c)
    ensures r.Err? ==> TagOf(c, nonce, plaintext, adata) == Err(r.error)
    ensures r.Ok? ==> fresh(r.value) && TagOf(c, nonce, plaintext, adata) == Ok(r.value[..])
  {
    hide MaxLength, Chain, B0, Blocks, DataBlocks;
    if |nonce| != NonceSize(c) {
      return Err(InvalidNonceSize);
    }
    if |plaintext| > MaxLength(c) {
      return Err(PlaintextTooLong);
    }
    var mac := FirstBlock(c, nonce, |plaintext|, |adata| > 0);
    Overwrite(mac, 0, c.E(mac[..]));
    ghost var x: block := c.E(B0(c, nonce, |plaintext|, adata != []));
    assert mac[..] == x;
    TagAdata(c, mac, adata);
    CbcData(c, mac, plaintext);
    ChainSum(c.E, x, DataBlocks(DataLength(|adata|), adata), Blocks(plaintext));
    var tag := new byte[c.M](i requires 0 <= i < c.M reads mac => mac[i]);
    assert tag[..] == mac[..][..c.M];
    return Ok(tag);
  }

  /** Authenticates the additional data: its length and what fits beside it first, then the rest. */
  method TagAdata(c: Params, mac: array<byte>, adata: bytes)
    requires mac.Length == BLOCK
    modifies mac
    ensures mac[..] == Chain(c.E, old(mac[..]), DataBlocks(DataLength(|adata|), adata))
  {
    hide Chain, XorBytes, BE;
    if |adata| > 0 {
      var data := new byte[BLOCK](_ => 0);
      var i: nat := 2;
      if |adata| <= 0xfeff {
        Overwrite(data, 0, BE(|adata|, 2));
      } else {
        data[0], data[1] := 0xfe, 0xff;
        if |adata| < U32 {
          i := 6;
          Overwrite(data, 2, BE(|adata|, 4));
        } else {
          i := 10;
          Overwrite(data, 2, BE(|adata|, 8));
        }
      }
      ghost var lead := DataLength(|adata|);
      assert data[..i] == lead && data[i..] == Zeros(BLOCK - i);
      var n := if |adata| < BLOCK - i then |adata| else BLOCK - i;
      Overwrite(data, i, adata[..n]);
      assert data[..] == Pad(lead + adata[..n]);
      ghost var x := mac[..];
      CbcRound(c, mac, data[..]);
      CbcData(c, mac, adata[n..]);
      BlocksHead(lead, adata);
      ChainOne(c.E, x, Pad(lead + adata[..n]));
      ChainSum(c.E, x, [Pad(lead + adata[..n])], Blocks(adata[n..]));
    } else {
      ChainNone(c.E, mac[..]);
    }
  }

  /** Masks `tag` in place with the key stream block `s0`. */
  method MaskTag(c: Params, tag: array<byte>, s0: block)
    requires Valid(c) && tag.Length == c.M
    modifies tag
    ensures tag[..] == XorBytes(old(tag[..]), s0)
  {
    hide XorByte;
    for i := 0 to c.M
      invariant forall k :: 0 <= k < i ==> tag[k] == XorByte(old(tag[k]), s0[k])
      invariant forall k :: i <= k < c.M ==> tag[k] == old(tag[k])
    {
      tag[i] := XorByte(tag[i], s0[i]);
    }
  }

  /** Counter block 0 in a fresh array; a nonce of another size is cut or leaves zeros. */
  method FirstCounter(c: Params, nonce: bytes) returns (iv: array<byte>)
    requires Valid(c)
    ensures fresh(iv) && iv.Length == BLOCK && iv[BLOCK - 1] == 0
    ensures |nonce| == NonceSize(c) ==> iv[..] == A(c, nonce, 0)
  {
    iv := new byte[BLOCK](_ => 0);
    iv[0] := c.L - 1;
    var n := if |nonce| < NonceSize(c) then |nonce| else NonceSize(c);
    Overwrite(iv, 1, nonce[..n]);
    ZeroBE(c.L);
    if |nonce| == NonceSize(c) { assert nonce[..n] == nonce; }
  }

  lemma {:induction false} ZeroBE(k: nat)
    ensures BE(0, k) == Zeros(k)
  {
    if k > 0 { ZeroBE(k - 1); }
  }

  lemma OneBE(k: nat)
    requires k > 0
    ensures BE(1, k) == Zeros(k - 1) + [1]
  {
    ZeroBE(k - 1);
  }

  /** `None` is the panic on a bad nonce or an overlong plaintext. */
  method Seal(c: Params, dst: bytes, nonce: bytes, plaintext: bytes, adata: bytes) returns (r: Option<bytes>)
    requires Valid(c)
    ensures var sealedText := Sealed(c, nonce, plaintext, adata);
            r == if sealedText.Ok? then Some(dst + sealedText.value) else None
  {
    hide MaxLength, TagValue, Ctr, XorBytes;
    var made := Tag(c, nonce, plaintext, adata);
    if made.Err? {
      return None;
    }
    var tag := made.value;
    TagLength(c, nonce, plaintext, adata);
    var iv := FirstCounter(c, nonce);
    MaskTag(c, tag, c.E(iv[..]));
    iv[BLOCK - 1] := OrByte(iv[BLOCK - 1], 1);
    SecondCounter(c, nonce, iv[..]);
    return Some(dst + (Ctr(c.E, iv[..], plaintext) + tag[..]));
  }

  lemma SecondCounter(c: Params, nonce: bytes, iv: bytes)
    requires Valid(c) && |nonce| == NonceSize(c)
    requires |iv| == BLOCK && iv == A(c, nonce, 0)[BLOCK - 1 := OrByte(0, 1)]
    ensures iv == A(c, nonce, 1)
  {
    OrOctal(0, 1);
    ZeroBE(c.L);
    OneBE(c.L);
  }

  method Open(c: Params, dst: bytes, nonce: bytes, ciphertext: bytes, adata: bytes) returns (r: Result<bytes>)
    requires Valid(c)
    ensures var got := Opened(c, nonce, ciphertext, adata); r == if got.Ok? then Ok(dst + got.value) else got
  {
    hide MaxLength, TagValue, Ctr, XorBytes, A, OrByte;
    if |ciphertext| < c.M {
      return Err(CiphertextTooShort);
    }
    if |ciphertext| > MaxLength(c) + c.M {
      return Err(CiphertextTooLong);
    }
    var n := |ciphertext| - c.M;
    var tag := new byte[c.M](i requires 0 <= i < c.M => ciphertext[n + i]);
    assert tag[..] == ciphertext[n..];
    var iv := FirstCounter(c, nonce);
    MaskTag(c, tag, c.E(iv[..]));
    iv[BLOCK - 1] := OrByte(iv[BLOCK - 1], 1);
    if |nonce| == NonceSize(c) { SecondCounter(c, nonce, iv[..]); }
    var plaintext := Ctr(c.E, iv[..], ciphertext[..n]);
    var expected := Tag(c, nonce, plaintext, adata);
    if expected.Err? {
      return Err(expected.error);
    }
    if tag[..] != expected.value[..] {
      return Err(OpenFailed);
    }
    return Ok(dst + plaintext);
  }
}
