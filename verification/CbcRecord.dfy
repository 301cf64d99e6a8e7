/**
 Records protected by a block cipher in CBC mode: MAC, then padding, then encryption, as in
 section 6.2.3.2 of RFC 5246, with the check of the padding done by masks instead of branches.
 The block mode and the MAC are arbitrary functions.
 */
module CbcRecord {
  import opened Bytes
  import opened RecordLayer
  import opened InnerPlaintext
  import Ccm
  import Words

  const CHANGE_CIPHER_SPEC: byte := 20
  const HALF32: nat := 0x8000_0000

  // ---------- padding ----------

  /** The last byte counts the bytes before it that belong to the padding, and they all equal it. */
  predicate PaddingOk(b: bytes) {
    |b| >= 1 && var p := b[|b| - 1]; p < |b| && forall k :: |b| - 1 - p <= k < |b| ==> b[k] == p
  }

  /** The test of the length looks at bit 31 of a 64-bit difference only. */
  predicate LengthTested(b: bytes) {
    |b| >= 1 && (|b| - 1 - b[|b| - 1]) % U32 < HALF32
  }

  /** All bits set when bit 31 of the 64-bit value of `t` is clear, none otherwise. */
  function SignMask(t: int): byte {
    if (t % U64) / HALF32 % 2 == 0 then 0xff else 0
  }

  lemma HalfQuotient(k: nat, low: nat)
    requires low < HALF32
    ensures (HALF32 * k + low) / HALF32 == k
  {
  }

  lemma Bit31(w: nat, h: nat, low: nat)
    requires h < 2 && low < HALF32
    ensures (U32 * w + HALF32 * h + low) / HALF32 % 2 == h
  {
    HalfQuotient(2 * w + h, low);
    assert HALF32 * (2 * w + h) + low == U32 * w + HALF32 * h + low;
  }

  lemma SignMaskOfLength(t: int)
    requires -256 < t
    ensures SignMask(t) == 0xff <==> t >= 0 && t % U32 < HALF32
  {
    if t >= 0 {
      var q, r := t / U64, t % U64;
      var w, y := r / U32, r % U32;
      var h: nat := if y < HALF32 then 0 else 1;
      Bit31(w, h, y - HALF32 * h);
      assert r == U32 * w + HALF32 * h + (y - HALF32 * h);
      Words.ModuloOfMultiple(U32, U32 * q + w, y);
      assert t == U32 * (U32 * q + w) + y;
    } else {
      Bit31(U32 - 1, 1, HALF32 + t);
      assert t % U64 == U64 + t;
    }
  }

  lemma SignMaskSmall(t: int)
    requires -256 < t < 256
    ensures SignMask(t) == if t >= 0 then 0xff else 0
  {
    SignMaskOfLength(t);
  }

  /** Where two bytes differ under a mask. */
  function Differ(mask: byte, a: byte, b: byte): nat {
    Words.Xor(Words.And(mask, a, 8), Words.And(mask, b, 8), 8)
  }

  lemma DifferIs(mask: byte, a: byte, b: byte)
    requires mask == 0 || mask == 0xff
    ensures Differ(mask, a, b) < 256 && (Differ(mask, a, b) == 0 <==> mask == 0 || a == b)
  {
    assert Words.Pow2(8) == 256;
    hide Words.And, Words.Xor, Words.Pow2;
    Words.AndMask(a, 8);
    Words.AndMask(b, 8);
    Words.XorSame(Words.And(mask, a, 8), Words.And(mask, b, 8), 8);
    Words.XorBound(Words.And(mask, a, 8), Words.And(mask, b, 8), 8);
  }

  /** The byte `i` places from the end, compared with the padding length while it belongs to the padding. */
  function Masked(good: byte, paddingLen: byte, i: nat, b: byte): byte {
    var differ := Differ(SignMask(paddingLen - i), paddingLen, b);
    Words.AndNotBound(good, differ, 8);
    assert Words.Pow2(8) == 256;
    Words.AndNot(good, differ, 8)
  }

  lemma MaskedIs(good: byte, paddingLen: byte, i: nat, b: byte)
    requires i < 256
    ensures Masked(good, paddingLen, i, b) == 0xff <==> good == 0xff && (i <= paddingLen ==> b == paddingLen)
  {
    assert Words.Pow2(8) == 256;
    hide SignMask, Differ, Words.AndNot, Words.Pow2;
    SignMaskSmall(paddingLen - i);
    DifferIs(SignMask(paddingLen - i), paddingLen, b);
    Words.AndNotFull(good, Differ(SignMask(paddingLen - i), paddingLen, b), 8);
  }

  /** Folding spreads the conjunction of all bits over the byte. */
  function Fold(good: byte): byte {
    var a := Words.And(good, Words.Shl(good, 4, 8), 8);
    var b := Words.And(a, Words.Shl(a, 2, 8), 8);
    var c := Words.And(b, Words.Shl(b, 1, 8), 8);
    if Words.Bit(c, 7) then 0xff else 0
  }

  /** One fold: bit `i` is the conjunction of the bits `i` and `i - s`. */
  lemma FoldedBit(w: nat, s: nat, i: nat)
    requires s <= i < 8
    ensures Words.Bit(Words.And(w, Words.Shl(w, s, 8), 8), i) <==> Words.Bit(w, i) && Words.Bit(w, i - s)
  {
    Words.AndBit(w, Words.Shl(w, s, 8), 8, i);
    Words.ShlBit(w, s, 8, i);
  }

  lemma FoldIs(good: byte)
    ensures Fold(good) == if good == 0xff then 0xff else 0
  {
    hide Words.And, Words.Shl, Words.Bit;
    var a := Words.And(good, Words.Shl(good, 4, 8), 8);
    var b := Words.And(a, Words.Shl(a, 2, 8), 8);
    FoldedBit(b, 1, 7);
    FoldedBit(a, 2, 7); FoldedBit(a, 2, 6);
    FoldedBit(good, 4, 7); FoldedBit(good, 4, 6); FoldedBit(good, 4, 5); FoldedBit(good, 4, 4);
    EightBits(good);
  }

  lemma EightBits(w: byte)
    ensures w == 0xff <==> Words.Bit(w, 0) && Words.Bit(w, 1) && Words.Bit(w, 2) && Words.Bit(w, 3)
                           && Words.Bit(w, 4) && Words.Bit(w, 5) && Words.Bit(w, 6) && Words.Bit(w, 7)
  {
    assert Words.Pow2(8) == 256;
    Words.AllBitsIsFull(w, 8);
    hide Words.Bit;
    assert Words.AllBits(w, 1) <==> Words.Bit(w, 0);
    assert Words.AllBits(w, 2) <==> Words.AllBits(w, 1) && Words.Bit(w, 1);
    assert Words.AllBits(w, 3) <==> Words.AllBits(w, 2) && Words.Bit(w, 2);
    assert Words.AllBits(w, 4) <==> Words.AllBits(w, 3) && Words.Bit(w, 3);
    assert Words.AllBits(w, 5) <==> Words.AllBits(w, 4) && Words.Bit(w, 4);
    assert Words.AllBits(w, 6) <==> Words.AllBits(w, 5) && Words.Bit(w, 5);
    assert Words.AllBits(w, 7) <==> Words.AllBits(w, 6) && Words.Bit(w, 6);
    assert Words.AllBits(w, 8) <==> Words.AllBits(w, 7) && Words.Bit(w, 7);
  }

  /** 255 exactly for correct padding, as long as bit 31 of the length difference is clear. */
  method ExaminePadding(payload: bytes) returns (toRemove: nat, good: byte)
    ensures payload == [] ==> toRemove == 0 && good == 0
    ensures payload != [] ==> toRemove == payload[|payload| - 1] as int + 1
    ensures good == if PaddingOk(payload) && LengthTested(payload) then 0xff else 0
  {
    hide SignMask, Fold, Masked;
    if |payload| < 1 {
      return 0, 0;
    }
    var last := |payload| - 1;
    var paddingLen := payload[last];
    good := SignMask(last - paddingLen);
    SignMaskOfLength(last - paddingLen);
    ghost var fits := last - paddingLen >= 0 && LengthTested(payload);
    var toCheck := if 256 > |payload| then |payload| else 256;
    for i := 0 to toCheck
      invariant good == 0xff <==> fits && forall k :: last - i < k <= last && last - k <= paddingLen ==>
                payload[k] == paddingLen
    {
      MaskedIs(good, paddingLen, i, payload[last - i]);
      good := Masked(good, paddingLen, i, payload[last - i]);
    }
    FoldIs(good);
    good := Fold(good);
    toRemove := paddingLen as int + 1;
  }

  /** Padding so long that the test of its length fails: a payload of 2^31 + 1 zero bytes is refused. */
  lemma LongPayloadRefused()
    ensures exists b: bytes :: PaddingOk(b) && !LengthTested(b)
  {
    var b: bytes := seq(HALF32 + 1, _ => 0);
    assert PaddingOk(b) && !LengthTested(b);
  }

  // ---------- records ----------

  /** One peer's keys: the block mode in both directions and the MAC for each. */
  datatype Keys = Keys(
    blockSize: nat,
    macSize: nat,
    encrypt: (bytes, bytes) -> bytes,
    decrypt: (bytes, bytes) -> bytes,
    writeMac: bytes -> bytes,
    readMac: bytes -> bytes)

  /** `Panics` is a slice or an index with a negative bound. */
  datatype Result = Ok(value: bytes) | Invalid | Panics

  predicate UsableSize(k: Keys) {
    0 < k.blockSize <= 256
  }

  function MacHeader(h: RecordHeader, length: nat): bytes {
    BE(h.epoch, 2) + BE(h.seqNum, 6) + [h.contentType, h.major, h.minor] + BE(length, 2)
  }

  /** The header of section 5.1 of RFC 9146 for records that carry a connection identifier. */
  function CidMacHeader(h: RecordHeader, length: nat): bytes {
    seq(8, _ => 0xff) + [CONNECTION_ID, |h.connectionId| % 256, CONNECTION_ID, h.major, h.minor]
      + BE(h.epoch, 2) + BE(h.seqNum, 6) + h.connectionId + BE(length, 2)
  }

  /** Bytes 3 to 10 of the record header, bytes 0 to 2 of it, and the length in two bytes. */
  ghost predicate HeaderMoved(r: bytes, h: RecordHeader, length: nat) {
    && |r| == 13
    && r[..8] == EncodeRecordHeader(h)[3..11] && r[8..11] == EncodeRecordHeader(h)[..3]
    && Val(r[11..]) == length % U16
  }

  /** Each field at its own offset. */
  ghost predicate FieldsAt(r: bytes, h: RecordHeader, at: nat) {
    && at + 11 <= |r|
    && Val(r[at..at + 2]) == h.epoch && Val(r[at + 2..at + 8]) == h.seqNum
    && r[at + 8] == h.contentType && r[at + 9] == h.major && r[at + 10] == h.minor
  }

  lemma MacHeaderIs(h: RecordHeader, length: nat)
    requires RecordFits(h)
    ensures HeaderMoved(MacHeader(h, length), h, length) && FieldsAt(MacHeader(h, length), h, 0)
  {
    Widths();
    ValBE(length, 2);
    ValBE(h.epoch, 2);
    ValBE(h.seqNum, 6);
    SmallModulo(h.epoch, U16);
    SmallModulo(h.seqNum, U48);
    var r := MacHeader(h, length);
    hide BE, Val;
    assert r[0..2] == BE(h.epoch, 2) && r[2..8] == BE(h.seqNum, 6) && r[11..] == BE(length, 2);
    assert r[..8] == EncodeRecordHeader(h)[3..11] && r[8..11] == EncodeRecordHeader(h)[..3];
  }

  /**
   Eight bytes of ff, the type and the size of the connection identifier, then the record header
   as it is sent, with the length of the plaintext.
   */
  ghost predicate CidHeaderMoved(r: bytes, h: RecordHeader, length: nat) {
    && |r| == 23 + |h.connectionId|
    && (forall i :: 0 <= i < 8 ==> r[i] == 0xff) && r[8] == 25 && r[9] == |h.connectionId| % 256
    && r[10..] == EncodeRecordHeader(h.(contentType := 25, length := length % U16))
  }

  lemma CidMacHeaderIs(h: RecordHeader, length: nat)
    ensures CidHeaderMoved(CidMacHeader(h, length), h, length)
  {
    hide BE;
    SameLength(length);
    var r := CidMacHeader(h, length);
    assert r[10..] == [25, h.major, h.minor] + BE(h.epoch, 2) + BE(h.seqNum, 6) + h.connectionId + BE(length, 2);
  }

  /**
   What is authenticated: section 6.2.3.1 of RFC 5246 with the 64-bit number of section 4.1.2.1
   of RFC 6347. With a connection identifier the plaintext is read first, which may fail, and is
   authenticated twice.
   */
  function MacInput(h: RecordHeader, payload: bytes): Result {
    if h.contentType != CONNECTION_ID then Ok(MacHeader(h, |payload|) + payload)
    else
      match Unmarshalled(payload)
      case Found(p) => Ok(CidMacHeader(h, |payload|) + MarshalInner(p) + payload)
      case TooSmall => Invalid
      case OutOfRange => Panics
  }

  /** The MAC of a record with a connection identifier covers its plaintext twice, and fails as reading it does. */
  lemma CidMacInput(h: RecordHeader, payload: bytes)
    requires h.contentType == CONNECTION_ID
    ensures MacInput(h, payload).Ok? ==> MacInput(h, payload).value == CidMacHeader(h, |payload|) + payload + payload
    ensures MacInput(h, payload) == Panics <==> payload == Zeros(|payload|)
  {
    hide CidMacHeader;
    if Unmarshalled(payload).Found? { WrittenBack(payload); }
  }

  method AuthenticatedData(h: RecordHeader, payload: bytes) returns (r: Result)
    ensures r == MacInput(h, payload)
  {
    hide BE, MacHeader, CidMacHeader, MarshalInner;
    if h.contentType != CONNECTION_ID {
      var header := AdditionalData(h, |payload|);
      return Ok(header + payload);
    }
    var ip := UnmarshalInner(payload);
    match ip
    case TooSmall => return Invalid;
    case OutOfRange => return Panics;
    case Found(p) =>
      var msg := CidMacHeader(h, |payload|) + MarshalInner(p);
      return Ok(msg + payload);
  }

  /**
   The additional data of the AEAD suites is the same header, written with the number first and
   the epoch over its top bytes.
   */
  method AdditionalData(h: RecordHeader, length: nat) returns (r: bytes)
    ensures r == MacHeader(h, length)
    ensures RecordFits(h) ==> HeaderMoved(r, h, length) && FieldsAt(r, h, 0)
  {
    hide BE, HeaderMoved, FieldsAt;
    var data := new byte[13](_ => 0);
    Overwrite(data, 0, BE(h.seqNum, 8));
    Ccm.LengthTail(h.seqNum, 8, 6);
    assert data[2..8] == BE(h.seqNum, 8)[2..];
    Overwrite(data, 0, BE(h.epoch, 2));
    assert data[..8] == BE(h.epoch, 2) + BE(h.seqNum, 6);
    Overwrite(data, 8, [h.contentType, h.major, h.minor]);
    assert data[..11] == BE(h.epoch, 2) + BE(h.seqNum, 6) + [h.contentType, h.major, h.minor];
    Overwrite(data, 11, BE(length, 2));
    r := data[..];
    if RecordFits(h) { MacHeaderIs(h, length); }
  }

  function Padding(n: nat): bytes
    requires n <= 256
  {
    seq(n, _ => n - 1)
  }

  /** Payload, MAC and padding up to a whole number of blocks, always at least one byte. */
  function Plain(size: nat, payload: bytes, mac: bytes): bytes
    requires 0 < size <= 256
  {
    payload + mac + Padding(size - (|payload| + |mac|) % size)
  }

  function Encrypted(k: Keys, h: RecordHeader, raw: bytes, iv: bytes): Result
    requires UsableSize(k) && |raw| >= HeaderSize(h)
  {
    var payload := raw[HeaderSize(h)..];
    var input := MacInput(h, payload);
    if !input.Ok? then input
    else
      var body := iv + k.encrypt(iv, Plain(k.blockSize, payload, k.writeMac(input.value)));
      Ok(raw[..HeaderSize(h) - 2] + BE(|body|, 2) + body)
  }

  /** The least length of a body: an initial vector, and a block or a MAC with its padding. */
  function LeastBody(k: Keys): nat {
    k.blockSize + if k.macSize + 1 > k.blockSize then k.macSize + 1 else k.blockSize
  }

  predicate Shaped(k: Keys, n: nat)
    requires UsableSize(k)
  {
    n % k.blockSize == 0 && n >= LeastBody(k)
  }

  function Checked(k: Keys, h: RecordHeader, header: bytes, plain: bytes): Result {
    if !PaddingOk(plain) || !LengthTested(plain) || |plain| < k.macSize then Invalid
    else
      var end := |plain| - k.macSize - (plain[|plain| - 1] as int + 1);
      if end < 0 then Panics
      else
        var input := MacInput(h, plain[..end]);
        if !input.Ok? then input
        else if k.readMac(input.value) != plain[end..end + k.macSize] then Invalid
        else Ok(header + plain[..end])
  }

  /** `preset` is the connection identifier the reader's header holds beforehand. */
  function Decrypted(k: Keys, preset: bytes, record: bytes): Result
    requires UsableSize(k)
  {
    var h := DecodeRecordHeaderInto(record, preset);
    if h.None? then Invalid
    else if |record| < HeaderSize(h.value) then Panics
    else if h.value.contentType == CHANGE_CIPHER_SPEC then Ok(record)
    else
      var header, body := record[..HeaderSize(h.value)], record[HeaderSize(h.value)..];
      if !Shaped(k, |body|) then Invalid
      else Checked(k, h.value, header, k.decrypt(body[..k.blockSize], body[k.blockSize..]))
  }

  method MakePadding(paddingLen: nat) returns (r: bytes)
    requires paddingLen <= 256
    ensures r == Padding(paddingLen)
  {
    var padding := new byte[paddingLen];
    for i := 0 to paddingLen
      invariant forall j :: 0 <= j < i ==> padding[j] == paddingLen - 1
    {
      padding[i] := paddingLen - 1;
    }
    r := padding[..];
  }

  method Encrypt(k: Keys, h: RecordHeader, raw: bytes, iv: bytes) returns (out: Result)
    requires UsableSize(k) && |raw| >= HeaderSize(h) && |iv| == k.blockSize
    ensures out == Encrypted(k, h, raw, iv)
  {
    hide MacInput, BE;
    var payload := raw[HeaderSize(h)..];
    var input := AuthenticatedData(h, payload);
    if !input.Ok? {
      return input;
    }
    payload := payload + k.writeMac(input.value);
    var padding := MakePadding(k.blockSize - |payload| % k.blockSize);
    payload := payload + padding;
    payload := iv + k.encrypt(iv, payload);
    out := Ok(raw[..HeaderSize(h) - 2] + BE(|payload|, 2) + payload);
  }

  method Decrypt(k: Keys, preset: bytes, record: bytes) returns (r: Result)
    requires UsableSize(k)
    ensures r == Decrypted(k, preset, record)
  {
    hide PaddingOk, LengthTested, MacInput;
    var decoded := DecodeRecordHeaderInto(record, preset);
    if decoded.None? {
      return Invalid;
    }
    var h := decoded.value;
    if |record| < HeaderSize(h) {
      return Panics;
    }
    var body := record[HeaderSize(h)..];
    if h.contentType == CHANGE_CIPHER_SPEC {
      return Ok(record);
    }
    if |body| % k.blockSize != 0 || |body| < LeastBody(k) {
      return Invalid;
    }
    body := k.decrypt(body[..k.blockSize], body[k.blockSize..]);
    var paddingLen, good := ExaminePadding(body);
    if good != 255 {
      return Invalid;
    }
    if |body| < k.macSize {
      return Invalid;
    }
    var dataEnd := |body| - k.macSize - paddingLen;
    if dataEnd < 0 {
      return Panics;
    }
    var input := AuthenticatedData(h, body[..dataEnd]);
    if !input.Ok? {
      return input;
    }
    if k.readMac(input.value) != body[dataEnd..dataEnd + k.macSize] {
      return Invalid;
    }
    return Ok(record[..HeaderSize(h)] + body[..dataEnd]);
  }

  // ---------- distinct records authenticate distinct bytes ----------

  /** Records within their widths whose connection identifier has a size of one byte. */
  predicate MacFits(h: RecordHeader) {
    RecordFits(h) && |h.connectionId| < 256
  }

  /** What the MAC covers of a header. */
  predicate SameCovered(h: RecordHeader, g: RecordHeader) {
    && h.contentType == g.contentType && h.major == g.major && h.minor == g.minor
    && h.epoch == g.epoch && h.seqNum == g.seqNum
    && (h.contentType == CONNECTION_ID ==> h.connectionId == g.connectionId)
  }

  lemma PlainDistinct(h: RecordHeader, p: bytes, g: RecordHeader, q: bytes)
    requires MacFits(h) && MacFits(g) && MacHeader(h, |p|) + p == MacHeader(g, |q|) + q
    ensures SameCovered(h.(contentType := 0), g.(contentType := 0)) && h.contentType == g.contentType && p == q
  {
    MacHeaderIs(h, |p|);
    MacHeaderIs(g, |q|);
    var a, b := MacHeader(h, |p|), MacHeader(g, |q|);
    hide MacHeader, Val, EncodeRecordHeader;
    HeadAndTail(a, p);
    HeadAndTail(b, q);
    assert a == (a + p)[..13] == b;
  }

  lemma CidDistinct(h: RecordHeader, p: bytes, g: RecordHeader, q: bytes)
    requires MacFits(h) && MacFits(g) && h.contentType == g.contentType == CONNECTION_ID
    requires CidMacHeader(h, |p|) + p + p == CidMacHeader(g, |q|) + q + q
    ensures SameCovered(h, g) && p == q
  {
    CidMacHeaderIs(h, |p|);
    CidMacHeaderIs(g, |q|);
    hide CidMacHeader, EncodeRecordHeader, DecodeRecordHeaderInto;
    SizeSplits(CidMacHeader(h, |p|), p, CidMacHeader(g, |q|), q);
    var e, f := h.(length := |p| % U16), g.(length := |q| % U16);
    assert EncodeRecordHeader(e) == EncodeRecordHeader(f);
    HeaderFieldsRead(e, e.connectionId, []);
    HeaderFieldsRead(f, e.connectionId, []);
  }

  /** The size in byte 9 says where the header ends. */
  lemma SizeSplits(a: bytes, p: bytes, b: bytes, q: bytes)
    requires |a| >= 23 && |b| >= 23 && a[9] == |a| - 23 && b[9] == |b| - 23 && a + p + p == b + q + q
    ensures a == b && p == q
  {
    var x := a + p + p;
    assert x[9] == a[9] && x[9] == b[9];
    assert a == x[..|a|] && b == x[..|b|];
    assert p == x[|a|..|a| + |p|] && q == x[|b|..|b| + |q|];
  }

  /** The MAC of a record determines everything of its header that the reader acts on, and its payload. */
  lemma MacInputDistinct(h: RecordHeader, p: bytes, g: RecordHeader, q: bytes)
    requires MacFits(h) && MacFits(g) && MacInput(h, p).Ok? && MacInput(h, p) == MacInput(g, q)
    ensures SameCovered(h, g) && p == q
  {
    hide MacHeader, CidMacHeader, Unmarshalled, MarshalInner;
    if h.contentType == CONNECTION_ID { CidMacInput(h, p); }
    if g.contentType == CONNECTION_ID { CidMacInput(g, q); }
    TypeAt8(h, p);
    TypeAt8(g, q);
    if h.contentType == CONNECTION_ID {
      CidDistinct(h, p, g, q);
    } else {
      PlainDistinct(h, p, g, q);
    }
  }

  lemma TypeAt8(h: RecordHeader, p: bytes)
    requires MacInput(h, p).Ok?
    ensures |MacInput(h, p).value| > 8 && MacInput(h, p).value[8] == h.contentType
  {
  }

  // ---------- what is accepted ----------

  /** `plain` is `payload`, its MAC, and `n` bytes of padding. */
  ghost predicate Parts(k: Keys, h: RecordHeader, plain: bytes, payload: bytes, n: nat)
    requires n <= 256
  {
    n > 0 && MacInput(h, payload).Ok? && plain == payload + k.readMac(MacInput(h, payload).value) + Padding(n)
  }

  ghost predicate MacSized(k: Keys) {
    forall x :: |k.readMac(x)| == k.macSize
  }

  lemma PartsPadded(k: Keys, h: RecordHeader, plain: bytes, payload: bytes, n: nat)
    requires n <= 256 && Parts(k, h, plain, payload, n) && MacSized(k)
    ensures plain[|plain| - 1] == n - 1 && PaddingOk(plain) && |plain| - k.macSize - n == |payload|
    ensures plain[..|payload|] == payload
    ensures plain[|payload|..|payload| + k.macSize] == k.readMac(MacInput(h, payload).value)
  {
    hide MacInput;
  }

  /**
   A decrypted text is accepted with `payload` exactly when it consists of that payload, its MAC
   and padding, and bit 31 of the length of payload and MAC is clear.
   */
  lemma AcceptedExactly(k: Keys, h: RecordHeader, header: bytes, plain: bytes, payload: bytes)
    requires MacSized(k)
    ensures Checked(k, h, header, plain) == Ok(header + payload) <==>
            (|payload| + k.macSize) % U32 < HALF32 && exists n: nat :: n <= 256 && Parts(k, h, plain, payload, n)
  {
    hide Checked, Parts, MacSized;
    if Checked(k, h, header, plain) == Ok(header + payload) { AcceptedParts(k, h, header, plain, payload); }
    if n: nat :| n <= 256 && Parts(k, h, plain, payload, n) { PartsChecked(k, h, header, plain, payload, n); }
  }

  lemma AcceptedParts(k: Keys, h: RecordHeader, header: bytes, plain: bytes, payload: bytes)
    requires Checked(k, h, header, plain) == Ok(header + payload)
    ensures (|payload| + k.macSize) % U32 < HALF32 && exists n: nat :: n <= 256 && Parts(k, h, plain, payload, n)
  {
    hide MacInput;
    var n := plain[|plain| - 1] as int + 1;
    var end := |plain| - k.macSize - n;
    assert (header + plain[..end])[|header|..] == plain[..end] && (header + payload)[|header|..] == payload;
    assert |plain| - 1 - plain[|plain| - 1] == |payload| + k.macSize;
    hide LengthTested;
    assert plain == plain[..end] + plain[end..end + k.macSize] + plain[end + k.macSize..];
    assert plain[end + k.macSize..] == Padding(n);
    assert Parts(k, h, plain, payload, n);
  }

  /** Payload, MAC and padding are accepted, or refused by the test of their length, and nothing else happens. */
  lemma PartsChecked(k: Keys, h: RecordHeader, header: bytes, plain: bytes, payload: bytes, n: nat)
    requires n <= 256 && Parts(k, h, plain, payload, n) && MacSized(k)
    ensures Checked(k, h, header, plain)
         == if (|payload| + k.macSize) % U32 < HALF32 then Ok(header + payload) else Invalid
  {
    PartsPadded(k, h, plain, payload, n);
    LengthTestedIs(plain, |payload| + k.macSize);
    hide MacInput, PaddingOk, LengthTested, MacSized;
  }

  lemma LengthTestedIs(b: bytes, n: nat)
    requires |b| >= 1 && |b| - 1 - b[|b| - 1] == n
    ensures LengthTested(b) <==> n % U32 < HALF32
  {
  }

  /** The reader undoes what the writer does, and both work in place. */
  ghost predicate Matching(w: Keys, r: Keys) {
    && UsableSize(w) && r.blockSize == w.blockSize && r.macSize == w.macSize
    && (forall x :: w.writeMac(x) == r.readMac(x)) && MacSized(r)
    && (forall iv, x :: |w.encrypt(iv, x)| == |x| && r.decrypt(iv, w.encrypt(iv, x)) == x)
    && (forall iv, x :: |r.decrypt(iv, x)| == |x|)
  }

  lemma WholeBlocks(n: nat, size: nat)
    requires size > 0
    ensures (n + (size - n % size)) % size == 0
  {
    var q := n / size;
    assert n == size * q + n % size;
    assert n + (size - n % size) == size * (q + 1) + 0;
    MultipleModulo(size, q + 1);
  }

  lemma MultipleModulo(p: int, q: int)
    requires p > 0
    ensures (p * q) % p == 0
  {
    var d := (p * q) / p - q;
    assert p * q == p * ((p * q) / p) + (p * q) % p;
    assert p * d == -((p * q) % p);
    Words.MultipleApart(p, d);
  }

  /** A plain text is a whole number of blocks, longer than the MAC. */
  lemma PlainShape(size: nat, payload: bytes, mac: bytes)
    requires 0 < size <= 256
    ensures |Plain(size, payload, mac)| % size == 0
    ensures |Plain(size, payload, mac)| > |mac| && |Plain(size, payload, mac)| >= size
  {
    WholeBlocks(|payload| + |mac|, size);
    var n := |Plain(size, payload, mac)|;
    if n < size { SmallModulo(n, size); }
  }

  lemma OneBlockMore(n: nat, size: nat)
    requires size > 0 && n % size == 0
    ensures (n + size) % size == 0
  {
    var q := n / size;
    assert n == size * q;
    assert n + size == size * (q + 1);
    MultipleModulo(size, q + 1);
  }

  lemma EncryptedShape(k: Keys, payload: bytes, mac: bytes, iv: bytes)
    requires UsableSize(k) && |iv| == k.blockSize && |mac| == k.macSize
    requires var plain := Plain(k.blockSize, payload, mac); |k.encrypt(iv, plain)| == |plain|
    ensures Shaped(k, |iv + k.encrypt(iv, Plain(k.blockSize, payload, mac))|)
  {
    hide Plain;
    PlainShape(k.blockSize, payload, mac);
    OneBlockMore(|Plain(k.blockSize, payload, mac)|, k.blockSize);
  }

  /** A header of the reader's that can take the connection identifier of `h`. */
  predicate Expects(h: RecordHeader, preset: bytes) {
    |preset| == |h.connectionId| && (h.contentType != CONNECTION_ID ==> preset == h.connectionId)
  }

  /** What the reader makes of a record that carries `body` behind the header of `h`. */
  lemma DecryptedIs(k: Keys, h: RecordHeader, preset: bytes, body: bytes)
    requires UsableSize(k) && RecordFits(h) && Expects(h, preset)
    requires h.contentType != CHANGE_CIPHER_SPEC && Shaped(k, |body|)
    ensures var header := EncodeRecordHeader(h);
            Decrypted(k, preset, header + body)
              == Checked(k, h.(length := 0), header, k.decrypt(body[..k.blockSize], body[k.blockSize..]))
  {
    hide Checked, EncodeRecordHeader, DecodeRecordHeaderInto;
    HeaderFieldsRead(h, preset, body);
    HeadAndTail(EncodeRecordHeader(h), body);
  }

  lemma HeadAndTail(a: bytes, b: bytes)
    ensures (a + b)[..|a|] == a && (a + b)[|a|..] == b
  {
  }

  /**
   Decrypting an encrypted record gives the payload back, behind a header that now counts the
   encrypted bytes, when bit 31 of the length of payload and MAC is clear, as it is for every
   record that fits its 16-bit length. Otherwise it is refused.
   */
  lemma RecordRoundTrip(w: Keys, r: Keys, h: RecordHeader, preset: bytes, payload: bytes, iv: bytes)
    requires Matching(w, r) && RecordFits(h) && Expects(h, preset) && |iv| == w.blockSize
    requires h.contentType != CHANGE_CIPHER_SPEC
    ensures var sent := Encrypted(w, h, EncodeRecordHeader(h) + payload, iv);
            sent.Ok? ==>
              Decrypted(r, preset, sent.value)
                == if (|payload| + w.macSize) % U32 < HALF32 then Ok(sent.value[..HeaderSize(h)] + payload) else Invalid
  {
    hide MacInput, Checked, EncodeRecordHeader, Plain, Decrypted, Encrypted;
    var input := MacInput(h, payload);
    if input.Ok? {
      var mac := w.writeMac(input.value);
      var plain := Plain(w.blockSize, payload, mac);
      var body := iv + w.encrypt(iv, plain);
      var sent := h.(length := |body| % U16);
      EncryptedIs(w, h, payload, iv);
      EncryptedShape(w, payload, mac, iv);
      DecryptedIs(r, sent, preset, body);
      HeadAndTail(iv, w.encrypt(iv, plain));
      HeadAndTail(EncodeRecordHeader(sent), body);
      PlainParts(w, r, h, payload);
      PartsChecked(r, h.(length := 0), EncodeRecordHeader(sent), plain, payload, PadLength(w, payload));
    } else {
      EncryptFails(w, h, payload, iv);
    }
  }

  function PadLength(w: Keys, payload: bytes): (n: nat)
    requires UsableSize(w)
    ensures n <= 256
  {
    w.blockSize - (|payload| + w.macSize) % w.blockSize
  }

  lemma PlainParts(w: Keys, r: Keys, h: RecordHeader, payload: bytes)
    requires Matching(w, r) && MacInput(h, payload).Ok?
    ensures Parts(r, h.(length := 0), Plain(w.blockSize, payload, w.writeMac(MacInput(h, payload).value)), payload,
                  PadLength(w, payload))
  {
    SameMacInput(h, payload);
    hide MacInput;
  }

  lemma EncryptFails(k: Keys, h: RecordHeader, payload: bytes, iv: bytes)
    requires UsableSize(k) && !MacInput(h, payload).Ok?
    ensures Encrypted(k, h, EncodeRecordHeader(h) + payload, iv) == MacInput(h, payload)
  {
    hide MacInput, EncodeRecordHeader;
    HeadAndTail(EncodeRecordHeader(h), payload);
  }

  /** An encrypted record is the header, counting the body, and the body. */
  lemma EncryptedIs(k: Keys, h: RecordHeader, payload: bytes, iv: bytes)
    requires UsableSize(k) && MacInput(h, payload).Ok?
    ensures var body := iv + k.encrypt(iv, Plain(k.blockSize, payload, k.writeMac(MacInput(h, payload).value)));
            Encrypted(k, h, EncodeRecordHeader(h) + payload, iv)
              == Ok(EncodeRecordHeader(h.(length := |body| % U16)) + body)
  {
    hide MacInput, Plain, EncodeRecordHeader;
    var body := iv + k.encrypt(iv, Plain(k.blockSize, payload, k.writeMac(MacInput(h, payload).value)));
    var raw := EncodeRecordHeader(h) + payload;
    HeadAndTail(EncodeRecordHeader(h), payload);
    LengthReplaced(h, payload, |body|);
  }

  lemma SameMacInput(h: RecordHeader, payload: bytes)
    ensures MacInput(h.(length := 0), payload) == MacInput(h, payload)
  {
  }

  lemma SameLength(n: nat)
    ensures BE(n, 2) == BE(n % U16, 2) && n % U16 < U16
  {
    Widths();
    ValBE(n, 2);
    BEVal(BE(n, 2));
  }

  lemma LengthReplaced(h: RecordHeader, payload: bytes, n: nat)
    ensures (EncodeRecordHeader(h) + payload)[..HeaderSize(h) - 2] + BE(n, 2)
         == EncodeRecordHeader(h.(length := n % U16))
  {
    hide BE, HeaderLead;
    SameLength(n);
    assert (EncodeRecordHeader(h) + payload)[..HeaderSize(h) - 2] == HeaderLead(h) + h.connectionId;
    assert HeaderLead(h.(length := n % U16)) == HeaderLead(h) by { SameLead(h, n % U16); }
  }

  lemma SameLead(h: RecordHeader, n: nat)
    ensures HeaderLead(h.(length := n)) == HeaderLead(h)
  {
  }

  // ---------- when decryption panics ----------

  /** No record that matching keys encrypted makes decryption panic. */
  lemma EncryptedNeverPanics(w: Keys, r: Keys, h: RecordHeader, preset: bytes, payload: bytes, iv: bytes)
    requires Matching(w, r) && RecordFits(h) && Expects(h, preset) && |iv| == w.blockSize
    ensures var sent := Encrypted(w, h, EncodeRecordHeader(h) + payload, iv);
            sent.Ok? ==> Decrypted(r, preset, sent.value) != Panics
  {
    hide MacInput, EncodeRecordHeader, Plain, DecodeRecordHeaderInto, Checked;
    if h.contentType != CHANGE_CIPHER_SPEC {
      RecordRoundTrip(w, r, h, preset, payload, iv);
    } else if MacInput(h, payload).Ok? {
      EncryptedIs(w, h, payload, iv);
      var body := iv + w.encrypt(iv, Plain(w.blockSize, payload, w.writeMac(MacInput(h, payload).value)));
      HeaderFieldsRead(h.(length := |body| % U16), preset, body);
    } else {
      EncryptFails(w, h, payload, iv);
    }
  }

  /** Some record of type `typ` with a body of `n` bytes makes decryption panic. */
  ghost predicate PanicPossible(r: Keys, typ: byte, n: nat)
    requires UsableSize(r)
  {
    exists preset, record ::
      && |record| == RECORD_HEADER + |preset| + n && record[0] == typ
      && Decrypted(r, preset, record) == Panics
  }

  /** The test of the length passes for a text that has `x` bytes before its padding. */
  predicate Passes(x: nat) {
    x % U32 < HALF32
  }

  /** The fewest bytes a text of `n` bytes can have before its padding. */
  function FewestBefore(n: nat): nat {
    if n > 256 then n - 256 else 0
  }

  /** The most bytes it can have there and still panic. */
  function MostBefore(macSize: nat, typ: byte, n: nat): int {
    if typ == CONNECTION_ID then n - 1 else macSize - 1
  }

  /** Some padding of a text of `n` bytes reaches into the MAC, or any will do, and passes the test of the length. */
  predicate PanicLength(macSize: nat, typ: byte, n: nat) {
    && FewestBefore(n) <= MostBefore(macSize, typ, n)
    && (Passes(FewestBefore(n)) || Passes(MostBefore(macSize, typ, n)))
  }

  /** A text of `x` zeros and padding. */
  function PanicText(x: nat, n: nat): (r: bytes)
    requires x < n <= x + 256
    ensures |r| == n
  {
    Zeros(x) + seq(n - x, _ => n - x - 1)
  }

  /** A text that panics: its padding reaches into the MAC, or it has nothing but zeros to authenticate. */
  lemma PanicTextPanics(r: Keys, h: RecordHeader, header: bytes, x: nat, n: nat)
    requires r.macSize < n && x < n <= x + 256 && Passes(x)
    requires h.contentType == CONNECTION_ID || x < r.macSize
    ensures Checked(r, h, header, PanicText(x, n)) == Panics
  {
    var plain := PanicText(x, n);
    assert plain[n - 1] == n - x - 1;
    LengthTestedIs(plain, x);
    assert PaddingOk(plain);
    var end := x - r.macSize;
    if end >= 0 {
      assert plain[..end] == Zeros(end);
      CidMacInput(h, plain[..end]);
    }
  }

  lemma PanicHappens(w: Keys, r: Keys, typ: byte, n: nat)
    requires Matching(w, r) && typ != CHANGE_CIPHER_SPEC && Shaped(r, n)
    requires PanicLength(r.macSize, typ, n - r.blockSize)
    ensures PanicPossible(r, typ, n)
  {
    hide Checked, EncodeRecordHeader, Decrypted, PanicText, Passes;
    var h, size := RecordHeader(typ, 0xfe, 0xfd, 0, 0, [], 0), n - r.blockSize;
    var x := if Passes(FewestBefore(size)) then FewestBefore(size) else MostBefore(r.macSize, typ, size);
    var plain, iv := PanicText(x, size), Zeros(r.blockSize);
    PanicTextPanics(r, h, EncodeRecordHeader(h), x, size);
    var body := iv + w.encrypt(iv, plain);
    HeadAndTail(iv, w.encrypt(iv, plain));
    DecryptedIs(r, h, [], body);
    assert (EncodeRecordHeader(h) + body)[0] == typ by { FirstIsType(h, body); }
    assert Decrypted(r, [], EncodeRecordHeader(h) + body) == Panics;
  }

  lemma FirstIsType(h: RecordHeader, body: bytes)
    ensures (EncodeRecordHeader(h) + body)[0] == h.contentType
  {
  }

  /** Of two numbers less than 256 apart one passes if any between them does. */
  lemma EndPasses(low: nat, x: nat, high: nat)
    requires low <= x <= high <= low + 255 && Passes(x)
    ensures Passes(low) || Passes(high)
  {
    var q, rest := x / U32, x % U32;
    if rest < x - low {
      assert high == U32 * q + (rest + (high - x));
    } else {
      assert low == U32 * q + (rest - (x - low));
    }
  }

  lemma PanicOnlyIf(r: Keys, h: RecordHeader, header: bytes, plain: bytes)
    requires Checked(r, h, header, plain) == Panics && |plain| > r.macSize
    ensures PanicLength(r.macSize, h.contentType, |plain|)
  {
    var n := |plain|;
    var x := n - 1 - plain[n - 1];
    assert h.contentType != CONNECTION_ID ==> x < r.macSize;
    LengthTestedIs(plain, x);
    EndPasses(FewestBefore(n), x, MostBefore(r.macSize, h.contentType, n));
  }

  /**
   For every pair of matching keys and every length that passes the test of the body's length:
   some record of that length makes decryption panic exactly when the length allows it.
   */
  lemma PanicsExactly(w: Keys, r: Keys, typ: byte, n: nat)
    requires Matching(w, r) && typ != CHANGE_CIPHER_SPEC && Shaped(r, n)
    ensures PanicPossible(r, typ, n) <==> PanicLength(r.macSize, typ, n - r.blockSize)
  {
    hide Checked, PanicLength;
    if PanicLength(r.macSize, typ, n - r.blockSize) {
      PanicHappens(w, r, typ, n);
    } else {
      forall preset, record | |record| == RECORD_HEADER + |preset| + n && record[0] == typ
        ensures Decrypted(r, preset, record) != Panics
      {
        if Decrypted(r, preset, record) == Panics {
          var h, at := DecodeRecordHeaderInto(record, preset).value, RECORD_HEADER + |preset|;
          var body := record[at..];
          PanicOnlyIf(r, h, record[..at], r.decrypt(body[..r.blockSize], body[r.blockSize..]));
        }
      }
    }
  }

  /**
   For texts below 2^31 bytes that is: the record carries a connection identifier, or the text is
   shorter than a MAC and the longest padding together.
   */
  lemma PanicLengthIs(macSize: nat, typ: byte, n: nat)
    requires macSize < n < HALF32
    ensures PanicLength(macSize, typ, n) <==> typ == CONNECTION_ID || (macSize > 0 && n < macSize + 256)
  {
  }

  /** Keys whose cipher leaves the bytes as they are, with blocks of 16 bytes and a MAC of 20. */
  const PLAIN_KEYS := Keys(16, 20, (iv, x) => x, (iv, x) => x, x => Zeros(20), x => Zeros(20))

  /** Thirty-two decrypted bytes of 31 are all padding, and leave no room for the MAC. */
  lemma PanicWitness()
    ensures Matching(PLAIN_KEYS, PLAIN_KEYS)
    ensures var h := RecordHeader(23, 0xfe, 0xfd, 1, 0, [], 48);
            Decrypted(PLAIN_KEYS, [], EncodeRecordHeader(h) + Zeros(16) + seq(32, _ => 31)) == Panics
  {
    hide EncodeRecordHeader, Decrypted;
    var h, plain := RecordHeader(23, 0xfe, 0xfd, 1, 0, [], 48), seq(32, _ => 31);
    var body := Zeros(16) + plain;
    DecryptedIs(PLAIN_KEYS, h, [], body);
    HeadAndTail(Zeros(16), plain);
    Associates(EncodeRecordHeader(h), Zeros(16), plain);
    LengthTestedIs(plain, 0);
    assert PaddingOk(plain);
  }
}
