/**
 The ClientHello message of section 7.4.1.2 of RFC 5246 with the cookie of section 4.2.1 of
 RFC 6347, written field by field and read back by a running offset.
 */
module ClientHello {
  import opened Bytes
  import Extensions

  const RANDOM: nat := 32
  const VARIABLE_START: nat := 34

  datatype Hello = Hello(
    major: byte, minor: byte, time: nat, random: bytes,
    sessionId: bytes, cookie: bytes, suites: seq<nat>, compression: bytes, extensions: seq<Extensions.Extension>)

  /** Each field within its length field, the known compression method only, and well-formed extensions. */
  predicate WellFormed(h: Hello) {
    && h.time < U32 && |h.random| == 28 && |h.sessionId| < 256 && |h.cookie| < 256
    && 2 * |h.suites| < U16 && (forall i :: 0 <= i < |h.suites| ==> h.suites[i] < U16)
    && |h.compression| < 256 && (forall i :: 0 <= i < |h.compression| ==> h.compression[i] == 0)
    && Extensions.AllWellFormed(h.extensions)
    && Extensions.MarshalAll(h.extensions).Some? && |Extensions.MarshalAll(h.extensions).value| < U16
  }

  // ---------- the lists ----------

  function EncodeSuites(suites: seq<nat>): bytes {
    BE(2 * |suites|, 2) + Extensions.PairsOf(suites)
  }

  function DecodeSuites(b: bytes): Option<seq<nat>> {
    if |b| < 2 then None
    else
      var count := Val(b[..2]) / 2;
      if |b| < 2 + 2 * count then None else Some(Extensions.ReadPairs(b[2..], count))
  }

  function Reversed(b: bytes): bytes {
    if b == [] then [] else [b[|b| - 1]] + Reversed(b[..|b| - 1])
  }

  /** The methods are written last to first. */
  function EncodeCompression(methods: bytes): bytes {
    BE(|methods|, 1) + Reversed(methods)
  }

  function KnownMethods(b: bytes): bytes {
    if b == [] then [] else KnownMethods(b[..|b| - 1]) + if b[|b| - 1] == 0 then [0] else []
  }

  function DecodeCompression(b: bytes): Option<bytes> {
    if |b| < 1 || |b| < 1 + b[0] as int then None else Some(KnownMethods(b[1..1 + b[0] as int]))
  }

  /** One method is known, so its lists read the same in either order. */
  lemma {:induction false} NullMethods(b: bytes)
    requires forall i :: 0 <= i < |b| ==> b[i] == 0
    ensures |Reversed(b)| == |b| && (forall i :: 0 <= i < |b| ==> Reversed(b)[i] == 0) && KnownMethods(b) == b
  {
    if b != [] { NullMethods(b[..|b| - 1]); }
  }

  // ---------- the message ----------

  function Fixed(h: Hello): bytes {
    [h.major, h.minor] + BE(h.time, 4) + h.random
  }

  /** A string behind a one-byte length, which wraps if it is too long. */
  function Short(b: bytes): bytes {
    BE(|b|, 1) + b
  }

  function Encode(h: Hello): Option<bytes> {
    var extensions := Extensions.Marshal(h.extensions);
    if |h.cookie| > 255 || extensions.None? then None
    else Some(Fixed(h) + Short(h.sessionId) + Short(h.cookie) + EncodeSuites(h.suites)
      + EncodeCompression(h.compression) + extensions.value)
  }

  /** A string behind a one-byte length and what follows it, of which there must be at least one byte. */
  function ReadShort(b: bytes): Option<(bytes, bytes)> {
    if |b| <= 1 || |b| <= 1 + b[0] as int then None else Some((b[1..1 + b[0] as int], b[1 + b[0] as int..]))
  }

  function Decode(b: bytes): Option<Hello> {
    if |b| < 2 + RANDOM then None
    else
      var session := ReadShort(b[VARIABLE_START..]);
      if session.None? then None
      else
        var cookie := ReadShort(session.value.1);
        if cookie.None? then None
        else
          var rest := DecodeRest(cookie.value.1);
          if rest.None? then None
          else Some(Hello(b[0], b[1], Val(b[2..6]), b[6..VARIABLE_START], session.value.0, cookie.value.0,
                          rest.value.0, rest.value.1, rest.value.2))
  }

  /** Cipher suites, compression methods and extensions. */
  function DecodeRest(b: bytes): Option<(seq<nat>, bytes, seq<Extensions.Extension>)> {
    var suites := DecodeSuites(b);
    if suites.None? || |b| < 2 + Val(b[..2]) then None
    else
      var c := b[2 + Val(b[..2])..];
      var methods := DecodeCompression(c);
      if methods.None? then None
      else
        var extensions := Extensions.Unmarshal(c[1 + c[0] as int..]);
        if extensions.None? then None else Some((suites.value, methods.value, extensions.value))
  }

  // ---------- round trip ----------

  lemma ShortReads(b: bytes, after: bytes)
    requires |b| < 256 && after != []
    ensures ReadShort(Short(b) + after) == Some((b, after))
  {
    OneByte(|b|);
    var all := Short(b) + after;
    assert all[0] == |b| && all[1..1 + |b|] == b && all[1 + |b|..] == after;
  }

  lemma SuitesRead(suites: seq<nat>, after: bytes)
    requires 2 * |suites| < U16 && forall i :: 0 <= i < |suites| ==> suites[i] < U16
    ensures var b := EncodeSuites(suites) + after;
            |b| == 2 + 2 * |suites| + |after| && DecodeSuites(b) == Some(suites) && Val(b[..2]) == 2 * |suites| &&
              b[2 + 2 * |suites|..] == after
  {
    hide BE, Val, Pow256, Extensions.ReadPairs, Extensions.PairsOf;
    Widths();
    var b := EncodeSuites(suites) + after;
    FieldReads(2 * |suites|, 2, [], Extensions.PairsOf(suites) + after);
    assert b == [] + BE(2 * |suites|, 2) + (Extensions.PairsOf(suites) + after);
    assert b[2..] == Extensions.PairsOf(suites) + after;
    Extensions.PairsRead(suites, after);
  }

  lemma CompressionReads(methods: bytes, after: bytes)
    requires |methods| < 256 && forall i :: 0 <= i < |methods| ==> methods[i] == 0
    ensures var b := EncodeCompression(methods) + after;
            |b| == 1 + |methods| + |after| && DecodeCompression(b) == Some(methods) && b[0] == |methods| &&
              b[1 + |methods|..] == after
  {
    OneByte(|methods|);
    NullMethods(methods);
    assert Reversed(methods) == methods;
    var b := EncodeCompression(methods) + after;
    assert b[1..1 + |methods|] == methods;
  }

  lemma RestReads(h: Hello)
    requires WellFormed(h)
    ensures Extensions.Marshal(h.extensions).Some?
    ensures var b := EncodeSuites(h.suites) + EncodeCompression(h.compression) + Extensions.Marshal(h.extensions).value;
            DecodeRest(b) == Some((h.suites, h.compression, h.extensions))
  {
    hide EncodeSuites, EncodeCompression, DecodeSuites, DecodeCompression, Val, BE,
         Extensions.Marshal, Extensions.Unmarshal, Extensions.AllWellFormed, Extensions.MarshalAll;
    Extensions.ListRoundTrip(h.extensions);
    var tail := Extensions.Marshal(h.extensions).value;
    var c := EncodeCompression(h.compression) + tail;
    SuitesRead(h.suites, c);
    CompressionReads(h.compression, tail);
    assert EncodeSuites(h.suites) + EncodeCompression(h.compression) + tail == EncodeSuites(h.suites) + c;
  }

  /** A well-formed hello is far below the 24-bit length of a handshake message. */
  lemma EncodedSize(h: Hello)
    requires WellFormed(h)
    ensures Encode(h).Some? && |Encode(h).value| < 4 * U16
  {
    hide BE, Extensions.AllWellFormed, Extensions.MarshalAll;
    CompressionReads(h.compression, []);
    assert EncodeCompression(h.compression) + [] == EncodeCompression(h.compression);
  }

  /** Every well-formed hello reads back as it was written. */
  lemma HelloRoundTrip(h: Hello)
    requires WellFormed(h)
    ensures Encode(h).Some? && Decode(Encode(h).value) == Some(h)
  {
    hide DecodeRest, ReadShort, Short, EncodeSuites, EncodeCompression, BE, Val, Pow256,
         Extensions.Marshal, Extensions.AllWellFormed, Extensions.MarshalAll;
    RestReads(h);
    var rest := EncodeSuites(h.suites) + EncodeCompression(h.compression) + Extensions.Marshal(h.extensions).value;
    SuitesNotEmpty(h.suites);
    ShortReads(h.cookie, rest);
    ShortNotEmpty(h.cookie);
    ShortReads(h.sessionId, Short(h.cookie) + rest);
    var b := Encode(h).value;
    var variable := Short(h.sessionId) + (Short(h.cookie) + rest);
    assert b == Fixed(h) + variable;
    assert b[VARIABLE_START..] == variable;
    FixedReads(h, variable);
  }

  lemma SuitesNotEmpty(suites: seq<nat>)
    ensures EncodeSuites(suites) != []
  {
  }

  lemma ShortNotEmpty(b: bytes)
    ensures Short(b) != []
  {
  }

  lemma FixedReads(h: Hello, after: bytes)
    requires h.time < U32 && |h.random| == 28
    ensures var b := Fixed(h) + after;
            |b| >= VARIABLE_START && b[0] == h.major && b[1] == h.minor && Val(b[2..6]) == h.time &&
              b[6..VARIABLE_START] == h.random
  {
    Widths();
    FieldReads(h.time, 4, [h.major, h.minor], h.random + after);
    assert Fixed(h) + after == [h.major, h.minor] + BE(h.time, 4) + (h.random + after);
  }

  // ---------- the code ----------

  method WriteSuites(suites: seq<nat>) returns (out: bytes)
    ensures out == EncodeSuites(suites)
  {
    hide BE;
    out := BE(2 * |suites|, 2);
    ghost var header := out;
    for i := 0 to |suites|
      invariant out == header + Extensions.PairsOf(suites[..i])
    {
      out := out + BE(suites[i], 2);
      assert suites[..i + 1][..i] == suites[..i];
    }
    assert suites[..|suites|] == suites;
  }

  method ReadSuites(b: bytes) returns (r: Option<seq<nat>>)
    ensures r == DecodeSuites(b)
  {
    hide Val;
    if |b| < 2 {
      return None;
    }
    var count := Val(b[..2]) / 2;
    var out: seq<nat> := [];
    for i := 0 to count
      invariant 2 + 2 * i <= |b| && out == Extensions.ReadPairs(b[2..], i)
    {
      if |b| < 2 * i + 4 {
        return None;
      }
      assert b[2..][2 * i..2 * i + 2] == b[2 * i + 2..2 * i + 4];
      out := out + [Val(b[2 * i + 2..2 * i + 4])];
    }
    return Some(out);
  }

  method WriteCompression(methods: bytes) returns (out: bytes)
    ensures out == EncodeCompression(methods)
  {
    hide BE;
    out := BE(|methods|, 1);
    ghost var header := out;
    var i := |methods|;
    assert methods[..i] == methods;
    while i > 0
      invariant 0 <= i <= |methods| && out + Reversed(methods[..i]) == header + Reversed(methods)
    {
      assert methods[..i][..i - 1] == methods[..i - 1];
      out := out + [methods[i - 1]];
      i := i - 1;
    }
  }

  method ReadCompression(b: bytes) returns (r: Option<bytes>)
    ensures r == DecodeCompression(b)
  {
    if |b| < 1 {
      return None;
    }
    var count: int := b[0];
    var c: bytes := [];
    for i := 0 to count
      invariant 1 + i <= |b| && c == KnownMethods(b[1..1 + i])
    {
      if |b| <= i + 1 {
        return None;
      }
      assert b[1..i + 2][..i] == b[1..1 + i];
      if b[i + 1] == 0 {
        c := c + [b[i + 1]];
      }
    }
    return Some(c);
  }

  method Marshal(h: Hello) returns (r: Option<bytes>)
    requires |h.random| == 28
    ensures r == Encode(h)
  {
    hide Extensions.Marshal, BE;
    if |h.cookie| > 255 {
      return None;
    }
    var out := [h.major, h.minor] + BE(h.time, 4) + h.random;
    out := out + BE(|h.sessionId|, 1);
    out := out + h.sessionId;
    out := out + BE(|h.cookie|, 1);
    out := out + h.cookie;
    var suites := WriteSuites(h.suites);
    out := out + suites;
    var compression := WriteCompression(h.compression);
    out := out + compression;
    var extensions := Extensions.MarshalList(h.extensions);
    if extensions.None? {
      return None;
    }
    assert out == Fixed(h) + Short(h.sessionId) + Short(h.cookie) + EncodeSuites(h.suites)
           + EncodeCompression(h.compression);
    return Some(out + extensions.value);
  }

  /** Reads a short string at `offset`, returning the offset behind it. */
  method ReadShortAt(data: bytes, offset: nat) returns (r: Option<(bytes, nat)>)
    requires offset <= |data|
    ensures r.None? <==> ReadShort(data[offset..]).None?
    ensures r.Some? ==> r.value.1 < |data| && ReadShort(data[offset..]) == Some((r.value.0, data[r.value.1..]))
  {
    var at := offset + 1;
    if |data| <= at {
      return None;
    }
    var b := data[offset..];
    var n: int := data[at - 1];
    assert b[0] == n;
    if |data| <= at + n {
      return None;
    }
    var found := data[at..at + n];
    assert b[1..1 + n] == found && b[1 + n..] == data[at + n..];
    return Some((found, at + n));
  }

  method ReadRest(data: bytes, start: nat) returns (r: Option<(seq<nat>, bytes, seq<Extensions.Extension>)>)
    requires start <= |data|
    ensures r == DecodeRest(data[start..])
  {
    hide Extensions.Unmarshal, DecodeCompression, Val;
    var b := data[start..];
    var suites := ReadSuites(b);
    if suites.None? {
      return None;
    }
    assert b[..2] == data[start..start + 2];
    var offset := start + Val(data[start..start + 2]) + 2;
    if |data| < offset {
      return None;
    }
    var c := data[offset..];
    assert c == b[2 + Val(b[..2])..];
    var compression := ReadCompression(c);
    if compression.None? {
      return None;
    }
    CompressionPresent(c);
    offset := offset + data[offset] as int + 1;
    assert data[offset..] == c[1 + c[0] as int..];
    var extensions := Extensions.UnmarshalList(data[offset..]);
    if extensions.None? {
      return None;
    }
    return Some((suites.value, compression.value, extensions.value));
  }

  method Unmarshal(data: bytes) returns (r: Option<Hello>)
    ensures r == Decode(data)
  {
    hide DecodeRest, ReadShort, Val;
    if |data| < 2 + RANDOM {
      return None;
    }
    var session := ReadShortAt(data, VARIABLE_START);
    if session.None? {
      return None;
    }
    var cookie := ReadShortAt(data, session.value.1);
    if cookie.None? {
      return None;
    }
    var rest := ReadRest(data, cookie.value.1);
    if rest.None? {
      return None;
    }
    return Some(Hello(data[0], data[1], Val(data[2..6]), data[6..VARIABLE_START], session.value.0, cookie.value.0,
                      rest.value.0, rest.value.1, rest.value.2));
  }

  lemma CompressionPresent(b: bytes)
    requires DecodeCompression(b).Some?
    ensures |b| >= 1 && |b| >= 1 + b[0] as int
  {
  }
}
