/**
 The extensions of a hello message and their wire form: a list of type, length and body, each
 kind with its own body. A decoder is handed everything from its type on, the extensions after
 its own included; the walk over the list goes by the length fields.
 */
module Extensions {
  import opened Bytes

  /** Curves, protection profiles and signature algorithms are 16-bit codes; an algorithm's high byte is its hash. */
  datatype Extension =
    | ServerName(name: bytes)
    | EllipticCurves(curves: seq<nat>)
    | PointFormats(formats: bytes)
    | SignatureAlgorithms(algorithms: seq<nat>)
    | UseSrtp(profiles: seq<nat>, mki: bytes)
    | Alpn(names: seq<bytes>)
    | ExtendedMasterSecret(supported: bool)
    | RenegotiationInfo(connection: byte)
    | ConnectionId(cid: bytes)

  function TypeOf(e: Extension): nat {
    match e
    case ServerName(_) => 0
    case EllipticCurves(_) => 10
    case PointFormats(_) => 11
    case SignatureAlgorithms(_) => 13
    case UseSrtp(_, _) => 14
    case Alpn(_) => 16
    case ExtendedMasterSecret(_) => 23
    case ConnectionId(_) => 54
    case RenegotiationInfo(_) => 65281
  }

  predicate KnownType(t: nat) {
    t in {0, 10, 11, 13, 14, 16, 23, 54, 65281}
  }

  predicate KnownCurve(c: nat) {
    c in {0x17, 0x18, 0x1d}
  }

  predicate KnownProfile(p: nat) {
    1 <= p <= 8
  }

  predicate KnownAlgorithm(a: nat) {
    a / 256 in {0, 1, 2, 3, 4, 5, 6, 8} && a % 256 in {0, 1, 3, 7}
  }

  predicate KnownFormat(f: nat) {
    f == 0
  }

  // ---------- lists of codes ----------

  function PairsOf(xs: seq<nat>): (r: bytes)
    ensures |r| == 2 * |xs|
  {
    if xs == [] then [] else PairsOf(xs[..|xs| - 1]) + BE(xs[|xs| - 1], 2)
  }

  function ReadPairs(b: bytes, count: nat): (r: seq<nat>)
    requires 2 * count <= |b|
    ensures |r| == count
  {
    if count == 0 then [] else ReadPairs(b, count - 1) + [Val(b[2 * count - 2..2 * count])]
  }

  /** The codes the program knows; the others are dropped. */
  function Keep(xs: seq<nat>, known: nat -> bool): seq<nat> {
    if xs == [] then [] else Keep(xs[..|xs| - 1], known) + if known(xs[|xs| - 1]) then [xs[|xs| - 1]] else []
  }

  lemma KeepLast(xs: seq<nat>, x: nat, known: nat -> bool)
    ensures Keep(xs + [x], known) == if known(x) then Keep(xs, known) + [x] else Keep(xs, known)
  {
    assert (xs + [x])[..|xs|] == xs;
  }

  lemma {:induction false} PairsRead(xs: seq<nat>, after: bytes)
    requires forall i :: 0 <= i < |xs| ==> xs[i] < U16
    ensures ReadPairs(PairsOf(xs) + after, |xs|) == xs
  {
    hide BE, Val, Pow256;
    if xs != [] {
      var front, last := xs[..|xs| - 1], xs[|xs| - 1];
      PairsRead(front, BE(last, 2) + after);
      PairReads(PairsOf(front), |front|, last, after);
      Associates(PairsOf(front), BE(last, 2), after);
      FrontAndLast(xs);
    }
  }

  lemma PairReads(before: bytes, count: nat, last: nat, after: bytes)
    requires |before| == 2 * count && last < U16
    ensures var b := before + (BE(last, 2) + after); ReadPairs(b, count + 1) == ReadPairs(b, count) + [last]
  {
    hide BE, Val, Pow256;
    Widths();
    FieldReads(last, 2, before, after);
    assert before + BE(last, 2) + after == before + (BE(last, 2) + after);
  }

  lemma {:induction false} KeepAll(xs: seq<nat>, known: nat -> bool)
    requires forall i :: 0 <= i < |xs| ==> known(xs[i])
    ensures Keep(xs, known) == xs
  {
    if xs != [] { KeepAll(xs[..|xs| - 1], known); }
  }

  // ---------- length-prefixed strings ----------

  /** `None` when the length does not fit its prefix. */
  function WithPrefix(body: bytes, k: nat): Option<bytes> {
    if |body| < Pow256(k) then Some(BE(|body|, k) + body) else None
  }

  // ---------- protocol names ----------

  function NamesBytes(names: seq<bytes>): Option<bytes> {
    if names == [] then Some([])
    else
      var rest := NamesBytes(names[..|names| - 1]);
      var last := WithPrefix(names[|names| - 1], 1);
      if rest.None? || last.None? then None else Some(rest.value + last.value)
  }

  function NamesOf(b: bytes): Option<seq<bytes>>
    decreases |b|
  {
    if b == [] then Some([])
    else
      var p := Prefixed(b, 1);
      if p.None? || p.value.0 == [] then None else Continue([p.value.0], NamesOf(p.value.1))
  }

  lemma {:induction false} NamesRead(names: seq<bytes>, after: bytes)
    requires forall i :: 0 <= i < |names| ==> 0 < |names[i]| < 256
    ensures NamesBytes(names).Some? && NamesOf(NamesBytes(names).value + after) == Continue(names, NamesOf(after))
  {
    if names == [] {
      assert [] + after == after;
      ContinueEmpty(NamesOf(after));
    } else {
      hide BE, Prefixed, NamesOf, WithPrefix;
      var front, last := names[..|names| - 1], names[|names| - 1];
      var entry := BE(|last|, 1) + last;
      NamesRead(front, entry + after);
      NameReads(last, after);
      Associates(NamesBytes(front).value, entry, after);
      ContinueTwice(front, [last], NamesOf(after));
      FrontAndLast(names);
    }
  }

  lemma NameReads(name: bytes, after: bytes)
    requires 0 < |name| < 256
    ensures WithPrefix(name, 1) == Some(BE(|name|, 1) + name)
    ensures NamesOf(BE(|name|, 1) + name + after) == Continue([name], NamesOf(after))
  {
    hide BE, Prefixed;
    Widths();
    PrefixedReads(name, 1, after);
  }

  // ---------- one extension ----------

  function Framed(t: nat, body: bytes): (r: bytes)
    ensures |r| == 4 + |body|
  {
    BE(t, 2) + BE(|body|, 2) + body
  }

  /** The body of an extension, or nothing when it does not fit its length fields. */
  function Body(e: Extension): Option<bytes> {
    match e
    case ServerName(name) =>
      var entry := WithPrefix(name, 2);
      if entry.None? then None else WithPrefix([0] + entry.value, 2)
    case EllipticCurves(curves) => Some(BE(2 * |curves|, 2) + PairsOf(curves))
    case PointFormats(formats) => Some(BE(|formats|, 1) + formats)
    case SignatureAlgorithms(algorithms) => Some(BE(2 * |algorithms|, 2) + PairsOf(algorithms))
    case UseSrtp(profiles, mki) => if |mki| > 255 then None
      else Some(BE(2 * |profiles|, 2) + PairsOf(profiles) + BE(|mki|, 1) + mki)
    case Alpn(names) =>
      var list := NamesBytes(names);
      if list.None? then None else WithPrefix(list.value, 2)
    case ExtendedMasterSecret(_) => Some([])
    case RenegotiationInfo(connection) => Some([connection])
    case ConnectionId(cid) => WithPrefix(cid, 1)
  }

  predicate Nested(e: Extension) {
    e.ServerName? || e.Alpn? || e.ConnectionId?
  }

  /** The wire form; an extended master secret that is not supported is left out. */
  function Encode(e: Extension): Option<bytes> {
    var body := Body(e);
    if e == ExtendedMasterSecret(false) then Some([])
    else if body.None? then None
    else if Nested(e) && |body.value| >= U16 then None
    else Some(Framed(TypeOf(e), body.value))
  }

  /** A counted list of 16-bit codes at offset 4. */
  function DecodeCodes(b: bytes, known: nat -> bool): Option<seq<nat>> {
    if |b| <= 6 then None
    else
      var count := Val(b[4..6]) / 2;
      if 6 + 2 * count > |b| then None else Some(Keep(ReadPairs(b[6..], count), known))
  }

  function DecodeFormats(b: bytes): Option<bytes> {
    if |b| <= 5 || 5 + b[4] as int > |b| then None else Some(KeepBytes(b[5..5 + b[4] as int]))
  }

  function KeepBytes(b: bytes): bytes {
    if b == [] then [] else KeepBytes(b[..|b| - 1]) + if KnownFormat(b[|b| - 1]) then [b[|b| - 1]] else []
  }

  lemma {:induction false} KeepBytesAll(b: bytes)
    requires forall i :: 0 <= i < |b| ==> KnownFormat(b[i])
    ensures KeepBytes(b) == b
  {
    if b != [] { KeepBytesAll(b[..|b| - 1]); }
  }

  function DecodeSrtp(b: bytes): Option<Extension> {
    if |b| <= 6 then None
    else
      var count := Val(b[4..6]) / 2;
      var at := 6 + 2 * count;
      if at + 1 > |b| || at + b[at] as int >= |b| then None
      else Some(UseSrtp(Keep(ReadPairs(b[6..], count), KnownProfile), b[at + 1..at + 1 + b[at] as int]))
  }

  /** The body of a nested extension: what its length field covers, or nothing if that is missing. */
  function BodyOf(b: bytes): bytes {
    if |b| < 2 || Prefixed(b[2..], 2).None? then [] else Prefixed(b[2..], 2).value.0
  }

  function DecodeAlpn(b: bytes): Option<Extension> {
    var list := Prefixed(BodyOf(b), 2);
    if list.None? || list.value.0 == [] then None
    else
      var names := NamesOf(list.value.0);
      if names.None? then None else Some(Alpn(names.value))
  }

  /** The host name of a server name list: at most one, not empty, without a trailing dot. */
  function HostName(b: bytes, found: bytes): Option<bytes>
    decreases |b|
  {
    if b == [] then Some(found)
    else
      var p := Prefixed(b[1..], 2);
      if p.None? || p.value.0 == [] then None
      else if b[0] != 0 then HostName(p.value.1, found)
      else if found != [] || p.value.0[|p.value.0| - 1] == DOT then None
      else HostName(p.value.1, p.value.0)
  }

  const DOT: byte := 46

  function DecodeServerName(b: bytes): Option<Extension> {
    var list := Prefixed(BodyOf(b), 2);
    if list.None? || list.value.0 == [] then None
    else
      var name := HostName(list.value.0, []);
      if name.None? then None else Some(ServerName(name.value))
  }

  function DecodeConnectionId(b: bytes): Option<Extension> {
    var cid := Prefixed(BodyOf(b), 1);
    if cid.None? then None else Some(ConnectionId(cid.value.0))
  }

  /** The decoder of a known type, on the bytes from its type field to the end of the list. */
  function Decode(t: nat, b: bytes): Option<Extension>
    requires KnownType(t)
  {
    if t == 0 then DecodeServerName(b)
    else if t == 10 then (var c := DecodeCodes(b, KnownCurve); if c.None? then None else Some(EllipticCurves(c.value)))
    else if t == 11 then (var f := DecodeFormats(b); if f.None? then None else Some(PointFormats(f.value)))
    else if t == 13 then (var a := DecodeCodes(b, KnownAlgorithm); if a.None? then None
      else Some(SignatureAlgorithms(a.value)))
    else if t == 14 then DecodeSrtp(b)
    else if t == 16 then DecodeAlpn(b)
    else if t == 23 then (if |b| < 4 then None else Some(ExtendedMasterSecret(true)))
    else if t == 54 then DecodeConnectionId(b)
    else if |b| < 5 then None
    else Some(RenegotiationInfo(b[4]))
  }

  // ---------- round trip of one extension ----------

  predicate GoodCodes(xs: seq<nat>, known: nat -> bool) {
    xs != [] && forall i :: 0 <= i < |xs| ==> xs[i] < U16 && known(xs[i])
  }

  /** Non-empty lists of known values, names that are allowed, and lengths within their fields. */
  predicate WellFormed(e: Extension) {
    && Body(e).Some? && |Body(e).value| < U16
    && match e
       case ServerName(name) => name != [] && name[|name| - 1] != DOT
       case EllipticCurves(curves) => GoodCodes(curves, KnownCurve)
       case PointFormats(formats) => formats != [] && |formats| < 256 && forall i :: 0 <= i < |formats| ==>
         KnownFormat(formats[i])
       case SignatureAlgorithms(algorithms) => GoodCodes(algorithms, KnownAlgorithm)
       case UseSrtp(profiles, _) => GoodCodes(profiles, KnownProfile)
       case Alpn(names) => names != [] && forall i :: 0 <= i < |names| ==> names[i] != []
       case ExtendedMasterSecret(supported) => supported
       case RenegotiationInfo(_) => true
       case ConnectionId(_) => true
  }

  /** The type and length fields read back, and the body follows them. */
  lemma FramedReads(t: nat, body: bytes, after: bytes)
    requires t < U16 && |body| < U16
    ensures var b := Framed(t, body) + after;
            Val(b[..2]) == t && Val(b[2..4]) == |body| && b[4..] == body + after && BodyOf(b) == body
  {
    hide BE, Val, Pow256;
    Widths();
    var b := Framed(t, body) + after;
    FieldReads(t, 2, [], BE(|body|, 2) + body + after);
    assert b == [] + BE(t, 2) + (BE(|body|, 2) + body + after);
    FieldReads(|body|, 2, BE(t, 2), body + after);
    assert b == BE(t, 2) + BE(|body|, 2) + (body + after);
    PrefixedReads(body, 2, after);
    assert b[2..] == BE(|body|, 2) + body + after;
    assert b[4..] == body + after;
  }

  lemma Shifted(b: bytes, i: nat, j: nat)
    requires i + j <= |b|
    ensures b[i..][j..] == b[i + j..] && b[i..][..j] == b[i..i + j]
  {
  }

  /** A counted list of codes with something behind it. */
  lemma CountedReads(xs: seq<nat>, rest: bytes, known: nat -> bool)
    requires GoodCodes(xs, known) && 2 * |xs| < U16
    ensures var c := BE(2 * |xs|, 2) + (PairsOf(xs) + rest);
            Val(c[..2]) / 2 == |xs| && c[2 + 2 * |xs|..] == rest && Keep(ReadPairs(c[2..], |xs|), known) == xs
  {
    hide BE, Val, Pow256, Keep, ReadPairs, PairsOf;
    var c := BE(2 * |xs|, 2) + (PairsOf(xs) + rest);
    Widths();
    FieldReads(2 * |xs|, 2, [], PairsOf(xs) + rest);
    assert c == [] + BE(2 * |xs|, 2) + (PairsOf(xs) + rest);
    assert c[2..] == PairsOf(xs) + rest;
    PairsRead(xs, rest);
    KeepAll(xs, known);
  }

  lemma CodesRead(t: nat, xs: seq<nat>, tail: bytes, after: bytes, known: nat -> bool)
    requires t < U16 && GoodCodes(xs, known) && 2 + 2 * |xs| + |tail| < U16
    ensures var b := Framed(t, BE(2 * |xs|, 2) + PairsOf(xs) + tail) + after;
            |b| > 6 && Val(b[4..6]) / 2 == |xs| && 6 + 2 * |xs| <= |b| && b[6 + 2 * |xs|..] == tail + after
            && Keep(ReadPairs(b[6..], |xs|), known) == xs
  {
    hide BE, Val, Pow256, Keep, ReadPairs, PairsOf, Framed, GoodCodes, BodyOf;
    var body := BE(2 * |xs|, 2) + PairsOf(xs) + tail;
    var b := Framed(t, body) + after;
    FramedReads(t, body, after);
    CountedReads(xs, tail + after, known);
    var c := BE(2 * |xs|, 2) + (PairsOf(xs) + (tail + after));
    assert b[4..] == c by { assert body + after == c; }
    CodesPresent(xs, known);
    Shifted(b, 4, 2);
    assert b[4..6] == c[..2] && b[6..] == c[2..];
    Shifted(b, 4, 2 + 2 * |xs|);
    assert b[6 + 2 * |xs|..] == c[2 + 2 * |xs|..];
  }

  lemma CodesPresent(xs: seq<nat>, known: nat -> bool)
    requires GoodCodes(xs, known)
    ensures |xs| > 0
  {
  }

  lemma FormatsRead(formats: bytes, after: bytes)
    requires WellFormed(PointFormats(formats))
    ensures DecodeFormats(Encode(PointFormats(formats)).value + after) == Some(formats)
  {
    hide Val, Pow256, Framed, BE, BodyOf;
    var body := BE(|formats|, 1) + formats;
    var b := Framed(11, body) + after;
    FramedReads(11, body, after);
    OneByte(|formats|);
    assert b[4..] == [|formats| as byte] + (formats + after);
    assert b[4] == b[4..][0] == |formats|;
    Shifted(b, 4, 1);
    assert b[5..][..|formats|] == formats;
    Shifted(b, 5, |formats|);
    KeepBytesAll(formats);
  }

  lemma SrtpReads(profiles: seq<nat>, mki: bytes, after: bytes)
    requires WellFormed(UseSrtp(profiles, mki))
    ensures DecodeSrtp(Encode(UseSrtp(profiles, mki)).value + after) == Some(UseSrtp(profiles, mki))
  {
    hide Val, Pow256, Keep, ReadPairs, PairsOf, Framed, GoodCodes, BE;
    var tail := BE(|mki|, 1) + mki;
    var body := BE(2 * |profiles|, 2) + PairsOf(profiles) + tail;
    assert body == BE(2 * |profiles|, 2) + PairsOf(profiles) + BE(|mki|, 1) + mki;
    CodesRead(14, profiles, tail, after, KnownProfile);
    var b := Framed(14, body) + after;
    var at := 6 + 2 * |profiles|;
    OneByte(|mki|);
    assert b[at..] == [|mki| as byte] + (mki + after);
    assert b[at] == b[at..][0] == |mki|;
    Shifted(b, at, 1);
    assert b[at + 1..][..|mki|] == mki;
    Shifted(b, at + 1, |mki|);
  }

  lemma AlpnReads(names: seq<bytes>, after: bytes)
    requires WellFormed(Alpn(names))
    ensures DecodeAlpn(Encode(Alpn(names)).value + after) == Some(Alpn(names))
  {
    NamesFit(names);
    NamesRead(names, []);
    var list := NamesBytes(names).value;
    assert list + [] == list;
    ContinueDone(names);
    var body := BE(|list|, 2) + list;
    FramedReads(16, body, after);
    PrefixedReads(list, 2, []);
    assert body + [] == body;
    NamesNotEmpty(names);
  }

  lemma {:induction false} NamesFit(names: seq<bytes>)
    requires NamesBytes(names).Some?
    ensures forall i :: 0 <= i < |names| ==> |names[i]| < 256
  {
    if names != [] {
      NamesFit(names[..|names| - 1]);
      Widths();
    }
  }

  lemma NamesNotEmpty(names: seq<bytes>)
    requires names != [] && NamesBytes(names).Some?
    ensures NamesBytes(names).value != []
  {
  }

  lemma ServerNameReads(name: bytes, after: bytes)
    requires WellFormed(ServerName(name))
    ensures DecodeServerName(Encode(ServerName(name)).value + after) == Some(ServerName(name))
  {
    hide BE, Val, Pow256, Framed, HostName, Prefixed;
    Widths();
    var list := [0] + (BE(|name|, 2) + name);
    var body := BE(|list|, 2) + list;
    FramedReads(0, body, after);
    PrefixedReads(list, 2, []);
    assert body + [] == body;
    HostNameReads(name);
  }

  lemma HostNameReads(name: bytes)
    requires 0 < |name| < U16 && name[|name| - 1] != DOT
    ensures HostName([0] + (BE(|name|, 2) + name), []) == Some(name)
  {
    hide BE, Val, Prefixed;
    Widths();
    var list := [0] + (BE(|name|, 2) + name);
    PrefixedReads(name, 2, []);
    assert list[1..] == BE(|name|, 2) + name + [];
    assert HostName([], name) == Some(name);
  }

  lemma ConnectionIdReads(cid: bytes, after: bytes)
    requires WellFormed(ConnectionId(cid))
    ensures DecodeConnectionId(Encode(ConnectionId(cid)).value + after) == Some(ConnectionId(cid))
  {
    hide BE, Val, Pow256, Framed;
    var body := BE(|cid|, 1) + cid;
    FramedReads(54, body, after);
    PrefixedReads(cid, 1, []);
    assert body + [] == body;
  }

  /** Decoding what was encoded gives the extension back, whatever follows it. */
  lemma EncodedReads(e: Extension, after: bytes)
    requires WellFormed(e)
    ensures Encode(e).Some? && Decode(TypeOf(e), Encode(e).value + after) == Some(e)
    ensures var b := Encode(e).value + after;
            |Encode(e).value| >= 4 && Val(b[..2]) == TypeOf(e) && 4 + Val(b[2..4]) == |Encode(e).value|
  {
    hide BE, Val, Pow256, Keep, ReadPairs, PairsOf, DecodeServerName, DecodeFormats, DecodeSrtp, DecodeAlpn,
         DecodeConnectionId, NamesBytes;
    FramedReads(TypeOf(e), Body(e).value, after);
    match e
    case ServerName(name) => ServerNameReads(name, after);
    case EllipticCurves(curves) => CodesAlone(10, curves, after, KnownCurve);
    case PointFormats(formats) => FormatsRead(formats, after);
    case SignatureAlgorithms(algorithms) => CodesAlone(13, algorithms, after, KnownAlgorithm);
    case UseSrtp(profiles, mki) => SrtpReads(profiles, mki, after);
    case Alpn(names) => AlpnReads(names, after);
    case ExtendedMasterSecret(_) =>
    case RenegotiationInfo(connection) =>
      assert (Encode(e).value + after)[4..][0] == connection;
    case ConnectionId(cid) => ConnectionIdReads(cid, after);
  }

  lemma CodesAlone(t: nat, xs: seq<nat>, after: bytes, known: nat -> bool)
    requires t < U16 && GoodCodes(xs, known) && 2 + 2 * |xs| < U16
    ensures DecodeCodes(Framed(t, BE(2 * |xs|, 2) + PairsOf(xs)) + after, known) == Some(xs)
  {
    hide BE, Val, Pow256, Keep, ReadPairs, PairsOf, Framed;
    CodesRead(t, xs, [], after, known);
    assert BE(2 * |xs|, 2) + PairsOf(xs) + [] == BE(2 * |xs|, 2) + PairsOf(xs);
  }

  // ---------- the list ----------

  function MarshalAll(es: seq<Extension>): Option<bytes> {
    if es == [] then Some([])
    else
      var first := Encode(es[0]);
      if first.None? then None else Continue(first.value, MarshalAll(es[1..]))
  }

  function Marshal(es: seq<Extension>): Option<bytes> {
    var all := MarshalAll(es);
    if all.None? then None else Some(BE(|all.value|, 2) + all.value)
  }

  /** The extensions in what is left of the list; unknown types are skipped. */
  function Walk(b: bytes): Option<seq<Extension>>
    decreases |b|
  {
    if b == [] then Some([])
    else if |b| < 2 then None
    else
      var t := Val(b[..2]);
      if KnownType(t) && Decode(t, b).None? then None
      else if |b| < 4 then None
      else
        var n := 4 + Val(b[2..4]);
        Continue(if KnownType(t) then [Decode(t, b).value] else [], if n > |b| then Some([]) else Walk(b[n..]))
  }

  function Unmarshal(b: bytes): Option<seq<Extension>> {
    if b == [] then Some([])
    else if |b| < 2 then None
    else if |b| - 2 != Val(b[..2]) then None
    else Walk(b[2..])
  }

  predicate AllWellFormed(es: seq<Extension>) {
    forall e :: e in es ==> WellFormed(e)
  }

  lemma {:induction false} WalkUndoesMarshal(es: seq<Extension>)
    requires AllWellFormed(es)
    ensures MarshalAll(es).Some? && Walk(MarshalAll(es).value) == Some(es)
  {
    hide WellFormed, Encode, Decode, Val;
    if es != [] {
      assert es[0] in es;
      WalkUndoesMarshal(es[1..]);
      var rest := MarshalAll(es[1..]).value;
      EncodedReads(es[0], rest);
      var first := Encode(es[0]).value;
      assert (first + rest)[|first|..] == rest;
      assert [es[0]] + es[1..] == es;
    }
  }

  /** An arbitrary list of well-formed extensions, of any kinds and in any order, reads back. */
  lemma ListRoundTrip(es: seq<Extension>)
    requires AllWellFormed(es) && MarshalAll(es).Some? && |MarshalAll(es).value| < U16
    ensures Marshal(es).Some? && Unmarshal(Marshal(es).value) == Some(es)
  {
    hide AllWellFormed, Walk, MarshalAll;
    WalkUndoesMarshal(es);
    var all := MarshalAll(es).value;
    Widths();
    FieldReads(|all|, 2, [], all);
    assert Marshal(es).value == [] + BE(|all|, 2) + all;
    assert Marshal(es).value[2..] == all;
  }

  // ---------- the code ----------

  method EncodeCodes(t: nat, xs: seq<nat>) returns (out: bytes)
    ensures out == Framed(t, BE(2 * |xs|, 2) + PairsOf(xs))
  {
    hide BE;
    out := BE(t, 2) + BE(2 + 2 * |xs|, 2) + BE(2 * |xs|, 2);
    ghost var header := out;
    for i := 0 to |xs|
      invariant out == header + PairsOf(xs[..i])
    {
      out := out + BE(xs[i], 2);
      assert xs[..i + 1][..i] == xs[..i];
    }
    assert xs[..|xs|] == xs;
  }

  lemma PairAt(b: bytes, i: nat)
    requires 6 + 2 * i + 2 <= |b|
    ensures ReadPairs(b[6..], i + 1) == ReadPairs(b[6..], i) + [Val(b[6 + 2 * i..6 + 2 * i + 2])]
  {
    hide Val;
    assert b[6..][2 * i..2 * i + 2] == b[6 + 2 * i..6 + 2 * i + 2];
  }

  method ReadCodes(b: bytes, known: nat -> bool) returns (r: Option<seq<nat>>)
    ensures r == DecodeCodes(b, known)
  {
    hide Val;
    if |b| <= 6 {
      return None;
    }
    var count := Val(b[4..6]) / 2;
    if 6 + 2 * count > |b| {
      return None;
    }
    var out := [];
    assert Keep(ReadPairs(b[6..], 0), known) == [];
    hide Keep, ReadPairs;
    for i := 0 to count
      invariant out == Keep(ReadPairs(b[6..], i), known)
    {
      var code := Val(b[6 + 2 * i..6 + 2 * i + 2]);
      PairAt(b, i);
      KeepLast(ReadPairs(b[6..], i), code, known);
      if known(code) {
        out := out + [code];
      }
    }
    return Some(out);
  }

  method ReadNames(b: bytes) returns (r: Option<seq<bytes>>)
    ensures r == NamesOf(b)
  {
    hide Prefixed;
    var rest := b;
    var names := [];
    ContinueEmpty(NamesOf(b));
    while rest != []
      invariant Continue(names, NamesOf(rest)) == NamesOf(b)
      decreases |rest|
    {
      var p := Prefixed(rest, 1);
      if p.None? || p.value.0 == [] {
        return None;
      }
      ContinueTwice(names, [p.value.0], NamesOf(p.value.1));
      names := names + [p.value.0];
      rest := p.value.1;
    }
    ContinueDone(names);
    return Some(names);
  }

  method ReadHostName(b: bytes) returns (r: Option<bytes>)
    ensures r == HostName(b, [])
  {
    hide Prefixed;
    var rest, name := b, [];
    while rest != []
      invariant HostName(rest, name) == HostName(b, [])
      decreases |rest|
    {
      var nameType := rest[0];
      var p := Prefixed(rest[1..], 2);
      if p.None? || p.value.0 == [] {
        return None;
      }
      rest := p.value.1;
      if nameType != 0 {
        continue;
      }
      if name != [] {
        return None;
      }
      name := p.value.0;
      if name[|name| - 1] == DOT {
        return None;
      }
    }
    return Some(name);
  }

  method MarshalList(es: seq<Extension>) returns (r: Option<bytes>)
    ensures r == Marshal(es)
  {
    hide Encode, BE;
    var all: bytes := [];
    assert es[0..] == es;
    ContinueEmpty(MarshalAll(es));
    for i := 0 to |es|
      invariant Continue(all, MarshalAll(es[i..])) == MarshalAll(es)
    {
      var raw := Encode(es[i]);
      assert es[i..][1..] == es[i + 1..];
      if raw.None? {
        return None;
      }
      ContinueTwice(all, raw.value, MarshalAll(es[i + 1..]));
      all := all + raw.value;
    }
    ContinueDone(all);
    return Some(BE(|all|, 2) + all);
  }

  method UnmarshalList(buf: bytes) returns (r: Option<seq<Extension>>)
    ensures r == Unmarshal(buf)
  {
    hide Decode, Val;
    if |buf| == 0 {
      return Some([]);
    } else if |buf| < 2 {
      return None;
    }
    if |buf| - 2 != Val(buf[..2]) {
      return None;
    }
    var extensions := [];
    var offset: nat := 2;
    ContinueEmpty(Walk(buf[2..]));
    while offset < |buf|
      invariant Continue(extensions, if offset > |buf| then Some([]) else Walk(buf[offset..])) == Walk(buf[2..])
    {
      if |buf| < offset + 2 {
        return None;
      }
      var b := buf[offset..];
      var t := Val(buf[offset..offset + 2]);
      assert b[..2] == buf[offset..offset + 2];
      var one: seq<Extension> := [];
      if KnownType(t) {
        var e := Decode(t, b);
        if e.None? {
          return None;
        }
        one := [e.value];
      }
      if |buf| < offset + 4 {
        return None;
      }
      var n := 4 + Val(buf[offset + 2..offset + 4]);
      assert b[2..4] == buf[offset + 2..offset + 4];
      assert n <= |b| ==> b[n..] == buf[offset + n..];
      ContinueTwice(extensions, one, if n > |b| then Some([]) else Walk(b[n..]));
      extensions := extensions + one;
      offset := offset + n;
    }
    ContinueDone(extensions);
    return Some(extensions);
  }
}
