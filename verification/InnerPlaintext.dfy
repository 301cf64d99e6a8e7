/**
 The plaintext of a record that carries a connection identifier, section 4 of RFC 9146: the
 content, its real type, and any number of zero bytes.
 */
module InnerPlaintext {
  import opened Bytes

  datatype Inner = Inner(content: bytes, realType: byte, zeros: nat)

  /** `OutOfRange` is an index of -1. */
  datatype Outcome = Found(inner: Inner) | TooSmall | OutOfRange

  function MarshalInner(p: Inner): bytes {
    p.content + [p.realType] + Zeros(p.zeros)
  }

  /** The position of the last byte that is not zero, or -1. */
  function LastNonZero(data: bytes): (r: int)
    ensures -1 <= r < |data| && (r >= 0 ==> data[r] != 0)
    ensures forall i :: r < i < |data| ==> data[i] == 0
  {
    if data == [] then -1
    else if data[|data| - 1] != 0 then |data| - 1
    else LastNonZero(data[..|data| - 1])
  }

  function Unmarshalled(data: bytes): (r: Outcome)
    ensures r.Found? ==> r.inner.content != [] && r.inner.realType != 0
    ensures r.OutOfRange? <==> data == Zeros(|data|)
  {
    var i := LastNonZero(data);
    if i == 0 then TooSmall
    else if i < 0 then OutOfRange
    else Found(Inner(data[..i], data[i], |data| - 1 - i))
  }

  method UnmarshalInner(data: bytes) returns (r: Outcome)
    ensures r == Unmarshalled(data)
  {
    var zeros := 0;
    var i := |data| - 1;
    while i >= 0
      invariant -1 <= i < |data|
      invariant LastNonZero(data) == LastNonZero(data[..i + 1])
      invariant LastNonZero(data) <= i
    {
      if data[i] != 0 {
        zeros := |data| - 1 - i;
        break;
      }
      assert data[..i + 1][..i] == data[..i];
      i := i - 1;
    }
    if i == 0 {
      return TooSmall;
    }
    if i < 0 {
      return OutOfRange;
    }
    return Found(Inner(data[..i], data[i], zeros));
  }

  lemma LastNonZeroIs(data: bytes, i: nat)
    requires i < |data| && data[i] != 0 && forall k :: i < k < |data| ==> data[k] == 0
    ensures LastNonZero(data) == i
  {
  }

  /** What was read, written again, is the input. */
  lemma WrittenBack(data: bytes)
    requires Unmarshalled(data).Found?
    ensures MarshalInner(Unmarshalled(data).inner) == data
  {
  }

  /** A plaintext reads back exactly when it has content and its real type is not zero. */
  lemma InnerRoundTrip(p: Inner)
    ensures Unmarshalled(MarshalInner(p)) == Found(p) <==> p.content != [] && p.realType != 0
  {
    if p.realType != 0 { LastNonZeroIs(MarshalInner(p), |p.content|); }
  }
}
