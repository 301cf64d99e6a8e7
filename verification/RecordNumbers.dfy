/**
 When writing fails: exactly when some epoch has fewer record numbers left than the call needs.
 */
module RecordNumbers {
  import opened Bytes
  import opened RecordLayer
  import opened Fragmentation
  import opened ConnWriter

  /** The next number of an epoch. */
  function Next(numbers: seq<nat>, epoch: nat): nat {
    if epoch < |numbers| then numbers[epoch] else 0
  }

  /** How many records of an epoch there are. */
  function Used(contents: seq<Content>, epoch: nat): nat {
    if contents == [] then 0
    else Used(contents[1..], epoch) + if contents[0].epoch == epoch then 1 else 0
  }

  /** Of 2^48 numbers in each epoch enough are left. */
  ghost predicate Enough(numbers: seq<nat>, contents: seq<Content>) {
    forall epoch: nat ::
      Used(contents, epoch) == 0 || Next(numbers, epoch) + Used(contents, epoch) <= 0x1_0000_0000_0000
  }

  /** The numbers drawn are gone. */
  ghost predicate Moved(before: seq<nat>, after: seq<nat>, contents: seq<Content>) {
    forall epoch: nat :: Next(after, epoch) == Next(before, epoch) + Used(contents, epoch)
  }

  lemma {:induction false} UsedSum(a: seq<Content>, b: seq<Content>, epoch: nat)
    ensures Used(a + b, epoch) == Used(a, epoch) + Used(b, epoch)
  {
    if a == [] {
      assert a + b == b;
    } else {
      UsedSum(a[1..], b, epoch);
      TailOfSum(a, b);
    }
  }

  lemma {:induction false} UsedOfOne(epoch: nat, contentType: byte, payloads: seq<bytes>, e: nat)
    ensures Used(Contents(epoch, contentType, payloads), e) == if e == epoch then |payloads| else 0
  {
    if payloads != [] {
      UsedOfOne(epoch, contentType, payloads[1..], e);
      assert Contents(epoch, contentType, payloads)[1..] == Contents(epoch, contentType, payloads[1..]);
    }
  }

  lemma {:induction false} StampAllExactly(numbers: seq<nat>, epoch: nat, contentType: byte, payloads: seq<bytes>)
    requires epoch < |numbers|
    ensures var out := StampAll(numbers, epoch, contentType, payloads);
            && (out.1.Some? <==> payloads == [] || numbers[epoch] + |payloads| <= 0x1_0000_0000_0000)
            && (out.1.Some? ==> out.0 == numbers[epoch := numbers[epoch] + |payloads|])
    decreases |payloads|
  {
    hide Stamp;
    if payloads != [] {
      StampAllExactly(numbers[epoch := numbers[epoch] + 1], epoch, contentType, payloads[1..]);
    }
  }

  lemma StampedMoves(numbers: seq<nat>, epoch: nat, contentType: byte, payloads: seq<bytes>)
    ensures var out := StampAll(Extended(numbers, epoch), epoch, contentType, payloads);
            var contents := Contents(epoch, contentType, payloads);
            && (out.1.Some? <==> Enough(numbers, contents))
            && (out.1.Some? ==> Moved(numbers, out.0, contents))
  {
    hide StampAll;
    var wide, contents := Extended(numbers, epoch), Contents(epoch, contentType, payloads);
    StampAllExactly(wide, epoch, contentType, payloads);
    forall e: nat
      ensures Used(contents, e) == (if e == epoch then |payloads| else 0) && Next(wide, e) == Next(numbers, e)
    {
      UsedOfOne(epoch, contentType, payloads, e);
    }
    assert Used(contents, epoch) == |payloads|;
  }

  lemma WriteOneExactly(c: Conn, p: Packet)
    requires c.mtu > 0
    ensures var out, contents := WriteOne(c, p), PacketContents(p, c.mtu);
            && (out.1.Some? <==> Enough(c.nextNumber, contents))
            && (out.1.Some? ==> Moved(c.nextNumber, out.0.nextNumber, contents)) && out.0.mtu == c.mtu
  {
    hide Enough, Moved, StampAll, Extended;
    match p
    case HandshakePacket(epoch, m) => StampedMoves(c.nextNumber, epoch, HANDSHAKE, Fragments(m, c.mtu));
    case OtherPacket(epoch, contentType, payload) => StampedMoves(c.nextNumber, epoch, contentType, [payload]);
  }

  lemma EnoughTogether(numbers: seq<nat>, next: seq<nat>, a: seq<Content>, b: seq<Content>)
    ensures !Enough(numbers, a) ==> !Enough(numbers, a + b)
    ensures Enough(numbers, a) && Moved(numbers, next, a) ==> (Enough(numbers, a + b) <==> Enough(next, b))
  {
    forall epoch: nat ensures Used(a + b, epoch) == Used(a, epoch) + Used(b, epoch) { UsedSum(a, b, epoch); }
  }

  lemma MovedTogether(numbers: seq<nat>, mid: seq<nat>, next: seq<nat>, a: seq<Content>, b: seq<Content>)
    requires Moved(numbers, mid, a) && Moved(mid, next, b)
    ensures Moved(numbers, next, a + b)
  {
    forall epoch: nat ensures Next(next, epoch) == Next(numbers, epoch) + Used(a + b, epoch) { UsedSum(a, b, epoch); }
  }

  /**
   A call writes its records exactly when every epoch it uses has enough of its 2^48 numbers left,
   and then exactly those numbers are gone.
   */
  lemma {:induction false} WriteAllExactly(c: Conn, packets: seq<Packet>)
    requires c.mtu > 0
    ensures var out, contents := WriteAll(c, packets), AllContents(packets, c.mtu);
            && (out.1.Some? <==> Enough(c.nextNumber, contents))
            && (out.1.Some? ==> Moved(c.nextNumber, out.0.nextNumber, contents))
    decreases |packets|
  {
    if packets != [] {
      hide Enough, Moved, WriteOne, PacketContents;
      var first := WriteOne(c, packets[0]);
      var a, b := PacketContents(packets[0], c.mtu), AllContents(packets[1..], c.mtu);
      WriteOneExactly(c, packets[0]);
      EnoughTogether(c.nextNumber, first.0.nextNumber, a, b);
      if first.1.Some? {
        WriteAllExactly(first.0, packets[1..]);
        var rest := WriteAll(first.0, packets[1..]);
        if rest.1.Some? { MovedTogether(c.nextNumber, first.0.nextNumber, rest.0.nextNumber, a, b); }
      }
    }
  }
}
