/** The bytes on the wire, written out: what an endpoint of another build has to agree with. */
module WireFormat {
  import opened Words
  import opened Wire
  import opened AckHeaders
  import opened Messages
  import opened Packets

  /** Byte `i` of a number, most significant first. */
  function Octet(x: nat, width: nat, i: nat): u8
    requires i < width
    decreases width - i
  {
    if i == width - 1 then x % 256 else Octet(x / 256, width - 1, i)
  }

  lemma {:induction false} NumbersBigEndian(x: nat, width: nat, i: nat)
    requires i < width
    ensures PutBytes(x, width)[i] == Octet(x, width, i)
    decreases width - i
  {
    if i < width - 1 {
      NumbersBigEndian(x / 256, width - 1, i);
    }
  }

  lemma {:induction false} NumbersWritten(a: u8, b: u8, c: u8, d: u8)
    ensures PutU16(256 * a + b) == [a, b]
    ensures PutU32(0x100_0000 * a + 0x1_0000 * b + 0x100 * c + d) == [a, b, c, d]
  {
    var x3 := 0x1_0000 * a + 0x100 * b + c;
    var x2 := 0x100 * a + b;
    assert (256 * x3 + d) / 256 == x3 && (256 * x2 + c) / 256 == x2 && (256 * a + b) / 256 == a;
    assert PutBytes(a, 1) == [a] by {
      assert PutBytes(a / 256, 0) == [];
    }
    assert PutBytes(x2, 2) == [a, b];
    assert PutBytes(x3, 3) == [a, b, c];
    assert PutBytes(256 * x3 + d, 4) == [a, b, c, d];
  }

  // -- messages --

  /** A whole message: flags and channel, the id, the length in one byte or in two, the payload. */
  lemma {:induction false} WholeForm(id: u16, channel: u8, payload: bytes)
    requires channel < 32 && |payload| <= 1024
    ensures NewOutbound(id, channel, payload, None).buffer ==
              if |payload| <= 255 then [8 * channel, id / 256, id % 256, |payload|] + payload
              else [2 + 8 * channel, id / 256, id % 256, |payload| / 256, |payload| % 256] + payload
  {
  }

  /** A fragment: index and count in one byte each or in two, and for the last one its length in two. */
  lemma {:induction false} FragmentForm(id: u16, channel: u8, payload: bytes, f: Fragment)
    requires channel < 32 && |payload| <= 1024 && f.index < f.numFragments
    requires f.index < f.numFragments - 1 ==> |payload| == 1024
    ensures NewOutbound(id, channel, payload, Some(f)).buffer ==
              if |payload| <= 255 then
                [1 + 8 * channel, id / 256, id % 256, f.index % 256, f.numFragments % 256, 0, |payload|] + payload
              else if f.index < f.numFragments - 1 then
                [3 + 8 * channel, id / 256, id % 256, f.index / 256, f.index % 256, f.numFragments / 256,
                 f.numFragments % 256] + payload
              else
                [3 + 8 * channel, id / 256, id % 256, f.index / 256, f.index % 256, f.numFragments / 256,
                 f.numFragments % 256, |payload| / 256, |payload| % 256] + payload
  {
    WrapSmall(f.numFragments - 1);
  }

  /** The room that a message is taken to need, which counts its header twice. */
  lemma {:induction false} RoomTaken(id: u16, channel: u8, payload: bytes, fragment: Option<Fragment>)
    requires channel < 32 && |payload| <= 1024
    requires fragment.Some? ==> fragment.value.index < fragment.value.numFragments
    requires fragment.Some? && fragment.value.index < fragment.value.numFragments - 1 ==> |payload| == 1024
    ensures NewOutbound(id, channel, payload, fragment).Size() ==
              |payload| +
              match fragment
              case None => if |payload| <= 255 then 8 else 10
              case Some(f) =>
                if f.index < f.numFragments - 1 then 15 else if |payload| <= 255 then 15 else 19
  {
    if fragment.Some? {
      WrapSmall(fragment.value.numFragments - 1);
    }
  }

  // -- headers --

  /** The weight of the ack at `k`. */
  function Weight(acks: seq<Ack>, k: nat): nat {
    if k < |acks| && acks[k].1 then 1 else 0
  }

  /** The ack field: the id of the first ack, then seven acks to a byte, least significant bit first,
      and the highest bit where the list goes on. */
  lemma {:induction false} AckFieldForm(numAcks: u16, acks: seq<Ack>, i: nat)
    requires acks != [] && BuildAckHeader(numAcks, acks).Ok?
    requires i < |BuildAckHeader(numAcks, acks).value.bytes|
    ensures var h := BuildAckHeader(numAcks, acks).value;
            && AckHeaderBytes(h) == [acks[0].0 / 256, acks[0].0 % 256] + h.bytes
            && h.bytes[i] ==
                 Weight(acks, 7 * i) + 2 * Weight(acks, 7 * i + 1) + 4 * Weight(acks, 7 * i + 2)
                 + 8 * Weight(acks, 7 * i + 3) + 16 * Weight(acks, 7 * i + 4) + 32 * Weight(acks, 7 * i + 5)
                 + 64 * Weight(acks, 7 * i + 6) + if 7 * i + 7 < |acks| then 128 else 0
  {
    AckBytesAt(acks, BytesNeeded(numAcks), i);
    forall k: nat
      ensures Flag(acks, k) <==> Weight(acks, k) == 1
    {
      FlagIs(acks, k);
    }
    var n := 7 * i;
    assert Pack(acks, n + 7, 0) == 0;
    assert Pack(acks, n + 6, 1) == Weight(acks, n + 6);
    assert Pack(acks, n + 5, 2) == Weight(acks, n + 5) + 2 * Pack(acks, n + 6, 1);
    assert Pack(acks, n + 4, 3) == Weight(acks, n + 4) + 2 * Pack(acks, n + 5, 2);
    assert Pack(acks, n + 3, 4) == Weight(acks, n + 3) + 2 * Pack(acks, n + 4, 3);
    assert Pack(acks, n + 2, 5) == Weight(acks, n + 2) + 2 * Pack(acks, n + 3, 4);
    assert Pack(acks, n + 1, 6) == Weight(acks, n + 1) + 2 * Pack(acks, n + 2, 5);
    assert Pack(acks, n, 7) == Weight(acks, n) + 2 * Pack(acks, n + 1, 6);
  }

  /** A packet header: the kind, with the highest bit where acks follow, the id, and the acks. */
  lemma {:induction false} HeaderForm(kind: PacketType, id: u16, ack: Option<AckHeader>)
    ensures var code := match kind
                        case ConnectionRequestType => 1
                        case ConnectionChallengeType => 2
                        case ConnectionChallengeResponseType => 3
                        case ConnectionDeniedType => 4
                        case MessagesType => 5
                        case DisconnectType => 6
                        case KeepAliveType => 7;
            HeaderBytes(Packets.Header(kind, id, ack)) ==
              match ack
              case None => [code, id / 256, id % 256]
              case Some(a) => [code + 128, id / 256, id % 256, a.ackId / 256, a.ackId % 256] + a.bytes
  {
  }

  /** What follows the header in each kind of packet. */
  lemma {:induction false} PacketForm(h: Packets.Header, x: u64, y: u64, i: int, reason: DisconnectReason)
    requires 0 <= i < 0x1_0000_0000
    ensures |ZeroBytes(500)| == 500 && forall k | 0 <= k < 500 :: ZeroBytes(500)[k] == 0
    ensures PacketBytes(ConnectionRequest(h, x, y)) ==
              HeaderBytes(h) + (PutBytes(x, 8) + PutBytes(y, 8) + ZeroBytes(500))
    ensures PacketBytes(ConnectionChallenge(h, x, y)) ==
              HeaderBytes(h) + (PutBytes(x, 8) + PutBytes(y, 8) + ZeroBytes(500))
    ensures PacketBytes(ConnectionChallengeResponse(h, x)) == HeaderBytes(h) + (PutBytes(x, 8) + ZeroBytes(500))
    ensures PacketBytes(MessagesPacket(h, x)) == HeaderBytes(h) + PutBytes(x, 8)
    ensures PacketBytes(Disconnect(h, x)) == HeaderBytes(h) + PutBytes(x, 8)
    ensures PacketBytes(KeepAlive(h, x, i)) == HeaderBytes(h) + (PutBytes(x, 8) + PutBytes(i, 4))
    ensures PacketBytes(ConnectionDenied(h, reason)) ==
              HeaderBytes(h) + [match reason
                                case Normal => 0
                                case ProtocolMismatch => 1
                                case HandshakeTimeout => 2
                                case TimedOut => 3
                                case ServerFull => 4]
  {
    hide HeaderBytes, PutBytes;
  }
}
