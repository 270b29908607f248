/** The packet and ack layer of one endpoint (src/endpoint.rs): packet ids, the ack field of
    outgoing headers, duplicate and stale rejection, and the processing of acks. */
module PacketLayer {
  import opened Words
  import opened SequenceBuffers
  import opened AckHeaders
  import opened Packets

  /** What is kept about a packet sent; its time and size play no part here. */
  datatype SentMeta = SentMeta(acked: bool, ackedUpTo: u16)

  const UNSENT := SentMeta(false, 0)

  datatype PacketState = PacketState(
    sequenceId: u16,
    newestAck: Option<u16>,
    ackLowWatermark: Option<u16>,
    sent: Ring<SentMeta>,
    received: Ring<ReceivedMeta>)
  {
    predicate Valid() {
      0 < |sent.entries| == |sent.tags| && 0 < |received.entries| == |received.tags|
    }
  }

  function NewPacketState(sentSize: nat, receivedSize: nat): PacketState {
    PacketState(0, None, None, NewRing(sentSize, UNSENT), NewRing(receivedSize, ReceivedMeta))
  }

  /** How many received packets the peer is not known to have seen an ack for. */
  function ReceivedUnacked(s: PacketState): u16 {
    match s.ackLowWatermark
    case Some(low) => WrapSub(s.received.sequence, low)
    case None => s.received.sequence
  }

  /** How far the newest packet sent is ahead of the newest one acked. */
  function SentUnacked(s: PacketState): u16 {
    WrapSub(s.sent.sequence, match s.newestAck case Some(n) => n case None => 0)
  }

  /** The next header.  A packet id is used up even when no header can be made. */
  function NextHeader(s: PacketState, t: PacketType): (PacketState, Result<Header, Error>)
    requires s.received.Valid()
  {
    var s' := s.(sequenceId := WrapAdd(s.sequenceId, 1));
    var required := ReceivedUnacked(s);
    if required > MAX_UNACKED_PACKETS then (s', Err(TooManyPending))
    else if required == 0 then (s', Ok(Header(t, s'.sequenceId, None)))
    else match BuildAckHeader(required, AckList(s.received, required))
      case Ok(ack) => (s', Ok(Header(t, s'.sequenceId, Some(ack))))
      case Err(e) => (s', Err(e))
  }

  /** The record of a packet sent under the current id, with what its header acked up to. */
  function RecordSent(s: PacketState): Result<PacketState, Error>
    requires s.Valid()
  {
    match s.sent.Insert(s.sequenceId, SentMeta(false, s.received.sequence), UNSENT)
    case Ok(sent') => Ok(s.(sent := sent'))
    case Err(e) => Err(e)
  }

  /** Whether a packet is taken in: not if it is older than the buffer, nor if it was seen. */
  function AcceptPacket(s: PacketState, id: u16): Result<PacketState, Error>
    requires s.Valid()
  {
    if !s.received.CheckSequence(id) then Err(StalePacket)
    else if s.received.Exists(id) then Err(DuplicatePacket)
    else match s.received.Insert(id, ReceivedMeta, ReceivedMeta)
      case Ok(received') => Ok(s.(received := received'))
      case Err(e) => Err(e)
  }

  /** One item of the ack field; the flag says that it acks a packet for the first time. */
  function ProcessAck(s: PacketState, ack: Ack): (PacketState, bool)
    requires s.Valid()
  {
    if !ack.1 then (s, false)
    else match s.sent.Get(ack.0)
      case None => (s, false)
      case Some(meta) =>
        if meta.acked then (s, false)
        else
          (s.(newestAck := Newer(s.newestAck, ack.0),
              ackLowWatermark := Newer(s.ackLowWatermark, meta.ackedUpTo),
              sent := s.sent.Update(ack.0, meta.(acked := true))),
           true)
  }

  function Newer(current: Option<u16>, candidate: u16): Option<u16> {
    match current
    case None => Some(candidate)
    case Some(c) => if SequenceGreaterThan(candidate, c) then Some(candidate) else current
  }

  /** The ack field of a header; the packets acked for the first time, in order. */
  function ProcessAcks(s: PacketState, acks: seq<Ack>): (PacketState, seq<u16>)
    requires s.Valid()
    decreases |acks|
  {
    if acks == [] then (s, [])
    else
      var (s1, first) := ProcessAck(s, acks[0]);
      var (s2, rest) := ProcessAcks(s1, acks[1..]);
      (s2, if first then [acks[0].0] + rest else rest)
  }

  function AcksOf(h: Header): seq<Ack> {
    match h.ack
    case Some(ack) => Items(ack)
    case None => []
  }
}
