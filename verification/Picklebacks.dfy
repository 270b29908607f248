/** The endpoint as an object (src/endpoint.rs): the same operations, updating fields in place. */
module Picklebacks {
  import opened Words
  import opened Wire
  import opened SequenceBuffers
  import opened AckHeaders
  import Messages
  import opened Packets
  import opened Channels
  import opened Dispatchers
  import opened PacketLayer
  import opened Endpoints

  class Pickleback {
    const config: Config
    var sequenceId: u16
    var newestAck: Option<u16>
    var ackLowWatermark: Option<u16>
    var sentBuffer: Ring<SentMeta>
    var receivedBuffer: Ring<ReceivedMeta>
    var dispatcher: Dispatcher
    var channels: seq<Channel>
    var outbox: seq<bytes>
    var xorSalt: Option<u64>

    function Packets(): PacketState
      reads this
    {
      PacketState(sequenceId, newestAck, ackLowWatermark, sentBuffer, receivedBuffer)
    }

    function Model(): Endpoint
      reads this
    {
      Endpoint(config, Packets(), dispatcher, channels, outbox, xorSalt)
    }

    constructor (config: Config, sentSize: nat, receivedSize: nat, fragMapSize: nat, time: real)
      ensures Model() == NewEndpoint(config, sentSize, receivedSize, fragMapSize, time)
    {
      this.config := config;
      sequenceId, newestAck, ackLowWatermark := 0, None, None;
      sentBuffer := NewRing(sentSize, UNSENT);
      receivedBuffer := NewRing(receivedSize, ReceivedMeta);
      dispatcher := NewDispatcher(fragMapSize, receivedSize);
      channels := [NewUnreliable(0, time), NewReliable(1, time)];
      outbox, xorSalt := [], None;
    }

    method SendMessage(channel: u8, payload: bytes) returns (r: Result<u16, Error>)
      requires Ready(Model())
      modifies this
      ensures (Model(), r) == Endpoints.SendMessage(old(Model()), channel, payload)
    {
      if |payload| > config.maxMessageSize {
        return Err(PayloadTooBig);
      }
      var unacked := SentUnackedPackets();
      if unacked >= MAX_UNACKED_PACKETS {
        return Err(TooManyPending);
      }
      var i := IndexOfChannel(channels, channel);
      if i == |channels| {
        return Err(NoSuchChannel);
      }
      var added := AddMessage(dispatcher, channels[i], payload);
      dispatcher := added.0;
      channels := channels[i := added.1];
      return added.2;
    }

    method ReceivedUnackedPackets() returns (n: u16)
      ensures n == ReceivedUnacked(Packets())
    {
      match ackLowWatermark {
        case Some(low) => n := WrapSub(receivedBuffer.sequence, low);
        case None => n := receivedBuffer.sequence;
      }
    }

    method SentUnackedPackets() returns (n: u16)
      ensures n == SentUnacked(Packets())
    {
      n := WrapSub(sentBuffer.sequence, match newestAck case Some(a) => a case None => 0);
    }

    method NextPacketHeader(kind: PacketType) returns (r: Result<Header, Error>)
      requires receivedBuffer.Valid()
      modifies this`sequenceId
      ensures (Packets(), r) == NextHeader(old(Packets()), kind)
    {
      sequenceId := WrapAdd(sequenceId, 1);
      var required := ReceivedUnackedPackets();
      if required > MAX_UNACKED_PACKETS {
        return Err(TooManyPending);
      }
      if required == 0 {
        return Ok(Header(kind, sequenceId, None));
      }
      var ack :- FromAckIter(required, AckList(receivedBuffer, required));
      return Ok(Header(kind, sequenceId, Some(ack)));
    }

    method SendRawPacket(packet: bytes) returns (r: Result<(), Error>)
      requires Packets().Valid()
      modifies this`sentBuffer, this`outbox
      ensures var recorded := RecordSent(old(Packets()));
              if recorded.Ok? then r == Ok(()) && Packets() == recorded.value && outbox == old(outbox) + [packet]
              else r == Err(recorded.error) && unchanged(this)
    {
      var ackingUpTo := receivedBuffer.sequence;
      match sentBuffer.Insert(sequenceId, SentMeta(false, ackingUpTo), UNSENT) {
        case Ok(sent') => sentBuffer := sent';
        case Err(e) => return Err(e);
      }
      outbox := outbox + [packet];
      return Ok(());
    }

    method Update(dt: real)
      modifies this`channels
      ensures channels == TickAll(old(channels), dt)
    {
      for i := 0 to |channels|
        invariant |channels| == |old(channels)|
        invariant forall j | 0 <= j < i :: channels[j] == Tick(old(channels)[j], dt)
        invariant forall j | i <= j < |channels| :: channels[j] == old(channels)[j]
      {
        channels := channels[i := Tick(channels[i], dt)];
      }
    }

    // -- composing --

    static method WriteChannelMessagesToPacket(c: Channel, room: nat)
      returns (c': Channel, ms: seq<Messages.Message>, left: nat)
      requires GoodChannel(c)
      ensures (c', ms) == WriteChannel(c, room)
      ensures left + MessageBytes(ms) == room
    {
      c', ms, left := c, [], room;
      ghost var written := WriteChannel(c, room);
      assert forall rest: seq<Messages.Message> :: [] + rest == rest;
      while true
        invariant GoodChannel(c') && left + MessageBytes(ms) == room
        invariant var rest := WriteChannel(c', left); written == (rest.0, ms + rest.1)
        decreases ReadyCount(c')
      {
        ghost var _, _, _ := WriteChannelStep(c', left);
        var taken := Take(c', left);
        if taken.1.None? {
          assert ms + [] == ms;
          return;
        }
        var m := taken.1.value;
        CoalesceAppend(ms, [m]);
        assert Messages.Coalesce([m]) == m.buffer + [];
        assert forall rest: seq<Messages.Message> :: ms + ([m] + rest) == (ms + [m]) + rest;
        c', ms, left := taken.0, ms + [m], left - |m.buffer|;
        if left < 3 {
          return;
        }
      }
    }

    /** The inner loop: one ready channel after the other, into a packet with `room` bytes left. */
    method FillPacket(room: nat) returns (load: Load)
      requires GoodChannels(channels)
      modifies this`channels
      ensures (channels, load) == Fill(old(channels), room, Load([], []))
    {
      load := Load([], []);
      var left := room;
      while true
        invariant GoodChannels(channels)
        invariant Fill(channels, left, load) == Fill(old(channels), room, Load([], []))
        decreases TotalReady(channels)
      {
        ghost var turn, turnChannel, turnMessages, turnLeft := FillTurn(channels, left, load);
        var i := FirstReady(channels);
        if i == |channels| {
          return;
        }
        var c, ms, left' := WriteChannelMessagesToPacket(channels[i], left);
        if ms == [] {
          return;
        }
        load := load.Add(ms, c.id);
        channels := channels[i := c];
        left := left';
        if left < 3 {
          return;
        }
      }
    }

    method ComposePackets() returns (r: Result<(), Error>)
      requires Composable(Model())
      modifies this
      ensures (Model(), r) == Compose(old(Model()))
    {
      var unacked := SentUnackedPackets();
      if unacked >= MAX_UNACKED_PACKETS {
        return Err(TooManyPending);
      }
      while true
        invariant Composable(Model())
        invariant ComposeLoop(Model()) == ComposeLoop(old(Model()))
        decreases TotalReady(channels)
      {
        if FirstReady(channels) == |channels| {
          return Ok(());
        }
        unacked := SentUnackedPackets();
        if unacked >= MAX_UNACKED_PACKETS {
          return Err(TooManyPending);
        }
        ghost var before := Model();
        var composed :- ComposePacket();
        ComposeOneProgress(before, Model(), composed);
      }
    }

    /** One round of the packet loop. */
    method ComposePacket() returns (r: Result<Composed, Error>)
      requires Ready(Model()) && xorSalt.Some?
      modifies this
      ensures (Model(), r) == ComposeOne(old(Model()))
    {
      hide Messages.Coalesce, Fill, HeaderBytes, Body, NextHeader, GoodChannel, BuildAckHeader;
      var header :- NextPacketHeader(MessagesType);
      var packet := PacketBytes(MessagesPacket(header, xorSalt.value));
      if |packet| > config.maxPacketSize {
        return Err(Io);
      }
      var load := FillPacket(config.maxPacketSize - |packet|);
      packet := packet + Messages.Coalesce(load.messages);
      var _ :- SendRawPacket(packet);
      match SetHandles(dispatcher, sequenceId, load.handles) {
        case Ok(dispatcher') => dispatcher := dispatcher';
        case Err(e) => return Err(e);
      }
      return Ok(Composed(header, load.messages, packet));
    }

    // -- receiving --

    method ProcessPacketAcks(header: Header)
      requires Ready(Model())
      requires header.ack.Some? ==> |header.ack.value.bytes| <= MAX_ACK_BYTES
      modifies this
      ensures Model() == TakeAcks(old(Model()), header)
      ensures Ready(Model())
    {
      TakeAcksReady(Model(), header);
      if header.ack.None? {
        return;
      }
      ghost var result := TakeAcks(Model(), header);
      var acks := new AckHeaderIter(header.ack.value);
      while true
        invariant fresh(acks) && acks.Valid()
        invariant Ready(Model())
        invariant TakeAckList(Model(), acks.Rest()) == result
        decreases |acks.Rest()|
      {
        ghost var rest := acks.Rest();
        var item := acks.Next();
        if item.None? {
          return;
        }
        ghost var before := Model();
        ProcessOneAck(item.value);
        TakeAckListStep(before, rest);
      }
    }

    /** The header of a packet has been read, and `reader` stands behind it.  For a messages packet
        this reads the rest. */
    method ProcessIncomingPacket(header: Header, reader: Cursor) returns (r: Result<(), Error>)
      requires Ready(Model()) && reader.Valid()
      requires header.ack.Some? ==> |header.ack.value.bytes| <= MAX_ACK_BYTES
      modifies this, reader
      ensures Ready(Model())
      ensures var processed := ProcessIncoming(old(Model()), header, reader.buf, old(reader.pos));
              Model() == processed.0 && r == processed.1
    {
      hide Messages.ParseMessage, ProcessReceived, ProcessAcks, AckAll;
      var accepted := AcceptPacket(Packets(), header.id);
      if accepted.Err? {
        return Err(accepted.error);
      }
      AcceptPacketReady(Model(), header.id);
      receivedBuffer := accepted.value.received;
      ProcessPacketAcks(header);
      if header.packetType != MessagesType {
        return Ok(());
      }
      ghost var result := ReceiveRest(Model(), reader.buf, reader.pos);
      while reader.Remaining() > 0
        invariant reader.Valid() && Ready(Model())
        invariant ReceiveRest(Model(), reader.buf, reader.pos) == result
        decreases reader.Remaining()
      {
        ghost var before, start := Model(), reader.pos;
        var m :- Messages.Parse(reader);
        ReceiveRestStep(before, reader.buf, start, m, reader.pos);
        var i := IndexOfChannel(channels, m.channel);
        if i < |channels| {
          var taken := Accept(channels[i], m);
          channels := channels[i := taken.0];
          if taken.1 {
            dispatcher := ProcessReceived(dispatcher, m).0;
          }
        }
      }
      return Ok(());
    }

    /** A datagram, whatever is in it: read as a packet, then processed. */
    method ReceiveDatagram(datagram: bytes) returns (r: Result<(), Error>)
      requires Ready(Model())
      modifies this
      ensures Ready(Model())
      ensures var received := Endpoints.ReceiveDatagram(old(Model()), datagram);
              Model() == received.0 && r == received.1
    {
      hide ReadPacket, ProcessIncoming, Ready;
      var reader := new Cursor(datagram);
      var packet :- ReadPacketFrom(reader);
      ParsedHeader(datagram);
      r := ProcessIncomingPacket(packet.header, reader);
    }

    method ProcessOneAck(ack: Ack)
      requires Ready(Model())
      modifies this
      ensures Ready(Model()) && Model() == TakeOneAck(old(Model()), ack)
    {
      TakeOneAckReady(Model(), ack);
      if !ack.1 {
        return;
      }
      var found := sentBuffer.Get(ack.0);
      if found.None? || found.value.acked {
        return;
      }
      var meta := found.value;
      if newestAck.Some? {
        if SequenceGreaterThan(ack.0, newestAck.value) {
          newestAck := Some(ack.0);
        }
      } else {
        newestAck := Some(ack.0);
      }
      if ackLowWatermark.Some? {
        if SequenceGreaterThan(meta.ackedUpTo, ackLowWatermark.value) {
          ackLowWatermark := Some(meta.ackedUpTo);
        }
      } else {
        ackLowWatermark := Some(meta.ackedUpTo);
      }
      sentBuffer := sentBuffer.Update(ack.0, meta.(acked := true));
      var acked := AckPacket(dispatcher, channels, ack.0);
      dispatcher, channels := acked.0, acked.1;
    }
  }

  // -- the message loop, message by message --

  /** Processing what is left of a messages packet from a position on. */
  ghost function ReceiveRest(e: Endpoint, s: bytes, pos: nat): (Endpoint, Result<(), Error>)
    requires Ready(e)
  {
    var (ms, error) := Messages.ParseMessages(s, pos);
    var (dispatcher, channels, _) := ReceiveAll(e.dispatcher, e.channels, ms);
    (e.(dispatcher := dispatcher, channels := channels), match error case None => Ok(()) case Some(x) => Err(x))
  }

  function ReceiveMessage(e: Endpoint, m: Messages.Message): Endpoint
    requires Ready(e)
  {
    var (dispatcher, channels, _) := ReceiveOne(e.dispatcher, e.channels, m);
    e.(dispatcher := dispatcher, channels := channels)
  }

  lemma {:induction false} ReceiveMessageReady(e: Endpoint, m: Messages.Message)
    requires Ready(e)
    ensures Ready(ReceiveMessage(e, m))
  {
    ReceiveOneGood(e.dispatcher, e.channels, m);
  }

  lemma {:induction false} ReceiveRestStep(e: Endpoint, s: bytes, pos: nat, m: Messages.Message, p: nat)
    requires Ready(e) && pos < |s|
    requires Messages.ParseMessage(s, pos) == Ok((m, p))
    ensures Ready(ReceiveMessage(e, m))
    ensures ReceiveRest(e, s, pos) == ReceiveRest(ReceiveMessage(e, m), s, p)
  {
    ReceiveMessageReady(e, m);
    var (rest, error) := Messages.ParseMessages(s, p);
    assert Messages.ParseMessages(s, pos) == ([m] + rest, error);
    assert ([m] + rest)[1..] == rest && ([m] + rest)[0] == m;
  }

  // -- the ack loop, item by item --

  function TakeOneAck(e: Endpoint, ack: Ack): Endpoint
    requires Ready(e)
  {
    var (packets, first) := ProcessAck(e.packets, ack);
    if !first then e.(packets := packets)
    else
      var (dispatcher, channels) := AckPacket(e.dispatcher, e.channels, ack.0);
      e.(packets := packets, dispatcher := dispatcher, channels := channels)
  }

  lemma {:induction false} TakeOneAckReady(e: Endpoint, ack: Ack)
    requires Ready(e)
    ensures Ready(TakeOneAck(e, ack))
  {
    AckPacketValid(e.dispatcher, e.channels, ack.0);
  }

  ghost function TakeAckList(e: Endpoint, acks: seq<Ack>): Endpoint
    requires Ready(e)
  {
    var (packets, ids) := ProcessAcks(e.packets, acks);
    var (dispatcher, channels) := AckAll(e.dispatcher, e.channels, ids);
    e.(packets := packets, dispatcher := dispatcher, channels := channels)
  }

  /** Interleaving the packet layer and the dispatcher ack by ack is the same as one after the
      other. */
  lemma {:induction false} TakeAckListStep(e: Endpoint, acks: seq<Ack>)
    requires Ready(e) && acks != []
    ensures Ready(TakeOneAck(e, acks[0]))
    ensures TakeAckList(e, acks) == TakeAckList(TakeOneAck(e, acks[0]), acks[1..])
  {
    TakeOneAckReady(e, acks[0]);
    var (packets, first) := ProcessAck(e.packets, acks[0]);
    var rest := ProcessAcks(packets, acks[1..]).1;
    if first {
      assert ([acks[0].0] + rest)[1..] == rest;
    }
  }
}
