/** One endpoint (src/endpoint.rs): the packet layer, the dispatcher and the channels together.

    `Endpoint` is the endpoint as a value, with one function per operation; `Pickleback`
    updates its fields in place and is proved to perform those functions. */
module Endpoints {
  import opened Words
  import opened AckHeaders
  import opened Messages
  import opened Packets
  import opened Channels
  import opened Reassembler
  import opened Dispatchers
  import opened PacketLayer

  /** The greatest size of a packet header with its salt, and of a message. */
  const MAX_HEADER: nat := 63
  const MAX_MESSAGE: nat := 1043

  datatype Config = Config(maxPacketSize: nat, maxMessageSize: nat)

  datatype Endpoint = Endpoint(
    config: Config,
    packets: PacketState,
    dispatcher: Dispatcher,
    channels: seq<Channel>,
    outbox: seq<bytes>,
    xorSalt: Option<u64>)

  function NewEndpoint(config: Config, sentSize: nat, receivedSize: nat, fragMapSize: nat, time: real): Endpoint {
    Endpoint(config, NewPacketState(sentSize, receivedSize), NewDispatcher(fragMapSize, receivedSize),
             [NewUnreliable(0, time), NewReliable(1, time)], [], None)
  }

  /** What the operations below rely on. */
  ghost predicate Ready(e: Endpoint) {
    && e.packets.Valid() && e.packets.received.Valid()
    && e.dispatcher.Valid()
    && e.config.maxMessageSize <= MAX_PAYLOAD
    && GoodChannels(e.channels)
  }

  ghost predicate GoodChannel(c: Channel) {
    && c.id < MAX_CHANNELS
    && c.seen.Valid()
    && (c.Reliable? ==> c.resendTime > 0.0)
  }

  ghost predicate GoodChannels(cs: seq<Channel>) {
    forall i | 0 <= i < |cs| :: GoodChannel(cs[i])
  }

  // -- sending messages --

  function SendMessage(e: Endpoint, channel: u8, payload: bytes): (Endpoint, Result<u16, Error>)
    requires Ready(e)
  {
    if |payload| > e.config.maxMessageSize then (e, Err(PayloadTooBig))
    else if SentUnacked(e.packets) >= MAX_UNACKED_PACKETS then (e, Err(TooManyPending))
    else
      var i := IndexOfChannel(e.channels, channel);
      if i == |e.channels| then (e, Err(NoSuchChannel))
      else
        var (d, c, r) := AddMessage(e.dispatcher, e.channels[i], payload);
        (e.(dispatcher := d, channels := e.channels[i := c]), r)
  }

  function TickAll(cs: seq<Channel>, dt: real): seq<Channel> {
    seq(|cs|, i requires 0 <= i < |cs| => Tick(cs[i], dt))
  }

  // -- composing packets --

  function FirstReady(cs: seq<Channel>): (i: nat)
    ensures i <= |cs|
    ensures i < |cs| ==> AnyReady(cs[i])
  {
    if cs == [] || AnyReady(cs[0]) then 0 else 1 + FirstReady(cs[1..])
  }

  function TotalReady(cs: seq<Channel>): nat {
    if cs == [] then 0 else ReadyCount(cs[0]) + TotalReady(cs[1..])
  }

  function MessageBytes(ms: seq<Message>): nat {
    |Coalesce(ms)|
  }

  /** The messages of one channel that go into a packet with `room` bytes left. */
  function WriteChannel(c: Channel, room: nat): (Channel, seq<Message>)
    requires GoodChannel(c)
    decreases ReadyCount(c)
  {
    TakeExact(c, room);
    match Take(c, room)
    case (_, None) => (c, [])
    case (c', Some(m)) =>
      var left := room - |m.buffer|;
      if left < 3 then (c', [m])
      else
        var (c'', ms) := WriteChannel(c', left);
        (c'', [m] + ms)
  }

  function HandlesOf(ms: seq<Message>, channel: u8): (hs: seq<Handle>)
    ensures |hs| == |ms|
  {
    if ms == [] then [] else [HandleOf(ms[0], channel)] + HandlesOf(ms[1..], channel)
  }

  /** What has been put into a packet: the messages and their handles. */
  datatype Load = Load(messages: seq<Message>, handles: seq<Handle>) {
    function Add(ms: seq<Message>, channel: u8): Load {
      if messages == [] then Load(ms, HandlesOf(ms, channel))
      else Load(messages + ms, handles + HandlesOf(ms, channel))
    }
  }

  /** Fills a packet with `room` bytes left, one ready channel after the other. */
  function Fill(cs: seq<Channel>, room: nat, load: Load): (seq<Channel>, Load)
    requires GoodChannels(cs)
    decreases TotalReady(cs)
  {
    var i := FirstReady(cs);
    if i == |cs| then (cs, load)
    else
      var (c, ms) := WriteChannel(cs[i], room);
      WriteChannelShrinks(cs[i], room);
      if ms == [] then (cs, load)
      else
        TotalReadyShrinks(cs, i, c);
        var left := room - MessageBytes(ms);
        if left < 3 then (cs[i := c], load.Add(ms, c.id))
        else Fill(cs[i := c], left, load.Add(ms, c.id))
  }

  /** What taking messages out does to a channel: nothing but its queue changes, and a reliable
      channel's queue still holds the same messages. */
  ghost predicate Shrinks(c: Channel, c': Channel) {
    && c'.id == c.id && c'.seen == c.seen && c'.time == c.time && c'.Reliable? == c.Reliable?
    && (c.Reliable? ==> c'.resendTime == c.resendTime && Queued(c') == Queued(c))
    && (c.Unreliable? ==> multiset(c'.q) <= multiset(c.q))
  }

  lemma {:induction false} ShrinksTransitive(a: Channel, b: Channel, c: Channel)
    requires Shrinks(a, b) && Shrinks(b, c)
    ensures Shrinks(a, c)
  {
  }

  lemma {:induction false} TakeShrinks(c: Channel, room: nat) returns (c': Channel, m: Option<Message>)
    requires GoodChannel(c)
    ensures (c', m) == Take(c, room)
    ensures GoodChannel(c') && Shrinks(c, c')
    ensures if m.Some? then
              && m.value in Queued(c) && |m.value.buffer| + 4 <= room
              && ReadyCount(c') == ReadyCount(c) - 1
              && multiset(ReadyMessages(c)) == multiset(ReadyMessages(c')) + multiset{m.value}
            else c' == c
  {
    c', m := Take(c, room).0, Take(c, room).1;
    TakeExact(c, room);
    if m.Some? {
      SizeCovers(m.value);
      if c.Unreliable? {
        assert ReadyMessages(c) == c.q && ReadyMessages(c') == c'.q;
      }
    }
  }

  lemma {:induction false} SizeCovers(m: Message)
    ensures |m.buffer| + 4 <= m.Size()
  {
  }

  lemma {:induction false} QueuedShrinks(c: Channel, c': Channel, m: Message)
    requires Shrinks(c, c') && m in Queued(c')
    ensures m in Queued(c)
  {
    if c.Unreliable? {
      assert m in multiset(c'.q);
    }
  }

  /** One message into the packet, and how it goes on. */
  lemma {:induction false} WriteChannelStep(c: Channel, room: nat) returns (c': Channel, m: Option<Message>, left: nat)
    requires GoodChannel(c)
    ensures (c', m) == Take(c, room) && GoodChannel(c') && Shrinks(c, c')
    ensures if m.Some? then
              && m.value in Queued(c) && left == room - |m.value.buffer| && 4 <= left
              && ReadyCount(c') == ReadyCount(c) - 1
              && multiset(ReadyMessages(c)) == multiset(ReadyMessages(c')) + multiset{m.value}
              && WriteChannel(c, room) == (WriteChannel(c', left).0, [m.value] + WriteChannel(c', left).1)
            else c' == c && left == room && WriteChannel(c, room) == (c, [])
  {
    hide Take, Queued, ReadyMessages, Shrinks;
    c', m := TakeShrinks(c, room);
    left := if m.Some? then room - |m.value.buffer| else room;
  }

  lemma {:induction false} WriteChannelShrinks(c: Channel, room: nat)
    requires GoodChannel(c)
    ensures var (c', ms) := WriteChannel(c, room);
            && GoodChannel(c') && Shrinks(c, c')
            && ReadyCount(c') == ReadyCount(c) - |ms|
            && MessageBytes(ms) <= room
            && (ms == [] ==> c' == c && Take(c, room).1 == None)
    decreases ReadyCount(c)
  {
    var c', m, left := WriteChannelStep(c, room);
    if m.Some? {
      WriteChannelShrinks(c', left);
      ShrinksTransitive(c, c', WriteChannel(c', left).0);
      assert ([m.value] + WriteChannel(c', left).1)[1..] == WriteChannel(c', left).1;
    }
  }

  /** The messages written are exactly the ones that are no longer due. */
  lemma {:induction false} WriteChannelConserves(c: Channel, room: nat)
    requires GoodChannel(c)
    ensures multiset(ReadyMessages(c))
         == multiset(WriteChannel(c, room).1) + multiset(ReadyMessages(WriteChannel(c, room).0))
    decreases ReadyCount(c)
  {
    var c', m, left := WriteChannelStep(c, room);
    if m.Some? {
      WriteChannelConserves(c', left);
      var ms := WriteChannel(c', left).1;
      assert multiset([m.value] + ms) == multiset{m.value} + multiset(ms);
    }
  }

  lemma {:induction false} WriteChannelFromQueue(c: Channel, room: nat, x: Message)
    requires GoodChannel(c) && x in WriteChannel(c, room).1
    ensures x in Queued(c)
    decreases ReadyCount(c)
  {
    var c', m, left := WriteChannelStep(c, room);
    if m.Some? && x != m.value {
      WriteChannelFromQueue(c', left, x);
      QueuedShrinks(c, c', x);
    }
  }

  lemma {:induction false} TotalReadyShrinks(cs: seq<Channel>, i: nat, c: Channel)
    requires i < |cs|
    ensures TotalReady(cs[i := c]) == TotalReady(cs) - ReadyCount(cs[i]) + ReadyCount(c)
  {
    if i > 0 {
      assert cs[i := c][1..] == cs[1..][i - 1 := c];
      TotalReadyShrinks(cs[1..], i - 1, c);
    } else {
      assert cs[0 := c][1..] == cs[1..];
    }
  }

  // -- one packet --

  datatype Composed = Composed(header: Header, messages: seq<Message>, packet: bytes)

  /** One round of the packet loop: a header, as many messages as fit, and then the record of the
      packet and of the messages in it. */
  function ComposeOne(e: Endpoint): (Endpoint, Result<Composed, Error>)
    requires Ready(e) && e.xorSalt.Some?
  {
    var next := NextHeader(e.packets, MessagesType);
    var e' := e.(packets := next.0);
    if next.1.Err? then (e', Err(next.1.error))
    else
      var head := PacketBytes(MessagesPacket(next.1.value, e.xorSalt.value));
      if |head| > e.config.maxPacketSize then (e', Err(Io))
      else
        var filled := Fill(e.channels, e.config.maxPacketSize - |head|, Load([], []));
        SendComposed(e'.(channels := filled.0), next.1.value, filled.1, head + Coalesce(filled.1.messages))
  }

  function SendComposed(e: Endpoint, header: Header, load: Load, packet: bytes): (Endpoint, Result<Composed, Error>)
    requires e.packets.Valid() && e.dispatcher.Valid()
  {
    var recorded := RecordSent(e.packets);
    if recorded.Err? then (e, Err(recorded.error))
    else
      var e' := e.(packets := recorded.value, outbox := e.outbox + [packet]);
      var noted := SetHandles(e.dispatcher, e.packets.sequenceId, load.handles);
      if noted.Err? then (e', Err(noted.error))
      else (e'.(dispatcher := noted.value), Ok(Composed(header, load.messages, packet)))
  }

  /** Every message fits next to the largest header; below that size the source can go on sending
      packets without a message until it is stopped by backpressure. */
  ghost predicate Composable(e: Endpoint) {
    && Ready(e)
    && e.xorSalt.Some?
    && MAX_HEADER + MAX_MESSAGE <= e.config.maxPacketSize
    && SmallMessages(e.channels)
  }

  ghost predicate SmallMessages(cs: seq<Channel>) {
    forall i | 0 <= i < |cs| :: AllSmall(Queued(cs[i]))
  }

  ghost predicate AllSmall(ms: seq<Message>) {
    forall i | 0 <= i < |ms| :: ms[i].Size() <= MAX_MESSAGE
  }

  /** The packet loop. */
  function ComposeLoop(e: Endpoint): (Endpoint, Result<(), Error>)
    requires Composable(e)
    decreases TotalReady(e.channels)
  {
    if FirstReady(e.channels) == |e.channels| then (e, Ok(()))
    else if SentUnacked(e.packets) >= MAX_UNACKED_PACKETS then (e, Err(TooManyPending))
    else
      match ComposeOne(e)
      case (e', Err(error)) => (e', Err(error))
      case (e', Ok(composed)) => ComposeOneProgress(e, e', composed); ComposeLoop(e')
  }

  function Compose(e: Endpoint): (Endpoint, Result<(), Error>)
    requires Composable(e)
  {
    if SentUnacked(e.packets) >= MAX_UNACKED_PACKETS then (e, Err(TooManyPending)) else ComposeLoop(e)
  }

  // -- filling a packet --

  lemma {:induction false} CoalesceAppend(a: seq<Message>, b: seq<Message>)
    ensures Coalesce(a + b) == Coalesce(a) + Coalesce(b)
  {
    if a == [] {
      assert a + b == b;
    } else {
      assert (a + b)[1..] == a[1..] + b;
      CoalesceAppend(a[1..], b);
    }
  }

  ghost predicate AllShrink(cs: seq<Channel>, cs': seq<Channel>) {
    |cs'| == |cs| && forall i | 0 <= i < |cs| :: Shrinks(cs[i], cs'[i])
  }

  /** One turn of the filling loop: what is written from channel `i`, and how it goes on. */
  lemma {:induction false} FillTurn(cs: seq<Channel>, room: nat, load: Load)
    returns (i: nat, c: Channel, ms: seq<Message>, left: nat)
    requires GoodChannels(cs)
    ensures i == |cs| ==> ms == [] && left == 0
    ensures i < |cs| ==>
              && AnyReady(cs[i]) && (c, ms) == WriteChannel(cs[i], room)
              && GoodChannel(c) && Shrinks(cs[i], c) && GoodChannels(cs[i := c])
              && MessageBytes(ms) <= room && left == room - MessageBytes(ms)
              && TotalReady(cs[i := c]) == TotalReady(cs) - |ms|
              && (ms == [] ==> Take(cs[i], room).1 == None)
    ensures i == FirstReady(cs)
    ensures Fill(cs, room, load) ==
              if ms == [] then (cs, load)
              else if left < 3 then (cs[i := c], load.Add(ms, c.id))
              else Fill(cs[i := c], left, load.Add(ms, c.id))
  {
    i := FirstReady(cs);
    if i < |cs| {
      c, ms := WriteChannel(cs[i], room).0, WriteChannel(cs[i], room).1;
      WriteChannelShrinks(cs[i], room);
      TotalReadyShrinks(cs, i, c);
      left := room - MessageBytes(ms);
    } else {
      ms, left := [], 0;
      c :| true;
    }
  }

  lemma {:induction false} FillShrinks(cs: seq<Channel>, room: nat, load: Load)
    requires GoodChannels(cs)
    ensures GoodChannels(Fill(cs, room, load).0) && AllShrink(cs, Fill(cs, room, load).0)
    decreases TotalReady(cs)
  {
    var i, c, ms, left := FillTurn(cs, room, load);
    if ms != [] && left >= 3 {
      FillShrinks(cs[i := c], left, load.Add(ms, c.id));
      AllShrinkOne(cs, i, c, Fill(cs[i := c], left, load.Add(ms, c.id)).0);
    }
  }

  lemma {:induction false} AllShrinkOne(cs: seq<Channel>, i: nat, c: Channel, cs': seq<Channel>)
    requires i < |cs| && Shrinks(cs[i], c) && AllShrink(cs[i := c], cs')
    ensures AllShrink(cs, cs')
  {
    forall j | 0 <= j < |cs|
      ensures Shrinks(cs[j], cs'[j])
    {
      if j == i {
        ShrinksTransitive(cs[i], c, cs'[i]);
      } else {
        assert cs[i := c][j] == cs[j];
      }
    }
  }

  /** Filling keeps to the room there is and adds to the load what is no longer due. */
  lemma {:induction false} FillFits(cs: seq<Channel>, room: nat, load: Load)
    requires GoodChannels(cs) && |load.handles| == |load.messages|
    ensures var (cs', load') := Fill(cs, room, load);
            && load.messages <= load'.messages && |load'.handles| == |load'.messages|
            && MessageBytes(load'.messages) <= MessageBytes(load.messages) + room
            && TotalReady(cs') == TotalReady(cs) - (|load'.messages| - |load.messages|)
    decreases TotalReady(cs)
  {
    var i, c, ms, left := FillTurn(cs, room, load);
    CoalesceAppend(load.messages, ms);
    if ms != [] && left >= 3 {
      FillFits(cs[i := c], left, load.Add(ms, c.id));
    }
  }

  /** Filling an empty packet. */
  lemma {:induction false} FillEmpty(cs: seq<Channel>, room: nat)
    requires GoodChannels(cs)
    ensures var (cs', load) := Fill(cs, room, Load([], []));
            && MessageBytes(load.messages) <= room && |load.handles| == |load.messages|
            && TotalReady(cs') == TotalReady(cs) - |load.messages|
  {
    FillFits(cs, room, Load([], []));
  }

  lemma {:induction false} FillTakes(cs: seq<Channel>, room: nat)
    requires GoodChannels(cs) && SmallMessages(cs) && MAX_MESSAGE <= room
    requires FirstReady(cs) < |cs|
    ensures Fill(cs, room, Load([], [])).1.messages != []
  {
    var i := FirstReady(cs);
    var (c, ms) := WriteChannel(cs[i], room);
    WriteChannelShrinks(cs[i], room);
    if ms == [] {
      TakeExact(cs[i], room);
    } else {
      TotalReadyShrinks(cs, i, c);
      FillFits(cs[i := c], room - MessageBytes(ms), Load([], []).Add(ms, c.id));
    }
  }

  lemma {:induction false} HeaderFits(s: PacketState, salt: u64)
    requires s.received.Valid() && NextHeader(s, MessagesType).1.Ok?
    ensures |PacketBytes(MessagesPacket(NextHeader(s, MessagesType).1.value, salt))| <= MAX_HEADER
  {
  }

  lemma {:induction false} SmallShrinks(cs: seq<Channel>, cs': seq<Channel>)
    requires SmallMessages(cs) && AllShrink(cs, cs')
    ensures SmallMessages(cs')
  {
    forall i, j | 0 <= i < |cs'| && 0 <= j < |Queued(cs'[i])|
      ensures Queued(cs'[i])[j].Size() <= MAX_MESSAGE
    {
      assert Shrinks(cs[i], cs'[i]);
      QueuedShrinks(cs[i], cs'[i], Queued(cs'[i])[j]);
    }
  }

  /** What a successful round leaves behind. */
  lemma {:induction false} ComposeOneShape(e: Endpoint)
    returns (header: Header, head: bytes, channels: seq<Channel>, load: Load, packets: PacketState,
        dispatcher: Dispatcher)
    requires Ready(e) && e.xorSalt.Some?
    requires ComposeOne(e).1.Ok?
    ensures NextHeader(e.packets, MessagesType).1 == Ok(header)
    ensures head == PacketBytes(MessagesPacket(header, e.xorSalt.value)) && |head| <= e.config.maxPacketSize
    ensures (channels, load) == Fill(e.channels, e.config.maxPacketSize - |head|, Load([], []))
    ensures var packets1 := NextHeader(e.packets, MessagesType).0;
            && packets1 == e.packets.(sequenceId := WrapAdd(e.packets.sequenceId, 1))
            && RecordSent(packets1) == Ok(packets)
            && packets == packets1.(sent := packets.sent)
            && packets.Valid()
            && SetHandles(e.dispatcher, packets1.sequenceId, load.handles) == Ok(dispatcher)
            && dispatcher == e.dispatcher.(inPackets := dispatcher.inPackets)
            && dispatcher.Valid()
    ensures ComposeOne(e) ==
              (Endpoint(e.config, packets, dispatcher, channels, e.outbox + [head + Coalesce(load.messages)],
                  e.xorSalt),
               Ok(Composed(header, load.messages, head + Coalesce(load.messages))))
  {
    hide PacketBytes, Fill, Coalesce, BuildAckHeader, AckList, ReceivedUnacked, Wrap, WrapSub, GoodChannel;
    var next := NextHeader(e.packets, MessagesType);
    header := next.1.value;
    head := PacketBytes(MessagesPacket(header, e.xorSalt.value));
    channels := Fill(e.channels, e.config.maxPacketSize - |head|, Load([], [])).0;
    load := Fill(e.channels, e.config.maxPacketSize - |head|, Load([], [])).1;
    packets := RecordSent(next.0).value;
    dispatcher := SetHandles(e.dispatcher, next.0.sequenceId, load.handles).value;
  }

  /** Each round that succeeds sends at least one message and leaves the endpoint fit for the
      next round. */
  lemma {:induction false} ComposeOneProgress(e: Endpoint, e': Endpoint, composed: Composed)
    requires Composable(e) && FirstReady(e.channels) < |e.channels|
    requires ComposeOne(e) == (e', Ok(composed))
    ensures Composable(e') && TotalReady(e'.channels) < TotalReady(e.channels)
  {
    hide ComposeOne, Coalesce, Fill, HeaderBytes, SmallMessages, GoodChannels, NextHeader, Body;
    var header, head, channels, load, packets, dispatcher := ComposeOneShape(e);
    HeaderFits(e.packets, e.xorSalt.value);
    FillProgress(e, e.config.maxPacketSize - |head|);
    assert e' == Endpoint(e.config, packets, dispatcher, channels, e'.outbox, e.xorSalt);
    assert packets.received == e.packets.received;
  }

  lemma {:induction false} FillProgress(e: Endpoint, room: nat)
    requires Composable(e) && MAX_MESSAGE <= room && FirstReady(e.channels) < |e.channels|
    ensures var (cs', load) := Fill(e.channels, room, Load([], []));
            && GoodChannels(cs') && SmallMessages(cs')
            && TotalReady(cs') < TotalReady(e.channels)
  {
    FillShrinks(e.channels, room, Load([], []));
    FillEmpty(e.channels, room);
    FillTakes(e.channels, room);
    SmallShrinks(e.channels, Fill(e.channels, room, Load([], [])).0);
  }

  // -- packets coming in --

  /** One parsed message: to its channel, and from there, if it was not seen before, to the
      dispatcher.  What reaches the inbox, if anything, is returned as well. */
  function ReceiveOne(d: Dispatcher, cs: seq<Channel>, m: Message): (Dispatcher, seq<Channel>, Option<ReceivedMessage>)
    requires GoodChannels(cs)
  {
    var i := IndexOfChannel(cs, m.channel);
    if i == |cs| then (d, cs, None)
    else
      var (c, accepted) := Accept(cs[i], m);
      if !accepted then (d, cs[i := c], None)
      else
        var (d', received) := ProcessReceived(d, m);
        (d', cs[i := c], received)
  }

  lemma {:induction false} AcceptGood(c: Channel, m: Message)
    requires GoodChannel(c)
    ensures GoodChannel(Accept(c, m).0) && Accept(c, m).0 == c.(seen := Accept(c, m).0.seen)
  {
    if c.seen.Insert(m.id, true, false).Ok? {
      c.seen.InsertSlots(m.id, true, false);
    }
  }

  lemma {:induction false} ReceiveOneGood(d: Dispatcher, cs: seq<Channel>, m: Message)
    requires GoodChannels(cs)
    ensures GoodChannels(ReceiveOne(d, cs, m).1)
    ensures ReceiveOne(d, cs, m).0 ==
            d.(inProgress := ReceiveOne(d, cs, m).0.inProgress, inbox := ReceiveOne(d, cs, m).0.inbox)
  {
    var i := IndexOfChannel(cs, m.channel);
    if i < |cs| {
      AcceptGood(cs[i], m);
    }
  }

  function ReceiveAll(d: Dispatcher, cs: seq<Channel>, ms: seq<Message>)
    : (Dispatcher, seq<Channel>, seq<ReceivedMessage>)
    requires GoodChannels(cs)
    decreases |ms|
  {
    if ms == [] then (d, cs, [])
    else
      ReceiveOneGood(d, cs, ms[0]);
      var (d1, cs1, received) := ReceiveOne(d, cs, ms[0]);
      var (d2, cs2, more) := ReceiveAll(d1, cs1, ms[1..]);
      (d2, cs2, match received case Some(r) => [r] + more case None => more)
  }

  function AckAll(d: Dispatcher, cs: seq<Channel>, ids: seq<u16>): (Dispatcher, seq<Channel>)
    requires d.Valid()
    decreases |ids|
  {
    if ids == [] then (d, cs)
    else
      AckPacketValid(d, cs, ids[0]);
      var (d', cs') := AckPacket(d, cs, ids[0]);
      AckAll(d', cs', ids[1..])
  }

  lemma {:induction false} AckHandleValid(d: Dispatcher, cs: seq<Channel>, h: Handle)
    requires d.Valid()
    ensures AckHandle(d, cs, h).0.Valid()
    ensures GoodChannels(cs) ==> GoodChannels(AckHandle(d, cs, h).1)
  {
  }

  lemma {:induction false} AckHandlesValid(d: Dispatcher, cs: seq<Channel>, hs: seq<Handle>)
    requires d.Valid()
    ensures AckHandles(d, cs, hs).0.Valid()
    ensures GoodChannels(cs) ==> GoodChannels(AckHandles(d, cs, hs).1)
    decreases |hs|
  {
    if hs != [] {
      AckHandleValid(d, cs, hs[0]);
      AckHandlesValid(AckHandle(d, cs, hs[0]).0, AckHandle(d, cs, hs[0]).1, hs[1..]);
    }
  }

  lemma {:induction false} AckPacketValid(d: Dispatcher, cs: seq<Channel>, id: u16)
    requires d.Valid()
    ensures AckPacket(d, cs, id).0.Valid()
    ensures GoodChannels(cs) ==> GoodChannels(AckPacket(d, cs, id).1)
  {
    match d.inPackets.Get(id)
    case None =>
    case Some(hs) => AckHandlesValid(d.(inPackets := d.inPackets.Remove(id, [])), cs, hs);
  }

  lemma {:induction false} AckAllValid(d: Dispatcher, cs: seq<Channel>, ids: seq<u16>)
    requires d.Valid()
    ensures AckAll(d, cs, ids).0.Valid()
    ensures GoodChannels(cs) ==> GoodChannels(AckAll(d, cs, ids).1)
    decreases |ids|
  {
    if ids != [] {
      AckPacketValid(d, cs, ids[0]);
      AckAllValid(AckPacket(d, cs, ids[0]).0, AckPacket(d, cs, ids[0]).1, ids[1..]);
    }
  }

  /** The acks of an accepted packet. */
  function TakeAcks(e: Endpoint, header: Header): Endpoint
    requires Ready(e)
  {
    var (packets, ids) := ProcessAcks(e.packets, AcksOf(header));
    var (dispatcher, channels) := AckAll(e.dispatcher, e.channels, ids);
    e.(packets := packets, dispatcher := dispatcher, channels := channels)
  }

  lemma {:induction false} ProcessAcksValid(s: PacketState, acks: seq<Ack>)
    requires s.Valid()
    ensures ProcessAcks(s, acks).0.Valid() && ProcessAcks(s, acks).0.received == s.received
    decreases |acks|
  {
    if acks != [] {
      ProcessAcksValid(ProcessAck(s, acks[0]).0, acks[1..]);
    }
  }

  lemma {:induction false} TakeAcksReady(e: Endpoint, header: Header)
    requires Ready(e)
    ensures Ready(TakeAcks(e, header))
  {
    ProcessAcksValid(e.packets, AcksOf(header));
    AckAllValid(e.dispatcher, e.channels, ProcessAcks(e.packets, AcksOf(header)).1);
  }

  lemma {:induction false} AcceptPacketReady(e: Endpoint, id: u16)
    requires Ready(e) && AcceptPacket(e.packets, id).Ok?
    ensures Ready(e.(packets := AcceptPacket(e.packets, id).value))
  {
    e.packets.received.InsertSlots(id, ReceivedMeta, ReceivedMeta);
  }

  /** A packet that was read: its acks, and the messages behind its header up to the first that
      does not parse.  The received messages that reach the inbox are returned as well. */
  function ProcessIncoming(e: Endpoint, header: Header, s: bytes, pos: nat)
    : (Endpoint, Result<(), Error>, seq<ReceivedMessage>)
    requires Ready(e)
  {
    var accepted := AcceptPacket(e.packets, header.id);
    if accepted.Err? then (e, Err(accepted.error), [])
    else
      AcceptPacketReady(e, header.id);
      var e1 := TakeAcks(e.(packets := accepted.value), header);
      if header.packetType != MessagesType then (e1, Ok(()), [])
      else
        TakeAcksReady(e.(packets := accepted.value), header);
        var (ms, error) := ParseMessages(s, pos);
        var (dispatcher, channels, received) := ReceiveAll(e1.dispatcher, e1.channels, ms);
        (e1.(dispatcher := dispatcher, channels := channels),
         match error case None => Ok(()) case Some(x) => Err(x),
         received)
  }

  /** A datagram: read, then processed. */
  function ReceiveDatagram(e: Endpoint, s: bytes): (Endpoint, Result<(), Error>, seq<ReceivedMessage>)
    requires Ready(e)
  {
    match ReadPacket(s)
    case Err(error) => (e, Err(error), [])
    case Ok((packet, pos)) => ProcessIncoming(e, packet.header, s, pos)
  }
}
