/** An endpoint together with the history that its guarantees speak of, and what holds of one
    endpoint and of a pair of them in every run. */
module Nodes {
  import opened Words
  import opened SequenceBuffers
  import opened SequenceWindow
  import opened AckHeaders
  import opened Messages
  import opened Packets
  import opened Channels
  import opened Dispatchers
  import opened PacketLayer
  import opened PacketInvariants
  import opened Endpoints
  import opened MessageBooks
  import opened Deliveries
  import opened Acknowledging

  /** `t` and `book` record what the endpoint sent; `rx` and `tops` what it took in of the peer's
      messages; `records` what it noted about the messages in its packets, up to `recorded`. */
  datatype Node = Node(
    e: Endpoint,
    t: Trace<Cargo>,
    book: Book,
    rx: Log,
    tops: seq<int>,
    recorded: int,
    records: map<int, seq<Handle>>)

  ghost function Done(t: Trace<Cargo>): set<int> {
    set u | u in t.meta && t.meta[u].acked
  }

  /** The bytes of a packet read back as its header and its messages. */
  ghost predicate Readable(p: Sent<Cargo>) {
    && AllOutbound(p.body.messages)
    && match ReadPacket(p.body.packet)
       case Err(_) => false
       case Ok((packet, pos)) =>
         && packet.header == p.header
         && (if p.header.packetType == MessagesType
             then ParseMessages(p.body.packet, pos) == (InboundAll(p.body.messages), None)
             else p.body.messages == [])
  }

  ghost predicate AllReadable(out: map<int, Sent<Cargo>>) {
    forall u | u in out :: Readable(out[u])
  }

  /** What holds of an endpoint by itself. */
  ghost predicate NodeOk(x: Node, n: nat) {
    && Ready(x.e) && x.e.xorSalt.Some?
    && Local(x.e.packets, x.t, n)
    && WellKept(x.book) && x.e.dispatcher.nextMessageId == Wrap(x.book.next)
    && Numbered(x.e.channels)
    && OutKept(x.book, x.t.out) && LooseOnce(x.e.channels, x.t.out) && AllReadable(x.t.out)
    && Filed(x.e.dispatcher, x.e.packets.sent, x.t, n, x.recorded, x.records, Done(x.t))
  }

  /** Whatever was in a packet that was accepted has been taken in. */
  ghost predicate Landed(accepted: map<int, ReceivedMeta>, out: map<int, Sent<Cargo>>, rx: Log) {
    forall u | u in accepted && u in out :: AllGot(rx, out[u].body.messages)
  }

  /** What holds of what `x` sends to `y`. */
  ghost predicate DirectionOk(x: Node, y: Node) {
    && |y.rx| == |x.e.channels| == |y.e.channels|
    && AckSound(x.t, y.t) && WatermarkSafe(x.t, y.t)
    && Landed(y.t.accepted, x.t.out, y.rx)
    && Sending(x.e.dispatcher, x.e.channels, x.book, y.rx, Carried(x.t.out, Done(x.t)))
    && Receiving(y.e.dispatcher, y.e.channels, x.book, y.rx, y.tops)
  }

  ghost predicate PairOk(x: Node, y: Node, n: nat) {
    NodeOk(x, n) && NodeOk(y, n) && DirectionOk(x, y) && DirectionOk(y, x)
  }

  function NewNode(config: Config, n: nat, fragMapSize: nat, time: real, salt: u64): Node {
    Node(NewEndpoint(config, n, n, fragMapSize, time).(xorSalt := Some(salt)),
         NewTrace(), EMPTY_BOOK, [map[], map[]], [0, 0], 0, map[])
  }

  lemma {:induction false} NewChannelOk(b: Book, c: Channel)
    requires c == NewUnreliable(c.id, c.time) || c == NewReliable(c.id, c.time)
    requires c.id < MAX_CHANNELS
    ensures GoodChannel(c) && QueuedOnce(b, c) && Queued(c) == []
    ensures c.seen.Capacity() == SEEN_CAPACITY && Tracks(c.seen, 0, map[])
  {
    NewRingTracks(SEEN_CAPACITY, false);
  }

  lemma {:induction false} NewNodeOk(config: Config, n: nat, fragMapSize: nat, time: real, salt: u64)
    requires GoodCapacity(n) && config.maxMessageSize <= MAX_PAYLOAD && 0 < fragMapSize < 32768
    ensures NodeOk(NewNode(config, n, fragMapSize, time, salt), n)
  {
    hide NewRing, Tracks, Queued, GoodChannel;
    var x := NewNode(config, n, fragMapSize, time, salt);
    NewIsLocal<Cargo>(n);
    NewRingTracks<seq<Handle>>(n, []);
    NewRingTracks(n, UNSENT);
    NewRingTracks(n, ReceivedMeta);
    NewRingTracks(fragMapSize, Unknown);
    forall i | 0 <= i < |x.e.channels|
      ensures GoodChannel(x.e.channels[i])
    {
      NewChannelOk(x.book, x.e.channels[i]);
    }
    NewRingIs(n, UNSENT);
    NewRingIs(n, ReceivedMeta);
    NewRingIs<seq<Handle>>(n, []);
    NewRingIs(fragMapSize, Unknown);
    assert Done(x.t) == {};
    WrapSmall(0);
  }

  lemma {:induction false} NewRingIs<T>(n: nat, default: T)
    requires 0 < n < 32768
    ensures NewRing(n, default).Valid() && NewRing(n, default).sequence == 0 && NewRing(n, default).Capacity() == n
    ensures Tracks(NewRing(n, default), 0, map[]) && Sound(NewRing(n, default), 0, map[])
    ensures forall i | 0 <= i < n :: NewRing(n, default).tags[i] == EMPTY
  {
    NewRingTracks(n, default);
  }

  lemma {:induction false} NewReceiving(d: Dispatcher, cs: seq<Channel>)
    requires |cs| == 2 && d.inProgress == map[] && d.inbox == map[]
    requires forall i | 0 <= i < 2 :: cs[i].seen.Capacity() == SEEN_CAPACITY && Tracks(cs[i].seen, 0, map[])
    ensures Receiving(d, cs, EMPTY_BOOK, [map[], map[]], [0, 0])
  {
    hide Tracks;
  }

  lemma {:induction false} NewSending(d: Dispatcher, cs: seq<Channel>)
    requires d.ackInbox == map[] && d.fragMap.Valid() && d.fragMap.sequence == 0
    requires forall i | 0 <= i < |d.fragMap.tags| :: d.fragMap.tags[i] == EMPTY
    requires Numbered(cs) && forall i | 0 <= i < |cs| :: QueuedOnce(EMPTY_BOOK, cs[i])
    ensures Sending(d, cs, EMPTY_BOOK, [map[], map[]], {})
  {
  }

  /** Two new endpoints. */
  lemma {:induction false} NewPairOk(cx: Config, cy: Config, n: nat, fx: nat, fy: nat, time: real, salt: u64)
    requires GoodCapacity(n)
    requires cx.maxMessageSize <= MAX_PAYLOAD && 0 < fx < 32768
    requires cy.maxMessageSize <= MAX_PAYLOAD && 0 < fy < 32768
    ensures PairOk(NewNode(cx, n, fx, time, salt), NewNode(cy, n, fy, time, salt), n)
  {
    hide NodeOk, Tracks, NewRing, Sending, Receiving, AckSound, WatermarkSafe, Queued, QueuedOnce, GoodCapacity;
    var x, y := NewNode(cx, n, fx, time, salt), NewNode(cy, n, fy, time, salt);
    NewNodeOk(cx, n, fx, time, salt);
    NewNodeOk(cy, n, fy, time, salt);
    NewDirectionOk(cx, cy, n, fx, fy, time, salt);
    NewDirectionOk(cy, cx, n, fy, fx, time, salt);
  }

  lemma {:induction false} NewDirectionOk(cx: Config, cy: Config, n: nat, fx: nat, fy: nat, time: real, salt: u64)
    requires GoodCapacity(n) && 0 < fx < 32768 && 0 < fy < 32768
    ensures DirectionOk(NewNode(cx, n, fx, time, salt), NewNode(cy, n, fy, time, salt))
  {
    hide Tracks, NewRing, Sending, Receiving, Queued, QueuedOnce, GoodCapacity;
    var x, y := NewNode(cx, n, fx, time, salt), NewNode(cy, n, fy, time, salt);
    NewIsLocal<Cargo>(n);
    NewRingIs(fx, Unknown);
    assert Carried(x.t.out, Done(x.t)) == {};
    forall i | 0 <= i < 2
      ensures QueuedOnce(EMPTY_BOOK, x.e.channels[i])
      ensures y.e.channels[i].seen.Capacity() == SEEN_CAPACITY && Tracks(y.e.channels[i].seen, 0, map[])
    {
      NewChannelOk(EMPTY_BOOK, x.e.channels[i]);
      NewChannelOk(EMPTY_BOOK, y.e.channels[i]);
    }
    NewSending(x.e.dispatcher, x.e.channels);
    NewReceiving(y.e.dispatcher, y.e.channels);
  }
}
