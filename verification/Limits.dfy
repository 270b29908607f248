/** Where the guarantees end: for each limit that the runs of the network keep to, what the code
    does beyond it. */
module Limits {
  import opened Words
  import opened SequenceBuffers
  import opened SequenceWindow
  import opened Messages
  import opened Packets
  import opened Channels
  import opened Dispatchers
  import opened PacketLayer
  import opened Endpoints
  import opened MessageBooks
  import opened Deliveries
  import opened Acknowledging
  import opened Departing
  import opened AckCounts

  // -- an id one full turn later --

  lemma {:induction false} AckHandlesMore(d: Dispatcher, cs: seq<Channel>, hs: seq<Handle>, c: u8, id: u16)
    requires d.Valid() && Numbered(cs)
    ensures var (d', cs') := AckHandles(d, cs, hs);
            && Times(d.ackInbox, c, id) <= Times(d'.ackInbox, c, id)
            && Numbered(cs') && |cs'| == |cs|
            && forall i, m | 0 <= i < |cs| && m in Queued(cs'[i]) :: m in Queued(cs[i])
    decreases |hs|
  {
    hide Push, Queued, AckFragment, AckReceived, Times;
    if hs != [] {
      var h := hs[0];
      var (d1, cs1) := AckHandle(d, cs, h);
      AckHandleValid(d, cs, h);
      PushTimes(d.ackInbox, h.channel, h.id, c, id);
      if h.ParentId().Some? {
        PushTimes(d.ackInbox, h.channel, h.ParentId().value, c, id);
      }
      IndexOfNumbered(cs, h.channel);
      if h.channel < |cs| {
        AckReceivedQueue(cs[h.channel], h);
        SubBag(Queued(AckReceived(cs[h.channel], h)), Queued(cs[h.channel]));
      }
      AckHandlesMore(d1, cs1, hs[1..], c, id);
    }
  }

  lemma {:induction false} SubBag(a: seq<Message>, b: seq<Message>)
    requires multiset(a) <= multiset(b)
    ensures forall m | m in a :: m in b
  {
    forall m | m in a
      ensures m in b
    {
      assert m in multiset(a);
    }
  }

  /** Acking a packet's handles reports every whole message among them, and takes it off the
      reliable queue. */
  lemma {:induction false} AckHandlesReport(d: Dispatcher, cs: seq<Channel>, hs: seq<Handle>, k: nat)
    requires d.Valid() && Numbered(cs) && k < |hs| && hs[k].ParentId() == None
    ensures var (d', cs') := AckHandles(d, cs, hs);
            var h := hs[k];
            && Times(d.ackInbox, h.channel, h.id) < Times(d'.ackInbox, h.channel, h.id)
            && |cs'| == |cs|
            && (h.channel < |cs| && cs[h.channel].Reliable? ==>
                  forall m | m in Queued(cs'[h.channel]) && m.fragment.None? :: m.id != h.id)
    decreases |hs|
  {
    hide Push, Queued, AckFragment, AckReceived, Times;
    var h := hs[k];
    var (d1, cs1) := AckHandle(d, cs, hs[0]);
    AckHandleValid(d, cs, hs[0]);
    IndexOfNumbered(cs, hs[0].channel);
    if hs[0].channel < |cs| {
      AckReceivedQueue(cs[hs[0].channel], hs[0]);
    }
    AckHandlesMore(d, cs, [hs[0]], h.channel, h.id);
    assert AckHandles(d1, cs1, [hs[0]][1..]) == (d1, cs1) by {
      assert [hs[0]][1..] == [];
    }
    if k == 0 {
      PushTimes(d.ackInbox, h.channel, h.id, h.channel, h.id);
      AckHandlesMore(d1, cs1, hs[1..], h.channel, h.id);
    } else {
      KindsStay(cs, hs[0]);
      AckHandlesReport(d1, cs1, hs[1..], k - 1);
    }
  }

  lemma {:induction false} KindsStay(cs: seq<Channel>, h: Handle)
    ensures |ChannelAcked(cs, h)| == |cs| && forall i | 0 <= i < |cs| ::
            ChannelAcked(cs, h)[i].Reliable? == cs[i].Reliable?
  {
  }

  /** An endpoint that sends nothing but packets without messages. */
  ghost function SignalAll(e: Endpoint, ps: seq<Packet>): Endpoint
    decreases |ps|
  {
    if ps == [] || !Ready(e) || !IsControl(ps[0]) then e else SignalAll(SendPacket(e, ps[0]).0, ps[1..])
  }

  lemma {:induction false} SignalsKeepRecord(e: Endpoint, ps: seq<Packet>)
    ensures SignalAll(e, ps).dispatcher == e.dispatcher && SignalAll(e, ps).channels == e.channels
    decreases |ps|
  {
    hide Ready, NextHeader, WritePacket, RecordSent;
    if ps != [] && Ready(e) && IsControl(ps[0]) {
      SignalsKeepRecord(SendPacket(e, ps[0]).0, ps[1..]);
    }
  }

  /** The record of a packet's messages outlives any number of packets without messages, and an id
      one full turn later names it again.  So once enough keep-alives have been sent, the ack of a
      keep-alive reports the messages of packet `u` as acked and stops resending them, whether or
      not `u` ever arrived.  `CanSend` keeps the runs of the network from getting there. */
  lemma {:induction false} TurnLaterFalseAck(e: Endpoint, ps: seq<Packet>, u: int, hs: seq<Handle>, k: nat)
    requires Ready(e) && Numbered(e.channels)
    requires e.dispatcher.inPackets.Get(Wrap(u)) == Some(hs) && k < |hs| && hs[k].ParentId() == None
    ensures var e', h := SignalAll(e, ps), hs[k];
            && e'.dispatcher.Valid()
            && var (d, cs) := AckPacket(e'.dispatcher, e'.channels, Wrap(u + 65536));
            && Times(e.dispatcher.ackInbox, h.channel, h.id) < Times(d.ackInbox, h.channel, h.id)
            && |cs| == |e.channels|
            && (h.channel < |cs| && e.channels[h.channel].Reliable? ==>
                  forall m | m in Queued(cs[h.channel]) && m.fragment.None? :: m.id != h.id)
  {
    hide Times, AckHandles, Queued, SignalAll, GoodChannels;
    SignalsKeepRecord(e, ps);
    WrapTurns(u, 1);
    var d := e.dispatcher.(inPackets := e.dispatcher.inPackets.Remove(Wrap(u), []));
    AckHandlesReport(d, e.channels, hs, k);
  }

  // -- ids outside the window --

  /** A message whose id is outside its channel's window is dropped, whether or not it was seen
      before: the log takes in exactly the unseen ids inside the window. */
  lemma {:induction false} SeenIff(seen: Ring<bool>, top: int, m: map<int, bool>, id: u16)
    requires Tracks(seen, top, m) && seen.Capacity() == SEEN_CAPACITY && top < 65536
    requires -32768 < id - (top - SEEN_CAPACITY) < 32768
    ensures AcceptId(seen, id).1 <==> InWindow(id, top) && id !in m
    ensures !AcceptId(seen, id).1 ==> AcceptId(seen, id).0 == seen
  {
    WrapSmall(id);
    GuardExact(seen, top, id);
    if InWindow(id, top) {
      AcceptIdExact(seen, top, m, id);
    }
  }

  /** Such a message changes nothing at the receiver, although the packet it came in has been taken
      in and will be acked. */
  lemma {:induction false} OutsideDropped(d: Dispatcher, cs: seq<Channel>, b: Book, rx: Log, tops: seq<int>, m: Message,
                                          c: int)
    requires GoodChannels(cs) && Numbered(cs) && Receiving(d, cs, b, rx, tops)
    requires 0 <= c < |cs| && m.channel == c
    requires -32768 < m.id - (tops[c] - SEEN_CAPACITY) <= 0
    ensures ReceiveOne(d, cs, m) == (d, cs, None)
  {
    hide Tracks, AcceptId, ProcessReceived, Known, Assembling, InboxExact, GoodChannel;
    IndexOfNumbered(cs, m.channel);
    SeenIff(cs[c].seen, tops[c], rx[c], m.id);
    assert cs[c := cs[c].(seen := cs[c].seen)] == cs;
  }
}
