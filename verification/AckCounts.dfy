/** How often a whole message is reported acked: once for every acked packet that carried it. */
module AckCounts {
  import opened Words
  import opened SequenceBuffers
  import opened SequenceWindow
  import opened AckHeaders
  import opened Messages
  import opened Packets
  import opened Channels
  import opened Dispatchers
  import opened PacketLayer
  import opened PacketInvariants
  import opened Endpoints
  import opened MessageBooks
  import opened Deliveries
  import opened Acknowledging
  import opened Transmitting
  import opened Nodes
  import opened Posting
  import opened Departing
  import opened Arriving
  import opened Network

  /** How often `id` is in the inbox of acks of channel `c`. */
  ghost function Times(inbox: map<u8, seq<u16>>, c: u8, id: u16): nat {
    if c in inbox then multiset(inbox[c])[id] else 0
  }

  /** The packets in `done` that carry `m`. */
  ghost function Carriers(out: map<int, Sent<Cargo>>, done: set<int>, m: Message): set<int> {
    set u | u in done && u in out && m in out[u].body.messages
  }

  /** What was posted whole under `p` has been reported once for every packet in `done` that carried it. */
  ghost predicate CountedOne(b: Book, inbox: map<u8, seq<u16>>, out: map<int, Sent<Cargo>>, done: set<int>, p: u16)
    requires p in b.posted
  {
    !b.posted[p].Big() ==>
      p in b.table && Times(inbox, b.posted[p].channel, p) == |Carriers(out, done, b.table[p])|
  }

  ghost predicate Counted(b: Book, inbox: map<u8, seq<u16>>, out: map<int, Sent<Cargo>>, done: set<int>) {
    forall p | p in b.posted :: CountedOne(b, inbox, out, done, p)
  }

  // -- one packet --

  lemma {:induction false} PushTimes(inbox: map<u8, seq<u16>>, c: u8, x: u16, c': u8, id: u16)
    ensures Times(Push(inbox, c, x), c', id) == Times(inbox, c', id) + if c == c' && x == id then 1 else 0
  {
    var old' := if c in inbox then inbox[c] else [];
    assert multiset(old' + [x]) == multiset(old') + multiset{x};
    if c !in inbox {
      assert old' + [x] == [x];
    }
  }

  lemma {:induction false} WholeEntry(b: Book, p: u16)
    requires WellKept(b) && p in b.posted && !b.posted[p].Big()
    ensures p in b.table && b.table[p].id == p && b.table[p].fragment == None
            && b.table[p].channel == b.posted[p].channel
  {
    hide IsOutbound, Fits;
    assert PostEntered(b, p);
    assert Entry(b, p);
  }

  /** One acked message adds to the count of that message only. */
  lemma {:induction false} HandleTimes(d: Dispatcher, cs: seq<Channel>, b: Book, m: Message, p: u16)
    requires WellKept(b) && d.Valid() && InTable(b, m, m.channel) && p in b.posted && !b.posted[p].Big()
    ensures p in b.table
    ensures var c := b.posted[p].channel;
            Times(AckHandle(d, cs, HandleOf(m, m.channel)).0.ackInbox, c, p)
            == Times(d.ackInbox, c, p) + if m == b.table[p] then 1 else 0
  {
    hide WellKept, Push, Times, ChannelAcked, AckFragment, IsOutbound, Fits, InboundOf;
    WholeEntry(b, p);
    EntryParent(b, m, m.channel);
    HandleParent(m);
    PushTimes(d.ackInbox, m.channel, ParentOf(m), b.posted[p].channel, p);
  }

  lemma {:induction false} HandlesTimes(d: Dispatcher, cs: seq<Channel>, b: Book, ms: seq<Message>, p: u16)
    requires WellKept(b) && d.Valid() && MessagesKept(b, ms) && p in b.posted && !b.posted[p].Big()
    ensures p in b.table
    ensures var c := b.posted[p].channel;
            Times(AckHandles(d, cs, HandlesFor(ms)).0.ackInbox, c, p) ==
                Times(d.ackInbox, c, p) + multiset(ms)[b.table[p]]
    decreases |ms|
  {
    hide WellKept, Times, AckHandle, InTable;
    WholeEntry(b, p);
    if ms != [] {
      var m, rest := ms[0], ms[1..];
      assert InTable(b, m, m.channel);
      HandleTimes(d, cs, b, m, p);
      AckHandleValid(d, cs, HandleOf(m, m.channel));
      var (d1, cs1) := AckHandle(d, cs, HandleOf(m, m.channel));
      HandlesTimes(d1, cs1, b, rest, p);
      assert ms == [m] + rest;
      assert HandlesFor(ms)[1..] == HandlesFor(rest) && HandlesFor(ms)[0] == HandleOf(m, m.channel);
    }
  }

  lemma {:induction false} CarriersMore(out: map<int, Sent<Cargo>>, done: set<int>, x: int, m: Message)
    requires x in out && x !in done && Once(out[x].body.messages)
    ensures |Carriers(out, done + {x}, m)| == |Carriers(out, done, m)| + multiset(out[x].body.messages)[m]
  {
    var before, after := Carriers(out, done, m), Carriers(out, done + {x}, m);
    if m in out[x].body.messages {
      assert after == before + {x};
    } else {
      assert after == before;
      assert m !in multiset(out[x].body.messages);
    }
  }

  /** One acked packet, whatever it carried. */
  lemma {:induction false} PacketCounted(d: Dispatcher, cs: seq<Channel>, b: Book, rx: Log, sent: Ring<SentMeta>,
                                         t: Trace<Cargo>, n: nat, top: int, m: map<int, seq<Handle>>, done: set<int>,
                                         ids: seq<u16>, xs: seq<int>)
    requires AcksReady(d, cs, b, rx, sent, t, n, top, m, done, ids, xs) && ids != []
    requires Counted(b, d.ackInbox, t.out, done)
    ensures d.Valid() && Counted(b, AckPacket(d, cs, ids[0]).0.ackInbox, t.out, done + {xs[0]})
  {
    hide WellKept, Wrap, Filed, LooseOnce, Sending, Times, Carriers, AckHandles, HandlesFor, Held, MessagesKept, Once,
      Carried;
    var x := xs[0];
    var ms := t.out[x].body.messages;
    assert MessagesKept(b, ms) && Once(ms);
    assert Ackable(sent, t, rx, xs[0]);
    FoundRight(d, sent, t, n, top, m, done, x);
    var d0 := d.(inPackets := d.inPackets.Remove(Wrap(x), []));
    forall p | p in b.posted
      ensures CountedOne(b, AckPacket(d, cs, ids[0]).0.ackInbox, t.out, done + {x}, p)
    {
      assert CountedOne(b, d.ackInbox, t.out, done, p);
      if !b.posted[p].Big() {
        CarriersMore(t.out, done, x, b.table[p]);
        if t.out[x].header.packetType == MessagesType {
          HandlesTimes(d0, cs, b, ms, p);
        } else {
          NoCargo(d, sent, t, n, top, m, done, x);
        }
      }
    }
  }

  lemma {:induction false} NoCargo(d: Dispatcher, sent: Ring<SentMeta>, t: Trace<Cargo>, n: nat, top: int,
                                   m: map<int, seq<Handle>>, done: set<int>, x: int)
    requires Filed(d, sent, t, n, top, m, done) && x in t.out && t.out[x].header.packetType != MessagesType
    ensures t.out[x].body.messages == []
  {
    hide Sound, Held, Swept, Tracks;
    NoMessages(d.inPackets, sent, t, n, top, m, done, x);
  }

  lemma {:induction false} AllCounted(d: Dispatcher, cs: seq<Channel>, b: Book, rx: Log, sent: Ring<SentMeta>,
                                      t: Trace<Cargo>, n: nat, top: int, m: map<int, seq<Handle>>, done: set<int>,
                                      ids: seq<u16>, xs: seq<int>)
    requires AcksReady(d, cs, b, rx, sent, t, n, top, m, done, ids, xs)
    requires Counted(b, d.ackInbox, t.out, done)
    ensures d.Valid() && Counted(b, AckAll(d, cs, ids).0.ackInbox, t.out, done + Upto(xs))
    decreases |ids|
  {
    hide WellKept, Filed, LooseOnce, OutKept, Sending, Counted, AckPacket, Ackable, Wrap, Carried, OnlyReliable;
    if ids == [] {
      assert done + Upto(xs) == done;
    } else {
      PacketCounted(d, cs, b, rx, sent, t, n, top, m, done, ids, xs);
      AcksReadyNext(d, cs, b, rx, sent, t, n, top, m, done, ids, xs);
      var (d1, cs1) := AckPacket(d, cs, ids[0]);
      AllCounted(d1, cs1, b, rx, sent, t, n, top, m, done + {xs[0]}, ids[1..], xs[1..]);
    }
  }

  // -- every step --

  ghost predicate NodeCounted(x: Node) {
    Counted(x.book, x.e.dispatcher.ackInbox, x.t.out, Done(x.t))
  }

  /** Nothing was reported, or sent, under an id not given out yet. */
  lemma {:induction false} FreshUncounted(b: Book, rx: Log, inbox: map<u8, seq<u16>>, out: map<int, Sent<Cargo>>,
                                          done: set<int>, m: Message)
    requires WellKept(b) && OutKept(b, out) && AcksRight(inbox, b, rx)
    requires 0 <= b.next < 65536 && m.id == b.next && b.next !in b.posted
    ensures forall c :: Times(inbox, c, b.next) == 0
    ensures Carriers(out, done, m) == {}
  {
    hide WellKept, Finished, IsOutbound, Fits;
    forall c | c in inbox
      ensures Times(inbox, c, b.next) == 0
    {
      if b.next in multiset(inbox[c]) {
        var k :| 0 <= k < |inbox[c]| && inbox[c][k] == b.next;
        assert AckRight(b, rx, c, inbox[c][k]);
        FinishedPosted(b, rx, b.next);
      }
    }
    forall u | u in out && m in out[u].body.messages
      ensures false
    {
      var k :| 0 <= k < |out[u].body.messages| && out[u].body.messages[k] == m;
      assert MessagesKept(b, out[u].body.messages);
      assert InTable(b, m, m.channel);
      TableId(b, m.id);
    }
  }

  lemma {:induction false} PostCountedBook(b: Book, rx: Log, inbox: map<u8, seq<u16>>, out: map<int, Sent<Cargo>>,
                                           done: set<int>, channel: u8, payload: bytes)
    requires WellKept(b) && Postable(b, channel, payload) && OutKept(b, out) && AcksRight(inbox, b, rx)
    requires Counted(b, inbox, out, done)
    ensures Counted(AfterPost(b, channel, payload), inbox, out, done)
  {
    hide WellKept, OutKept, AfterPost, AcksRight, Times, Carriers, NewOutbound, Part;
    var b' := AfterPost(b, channel, payload);
    PostBook(b, channel, payload);
    PostKeeps(b, channel, payload);
    forall p | p in b'.posted
      ensures CountedOne(b', inbox, out, done, p)
    {
      if !b'.posted[p].Big() {
        WholeEntry(b', p);
        PostedAt(b, channel, payload, p);
        if p in b.posted {
          PostOther(b, rx, channel, payload, p);
          assert CountedOne(b, inbox, out, done, p);
          assert b.posted[p] == b'.posted[p];
        } else {
          FreshUncounted(b, rx, inbox, out, done, b'.table[p]);
        }
      }
    }
  }

  lemma {:induction false} PostCounted(x: Node, y: Node, n: nat, channel: u8, payload: bytes)
    requires PairOk(x, y, n) && CanPost(x, channel, payload) && NodeCounted(x)
    ensures NodeCounted(Post(x, channel, payload))
  {
    hide AfterPost, WellKept, Local, OutKept, LooseOnce, Filed, AllReadable, AddMessage, QueuesOnce, Done, FragsRight,
      AcksOnce, Spent, Receiving, Retained, Carried, AckSound, WatermarkSafe, Landed, QueuedOnce, AcksRight, Counted;
    if Takes(x.e, channel, payload) {
      PostNodeOk(x, n, channel, payload);
      PostDispatcher(x.e.dispatcher, x.e.channels[channel], x.book, payload);
      PostCountedBook(x.book, y.rx, x.e.dispatcher.ackInbox, x.t.out, Done(x.t), channel, payload);
    }
  }

  lemma {:induction false} SameCarriers(out: map<int, Sent<Cargo>>, out': map<int, Sent<Cargo>>, done: set<int>,
                                        m: Message)
    requires forall u | u in done :: u in out && u in out' && out'[u] == out[u]
    ensures Carriers(out', done, m) == Carriers(out, done, m)
  {
    forall u: int
      ensures u in Carriers(out', done, m) <==> u in Carriers(out, done, m)
    {
      if u in done {
        assert out'[u] == out[u];
      }
    }
  }

  lemma {:induction false} SameCounted(b: Book, inbox: map<u8, seq<u16>>, out: map<int, Sent<Cargo>>,
                                       out': map<int, Sent<Cargo>>, done: set<int>)
    requires Counted(b, inbox, out, done)
    requires forall u | u in done :: u in out && u in out' && out'[u] == out[u]
    ensures Counted(b, inbox, out', done)
  {
    hide Times;
    forall p | p in b.posted
      ensures CountedOne(b, inbox, out', done, p)
    {
      assert CountedOne(b, inbox, out, done, p);
      if !b.posted[p].Big() {
        SameCarriers(out, out', done, b.table[p]);
      }
    }
  }

  lemma {:induction false} SentCounted(x: Node, x': Node, h: Header, body: Cargo)
    requires NodeCounted(x) && NextTrace(x.t, x'.t, h, body) && x.t.meta.Keys == x.t.out.Keys
    requires x'.book == x.book && x'.e.dispatcher.ackInbox == x.e.dispatcher.ackInbox
    ensures NodeCounted(x')
  {
    hide Counted;
    DoneSame(x.t, x'.t, h, body);
    forall u | u in Done(x.t)
      ensures u in x.t.out && u in x'.t.out && x'.t.out[u] == x.t.out[u]
    {
      assert u in x.t.meta.Keys && x.t.sequenceU + 1 !in x.t.out.Keys;
    }
    SameCounted(x.book, x.e.dispatcher.ackInbox, x.t.out, x'.t.out, Done(x.t));
  }

  lemma {:induction false} PackCounted(x: Node, y: Node, n: nat)
    requires PairOk(x, y, n) && CanSend(x, n) && NodeCounted(x)
    ensures NodeCounted(PackOne(x))
  {
    hide ComposeOne, Local, WellKept, OutKept, LooseOnce, AllReadable, Readable, Filed, HandlesFor, GoodChannels,
      ReportsRight, Retained, QueuesOnce, Wrap, SetHandles, Moved, Shrinks, NextHeader, Receiving, Carried, AckSound,
      WatermarkSafe, Landed, Shrunk, Counted;
    if ComposeOne(x.e).1.Ok? {
      var x', p, load := ComposeShape(x, n);
      FiledKeys(x.e.dispatcher, x.e.packets.sent, x.t, n, x.recorded, x.records, Done(x.t));
      SentCounted(x, x', p.header, Cargo(p.packet, p.messages));
    } else {
      ComposeFails(x, n);
    }
  }

  lemma {:induction false} SignalCounted(x: Node, y: Node, n: nat, p: Packet)
    requires PairOk(x, y, n) && CanSend(x, n) && IsControl(p) && NodeCounted(x)
    ensures NodeCounted(Signal(x, p))
  {
    hide Local, WellKept, OutKept, LooseOnce, AllReadable, NextHeader, SendPacket, Filed, DirectionOk, PacketBytes,
      RecordSent, GoodChannels, Counted, Terminated;
    SignalOutcome(x, n, p);
    var (e, packet) := SendPacket(x.e, p);
    if packet.Some? {
      OutBelow(x.e.packets, x.t, n);
      SentCounted(x, Signal(x, p), NextHeader(x.e.packets, p.header.packetType).1.value, Cargo(packet.value, []));
    }
  }

  lemma {:induction false} ReceiveReports(d: Dispatcher, cs: seq<Channel>, ms: seq<Message>)
    requires GoodChannels(cs)
    ensures ReceiveAll(d, cs, ms).0.fragMap == d.fragMap && ReceiveAll(d, cs, ms).0.ackInbox == d.ackInbox
    decreases |ms|
  {
    hide ReceiveOne, GoodChannel;
    if ms != [] {
      ReceiveOneGood(d, cs, ms[0]);
      ReceiveReports(ReceiveOne(d, cs, ms[0]).0, ReceiveOne(d, cs, ms[0]).1, ms[1..]);
    }
  }

  lemma {:induction false} DeliverCounted(x: Node, y: Node, n: nat, u: int)
    requires PairOk(x, y, n) && CanArrive(x, y, n, u) && NodeCounted(x)
    ensures NodeCounted(Deliver(x, y.t.out[u], u))
  {
    hide Local, WellKept, OutKept, LooseOnce, Readable, Filed, Receiving, Landed, Done, GoodChannels, Sending, AckSound,
      WatermarkSafe, AcceptPacket, ProcessAcks, AfterAcks, AcksOf, AckAll, ReceiveAll, Honest, Timely, Windowed,
      Counted, AcksReady, InboundAll, AllOutbound, NoteAll, NewestAll, AcksTaken, ReceiveDatagram, Numbered;
    var p := y.t.out[u];
    assert Readable(p) by {
      ArrivalReadable(x, y, n, u);
    }
    if AcceptPacket(x.e.packets, p.header.id).Ok? {
      var s1, t1 := AcceptTakes(x, y, n, u);
      LocalValid(s1, t1, n);
      var s2, t2, ids, xs := AcksTake(s1, t1, y.t, n, AcksOf(p.header));
      var _, d1, cs1, x' := TakeShape(x, y, n, u, s1, ids);
      AcksReadyAt(x, y, n, u, s1, t1, s2, t2, ids, xs);
      AllCounted(x.e.dispatcher, x.e.channels, x.book, y.rx, s2.sent, t2, n, x.recorded, x.records, Done(x.t), ids, xs);
      ReceiveReports(d1, cs1, InboundAll(p.body.messages));
    } else {
      ReceiveShape(x.e, p);
    }
  }

  lemma {:induction false} StepCounted(w: World, n: nat, side: Side, step: Step)
    requires PairOk(w.At(side), w.Peer(side), n) && Possible(w, n, step) && NodeCounted(w.At(side))
    ensures NodeCounted(Next(w, n, step).At(side))
  {
    hide PairOk, CanPost, CanSend, CanArrive, Post, PackOne, Signal, Deliver, Ready, Sends, Counted, TickAll, IsControl;
    var x, y := w.At(side), w.Peer(side);
    if step.at == side {
      match step {
        case Send(_, channel, payload) => PostCounted(x, y, n, channel, payload);
        case Time(_, dt) =>
        case Pack(_) => PackCounted(x, y, n);
        case Control(_, packet) => SignalCounted(x, y, n, packet);
        case Arrive(_, u) => DeliverCounted(x, y, n, u);
      }
    }
  }

  lemma {:induction false} RunCounted(w: World, n: nat, side: Side, steps: seq<Step>, w': World)
    requires PairOk(w.left, w.right, n) && Reaches(w, n, steps, w') && NodeCounted(w.At(side))
    ensures NodeCounted(w'.At(side))
    decreases |steps|
  {
    hide PairOk, Possible, Next, NodeCounted;
    if steps != [] {
      PairSwap(w.left, w.right, n);
      StepCounted(w, n, side, steps[0]);
      StepKeeps(w, n, steps[0]);
      RunCounted(Next(w, n, steps[0]), n, side, steps[1..], w');
    }
  }

  /** Exactly how often a message is reported acked: a whole message, on whatever channel, once for
      every acked packet that carried it. */
  lemma {:induction false} ReportedPerPacket(s: Setting, steps: seq<Step>, w: World, side: Side, p: u16)
    requires Reachable(s, steps, w) && p in w.At(side).book.posted && !w.At(side).book.posted[p].Big()
    ensures var x := w.At(side);
            && p in x.book.table
            && Times(x.e.dispatcher.ackInbox, x.book.posted[p].channel, p)
               == |Carriers(x.t.out, Done(x.t), x.book.table[p])|
  {
    hide NodeOk, DirectionOk, Reaches, NewEndpoint, Times, Carriers;
    NewPairOk(s.left, s.right, s.n, s.fragMapLeft, s.fragMapRight, s.time, s.salt);
    RunCounted(Start(s), s.n, side, steps, w);
    assert CountedOne(w.At(side).book, w.At(side).e.dispatcher.ackInbox, w.At(side).t.out, Done(w.At(side).t), p);
  }
}
