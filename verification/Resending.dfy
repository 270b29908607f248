/** A reliable message that no acked packet carried is due again once the resend time has passed. */
module Resending {
  import opened Words
  import opened SequenceBuffers
  import opened Messages
  import opened Packets
  import opened Channels
  import opened Reassembler
  import opened Dispatchers
  import opened PacketLayer
  import opened PacketInvariants
  import opened Endpoints
  import opened MessageBooks
  import opened Deliveries
  import opened Acknowledging
  import opened Transmitting
  import opened Nodes
  import opened Posting
  import opened Departing
  import opened Arriving
  import opened Network

  /** The resend time is a tenth of a second.  Nothing was sent later than now; and the message that is
      watched, if there is one and it is this channel's, was sent, the last time no earlier than
      `since`. */
  ghost predicate Timed(c: Channel, watched: Option<Message>, since: real) {
    c.Reliable? ==>
      && c.resendTime == 0.1
      && (forall r | r in c.pending && r.lastSent.Some? :: r.lastSent.value <= c.time)
      && (watched.Some? && watched.value.channel == c.id ==>
            since <= c.time &&
            forall r | r in c.pending && r.message == watched.value :: r.lastSent.Some? && since <= r.lastSent.value)
  }

  ghost predicate AllTimed(cs: seq<Channel>, watched: Option<Message>, since: real) {
    forall i | 0 <= i < |cs| :: Timed(cs[i], watched, since)
  }

  /** The channels are what they were, but for their queues and logs, and `dt` later. */
  ghost predicate Later(cs: seq<Channel>, cs': seq<Channel>, dt: real) {
    |cs'| == |cs| && forall i | 0 <= i < |cs| :: LaterOne(cs[i], cs'[i], dt)
  }

  ghost predicate LaterOne(c: Channel, c': Channel, dt: real) {
    && c'.time == c.time + dt && c'.Reliable? == c.Reliable? && c'.id == c.id
    && (c.Reliable? ==> c'.resendTime == c.resendTime)
  }

  // -- the operations --

  lemma {:induction false} EnqueueTimed(c: Channel, id: u16, payload: bytes, fragment: Option<Fragment>,
                                        watched: Option<Message>, since: real)
    requires Sendable(c.id, payload, fragment) && Timed(c, watched, since)
    requires watched.Some? ==> watched.value.id != id
    ensures Timed(Enqueue(c, id, payload, fragment), watched, since)
            && LaterOne(c, Enqueue(c, id, payload, fragment), 0.0)
  {
  }

  lemma {:induction false} FragmentsTimed(c: Channel, payload: bytes, parent: u16, i: nat, watched: Option<Message>,
                                          since: real)
    requires FRAGMENT_SIZE < |payload| <= MAX_PAYLOAD && i <= NumFragments(|payload|) && c.id < 64
    requires Timed(c, watched, since)
    requires parent + NumFragments(|payload|) <= 65536 && (watched.Some? ==> watched.value.id < parent)
    ensures Timed(EnqueueFragments(c, payload, parent, i), watched, since)
    ensures LaterOne(c, EnqueueFragments(c, payload, parent, i), 0.0)
    decreases NumFragments(|payload|) - i
  {
    hide NumFragments, Slice, NewOutbound, Enqueue, Timed;
    if i < NumFragments(|payload|) {
      FragmentSendable(c.id, payload, parent, i);
      WrapSmall(parent + i);
      var fragment := Some(FragmentAt(payload, parent, i));
      EnqueueTimed(c, WrapAdd(parent, i), Slice(payload, i), fragment, watched, since);
      FragmentsTimed(Enqueue(c, WrapAdd(parent, i), Slice(payload, i), fragment), payload, parent, i + 1, watched,
          since);
    }
  }

  lemma {:induction false} AddTimed(d: Dispatcher, c: Channel, payload: bytes, watched: Option<Message>, since: real)
    requires d.Valid() && c.id < 64 && |payload| <= MAX_PAYLOAD && Timed(c, watched, since)
    requires d.nextMessageId + IdsFor(payload) <= 65536 && (watched.Some? ==> watched.value.id < d.nextMessageId)
    ensures Timed(AddMessage(d, c, payload).1, watched, since) && LaterOne(c, AddMessage(d, c, payload).1, 0.0)
  {
    hide EnqueueFragments, NewOutbound, Timed, Enqueue;
    if |payload| > FRAGMENT_SIZE {
      FragmentsTimed(c, payload, d.nextMessageId, 0, watched, since);
    } else {
      EnqueueTimed(c, d.nextMessageId, payload, None, watched, since);
    }
  }

  lemma {:induction false} TakeTimed(c: Channel, room: nat, watched: Option<Message>, since: real)
    requires Timed(c, watched, since)
    ensures Timed(Take(c, room).0, watched, since) && LaterOne(c, Take(c, room).0, 0.0)
  {
    var i := TakesFirst(c, room);
    if c.Reliable? && i < |c.pending| {
      forall r | r in Take(c, room).0.pending
        ensures r in c.pending || r == Resendable(c.pending[i].message, Some(c.time))
      {
        var j :| 0 <= j < |c.pending| && Take(c, room).0.pending[j] == r;
      }
    }
  }

  lemma {:induction false} WriteTimed(c: Channel, room: nat, watched: Option<Message>, since: real)
    requires GoodChannel(c) && Timed(c, watched, since)
    ensures Timed(WriteChannel(c, room).0, watched, since) && LaterOne(c, WriteChannel(c, room).0, 0.0)
    decreases ReadyCount(c)
  {
    hide ReadyCount, Shrinks, Take, Timed;
    var c', m, left := WriteChannelStep(c, room);
    TakeTimed(c, room, watched, since);
    if m.Some? {
      WriteTimed(c', left, watched, since);
    }
  }

  lemma {:induction false} FillTimed(cs: seq<Channel>, room: nat, load: Load, watched: Option<Message>, since: real)
    requires GoodChannels(cs) && AllTimed(cs, watched, since)
    ensures AllTimed(Fill(cs, room, load).0, watched, since) && Later(cs, Fill(cs, room, load).0, 0.0)
    decreases TotalReady(cs)
  {
    hide Fill, WriteChannel, Shrinks, Timed, GoodChannel;
    var i, c, ms, left := FillTurn(cs, room, load);
    if ms != [] {
      WriteTimed(cs[i], room, watched, since);
      if left >= 3 {
        FillTimed(cs[i := c], left, load.Add(ms, c.id), watched, since);
        LaterTwice(cs, cs[i := c], Fill(cs, room, load).0);
      }
    }
  }

  lemma {:induction false} LaterTwice(a: seq<Channel>, b: seq<Channel>, c: seq<Channel>)
    requires Later(a, b, 0.0) && Later(b, c, 0.0)
    ensures Later(a, c, 0.0)
  {
    forall i | 0 <= i < |a|
      ensures LaterOne(a[i], c[i], 0.0)
    {
      assert LaterOne(a[i], b[i], 0.0) && LaterOne(b[i], c[i], 0.0);
    }
  }

  lemma {:induction false} AckTimed(c: Channel, h: Handle, watched: Option<Message>, since: real)
    requires Timed(c, watched, since)
    ensures Timed(AckReceived(c, h), watched, since) && LaterOne(c, AckReceived(c, h), 0.0)
  {
    if c.Reliable? {
      forall r | r in Retain(c.pending, h)
        ensures r in c.pending
      {
        RetainExact(c.pending, h, r);
      }
    }
  }

  lemma {:induction false} AckHandlesTimed(d: Dispatcher, cs: seq<Channel>, hs: seq<Handle>, watched: Option<Message>,
                                           since: real)
    requires d.Valid() && AllTimed(cs, watched, since)
    ensures AllTimed(AckHandles(d, cs, hs).1, watched, since) && Later(cs, AckHandles(d, cs, hs).1, 0.0)
    decreases |hs|
  {
    hide Timed, AckReceived, Push, AckFragment;
    if hs != [] {
      var i := IndexOfChannel(cs, hs[0].channel);
      if i < |cs| {
        AckTimed(cs[i], hs[0], watched, since);
      }
      AckHandleValid(d, cs, hs[0]);
      var (d1, cs1) := AckHandle(d, cs, hs[0]);
      AckHandlesTimed(d1, cs1, hs[1..], watched, since);
      LaterTwice(cs, cs1, AckHandles(d, cs, hs).1);
    }
  }

  lemma {:induction false} AckAllTimed(d: Dispatcher, cs: seq<Channel>, ids: seq<u16>, watched: Option<Message>,
                                       since: real)
    requires d.Valid() && AllTimed(cs, watched, since)
    ensures AllTimed(AckAll(d, cs, ids).1, watched, since) && Later(cs, AckAll(d, cs, ids).1, 0.0)
    decreases |ids|
  {
    hide AllTimed, AckHandles;
    if ids != [] {
      if d.inPackets.Get(ids[0]).Some? {
        AckHandlesTimed(d.(inPackets := d.inPackets.Remove(ids[0], [])), cs, d.inPackets.Get(ids[0]).value, watched,
            since);
      }
      AckPacketValid(d, cs, ids[0]);
      var (d1, cs1) := AckPacket(d, cs, ids[0]);
      AckAllTimed(d1, cs1, ids[1..], watched, since);
      LaterTwice(cs, cs1, AckAll(d, cs, ids).1);
    }
  }

  lemma {:induction false} ReceiveTimed(d: Dispatcher, cs: seq<Channel>, ms: seq<Message>, watched: Option<Message>,
                                        since: real)
    requires GoodChannels(cs) && AllTimed(cs, watched, since)
    ensures AllTimed(ReceiveAll(d, cs, ms).1, watched, since) && Later(cs, ReceiveAll(d, cs, ms).1, 0.0)
    decreases |ms|
  {
    hide AcceptId, GoodChannel, ProcessReceived;
    if ms != [] {
      ReceiveOneGood(d, cs, ms[0]);
      var cs1 := ReceiveOne(d, cs, ms[0]).1;
      ReceiveTimed(ReceiveOne(d, cs, ms[0]).0, cs1, ms[1..], watched, since);
      LaterTwice(cs, cs1, ReceiveAll(d, cs, ms).1);
    }
  }

  // -- the steps --

  lemma {:induction false} PostTimed(x: Node, n: nat, channel: u8, payload: bytes, watched: Option<Message>,
                                     since: real)
    requires NodeOk(x, n) && QueuesOnce(x.book, x.e.channels)
    requires CanPost(x, channel, payload) && AllTimed(x.e.channels, watched, since)
    requires watched.Some? ==> watched.value.id < x.book.next
    ensures AllTimed(Post(x, channel, payload).e.channels, watched, since)
    ensures Later(x.e.channels, Post(x, channel, payload).e.channels, 0.0)
  {
    hide AddMessage, AfterPost, SentUnacked, Timed, NodeOk, QueuesOnce;
    if Takes(x.e, channel, payload) {
      PostNodeOk(x, n, channel, payload);
      assert GoodChannel(x.e.channels[channel]);
      AddTimed(x.e.dispatcher, x.e.channels[channel], payload, watched, since);
    }
  }

  lemma {:induction false} PackTimed(x: Node, watched: Option<Message>, since: real)
    requires Ready(x.e) && x.e.xorSalt.Some? && AllTimed(x.e.channels, watched, since)
    ensures AllTimed(PackOne(x).e.channels, watched, since) && Later(x.e.channels, PackOne(x).e.channels, 0.0)
  {
    hide NextHeader, PacketBytes, Fill, AllTimed, RecordSent, SetHandles, Coalesce, HandlesFor, GoodChannel;
    var next := NextHeader(x.e.packets, MessagesType);
    NextHeaderId(x.e.packets, MessagesType);
    if next.1.Ok? {
      var head := PacketBytes(MessagesPacket(next.1.value, x.e.xorSalt.value));
      if |head| <= x.e.config.maxPacketSize {
        FillTimed(x.e.channels, x.e.config.maxPacketSize - |head|, Load([], []), watched, since);
      }
    }
  }

  lemma {:induction false} DeliverTimed(x: Node, y: Node, n: nat, u: int, watched: Option<Message>, since: real)
    requires PairOk(x, y, n) && CanArrive(x, y, n, u) && AllTimed(x.e.channels, watched, since)
    ensures AllTimed(Deliver(x, y.t.out[u], u).e.channels, watched, since)
    ensures Later(x.e.channels, Deliver(x, y.t.out[u], u).e.channels, 0.0)
  {
    hide Local, WellKept, OutKept, LooseOnce, Readable, Filed, DirectionOk, GoodChannel, AcceptPacket, ProcessAcks,
      AfterAcks, AcksOf, AckAll, ReceiveAll, Timely, Windowed, InboundAll, AllOutbound, NoteAll, NewestAll,
      ReceiveDatagram, Numbered, AllTimed;
    var p := y.t.out[u];
    assert Readable(p) by {
      ArrivalReadable(x, y, n, u);
    }
    if AcceptPacket(x.e.packets, p.header.id).Ok? {
      var s1 := AcceptPacket(x.e.packets, p.header.id).value;
      AcceptPacketReady(x.e, p.header.id);
      var ids := ProcessAcks(s1, AcksOf(p.header)).1;
      var _, d1, cs1, _ := TakeShape(x, y, n, u, s1, ids);
      AckAllTimed(x.e.dispatcher, x.e.channels, ids, watched, since);
      ReceiveTimed(d1, cs1, InboundAll(p.body.messages), watched, since);
      LaterTwice(x.e.channels, cs1, ReceiveAll(d1, cs1, InboundAll(p.body.messages)).1);
    } else {
      ReceiveShape(x.e, p);
    }
  }

  /** Clocks do not run backwards. */
  ghost predicate Forward(steps: seq<Step>) {
    forall k | 0 <= k < |steps| && steps[k].Time? :: 0.0 <= steps[k].dt
  }

  ghost function Ticks(side: Side, step: Step): real {
    if step.at == side && step.Time? then step.dt else 0.0
  }

  lemma {:induction false} StepTimed(w: World, n: nat, side: Side, step: Step, watched: Option<Message>, since: real)
    requires PairOk(w.At(side), w.Peer(side), n) && Possible(w, n, step) && (step.Time? ==> 0.0 <= step.dt)
    requires AllTimed(w.At(side).e.channels, watched, since)
    requires watched.Some? ==> watched.value.id < w.At(side).book.next
    ensures AllTimed(Next(w, n, step).At(side).e.channels, watched, since)
    ensures Later(w.At(side).e.channels, Next(w, n, step).At(side).e.channels, Ticks(side, step))
  {
    hide NodeOk, DirectionOk, CanPost, CanSend, CanArrive, Post, PackOne, Deliver, Ready, Sends, IsControl, NextHeader,
      RecordSent, WritePacket, QueuesOnce;
    var x, y := w.At(side), w.Peer(side);
    if step.at == side {
      match step {
        case Send(_, channel, payload) =>
          QueuesOf(x, y);
          PostTimed(x, n, channel, payload, watched, since);
        case Time(_, dt) =>
        case Pack(_) => PackTimed(x, watched, since);
        case Control(_, packet) =>
        case Arrive(_, u) => DeliverTimed(x, y, n, u, watched, since);
      }
    }
  }

  lemma {:induction false} RunTimed(w: World, n: nat, side: Side, steps: seq<Step>, w': World)
    requires PairOk(w.left, w.right, n) && Reaches(w, n, steps, w') && Forward(steps)
    requires AllTimed(w.At(side).e.channels, None, 0.0)
    ensures AllTimed(w'.At(side).e.channels, None, 0.0)
    decreases |steps|
  {
    hide PairOk, Possible, Next, AllTimed;
    if steps != [] {
      PairSwap(w.left, w.right, n);
      StepTimed(w, n, side, steps[0], None, 0.0);
      StepKeeps(w, n, steps[0]);
      RunTimed(Next(w, n, steps[0]), n, side, steps[1..], w');
    }
  }

  // -- waiting --

  /** Nothing happens on this side but the passing of time. */
  ghost predicate Waits(side: Side, steps: seq<Step>) {
    forall k | 0 <= k < |steps| && steps[k].at == side :: steps[k].Time?
  }

  ghost function Elapsed(side: Side, steps: seq<Step>): real
    decreases |steps|
  {
    if steps == [] then 0.0
    else Ticks(side, steps[0]) + Elapsed(side, steps[1..])
  }

  lemma {:induction false} WaitingOnlyAges(w: World, n: nat, side: Side, steps: seq<Step>, w': World)
    requires Reaches(w, n, steps, w') && Waits(side, steps)
    ensures w'.At(side).e.channels == TickAll(w.At(side).e.channels, Elapsed(side, steps))
    ensures w'.At(side) == w.At(side).(e := w.At(side).e.(channels := w'.At(side).e.channels))
    decreases |steps|
  {
    hide Possible, Post, PackOne, Deliver, Signal, Sends;
    var cs := w.At(side).e.channels;
    if steps == [] {
      assert TickAll(cs, 0.0) == cs;
    } else {
      WaitingOnlyAges(Next(w, n, steps[0]), n, side, steps[1..], w');
      var rest := Elapsed(side, steps[1..]);
      if steps[0].at == side {
        assert TickAll(TickAll(cs, steps[0].dt), rest) == TickAll(cs, steps[0].dt + rest);
      } else {
        assert Next(w, n, steps[0]).At(side) == w.At(side);
      }
    }
  }

  lemma {:induction false} QueuedPending(c: Channel, m: Message) returns (r: Resendable)
    requires c.Reliable? && m in Queued(c)
    ensures r in c.pending && r.message == m
  {
    var i :| 0 <= i < |Queued(c)| && Queued(c)[i] == m;
    MessagesOfAt(c.pending, i);
    r := c.pending[i];
  }

  lemma {:induction false} DueAfter(c: Channel, m: Message, dt: real)
    requires c.Reliable? && Timed(c, None, 0.0) && m in Queued(c) && c.resendTime <= dt
    ensures m in ReadyMessages(Channels.Tick(c, dt)) && AnyReady(Channels.Tick(c, dt))
  {
    var r := QueuedPending(c, m);
    ReadyOfExact(c.pending, c.time + dt, c.resendTime, r);
  }

  /** Sent again until acked: in every run whose clocks do not run backwards, a reliable message that
      no acked packet carried is due once the sender has waited for the resend time, whatever
      happens at the other end meanwhile. */
  lemma {:induction false} DueAgain(s: Setting, steps: seq<Step>, w: World, side: Side, id: u16, waiting: seq<Step>,
                                    w': World)
    requires Reachable(s, steps, w) && Forward(steps)
    requires id in w.At(side).book.table
    requires var x := w.At(side);
             var m := x.book.table[id];
             && m.channel < |x.e.channels| && x.e.channels[m.channel].Reliable?
             && m !in Carried(x.t.out, Done(x.t))
             && 0.1 <= Elapsed(side, waiting)
    requires Waits(side, waiting) && Reaches(w, s.n, waiting, w')
    ensures var m, cs := w.At(side).book.table[id], w'.At(side).e.channels;
            && m.channel < |cs| && m in ReadyMessages(cs[m.channel]) && FirstReady(cs) < |cs|
  {
    hide NodeOk, DirectionOk, Reaches, NewEndpoint, Timed, Queued, ReadyMessages, AnyReady, Elapsed, Waits, Carried;
    NewPairOk(s.left, s.right, s.n, s.fragMapLeft, s.fragMapRight, s.time, s.salt);
    assert AllTimed(Start(s).At(side).e.channels, None, 0.0) by {
      StartTimed(s, side);
    }
    RunTimed(Start(s), s.n, side, steps, w);
    ReliableRetained(s, steps, w, side, id);
    ResendTimeIs(w.At(side).e.channels, w.At(side).book.table[id].channel);
    WaitingOnlyAges(w, s.n, side, waiting, w');
    var m := w.At(side).book.table[id];
    DueAfter(w.At(side).e.channels[m.channel], m, Elapsed(side, waiting));
    SomeFirst(w'.At(side).e.channels, m.channel);
  }

  lemma {:induction false} StartTimed(s: Setting, side: Side)
    ensures AllTimed(Start(s).At(side).e.channels, None, 0.0)
  {
    hide NewRing;
  }

  lemma {:induction false} ResendTimeIs(cs: seq<Channel>, i: nat)
    requires AllTimed(cs, None, 0.0) && i < |cs| && cs[i].Reliable?
    ensures cs[i].resendTime == 0.1
  {
    assert Timed(cs[i], None, 0.0);
  }

  lemma {:induction false} SomeFirst(cs: seq<Channel>, i: nat)
    requires i < |cs| && AnyReady(cs[i])
    ensures FirstReady(cs) < |cs|
  {
    hide AnyReady;
    if !AnyReady(cs[0]) {
      SomeFirst(cs[1..], i - 1);
    }
  }

  // -- not before --

  lemma {:induction false} NotDueYet(c: Channel, m: Message, since: real)
    requires c.Reliable? && m.channel == c.id && Timed(c, Some(m), since) && c.time - since < c.resendTime
    ensures m !in ReadyMessages(c)
  {
    if m in ReadyMessages(c) {
      var r := ReadyOfMember(c.pending, c.time, c.resendTime, m);
    }
  }

  /** `m` was last sent no earlier than `since`, and no packet after `u` carries it. */
  ghost predicate Resting(x: Node, m: Message, since: real, u: int) {
    && m.channel < |x.e.channels| && x.e.channels[m.channel].Reliable?
    && AllTimed(x.e.channels, Some(m), since) && m.id < x.book.next
    && forall v | v in x.t.out && u < v :: m !in x.t.out[v].body.messages
  }

  lemma {:induction false} PackRests(x: Node, n: nat, m: Message, since: real, u: int)
    requires NodeOk(x, n) && CanSend(x, n) && QueuesOnce(x.book, x.e.channels) && Resting(x, m, since, u)
    requires x.e.channels[m.channel].time - since < x.e.channels[m.channel].resendTime
    ensures forall v | v in PackOne(x).t.out && u < v :: m !in PackOne(x).t.out[v].body.messages
  {
    hide ComposeOne, Local, WellKept, OutKept, LooseOnce, AllReadable, Readable, Filed, HandlesFor, GoodChannels,
      QueuesOnce, Wrap, SetHandles, Shrinks, NextHeader, Timed, ReadyMessages, SentNext, Stamped;
    if ComposeOne(x.e).1.Ok? {
      var x', p, load := ComposeShape(x, n);
      assert Timed(x.e.channels[m.channel], Some(m), since);
      NotDueYet(x.e.channels[m.channel], m, since);
    } else {
      ComposeFails(x, n);
    }
  }

  lemma {:induction false} DeliverSame(x: Node, y: Node, n: nat, u: int)
    requires PairOk(x, y, n) && CanArrive(x, y, n, u)
    ensures Deliver(x, y.t.out[u], u).t.out == x.t.out && Deliver(x, y.t.out[u], u).book == x.book
  {
    hide NodeOk, DirectionOk, AcceptPacket, ReceiveDatagram, AfterAcks, AcksOf, NoteAll, NewestAll, Timely, Windowed,
      GoodChannels;
    PairReady(x, y, n);
    if AcceptPacket(x.e.packets, y.t.out[u].header.id).Ok? {
      SameOut(x, y, n, u);
    }
  }

  lemma {:induction false} StepRests(w: World, n: nat, side: Side, step: Step, m: Message, since: real, u: int)
    requires PairOk(w.At(side), w.Peer(side), n) && Possible(w, n, step) && (step.Time? ==> 0.0 <= step.dt)
    requires Resting(w.At(side), m, since, u)
    requires var c := w.At(side).e.channels[m.channel]; c.time - since < c.resendTime
    ensures Resting(Next(w, n, step).At(side), m, since, u)
    ensures var c, c' := w.At(side).e.channels[m.channel], Next(w, n, step).At(side).e.channels[m.channel];
            c'.time == c.time + Ticks(side, step) && c'.resendTime == c.resendTime
  {
    hide NodeOk, DirectionOk, CanSend, CanArrive, PackOne, Deliver, Ready, Sends, IsControl, NextHeader, RecordSent,
      WritePacket, QueuesOnce, AllTimed, SendMessage, TickAll;
    var x, y := w.At(side), w.Peer(side);
    StepTimed(w, n, side, step, Some(m), since);
    KindLater(x.e.channels, Next(w, n, step).At(side).e.channels, Ticks(side, step), m.channel);
    if step.at == side {
      match step {
        case Send(_, channel, payload) =>
          if Takes(x.e, channel, payload) {
            PostBook(x.book, channel, payload);
          }
        case Time(_, dt) =>
        case Pack(_) =>
          QueuesOf(x, y);
          PackRests(x, n, m, since, u);
          PackBook(x);
        case Control(_, packet) =>
        case Arrive(_, v) => DeliverSame(x, y, n, v);
      }
    }
  }

  lemma {:induction false} KindLater(cs: seq<Channel>, cs': seq<Channel>, dt: real, i: nat)
    requires Later(cs, cs', dt) && i < |cs|
    ensures |cs'| == |cs| && LaterOne(cs[i], cs'[i], dt)
  {
  }

  lemma {:induction false} PackBook(x: Node)
    requires Ready(x.e) && x.e.xorSalt.Some?
    ensures PackOne(x).book == x.book
  {
    hide ComposeOne, HandlesFor;
  }

  lemma {:induction false} RunRests(w: World, n: nat, side: Side, steps: seq<Step>, w': World, m: Message, since: real,
                                    u: int)
    requires PairOk(w.left, w.right, n) && Reaches(w, n, steps, w') && Forward(steps)
    requires Resting(w.At(side), m, since, u)
    requires var c := w.At(side).e.channels[m.channel]; c.time - since + Elapsed(side, steps) < c.resendTime
    ensures Resting(w'.At(side), m, since, u)
    ensures var c, c' := w.At(side).e.channels[m.channel], w'.At(side).e.channels[m.channel];
            c'.time == c.time + Elapsed(side, steps) && c'.resendTime == c.resendTime
    decreases |steps|
  {
    hide NodeOk, DirectionOk, Possible, Next, AllTimed;
    if steps != [] {
      ElapsedForward(side, steps[1..]);
      PairSwap(w.left, w.right, n);
      StepRests(w, n, side, steps[0], m, since, u);
      StepKeeps(w, n, steps[0]);
      RunRests(Next(w, n, steps[0]), n, side, steps[1..], w', m, since, u);
    }
  }

  lemma {:induction false} ElapsedForward(side: Side, steps: seq<Step>)
    requires Forward(steps)
    ensures 0.0 <= Elapsed(side, steps)
    decreases |steps|
  {
    if steps != [] {
      ElapsedForward(side, steps[1..]);
    }
  }

  /** A packet that has just been packed leaves its reliable messages at rest. */
  lemma {:induction false} JustSentRests(x: Node, n: nat, m: Message)
    requires NodeOk(x, n) && CanSend(x, n) && QueuesOnce(x.book, x.e.channels) && AllTimed(x.e.channels, None, 0.0)
    requires ComposeOne(x.e).1.Ok? && m in ComposeOne(x.e).1.value.messages
    requires m.channel < |x.e.channels| && x.e.channels[m.channel].Reliable?
    ensures var x', c := PackOne(x), x.e.channels[m.channel];
            && Resting(x', m, c.time, x.t.sequenceU + 1)
            && x'.e.channels[m.channel].time == c.time && x'.e.channels[m.channel].resendTime == c.resendTime
  {
    hide ComposeOne, Local, OutKept, LooseOnce, AllReadable, Readable, Filed, HandlesFor, GoodChannels, WellKept,
      QueuesOnce, Wrap, SetHandles, Shrinks, NextHeader, ReadyMessages, SentNext, Timed, Stamped;
    var x', p, load := ComposeShape(x, n);
    PackTimed(x, None, 0.0);
    assert x'.t.out[x.t.sequenceU + 1].body.messages == p.messages == ComposeOne(x.e).1.value.messages;
    var c := x.e.channels[m.channel];
    KindLater(x.e.channels, x'.e.channels, 0.0, m.channel);
    OutBelowSent(x, n);
    MessageOld(x.book, p.messages, m);
    forall i | 0 <= i < |x'.e.channels|
      ensures Timed(x'.e.channels[i], Some(m), c.time)
    {
      assert Timed(x'.e.channels[i], None, 0.0);
      WatchStamped(x'.e.channels[i], m, c.time);
    }
  }

  lemma {:induction false} OutBelowSent(x: Node, n: nat)
    requires NodeOk(x, n)
    ensures forall v | v in x.t.out :: v <= x.t.sequenceU
    ensures WellKept(x.book) && Numbered(x.e.channels)
  {
    hide WellKept, OutKept, LooseOnce, AllReadable, Filed, Local;
    OutBelow(x.e.packets, x.t, n);
  }

  lemma {:induction false} MessageOld(b: Book, ms: seq<Message>, m: Message)
    requires WellKept(b) && MessagesKept(b, ms) && m in ms
    ensures m.id < b.next
  {
    hide WellKept;
    var k :| 0 <= k < |ms| && ms[k] == m;
    TableId(b, m.id);
  }

  lemma {:induction false} WatchStamped(c: Channel, m: Message, since: real)
    requires Timed(c, None, 0.0)
    requires m.channel == c.id ==> Stamped(c, m) && c.time == since
    ensures Timed(c, Some(m), since)
  {
  }

  /** A reliable message is not sent again too early: after a round of the packet loop that sent it,
      whatever both ends do and the network delivers, as long as less than the resend time passes, the
      message is not due and no packet after that one carries it. */
  lemma {:induction false} NotSentAgainYet(s: Setting, steps: seq<Step>, w: World, side: Side, m: Message,
                                           more: seq<Step>, w': World)
    requires Reachable(s, steps, w) && Forward(steps)
    requires Possible(w, s.n, Pack(side)) && Sends(w.At(side).e)
    requires var x := w.At(side);
             && ComposeOne(x.e).1.Ok? && m in ComposeOne(x.e).1.value.messages
             && m.channel < |x.e.channels| && x.e.channels[m.channel].Reliable?
             && Elapsed(side, more) < 0.1
    requires Reaches(Next(w, s.n, Pack(side)), s.n, more, w') && Forward(more)
    ensures var u, cs := w.At(side).t.sequenceU + 1, w'.At(side).e.channels;
            && m.channel < |cs| && m !in ReadyMessages(cs[m.channel])
            && forall v | v in w'.At(side).t.out && u < v :: m !in w'.At(side).t.out[v].body.messages
  {
    hide NodeOk, DirectionOk, Reaches, NewEndpoint, Timed, Queued, ReadyMessages, Elapsed, ComposeOne, Ready, CanSend,
      PackOne, FirstReady, SentUnacked;
    NewPairOk(s.left, s.right, s.n, s.fragMapLeft, s.fragMapRight, s.time, s.salt);
    StartTimed(s, side);
    RunTimed(Start(s), s.n, side, steps, w);
    AlwaysPaired(s, steps, w, side);
    var x, w1 := w.At(side), Next(w, s.n, Pack(side));
    QueuesOf(x, w.Peer(side));
    JustSentRests(x, s.n, m);
    ResendTimeIs(x.e.channels, m.channel);
    PairSwap(w.left, w.right, s.n);
    StepKeeps(w, s.n, Pack(side));
    var since := x.e.channels[m.channel].time;
    RunRests(w1, s.n, side, more, w', m, since, x.t.sequenceU + 1);
    RestsDue(w'.At(side), w'.Peer(side), s.n, m, since, x.t.sequenceU + 1) by {
      RunKeeps(w1, s.n, more, w');
      PairSwap(w'.left, w'.right, s.n);
    }
  }

  lemma {:induction false} RestsDue(x: Node, y: Node, n: nat, m: Message, since: real, u: int)
    requires PairOk(x, y, n) && Resting(x, m, since, u)
    requires x.e.channels[m.channel].time - since < x.e.channels[m.channel].resendTime
    ensures m !in ReadyMessages(x.e.channels[m.channel])
  {
    hide DirectionOk, Local, WellKept, OutKept, LooseOnce, AllReadable, Filed, Timed, ReadyMessages;
    assert Timed(x.e.channels[m.channel], Some(m), since);
    NotDueYet(x.e.channels[m.channel], m, since);
  }

  /** Due again exactly when the resend time has passed: a reliable message that was just sent, while no
      packet that carried it has been acked and its sender only waits. */
  lemma {:induction false} DueAgainIff(s: Setting, steps: seq<Step>, w: World, side: Side, m: Message, more: seq<Step>,
                                       w': World)
    requires Reachable(s, steps, w) && Forward(steps)
    requires Possible(w, s.n, Pack(side)) && Sends(w.At(side).e)
    requires var x := w.At(side);
             && ComposeOne(x.e).1.Ok? && m in ComposeOne(x.e).1.value.messages
             && m.channel < |x.e.channels| && x.e.channels[m.channel].Reliable?
    requires var w1 := Next(w, s.n, Pack(side));
             && m !in Carried(w1.At(side).t.out, Done(w1.At(side).t))
             && Reaches(w1, s.n, more, w') && Waits(side, more) && Forward(more)
    ensures var cs' := w'.At(side).e.channels;
            && m.channel < |cs'|
            && (m in ReadyMessages(cs'[m.channel]) <==> 0.1 <= Elapsed(side, more))
  {
    hide NodeOk, DirectionOk, Reaches, NewEndpoint, Timed, Queued, ReadyMessages, Elapsed, ComposeOne, Ready, CanSend,
      PackOne, FirstReady, SentUnacked, Carried, Done, Waits;
    var x, w1 := w.At(side), Next(w, s.n, Pack(side));
    if Elapsed(side, more) < 0.1 {
      NotSentAgainYet(s, steps, w, side, m, more, w');
    } else {
      AlwaysPaired(s, steps, w, side);
      QueuesOf(x, w.Peer(side));
      NewPairOk(s.left, s.right, s.n, s.fragMapLeft, s.fragMapRight, s.time, s.salt);
      StartTimed(s, side);
      RunTimed(Start(s), s.n, side, steps, w);
      JustSentRests(x, s.n, m);
      ReachesOn(Start(s), s.n, steps, w, Pack(side));
      ForwardOn(steps, Pack(side));
      JustSentTable(x, s.n, m);
      DueAgain(s, steps + [Pack(side)], w1, side, m.id, more, w');
    }
  }

  lemma {:induction false} ForwardOn(steps: seq<Step>, step: Step)
    requires Forward(steps) && !step.Time?
    ensures Forward(steps + [step])
  {
  }

  lemma {:induction false} JustSentTable(x: Node, n: nat, m: Message)
    requires NodeOk(x, n) && CanSend(x, n) && QueuesOnce(x.book, x.e.channels)
    requires ComposeOne(x.e).1.Ok? && m in ComposeOne(x.e).1.value.messages
    ensures m.id in PackOne(x).book.table && PackOne(x).book.table[m.id] == m
  {
    hide ComposeOne, Local, OutKept, LooseOnce, AllReadable, Readable, Filed, HandlesFor, GoodChannels, WellKept,
      QueuesOnce, Wrap, SetHandles, Shrinks, NextHeader, ReadyMessages, SentNext, Stamped;
    var x', p, load := ComposeShape(x, n);
    assert x'.t.out[x.t.sequenceU + 1].body.messages == p.messages == ComposeOne(x.e).1.value.messages;
    var k :| 0 <= k < |p.messages| && p.messages[k] == m;
    assert InTable(x.book, p.messages[k], p.messages[k].channel);
  }
}
