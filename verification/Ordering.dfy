/** In what order messages travel: they are queued in the order in which they were posted, a packet
    carries those of one channel in that order, and what a packet completes is handed on in the order
    in which the packet carries it. */
module Ordering {
  import opened Words
  import opened SequenceBuffers
  import opened Messages
  import opened Packets
  import opened Channels
  import opened Reassembler
  import opened Dispatchers
  import opened PacketLayer
  import opened PacketInvariants
  import opened Endpoints
  import opened MessageBooks
  import opened Deliveries
  import opened Acknowledging
  import opened Transmitting
  import opened Nodes
  import opened Posting
  import opened Departing
  import opened Arriving
  import opened Network
  import Draining

  // -- the queues --

  ghost predicate Ascending(ms: seq<Message>) {
    forall i, j | 0 <= i < j < |ms| :: ms[i].id < ms[j].id
  }

  ghost predicate AllAscending(cs: seq<Channel>) {
    forall i | 0 <= i < |cs| :: Ascending(Queued(cs[i]))
  }

  lemma {:induction false} EnqueueAscends(c: Channel, id: u16, payload: bytes, fragment: Option<Fragment>)
    requires Sendable(c.id, payload, fragment)
    requires Ascending(Queued(c)) && QueueBelow(Queued(c), id)
    ensures Ascending(Queued(Enqueue(c, id, payload, fragment)))
    ensures QueueBelow(Queued(Enqueue(c, id, payload, fragment)), id + 1)
  {
    hide Queued, Enqueue;
    EnqueueAppends(c, id, payload, fragment);
    var q, m := Queued(c), NewOutbound(id, c.id, payload, fragment);
    forall i, j | 0 <= i < j < |q + [m]|
      ensures (q + [m])[i].id < (q + [m])[j].id
    {
      if j == |q| {
        assert q[i] in q;
      }
    }
  }

  lemma {:induction false} FragmentsAscend(c: Channel, payload: bytes, parent: u16, i: nat)
    requires FRAGMENT_SIZE < |payload| <= MAX_PAYLOAD && i <= NumFragments(|payload|) && c.id < 64
    requires parent + NumFragments(|payload|) <= 65536
    requires Ascending(Queued(c)) && QueueBelow(Queued(c), parent + i)
    ensures Ascending(Queued(EnqueueFragments(c, payload, parent, i)))
    decreases NumFragments(|payload|) - i
  {
    hide NumFragments, Slice, NewOutbound, Enqueue, Queued, Ascending, QueueBelow;
    if i < NumFragments(|payload|) {
      FragmentSendable(c.id, payload, parent, i);
      WrapSmall(parent + i);
      var fragment := Some(FragmentAt(payload, parent, i));
      EnqueueAscends(c, WrapAdd(parent, i), Slice(payload, i), fragment);
      EnqueueId(c, WrapAdd(parent, i), Slice(payload, i), fragment);
      FragmentsAscend(Enqueue(c, WrapAdd(parent, i), Slice(payload, i), fragment), payload, parent, i + 1);
    }
  }

  lemma {:induction false} EnqueueId(c: Channel, id: u16, payload: bytes, fragment: Option<Fragment>)
    requires Sendable(c.id, payload, fragment)
    ensures Enqueue(c, id, payload, fragment).id == c.id
  {
  }

  lemma {:induction false} AddAscends(d: Dispatcher, c: Channel, payload: bytes)
    requires d.Valid() && c.id < 64 && |payload| <= MAX_PAYLOAD
    requires d.nextMessageId + IdsFor(payload) <= 65536
    requires Ascending(Queued(c)) && QueueBelow(Queued(c), d.nextMessageId)
    ensures Ascending(Queued(AddMessage(d, c, payload).1))
  {
    hide EnqueueFragments, NewOutbound, Enqueue, Queued, Ascending, QueueBelow;
    if |payload| > FRAGMENT_SIZE {
      FragmentsAscend(c, payload, d.nextMessageId, 0);
    } else {
      EnqueueAscends(c, d.nextMessageId, payload, None);
    }
  }

  lemma {:induction false} TakeAscends(c: Channel, room: nat)
    requires Ascending(Queued(c))
    ensures Ascending(Queued(Take(c, room).0))
  {
    var i := TakesFirst(c, room);
    if c.Reliable? && i < |c.pending| {
      MessagesOfUpdate(c.pending, i, Resendable(c.pending[i].message, Some(c.time)));
    }
  }

  lemma {:induction false} WriteAscends(c: Channel, room: nat)
    requires GoodChannel(c) && Ascending(Queued(c))
    ensures Ascending(Queued(WriteChannel(c, room).0))
    decreases ReadyCount(c)
  {
    hide ReadyCount, Shrinks, Take, Ascending, Queued;
    var c', m, left := WriteChannelStep(c, room);
    TakeAscends(c, room);
    if m.Some? {
      WriteAscends(c', left);
    }
  }

  lemma {:induction false} FillAscends(cs: seq<Channel>, room: nat, load: Load)
    requires GoodChannels(cs) && AllAscending(cs)
    ensures AllAscending(Fill(cs, room, load).0)
    decreases TotalReady(cs)
  {
    hide Fill, WriteChannel, Shrinks, Ascending, Queued, GoodChannel;
    var i, c, ms, left := FillTurn(cs, room, load);
    if ms != [] {
      WriteAscends(cs[i], room);
      if left >= 3 {
        FillAscends(cs[i := c], left, load.Add(ms, c.id));
      }
    }
  }

  lemma {:induction false} AscendingCons(x: Message, ms: seq<Message>)
    ensures Ascending([x] + ms) <==> Ascending(ms) && forall m | m in ms :: x.id < m.id
  {
    var all := [x] + ms;
    if Ascending(all) {
      forall i, j | 0 <= i < j < |ms|
        ensures ms[i].id < ms[j].id
      {
        assert all[i + 1].id < all[j + 1].id;
      }
      forall m | m in ms
        ensures x.id < m.id
      {
        var k :| 0 <= k < |ms| && ms[k] == m;
        assert all[0].id < all[k + 1].id;
      }
    }
  }

  lemma {:induction false} RetainAscends(pending: seq<Resendable>, h: Handle)
    requires Ascending(MessagesOf(pending))
    ensures Ascending(MessagesOf(Retain(pending, h)))
    ensures forall m | m in MessagesOf(Retain(pending, h)) :: m in MessagesOf(pending)
  {
    hide Ascending;
    if pending != [] {
      var rest := Retain(pending[1..], h);
      AscendingCons(pending[0].message, MessagesOf(pending[1..]));
      RetainAscends(pending[1..], h);
      AscendingCons(pending[0].message, MessagesOf(rest));
      assert ([pending[0]] + rest)[1..] == rest;
    }
  }

  lemma {:induction false} AckAscends(c: Channel, h: Handle)
    requires Ascending(Queued(c))
    ensures Ascending(Queued(AckReceived(c, h)))
  {
    if c.Reliable? {
      RetainAscends(c.pending, h);
    }
  }

  lemma {:induction false} AckHandlesAscend(d: Dispatcher, cs: seq<Channel>, hs: seq<Handle>)
    requires d.Valid() && AllAscending(cs)
    ensures AllAscending(AckHandles(d, cs, hs).1)
    decreases |hs|
  {
    hide Ascending, Queued, AckReceived, Push, AckFragment;
    if hs != [] {
      var i := IndexOfChannel(cs, hs[0].channel);
      if i < |cs| {
        AckAscends(cs[i], hs[0]);
      }
      AckHandleValid(d, cs, hs[0]);
      var (d1, cs1) := AckHandle(d, cs, hs[0]);
      AckHandlesAscend(d1, cs1, hs[1..]);
    }
  }

  lemma {:induction false} AckAllAscend(d: Dispatcher, cs: seq<Channel>, ids: seq<u16>)
    requires d.Valid() && AllAscending(cs)
    ensures AllAscending(AckAll(d, cs, ids).1)
    decreases |ids|
  {
    hide AllAscending, AckHandles;
    if ids != [] {
      if d.inPackets.Get(ids[0]).Some? {
        AckHandlesAscend(d.(inPackets := d.inPackets.Remove(ids[0], [])), cs, d.inPackets.Get(ids[0]).value);
      }
      AckPacketValid(d, cs, ids[0]);
      var (d1, cs1) := AckPacket(d, cs, ids[0]);
      AckAllAscend(d1, cs1, ids[1..]);
    }
  }

  lemma {:induction false} SeenAscends(c: Channel, m: Message)
    requires c.seen.Valid()
    ensures Queued(Accept(c, m).0) == Queued(c)
  {
  }

  lemma {:induction false} ReceiveAscends(d: Dispatcher, cs: seq<Channel>, ms: seq<Message>)
    requires GoodChannels(cs) && AllAscending(cs)
    ensures AllAscending(ReceiveAll(d, cs, ms).1)
    decreases |ms|
  {
    hide Accept, ProcessReceived, Ascending, Queued;
    if ms != [] {
      ReceiveOneGood(d, cs, ms[0]);
      var i := IndexOfChannel(cs, ms[0].channel);
      if i < |cs| {
        assert GoodChannel(cs[i]);
        SeenAscends(cs[i], ms[0]);
      }
      ReceiveAscends(ReceiveOne(d, cs, ms[0]).0, ReceiveOne(d, cs, ms[0]).1, ms[1..]);
    }
  }

  // -- the steps --

  lemma {:induction false} PostAscends(x: Node, n: nat, channel: u8, payload: bytes)
    requires NodeOk(x, n) && QueuesOnce(x.book, x.e.channels)
    requires CanPost(x, channel, payload) && AllAscending(x.e.channels)
    ensures AllAscending(Post(x, channel, payload).e.channels)
  {
    hide AddMessage, AfterPost, SentUnacked, NodeOk, Ascending, Queued, QueuedOnce;
    if Takes(x.e, channel, payload) {
      PostNodeOk(x, n, channel, payload);
      assert GoodChannel(x.e.channels[channel]) && QueuedOnce(x.book, x.e.channels[channel]);
      NodeBelow(x, n, channel);
      AddAscends(x.e.dispatcher, x.e.channels[channel], payload);
    }
  }

  lemma {:induction false} NodeBelow(x: Node, n: nat, i: nat)
    requires NodeOk(x, n) && i < |x.e.channels| && QueuedOnce(x.book, x.e.channels[i])
    ensures QueueBelow(Queued(x.e.channels[i]), x.book.next)
  {
    hide Local, WellKept, OutKept, LooseOnce, AllReadable, Filed, Queued, Once, QueueBelow;
    KeptBelow(x.book, Queued(x.e.channels[i]), x.e.channels[i].id);
  }

  lemma {:induction false} PackAscends(x: Node)
    requires Ready(x.e) && x.e.xorSalt.Some? && AllAscending(x.e.channels)
    ensures AllAscending(PackOne(x).e.channels)
  {
    hide NextHeader, PacketBytes, Fill, AllAscending, RecordSent, SetHandles, Coalesce, HandlesFor, GoodChannel;
    var next := NextHeader(x.e.packets, MessagesType);
    NextHeaderId(x.e.packets, MessagesType);
    if next.1.Ok? {
      var head := PacketBytes(MessagesPacket(next.1.value, x.e.xorSalt.value));
      if |head| <= x.e.config.maxPacketSize {
        FillAscends(x.e.channels, x.e.config.maxPacketSize - |head|, Load([], []));
      }
    }
  }

  lemma {:induction false} DeliverAscends(x: Node, y: Node, n: nat, u: int)
    requires PairOk(x, y, n) && CanArrive(x, y, n, u) && AllAscending(x.e.channels)
    ensures AllAscending(Deliver(x, y.t.out[u], u).e.channels)
  {
    hide Local, WellKept, OutKept, LooseOnce, Readable, Filed, DirectionOk, GoodChannel, AcceptPacket, ProcessAcks,
      AfterAcks, AcksOf, AckAll, ReceiveAll, Timely, Windowed, InboundAll, AllOutbound, NoteAll, NewestAll,
      ReceiveDatagram, Numbered, AllAscending;
    var p := y.t.out[u];
    assert Readable(p) by {
      ArrivalReadable(x, y, n, u);
    }
    if AcceptPacket(x.e.packets, p.header.id).Ok? {
      var s1 := AcceptPacket(x.e.packets, p.header.id).value;
      AcceptPacketReady(x.e, p.header.id);
      var ids := ProcessAcks(s1, AcksOf(p.header)).1;
      var _, d1, cs1, _ := TakeShape(x, y, n, u, s1, ids);
      AckAllAscend(x.e.dispatcher, x.e.channels, ids);
      ReceiveAscends(d1, cs1, InboundAll(p.body.messages));
    } else {
      ReceiveShape(x.e, p);
    }
  }

  lemma {:induction false} TickAscends(cs: seq<Channel>, dt: real)
    requires AllAscending(cs)
    ensures AllAscending(TickAll(cs, dt))
  {
    forall i | 0 <= i < |cs|
      ensures Queued(TickAll(cs, dt)[i]) == Queued(cs[i])
    {
    }
  }

  lemma {:induction false} StepAscends(w: World, n: nat, side: Side, step: Step)
    requires PairOk(w.At(side), w.Peer(side), n) && Possible(w, n, step)
    requires AllAscending(w.At(side).e.channels)
    ensures AllAscending(Next(w, n, step).At(side).e.channels)
  {
    hide NodeOk, DirectionOk, CanPost, CanSend, CanArrive, Post, PackOne, Deliver, Ready, Sends, IsControl, NextHeader,
      RecordSent, WritePacket, QueuesOnce, AllAscending, TickAll;
    var x, y := w.At(side), w.Peer(side);
    if step.at == side {
      match step {
        case Send(_, channel, payload) =>
          QueuesOf(x, y);
          PostAscends(x, n, channel, payload);
        case Time(_, dt) => TickAscends(x.e.channels, dt);
        case Pack(_) => PackAscends(x);
        case Control(_, packet) =>
        case Arrive(_, u) => DeliverAscends(x, y, n, u);
      }
    }
  }

  lemma {:induction false} RunAscends(w: World, n: nat, side: Side, steps: seq<Step>, w': World)
    requires PairOk(w.left, w.right, n) && Reaches(w, n, steps, w')
    requires AllAscending(w.At(side).e.channels)
    ensures AllAscending(w'.At(side).e.channels)
    decreases |steps|
  {
    hide PairOk, Possible, Next, AllAscending;
    if steps != [] {
      PairSwap(w.left, w.right, n);
      StepAscends(w, n, side, steps[0]);
      StepKeeps(w, n, steps[0]);
      RunAscends(Next(w, n, steps[0]), n, side, steps[1..], w');
    }
  }

  /** In every run, every queue is in the order in which its messages were posted, fragments in the order
      of their places. */
  lemma {:induction false} QueuesInOrder(s: Setting, steps: seq<Step>, w: World, side: Side)
    requires Reachable(s, steps, w)
    ensures AllAscending(w.At(side).e.channels)
  {
    hide NodeOk, DirectionOk, Reaches, NewEndpoint, Ascending, Queued;
    NewPairOk(s.left, s.right, s.n, s.fragMapLeft, s.fragMapRight, s.time, s.salt);
    StartAscends(s, side);
    RunAscends(Start(s), s.n, side, steps, w);
  }

  lemma {:induction false} StartAscends(s: Setting, side: Side)
    ensures AllAscending(Start(s).At(side).e.channels)
  {
    hide NewRing;
  }

  // -- packets --

  /** Messages of one channel in the order of their ids. */
  ghost predicate InOrder(ms: seq<Message>) {
    forall i, j | 0 <= i < j < |ms| && ms[i].channel == ms[j].channel :: ms[i].id < ms[j].id
  }

  /** Whatever the channel can still give up comes after what it gave before. */
  ghost predicate Onward(c: Channel, room: nat, before: seq<Message>) {
    forall k, m | 0 <= k < |Queued(c)| && Eligible(c, k, room) && m in before && m.channel == c.id ::
      m.id < Queued(c)[k].id
  }

  ghost function FirstOf(c: Channel, room: nat): nat {
    match c
    case Unreliable(_, _, _, q) => FirstFitting(q, room)
    case Reliable(_, now, _, pending, resendTime) => FirstTakable(pending, now, resendTime, room)
  }

  lemma {:induction false} RemoveAtIndex(q: seq<Message>, i: nat, k: nat)
    requires i < |q|
    ensures |RemoveAt(q, i)| == |q| - 1
    ensures k < |q| - 1 ==> RemoveAt(q, i)[k] == q[if k < i then k else k + 1]
  {
    RemoveAtIs(q, i);
  }

  lemma {:induction false} LeftUnreliable(c: Channel, room: nat, left: nat, k: nat)
    requires c.Unreliable? && left <= room && FirstOf(c, room) < |Queued(c)|
    requires k < |Queued(Take(c, room).0)| && Eligible(Take(c, room).0, k, left)
    ensures FirstOf(c, room) < k + 1 < |Queued(c)| && Queued(Take(c, room).0)[k] == Queued(c)[k + 1]
    ensures Eligible(c, k + 1, room)
  {
    hide FirstFitting, RemoveAt, Message.Size;
    RemoveAtIndex(c.q, FirstFitting(c.q, room), k);
    if k < FirstFitting(c.q, room) {
      NothingFitsBefore(c.q, room, k);
    }
  }

  lemma {:induction false} LeftReliable(c: Channel, room: nat, left: nat, k: nat)
    requires c.Reliable? && 0.0 < c.resendTime && left <= room && FirstOf(c, room) < |Queued(c)|
    requires k < |Queued(Take(c, room).0)| && Eligible(Take(c, room).0, k, left)
    ensures FirstOf(c, room) < k < |Queued(c)| && Queued(Take(c, room).0)[k] == Queued(c)[k]
    ensures Eligible(c, k, room)
  {
    hide FirstTakable, Message.Size, MessagesOf;
    var i := FirstTakable(c.pending, c.time, c.resendTime, room);
    MessagesOfUpdate(c.pending, i, c.pending[i].(lastSent := Some(c.time)));
    if k < i {
      FirstTakableExact(c.pending, c.time, c.resendTime, room, k);
    }
  }

  /** What the channel can still give up after an entry was taken, it could have given up before, from
      behind that entry. */
  lemma {:induction false} LeftBehind(c: Channel, room: nat, left: nat, k: nat)
    requires GoodChannel(c) && left <= room && FirstOf(c, room) < |Queued(c)|
    requires k < |Queued(Take(c, room).0)| && Eligible(Take(c, room).0, k, left)
    ensures var j := if c.Unreliable? then k + 1 else k;
            FirstOf(c, room) < j < |Queued(c)| && Queued(Take(c, room).0)[k] == Queued(c)[j] && Eligible(c, j, room)
  {
    hide Queued, Take, Eligible, FirstOf;
    if c.Unreliable? {
      LeftUnreliable(c, room, left, k);
    } else {
      LeftReliable(c, room, left, k);
    }
  }

  lemma {:induction false} TakenIs(c: Channel, room: nat)
    ensures FirstOf(c, room) <= |Queued(c)|
    ensures match Take(c, room)
            case (c', Some(x)) =>
              var i := FirstOf(c, room);
              c'.id == c.id && i < |Queued(c)| && x == Queued(c)[i] && Eligible(c, i, room)
            case (c', None) => c' == c
  {
    if c.Reliable? && FirstOf(c, room) < |c.pending| {
      MessagesOfAt(c.pending, FirstOf(c, room));
    }
  }

  lemma {:induction false} TakeOnward(c: Channel, room: nat, left: nat, before: seq<Message>)
    requires GoodChannel(c) && Ascending(Queued(c)) && Onward(c, room, before) && left <= room
    ensures match Take(c, room)
            case (c', Some(x)) =>
              && (forall m | m in before && m.channel == c.id :: m.id < x.id)
              && Onward(c', left, before + [x])
            case (c', None) => c' == c
  {
    hide Take, Eligible, FirstOf, Queued;
    TakenIs(c, room);
    var (c', x) := Take(c, room);
    if x.Some? {
      forall k, m | 0 <= k < |Queued(c')| && Eligible(c', k, left) && m in before + [x.value] && m.channel == c'.id
        ensures m.id < Queued(c')[k].id
      {
        LeftBehind(c, room, left, k);
      }
    }
  }

  lemma {:induction false} WriteOnward(b: Book, c: Channel, room: nat, before: seq<Message>)
    requires GoodChannel(c) && QueuedOnce(b, c) && Ascending(Queued(c)) && Onward(c, room, before) && InOrder(before)
    ensures var (c', ms) := WriteChannel(c, room);
            && MessageBytes(ms) <= room && InOrder(before + ms)
            && Onward(c', room - MessageBytes(ms), before + ms)
    decreases ReadyCount(c)
  {
    hide ReadyCount, Shrinks, Take, Queued, Onward, Ascending, Once, Eligible;
    var c', m, left := WriteChannelStep(c, room);
    WriteChannelShrinks(c, room);
    TakeOnward(c, room, left, before);
    if m.Some? {
      TakeAscends(c, room);
      ShrinksKept(b, c, c');
      OwnChannel(b, c, m.value);
      AppendInOrder(before, m.value);
      WriteOnward(b, c', left, before + [m.value]);
      var ms := WriteChannel(c', left).1;
      assert before + [m.value] + ms == before + ([m.value] + ms);
      assert ([m.value] + ms)[1..] == ms;
    } else {
      assert before + [] == before;
    }
  }

  lemma {:induction false} OwnChannel(b: Book, c: Channel, m: Message)
    requires QueuedOnce(b, c) && m in Queued(c)
    ensures m.channel == c.id
  {
    var k :| 0 <= k < |Queued(c)| && Queued(c)[k] == m;
    assert InTable(b, Queued(c)[k], c.id);
  }

  lemma {:induction false} AppendInOrder(ms: seq<Message>, x: Message)
    requires InOrder(ms) && forall m | m in ms && m.channel == x.channel :: m.id < x.id
    ensures InOrder(ms + [x])
  {
  }

  ghost predicate AllOnward(cs: seq<Channel>, room: nat, before: seq<Message>) {
    forall i | 0 <= i < |cs| :: Onward(cs[i], room, before)
  }

  lemma {:induction false} OnwardOther(c: Channel, room: nat, left: nat, before: seq<Message>, ms: seq<Message>)
    requires Onward(c, room, before) && left <= room && forall m | m in ms :: m.channel != c.id
    ensures Onward(c, left, before + ms)
  {
    forall k | 0 <= k < |Queued(c)| && Eligible(c, k, left)
      ensures Eligible(c, k, room)
    {
    }
  }

  lemma {:induction false} FillInOrder(b: Book, cs: seq<Channel>, room: nat, load: Load)
    requires GoodChannels(cs) && Numbered(cs) && QueuesOnce(b, cs) && AllAscending(cs)
    requires AllOnward(cs, room, load.messages) && InOrder(load.messages)
    ensures InOrder(Fill(cs, room, load).1.messages)
    decreases TotalReady(cs)
  {
    hide Fill, WriteChannel, QueuedOnce, GoodChannel, Shrinks, Take, Queued, Onward, InOrder, Ascending, Eligible;
    var i, c, ms, left := FillTurn(cs, room, load);
    if ms != [] {
      assert QueuedOnce(b, cs[i]) && GoodChannel(cs[i]) && Onward(cs[i], room, load.messages);
      UpdateKeepsQueues(b, cs, i, c);
      WriteOnward(b, cs[i], room, load.messages);
      WriteAscends(cs[i], room);
      AddMessages(load, ms, c.id);
      if left >= 3 {
        QueuedOnceKept(b, cs[i]);
        WrittenKept(b, cs[i], room);
        var cs' := cs[i := c];
        forall j | 0 <= j < |cs'|
          ensures Onward(cs'[j], left, load.messages + ms)
        {
          if j != i {
            forall m | m in ms
              ensures m.channel != cs[j].id
            {
              WrittenHere(b, ms, cs[i].id, m);
            }
            OnwardOther(cs[j], room, left, load.messages, ms);
          }
        }
        FillInOrder(b, cs', left, load.Add(ms, c.id));
      }
    }
  }

  lemma {:induction false} AddMessages(load: Load, ms: seq<Message>, c: u8)
    ensures load.Add(ms, c).messages == load.messages + ms
  {
  }

  /** In every run, a packet of the loop carries the messages of each channel in the order in which they
      were posted. */
  lemma {:induction false} PacketInOrder(s: Setting, steps: seq<Step>, w: World, side: Side)
    requires Reachable(s, steps, w) && Possible(w, s.n, Pack(side)) && ComposeOne(w.At(side).e).1.Ok?
    ensures InOrder(ComposeOne(w.At(side).e).1.value.messages)
  {
    hide Reachable, NodeOk, DirectionOk, ComposeOne, QueuesOnce, AllAscending, Fill, PacketBytes, NextHeader, CanSend,
      Coalesce, InOrder, Onward;
    AlwaysPaired(s, steps, w, side);
    QueuesInOrder(s, steps, w, side);
    var x := w.At(side);
    QueuesOf(x, w.Peer(side));
    NodeNumbered(x, s.n);
    var header, head, channels, load, packets, dispatcher := ComposeOneShape(x.e);
    NothingBefore(x.e.channels, x.e.config.maxPacketSize - |head|);
    FillInOrder(x.book, x.e.channels, x.e.config.maxPacketSize - |head|, Load([], []));
  }

  lemma {:induction false} NothingBefore(cs: seq<Channel>, room: nat)
    ensures AllOnward(cs, room, []) && InOrder([])
  {
  }

  lemma {:induction false} NodeNumbered(x: Node, n: nat)
    requires NodeOk(x, n)
    ensures Numbered(x.e.channels)
  {
    hide Local, WellKept, OutKept, LooseOnce, AllReadable, Filed;
  }

  // -- deliveries --

  /** The postings that the messages `ms` complete, in the order in which they do. */
  ghost function Completed(b: Book, rx: Log, ms: seq<Message>): seq<u16>
    decreases |ms|
  {
    if ms == [] then []
    else if ms[0].channel >= |rx| then Completed(b, rx, ms[1..])
    else
      var rx1 := Note(rx, ms[0].channel, ms[0].id);
      if Finished(b, rx1, ParentOf(ms[0])) && !Finished(b, rx, ParentOf(ms[0]))
      then [ParentOf(ms[0])] + Completed(b, rx1, ms[1..])
      else Completed(b, rx1, ms[1..])
  }

  /** What channel `c` hands on for the postings `ps`. */
  ghost function Handed(b: Book, ps: seq<u16>, c: u8): seq<ReceivedMessage>
    decreases |ps|
  {
    if ps == [] then []
    else if ps[0] in b.posted && b.posted[ps[0]].channel == c && |b.posted[ps[0]].payload| <= MAX_PAYLOAD
    then [DeliveryOf(b.posted[ps[0]], ps[0])] + Handed(b, ps[1..], c)
    else Handed(b, ps[1..], c)
  }

  lemma {:induction false} ReceiveOneInbox(d: Dispatcher, cs: seq<Channel>, m: Message)
    returns (r: Option<ReceivedMessage>)
    requires GoodChannels(cs)
    ensures ReceiveOne(d, cs, m).0.inbox == match r case Some(x) => Push(d.inbox, ChannelOf(x), x) case None => d.inbox
  {
    hide Accept, PlaceFragment, Push;
    r := ReceiveOne(d, cs, m).2;
  }

  lemma {:induction false} ReceiveOneGives(d: Dispatcher, cs: seq<Channel>, b: Book, rx: Log, tops: seq<int>,
                                           m: Message, c: int)
    requires WellKept(b) && GoodChannels(cs) && Numbered(cs)
    requires Receiving(d, cs, b, rx, tops)
    requires InTable(b, m, c) && IsOutbound(m) && 0 <= c < |cs| && InWindow(m.id, tops[c])
    ensures var p, inbox := ParentOf(m), ReceiveOne(d, cs, InboundOf(m)).0.inbox;
            if Finished(b, Note(rx, c, m.id), p) && !Finished(b, rx, p)
            then inbox == Push(d.inbox, c, DeliveryOf(b.posted[p], p)) && b.posted[p].channel == c
            else inbox == d.inbox
  {
    hide SeenTracks, Known, Assembling, WellKept, IsOutbound, InWindow, ReceiveOne, GoodChannel, Numbered, Note, Fits,
      Push, DeliveryOf, Whole, Newest, OnlySeen, ChannelOf;
    ReceivingLengths(d, cs, b, rx, tops);
    ReceiveOneKeeps(d, cs, b, rx, tops, m, c);
    EntryParent(b, m, c);
    var x := ReceiveOneInbox(d, cs, InboundOf(m));
    var p, rx1, inbox := ParentOf(m), Note(rx, c, m.id), ReceiveOne(d, cs, InboundOf(m)).0.inbox;
    if x.Some? {
      PushedIsNew(d.inbox, b, rx, rx1, m, c, x.value);
    } else if Finished(b, rx1, p) && !Finished(b, rx, p) {
      assert Given(inbox, b.posted[p], p);
      var k :| 0 <= k < |inbox[b.posted[p].channel]|
        && inbox[b.posted[p].channel][k] == DeliveryOf(b.posted[p], p);
      assert GivenRightly(b, rx, b.posted[p].channel, inbox[b.posted[p].channel][k]);
      HolderOf(b.posted[p], p);
    }
  }

  /** What joins an exact inbox, and leaves it exact, is what the message has completed. */
  lemma {:induction false} PushedIsNew(inbox: map<u8, seq<ReceivedMessage>>, b: Book, rx: Log, rx1: Log, m: Message,
                                       c: int, x: ReceivedMessage)
    requires WellKept(b) && InTable(b, m, c) && 0 <= c < |rx| && rx1 == Note(rx, c, m.id)
    requires ParentOf(m) in b.posted && b.posted[ParentOf(m)].channel == c
    requires InboxExact(inbox, b, rx) && InboxExact(Push(inbox, ChannelOf(x), x), b, rx1)
    ensures var p := ParentOf(m);
            && Finished(b, rx1, p) && !Finished(b, rx, p)
            && x == DeliveryOf(b.posted[p], p) && ChannelOf(x) == c
  {
    hide WellKept, Note, DeliveryOf, Whole, Holder, Push, ChannelOf;
    var ch := ChannelOf(x);
    var inbox' := Push(inbox, ch, x);
    PushAt(inbox, ch, x);
    var last := |inbox'[ch]| - 1;
    assert GivenRightly(b, rx1, ch, inbox'[ch][last]);
    var q := Holder(x);
    FinishedAfter(b, rx, m, c, q);
    assert !Finished(b, rx, q);
  }

  lemma {:induction false} PushHands(inbox: map<u8, seq<ReceivedMessage>>, b: Book, p: u16, c: u8)
    requires p in b.posted && |b.posted[p].payload| <= MAX_PAYLOAD
    ensures var c' := b.posted[p].channel;
            Draining.At(Push(inbox, c', DeliveryOf(b.posted[p], p)), c) ==
              if c == c' then Draining.At(inbox, c) + [DeliveryOf(b.posted[p], p)] else Draining.At(inbox, c)
  {
    hide DeliveryOf;
  }

  lemma {:induction false} ReceiveAllGives(d: Dispatcher, cs: seq<Channel>, b: Book, rx: Log, tops: seq<int>,
                                           ms: seq<Message>, c: u8)
    requires WellKept(b) && GoodChannels(cs) && Numbered(cs)
    requires Receiving(d, cs, b, rx, tops)
    requires MessagesKept(b, ms) && AllOutbound(ms) && Windowed(tops, ms)
    ensures Draining.At(ReceiveAll(d, cs, InboundAll(ms)).0.inbox, c) ==
            Draining.At(d.inbox, c) + Handed(b, Completed(b, rx, ms), c)
    decreases |ms|
  {
    hide Receiving, IsOutbound, Fits, WellKept, ReceiveOne, Note, Newest, InWindow, GoodChannel, InboundOf, AllOutbound,
      OnlySeen, Numbered, Finished, DeliveryOf, Push, Draining.At;
    ReceivingLengths(d, cs, b, rx, tops);
    if ms == [] {
      assert Draining.At(d.inbox, c) + [] == Draining.At(d.inbox, c);
    } else {
      InboundCons(ms);
      var m := ms[0];
      assert InTable(b, m, m.channel);
      ReceiveOneKeeps(d, cs, b, rx, tops, m, m.channel);
      ReceiveOneGives(d, cs, b, rx, tops, m, m.channel);
      var r, rx1, p := ReceiveOne(d, cs, InboundOf(m)), Note(rx, m.channel, m.id), ParentOf(m);
      OnlySeenNumbered(cs, r.1);
      ReceiveAllGives(r.0, r.1, b, rx1, Newest(tops, m.channel, m.id), ms[1..], c);
      if Finished(b, rx1, p) && !Finished(b, rx, p) {
        FinishedPosted(b, rx1, p);
        PushHands(d.inbox, b, p, c);
        var rest := Completed(b, rx1, ms[1..]);
        assert ([p] + rest)[1..] == rest;
        if b.posted[p].channel == c {
          assert Draining.At(d.inbox, c) + [DeliveryOf(b.posted[p], p)] + Handed(b, rest, c)
              == Draining.At(d.inbox, c) + ([DeliveryOf(b.posted[p], p)] + Handed(b, rest, c));
        }
      }
    }
  }

  lemma {:induction false} FinishedPosted(b: Book, rx: Log, p: u16)
    requires Finished(b, rx, p)
    ensures p in b.posted && |b.posted[p].payload| <= MAX_PAYLOAD
  {
  }

  /** In every run, when a packet is taken in, every channel's inbox gains, behind what is there, what
      the messages of the packet complete, in their order. */
  lemma {:induction false} HandedInOrder(s: Setting, steps: seq<Step>, w: World, side: Side, u: int, c: u8)
    requires Reachable(s, steps, w) && Possible(w, s.n, Arrive(side, u))
    requires AcceptPacket(w.At(side).e.packets, w.Peer(side).t.out[u].header.id).Ok?
    ensures var x, y := w.At(side), w.Peer(side);
            Draining.At(Next(w, s.n, Arrive(side, u)).At(side).e.dispatcher.inbox, c) ==
              Draining.At(x.e.dispatcher.inbox, c)
              + Handed(y.book, Completed(y.book, x.rx, y.t.out[u].body.messages), c)
  {
    hide Reachable, PairOk, Deliver, AcceptPacket, CanArrive, Ready, Handed, Completed, Draining.At;
    AlwaysPaired(s, steps, w, side);
    TakenHands(w.At(side), w.Peer(side), s.n, u, c);
  }

  lemma {:induction false} PeerKept(y: Node, n: nat, u: int)
    requires NodeOk(y, n) && u in y.t.out
    ensures WellKept(y.book) && MessagesKept(y.book, y.t.out[u].body.messages)
  {
    hide Local, WellKept, LooseOnce, AllReadable, Filed, MessagesKept;
  }

  lemma {:induction false} TakenHands(x: Node, y: Node, n: nat, u: int, c: u8)
    requires PairOk(x, y, n) && CanArrive(x, y, n, u)
    requires AcceptPacket(x.e.packets, y.t.out[u].header.id).Ok?
    ensures Draining.At(Deliver(x, y.t.out[u], u).e.dispatcher.inbox, c) ==
              Draining.At(x.e.dispatcher.inbox, c) +
                  Handed(y.book, Completed(y.book, x.rx, y.t.out[u].body.messages), c)
  {
    hide Local, WellKept, OutKept, LooseOnce, Readable, Filed, Receiving, Landed, Done, GoodChannels, Carried, Sending,
      OnlyReliable, Windowed, AllOutbound, NoteAll, NewestAll, ReceiveAll, AckSound, WatermarkSafe, OnlySeen, Deliver,
      AcceptPacket, ProcessAcks, AfterAcks, AcksOf, AckAll, Honest, Timely, Numbered, Handed, Completed, Draining.At;
    var p := y.t.out[u];
    var s1, t1 := AcceptTakes(x, y, n, u);
    var s2, t2, ids, xs := AcksTake(s1, t1, y.t, n, AcksOf(p.header));
    var s2', d1, cs1, x' := TakeShape(x, y, n, u, s1, ids);
    AckStageKeeps(x, y, n, u, s1, t1, s2, t2, ids, xs);
    OnlyReliableNumbered(x.e.channels, cs1);
    SeenSame(x.e.dispatcher, d1, x.e.channels, cs1, y.book, x.rx, x.tops);
    PeerKept(y, n, u);
    ReceiveAllGives(d1, cs1, y.book, x.rx, x.tops, p.body.messages, c);
  }

  // -- acks --

  /** The messages of an acked packet are acked one after the other, in their order in the packet. */
  lemma {:induction false} HandlesInOrder(d: Dispatcher, cs: seq<Channel>, first: seq<Handle>, rest: seq<Handle>)
    requires d.Valid()
    ensures var (d1, cs1) := AckHandles(d, cs, first);
            d1.Valid() && AckHandles(d, cs, first + rest) == AckHandles(d1, cs1, rest)
    decreases |first|
  {
    hide AckHandle;
    if first == [] {
      assert first + rest == rest;
    } else {
      AckHandleValid(d, cs, first[0]);
      assert (first + rest)[1..] == first[1..] + rest;
      HandlesInOrder(AckHandle(d, cs, first[0]).0, AckHandle(d, cs, first[0]).1, first[1..], rest);
    }
  }

  /** And so are the packets that a header newly acks, in the order of the header. */
  lemma {:induction false} AcksInOrder(d: Dispatcher, cs: seq<Channel>, first: seq<u16>, rest: seq<u16>)
    requires d.Valid()
    ensures var (d1, cs1) := AckAll(d, cs, first);
            d1.Valid() && AckAll(d, cs, first + rest) == AckAll(d1, cs1, rest)
    decreases |first|
  {
    hide AckPacket;
    if first == [] {
      assert first + rest == rest;
    } else {
      AckPacketValid(d, cs, first[0]);
      assert (first + rest)[1..] == first[1..] + rest;
      AcksInOrder(AckPacket(d, cs, first[0]).0, AckPacket(d, cs, first[0]).1, first[1..], rest);
    }
  }
}
