/** The application reads: it takes messages and acks out of the inboxes while the network runs.
    Reading changes nothing else, so what was handed out and what is waiting are together what a
    run without reading would have in its inboxes. */
module Draining {
  import opened Words
  import opened Messages
  import opened Packets
  import opened Channels
  import opened Reassembler
  import opened Dispatchers
  import opened PacketLayer
  import opened PacketInvariants
  import opened Endpoints
  import opened MessageBooks
  import opened Deliveries
  import opened Acknowledging
  import opened Nodes
  import opened Posting
  import opened Departing
  import opened Arriving
  import opened Network

  function At<T>(inbox: map<u8, seq<T>>, c: u8): seq<T> {
    if c in inbox then inbox[c] else []
  }

  /** What the application has been handed by one endpoint. */
  datatype Given = Given(messages: map<u8, seq<ReceivedMessage>>, acks: map<u8, seq<u16>>)

  /** `full` has what was handed out, followed by what is waiting. */
  ghost predicate Together<T>(given: map<u8, seq<T>>, waiting: map<u8, seq<T>>, full: map<u8, seq<T>>) {
    forall c: u8 :: At(full, c) == At(given, c) + At(waiting, c)
  }

  ghost predicate Behind(g: Given, d: Dispatcher, full: Dispatcher) {
    && full == d.(inbox := full.inbox, ackInbox := full.ackInbox)
    && Together(g.messages, d.inbox, full.inbox) && Together(g.acks, d.ackInbox, full.ackInbox)
  }

  // -- the dispatcher --

  lemma {:induction false} PushTogether<T>(given: map<u8, seq<T>>, waiting: map<u8, seq<T>>, full: map<u8, seq<T>>,
                                           c: u8, x: T)
    requires Together(given, waiting, full)
    ensures Together(given, Push(waiting, c, x), Push(full, c, x))
  {
    forall k: u8
      ensures At(Push(full, c, x), k) == At(given, k) + At(Push(waiting, c, x), k)
    {
      PushedAt(waiting, c, x, k);
      PushedAt(full, c, x, k);
      assert At(full, k) == At(given, k) + At(waiting, k);
    }
  }

  lemma {:induction false} PushedAt<T>(inbox: map<u8, seq<T>>, c: u8, x: T, k: u8)
    ensures At(Push(inbox, c, x), k) == if k == c then At(inbox, c) + [x] else At(inbox, k)
  {
    if c !in inbox {
      assert At(inbox, c) + [x] == [x];
    }
  }

  lemma {:induction false} HandleBehind(g: Given, d: Dispatcher, full: Dispatcher, cs: seq<Channel>, h: Handle)
    requires d.Valid() && full.Valid() && Behind(g, d, full)
    ensures Behind(g, AckHandle(d, cs, h).0, AckHandle(full, cs, h).0)
            && AckHandle(full, cs, h).1 == AckHandle(d, cs, h).1
  {
    hide Push, Together, ChannelAcked, AckFragment;
    PushTogether(g.acks, d.ackInbox, full.ackInbox, h.channel, h.id);
    if h.ParentId().Some? {
      PushTogether(g.acks, d.ackInbox, full.ackInbox, h.channel, h.ParentId().value);
    }
  }

  lemma {:induction false} HandlesBehind(g: Given, d: Dispatcher, full: Dispatcher, cs: seq<Channel>, hs: seq<Handle>)
    requires d.Valid() && full.Valid() && Behind(g, d, full)
    ensures Behind(g, AckHandles(d, cs, hs).0, AckHandles(full, cs, hs).0)
            && AckHandles(full, cs, hs).1 == AckHandles(d, cs, hs).1
    decreases |hs|
  {
    hide Behind, AckHandle;
    if hs != [] {
      HandleBehind(g, d, full, cs, hs[0]);
      AckHandleValid(d, cs, hs[0]);
      AckHandleValid(full, cs, hs[0]);
      HandlesBehind(g, AckHandle(d, cs, hs[0]).0, AckHandle(full, cs, hs[0]).0, AckHandle(d, cs, hs[0]).1, hs[1..]);
    }
  }

  lemma {:induction false} AckAllBehind(g: Given, d: Dispatcher, full: Dispatcher, cs: seq<Channel>, ids: seq<u16>)
    requires d.Valid() && full.Valid() && Behind(g, d, full)
    ensures Behind(g, AckAll(d, cs, ids).0, AckAll(full, cs, ids).0) && AckAll(full, cs, ids).1 == AckAll(d, cs, ids).1
    decreases |ids|
  {
    hide Together, AckHandles;
    if ids != [] {
      var id := ids[0];
      var d1, full1 := d.(inPackets := d.inPackets.Remove(id, [])), full.(inPackets := full.inPackets.Remove(id, []));
      if d.inPackets.Get(id).Some? {
        HandlesBehind(g, d1, full1, cs, d.inPackets.Get(id).value);
      }
      AckPacketValid(d, cs, id);
      AckPacketValid(full, cs, id);
      AckAllBehind(g, AckPacket(d, cs, id).0, AckPacket(full, cs, id).0, AckPacket(d, cs, id).1, ids[1..]);
    }
  }

  lemma {:induction false} ReceiveAllBehind(g: Given, d: Dispatcher, full: Dispatcher, cs: seq<Channel>,
                                            ms: seq<Message>)
    requires GoodChannels(cs) && Behind(g, d, full)
    ensures Behind(g, ReceiveAll(d, cs, ms).0, ReceiveAll(full, cs, ms).0)
            && ReceiveAll(full, cs, ms).1 == ReceiveAll(d, cs, ms).1
    decreases |ms|
  {
    hide Together, PlaceFragment, GoodChannel, Accept, Push;
    if ms != [] {
      var m := ms[0];
      ReceiveOneGood(d, cs, m);
      ReceiveOneGood(full, cs, m);
      OneBehind(g, d, full, cs, m);
      ReceiveAllBehind(g, ReceiveOne(d, cs, m).0, ReceiveOne(full, cs, m).0, ReceiveOne(d, cs, m).1, ms[1..]);
    }
  }

  lemma {:induction false} OneBehind(g: Given, d: Dispatcher, full: Dispatcher, cs: seq<Channel>, m: Message)
    requires GoodChannels(cs) && Behind(g, d, full)
    ensures Behind(g, ReceiveOne(d, cs, m).0, ReceiveOne(full, cs, m).0)
            && ReceiveOne(full, cs, m).1 == ReceiveOne(d, cs, m).1
  {
    hide Together, PlaceFragment, GoodChannel, Accept, Push;
    var received := ProcessReceived(d, m).1;
    if received.Some? {
      PushTogether(g.messages, d.inbox, full.inbox, ChannelOf(received.value), received.value);
    }
  }

  // -- the endpoint --

  ghost predicate EndpointBehind(g: Given, e: Endpoint, full: Endpoint) {
    full == e.(dispatcher := full.dispatcher) && Behind(g, e.dispatcher, full.dispatcher)
  }

  ghost predicate NodeBehind(g: Given, x: Node, full: Node) {
    full == x.(e := full.e) && EndpointBehind(g, x.e, full.e)
  }

  lemma {:induction false} SameReady(g: Given, e: Endpoint, full: Endpoint)
    requires EndpointBehind(g, e, full)
    ensures Ready(full) <==> Ready(e)
  {
    hide GoodChannels, Together;
  }

  lemma {:induction false} PostBehind(g: Given, x: Node, full: Node, channel: u8, payload: bytes)
    requires NodeBehind(g, x, full) && CanPost(x, channel, payload)
    ensures CanPost(full, channel, payload) && NodeBehind(g, Post(x, channel, payload), Post(full, channel, payload))
  {
    hide Together, GoodChannel, EnqueueFragments, Enqueue, AfterPost, SentUnacked, NumFragments, FragmentIds;
    SameReady(g, x.e, full.e);
  }

  lemma {:induction false} PackBehind(g: Given, x: Node, full: Node)
    requires NodeBehind(g, x, full) && Ready(x.e) && x.e.xorSalt.Some?
    ensures Ready(full.e) && full.e.xorSalt.Some? && NodeBehind(g, PackOne(x), PackOne(full))
  {
    hide Together, GoodChannels, NextHeader, PacketBytes, Fill, RecordSent, Coalesce, HandlesFor;
    SameReady(g, x.e, full.e);
    NextHeaderId(x.e.packets, MessagesType);
  }

  lemma {:induction false} SignalBehind(g: Given, x: Node, full: Node, p: Packet)
    requires NodeBehind(g, x, full) && Ready(x.e) && IsControl(p)
    ensures Ready(full.e) && NodeBehind(g, Signal(x, p), Signal(full, p))
  {
    hide Together, GoodChannels, NextHeader, PacketBytes, RecordSent;
    SameReady(g, x.e, full.e);
  }

  lemma {:induction false} TakeAcksBehind(g: Given, e: Endpoint, full: Endpoint, header: Header)
    requires EndpointBehind(g, e, full) && Ready(e)
    ensures Ready(full) && EndpointBehind(g, TakeAcks(e, header), TakeAcks(full, header))
  {
    hide Together, GoodChannels, ProcessAcks, AckAll, AcksOf;
    SameReady(g, e, full);
    AckAllBehind(g, e.dispatcher, full.dispatcher, e.channels, ProcessAcks(e.packets, AcksOf(header)).1);
  }

  lemma {:induction false} ProcessBehind(g: Given, e: Endpoint, full: Endpoint, header: Header, s: bytes, pos: nat)
    requires EndpointBehind(g, e, full) && Ready(e)
    ensures Ready(full)
            && EndpointBehind(g, ProcessIncoming(e, header, s, pos).0, ProcessIncoming(full, header, s, pos).0)
  {
    hide Behind, GoodChannels, AcceptPacket, TakeAcks, ReceiveAll, ParseMessages;
    SameReady(g, e, full);
    var accepted := AcceptPacket(e.packets, header.id);
    if accepted.Ok? {
      AcceptPacketReady(e, header.id);
      AcceptPacketReady(full, header.id);
      TakeAcksBehind(g, e.(packets := accepted.value), full.(packets := accepted.value), header);
      TakeAcksReady(e.(packets := accepted.value), header);
      TakeAcksReady(full.(packets := accepted.value), header);
      var e1, full1 := TakeAcks(e.(packets := accepted.value), header),
          TakeAcks(full.(packets := accepted.value), header);
      ReceiveAllBehind(g, e1.dispatcher, full1.dispatcher, e1.channels, ParseMessages(s, pos).0);
    }
  }

  lemma {:induction false} DeliverBehind(g: Given, x: Node, full: Node, p: Sent<Cargo>, u: int)
    requires NodeBehind(g, x, full) && Ready(x.e)
    ensures Ready(full.e) && NodeBehind(g, Deliver(x, p, u), Deliver(full, p, u))
  {
    hide Behind, Ready, AcceptPacket, ProcessIncoming, ReadPacket, AfterAcks, AcksOf, NoteAll, NewestAll;
    SameReady(g, x.e, full.e);
    match ReadPacket(p.body.packet) {
      case Err(_) =>
      case Ok((packet, pos)) => ProcessBehind(g, x.e, full.e, packet.header, p.body.packet, pos);
    }
  }

  // -- runs --

  /** A step of the network, or the application takes what is waiting on a channel:
      `take_received_messages`, `drain_message_acks`. */
  datatype Move = Act(step: Step) | TakeMessages(at: Side, channel: u8) | TakeAckIds(at: Side, channel: u8)

  datatype Reading = Reading(w: World, left: Given, right: Given) {
    function Of(side: Side): Given {
      if side.Left? then left else right
    }

    function With(side: Side, x: Node, g: Given): Reading {
      if side.Left? then this.(w := w.With(side, x), left := g) else this.(w := w.With(side, x), right := g)
    }
  }

  function Append<T>(given: map<u8, seq<T>>, c: u8, xs: seq<T>): map<u8, seq<T>> {
    given[c := At(given, c) + xs]
  }

  ghost predicate Can(r: Reading, n: nat, move: Move) {
    move.Act? ==> Possible(r.w, n, move.step)
  }

  ghost function After(r: Reading, n: nat, move: Move): Reading
    requires Can(r, n, move)
  {
    match move
    case Act(step) => r.(w := Next(r.w, n, step))
    case TakeMessages(at, c) =>
      var x, g := r.w.At(at), r.Of(at);
      var d := x.e.dispatcher;
      r.With(at, x.(e := x.e.(dispatcher := d.(inbox := d.inbox[c := []]))),
          g.(messages := Append(g.messages, c, At(d.inbox, c))))
    case TakeAckIds(at, c) =>
      var x, g := r.w.At(at), r.Of(at);
      var d := x.e.dispatcher;
      r.With(at, x.(e := x.e.(dispatcher := d.(ackInbox := d.ackInbox[c := []]))),
          g.(acks := Append(g.acks, c, At(d.ackInbox, c))))
  }

  ghost predicate Follows(r: Reading, n: nat, moves: seq<Move>, r': Reading)
    decreases |moves|
  {
    if moves == [] then r' == r else Can(r, n, moves[0]) && Follows(After(r, n, moves[0]), n, moves[1..], r')
  }

  /** The steps of the network among the moves. */
  ghost function Acts(moves: seq<Move>): seq<Step>
    decreases |moves|
  {
    if moves == [] then [] else if moves[0].Act? then [moves[0].step] + Acts(moves[1..]) else Acts(moves[1..])
  }

  ghost predicate WorldBehind(r: Reading, full: World) {
    NodeBehind(r.left, r.w.left, full.left) && NodeBehind(r.right, r.w.right, full.right)
  }

  lemma {:induction false} StepBehind(r: Reading, n: nat, step: Step, full: World)
    requires WorldBehind(r, full) && Possible(r.w, n, step)
    ensures Possible(full, n, step) && WorldBehind(After(r, n, Act(step)), Next(full, n, step))
  {
    hide Behind, Ready, CanSend, IsControl, CanPost, Post, PackOne, Signal, Deliver, TickAll, Timely, Windowed;
    var g, x, y := r.Of(step.at), r.w.At(step.at), full.At(step.at);
    SameReady(g, x.e, y.e);
    match step {
      case Send(_, channel, payload) => PostBehind(g, x, y, channel, payload);
      case Time(_, dt) =>
      case Pack(_) =>
        SameNumbers(x, y, n);
        PackBehind(g, x, y);
      case Control(_, packet) =>
        SameNumbers(x, y, n);
        SignalBehind(g, x, y, packet);
      case Arrive(_, u) => DeliverBehind(g, x, y, r.w.Peer(step.at).t.out[u], u);
    }
  }

  lemma {:induction false} SameNumbers(x: Node, full: Node, n: nat)
    requires full == x.(e := full.e)
    ensures CanSend(full, n) <==> CanSend(x, n)
  {
  }

  lemma {:induction false} TakeTogether<T>(given: map<u8, seq<T>>, waiting: map<u8, seq<T>>, full: map<u8, seq<T>>,
                                           c: u8)
    requires Together(given, waiting, full)
    ensures Together(Append(given, c, At(waiting, c)), waiting[c := []], full)
  {
    var given', waiting' := Append(given, c, At(waiting, c)), waiting[c := []];
    forall k: u8
      ensures At(full, k) == At(given', k) + At(waiting', k)
    {
      assert At(full, k) == At(given, k) + At(waiting, k);
      if k == c {
        assert At(given', k) + [] == At(given', k);
      }
    }
  }

  lemma {:induction false} TakeBehind(r: Reading, n: nat, move: Move, full: World)
    requires WorldBehind(r, full) && !move.Act?
    ensures WorldBehind(After(r, n, move), full)
  {
    hide Together;
    var g, d := r.Of(move.at), r.w.At(move.at).e.dispatcher;
    TakeTogether(g.messages, d.inbox, full.At(move.at).e.dispatcher.inbox, move.channel);
    TakeTogether(g.acks, d.ackInbox, full.At(move.at).e.dispatcher.ackInbox, move.channel);
  }

  /** A run with reading does, but for the inboxes, what the same run without reading does. */
  lemma {:induction false} RunBehind(r: Reading, n: nat, moves: seq<Move>, r': Reading, full: World)
    returns (full': World)
    requires WorldBehind(r, full) && Follows(r, n, moves, r')
    ensures Reaches(full, n, Acts(moves), full') && WorldBehind(r', full')
    decreases |moves|
  {
    hide Possible, WorldBehind, Next;
    full' := full;
    if moves != [] {
      var r1 := After(r, n, moves[0]);
      match moves[0] {
        case Act(step) =>
          StepBehind(r, n, step, full);
          full' := RunBehind(r1, n, moves[1..], r', Next(full, n, step));
          assert Acts(moves)[0] == step && Acts(moves)[1..] == Acts(moves[1..]);
        case TakeMessages(_, _) =>
          TakeBehind(r, n, moves[0], full);
          full' := RunBehind(r1, n, moves[1..], r', full);
        case TakeAckIds(_, _) =>
          TakeBehind(r, n, moves[0], full);
          full' := RunBehind(r1, n, moves[1..], r', full);
      }
    }
  }

  const NOTHING := Given(map[], map[])

  /** Every world that a run with reading reaches differs from one that a run without reading reaches
      only in that the inboxes of the latter hold what was handed out, followed by what is waiting.
      So whatever holds of the inboxes of reachable worlds holds of what the application was given
      and will be given. */
  lemma {:induction false} ReadingIsHarmless(s: Setting, moves: seq<Move>, r: Reading) returns (full: World)
    requires s.Valid() && Follows(Reading(Start(s), NOTHING, NOTHING), s.n, moves, r)
    ensures Reachable(s, Acts(moves), full)
    ensures forall side: Side ::
              && full.At(side) == r.w.At(side).(e := full.At(side).e)
              && var d, all := r.w.At(side).e.dispatcher, full.At(side).e.dispatcher;
              && full.At(side).e == r.w.At(side).e.(dispatcher := all)
              && all == d.(inbox := all.inbox, ackInbox := all.ackInbox)
              && (forall c: u8 :: At(all.inbox, c) == At(r.Of(side).messages, c) + At(d.inbox, c))
              && (forall c: u8 :: At(all.ackInbox, c) == At(r.Of(side).acks, c) + At(d.ackInbox, c))
  {
    hide Reaches, Follows, NewEndpoint;
    StartBehind(s);
    full := RunBehind(Reading(Start(s), NOTHING, NOTHING), s.n, moves, r, Start(s));
  }

  lemma {:induction false} StartBehind(s: Setting)
    ensures WorldBehind(Reading(Start(s), NOTHING, NOTHING), Start(s))
  {
  }

  /** Acked means delivered, also when the application reads meanwhile: of every ack it was told or
      will be told, the other application was given, or will be given, exactly one message under that
      id, with exactly the payload posted under it. */
  lemma {:induction false} AckedMeansGiven(s: Setting, moves: seq<Move>, r: Reading, side: Side, c: u8, k: nat)
    returns (j: nat)
    requires s.Valid() && Follows(Reading(Start(s), NOTHING, NOTHING), s.n, moves, r)
    requires k < |At(r.Of(side).acks, c) + At(r.w.At(side).e.dispatcher.ackInbox, c)|
    ensures var other := if side.Left? then Right else Left;
            var id := (At(r.Of(side).acks, c) + At(r.w.At(side).e.dispatcher.ackInbox, c))[k];
            var ms := At(r.Of(other).messages, c) + At(r.w.At(other).e.dispatcher.inbox, c);
            var b := r.w.At(side).book;
            && id in b.posted && b.posted[id].channel == c
            && j < |ms| && Proper(ms[j]) && ms[j].Id() == id && ms[j].Channel() == c
                 && ms[j].Payload() == b.posted[id].payload
            && forall i | 0 <= i < |ms| && i != j && Proper(ms[i]) :: ms[i].Id() != id
  {
    hide Reachable, Follows, Proper;
    var full := ReadingIsHarmless(s, moves, r);
    var other := if side.Left? then Right else Left;
    SidesSwap(full, side);
    assert At(full.At(side).e.dispatcher.ackInbox, c) ==
           At(r.Of(side).acks, c) + At(r.w.At(side).e.dispatcher.ackInbox, c);
    j := AckedMeansDelivered(s, Acts(moves), full, side, c, k);
    assert At(full.At(other).e.dispatcher.inbox, c) ==
           At(r.Of(other).messages, c) + At(r.w.At(other).e.dispatcher.inbox, c);
  }
}
