/** The steps of the network are what the endpoint's own operations do: a call of the packet loop is
    a number of packing steps, and the network carries only what was put into the outbox. */
module Wiring {
  import opened Words
  import opened AckHeaders
  import opened Messages
  import opened Packets
  import opened Dispatchers
  import opened PacketLayer
  import opened PacketInvariants
  import opened Endpoints
  import opened MessageBooks
  import opened Deliveries
  import opened Acknowledging
  import opened Nodes
  import opened Posting
  import opened Departing
  import opened Arriving
  import opened Network

  /** `k` packing steps. */
  ghost function Packs(x: Node, k: nat): Node
    decreases k
  {
    if k == 0 || !(Ready(x.e) && x.e.xorSalt.Some?) then x
    else Packs(if Sends(x.e) then PackOne(x) else x, k - 1)
  }

  lemma {:induction false} LoopIsPacks(x: Node) returns (k: nat)
    requires Composable(x.e)
    ensures Packs(x, k).e == ComposeLoop(x.e).0
    decreases TotalReady(x.e.channels)
  {
    hide ComposeOne, Ready, SmallMessages, SentUnacked, HandlesFor;
    if !Sends(x.e) {
      k := 0;
    } else {
      match ComposeOne(x.e)
      case (e, Err(_)) =>
        k := 1;
        assert Packs(PackOne(x), 0) == PackOne(x);
      case (e, Ok(p)) =>
        ComposeOneProgress(x.e, e, p);
        k := LoopIsPacks(PackOne(x));
        k := k + 1;
    }
  }

  /** One call of `compose_packets` ends where some number of packing steps ends. */
  lemma {:induction false} ComposeIsPacks(x: Node) returns (k: nat)
    requires Composable(x.e)
    ensures Packs(x, k).e == Compose(x.e).0
  {
    hide ComposeLoop, Composable, PackOne;
    k := LoopIsPacks(x);
    if SentUnacked(x.e.packets) >= MAX_UNACKED_PACKETS {
      k := 0;
    }
  }

  /** Every packet that the network can carry was put into the sender's outbox. */
  ghost predicate FromOutbox(x: Node) {
    forall u | u in x.t.out :: x.t.out[u].body.packet in x.e.outbox
  }

  lemma {:induction false} PostOutbox(x: Node, channel: u8, payload: bytes)
    requires FromOutbox(x) && CanPost(x, channel, payload)
    ensures FromOutbox(Post(x, channel, payload))
  {
    hide AddMessage, AfterPost, SentUnacked;
  }

  lemma {:induction false} ComposeOutbox(e: Endpoint)
    requires Ready(e) && e.xorSalt.Some?
    ensures var (e', r) := ComposeOne(e);
            && (forall b | b in e.outbox :: b in e'.outbox)
            && (r.Ok? ==> r.value.packet in e'.outbox)
  {
    hide NextHeader, Fill, PacketBytes, Coalesce, RecordSent, SetHandles, GoodChannels;
    HeaderStepValid(e.packets);
  }

  lemma {:induction false} HeaderStepValid(s: PacketState)
    requires s.Valid() && s.received.Valid()
    ensures NextHeader(s, MessagesType).0.Valid()
  {
    NextHeaderId(s, MessagesType);
  }

  lemma {:induction false} PackOutbox(x: Node)
    requires FromOutbox(x) && Ready(x.e) && x.e.xorSalt.Some?
    ensures FromOutbox(PackOne(x))
  {
    hide ComposeOne, Ready, HandlesFor;
    ComposeOutbox(x.e);
  }

  lemma {:induction false} SignalOutbox(x: Node, p: Packet)
    requires FromOutbox(x) && Ready(x.e) && IsControl(p)
    ensures FromOutbox(Signal(x, p))
  {
    hide NextHeader, WritePacket, RecordSent, Ready;
  }

  lemma {:induction false} DeliverOutbox(x: Node, p: Sent<Cargo>, u: int)
    requires FromOutbox(x) && Ready(x.e)
    ensures FromOutbox(Deliver(x, p, u))
  {
    hide AcceptPacket, ReadPacket, ParseMessages, ReceiveAll, ProcessAcks, AckAll, AfterAcks, AcksOf, NoteAll,
      NewestAll, GoodChannels;
    if AcceptPacket(x.e.packets, p.header.id).Ok? {
      AcceptPacketReady(x.e, p.header.id);
      AcksKeepOut(AcceptPacket(x.e.packets, p.header.id).value, AfterAccept(x.t, u), AcksOf(p.header));
    }
    OutboxKept(x.e, p.body.packet);
  }

  lemma {:induction false} OutboxKept(e: Endpoint, s: bytes)
    requires Ready(e)
    ensures ReceiveDatagram(e, s).0.outbox == e.outbox
  {
    hide AcceptPacket, ReadPacket, ParseMessages, ReceiveAll, ProcessAcks, AckAll, AcksOf, GoodChannels;
    match ReadPacket(s)
    case Err(_) =>
    case Ok((packet, pos)) =>
      var accepted := AcceptPacket(e.packets, packet.header.id);
      if accepted.Ok? {
        AcceptPacketReady(e, packet.header.id);
        TakeAcksReady(e.(packets := accepted.value), packet.header);
      }
  }

  lemma {:induction false} AcksKeepOut(s: PacketState, t: Trace<Cargo>, acks: seq<Ack>)
    requires s.Valid()
    ensures AfterAcks(s, t, acks).0.out == t.out
    decreases |acks|
  {
    hide Newer;
    if acks != [] {
      var x := SequenceWindow.Owner(acks[0].0, t.sentU);
      var (s1, first) := ProcessAck(s, acks[0]);
      if first && x in t.meta && x in t.out {
        AcksKeepOut(s1, AfterAck(s, t, x), acks[1..]);
      } else {
        AcksKeepOut(s1, t, acks[1..]);
      }
    }
  }

  lemma {:induction false} RunOutbox(w: World, n: nat, steps: seq<Step>, w': World)
    requires FromOutbox(w.left) && FromOutbox(w.right) && Reaches(w, n, steps, w')
    ensures FromOutbox(w'.left) && FromOutbox(w'.right)
    decreases |steps|
  {
    hide FromOutbox, Post, PassTime, PackOne, Signal, Deliver, Ready, Sends, CanPost, CanSend, CanArrive;
    if steps != [] {
      var step := steps[0];
      var x, y := w.At(step.at), w.Peer(step.at);
      match step {
        case Send(_, channel, payload) => PostOutbox(x, channel, payload);
        case Time(_, dt) => TimeOutbox(x, dt);
        case Pack(_) => PackOutbox(x);
        case Control(_, packet) => SignalOutbox(x, packet);
        case Arrive(_, u) => ArriveOutbox(x, y, n, u);
      }
      RunOutbox(Next(w, n, step), n, steps[1..], w');
    }
  }

  lemma {:induction false} TimeOutbox(x: Node, dt: real)
    requires FromOutbox(x)
    ensures FromOutbox(PassTime(x, dt))
  {
    hide TickAll;
  }

  lemma {:induction false} ArriveOutbox(x: Node, y: Node, n: nat, u: int)
    requires FromOutbox(x) && Ready(x.e) && CanArrive(x, y, n, u)
    ensures u in y.t.out && FromOutbox(Deliver(x, y.t.out[u], u))
  {
    hide FromOutbox, Deliver;
    DeliverOutbox(x, y.t.out[u], u);
  }

  /** In every reachable world, whatever can arrive was put into the peer's outbox. */
  lemma {:induction false} ArrivalsWereSent(s: Setting, steps: seq<Step>, w: World, side: Side, u: int)
    requires Reachable(s, steps, w) && u in w.Peer(side).t.out
    ensures w.Peer(side).t.out[u].body.packet in w.Peer(side).e.outbox
  {
    hide Reaches, NewEndpoint;
    RunOutbox(Start(s), s.n, steps, w);
  }
}
