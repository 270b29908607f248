/** Two endpoints and a network that may lose, repeat and reorder datagrams, in every run. */
module Network {
  import opened Words
  import opened SequenceWindow
  import opened AckHeaders
  import opened Messages
  import opened Packets
  import opened Channels
  import opened Reassembler
  import opened Dispatchers
  import opened PacketLayer
  import opened PacketInvariants
  import opened Endpoints
  import opened MessageBooks
  import opened Deliveries
  import opened Acknowledging
  import opened Nodes
  import opened Posting
  import opened Departing
  import opened Arriving

  datatype Side = Left | Right

  datatype World = World(left: Node, right: Node) {
    function At(side: Side): Node {
      if side.Left? then left else right
    }

    function Peer(side: Side): Node {
      if side.Left? then right else left
    }

    function With(side: Side, x: Node): World {
      if side.Left? then this.(left := x) else this.(right := x)
    }
  }

  /** The application sends a message, time passes, the packet loop makes one round, a packet
      without messages is sent, or a packet that the peer sent under the unwrapped id `u` arrives: for the first
      time, again, out of order, or never. */
  datatype Step =
    | Send(at: Side, channel: u8, payload: bytes)
    | Time(at: Side, dt: real)
    | Pack(at: Side)
    | Control(at: Side, packet: Packet)
    | Arrive(at: Side, u: int)

  /** The packet loop makes another round. */
  predicate Sends(e: Endpoint) {
    FirstReady(e.channels) < |e.channels| && SentUnacked(e.packets) < MAX_UNACKED_PACKETS
  }

  /** The endpoint can work at all (it always can, see `AlwaysPaired`), and the run keeps to the
      lifetimes that 16-bit ids can tell apart. */
  ghost predicate Possible(w: World, n: nat, step: Step) {
    var x, y := w.At(step.at), w.Peer(step.at);
    && Ready(x.e) && x.e.xorSalt.Some?
    && match step
       case Send(_, channel, payload) => CanPost(x, channel, payload)
       case Time(_, _) => true
       case Pack(_) => CanSend(x, n)
       case Control(_, packet) => CanSend(x, n) && IsControl(packet)
       case Arrive(_, u) => CanArrive(x, y, n, u)
  }

  ghost function Next(w: World, n: nat, step: Step): World
    requires Possible(w, n, step)
  {
    var x, y := w.At(step.at), w.Peer(step.at);
    w.With(step.at,
      match step
      case Send(_, channel, payload) => Post(x, channel, payload)
      case Time(_, dt) => PassTime(x, dt)
      case Pack(_) => if Sends(x.e) then PackOne(x) else x
      case Control(_, packet) => Signal(x, packet)
      case Arrive(_, u) => Deliver(x, y.t.out[u], u))
  }

  ghost predicate Reaches(w: World, n: nat, steps: seq<Step>, w': World)
    decreases |steps|
  {
    if steps == [] then w' == w
    else Possible(w, n, steps[0]) && Reaches(Next(w, n, steps[0]), n, steps[1..], w')
  }

  /** The settings of a run: two configurations, one capacity for the packet buffers. */
  datatype Setting = Setting(left: Config, right: Config, n: nat, fragMapLeft: nat, fragMapRight: nat, time: real,
      salt: u64) {
    ghost predicate Valid() {
      && GoodCapacity(n)
      && left.maxMessageSize <= MAX_PAYLOAD && 0 < fragMapLeft < 32768
      && right.maxMessageSize <= MAX_PAYLOAD && 0 < fragMapRight < 32768
    }
  }

  function Start(s: Setting): World {
    World(NewNode(s.left, s.n, s.fragMapLeft, s.time, s.salt), NewNode(s.right, s.n, s.fragMapRight, s.time, s.salt))
  }

  ghost predicate Reachable(s: Setting, steps: seq<Step>, w: World) {
    s.Valid() && Reaches(Start(s), s.n, steps, w)
  }

  // -- every run --

  lemma {:induction false} PairSwap(x: Node, y: Node, n: nat)
    ensures PairOk(x, y, n) <==> PairOk(y, x, n)
  {
    hide NodeOk, DirectionOk;
  }

  lemma {:induction false} StepKeeps(w: World, n: nat, step: Step)
    requires PairOk(w.left, w.right, n) && Possible(w, n, step)
    ensures PairOk(Next(w, n, step).left, Next(w, n, step).right, n)
  {
    hide PairOk, CanPost, CanSend, CanArrive, Post, PassTime, PackOne, Signal, Deliver, Ready, Sends;
    var x, y := w.At(step.at), w.Peer(step.at);
    PairSwap(w.left, w.right, n);
    match step {
      case Send(_, channel, payload) => PostKeepsPair(x, y, n, channel, payload);
      case Time(_, dt) => TickKeepsPair(x, y, n, dt);
      case Pack(_) => ComposeKeepsPair(x, y, n);
      case Control(_, packet) => SignalKeepsPair(x, y, n, packet);
      case Arrive(_, u) => DeliverKeepsPair(x, y, n, u);
    }
    PairSwap(Next(w, n, step).left, Next(w, n, step).right, n);
  }

  lemma {:induction false} RunKeeps(w: World, n: nat, steps: seq<Step>, w': World)
    requires PairOk(w.left, w.right, n) && Reaches(w, n, steps, w')
    ensures PairOk(w'.left, w'.right, n)
    decreases |steps|
  {
    hide PairOk, Possible, Next;
    if steps != [] {
      StepKeeps(w, n, steps[0]);
      RunKeeps(Next(w, n, steps[0]), n, steps[1..], w');
    }
  }

  /** In every reachable world, everything holds in both directions. */
  lemma {:induction false} AlwaysPaired(s: Setting, steps: seq<Step>, w: World, side: Side)
    requires Reachable(s, steps, w)
    ensures PairOk(w.At(side), w.Peer(side), s.n)
    ensures Ready(w.At(side).e) && w.At(side).e.xorSalt.Some?
  {
    hide NodeOk, DirectionOk, Reaches, Ready, NewNode;
    NewPairOk(s.left, s.right, s.n, s.fragMapLeft, s.fragMapRight, s.time, s.salt);
    RunKeeps(Start(s), s.n, steps, w);
    PairSwap(w.left, w.right, s.n);
    PairReady(w.At(side), w.Peer(side), s.n);
  }

  lemma {:induction false} PairReady(x: Node, y: Node, n: nat)
    requires PairOk(x, y, n)
    ensures Ready(x.e) && x.e.xorSalt.Some?
  {
    hide DirectionOk, Local, Filed;
  }

  lemma {:induction false} QueuesOf(x: Node, y: Node)
    requires DirectionOk(x, y)
    ensures QueuesOnce(x.book, x.e.channels)
  {
    hide Receiving, Landed, AckSound, WatermarkSafe, ReportsRight, QueuedOnce;
  }

  lemma {:induction false} ReachesOn(w: World, n: nat, steps: seq<Step>, w1: World, step: Step)
    requires Reaches(w, n, steps, w1) && Possible(w1, n, step)
    ensures Reaches(w, n, steps + [step], Next(w1, n, step))
    decreases |steps|
  {
    hide Possible, Next;
    if steps == [] {
      assert steps + [step] == [step];
      assert Reaches(Next(w, n, step), n, [], Next(w, n, step));
    } else {
      ReachesOn(Next(w, n, steps[0]), n, steps[1..], w1, step);
      assert (steps + [step])[1..] == steps[1..] + [step];
    }
  }

  // -- delivery --

  ghost predicate Proper(r: ReceivedMessage) {
    r.Fragmented? ==> r.fragments != [] && r.fragments[0].fragment.Some?
  }

  /** Entry `j` of the inbox of channel `c` is the message `id` with exactly this payload. */
  ghost predicate DeliveredAt(inbox: map<u8, seq<ReceivedMessage>>, c: u8, j: nat, id: u16, payload: bytes) {
    && c in inbox && j < |inbox[c]| && Proper(inbox[c][j])
    && inbox[c][j].Id() == id && inbox[c][j].Channel() == c && inbox[c][j].Payload() == payload
  }

  lemma {:induction false} RightlyDelivered(inbox: map<u8, seq<ReceivedMessage>>, b: Book, rx: Log, c: u8, j: nat)
    requires InboxExact(inbox, b, rx) && c in inbox && j < |inbox[c]|
    ensures var id := Holder(inbox[c][j]);
            id in b.posted && b.posted[id].channel == c && DeliveredAt(inbox, c, j, id, b.posted[id].payload)
  {
    hide Whole, DeliveryOf, Given;
    assert GivenRightly(b, rx, c, inbox[c][j]);
    var id := Holder(inbox[c][j]);
    DeliveryIntact(b.posted[id], id);
  }

  lemma {:induction false} HolderIsId(r: ReceivedMessage)
    requires Proper(r)
    ensures Holder(r) == r.Id()
  {
  }

  /** Everything in the inbox was posted by the peer, is intact, and is there once. */
  lemma {:induction false} DeliveredIntactOnce(s: Setting, steps: seq<Step>, w: World, side: Side, c: u8, j: nat)
    requires Reachable(s, steps, w)
    requires c in w.At(side).e.dispatcher.inbox && j < |w.At(side).e.dispatcher.inbox[c]|
    ensures var inbox, b := w.At(side).e.dispatcher.inbox, w.Peer(side).book;
            && Proper(inbox[c][j])
            && var id := inbox[c][j].Id();
            && id in b.posted && b.posted[id].channel == c
            && DeliveredAt(inbox, c, j, id, b.posted[id].payload)
            && forall i | 0 <= i < |inbox[c]| && i != j && Proper(inbox[c][i]) :: inbox[c][i].Id() != id
  {
    hide NodeOk, Reachable, SeenTracks, Known, Assembling, GivenRightly, Given, Sending, Landed, AckSound,
      WatermarkSafe;
    AlwaysPaired(s, steps, w, side);
    var x, y := w.At(side), w.Peer(side);
    var inbox := x.e.dispatcher.inbox;
    RightlyDelivered(inbox, y.book, x.rx, c, j);
    HolderIsId(inbox[c][j]);
    forall i | 0 <= i < |inbox[c]| && i != j && Proper(inbox[c][i])
      ensures inbox[c][i].Id() != inbox[c][j].Id()
    {
      HolderIsId(inbox[c][i]);
    }
  }

  /** Acked means delivered, once and intact: whenever an id enters the sender's inbox of acks, the
      receiver's inbox has been given exactly one message under that id, with exactly the payload
      posted under it. */
  lemma {:induction false} AckedMeansDelivered(s: Setting, steps: seq<Step>, w: World, side: Side, c: u8, k: nat)
    returns (j: nat)
    requires Reachable(s, steps, w)
    requires c in w.At(side).e.dispatcher.ackInbox && k < |w.At(side).e.dispatcher.ackInbox[c]|
    ensures var id, b, inbox := w.At(side).e.dispatcher.ackInbox[c][k], w.At(side).book,
            w.Peer(side).e.dispatcher.inbox;
            && id in b.posted && b.posted[id].channel == c
            && DeliveredAt(inbox, c, j, id, b.posted[id].payload)
            && forall i | 0 <= i < |inbox[c]| && i != j && Proper(inbox[c][i]) :: inbox[c][i].Id() != id
  {
    hide NodeOk, Reachable, Receiving, AcksOnce, Spent, FragsRight, Queueing, Landed, AckSound, WatermarkSafe, Finished,
      DeliveryOf, Proper, DeliveredAt;
    AlwaysPaired(s, steps, w, side);
    var x, y := w.At(side), w.Peer(side);
    var id := x.e.dispatcher.ackInbox[c][k];
    assert AckRight(x.book, y.rx, c, id);
    j := FinishedDelivered(y.e.dispatcher, y.e.channels, x.book, y.rx, y.tops, id);
    SidesSwap(w, side);
    DeliveredId(y.e.dispatcher.inbox, c, j, id, x.book.posted[id].payload);
    DeliveredIntactOnce(s, steps, w, if side.Left? then Right else Left, c, j);
  }

  lemma {:induction false} SidesSwap(w: World, side: Side)
    ensures var other := if side.Left? then Right else Left;
            w.At(other) == w.Peer(side) && w.Peer(other) == w.At(side)
  {
  }

  lemma {:induction false} DeliveredId(inbox: map<u8, seq<ReceivedMessage>>, c: u8, j: nat, id: u16, payload: bytes)
    requires DeliveredAt(inbox, c, j, id, payload)
    ensures c in inbox && j < |inbox[c]| && Proper(inbox[c][j]) && inbox[c][j].Id() == id
  {
  }

  lemma {:induction false} FinishedDelivered(d: Dispatcher, cs: seq<Channel>, b: Book, rx: Log, tops: seq<int>, id: u16)
    returns (j: nat)
    requires Receiving(d, cs, b, rx, tops) && Finished(b, rx, id)
    ensures id in b.posted && DeliveredAt(d.inbox, b.posted[id].channel, j, id, b.posted[id].payload)
  {
    hide Whole, DeliveryOf, SeenTracks, Known, Assembling, GivenRightly;
    var c := b.posted[id].channel;
    assert Given(d.inbox, b.posted[id], id);
    j :| 0 <= j < |d.inbox[c]| && d.inbox[c][j] == DeliveryOf(b.posted[id], id);
    DeliveryIntact(b.posted[id], id);
  }

  /** Fragmented messages, and messages on an unreliable channel, are reported acked at most once. */
  lemma {:induction false} AckedAtMostOnce(s: Setting, steps: seq<Step>, w: World, side: Side, c: u8, j: nat, k: nat)
    requires Reachable(s, steps, w)
    requires c in w.At(side).e.dispatcher.ackInbox && j < k < |w.At(side).e.dispatcher.ackInbox[c]|
    ensures var x := w.At(side);
            var id := x.e.dispatcher.ackInbox[c][j];
            && id in x.book.posted && c < |x.e.channels|
            && (x.book.posted[id].Big() || x.e.channels[c].Unreliable? ==> x.e.dispatcher.ackInbox[c][k] != id)
  {
    hide NodeOk, Reachable, Receiving, Spent, FragsRight, Landed, AckSound, WatermarkSafe, Finished, QueuesOnce,
      Numbered;
    AlwaysPaired(s, steps, w, side);
    var x, y := w.At(side), w.Peer(side);
    var id := x.e.dispatcher.ackInbox[c][j];
    assert AckRight(x.book, y.rx, c, id);
    FinishedInRange(x.book, y.rx, id);
  }

  lemma {:induction false} FinishedInRange(b: Book, rx: Log, id: u16)
    requires Finished(b, rx, id)
    ensures id in b.posted && b.posted[id].channel < |rx|
  {
    assert GotPart(b, rx, id, 0);
  }

  /** Reliable retention: a message on the reliable channel is queued, once, until a packet that
      carried it has been acked, and no longer; and what such a packet carried, the receiver has
      taken in. */
  lemma {:induction false} ReliableRetained(s: Setting, steps: seq<Step>, w: World, side: Side, id: u16)
    requires Reachable(s, steps, w) && id in w.At(side).book.table
    ensures var x, y := w.At(side), w.Peer(side);
            var m := x.book.table[id];
            && m.channel < |x.e.channels|
            && (x.e.channels[m.channel].Reliable? ==>
                  (m in Queued(x.e.channels[m.channel]) <==> m !in Carried(x.t.out, Done(x.t))))
            && (m in Queued(x.e.channels[m.channel]) ==> multiset(Queued(x.e.channels[m.channel]))[m] == 1)
            && (m in Carried(x.t.out, Done(x.t)) ==> Got(y.rx, m.channel, id))
  {
    hide NodeOk, Reachable, Receiving, ReportsRight, WatermarkSafe, Queued, Got, QueueKept;
    AlwaysPaired(s, steps, w, side);
    var x, y := w.At(side), w.Peer(side);
    assert RetainedOne(x.book, Carried(x.t.out, Done(x.t)), x.e.channels, id);
    assert QueuedOnce(x.book, x.e.channels[x.book.table[id].channel]);
    CarriedGot(x, y, x.book.table[id]);
    NodeTable(x, s.n, id);
  }

  lemma {:induction false} NodeTable(x: Node, n: nat, id: u16)
    requires NodeOk(x, n) && id in x.book.table
    ensures x.book.table[id].id == id
  {
    hide Local, Numbered, OutKept, LooseOnce, AllReadable, Filed;
    TableId(x.book, id);
  }

  lemma {:induction false} CarriedGot(x: Node, y: Node, m: Message)
    requires AckSound(x.t, y.t) && Landed(y.t.accepted, x.t.out, y.rx)
    ensures m in Carried(x.t.out, Done(x.t)) ==> Got(y.rx, m.channel, m.id)
  {
    hide Got;
    if m in Carried(x.t.out, Done(x.t)) {
      var u :| u in Done(x.t) && u in x.t.out && m in x.t.out[u].body.messages;
      assert AllGot(y.rx, x.t.out[u].body.messages);
      var k :| 0 <= k < |x.t.out[u].body.messages| && x.t.out[u].body.messages[k] == m;
    }
  }

  // -- packets --

  /** Ack soundness: what is marked acked was accepted by the peer, and the peer accepted only what
      was sent.  Watermark safety: every in-order arrival up to the watermark was reported in a
      header that the peer accepted. */
  lemma {:induction false} AcksAndWatermarks(s: Setting, steps: seq<Step>, w: World, side: Side, u: int)
    requires Reachable(s, steps, w)
    ensures var t, peer := w.At(side).t, w.Peer(side).t;
            && (u in peer.accepted ==> u in t.out)
            && (u in t.meta && t.meta[u].acked ==> u in peer.accepted)
            && (u in t.inOrder && u <= t.lowU ==> Reported(t, peer, u))
  {
    hide NodeOk, Reachable, Receiving, Sending, Landed, Reported;
    AlwaysPaired(s, steps, w, side);
  }

  /** Exactly once: of all the times a packet arrives within its lifetime, it is taken in if it is in
      the window and was not taken in before, and never otherwise. */
  lemma {:induction false} AcceptedExactlyOnce(s: Setting, steps: seq<Step>, w: World, side: Side, u: int)
    requires Reachable(s, steps, w)
    requires Possible(w, s.n, Arrive(side, u))
    ensures var x, y := w.At(side), w.Peer(side);
            var accepted := AcceptPacket(x.e.packets, y.t.out[u].header.id);
            var x' := Next(w, s.n, Arrive(side, u)).At(side);
            && (accepted.Ok? <==> x.t.receivedU - s.n < u && u !in x.t.accepted)
            && (accepted.Ok? ==> u in x'.t.accepted)
            && (accepted.Err? ==> x' == x)
  {
    hide Reachable, DirectionOk, AcceptPacket, ReceiveDatagram, WellKept, OutKept, LooseOnce, Filed, Readable, Local,
      Timely, AfterAcks, AcksOf, Windowed;
    AlwaysPaired(s, steps, w, side);
    var x, y := w.At(side), w.Peer(side);
    PeerHeader(y, s.n, u);
    AcceptExact(x.e.packets, x.t, s.n, u);
    ReceiveShape(x.e, y.t.out[u]);
    if AcceptPacket(x.e.packets, y.t.out[u].header.id).Ok? {
      AcceptedStays(x, y, s.n, u);
    }
  }

  /** What `process_incoming_packet` answers to a packet of the peer, within its lifetime. */
  lemma {:induction false} ArrivalAnswers(s: Setting, steps: seq<Step>, w: World, side: Side, u: int)
    requires Reachable(s, steps, w) && Possible(w, s.n, Arrive(side, u))
    ensures var x, y := w.At(side), w.Peer(side);
            ReceiveDatagram(x.e, y.t.out[u].body.packet).1 ==
              if u <= x.t.receivedU - s.n then Err(StalePacket)
              else if u in x.t.accepted then Err(DuplicatePacket)
              else Ok(())
  {
    hide Reachable, DirectionOk, AcceptPacket, ReceiveDatagram, WellKept, OutKept, LooseOnce, Filed, Readable, Local,
      Timely, AfterAcks, AcksOf, Windowed;
    AlwaysPaired(s, steps, w, side);
    var x, y := w.At(side), w.Peer(side);
    PeerHeader(y, s.n, u);
    AcceptExact(x.e.packets, x.t, s.n, u);
    ReceiveShape(x.e, y.t.out[u]);
  }

  lemma {:induction false} AcceptedStays(x: Node, y: Node, n: nat, u: int)
    requires PairOk(x, y, n) && CanArrive(x, y, n, u)
    requires AcceptPacket(x.e.packets, y.t.out[u].header.id).Ok?
    ensures u in Deliver(x, y.t.out[u], u).t.accepted
  {
    hide Local, WellKept, OutKept, LooseOnce, Readable, Filed, Receiving, Landed, Sending, AckSound, WatermarkSafe,
      AcceptPacket, ProcessAcks, AfterAcks, AcksOf, Honest, Timely, ReceiveDatagram, Windowed;
    var s1, t1 := AcceptTakes(x, y, n, u);
    var _, _, _, _ := AcksTake(s1, t1, y.t, n, AcksOf(y.t.out[u].header));
  }

  /** Acks take effect: when a packet is taken in, every packet in the window that its header acks
      is marked acked. */
  lemma {:induction false} AcksTakeEffect(s: Setting, steps: seq<Step>, w: World, side: Side, u: int, v: int)
    requires Reachable(s, steps, w) && Possible(w, s.n, Arrive(side, u))
    requires AcceptPacket(w.At(side).e.packets, w.Peer(side).t.out[u].header.id).Ok?
    requires Reports(w.Peer(side).t.out[u], v) && w.At(side).t.sentU - s.n < v
    ensures v in Done(Next(w, s.n, Arrive(side, u)).At(side).t)
  {
    hide Reachable, PairOk, Deliver, Reports, AcceptPacket, CanArrive, Done, Ready;
    AlwaysPaired(s, steps, w, side);
    TakenAcks(w.At(side), w.Peer(side), s.n, u, v);
  }

  lemma {:induction false} TakenAcks(x: Node, y: Node, n: nat, u: int, v: int)
    requires PairOk(x, y, n) && CanArrive(x, y, n, u)
    requires AcceptPacket(x.e.packets, y.t.out[u].header.id).Ok?
    requires Reports(y.t.out[u], v) && x.t.sentU - n < v
    ensures v in Done(Deliver(x, y.t.out[u], u).t)
  {
    hide Local, WellKept, OutKept, LooseOnce, Readable, Filed, Receiving, Landed, Sending, AckSound, WatermarkSafe,
      AcceptPacket, Timely, ReceiveDatagram, Windowed, AfterAcks, AcksOf, Honest, NoteAll, NewestAll, Reports,
      HeaderTrue;
    PeerHeader(y, n, u);
    var s1, t1 := AcceptTakes(x, y, n, u);
    LocalValid(s1, t1, n);
    HeaderMarks(s1, t1, y.t, n, y.t.out[u], u, v);
  }

  lemma {:induction false} HeaderMarks(s: PacketState, t: Trace<Cargo>, peer: Trace<Cargo>, n: nat, p: Sent<Cargo>,
                                       u: int, v: int)
    requires Local(s, t, n) && HeaderTrue(p, u, peer.accepted) && AckSound(t, peer)
    requires Reports(p, v) && t.sentU - n < v
    ensures s.Valid() && v in Done(AfterAcks(s, t, AcksOf(p.header)).0)
  {
    hide AcksOf, Tracks, Numbers, SentTrue, Wrap, AfterAcks;
    OutBelow(s, t, n);
    assert v in t.out;
    OwnerOf(v, t.sentU);
    AcksMark(s, t, n, AcksOf(p.header), p.ackBase - v);
  }

  /** Handle-map agreement: a messages packet that the sent-packets buffer holds, in the window or
      not, and that was not acked is on record with exactly the handles of the messages written
      into it. */
  lemma {:induction false} HandlesAgree(s: Setting, steps: seq<Step>, w: World, side: Side, u: int)
    requires Reachable(s, steps, w)
    requires var t, sent := w.At(side).t, w.At(side).e.packets.sent;
             && u in t.out && u in t.meta && !t.meta[u].acked
             && (t.sentU - s.n < u
                  || (t.sentU - 65536 < u && 0 < |sent.entries| == |sent.tags| && sent.Exists(Wrap(u))))
    ensures var x := w.At(side);
            && 0 < |x.e.dispatcher.inPackets.entries| == |x.e.dispatcher.inPackets.tags|
            && x.e.dispatcher.inPackets.Get(Wrap(u)) ==
                 if x.t.out[u].header.packetType == MessagesType then
                     Some(HandlesFor(x.t.out[u].body.messages)) else None
  {
    hide Reachable, DirectionOk, WellKept, OutKept, LooseOnce, Readable, Local, HandlesRight, Sound, HandlesFor, Wrap;
    AlwaysPaired(s, steps, w, side);
    var x := w.At(side);
    OutBelow(x.e.packets, x.t, s.n);
    SoundTop(x.e.packets.sent, x.t.sentU, x.t.meta);
    WrapKeepsSlot(u, s.n);
    FoundRight(x.e.dispatcher, x.e.packets.sent, x.t, s.n, x.recorded, x.records, Done(x.t), u);
  }

  // -- what the application sees of all this --

  /** The id that the application is told is the one the history has the payload under. */
  lemma {:induction false} SendRecords(s: Setting, steps: seq<Step>, w: World, side: Side, channel: u8, payload: bytes)
    requires Reachable(s, steps, w) && Possible(w, s.n, Send(side, channel, payload))
    ensures var x, r := w.At(side), SendMessage(w.At(side).e, channel, payload).1;
            var x' := Next(w, s.n, Send(side, channel, payload)).At(side);
            && x'.e == SendMessage(x.e, channel, payload).0
            && (r.Ok? ==>
                 r.value in x'.book.posted && x'.book.posted[r.value] == Posted(channel, payload)
                     && r.value !in x.book.posted)
            && (r.Err? && r.error != SequenceTooOld ==> x'.book == x.book)
  {
    hide Reachable, DirectionOk, OutKept, LooseOnce, Readable, Local, Filed, AfterPost, EnqueueFragments, Enqueue,
      Entry, PostEntered;
    AlwaysPaired(s, steps, w, side);
    var x := w.At(side);
    if Takes(x.e, channel, payload) {
      PostBook(x.book, channel, payload);
      PostKeeps(x.book, channel, payload);
      WrapSmall(x.book.next);
    }
  }

  /** What `send_message` answers.  A payload that is too large, too many packets unacked, or a channel
      that does not exist is refused, in this order, and changes nothing.  Any other message is
      queued, and its id is the answer, except that the id of a fragmented message is withheld when it
      jumps too far ahead of the newest one that the fragment map holds. */
  lemma {:induction false} SendAnswers(s: Setting, steps: seq<Step>, w: World, side: Side, channel: u8, payload: bytes)
    requires Reachable(s, steps, w) && Possible(w, s.n, Send(side, channel, payload))
    ensures var x, x' := w.At(side), Next(w, s.n, Send(side, channel, payload)).At(side);
            var d, r := x.e.dispatcher, SendMessage(x.e, channel, payload).1;
            if x.e.config.maxMessageSize < |payload| then r == Err(PayloadTooBig) && x' == x
            else if 350 <= SentUnacked(x.e.packets) then r == Err(TooManyPending) && x' == x
            else if |x.e.channels| <= channel then r == Err(NoSuchChannel) && x' == x
            else
              && 0 <= x.book.next < 65536
              && x.book.next in x'.book.posted && x'.book.posted[x.book.next] == Posted(channel, payload)
              && r == if |payload| > 1024 && TooFar(d.fragMap.sequence, x.book.next, d.fragMap.Capacity())
                      then Err(SequenceTooOld) else Ok(Wrap(x.book.next))
  {
    hide Reachable, Receiving, OutKept, LooseOnce, Readable, Local, Filed, AfterPost, EnqueueFragments, Enqueue, Entry,
      PostEntered, Queueing, AcksRight, AcksOnce, Spent, SlotRight, Landed, AckSound, WatermarkSafe, FragmentIds,
      NumFragments, SentUnacked;
    AlwaysPaired(s, steps, w, side);
    var x := w.At(side);
    IndexOfNumbered(x.e.channels, channel);
    if Takes(x.e, channel, payload) {
      PostBook(x.book, channel, payload);
      PostKeeps(x.book, channel, payload);
      WrapSmall(x.book.next);
      WrapSmall(x.e.dispatcher.fragMap.sequence);
      if |payload| > FRAGMENT_SIZE {
        JumpRefusedIff(x.e.dispatcher.fragMap, x.e.dispatcher.fragMap.sequence, x.book.next,
          Awaiting(FragmentIds(x.book.next, NumFragments(|payload|))), Unknown);
      }
    }
  }
}
