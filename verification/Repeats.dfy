/** A run in which a whole message on the reliable channel is reported acked twice: it is sent, sent
    again for want of an ack, and both packets arrive and are acked by one keep-alive. */
module Repeats {
  import opened Words
  import opened SequenceBuffers
  import opened SequenceWindow
  import opened AckHeaders
  import opened Messages
  import opened Packets
  import opened Channels
  import opened Reassembly
  import opened Dispatchers
  import opened PacketLayer
  import opened PacketInvariants
  import opened Endpoints
  import opened MessageBooks
  import opened Deliveries
  import opened Acknowledging
  import opened Transmitting
  import opened Composing
  import opened Nodes
  import opened Posting
  import opened Departing
  import opened Arriving
  import opened Network
  import opened PacketLoop
  import opened Resending
  import opened AckCounts

  const PAYLOAD: bytes := [7]

  function TheMessage(): Message {
    NewOutbound(0, 1, PAYLOAD, None)
  }

  ghost predicate Roomy(s: Setting) {
    && s.Valid() && 1 <= s.left.maxMessageSize
    && MAX_HEADER + MAX_MESSAGE <= s.left.maxPacketSize && MAX_HEADER + MAX_MESSAGE <= s.right.maxPacketSize
  }

  lemma {:induction false} OneStep(w: World, n: nat, step: Step)
    requires Possible(w, n, step)
    ensures Reaches(w, n, [step], Next(w, n, step))
  {
    hide Possible, Next;
    assert [step][1..] == [];
    assert Reaches(Next(w, n, step), n, [], Next(w, n, step));
  }

  lemma {:induction false} TheMessageIs()
    ensures var m := TheMessage();
            m.id == 0 && m.channel == 1 && m.fragment == None && Postable(EMPTY_BOOK, 1, PAYLOAD)
  {
    WholeFits(0, 1, PAYLOAD);
  }

  // -- packing the message --

  /** Nothing but the message is queued, and nothing was ever received. */
  ghost predicate Only(x: Node, n: nat) {
    && |x.e.channels| == 2
    && (forall i, m | 0 <= i < 2 && m in Queued(x.e.channels[i]) :: m == TheMessage())
    && 0 in x.book.table && x.book.table[0] == TheMessage() && 0 in x.book.posted
         && x.book.posted[0] == Posted(1, PAYLOAD)
    && x.e.channels[1].Reliable? && x.e.channels[1].resendTime == RESEND_TIME
    && x.t.receivedU == x.t.lowU == 0 && x.t.accepted == map[] && Done(x.t) == {} && x.t.newestU == 0
  }

  lemma {:induction false} AllSame(ms: seq<Message>, m: Message)
    requires ms != [] && Once(ms) && forall x | x in ms :: x == m
    ensures ms == [m]
  {
    assert ms[0] in ms;
    if |ms| > 1 {
      assert ms[1] in ms;
      OneIndex(ms, 0);
    }
  }

  /** With nothing received there is nothing to ack. */
  lemma {:induction false} PlainHeader(x: Node, n: nat, kind: PacketType)
    requires Local(x.e.packets, x.t, n) && x.t.receivedU == x.t.lowU == 0
    ensures x.e.packets.received.Valid()
    ensures NextHeader(x.e.packets, kind).1.Ok? && NextHeader(x.e.packets, kind).1.value.ack == None
  {
    hide SentTrue, BuildAckHeader, AckList;
    WrapSmall(0);
    DistancesExact(x.e.packets, x.t) by {
      SoundTop(x.e.packets.sent, x.t.sentU, x.t.meta);
      SoundTop(x.e.packets.received, x.t.receivedU, x.t.accepted);
      SentTrueOf(x.e.packets, x.t, n);
    }
  }

  /** A round of the packet loop sends the message, alone, in the next packet. */
  lemma {:induction false} PacksIt(x: Node, n: nat) returns (x': Node, h: Header, packet: bytes)
    requires NodeOk(x, n) && CanSend(x, n) && QueuesOnce(x.book, x.e.channels) && Composable(x.e) && Only(x, n)
    requires FirstReady(x.e.channels) < |x.e.channels|
    ensures x' == PackOne(x) && h.ack == None
    ensures x'.t == AfterSend(x.t, h, Cargo(packet, [TheMessage()])) && x.t.meta.Keys == x.t.out.Keys
    ensures Only(x', n) && x'.e.config == x.e.config && x'.recorded == x.t.sequenceU + 1
  {
    hide ComposeOne, Local, WellKept, OutKept, LooseOnce, AllReadable, Readable, Filed, HandlesFor, QueuesOnce,
      SetHandles, NextHeader, Wrap, SmallMessages, NewOutbound, Queued, Done, SentNext, Shrinks;
    PlainHeaderNode(x, n, MessagesType);
    RoundTaken(x, n);
    var p, load;
    x', p, load := ComposeShape(x, n);
    h, packet := p.header, p.packet;
    RoundWellFormed(x.e, ComposeOne(x.e).0, ComposeOne(x.e).1.value);
    assert x'.t.out[x.t.sequenceU + 1].body.messages == p.messages == ComposeOne(x.e).1.value.messages;
    AllSame(p.messages, TheMessage());
    OutBelowNode(x, n);
    DoneSame(x.t, x'.t, p.header, Cargo(p.packet, p.messages));
    forall i, m | 0 <= i < 2 && m in Queued(x'.e.channels[i])
      ensures m == TheMessage()
    {
      assert Shrinks(x.e.channels[i], x'.e.channels[i]);
      QueuedShrinks(x.e.channels[i], x'.e.channels[i], m);
    }
    assert Shrinks(x.e.channels[1], x'.e.channels[1]);
    ShrinksKind(x.e.channels[1], x'.e.channels[1]);
  }

  lemma {:induction false} ShrinksKind(c: Channel, c': Channel)
    requires Shrinks(c, c') && c.Reliable?
    ensures c'.Reliable? && c'.resendTime == c.resendTime
  {
  }

  lemma {:induction false} PlainHeaderNode(x: Node, n: nat, kind: PacketType)
    requires NodeOk(x, n) && x.t.receivedU == x.t.lowU == 0
    ensures x.e.packets.received.Valid()
    ensures NextHeader(x.e.packets, kind).1.Ok? && NextHeader(x.e.packets, kind).1.value.ack == None
  {
    hide WellKept, OutKept, LooseOnce, AllReadable, Filed, Local, NextHeader;
    PlainHeader(x, n, kind);
  }

  lemma {:induction false} OutBelowNode(x: Node, n: nat)
    requires NodeOk(x, n)
    ensures x.t.meta.Keys == x.t.out.Keys && forall v | v in x.t.out :: 0 < v <= x.t.sentU
    ensures x.t.sentU <= x.t.sequenceU && n <= 16384
  {
    hide WellKept, OutKept, LooseOnce, AllReadable, Filed, Local;
    OutBelow(x.e.packets, x.t, n);
  }

  // -- stage by stage --

  /** What the two ends know after each stage; the network runs left to right until the last step. */
  lemma {:induction false} Posted1(s: Setting) returns (steps: seq<Step>, w: World)
    requires Roomy(s)
    ensures Reachable(s, steps, w) && Forward(steps)
    ensures Only(w.left, s.n) && w.left.t == NewTrace() && w.left.recorded == 0 && w.right == Start(s).right
    ensures w.left.e.config == s.left && FirstReady(w.left.e.channels) < 2
  {
    hide NodeOk, DirectionOk, NewOutbound;
    var w0 := Start(s);
    TheMessageIs();
    var step := Send(Left, 1, PAYLOAD);
    assert Reaches(w0, s.n, [], w0);
    AlwaysPaired(s, [], w0, Left);
    StartPosts(s);
    ReachesOn(w0, s.n, [], w0, step);
    steps, w := [] + [step], Next(w0, s.n, step);
    SomeFirst(w.left.e.channels, 1);
  }

  lemma {:induction false} AddedAlone(d: Dispatcher, c: Channel)
    requires d.Valid() && d.nextMessageId == 0 && c.Reliable? && c.id == 1 && c.pending == []
    ensures var c' := AddMessage(d, c, PAYLOAD).1;
            && c' == c.(pending := [Resendable(TheMessage(), None)])
            && Queued(c') == [TheMessage()] && AnyReady(c')
  {
    hide NewOutbound;
    var added := [Resendable(TheMessage(), None)];
    assert c.pending + added == added;
    assert MessagesOf(added) == [TheMessage()];
  }

  lemma {:induction false} StartPosts(s: Setting)
    requires Roomy(s) && Ready(Start(s).left.e)
    ensures var x := Start(s).left;
            && CanPost(x, 1, PAYLOAD) && Takes(x.e, 1, PAYLOAD)
            && var x' := Post(x, 1, PAYLOAD);
            && Only(x', s.n) && x'.t == x.t && x'.recorded == 0 && x'.e.config == s.left
            && |x'.e.channels| == 2 && AnyReady(x'.e.channels[1])
  {
    hide NewRing, NewOutbound;
    TheMessageIs();
    var x := Start(s).left;
    assert x.e.channels[1].id == 1 && IndexOfChannel(x.e.channels, 1) == 1;
    WrapSmall(0);
    NewRingIs(s.n, UNSENT);
    assert SentUnacked(x.e.packets) == 0;
    var x' := Post(x, 1, PAYLOAD);
    AddedAlone(x.e.dispatcher, x.e.channels[1]);
    assert x'.e.channels == x.e.channels[1 := AddMessage(x.e.dispatcher, x.e.channels[1], PAYLOAD).1];
    assert Done(x'.t) == {};
  }

  /** The message leaves. */
  lemma {:induction false} Packed(s: Setting, steps: seq<Step>, w: World) returns (steps': seq<Step>, w': World)
    requires Roomy(s) && Reachable(s, steps, w) && Forward(steps)
    requires Only(w.left, s.n) && w.left.e.config == s.left && FirstReady(w.left.e.channels) < 2
    requires CanSend(w.left, s.n) && w.left.t.sentU < MAX_UNACKED_PACKETS
    ensures Reachable(s, steps', w') && Forward(steps')
    ensures Only(w'.left, s.n) && w'.left.e.config == s.left && w'.left.recorded == w.left.t.sequenceU + 1
    ensures w'.right == w.right && Headless(w.left, w'.left, s.n)
  {
    hide NodeOk, DirectionOk, Reaches, NewOutbound, Only, PackOne, CanSend, ComposeOne, Composable, QueuesOnce,
      SentUnacked;
    var x := w.left;
    AlwaysPaired(s, steps, w, Left);
    ReachableComposable(s, steps, w, Left);
    FewSent(x, s.n);
    OnlyTwo(x, s.n);
    var x', h, packet := PacksIt(x, s.n);
    ReachesOn(Start(s), s.n, steps, w, Pack(Left));
    steps', w' := steps + [Pack(Left)], Next(w, s.n, Pack(Left));
    HeadlessIs(x, x', s.n, h, packet);
  }

  lemma {:induction false} OnlyTwo(x: Node, n: nat)
    requires Only(x, n)
    ensures |x.e.channels| == 2
  {
  }

  /** One more packet was sent, with the message and without acks. */
  ghost predicate Headless(x: Node, x': Node, n: nat) {
    var u := x.t.sequenceU + 1;
    && x'.t.sequenceU == x'.t.sentU == u && u !in x.t.out
    && u in x'.t.out && x'.t.out[u].header.ack == None && x'.t.out[u].ackBase == 0
    && x'.t.out[u].body.messages == [TheMessage()]
    && forall v | v in x.t.out :: v in x'.t.out && x'.t.out[v] == x.t.out[v]
  }

  lemma {:induction false} HeadlessIs(x: Node, x': Node, n: nat, h: Header, packet: bytes)
    requires NodeOk(x, n) && Only(x, n) && h.ack == None
    requires x'.t == AfterSend(x.t, h, Cargo(packet, [TheMessage()])) && x.t.meta.Keys == x.t.out.Keys
    ensures Headless(x, x', n)
  {
    hide NodeOk, NewOutbound, Queued;
    OutBelowNode(x, n);
  }

  lemma {:induction false} FewSent(x: Node, n: nat)
    requires NodeOk(x, n) && Only(x, n) && x.t.sentU < MAX_UNACKED_PACKETS
    ensures SentUnacked(x.e.packets) < MAX_UNACKED_PACKETS
  {
    hide WellKept, OutKept, LooseOnce, AllReadable, Filed, NewOutbound, Queued;
    SoundTop(x.e.packets.sent, x.t.sentU, x.t.meta);
    SoundTop(x.e.packets.received, x.t.receivedU, x.t.accepted);
    DistancesExact(x.e.packets, x.t);
  }

  /** The sender waits for the resend time. */
  lemma {:induction false} Waited(s: Setting, steps: seq<Step>, w: World) returns (steps': seq<Step>, w': World)
    requires Roomy(s) && Reachable(s, steps, w) && Forward(steps) && Only(w.left, s.n)
    ensures Reachable(s, steps', w') && Forward(steps') && Only(w'.left, s.n)
    ensures w'.left == w.left.(e := w.left.e.(channels := w'.left.e.channels)) && w'.right == w.right
    ensures FirstReady(w'.left.e.channels) < 2
  {
    hide NodeOk, DirectionOk, Reaches, NewOutbound, Queued, ReadyMessages, Carried;
    var step := Time(Left, RESEND_TIME);
    AlwaysPaired(s, steps, w, Left);
    ReachesOn(Start(s), s.n, steps, w, step);
    steps', w' := steps + [step], Next(w, s.n, step);
    OneStep(w, s.n, step);
    assert Elapsed(Left, [step]) == RESEND_TIME by {
      assert [step][1..] == [];
      assert Elapsed(Left, []) == 0.0;
    }
    NothingCarried(w.left, s.n);
    TheMessageIs();
    DueAgain(s, steps, w, Left, 0, [step], w');
    forall i | 0 <= i < 2
      ensures Queued(w'.left.e.channels[i]) == Queued(w.left.e.channels[i])
    {
      TickSame(w.left.e.channels[i], RESEND_TIME);
    }
  }

  lemma {:induction false} NothingCarried(x: Node, n: nat)
    requires Only(x, n)
    ensures Carried(x.t.out, Done(x.t)) == {}
  {
    hide NewOutbound, Queued;
  }

  // -- the other end --

  /** A packet with the message and without acks can still arrive at a fresh receiver. */
  ghost predicate Awaits(y: Node, x: Node, u: int) {
    && u in x.t.out && x.t.out[u].header.ack == None && x.t.out[u].ackBase == 0
    && x.t.out[u].body.messages == [TheMessage()]
    && y.t.sentU == 0 && 0 <= y.t.receivedU < u <= 2 && u !in y.t.accepted
    && y.tops == [0, 0]
  }

  lemma {:induction false} TakesPlain(y: Node, x: Node, n: nat, u: int)
    requires PairOk(y, x, n) && Awaits(y, x, u)
    ensures CanArrive(y, x, n, u)
    ensures var y' := Deliver(y, x.t.out[u], u);
            y'.t == AfterAccept(y.t, u) && y'.tops == y.tops && y'.e.config == y.e.config && y'.recorded == y.recorded
  {
    hide Local, WellKept, OutKept, LooseOnce, Readable, Filed, DirectionOk, AcceptPacket, ReceiveDatagram, GoodChannels,
      NewOutbound, ReceiveAll, AckAll, NoteAll, AllOutbound;
    TheMessageIs();
    var p := x.t.out[u];
    OutBelowNode(y, n);
    assert Windowed(y.tops, [TheMessage()]);
    ArrivalReadable(y, x, n, u);
    PeerHeader(x, n, u);
    AcceptExact(y.e.packets, y.t, n, u);
    var s1 := AcceptPacket(y.e.packets, p.header.id).value;
    LocalValid(s1, AfterAccept(y.t, u), n);
    assert AcksOf(p.header) == [];
    var _, _, _, _ := TakeShape(y, x, n, u, s1, []);
    assert NewestAll(y.tops, [TheMessage()]) == y.tops;
  }

  lemma {:induction false} Arrived(s: Setting, steps: seq<Step>, w: World, u: int)
    returns (steps': seq<Step>, w': World)
    requires Reachable(s, steps, w) && Forward(steps) && Awaits(w.right, w.left, u)
    ensures Reachable(s, steps', w') && Forward(steps')
    ensures w'.left == w.left && w'.right.t == AfterAccept(w.right.t, u) && w'.right.tops == w.right.tops
    ensures w'.right.e.config == w.right.e.config && w'.right.recorded == w.right.recorded
  {
    hide NodeOk, DirectionOk, Reaches, NewOutbound, CanArrive, Deliver, Awaits;
    var step := Arrive(Right, u);
    AlwaysPaired(s, steps, w, Right);
    TakesPlain(w.right, w.left, s.n, u);
    ReachesOn(Start(s), s.n, steps, w, step);
    steps', w' := steps + [step], Next(w, s.n, step);
  }

  // -- the keep-alive --

  const KEEP_ALIVE := KeepAlive(Header(KeepAliveType, 0, None), 0, 0)

  /** A keep-alive acks both packets. */
  lemma {:induction false} AcksBoth(y: Node, n: nat) returns (y': Node)
    requires NodeOk(y, n) && CanSend(y, n) && MAX_HEADER + MAX_MESSAGE <= y.e.config.maxPacketSize
    requires y.t.receivedU == 2 && y.t.lowU == 0 && 1 in y.t.accepted && 2 in y.t.accepted && y.t.sequenceU == 0
    ensures y' == Signal(y, KEEP_ALIVE) && y'.t.accepted == y.t.accepted
    ensures 1 in y'.t.out && y'.t.out[1].ackBase == 2 && y'.t.out[1].body.messages == []
    ensures Reports(y'.t.out[1], 1) && Reports(y'.t.out[1], 2)
  {
    hide Local, WellKept, OutKept, LooseOnce, AllReadable, Filed, NextHeader, RecordSent, Reports, Numbered, Tracks;
    y' := Signal(y, KEEP_ALIVE);
    LocalParts(y, n);
    HeaderMadeIff(y.e.packets, y.t, n, KeepAliveType);
    var h := NextHeader(y.e.packets, KeepAliveType).1.value;
    SmallKeepAlive(y.e.packets);
    RecordsTaken(y, n, KeepAliveType, Load([], []));
    SignalOutcome(y, n, KEEP_ALIVE);
    HeaderMade(y.e.packets, y.t, n, KeepAliveType, Cargo(PacketBytes(Headed(KEEP_ALIVE, h)), []));
  }

  lemma {:induction false} LocalParts(y: Node, n: nat)
    requires NodeOk(y, n)
    ensures GoodCapacity(n) && RingsTrack(y.e.packets, y.t, n) && y.e.packets.sequenceId == Wrap(y.t.sequenceU)
  {
    hide WellKept, OutKept, LooseOnce, AllReadable, Filed, SentTrue;
  }

  lemma {:induction false} SmallKeepAlive(s: PacketState)
    requires s.received.Valid() && NextHeader(s, KeepAliveType).1.Ok?
    ensures |PacketBytes(Headed(KEEP_ALIVE, NextHeader(s, KeepAliveType).1.value))| <= MAX_HEADER + 4
  {
  }

  /** Both packets are acked at once. */
  lemma {:induction false} BothAcked(s: Setting, steps: seq<Step>, w: World) returns (w': World)
    requires Reachable(s, steps, w)
    requires Only(w.left, s.n) && w.left.t.sentU == 2 && 1 in w.left.t.out && 2 in w.left.t.out
    requires 1 in w.right.t.out && w.right.t.out[1].ackBase == 2 && w.right.t.out[1].body.messages == []
    requires Reports(w.right.t.out[1], 1) && Reports(w.right.t.out[1], 2)
    ensures Reachable(s, steps + [Arrive(Left, 1)], w')
    ensures 1 in Done(w'.left.t) && 2 in Done(w'.left.t)
    ensures w'.left.t.out == w.left.t.out && w'.left.book == w.left.book
  {
    hide NodeOk, DirectionOk, Reaches, NewOutbound, Deliver, Reports, AcceptPacket, Queued, Done;
    AlwaysPaired(s, steps, w, Left);
    FirstArrives(w.left, w.right, s.n);
    ReachesOn(Start(s), s.n, steps, w, Arrive(Left, 1));
    w' := Next(w, s.n, Arrive(Left, 1));
    AcksTakeEffect(s, steps, w, Left, 1, 1);
    AcksTakeEffect(s, steps, w, Left, 1, 2);
    SameOut(w.left, w.right, s.n, 1);
  }

  lemma {:induction false} FirstArrives(x: Node, y: Node, n: nat)
    requires PairOk(x, y, n) && Only(x, n) && x.t.sentU == 2
    requires 1 in y.t.out && y.t.out[1].ackBase == 2 && y.t.out[1].body.messages == []
    ensures CanArrive(x, y, n, 1) && AcceptPacket(x.e.packets, y.t.out[1].header.id).Ok?
    ensures MAX_UNACKED_PACKETS <= n <= 16384
  {
    hide Local, WellKept, OutKept, LooseOnce, AllReadable, Filed, DirectionOk, AcceptPacket, NewOutbound, Queued, Done;
    OutBelowNode(x, n);
    PeerHeader(y, n, 1);
    AcceptExact(x.e.packets, x.t, n, 1);
    LocalParts(x, n);
  }

  /** The message is in two packets. */
  lemma {:induction false} SentTwice(s: Setting) returns (steps: seq<Step>, w: World)
    requires Roomy(s)
    ensures Reachable(s, steps, w) && Forward(steps) && w.right == Start(s).right
    ensures Only(w.left, s.n) && w.left.t.sentU == 2 && Awaits(w.right, w.left, 1) && Awaits(w.right, w.left, 2)
  {
    hide NodeOk, DirectionOk, Reachable, NewOutbound, Queued, Done, Ready, Forward;
    var w1, w2, w3;
    steps, w1 := Posted1(s);
    FreshCanSend(w1.left, s.n);
    steps, w2 := Packed(s, steps, w1);
    steps, w3 := Waited(s, steps, w2);
    steps, w := Packed(s, steps, w3);
    RightStart(s);
  }

  /** The receiver takes in both packets and sends a keep-alive. */
  lemma {:induction false} BothArrive(s: Setting, steps: seq<Step>, w: World) returns (steps': seq<Step>, w': World)
    requires Roomy(s) && Reachable(s, steps, w) && Forward(steps) && w.right == Start(s).right
    requires Awaits(w.right, w.left, 1) && Awaits(w.right, w.left, 2)
    ensures Reachable(s, steps', w') && w'.left == w.left
    ensures 1 in w'.right.t.out && w'.right.t.out[1].ackBase == 2 && w'.right.t.out[1].body.messages == []
    ensures Reports(w'.right.t.out[1], 1) && Reports(w'.right.t.out[1], 2)
  {
    hide NodeOk, DirectionOk, Reaches, NewOutbound, Reports, Signal, NewEndpoint, Ready, Forward;
    RightStart(s);
    var steps1, w1 := Arrived(s, steps, w, 1);
    var steps2, w2 := Arrived(s, steps1, w1, 2);
    AlwaysPaired(s, steps2, w2, Right);
    var y := AcksBoth(w2.right, s.n);
    ReachesOn(Start(s), s.n, steps2, w2, Control(Right, KEEP_ALIVE));
    steps', w' := steps2 + [Control(Right, KEEP_ALIVE)], Next(w2, s.n, Control(Right, KEEP_ALIVE));
  }

  /** A message that is not acked in time can be reported acked twice: this run does it, on channel
      1, the reliable one. */
  lemma {:induction false} ReportedTwice(s: Setting) returns (steps: seq<Step>, w: World)
    requires Roomy(s)
    ensures Reachable(s, steps, w)
    ensures 1 < |Start(s).left.e.channels| && Start(s).left.e.channels[1].Reliable?
    ensures 0 in w.left.book.posted && w.left.book.posted[0] == Posted(1, PAYLOAD)
    ensures Times(w.left.e.dispatcher.ackInbox, 1, 0) >= 2
  {
    hide NodeOk, DirectionOk, Reachable, NewOutbound, Queued, Reports, Done, Times, NewEndpoint, Ready, Forward,
      Carriers;
    var w4, w7;
    steps, w4 := SentTwice(s);
    steps, w7 := BothArrive(s, steps, w4);
    w := BothAcked(s, steps, w7);
    steps := steps + [Arrive(Left, 1)];
    ReportedPerPacket(s, steps, w, Left, 0);
    TwoCarriers(w.left.t.out, Done(w.left.t), TheMessage());
    StartChannels(s);
  }

  lemma {:induction false} StartChannels(s: Setting)
    ensures |Start(s).left.e.channels| == 2 && Start(s).left.e.channels[1].Reliable?
  {
  }

  lemma {:induction false} FreshCanSend(x: Node, n: nat)
    requires x.t == NewTrace() && x.recorded == 0 && GoodCapacity(n)
    ensures CanSend(x, n) && x.t.sentU == 0
  {
  }

  lemma {:induction false} RightStart(s: Setting)
    ensures var y := Start(s).right;
            y.t == NewTrace() && y.tops == [0, 0] && y.recorded == 0 && y.e.config == s.right
  {
  }

  lemma {:induction false} TwoCarriers(out: map<int, Sent<Cargo>>, done: set<int>, m: Message)
    requires {1, 2} <= done && 1 in out && 2 in out && out[1].body.messages == [m] == out[2].body.messages
    ensures |Carriers(out, done, m)| >= 2
  {
    var all := Carriers(out, done, m);
    assert 1 in all && 2 in all;
    SubsetSize({1, 2}, all);
  }
}
