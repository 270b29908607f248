/** The packet layer of one endpoint against any peer at all: whatever ids and acks arrive, right,
    wrong or forged, what it keeps stays meaningful, and moves forward only. */
module ArbitraryPeer {
  import opened Words
  import opened SequenceWindow
  import opened AckHeaders
  import opened Packets
  import opened PacketLayer
  import opened PacketInvariants
  import opened Messages
  import opened Dispatchers
  import opened Endpoints
  import opened Departing

  /** A packet is sent; a header is made in vain; or a header arrives, with any id and any acks. */
  datatype Move = Emit(kind: PacketType) | Waste(kind: PacketType) | Hear(id: u16, acks: seq<Ack>)

  /** The packet layer and its history. */
  datatype Layer = Layer(s: PacketState, t: Trace<()>)

  /** `next_packet_header`, then `send_raw_packet`; a packet that cannot be recorded is not sent. */
  function Emitted(s: PacketState, kind: PacketType): PacketState
    requires s.Valid() && s.received.Valid()
  {
    var (s1, h) := NextHeader(s, kind);
    if h.Err? then s1
    else match RecordSent(s1)
      case Err(_) => s1
      case Ok(s2) => s2
  }

  function Heard(s: PacketState, id: u16, acks: seq<Ack>): PacketState
    requires s.Valid()
  {
    match AcceptPacket(s, id)
    case Err(_) => s
    case Ok(s1) => ProcessAcks(s1, acks).0
  }

  ghost function After(x: Layer, n: nat, move: Move): Layer
    requires x.s.Valid() && x.s.received.Valid()
  {
    match move
    case Emit(kind) =>
      var (s1, h) := NextHeader(x.s, kind);
      Layer(Emitted(x.s, kind), if h.Err? || RecordSent(s1).Err? then AfterHeader(x.t) else AfterSend(x.t, h.value, ()))
    case Waste(kind) => Layer(NextHeader(x.s, kind).0, AfterHeader(x.t))
    case Hear(id, acks) =>
      Layer(Heard(x.s, id, acks),
            match AcceptPacket(x.s, id)
            case Err(_) => x.t
            case Ok(s1) => AfterAcks(s1, AfterAccept(x.t, Unwrap(id, x.t.receivedU, n)), acks).0)
  }

  /** What the run keeps to: less than one full turn, less the capacity, of packet ids is used up
      without a packet being sent. */
  ghost predicate Apart(x: Layer, n: nat, move: Move) {
    move.Emit? ==> x.t.sequenceU + 1 - x.t.sentU < 65536 - n
  }

  ghost predicate Runs(x: Layer, n: nat, moves: seq<Move>, x': Layer)
    decreases |moves|
  {
    if moves == [] then x' == x
    else
      && x.s.Valid() && x.s.received.Valid() && Apart(x, n, moves[0])
      && Runs(After(x, n, moves[0]), n, moves[1..], x')
  }

  /** A new endpoint.  What was received is counted from one full turn up, so that no id that can
      arrive is negative. */
  function NewLayer(n: nat): Layer {
    Layer(NewPacketState(n, n), Trace(0, 0, 65536, 0, 65536, map[], map[], map[], {}))
  }

  ghost predicate Sane(x: Layer, n: nat) {
    Local(x.s, x.t, n) && 65536 <= x.t.receivedU
  }

  lemma {:induction false} NewIsSane(n: nat)
    requires GoodCapacity(n)
    ensures Sane(NewLayer(n), n)
  {
    NewRingTracks(n, UNSENT);
    NewRingTracks(n, ReceivedMeta);
    assert Wrap(65536) == 0;
  }

  // -- every move --

  /** Whatever wire id is taken in stands for one new id in reach. */
  lemma {:induction false} AcceptAny(s: PacketState, t: Trace<()>, n: nat, id: u16)
    requires Local(s, t, n) && 65536 <= t.receivedU
    requires AcceptPacket(s, id).Ok?
    ensures var u, s1 := Unwrap(id, t.receivedU, n), AcceptPacket(s, id).value;
            && Wrap(u) == id && u !in t.accepted && t.receivedU - n < u <= t.receivedU + 32768 - n
            && Local(s1, AfterAccept(t, u), n) && s1.sent == s.sent
  {
    hide Wrap, Unwrap, Genuine, SequenceGreaterThan;
    var u := Unwrap(id, t.receivedU, n);
    WrapArithmetic(t.receivedU, n);
    UnwrapExact(id, t.receivedU, n);
    GetExact(s.received, t.receivedU, t.accepted, u);
    InsertTracks(s.received, t.receivedU, t.accepted, u, ReceivedMeta, ReceivedMeta);
    var s1 := AcceptPacket(s, id).value;
    assert s1 == s.(received := s1.received);
    AcceptedNumbers(s, s1, t, u);
  }

  lemma {:induction false} AcceptedNumbers(s: PacketState, s1: PacketState, t: Trace<()>, u: int)
    requires Numbers(s, t) && SentTrue(t) && s1 == s.(received := s1.received) && 0 < u
    ensures Numbers(s1, AfterAccept(t, u)) && SentTrue(AfterAccept(t, u))
  {
  }

  lemma {:induction false} EmitSane(x: Layer, n: nat, kind: PacketType)
    requires Sane(x, n) && x.s.Valid() && x.s.received.Valid() && Apart(x, n, Emit(kind))
    ensures Sane(After(x, n, Emit(kind)), n)
  {
    hide Local, NextHeader, RecordSent;
    var (s1, h) := NextHeader(x.s, kind);
    NextValid(x.s, kind);
    if h.Err? || RecordSent(s1).Err? {
      HeaderFailsKeeps(x.s, x.t, n, kind);
    } else {
      SendKeepsLocal(x.s, x.t, n, kind, ());
    }
  }

  lemma {:induction false} HeaderFailsSane(x: Layer, n: nat, kind: PacketType)
    requires Sane(x, n) && x.s.Valid() && x.s.received.Valid()
    ensures Sane(After(x, n, Waste(kind)), n)
  {
    hide Local, NextHeader;
    HeaderFailsKeeps(x.s, x.t, n, kind);
  }

  lemma {:induction false} NextValid(s: PacketState, kind: PacketType)
    requires s.Valid() && s.received.Valid()
    ensures NextHeader(s, kind).0.Valid()
  {
    hide BuildAckHeader, AckList;
  }

  lemma {:induction false} HearSane(x: Layer, n: nat, id: u16, acks: seq<Ack>)
    requires Sane(x, n) && x.s.Valid() && x.s.received.Valid()
    ensures Sane(After(x, n, Hear(id, acks)), n)
    ensures x.t.receivedU <= After(x, n, Hear(id, acks)).t.receivedU
  {
    hide Local, AcceptPacket, Unwrap, ProcessAcks, AfterAcks, FromAcks;
    if AcceptPacket(x.s, id).Ok? {
      var u := Unwrap(id, x.t.receivedU, n);
      AcceptAny(x.s, x.t, n, id);
      var _, _, t', _ := AcksAreLocal(AcceptPacket(x.s, id).value, AfterAccept(x.t, u), n, acks);
    }
  }

  lemma {:induction false} RunSane(x: Layer, n: nat, moves: seq<Move>, x': Layer)
    requires Sane(x, n) && Runs(x, n, moves, x')
    ensures Sane(x', n)
    decreases |moves|
  {
    hide Sane, After;
    if moves != [] {
      match moves[0] {
        case Emit(kind) => EmitSane(x, n, kind);
        case Waste(kind) => HeaderFailsSane(x, n, kind);
        case Hear(id, acks) => HearSane(x, n, id, acks);
      }
      RunSane(After(x, n, moves[0]), n, moves[1..], x');
    }
  }

  /** Against any peer: the newest ack always names a packet really sent, and the watermark is an id
      that was once the newest received, so never beyond the newest received now. */
  lemma {:induction false} ArbitraryHeaders(n: nat, moves: seq<Move>, x: Layer)
    requires GoodCapacity(n) && Runs(NewLayer(n), n, moves, x)
    ensures Local(x.s, x.t, n)
    ensures x.s.newestAck.Some? ==>
              0 < x.t.newestU && x.t.newestU in x.t.out && x.s.newestAck == Some(Wrap(x.t.newestU))
    ensures x.t.lowU <= x.t.receivedU
    ensures x.s.ackLowWatermark.Some? ==> x.s.ackLowWatermark == Some(Wrap(x.t.lowU))
  {
    hide Runs, Wrap, Tracks;
    NewIsSane(n);
    RunSane(NewLayer(n), n, moves, x);
  }

  /** So the two wrapping subtractions are true distances, while these are less than one full turn. */
  lemma {:induction false} ArbitraryDistances(n: nat, moves: seq<Move>, x: Layer)
    requires GoodCapacity(n) && Runs(NewLayer(n), n, moves, x)
    ensures x.t.newestU <= x.t.sentU && x.t.lowU <= x.t.receivedU
    ensures x.t.sentU - x.t.newestU < 65536 ==> SentUnacked(x.s) == x.t.sentU - x.t.newestU
    ensures x.t.receivedU - x.t.lowU < 65536 ==> ReceivedUnacked(x.s) == x.t.receivedU - x.t.lowU
  {
    hide Runs, Wrap, WrapSub, Genuine, SequenceWindow.Complete;
    NewIsSane(n);
    RunSane(NewLayer(n), n, moves, x);
    DistancesExact(x.s, x.t);
  }

  // -- the endpoint makes these moves --

  /** Any datagram at all: what it does to the packet layer is one header heard, or nothing. */
  lemma {:induction false} DatagramIsHeard(e: Endpoint, datagram: bytes)
    requires Ready(e)
    ensures ReceiveDatagram(e, datagram).0.packets ==
              match ReadPacket(datagram)
              case Err(_) => e.packets
              case Ok((packet, _)) => Heard(e.packets, packet.header.id, AcksOf(packet.header))
  {
    hide AcceptPacket, ReadPacket, ParseMessages, ReceiveAll, ProcessAcks, AckAll, AcksOf, GoodChannels;
    match ReadPacket(datagram) {
      case Err(_) =>
      case Ok((packet, _)) =>
        if AcceptPacket(e.packets, packet.header.id).Ok? {
          AcceptPacketReady(e, packet.header.id);
          TakeAcksReady(e.(packets := AcceptPacket(e.packets, packet.header.id).value), packet.header);
        }
    }
  }

  /** What any datagram at all is answered with.  The id in its header stands for the first id `u`, from
      the lower edge of the window on, that has this wire form: stale at the edge itself and more than
      half the sequence space ahead of it (just half ahead, it depends on the raw value), and a
      duplicate if it was taken in before.  Otherwise only its messages can be at fault. */
  lemma {:induction false} DatagramAnswers(e: Endpoint, t: Trace<()>, n: nat, datagram: bytes)
    requires Ready(e) && Local(e.packets, t, n) && 65536 <= t.receivedU
    ensures var r := ReceiveDatagram(e, datagram).1;
            match ReadPacket(datagram)
            case Err(error) => r == Err(error)
            case Ok((packet, pos)) =>
              var u := Unwrap(packet.header.id, t.receivedU, n);
              var ahead := u - (t.receivedU - n);
              && 0 <= ahead < 65536 && Wrap(u) == packet.header.id
              && r == if ahead == 0 || 32768 < ahead || (ahead == 32768 && packet.header.id < 32768)
                      then Err(StalePacket)
                      else if u in t.accepted then Err(DuplicatePacket)
                      else if packet.header.packetType != MessagesType then Ok(())
                      else match ParseMessages(datagram, pos).1
                        case None => Ok(())
                        case Some(error) => Err(error)
  {
    hide ReadPacket, ParseMessages, ReceiveAll, ProcessAcks, AckAll, AcksOf, GoodChannels, Genuine,
      SequenceWindow.Complete, Local, Unwrap;
    match ReadPacket(datagram) {
      case Err(_) =>
      case Ok((packet, pos)) =>
        AcceptAnswers(e.packets, t, n, packet.header.id);
        if AcceptPacket(e.packets, packet.header.id).Ok? {
          AcceptPacketReady(e, packet.header.id);
          TakeAcksReady(e.(packets := AcceptPacket(e.packets, packet.header.id).value), packet.header);
        }
    }
  }

  lemma {:induction false} AcceptAnswers(s: PacketState, t: Trace<()>, n: nat, id: u16)
    requires Local(s, t, n) && s.Valid() && 65536 <= t.receivedU
    ensures var u := Unwrap(id, t.receivedU, n);
            var ahead := u - (t.receivedU - n);
            && 0 <= ahead < 65536 && Wrap(u) == id
            && (if ahead == 0 || 32768 < ahead || (ahead == 32768 && id < 32768)
                then AcceptPacket(s, id) == Err(StalePacket)
                else if u in t.accepted then AcceptPacket(s, id) == Err(DuplicatePacket)
                else AcceptPacket(s, id).Ok?)
  {
    hide Genuine, SequenceWindow.Complete;
    var u := Unwrap(id, t.receivedU, n);
    UnwrapIs(id, t.receivedU, n);
    WrapArithmetic(t.receivedU, n);
    if SequenceGreaterThan(id, Wrap(t.receivedU - n)) {
      GetExact(s.received, t.receivedU, t.accepted, u);
      InsertTracks(s.received, t.receivedU, t.accepted, u, ReceivedMeta, ReceivedMeta);
    }
  }

  lemma {:induction false} UnwrapIs(id: u16, top: int, n: nat)
    ensures var u := Unwrap(id, top, n);
            var ahead := u - (top - n);
            && 0 <= ahead < 65536 && Wrap(u) == id
            && (SequenceGreaterThan(id, Wrap(top - n)) <==>
                  !(ahead == 0 || 32768 < ahead || (ahead == 32768 && id < 32768)))
  {
    var edge := top - n;
    WrapMoves(edge);
    WrapTurns(id - Wrap(edge), -(edge / 65536));
    WrapMoves(id - edge);
    WrapTurns(id, -((id - edge) / 65536));
  }

  /** A round of the packet loop. */
  lemma {:induction false} RoundIsEmitted(e: Endpoint)
    requires Ready(e) && e.xorSalt.Some?
    ensures ComposeOne(e).0.packets in {Emitted(e.packets, MessagesType), NextHeader(e.packets, MessagesType).0}
  {
    hide NextHeader, RecordSent, PacketBytes, Fill, SetHandles, Coalesce, GoodChannels;
    NextValid(e.packets, MessagesType);
  }

  /** A packet of the handshake, a keep-alive or a disconnect. */
  lemma {:induction false} SignalIsEmitted(e: Endpoint, p: Packet)
    requires Ready(e) && IsControl(p)
    ensures var kind := p.header.packetType;
            SendPacket(e, p).0.packets in {Emitted(e.packets, kind), NextHeader(e.packets, kind).0}
  {
    hide NextHeader, RecordSent, PacketBytes, GoodChannels;
    NextValid(e.packets, p.header.packetType);
  }

  // -- forward only --

  /** The spans are under half the sequence space: from the newest ack and from every packet that can
      still be acked to the newest sent, and from the watermark and from what any such packet acked
      to the newest received. */
  ghost predicate Narrow(s: PacketState, t: Trace<()>)
    requires 0 < |s.sent.tags| == |s.sent.entries|
  {
    && (t.newestU != 0 ==> t.sentU - t.newestU < 32768)
    && t.receivedU - t.lowU < 32768
    && forall u | u in t.out && t.sentU - 65536 < u && Held(s.sent, u) ::
         t.sentU - u < 32768 && t.receivedU - t.out[u].ackBase < 32768
  }

  /** One ack that is taken. */
  lemma {:induction false} AckForward(s: PacketState, t: Trace<()>, n: nat, id: u16)
    requires Local(s, t, n) && s.Valid() && Narrow(s, t) && ProcessAck(s, (id, true)).1
    ensures var x, s1 := Owner(id, t.sentU), ProcessAck(s, (id, true)).0;
            && x in t.out && x in t.meta && s1.Valid()
            && var t1 := AfterAck(s, t, x);
            && Narrow(s1, t1)
            && t.newestU <= t1.newestU && x <= t1.newestU
            && t.lowU <= t1.lowU && t.out[x].ackBase <= t1.lowU
  {
    hide Sound, SequenceWindow.Complete, Owner, Newer, Wrap;
    var x := Owner(id, t.sentU);
    AckIsLocal(s, t, n, id);
    OwnerWraps(id, t.sentU);
    LocalBounds(s, t, n, x);
    FoundInSlot(s, x, n);
    AckMovesForward(s, t, n, x);
    SameTags(s, id);
    NarrowStays(s, ProcessAck(s, (id, true)).0, t, AfterAck(s, t, x));
  }

  lemma {:induction false} LocalBounds(s: PacketState, t: Trace<()>, n: nat, x: int)
    requires Local(s, t, n) && x in t.out
    ensures x <= t.sentU && t.newestU <= t.sentU && t.out[x].ackBase <= t.receivedU && t.lowU <= t.receivedU
    ensures GoodCapacity(n) && s.sent.Capacity() == n && t.meta.Keys == t.out.Keys && s.sent.Valid()
  {
  }

  lemma {:induction false} FoundInSlot(s: PacketState, x: int, n: nat)
    requires 0 < |s.sent.entries| == |s.sent.tags| == n && 65536 % n == 0
    requires s.sent.Exists(Wrap(x))
    ensures Held(s.sent, x)
  {
    WrapKeepsSlot(x, n);
  }

  lemma {:induction false} SameTags(s: PacketState, id: u16)
    requires s.Valid()
    ensures var s1 := ProcessAck(s, (id, true)).0;
            s1.Valid() && s1.sent.tags == s.sent.tags
    ensures ProcessAck(s, (id, true)).1 ==> s.sent.Exists(id)
  {
  }

  lemma {:induction false} NarrowStays(s: PacketState, s1: PacketState, t: Trace<()>, t1: Trace<()>)
    requires s.Valid() && s1.Valid() && s1.sent.tags == s.sent.tags
    requires t1.out == t.out && t1.sentU == t.sentU && t1.receivedU == t.receivedU
    requires t.newestU <= t1.newestU && t.lowU <= t1.lowU && (t1.newestU == t.newestU || t.sentU - t1.newestU < 32768)
    requires Narrow(s, t)
    ensures Narrow(s1, t1)
  {
  }

  /** A whole header: the newest ack and the watermark do not move back, and are not behind any
      packet newly acked. */
  lemma {:induction false} AcksForward(s: PacketState, t: Trace<()>, n: nat, acks: seq<Ack>)
    requires Local(s, t, n) && s.Valid() && Narrow(s, t)
    ensures var (t', xs) := AfterAcks(s, t, acks);
            && t.newestU <= t'.newestU && t.lowU <= t'.lowU
            && forall x | x in xs :: x in t.out && x <= t'.newestU && t.out[x].ackBase <= t'.lowU
    decreases |acks|
  {
    hide Local, Owner, Narrow, AfterAck;
    if acks != [] {
      var (s1, first) := ProcessAck(s, acks[0]);
      var x := Owner(acks[0].0, t.sentU);
      if first {
        assert acks[0] == (acks[0].0, true);
        AckIsLocal(s, t, n, acks[0].0);
        AckForward(s, t, n, acks[0].0);
        var t1 := AfterAck(s, t, x);
        SameOutAfter(s, t, x);
        AcksForward(s1, t1, n, acks[1..]);
        var (t', xs) := AfterAcks(s1, t1, acks[1..]);
        assert forall y | y in [x] + xs :: y == x || y in xs;
      } else {
        AcksForward(s1, t, n, acks[1..]);
      }
    }
  }

  lemma {:induction false} SameOutAfter(s: PacketState, t: Trace<()>, x: int)
    requires x in t.meta && x in t.out
    ensures AfterAck(s, t, x).out == t.out
  {
  }

  /** The run keeps the spans narrow whenever acks are processed. */
  ghost predicate NarrowMove(x: Layer, n: nat, move: Move)
    requires x.s.Valid()
  {
    move.Hear? && AcceptPacket(x.s, move.id).Ok? ==>
      var s1 := AcceptPacket(x.s, move.id).value;
      s1.Valid() && Narrow(s1, AfterAccept(x.t, Unwrap(move.id, x.t.receivedU, n)))
  }

  ghost predicate NarrowRun(x: Layer, n: nat, moves: seq<Move>)
    decreases |moves|
  {
    moves == [] ||
    (&& x.s.Valid() && x.s.received.Valid() && NarrowMove(x, n, moves[0])
     && NarrowRun(After(x, n, moves[0]), n, moves[1..]))
  }

  lemma {:induction false} MoveForward(x: Layer, n: nat, move: Move)
    requires Sane(x, n) && x.s.Valid() && x.s.received.Valid() && NarrowMove(x, n, move)
    ensures var x' := After(x, n, move);
            x.t.newestU <= x'.t.newestU && x.t.lowU <= x'.t.lowU && x.t.receivedU <= x'.t.receivedU
  {
    hide Local, AcceptPacket, Unwrap, ProcessAcks, AfterAcks, NextHeader, RecordSent, Narrow;
    if move.Hear? {
      HearSane(x, n, move.id, move.acks);
      if AcceptPacket(x.s, move.id).Ok? {
        AcceptAny(x.s, x.t, n, move.id);
        AcksForward(AcceptPacket(x.s, move.id).value, AfterAccept(x.t, Unwrap(move.id, x.t.receivedU, n)), n,
            move.acks);
      }
    }
  }

  /** Against any peer, over any run whose spans stay under half the sequence space, the newest ack,
      the watermark and the newest received only move forward. */
  lemma {:induction false} ForwardOnly(x: Layer, n: nat, moves: seq<Move>, x': Layer)
    requires Sane(x, n) && Runs(x, n, moves, x') && NarrowRun(x, n, moves)
    ensures x.t.newestU <= x'.t.newestU && x.t.lowU <= x'.t.lowU && x.t.receivedU <= x'.t.receivedU
    decreases |moves|
  {
    hide Sane, After, NarrowMove;
    if moves != [] {
      var x1 := After(x, n, moves[0]);
      MoveForward(x, n, moves[0]);
      match moves[0] {
        case Emit(kind) => EmitSane(x, n, kind);
        case Waste(kind) => HeaderFailsSane(x, n, kind);
        case Hear(id, acks) => HearSane(x, n, id, acks);
      }
      ForwardOnly(x1, n, moves[1..], x');
    }
  }
}
