/** The packet loop in a running network: every due message leaves, in exactly one packet. */
module PacketLoop {
  import opened Words
  import opened AckHeaders
  import opened Messages
  import opened Packets
  import opened Channels
  import opened Reassembler
  import opened Dispatchers
  import opened PacketLayer
  import opened PacketInvariants
  import opened Endpoints
  import opened MessageBooks
  import opened Deliveries
  import opened Acknowledging
  import opened Transmitting
  import opened Composing
  import opened Nodes
  import opened Departing
  import opened Network

  // -- what was sent is small enough --

  lemma {:induction false} OutboundSmall(m: Message)
    requires IsOutbound(m) && |PayloadOf(m)| <= FRAGMENT_SIZE
    ensures m.Size() <= MAX_MESSAGE
  {
    var whole := NewOutbound(m.id, m.channel, PayloadOf(m), m.fragment);
  }

  lemma {:induction false} EntrySmall(b: Book, m: Message)
    requires WellKept(b) && InTable(b, m, m.channel)
    ensures m.Size() <= MAX_MESSAGE
  {
    hide IsOutbound, Fits, NumFragments, Message.Size;
    assert Entry(b, m.id);
    if m.fragment.Some? {
      SplitArithmetic(|b.posted[m.fragment.value.parentId].payload|, m.fragment.value.index);
    }
    OutboundSmall(m);
  }

  lemma {:induction false} QueuesSmall(b: Book, cs: seq<Channel>)
    requires WellKept(b) && QueuesOnce(b, cs)
    ensures SmallMessages(cs)
  {
    hide Queued, Once, Message.Size, WellKept;
    forall i, j | 0 <= i < |cs| && 0 <= j < |Queued(cs[i])|
      ensures Queued(cs[i])[j].Size() <= MAX_MESSAGE
    {
      assert QueuedOnce(b, cs[i]);
      assert InTable(b, Queued(cs[i])[j], cs[i].id);
      EntrySmall(b, Queued(cs[i])[j]);
    }
  }

  // -- rounds --

  /** A round fails only for want of a header. */
  lemma {:induction false} RoundTaken(x: Node, n: nat)
    requires NodeOk(x, n) && CanSend(x, n) && Composable(x.e)
    ensures ComposeOne(x.e).1.Ok? <==> NextHeader(x.e.packets, MessagesType).1.Ok?
    ensures ComposeOne(x.e).1.Err? ==> ComposeOne(x.e).1 == Err(TooManyPending)
  {
    hide Local, WellKept, Numbered, OutKept, LooseOnce, AllReadable, Filed, RecordSent, SetHandles, Fill, Coalesce,
      SmallMessages, HeaderBytes, Body;
    var next := NextHeader(x.e.packets, MessagesType);
    if next.1.Ok? {
      HeaderFits(x.e.packets, x.e.xorSalt.value);
      var head := PacketBytes(MessagesPacket(next.1.value, x.e.xorSalt.value));
      RecordsTaken(x, n, MessagesType, Fill(x.e.channels, x.e.config.maxPacketSize - |head|, Load([], [])).1);
    }
  }

  lemma {:induction false} RoundStays(x: Node, n: nat) returns (x': Node)
    requires NodeOk(x, n) && CanSend(x, n) && QueuesOnce(x.book, x.e.channels)
    requires ComposeOne(x.e).1.Ok?
    ensures x' == PackOne(x) && x'.e == ComposeOne(x.e).0
    ensures NodeOk(x', n) && CanSend(x', n) && QueuesOnce(x'.book, x'.e.channels)
  {
    hide ComposeOne, Local, WellKept, OutKept, LooseOnce, AllReadable, Readable, Filed, HandlesFor, QueuesOnce,
      SetHandles, NextHeader, Wrap;
    var p, load;
    x', p, load := ComposeShape(x, n);
    ComposedNodeOk(x, x', n, p, load);
    GapSmall(x, n);
  }

  lemma {:induction false} GapSmall(x: Node, n: nat)
    requires NodeOk(x, n)
    ensures n <= 16384
  {
    hide WellKept, OutKept, LooseOnce, AllReadable, Filed;
  }

  /** The records are never too old. */
  lemma {:induction false} LoopNeverTooOld(x: Node, n: nat)
    requires NodeOk(x, n) && CanSend(x, n) && QueuesOnce(x.book, x.e.channels) && Composable(x.e)
    ensures ComposeLoop(x.e).1 != Err(SequenceTooOld)
    decreases TotalReady(x.e.channels)
  {
    hide NodeOk, CanSend, QueuesOnce, ComposeOne, Composable, SentUnacked;
    if FirstReady(x.e.channels) < |x.e.channels| && SentUnacked(x.e.packets) < MAX_UNACKED_PACKETS {
      ComposableReady(x.e);
      RoundTaken(x, n);
      match ComposeOne(x.e)
      case (_, Err(_)) =>
      case (e', Ok(p)) =>
        var x' := RoundStays(x, n);
        ComposeOneProgress(x.e, e', p);
        LoopNeverTooOld(x', n);
    }
  }

  lemma {:induction false} ComposableReady(e: Endpoint)
    requires Composable(e)
    ensures Ready(e) && e.xorSalt.Some?
  {
    hide SmallMessages;
  }

  // -- in every run --

  lemma {:induction false} ReachableComposable(s: Setting, steps: seq<Step>, w: World, side: Side)
    requires Reachable(s, steps, w) && MAX_HEADER + MAX_MESSAGE <= w.At(side).e.config.maxPacketSize
    ensures Composable(w.At(side).e)
    ensures NodeOk(w.At(side), s.n) && QueuesOnce(w.At(side).book, w.At(side).e.channels)
  {
    hide Reachable, Local, OutKept, LooseOnce, AllReadable, Filed, Receiving, ReportsRight, Retained, Landed, AckSound,
      WatermarkSafe, QueuesOnce, SmallMessages, WellKept;
    AlwaysPaired(s, steps, w, side);
    QueuesSmall(w.At(side).book, w.At(side).e.channels);
  }

  /** In every reachable world, a call of `compose_packets` conserves the due messages: when it
      succeeds, its packets carry exactly the messages that were due, each of them once; under
      backpressure, whatever they do not carry is still queued and due.  Every packet fits the size
      limit and carries at least one message. */
  lemma {:induction false} ComposingConserves(s: Setting, steps: seq<Step>, w: World, side: Side)
    requires Reachable(s, steps, w) && CanSend(w.At(side), s.n)
    requires MAX_HEADER + MAX_MESSAGE <= w.At(side).e.config.maxPacketSize
    ensures var e := w.At(side).e;
            && Composable(e)
            && Conserves(e, Compose(e).0, Compose(e).1, Emitted(e))
            && (forall m :: Due(e.channels)[m] <= 1)
            && forall i | 0 <= i < |Emitted(e)| :: WellFormed(e, Emitted(e)[i])
  {
    hide Reachable, NodeOk, CanSend, QueuesOnce, ComposeLoop, Emitted, Due, Conserves, WellFormed, SentUnacked,
      Composable;
    ReachableComposable(s, steps, w, side);
    var x := w.At(side);
    ComposableReady(x.e);
    LoopNeverTooOld(x, s.n);
    if SentUnacked(x.e.packets) >= MAX_UNACKED_PACKETS {
      assert Emitted(x.e) == [] by {
        NothingEmitted(x.e);
      }
      ConservesNil(x.e, x.e, Err(TooManyPending));
    } else {
      ComposeConserves(x.e);
    }
    forall i | 0 <= i < |Emitted(x.e)|
      ensures WellFormed(x.e, Emitted(x.e)[i])
    {
      EmittedWellFormed(x.e, i);
    }
    forall m
      ensures Due(x.e.channels)[m] <= 1
    {
      NumberedNode(x, s.n);
      DueAt(x.book, x.e.channels, m);
    }
  }

  /** A round that fails for want of a header. */
  lemma {:induction false} RoundRefused(e: Endpoint, e': Endpoint)
    requires Composable(e) && ComposeOne(e) == (e', Err(TooManyPending))
    ensures MAX_UNACKED_PACKETS < ReceivedUnacked(e.packets)
  {
    hide Fill, Coalesce, SmallMessages, GoodChannels, ReceivedUnacked;
    var next := NextHeader(e.packets, MessagesType);
    if next.1.Ok? {
      HeaderFits(e.packets, e.xorSalt.value);
    } else if 0 < ReceivedUnacked(e.packets) <= MAX_UNACKED_PACKETS {
      AckRoundTrip(e.packets.received, ReceivedUnacked(e.packets), [], 0);
    }
  }

  lemma {:induction false} RoundSameReceived(e: Endpoint, e': Endpoint, p: Composed)
    requires Composable(e) && ComposeOne(e) == (e', Ok(p))
    ensures ReceivedUnacked(e'.packets) == ReceivedUnacked(e.packets)
  {
    hide ComposeOne, Fill, Coalesce, SmallMessages, GoodChannels, PacketBytes, NextHeader;
    var _, _, _, _, _, _ := ComposeOneShape(e);
  }

  /** Backpressure has one of two reasons. */
  lemma {:induction false} LoopStops(e: Endpoint)
    requires Composable(e) && ComposeLoop(e).1 == Err(TooManyPending)
    ensures Due(ComposeLoop(e).0.channels) != multiset{}
    ensures MAX_UNACKED_PACKETS <= SentUnacked(ComposeLoop(e).0.packets)
         || MAX_UNACKED_PACKETS < ReceivedUnacked(e.packets)
    decreases TotalReady(e.channels)
  {
    hide ComposeOne, SmallMessages, SentUnacked, ReceivedUnacked, FirstReady, Due, Ready;
    NothingDue(e.channels);
    if FirstReady(e.channels) < |e.channels| && SentUnacked(e.packets) < MAX_UNACKED_PACKETS {
      match ComposeOne(e)
      case (e', Err(error)) =>
        RoundFails(e, e', error);
        RoundRefused(e, e');
      case (e', Ok(p)) =>
        ComposeOneProgress(e, e', p);
        RoundSameReceived(e, e', p);
        LoopStops(e');
    }
  }

  /** A call of `compose_packets` fails if and only if 350 packets or more may be unacked at its start, and
      then it does nothing, or something is left due at its end.  What is left due is left because 350
      packets or more may be unacked by then, or because more than 350 were received that the peer is
      not known to have seen acked. */
  lemma {:induction false} ComposingStops(s: Setting, steps: seq<Step>, w: World, side: Side)
    requires Reachable(s, steps, w) && CanSend(w.At(side), s.n)
    requires MAX_HEADER + MAX_MESSAGE <= w.At(side).e.config.maxPacketSize
    ensures var x := w.At(side);
            && Composable(x.e)
            && var (e', r) := Compose(x.e);
            && (r.Err? <==> 350 <= SentUnacked(x.e.packets) || Due(e'.channels) != multiset{})
            && (r.Err? ==> 350 <= SentUnacked(e'.packets) || 350 < x.t.receivedU - x.t.lowU)
            && (350 <= SentUnacked(x.e.packets) ==> e' == x.e)
  {
    hide Reachable, NodeOk, QueuesOnce, ComposeLoop, Due, SentUnacked, ReceivedUnacked, Composable;
    ReachableComposable(s, steps, w, side);
    var x := w.At(side);
    ComposingConserves(s, steps, w, side);
    NodeDistances(x, s.n);
    if SentUnacked(x.e.packets) < MAX_UNACKED_PACKETS && ComposeLoop(x.e).1.Err? {
      LoopNeverTooOld(x, s.n);
      LoopStops(x.e);
    }
  }

  lemma {:induction false} NodeDistances(x: Node, n: nat)
    requires NodeOk(x, n) && x.t.receivedU - x.t.lowU < 65536
    ensures ReceivedUnacked(x.e.packets) == x.t.receivedU - x.t.lowU
  {
    hide Local, WellKept, OutKept, LooseOnce, AllReadable, Filed, ReceivedUnacked;
    DistancesAre(x.e.packets, x.t, n);
  }

  lemma {:induction false} NothingEmitted(e: Endpoint)
    requires Composable(e) && SentUnacked(e.packets) >= MAX_UNACKED_PACKETS
    ensures Emitted(e) == []
  {
  }

  lemma {:induction false} NumberedNode(x: Node, n: nat)
    requires NodeOk(x, n)
    ensures Numbered(x.e.channels)
  {
    hide Local, WellKept, OutKept, LooseOnce, AllReadable, Filed;
  }
}
