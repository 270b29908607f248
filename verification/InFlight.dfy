/** Backpressure: how many packets an endpoint that sends through the packet loop only can have
    beyond the newest one acked. */
module InFlight {
  import opened SequenceWindow
  import opened AckHeaders
  import opened Packets
  import opened PacketLayer
  import opened PacketInvariants
  import opened Endpoints
  import opened Dispatchers
  import opened MessageBooks
  import opened Reassembly
  import opened Deliveries
  import opened Acknowledging
  import opened Nodes
  import opened Posting
  import opened Departing
  import opened Arriving
  import opened Network

  /** Packets really sent with ids beyond the newest one acked. */
  ghost function Outstanding(t: Trace<Cargo>): set<int> {
    set u | u in t.out && t.newestU < u
  }

  ghost predicate Bounded(t: Trace<Cargo>) {
    |Outstanding(t)| <= MAX_UNACKED_PACKETS && t.sentU - t.newestU < 32768
  }

  /** Nothing but the packet loop sends on this side, and acks arrive within half the sequence
      space. */
  ghost predicate Prompt(w: World, side: Side, step: Step) {
    step.at == side ==>
      && !step.Control?
      && (step.Arrive? && step.u in w.Peer(side).t.out ==>
            w.At(side).t.sentU - w.Peer(side).t.out[step.u].ackBase + MAX_UNACKED_PACKETS <= 32768)
  }

  ghost predicate PromptRun(w: World, n: nat, side: Side, steps: seq<Step>)
    decreases |steps|
  {
    steps == [] ||
    (Possible(w, n, steps[0]) && Prompt(w, side, steps[0]) && PromptRun(Next(w, n, steps[0]), n, side, steps[1..]))
  }

  lemma {:induction false} RangeSize(s: set<int>, lo: int, hi: int)
    requires lo <= hi && forall x | x in s :: lo < x <= hi
    ensures |s| <= hi - lo
    decreases hi - lo
  {
    if lo < hi {
      RangeSize(s - {hi}, lo, hi - 1);
    } else {
      forall x: int
        ensures x !in s
      {
      }
      assert s == {};
    }
  }

  // -- sending --

  lemma {:induction false} FewUnacked(s: PacketState, t: Trace<Cargo>, n: nat)
    requires Local(s, t, n) && Bounded(t) && SentUnacked(s) < MAX_UNACKED_PACKETS
    ensures t.sentU - t.newestU < MAX_UNACKED_PACKETS && |Outstanding(t)| < MAX_UNACKED_PACKETS
  {
    DistancesExact(s, t);
    RangeSize(Outstanding(t), t.newestU, t.sentU);
  }

  lemma {:induction false} PackBounded(x: Node, n: nat)
    requires NodeOk(x, n) && CanSend(x, n) && Bounded(x.t) && Sends(x.e) && QueuesOnce(x.book, x.e.channels)
    ensures Bounded(PackOne(x).t)
  {
    hide Local, WellKept, OutKept, LooseOnce, AllReadable, Filed, Outstanding, QueuesOnce, ComposeOne, Readable,
      SetHandles, NextHeader, Shrunk;
    FewUnacked(x.e.packets, x.t, n);
    OutBelow(x.e.packets, x.t, n);
    GoodCapacityOf(x.e.packets, x.t, n);
    if ComposeOne(x.e).1.Ok? {
      var x', p, load := ComposeShape(x, n);
      AddOutstanding(x.t, x'.t, p.header, Cargo(p.packet, p.messages));
    } else {
      assert Outstanding(PackOne(x).t) == Outstanding(x.t) by {
        SameOutstanding(x.t, PackOne(x).t);
      }
    }
  }

  lemma {:induction false} GoodCapacityOf(s: PacketState, t: Trace<Cargo>, n: nat)
    requires Local(s, t, n)
    ensures MAX_UNACKED_PACKETS <= n
  {
  }

  lemma {:induction false} SameOutstanding(t: Trace<Cargo>, t': Trace<Cargo>)
    requires t'.out == t.out && t'.newestU == t.newestU
    ensures Outstanding(t') == Outstanding(t)
  {
  }

  lemma {:induction false} AddOutstanding(t: Trace<Cargo>, t': Trace<Cargo>, h: Header, body: Cargo)
    requires NextTrace(t, t', h, body)
    ensures |Outstanding(t')| <= |Outstanding(t)| + 1 && t'.sentU == t.sequenceU + 1 && t'.newestU == t.newestU
  {
    SubsetSize(Outstanding(t'), Outstanding(t) + {t.sequenceU + 1});
  }

  // -- acks --

  /** Every ack names a packet less than half the sequence space old. */
  ghost predicate Recent(t: Trace<Cargo>, acks: seq<Ack>) {
    forall k | 0 <= k < |acks| && acks[k].1 :: t.sentU - 32768 < Owner(acks[k].0, t.sentU)
  }

  lemma {:induction false} NewestStays(t: Trace<Cargo>, t': Trace<Cargo>, acks: seq<Ack>, xs: seq<int>)
    requires FromAcks(t, t', acks, xs) && Recent(t, acks) && t.sentU - t.newestU < 32768
    ensures t.newestU <= t'.newestU
  {
    hide Owner;
    forall x | x in xs
      ensures t.sentU - 32768 < x
    {
      var k :| 0 <= k < |acks| && acks[k].1 && Owner(acks[k].0, t.sentU) == x;
    }
  }

  lemma {:induction false} HeaderRecent(t: Trace<Cargo>, p: Sent<Cargo>, u: int, accepted: map<int, ReceivedMeta>,
                                        peer: Trace<Cargo>)
    requires HeaderTrue(p, u, accepted) && t.sentU - p.ackBase + MAX_UNACKED_PACKETS <= 32768
    requires forall x | x in accepted :: x <= t.sentU
    ensures Recent(t, AcksOf(p.header))
  {
    hide AcksOf;
    forall k | 0 <= k < |AcksOf(p.header)| && AcksOf(p.header)[k].1
      ensures t.sentU - 32768 < Owner(AcksOf(p.header)[k].0, t.sentU)
    {
      OwnerOf(p.ackBase - k, t.sentU);
    }
  }

  lemma {:induction false} ArriveBounded(x: Node, y: Node, n: nat, u: int)
    requires PairOk(x, y, n) && CanArrive(x, y, n, u) && Bounded(x.t)
    requires x.t.sentU - y.t.out[u].ackBase + MAX_UNACKED_PACKETS <= 32768
    ensures Bounded(Deliver(x, y.t.out[u], u).t)
  {
    hide Local, WellKept, OutKept, LooseOnce, Readable, Filed, Receiving, Landed, Sending, WatermarkSafe, AcceptPacket,
      AfterAcks, AcksOf, Honest, ReceiveDatagram, Windowed, Recent, Timely, HeaderTrue, Outstanding, FromAcks;
    LocalValid(x.e.packets, x.t, n);
    if AcceptPacket(x.e.packets, y.t.out[u].header.id).Ok? {
      var s1, t1 := AcceptTakes(x, y, n, u);
      PeerHeader(y, n, u);
      PeerAccepted(x, y, n);
      HeaderRecent(t1, y.t.out[u], u, y.t.accepted, y.t);
      var _, _, t2, xs := AcksAreLocal(s1, t1, n, AcksOf(y.t.out[u].header));
      NewestStays(t1, t2, AcksOf(y.t.out[u].header), xs);
      FewerOutstanding(x.t, Deliver(x, y.t.out[u], u).t);
    }
  }

  lemma {:induction false} PeerAccepted(x: Node, y: Node, n: nat)
    requires Local(x.e.packets, x.t, n) && AckSound(x.t, y.t)
    ensures forall v | v in y.t.accepted :: v <= x.t.sentU
  {
    OutBelow(x.e.packets, x.t, n);
  }

  lemma {:induction false} FewerOutstanding(t: Trace<Cargo>, t': Trace<Cargo>)
    requires t'.out == t.out && t.newestU <= t'.newestU
    ensures |Outstanding(t')| <= |Outstanding(t)|
  {
    SubsetSize(Outstanding(t'), Outstanding(t));
  }

  // -- runs --

  lemma {:induction false} StepBounded(w: World, n: nat, side: Side, step: Step)
    requires PairOk(w.At(side), w.Peer(side), n) && Bounded(w.At(side).t)
    requires Possible(w, n, step) && Prompt(w, side, step)
    ensures Bounded(Next(w, n, step).At(side).t)
  {
    hide Bounded, NodeOk, Sending, Receiving, Landed, AckSound, WatermarkSafe, CanPost, CanSend, PackOne, Signal,
      Deliver, Ready, Sends, AfterAcks, SendMessage, AfterPost, TickAll;
    var x, y := w.At(side), w.Peer(side);
    if step.at == side {
      match step {
        case Send(_, channel, payload) =>
        case Time(_, dt) =>
        case Pack(_) =>
          if Sends(x.e) {
            QueuesOf(x, y);
            PackBounded(x, n);
          }
        case Arrive(_, u) =>
          ArriveBounded(x, y, n, u);
      }
    }
  }

  lemma {:induction false} RunBounded(w: World, n: nat, side: Side, steps: seq<Step>, w': World)
    requires PairOk(w.At(side), w.Peer(side), n) && Bounded(w.At(side).t)
    requires Reaches(w, n, steps, w') && PromptRun(w, n, side, steps)
    ensures Bounded(w'.At(side).t)
    decreases |steps|
  {
    hide Bounded, PairOk, Possible, Prompt, Next;
    if steps != [] {
      PairSwap(w.left, w.right, n);
      StepBounded(w, n, side, steps[0]);
      StepKeeps(w, n, steps[0]);
      var w1 := Next(w, n, steps[0]);
      PairSwap(w1.left, w1.right, n);
      RunBounded(w1, n, side, steps[1..], w');
    }
  }

  /** In runs that send only through the packet loop, at most 350 packets really sent carry ids
      beyond the newest one acked, whatever ids were used up by headers that failed. */
  lemma {:induction false} InFlightBound(s: Setting, steps: seq<Step>, w: World, side: Side)
    requires Reachable(s, steps, w) && PromptRun(Start(s), s.n, side, steps)
    ensures |Outstanding(w.At(side).t)| <= MAX_UNACKED_PACKETS
  {
    hide NodeOk, DirectionOk, Reaches, PromptRun, NewEndpoint;
    NewPairOk(s.left, s.right, s.n, s.fragMapLeft, s.fragMapRight, s.time, s.salt);
    PairSwap(Start(s).left, Start(s).right, s.n);
    assert Outstanding(Start(s).At(side).t) == {};
    RunBounded(Start(s), s.n, side, steps, w);
  }
}
