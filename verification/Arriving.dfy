/** A datagram arrives: late, early, or for the second time. */
module Arriving {
  import opened Words
  import opened SequenceBuffers
  import opened SequenceWindow
  import opened AckHeaders
  import opened Messages
  import opened Packets
  import opened Channels
  import opened Dispatchers
  import opened PacketLayer
  import opened PacketInvariants
  import opened Endpoints
  import opened MessageBooks
  import opened Deliveries
  import opened Acknowledging
  import opened Nodes
  import opened Departing

  /** The packet lives less than half the sequence space, its acks less than a full turn, and the
      messages in it fall into their channels' windows. */
  ghost predicate CanArrive(x: Node, y: Node, n: nat, u: int) {
    && u in y.t.out
    && Timely(x.t, n, u)
    && x.t.sentU - y.t.out[u].ackBase + MAX_UNACKED_PACKETS <= 65536
    && (u !in x.t.accepted && x.t.receivedU - n < u ==> Windowed(x.tops, y.t.out[u].body.messages))
  }

  /** `p` is the packet that the peer sent under the unwrapped id `u`. */
  ghost function Deliver(x: Node, p: Sent<Cargo>, u: int): Node
    requires Ready(x.e)
  {
    var e := ReceiveDatagram(x.e, p.body.packet).0;
    match AcceptPacket(x.e.packets, p.header.id)
    case Err(_) => x.(e := e)
    case Ok(packets) =>
      x.(e := e,
         t := AfterAcks(packets, AfterAccept(x.t, u), AcksOf(p.header)).0,
         rx := NoteAll(x.rx, p.body.messages),
         tops := NewestAll(x.tops, p.body.messages))
  }

  /** What a readable datagram is processed as. */
  lemma {:induction false} ReceiveShape(e: Endpoint, p: Sent<Cargo>)
    requires Ready(e) && Readable(p)
    ensures var accepted := AcceptPacket(e.packets, p.header.id);
            var (e', r, _) := ReceiveDatagram(e, p.body.packet);
            if accepted.Err? then e' == e && r == Err(accepted.error)
            else
              && r == Ok(())
              && Ready(e.(packets := accepted.value))
              && var e1 := TakeAcks(e.(packets := accepted.value), p.header);
              && Ready(e1)
              && var (d, cs, _) := ReceiveAll(e1.dispatcher, e1.channels, InboundAll(p.body.messages));
              && e' == e1.(dispatcher := d, channels := cs)
  {
    hide AcceptPacket, TakeAcks, ReadPacket, ParseMessages, AllOutbound, GoodChannels;
    var accepted := AcceptPacket(e.packets, p.header.id);
    if accepted.Ok? {
      AcceptPacketReady(e, p.header.id);
      TakeAcksReady(e.(packets := accepted.value), p.header);
    }
  }

  // -- acks --

  /** Packets newly acked are held by the sent-packets buffer. */
  lemma {:induction false} AckedHeld(s: PacketState, t: Trace<Cargo>, n: nat, acks: seq<Ack>)
    requires Local(s, t, n)
    ensures var (s', _) := ProcessAcks(s, acks);
            && s'.sent.tags == s.sent.tags && |s'.sent.entries| == |s.sent.entries|
            && forall k | 0 <= k < |AfterAcks(s, t, acks).1| ::
                 var x := AfterAcks(s, t, acks).1[k];
                 t.sentU - 65536 < x <= t.sentU && Held(s.sent, x)
    decreases |acks|
  {
    hide Tracks, Numbers, SentTrue, AfterAck, Owner, Held;
    LocalValid(s, t, n);
    OutBelow(s, t, n);
    if acks != [] {
      var (s1, first) := ProcessAck(s, acks[0]);
      if first {
        assert acks[0] == (acks[0].0, true);
        AckIsLocal(s, t, n, acks[0].0);
        var x := Owner(acks[0].0, t.sentU);
        OwnerWraps(acks[0].0, t.sentU);
        assert x in t.out.Keys;
        FoundHeld(s, x, n);
        SameSent(s, t, x);
        AckedHeld(s1, AfterAck(s, t, x), n, acks[1..]);
        HeldByTags(s.sent, s1.sent);
      } else {
        AckedHeld(s1, t, n, acks[1..]);
      }
    }
  }

  lemma {:induction false} FoundHeld(s: PacketState, x: int, n: nat)
    requires 0 < |s.sent.entries| == |s.sent.tags| == n && 65536 % n == 0
    requires s.sent.Exists(Wrap(x))
    ensures Held(s.sent, x)
  {
    WrapKeepsSlot(x, n);
  }

  lemma {:induction false} HeldByTags(r: Ring<SentMeta>, r': Ring<SentMeta>)
    requires r'.tags == r.tags && 0 < |r.tags| == |r.entries| == |r'.entries|
    ensures forall x :: Held(r', x) <==> Held(r, x)
  {
  }

  /** The two packet layers agree. */
  ghost predicate Agree(t: Trace<Cargo>, peer: Trace<Cargo>) {
    AckSound(t, peer) && AckSound(peer, t) && WatermarkSafe(t, peer) && WatermarkSafe(peer, t)
  }

  /** The state of the packet layer after an ack field, and the packets newly acked. */
  ghost predicate AcksTaken(s: PacketState, t: Trace<Cargo>, peer: Trace<Cargo>, n: nat, s': PacketState,
                            t': Trace<Cargo>, ids: seq<u16>, xs: seq<int>)
  {
    && Local(s', t', n) && Agree(t', peer)
    && t'.out == t.out && t'.sentU == t.sentU && t'.meta.Keys == t.meta.Keys && t'.accepted == t.accepted
    && s'.sent.tags == s.sent.tags
    && Done(t') == Done(t) + Upto(xs)
    && |ids| == |xs|
    && (forall k | 0 <= k < |xs| ::
          && xs[k] in t.out && ids[k] == Wrap(xs[k]) && xs[k] !in Done(t) && xs[k] in peer.accepted
          && t.sentU - 65536 < xs[k] <= t.sentU && s'.Valid() && Held(s'.sent, xs[k]))
    && (forall j, k | 0 <= j < k < |xs| :: xs[j] != xs[k])
  }

  lemma {:induction false} NewlyShape(t: Trace<Cargo>, t': Trace<Cargo>, peer: Trace<Cargo>, ids: seq<u16>,
                                      xs: seq<int>)
    requires NewlyAcked(t, t', ids, xs)
    ensures t'.out == t.out && t'.sentU == t.sentU && t'.accepted == t.accepted && t'.meta.Keys == t.meta.Keys
    ensures Done(t') == Done(t) + Upto(xs)
    ensures |ids| == |xs|
    ensures forall k | 0 <= k < |xs| :: xs[k] in xs && xs[k] in t.out && ids[k] == Wrap(xs[k]) && xs[k] !in Done(t)
    ensures forall j, k | 0 <= j < k < |xs| :: xs[j] != xs[k]
    ensures AckSound(t', peer) ==> forall k | 0 <= k < |xs| :: xs[k] in peer.accepted
  {
    forall k | 0 <= k < |xs|
      ensures AckSound(t', peer) ==> xs[k] in peer.accepted
    {
      assert xs[k] in t'.meta.Keys && xs[k] in xs;
    }
    forall u: int
      ensures u in Done(t') <==> u in Done(t) || u in Upto(xs)
    {
      assert u in t'.meta.Keys <==> u in t.meta.Keys;
    }
  }

  lemma {:induction false} AcksTake(s: PacketState, t: Trace<Cargo>, peer: Trace<Cargo>, n: nat, acks: seq<Ack>)
    returns (s': PacketState, t': Trace<Cargo>, ids: seq<u16>, xs: seq<int>)
    requires Local(s, t, n) && Agree(t, peer) && Honest(t, peer, acks)
    ensures s.Valid()
    ensures (s', ids) == ProcessAcks(s, acks) && (t', xs) == AfterAcks(s, t, acks)
    ensures AcksTaken(s, t, peer, n, s', t', ids, xs)
  {
    hide Local, AckSound, WatermarkSafe, ProcessAcks, AfterAcks, NewlyAcked, FromAcks, Held, Honest, Wrap, Done, Upto,
      Tracks;
    LocalValid(s, t, n);
    s', ids, t', xs := AcksAreLocal(s, t, n, acks);
    OutBelow(s, t, n);
    AcksKeep(t, t', peer, acks, ids, xs);
    LocalValid(s', t', n);
    AckedHeld(s, t, n, acks);
    HeldByTags(s.sent, s'.sent);
    NewlyShape(t, t', peer, ids, xs);
  }

  lemma {:induction false} PeerHeader(y: Node, n: nat, u: int)
    requires Local(y.e.packets, y.t, n) && u in y.t.out
    ensures y.t.out[u].header.id == Wrap(u) && HeaderTrue(y.t.out[u], u, y.t.accepted) && 0 < u
  {
  }

  lemma {:induction false} AcceptSent(s: PacketState, id: u16)
    requires s.Valid() && AcceptPacket(s, id).Ok?
    ensures AcceptPacket(s, id).value.sent == s.sent
  {
  }

  /** A packet that is taken in: the two packet layers still agree, and its acks can be trusted. */
  lemma {:induction false} AcceptTakes(x: Node, y: Node, n: nat, u: int) returns (s1: PacketState, t1: Trace<Cargo>)
    requires Local(x.e.packets, x.t, n) && Local(y.e.packets, y.t, n) && CanArrive(x, y, n, u)
    requires Agree(x.t, y.t)
    requires x.e.packets.Valid() && AcceptPacket(x.e.packets, y.t.out[u].header.id).Ok?
    ensures AcceptPacket(x.e.packets, y.t.out[u].header.id) == Ok(s1) && t1 == AfterAccept(x.t, u)
    ensures x.t.receivedU - n < u && u !in x.t.accepted && s1.sent == x.e.packets.sent
    ensures Local(s1, t1, n) && Agree(t1, y.t) && Honest(t1, y.t, AcksOf(y.t.out[u].header))
  {
    hide Local, AckSound, WatermarkSafe, HeaderTrue, AcceptPacket, AcksOf, Honest, Wrap, SentTrue;
    PeerHeader(y, n, u);
    t1 := AfterAccept(x.t, u);
    s1 := AcceptPacket(x.e.packets, Wrap(u)).value;
    AcceptSent(x.e.packets, Wrap(u));
    AcceptExact(x.e.packets, x.t, n, u);
    SentTrueOf(x.e.packets, x.t, n);
    SentTrueOf(s1, t1, n);
    AcceptKeeps(x.t, y.t, u);
    HeaderIsHonest(t1, y.t, y.t.out[u], u);
  }

  // -- the acks reach the dispatcher --

  /** The dispatcher and the channels after the acks. */
  ghost predicate AckStage(x: Node, y: Node, n: nat, s2: PacketState, t2: Trace<Cargo>, d: Dispatcher, cs: seq<Channel>)
  {
    && d == x.e.dispatcher.(fragMap := d.fragMap, inPackets := d.inPackets, ackInbox := d.ackInbox) && d.Valid()
    && OnlyReliable(x.e.channels, cs) && Numbered(cs) && GoodChannels(cs)
    && Sending(d, cs, x.book, y.rx, Carried(t2.out, Done(t2)))
    && LooseOnce(cs, t2.out)
    && Filed(d, s2.sent, t2, n, x.recorded, x.records, Done(t2))
  }

  lemma {:induction false} FiledAcked(d: Dispatcher, sent: Ring<SentMeta>, sent': Ring<SentMeta>, t: Trace<Cargo>,
                                      t': Trace<Cargo>, n: nat, top: int, m: map<int, seq<Handle>>, done: set<int>)
    requires Filed(d, sent, t, n, top, m, done)
    requires t'.out == t.out && t'.sentU == t.sentU && t'.meta.Keys == t.meta.Keys
    requires sent'.Capacity() == |sent'.tags| == n && sent'.tags == sent.tags && Tracks(sent', t'.sentU, t'.meta)
    ensures Filed(d, sent', t', n, top, m, done)
  {
    hide Sound, Tracks, Recorded, Slot;
  }

  lemma {:induction false} LandedAckable(sent: Ring<SentMeta>, t: Trace<Cargo>, accepted: map<int, ReceivedMeta>,
                                         rx: Log, x: int)
    requires Landed(accepted, t.out, rx) && x in accepted && x in t.out
    requires 0 < |sent.tags| == |sent.entries| && t.sentU - 65536 < x <= t.sentU && Held(sent, x)
    ensures Ackable(sent, t, rx, x)
  {
    hide AllGot, Held;
  }

  /** The acks of an accepted packet can be taken by the dispatcher. */
  lemma {:induction false} AcksReadyAt(x: Node, y: Node, n: nat, u: int, s1: PacketState, t1: Trace<Cargo>,
                                       s2: PacketState, t2: Trace<Cargo>, ids: seq<u16>, xs: seq<int>)
    requires NodeOk(x, n) && DirectionOk(x, y)
    requires t1 == AfterAccept(x.t, u) && s1.sent == x.e.packets.sent && AcksTaken(s1, t1, y.t, n, s2, t2, ids, xs)
    ensures AcksReady(x.e.dispatcher, x.e.channels, x.book, y.rx, s2.sent, t2, n, x.recorded, x.records, Done(x.t),
            ids, xs)
    ensures Done(t2) == Done(x.t) + Upto(xs) && t2.out == x.t.out
  {
    hide Local, WellKept, OutKept, LooseOnce, AllReadable, Filed, Receiving, Landed, Done, GoodChannels, Carried, Agree,
      Held, Ackable, Sending, Wrap, AckSound, WatermarkSafe;
    DoneAccept(x.t, u);
    LocalValid(s2, t2, n);
    OutBelow(s2, t2, n);
    FiledAcked(x.e.dispatcher, x.e.packets.sent, s2.sent, x.t, t2, n, x.recorded, x.records, Done(x.t));
    forall k | 0 <= k < |xs|
      ensures Ackable(s2.sent, t2, y.rx, xs[k])
    {
      LandedAckable(s2.sent, t2, y.t.accepted, y.rx, xs[k]);
    }
  }

  lemma {:induction false} AckStageKeeps(x: Node, y: Node, n: nat, u: int, s1: PacketState, t1: Trace<Cargo>,
                                         s2: PacketState, t2: Trace<Cargo>, ids: seq<u16>, xs: seq<int>)
    requires NodeOk(x, n) && DirectionOk(x, y)
    requires t1 == AfterAccept(x.t, u) && s1.sent == x.e.packets.sent && AcksTaken(s1, t1, y.t, n, s2, t2, ids, xs)
    ensures AckStage(x, y, n, s2, t2, AckAll(x.e.dispatcher, x.e.channels, ids).0,
            AckAll(x.e.dispatcher, x.e.channels, ids).1)
  {
    hide Local, WellKept, OutKept, LooseOnce, AllReadable, Filed, Receiving, Landed, Done, GoodChannels, Carried, Agree,
      AckAll, AcksReady, Sending, OnlyReliable, AckSound, WatermarkSafe, AcksTaken;
    var d, cs := x.e.dispatcher, x.e.channels;
    AcksReadyAt(x, y, n, u, s1, t1, s2, t2, ids, xs);
    AckAllKeeps(d, cs, x.book, y.rx, s2.sent, t2, n, x.recorded, x.records, Done(x.t), ids, xs);
    AckAllValid(d, cs, ids);
    var cs' := AckAll(d, cs, ids).1;
    LooseStays(cs, cs', t2.out);
    OnlyReliableNumbered(cs, cs');
  }

  lemma {:induction false} DoneAccept(t: Trace<Cargo>, u: int)
    ensures Done(AfterAccept(t, u)) == Done(t)
  {
  }

  lemma {:induction false} OnlyReliableNumbered(cs: seq<Channel>, cs': seq<Channel>)
    requires OnlyReliable(cs, cs') && Numbered(cs)
    ensures Numbered(cs') && |cs'| == |cs|
    ensures forall i | 0 <= i < |cs| :: cs'[i].seen == cs[i].seen
  {
    forall i | 0 <= i < |cs|
      ensures cs'[i].id == cs[i].id && cs'[i].seen == cs[i].seen
    {
      assert SameButQueue(cs[i], cs'[i]);
    }
  }

  // -- the messages reach the channels --

  lemma {:induction false} OnlySeenQueues(b: Book, spent: set<Message>, out: map<int, Sent<Cargo>>, cs: seq<Channel>,
                                          cs': seq<Channel>)
    requires OnlySeen(cs, cs')
    ensures Numbered(cs) ==> Numbered(cs')
    ensures Queueing(b, spent, cs) ==> Queueing(b, spent, cs')
    ensures LooseOnce(cs, out) ==> LooseOnce(cs', out)
    ensures |cs'| == |cs| && forall i | 0 <= i < |cs| :: cs'[i].Unreliable? == cs[i].Unreliable?
  {
    hide Queued, Once, UniqueAt;
    forall i | 0 <= i < |cs|
      ensures Queued(cs'[i]) == Queued(cs[i]) && cs'[i].id == cs[i].id && cs'[i].Unreliable? == cs[i].Unreliable?
    {
      assert cs'[i] == cs[i].(seen := cs'[i].seen);
      SeenQueue(cs[i], cs'[i].seen);
    }
    if Queueing(b, spent, cs) {
      forall i | 0 <= i < |cs'|
        ensures QueuedOnce(b, cs'[i])
      {
        assert QueuedOnce(b, cs[i]);
      }
      forall id | id in b.table
        ensures RetainedOne(b, spent, cs', id)
      {
        assert RetainedOne(b, spent, cs, id);
      }
    }
    if LooseOnce(cs, out) {
      forall u, k | u in out && 0 <= k < |out[u].body.messages| && Loose(cs', out[u].body.messages[k])
        ensures UniqueAt(out, u, k) && out[u].body.messages[k] !in Queued(cs'[out[u].body.messages[k].channel])
      {
        assert Loose(cs, out[u].body.messages[k]);
      }
    }
  }

  lemma {:induction false} SeenQueue(c: Channel, seen: Ring<bool>)
    ensures Queued(c.(seen := seen)) == Queued(c)
  {
  }

  /** The peer's record of acks stays right when more is taken in. */
  lemma {:induction false} SendingLog(d: Dispatcher, cs: seq<Channel>, b: Book, rx: Log, rx': Log, spent: set<Message>)
    requires Sending(d, cs, b, rx, spent)
    requires |rx'| == |rx| && forall c, id | Got(rx, c, id) :: Got(rx', c, id)
    ensures Sending(d, cs, b, rx', spent)
  {
    hide Got, Queued, AcksOnce, Spent, QueuesOnce, Numbered, Rewritable;
    forall p: u16 | p in b.posted
      ensures forall i | GotPart(b, rx, p, i) :: GotPart(b, rx', p, i)
    {
    }
    forall c, k | c in d.ackInbox && 0 <= k < |d.ackInbox[c]|
      ensures AckRight(b, rx', c, d.ackInbox[c][k])
    {
      assert AckRight(b, rx, c, d.ackInbox[c][k]);
      FinishedLog(b, rx, rx', d.ackInbox[c][k]);
    }
    var r := d.fragMap;
    forall i | 0 <= i < |r.tags|
      ensures SlotRight(r, b, rx', i)
    {
      assert SlotRight(r, b, rx, i);
      if r.tags[i] != EMPTY {
        StatusLog(r.entries[i], b, rx, rx', r.tags[i]);
      }
    }
  }

  lemma {:induction false} FinishedLog(b: Book, rx: Log, rx': Log, p: u16)
    requires Finished(b, rx, p)
    requires forall c, id | Got(rx, c, id) :: Got(rx', c, id)
    ensures Finished(b, rx', p)
  {
    hide Got;
    forall i | 0 <= i < IdsFor(b.posted[p].payload)
      ensures GotPart(b, rx', p, i)
    {
      assert GotPart(b, rx, p, i);
    }
  }

  lemma {:induction false} StatusLog(status: FragAckStatus, b: Book, rx: Log, rx': Log, p: u16)
    requires p in b.posted && Sizeable(b.posted[p]) && StatusRight(status, b, rx, p)
    requires forall c, id | Got(rx, c, id) :: Got(rx', c, id)
    ensures StatusRight(status, b, rx', p)
  {
    hide Got;
    assert forall i | GotPart(b, rx, p, i) :: GotPart(b, rx', p, i);
  }

  // -- the whole step --

  /** What an accepted packet leaves behind. */
  lemma {:induction false} TakeShape(x: Node, y: Node, n: nat, u: int, s1: PacketState, ids: seq<u16>)
    returns (s2: PacketState, d1: Dispatcher, cs1: seq<Channel>, x': Node)
    requires NodeOk(x, n) && u in y.t.out && Readable(y.t.out[u])
    requires AcceptPacket(x.e.packets, y.t.out[u].header.id) == Ok(s1) && s1.Valid()
    requires ids == ProcessAcks(s1, AcksOf(y.t.out[u].header)).1
    ensures s2 == ProcessAcks(s1, AcksOf(y.t.out[u].header)).0
    ensures (d1, cs1) == AckAll(x.e.dispatcher, x.e.channels, ids) && GoodChannels(cs1)
    ensures x' == Deliver(x, y.t.out[u], u)
    ensures var ms := y.t.out[u].body.messages;
            && AllOutbound(ms)
            && var (d2, cs2, _) := ReceiveAll(d1, cs1, InboundAll(ms));
            && var t2 := AfterAcks(s1, AfterAccept(x.t, u), AcksOf(y.t.out[u].header)).0;
            && x' == Node(x.e.(packets := s2, dispatcher := d2, channels := cs2), t2, x.book,
                          NoteAll(x.rx, ms), NewestAll(x.tops, ms), x.recorded, x.records)
  {
    hide Local, WellKept, OutKept, LooseOnce, AllReadable, Filed, AcceptPacket, ProcessAcks, AfterAcks, AcksOf, AckAll,
      ReceiveAll, ReceiveDatagram, NoteAll, NewestAll, AllOutbound, GoodChannel;
    var p := y.t.out[u];
    ReceiveShape(x.e, p);
    s2 := ProcessAcks(s1, AcksOf(p.header)).0;
    d1, cs1 := AckAll(x.e.dispatcher, x.e.channels, ids).0, AckAll(x.e.dispatcher, x.e.channels, ids).1;
    x' := Deliver(x, p, u);
  }

  lemma {:induction false} TakenNodeOk(x: Node, y: Node, n: nat, s2: PacketState, t2: Trace<Cargo>, d1: Dispatcher,
                                       cs1: seq<Channel>, d2: Dispatcher, cs2: seq<Channel>, x': Node)
    requires NodeOk(x, n) && Local(s2, t2, n) && t2.out == x.t.out
    requires AckStage(x, y, n, s2, t2, d1, cs1)
    requires OnlySeen(cs1, cs2) && GoodChannels(cs2) && d2 == d1.(inProgress := d2.inProgress, inbox := d2.inbox)
    requires x'.e == x.e.(packets := s2, dispatcher := d2, channels := cs2)
    requires x'.t == t2 && x'.book == x.book && x'.recorded == x.recorded && x'.records == x.records
    ensures NodeOk(x', n)
    ensures Sending(d2, cs2, x.book, y.rx, Carried(t2.out, Done(t2)))
  {
    hide Local, WellKept, OutKept, LooseOnce, AllReadable, HandlesRight, Tracks, ReportsRight, Carried, Done, OnlySeen,
      OnlyReliable, GoodChannels, Queueing;
    LocalValid(s2, t2, n);
    OnlySeenQueues(x.book, Carried(t2.out, Done(t2)), t2.out, cs1, cs2);
    SendingAfter(d1, d2, cs1, cs2, x.book, y.rx, Carried(t2.out, Done(t2)));
  }

  lemma {:induction false} LandedGrows(accepted: map<int, ReceivedMeta>, out: map<int, Sent<Cargo>>, rx: Log, u: int)
    requires Landed(accepted, out, rx) && u in out
    requires forall k | 0 <= k < |out[u].body.messages| :: out[u].body.messages[k].channel < |rx|
    ensures Landed(accepted[u := ReceivedMeta], out, NoteAll(rx, out[u].body.messages))
  {
    hide Got, NoteAll;
    var ms := out[u].body.messages;
    NoteAllGot(rx, ms);
    forall v | v in accepted[u := ReceivedMeta] && v in out
      ensures AllGot(NoteAll(rx, ms), out[v].body.messages)
    {
      if v != u {
        assert AllGot(rx, out[v].body.messages);
      }
    }
  }

  lemma {:induction false} WindowedChannels(tops: seq<int>, ms: seq<Message>, k: nat)
    requires Windowed(tops, ms) && k < |ms|
    ensures ms[k].channel < |tops|
    decreases |ms|
  {
    hide InWindow;
    if k > 0 {
      WindowedChannels(Newest(tops, ms[0].channel, ms[0].id), ms[1..], k - 1);
    }
  }

  lemma {:induction false} NewestAllLength(tops: seq<int>, ms: seq<Message>)
    ensures |NewestAll(tops, ms)| == |tops|
    decreases |ms|
  {
    if ms != [] {
      NewestAllLength(if ms[0].channel < |tops| then Newest(tops, ms[0].channel, ms[0].id) else tops, ms[1..]);
    }
  }

  /** What the peer sent stays right on arrival. */
  lemma {:induction false} TakenInward(x: Node, y: Node, n: nat, u: int, d1: Dispatcher, cs1: seq<Channel>, x': Node)
    requires NodeOk(y, n) && DirectionOk(y, x) && u in y.t.out
    requires Agree(x'.t, y.t) && x'.t.accepted == x.t.accepted[u := ReceivedMeta]
    requires GoodChannels(cs1) && Numbered(x.e.channels) && OnlyReliable(x.e.channels, cs1)
    requires d1.inProgress == x.e.dispatcher.inProgress && d1.inbox == x.e.dispatcher.inbox
    requires var ms := y.t.out[u].body.messages;
             && Windowed(x.tops, ms) && AllOutbound(ms)
             && x'.rx == NoteAll(x.rx, ms) && x'.tops == NewestAll(x.tops, ms)
             && (x'.e.dispatcher, x'.e.channels) ==
                  (ReceiveAll(d1, cs1, InboundAll(ms)).0, ReceiveAll(d1, cs1, InboundAll(ms)).1)
    ensures OnlySeen(cs1, x'.e.channels) && GoodChannels(x'.e.channels)
    ensures x'.e.dispatcher == d1.(inProgress := x'.e.dispatcher.inProgress, inbox := x'.e.dispatcher.inbox)
    ensures DirectionOk(y, x')
  {
    hide Local, WellKept, LooseOnce, AllReadable, Filed, Receiving, Landed, Done, GoodChannels, Carried, Sending,
      OnlyReliable, Windowed, AllOutbound, NoteAll, NewestAll, ReceiveAll, AckSound, WatermarkSafe, MessagesKept,
      OnlySeen, Numbered;
    var ms := y.t.out[u].body.messages;
    OnlyReliableNumbered(x.e.channels, cs1);
    SeenSame(x.e.dispatcher, d1, x.e.channels, cs1, y.book, x.rx, x.tops);
    ReceiveAllKeeps(d1, cs1, y.book, x.rx, x.tops, ms);
    NoteAllGot(x.rx, ms);
    ReceivingLengths(x.e.dispatcher, x.e.channels, y.book, x.rx, x.tops);
    forall k | 0 <= k < |ms|
      ensures ms[k].channel < |x.rx|
    {
      WindowedChannels(x.tops, ms, k);
    }
    LandedGrows(x.t.accepted, y.t.out, x.rx, u);
    SendingLog(y.e.dispatcher, y.e.channels, y.book, x.rx, x'.rx, Carried(y.t.out, Done(y.t)));
    OnlySeenLength(cs1, x'.e.channels);
  }

  lemma {:induction false} OnlySeenLength(cs: seq<Channel>, cs': seq<Channel>)
    requires OnlySeen(cs, cs')
    ensures |cs'| == |cs|
  {
  }

  lemma {:induction false} ReceivingLengths(d: Dispatcher, cs: seq<Channel>, b: Book, rx: Log, tops: seq<int>)
    requires Receiving(d, cs, b, rx, tops)
    ensures |rx| == |tops| == |cs|
  {
  }

  /** A packet that was taken in keeps everything. */
  lemma {:induction false} TakenKeepsPair(x: Node, y: Node, n: nat, u: int)
    requires PairOk(x, y, n) && CanArrive(x, y, n, u)
    requires AcceptPacket(x.e.packets, y.t.out[u].header.id).Ok?
    ensures PairOk(Deliver(x, y.t.out[u], u), y, n)
  {
    hide Local, WellKept, OutKept, LooseOnce, Readable, Filed, Receiving, Landed, Done, GoodChannels, Carried, Sending,
      OnlyReliable, Windowed, AllOutbound, NoteAll, NewestAll, ReceiveAll, AckSound, WatermarkSafe, OnlySeen, Deliver,
      AcceptPacket, ProcessAcks, AfterAcks, AcksOf, AckAll, Honest, Timely, Numbered;
    var p := y.t.out[u];
    var s1, t1 := AcceptTakes(x, y, n, u);
    var s2, t2, ids, xs := AcksTake(s1, t1, y.t, n, AcksOf(p.header));
    var s2', d1, cs1, x' := TakeShape(x, y, n, u, s1, ids);
    AckStageKeeps(x, y, n, u, s1, t1, s2, t2, ids, xs);
    TakenInward(x, y, n, u, d1, cs1, x');
    TakenNodeOk(x, y, n, s2, t2, d1, cs1, x'.e.dispatcher, x'.e.channels, x');
    OnlyReliableNumbered(x.e.channels, cs1);
    OnlySeenLength(cs1, x'.e.channels);
    NoteAllGot(x.rx, p.body.messages);
  }

  /** What an ack field leaves alone. */
  lemma {:induction false} SameOut(x: Node, y: Node, n: nat, u: int)
    requires PairOk(x, y, n) && CanArrive(x, y, n, u) && AcceptPacket(x.e.packets, y.t.out[u].header.id).Ok?
    ensures Deliver(x, y.t.out[u], u).t.out == x.t.out && Deliver(x, y.t.out[u], u).book == x.book
  {
    hide Local, WellKept, OutKept, LooseOnce, Readable, Filed, Receiving, Landed, Sending, AckSound, WatermarkSafe,
      AcceptPacket, Timely, ReceiveDatagram, Windowed, AfterAcks, AcksOf, Honest, NoteAll, NewestAll, HeaderTrue;
    var s1, t1 := AcceptTakes(x, y, n, u);
    LocalValid(s1, t1, n);
    var _, _, _, _ := AcksTake(s1, t1, y.t, n, AcksOf(y.t.out[u].header));
  }

  /** An arriving packet, taken in or not, keeps everything. */
  lemma {:induction false} DeliverKeepsPair(x: Node, y: Node, n: nat, u: int)
    requires PairOk(x, y, n) && CanArrive(x, y, n, u)
    ensures PairOk(Deliver(x, y.t.out[u], u), y, n)
  {
    hide Local, WellKept, OutKept, LooseOnce, Readable, Filed, DirectionOk, AcceptPacket, ReceiveDatagram, CanArrive,
      Numbered, GoodChannels;
    assert u in y.t.out && Readable(y.t.out[u]) by {
      ArrivalReadable(x, y, n, u);
    }
    if AcceptPacket(x.e.packets, y.t.out[u].header.id).Ok? {
      TakenKeepsPair(x, y, n, u);
    } else {
      ReceiveShape(x.e, y.t.out[u]);
    }
  }

  lemma {:induction false} ArrivalReadable(x: Node, y: Node, n: nat, u: int)
    requires NodeOk(y, n) && CanArrive(x, y, n, u)
    ensures u in y.t.out && Readable(y.t.out[u])
  {
    hide Readable, Local, WellKept, OutKept, LooseOnce, Filed;
  }
}
