/** What every step of the packet layer keeps, over unwrapped packet ids. */
module PacketInvariants {
  import opened Words
  import opened SequenceBuffers
  import opened SequenceWindow
  import opened AckHeaders
  import opened Packets
  import opened PacketLayer

  /** A packet really sent: its header, the id up to which the header acks, and what it carries. */
  datatype Sent<B> = Sent(header: Header, ackBase: int, body: B)

  /** The history of one endpoint over unwrapped ids.  `accepted` and `inOrder` hold ids of the
      peer's packets; the latter are the ones that were the newest on arrival. */
  datatype Trace<B> = Trace(
    sequenceU: int,
    sentU: int,
    receivedU: int,
    newestU: int,
    lowU: int,
    meta: map<int, SentMeta>,
    out: map<int, Sent<B>>,
    accepted: map<int, ReceivedMeta>,
    inOrder: set<int>)

  function NewTrace<B>(): Trace<B> {
    Trace(0, 0, 0, 0, 0, map[], map[], map[], {})
  }

  /** Capacities that divide the sequence space and cover the ack range. */
  ghost predicate GoodCapacity(n: nat) {
    MAX_UNACKED_PACKETS <= n <= 16384 && 65536 % n == 0
  }

  // -- headers --

  /** Item `i` of the header's ack field speaks of `ackBase - i`, and what it acks was accepted. */
  ghost predicate HeaderTrue<B>(p: Sent<B>, u: int, accepted: map<int, ReceivedMeta>) {
    && p.header.id == Wrap(u)
    && (p.header.ack.Some? ==> Terminated(p.header.ack.value))
    && |AcksOf(p.header)| <= MAX_UNACKED_PACKETS
    && forall i | 0 <= i < |AcksOf(p.header)| ::
         && AcksOf(p.header)[i].0 == Wrap(p.ackBase - i)
         && (AcksOf(p.header)[i].1 ==> p.ackBase - i in accepted)
  }

  /** The header acks `x`. */
  ghost predicate Reports<B>(p: Sent<B>, x: int) {
    0 <= p.ackBase - x < |AcksOf(p.header)| && AcksOf(p.header)[p.ackBase - x].1
  }

  // -- one endpoint --

  ghost predicate RingsTrack<B>(s: PacketState, t: Trace<B>, n: nat) {
    && s.sent.Capacity() == n && Tracks(s.sent, t.sentU, t.meta)
    && s.received.Capacity() == n && Tracks(s.received, t.receivedU, t.accepted)
  }

  ghost predicate Numbers<B>(s: PacketState, t: Trace<B>) {
    && s.sequenceId == Wrap(t.sequenceU) && 0 <= t.sentU <= t.sequenceU
    && (s.newestAck == if t.newestU == 0 then None else Some(Wrap(t.newestU)))
    && (t.newestU == 0 || (t.newestU in t.out && 0 < t.newestU))
    && (s.ackLowWatermark == Some(Wrap(t.lowU)) ||
        (s.ackLowWatermark == None && Wrap(t.lowU) == 0 && forall u | u in t.out :: t.lowU <= t.out[u].ackBase))
    && 0 <= t.lowU <= t.receivedU
    && (forall x | x in t.inOrder :: x in t.accepted)
    && (forall x | x in t.accepted :: 0 < x)
  }

  ghost predicate SentTrue<B>(t: Trace<B>) {
    && t.meta.Keys == t.out.Keys
    && forall u | u in t.out ::
         && 0 < u <= t.sentU
         && t.meta[u].ackedUpTo == Wrap(t.out[u].ackBase)
         && 0 <= t.out[u].ackBase <= t.receivedU
         && HeaderTrue(t.out[u], u, t.accepted)
  }

  ghost predicate Local<B>(s: PacketState, t: Trace<B>, n: nat) {
    GoodCapacity(n) && RingsTrack(s, t, n) && Numbers(s, t) && SentTrue(t)
  }

  // -- an endpoint and its peer --

  /** The peer accepted only what was sent, and whatever is marked acked was accepted. */
  ghost predicate AckSound<B>(t: Trace<B>, peer: Trace<B>) {
    && (forall u | u in peer.accepted :: u in t.out)
    && (forall u | u in t.meta && t.meta[u].acked :: u in peer.accepted)
  }

  /** Some header that the peer accepted acks `x`. */
  ghost predicate Reported<B>(t: Trace<B>, peer: Trace<B>, x: int) {
    exists u :: u in peer.accepted && u in t.out && Reports(t.out[u], x)
  }

  /** No header leaves out an in-order arrival that the peer has not been told about, and nothing
      at or below the watermark is such an arrival. */
  ghost predicate WatermarkSafe<B>(t: Trace<B>, peer: Trace<B>) {
    && (forall u, x | u in t.out && x in t.inOrder && x <= t.out[u].ackBase ::
          Reports(t.out[u], x) || Reported(t, peer, x))
    && (forall x | x in t.inOrder && x <= t.lowU :: Reported(t, peer, x))
  }

  lemma {:induction false} NewIsLocal<B>(n: nat)
    requires GoodCapacity(n)
    ensures Local<B>(NewPacketState(n, n), NewTrace(), n)
    ensures AckSound<B>(NewTrace(), NewTrace()) && WatermarkSafe<B>(NewTrace(), NewTrace())
  {
    NewRingTracks(n, UNSENT);
    NewRingTracks(n, ReceivedMeta);
  }

  /** The two wrapping subtractions are the true distances, below one full turn. */
  lemma {:induction false} DistancesExact<B>(s: PacketState, t: Trace<B>)
    requires Numbers(s, t) && SentTrue(t)
    requires s.sent.sequence == Wrap(t.sentU) && s.received.sequence == Wrap(t.receivedU)
    ensures 0 <= t.sentU - t.newestU && 0 <= t.receivedU - t.lowU
    ensures t.sentU - t.newestU < 65536 ==> SentUnacked(s) == t.sentU - t.newestU
    ensures t.receivedU - t.lowU < 65536 ==> ReceivedUnacked(s) == t.receivedU - t.lowU
  {
    hide Wrap;
    WrapArithmetic(t.receivedU, t.lowU);
    WrapArithmetic(t.sentU, t.newestU);
    WrapSmall(0);
    WrapSmall(s.received.sequence);
    WrapSmall(t.receivedU - t.lowU);
    WrapSmall(t.sentU - t.newestU);
  }

  // -- sending --

  /** The history after a packet id has been used, with or without a packet. */
  ghost function AfterHeader<B>(t: Trace<B>): Trace<B> {
    t.(sequenceU := t.sequenceU + 1)
  }

  ghost function AfterSend<B>(t: Trace<B>, h: Header, body: B): Trace<B> {
    var u := t.sequenceU + 1;
    t.(sequenceU := u, sentU := u,
       meta := t.meta[u := SentMeta(false, Wrap(t.receivedU))],
       out := t.out[u := Sent(h, t.receivedU, body)])
  }

  lemma {:induction false} AckListItem(r: Ring<ReceivedMeta>, top: int, accepted: map<int, ReceivedMeta>, n: nat,
                                       i: nat)
    requires Tracks(r, top, accepted)
    requires i < n <= MAX_UNACKED_PACKETS <= r.Capacity()
    ensures AckListTo(r, n)[i] == (Wrap(top - i), top - i in accepted)
  {
    hide Wrap, WrapSub;
    AckListAt(r, n, i);
    WrapArithmetic(top, i);
    GetExact(r, top, accepted, top - i);
  }

  /** The ack list that a header is built from, over unwrapped ids. */
  lemma {:induction false} AckListTrue(r: Ring<ReceivedMeta>, top: int, accepted: map<int, ReceivedMeta>, required: u16)
    requires Tracks(r, top, accepted)
    requires MAX_UNACKED_PACKETS <= r.Capacity() && 0 < required <= MAX_UNACKED_PACKETS
    ensures var acks := AckList(r, required);
            && required <= |acks| <= MAX_UNACKED_PACKETS
            && (forall i | 0 <= i < |acks| :: acks[i] == (Wrap(top - i), top - i in accepted))
            && BuildAckHeader(required, acks).Ok?
            && Terminated(BuildAckHeader(required, acks).value)
            && Items(BuildAckHeader(required, acks).value) == acks
  {
    hide Wrap, WrapSub, AckListTo, BuildAckHeader, Items, Terminated;
    var acks := AckList(r, required);
    forall i | 0 <= i < |acks|
      ensures acks[i] == (Wrap(top - i), top - i in accepted)
    {
      AckListItem(r, top, accepted, |acks|, i);
    }
    WrapArithmetic(top, 0);
    forall i | 0 <= i < |acks|
      ensures acks[i].0 == WrapSub(acks[0].0, i)
    {
      WrapArithmetic(top, i);
    }
    BuildExact(required, acks);
  }

  /** What `next_packet_header` puts into a header. */
  lemma {:induction false} HeaderShape(s: PacketState, kind: PacketType)
    requires s.received.Valid() && NextHeader(s, kind).1.Ok?
    ensures var required, h := ReceivedUnacked(s), NextHeader(s, kind).1.value;
            && NextHeader(s, kind).0 == s.(sequenceId := WrapAdd(s.sequenceId, 1))
            && required <= MAX_UNACKED_PACKETS
            && h.packetType == kind && h.id == WrapAdd(s.sequenceId, 1)
            && (required == 0 ==> h.ack.None?)
            && (required > 0 ==>
                  && BuildAckHeader(required, AckList(s.received, required)).Ok?
                  && h.ack == Some(BuildAckHeader(required, AckList(s.received, required)).value))
  {
  }

  lemma {:induction false} TrueWhen<B>(p: Sent<B>, u: int, accepted: map<int, ReceivedMeta>, acks: seq<Ack>)
    requires p.header.id == Wrap(u) && (p.header.ack.Some? ==> Terminated(p.header.ack.value))
    requires AcksOf(p.header) == acks && |acks| <= MAX_UNACKED_PACKETS
    requires forall i | 0 <= i < |acks| :: acks[i] == (Wrap(p.ackBase - i), p.ackBase - i in accepted)
    ensures HeaderTrue(p, u, accepted)
    ensures forall x | x in accepted && 0 <= p.ackBase - x < |acks| :: Reports(p, x)
  {
    forall x | x in accepted && 0 <= p.ackBase - x < |acks|
      ensures Reports(p, x)
    {
      assert acks[p.ackBase - x].1;
    }
  }

  /** A new header tells the truth, and acks everything received above the watermark. */
  lemma {:induction false} HeaderMade<B>(s: PacketState, t: Trace<B>, n: nat, kind: PacketType, body: B)
    requires GoodCapacity(n) && RingsTrack(s, t, n) && s.sequenceId == Wrap(t.sequenceU)
    requires NextHeader(s, kind).1.Ok?
    ensures var h := NextHeader(s, kind).1.value;
            && HeaderTrue(Sent(h, t.receivedU, body), t.sequenceU + 1, t.accepted)
            && h.packetType == kind
            && forall x | x in t.accepted && 0 <= t.receivedU - x < ReceivedUnacked(s) ::
                 Reports(Sent(h, t.receivedU, body), x)
  {
    var required, h := ReceivedUnacked(s), NextHeader(s, kind).1.value;
    HeaderShape(s, kind);
    WrapArithmetic(t.sequenceU, 1);
    if required > 0 {
      AckListTrue(s.received, t.receivedU, t.accepted, required);
      TrueWhen(Sent(h, t.receivedU, body), t.sequenceU + 1, t.accepted, AckList(s.received, required));
    } else {
      TrueWhen(Sent(h, t.receivedU, body), t.sequenceU + 1, t.accepted, []);
    }
  }

  /** A header is refused exactly when the peer is not known to have seen the acks of more than 350
      packets, counted from the watermark to the newest received. */
  lemma {:induction false} HeaderMadeIff<B>(s: PacketState, t: Trace<B>, n: nat, kind: PacketType)
    requires Local(s, t, n) && t.receivedU - t.lowU < 65536
    ensures s.received.Valid() && ReceivedUnacked(s) == t.receivedU - t.lowU
    ensures if t.receivedU - t.lowU <= 350 then NextHeader(s, kind).1.Ok?
            else NextHeader(s, kind).1 == Err(TooManyPending)
  {
    hide SentTrue, BuildAckHeader, AckList, Items;
    DistancesAre(s, t, n);
    if 0 < ReceivedUnacked(s) <= MAX_UNACKED_PACKETS {
      AckListTrue(s.received, t.receivedU, t.accepted, ReceivedUnacked(s));
    }
  }

  lemma {:induction false} DistancesAre<B>(s: PacketState, t: Trace<B>, n: nat)
    requires Local(s, t, n)
    ensures 0 <= t.sentU - t.newestU && 0 <= t.receivedU - t.lowU
    ensures t.sentU - t.newestU < 65536 ==> SentUnacked(s) == t.sentU - t.newestU
    ensures t.receivedU - t.lowU < 65536 ==> ReceivedUnacked(s) == t.receivedU - t.lowU
  {
    hide SentUnacked, ReceivedUnacked, SequenceWindow.Complete;
    DistancesExact(s, t);
  }

  /** The buffer takes a packet unless too many ids were used up since the last one. */
  lemma {:induction false} RecordTaken<B>(s: PacketState, t: Trace<B>, n: nat)
    requires GoodCapacity(n) && RingsTrack(s, t, n)
    requires t.sentU < t.sequenceU + 1 < t.sentU + 32768 - n
    requires s.sequenceId == Wrap(t.sequenceU + 1)
    ensures RecordSent(s).Ok?
  {
    hide Wrap, Genuine, Complete;
    JumpRefusedIff(s.sent, t.sentU, t.sequenceU + 1, SentMeta(false, s.received.sequence), UNSENT);
  }

  lemma {:induction false} RecordTracks<B>(s: PacketState, t: Trace<B>, n: nat, h: Header, body: B)
    requires GoodCapacity(n) && RingsTrack(s, t, n)
    requires t.sentU < t.sequenceU + 1 < t.sentU + 65536 - n
    requires s.sequenceId == Wrap(t.sequenceU + 1) && RecordSent(s).Ok?
    ensures RecordSent(s).value == s.(sent := RecordSent(s).value.sent)
    ensures RingsTrack(RecordSent(s).value, AfterSend(t, h, body), n)
  {
    hide Wrap, Genuine, Complete;
    var q := t.sequenceU + 1;
    var meta := SentMeta(false, Wrap(t.receivedU));
    JumpRefusedIff(s.sent, t.sentU, q, meta, UNSENT);
    if q - t.sentU < 32768 - n {
      GuardExact(s.sent, t.sentU, q);
    } else {
      WrapArithmetic(t.sentU, n);
      ComparesHalfway(q, t.sentU - n);
    }
    InsertTracks(s.sent, t.sentU, t.meta, q, meta, UNSENT);
  }

  /** Sending a packet keeps everything. */
  lemma {:induction false} SendKeepsLocal<B>(s: PacketState, t: Trace<B>, n: nat, kind: PacketType, body: B)
    requires Local(s, t, n)
    requires t.sequenceU + 1 - t.sentU < 65536 - n
    requires s.received.Valid() && NextHeader(s, kind).1.Ok?
    requires NextHeader(s, kind).0.Valid() && RecordSent(NextHeader(s, kind).0).Ok?
    ensures Local(RecordSent(NextHeader(s, kind).0).value, AfterSend(t, NextHeader(s, kind).1.value, body), n)
  {
    var s1, h := NextHeader(s, kind).0, NextHeader(s, kind).1.value;
    var t' := AfterSend(t, h, body);
    assert s1 == s.(sequenceId := Wrap(t.sequenceU + 1)) by {
      HeaderShape(s, kind);
      WrapArithmetic(t.sequenceU, 1);
    }
    RecordTracks(s1, t, n, h, body);
    assert SentTrue(t') by {
      HeaderMade(s, t, n, kind, body);
      SentTrueGrows(t, h, body);
    }
    NumbersGrow(s, t, RecordSent(s1).value, h, body);
  }

  /** Sending a packet works and keeps everything, as long as id gaps stay below half the sequence
      space less the capacity. */
  lemma {:induction false} SendKeeps<B>(s: PacketState, t: Trace<B>, n: nat, kind: PacketType, body: B)
    requires Local(s, t, n)
    requires t.sequenceU + 1 - t.sentU < 32768 - n
    requires NextHeader(s, kind).1.Ok?
    ensures var (s1, h) := NextHeader(s, kind);
            && RecordSent(s1).Ok?
            && Local(RecordSent(s1).value, AfterSend(t, h.value, body), n)
  {
    hide SentTrue;
    assert NextHeader(s, kind).0 == s.(sequenceId := Wrap(t.sequenceU + 1)) by {
      HeaderShape(s, kind);
      WrapArithmetic(t.sequenceU, 1);
    }
    RecordTaken(NextHeader(s, kind).0, t, n);
    SendKeepsLocal(s, t, n, kind, body);
  }

  lemma {:induction false} SentTrueGrows<B>(t: Trace<B>, h: Header, body: B)
    requires SentTrue(t) && 0 <= t.sentU <= t.sequenceU && 0 <= t.receivedU
    requires HeaderTrue(Sent(h, t.receivedU, body), t.sequenceU + 1, t.accepted)
    ensures SentTrue(AfterSend(t, h, body))
  {
  }

  lemma {:induction false} NumbersGrow<B>(s: PacketState, t: Trace<B>, s': PacketState, h: Header, body: B)
    requires Numbers(s, t) && s' == s.(sequenceId := Wrap(t.sequenceU + 1), sent := s'.sent)
    ensures Numbers(s', AfterSend(t, h, body))
  {
  }

  lemma {:induction false} SendKeepsAcks<B>(t: Trace<B>, peer: Trace<B>, h: Header, body: B)
    requires SentTrue(t) && t.sentU <= t.sequenceU
    ensures AckSound(t, peer) ==> AckSound(AfterSend(t, h, body), peer)
    ensures AckSound(peer, t) ==> AckSound(peer, AfterSend(t, h, body))
    ensures WatermarkSafe(peer, t) ==> WatermarkSafe(peer, AfterSend(t, h, body))
  {
    var t' := AfterSend(t, h, body);
    forall x | Reported(peer, t, x)
      ensures Reported(peer, t', x)
    {
      var w :| w in t.accepted && w in peer.out && Reports(peer.out[w], x);
      assert w in t'.accepted;
    }
  }

  lemma {:induction false} SendKeepsWatermark<B>(s: PacketState, t: Trace<B>, peer: Trace<B>, n: nat, kind: PacketType,
                                                 body: B)
    requires Local(s, t, n) && WatermarkSafe(t, peer)
    requires AckSound(t, peer)
    requires t.receivedU - t.lowU < 65536
    requires NextHeader(s, kind).1.Ok?
    ensures WatermarkSafe(AfterSend(t, NextHeader(s, kind).1.value, body), peer)
  {
    var h := NextHeader(s, kind).1.value;
    var t' := AfterSend(t, h, body);
    HeaderMade(s, t, n, kind, body);
    DistancesExact(s, t);
    forall x | Reported(t, peer, x)
      ensures Reported(t', peer, x)
    {
      var u :| u in peer.accepted && u in t.out && Reports(t.out[u], x);
      assert u in t'.out && Reports(t'.out[u], x);
    }
    forall u, x | u in t'.out && x in t'.inOrder && x <= t'.out[u].ackBase
      ensures Reports(t'.out[u], x) || Reported(t', peer, x)
    {
      if u != t.sequenceU + 1 {
        assert u in t.out;
      } else if x <= t.lowU {
        assert Reported(t, peer, x);
      }
    }
  }

  /** A header that could not be made only uses up a packet id. */
  lemma {:induction false} HeaderFailsKeeps<B>(s: PacketState, t: Trace<B>, n: nat, kind: PacketType)
    requires Local(s, t, n)
    ensures Local(NextHeader(s, kind).0, AfterHeader(t), n)
  {
    WrapArithmetic(t.sequenceU, 1);
  }

  // -- receiving --

  ghost function AfterAccept<B>(t: Trace<B>, u: int): Trace<B> {
    t.(receivedU := if t.receivedU < u then u else t.receivedU,
       accepted := t.accepted[u := ReceivedMeta],
       inOrder := if t.receivedU < u then t.inOrder + {u} else t.inOrder)
  }

  /** The packet lifetime that the received-packets buffer can tell apart. */
  ghost predicate Timely<B>(t: Trace<B>, n: nat, u: int) {
    -32768 < u - (t.receivedU - n) < 32768
  }

  /** Exactly once: a packet is taken in if and only if it is in the window and was not taken in
      before; and taking it in keeps the history right. */
  lemma {:induction false} AcceptExact<B>(s: PacketState, t: Trace<B>, n: nat, u: int)
    requires Local(s, t, n) && Timely(t, n, u) && 0 < u
    ensures AcceptPacket(s, Wrap(u)).Ok? <==> t.receivedU - n < u && u !in t.accepted
    ensures AcceptPacket(s, Wrap(u)).Err? ==>
              AcceptPacket(s, Wrap(u)).error ==
                if u in t.accepted && t.receivedU - n < u then DuplicatePacket else StalePacket
    ensures AcceptPacket(s, Wrap(u)).Ok? ==> Local(AcceptPacket(s, Wrap(u)).value, AfterAccept(t, u), n)
  {
    GuardExact(s.received, t.receivedU, u);
    if t.receivedU - n < u {
      GetExact(s.received, t.receivedU, t.accepted, u);
      InsertTracks(s.received, t.receivedU, t.accepted, u, ReceivedMeta, ReceivedMeta);
    }
  }

  lemma {:induction false} AcceptKeeps<B>(t: Trace<B>, peer: Trace<B>, u: int)
    requires SentTrue(t) && u in peer.out
    ensures AckSound(t, peer) ==> AckSound(AfterAccept(t, u), peer)
    ensures AckSound(peer, t) ==> AckSound(peer, AfterAccept(t, u))
    ensures WatermarkSafe(t, peer) && t.lowU <= t.receivedU ==> WatermarkSafe(AfterAccept(t, u), peer)
    ensures WatermarkSafe(peer, t) ==> WatermarkSafe(peer, AfterAccept(t, u))
  {
    var t' := AfterAccept(t, u);
    forall x | Reported(t, peer, x)
      ensures Reported(t', peer, x)
    {
      var w :| w in peer.accepted && w in t.out && Reports(t.out[w], x);
      assert w in t'.out && Reports(t'.out[w], x);
    }
    forall x | Reported(peer, t, x)
      ensures Reported(peer, t', x)
    {
      var w :| w in t.accepted && w in peer.out && Reports(peer.out[w], x);
      assert w in t'.accepted;
    }
  }

  // -- processing acks --

  /** The history after an ack for a packet sent and not acked before. */
  ghost function AfterAck<B>(s: PacketState, t: Trace<B>, x: int): Trace<B>
    requires x in t.meta && x in t.out
  {
    var meta := t.meta[x];
    t.(meta := t.meta[x := meta.(acked := true)],
       newestU := if Newer(s.newestAck, Wrap(x)) == s.newestAck then t.newestU else x,
       lowU := if Newer(s.ackLowWatermark, meta.ackedUpTo) == s.ackLowWatermark then t.lowU else t.out[x].ackBase)
  }

  /** Whatever id an ack names, right or wrong: if it is taken to ack something, that is a packet
      really sent, and the endpoint's own state stays right. */
  lemma {:induction false} AckIsLocal<B>(s: PacketState, t: Trace<B>, n: nat, id: u16)
    requires Local(s, t, n)
    requires ProcessAck(s, (id, true)).1
    ensures var x := Owner(id, t.sentU);
            && x in t.out && !t.meta[x].acked
            && Local(ProcessAck(s, (id, true)).0, AfterAck(s, t, x), n)
  {
    var x := Owner(id, t.sentU);
    OwnerWraps(id, t.sentU);
    GetSound(s.sent, t.sentU, t.meta, x);
    UpdateTracks(s.sent, t.sentU, t.meta, x, t.meta[x].(acked := true));
  }

  /** The history after a whole ack field, and the unwrapped ids of the packets newly acked. */
  ghost function AfterAcks<B>(s: PacketState, t: Trace<B>, acks: seq<Ack>): (Trace<B>, seq<int>)
    requires s.Valid()
    decreases |acks|
  {
    if acks == [] then (t, [])
    else
      var x := Owner(acks[0].0, t.sentU);
      var (s1, first) := ProcessAck(s, acks[0]);
      if first && x in t.meta && x in t.out then
        var (t', xs) := AfterAcks(s1, AfterAck(s, t, x), acks[1..]);
        (t', [x] + xs)
      else AfterAcks(s1, t, acks[1..])
  }

  /** The acks name packets that the peer accepted. */
  ghost predicate Honest<B>(t: Trace<B>, peer: Trace<B>, acks: seq<Ack>) {
    forall k | 0 <= k < |acks| && acks[k].1 :: Owner(acks[k].0, t.sentU) in peer.accepted
  }

  /** The ids newly acked, unwrapped: packets sent, not acked before, each of them once. */
  ghost predicate NewlyAcked<B>(t: Trace<B>, t': Trace<B>, ids: seq<u16>, xs: seq<int>) {
    && |xs| == |ids|
    && (forall k | 0 <= k < |xs| :: xs[k] in t.out && xs[k] in t.meta && !t.meta[xs[k]].acked && ids[k] == Wrap(xs[k]))
    && (forall j, k | 0 <= j < k < |xs| :: xs[j] != xs[k])
    && t'.meta.Keys == t.meta.Keys
    && (forall u | u in t.meta :: t'.meta[u] == t.meta[u].(acked := t.meta[u].acked || u in xs))
    && t' == t.(meta := t'.meta, newestU := t'.newestU, lowU := t'.lowU)
  }

  /** Some item of the ack field acks `x`. */
  ghost predicate NamedBy(acks: seq<Ack>, sentU: int, x: int) {
    exists k :: 0 <= k < |acks| && acks[k].1 && Owner(acks[k].0, sentU) == x
  }

  /** While the packets acked are less than half the sequence space old, the newest ack does not move
      back. */
  ghost predicate NewestForward<B>(t: Trace<B>, t': Trace<B>, xs: seq<int>) {
    t.sentU - 32768 < t.newestU && (forall x | x in xs :: t.sentU - 32768 < x) ==> t.newestU <= t'.newestU
  }

  /** The ack field names every packet newly acked, and the newest ack and the watermark come from
      one of them if they have changed. */
  ghost predicate FromAcks<B>(t: Trace<B>, t': Trace<B>, acks: seq<Ack>, xs: seq<int>) {
    && (forall x | x in xs :: x in t.out && NamedBy(acks, t.sentU, x))
    && (t'.newestU == t.newestU || t'.newestU in xs) && NewestForward(t, t', xs)
    && (t'.lowU == t.lowU || exists x :: x in xs && x in t.out && t'.lowU == t.out[x].ackBase)
  }

  lemma {:induction false} NamedLater(acks: seq<Ack>, sentU: int, x: int)
    requires acks != [] && NamedBy(acks[1..], sentU, x)
    ensures NamedBy(acks, sentU, x)
  {
    var k :| 0 <= k < |acks[1..]| && acks[1..][k].1 && Owner(acks[1..][k].0, sentU) == x;
    assert acks[k + 1] == acks[1..][k];
  }

  lemma {:induction false} FromLater<B>(t: Trace<B>, t': Trace<B>, acks: seq<Ack>, xs: seq<int>)
    requires acks != [] && FromAcks(t, t', acks[1..], xs)
    ensures FromAcks(t, t', acks, xs)
  {
    hide NamedBy;
    forall x | x in xs
      ensures NamedBy(acks, t.sentU, x)
    {
      NamedLater(acks, t.sentU, x);
    }
  }

  lemma {:induction false} FromCons<B>(s: PacketState, t: Trace<B>, t': Trace<B>, acks: seq<Ack>, xs: seq<int>)
    requires acks != [] && acks[0].1
    requires var x := Owner(acks[0].0, t.sentU);
             && x in t.meta && x in t.out && FromAcks(AfterAck(s, t, x), t', acks[1..], xs)
             && NewestForward(t, AfterAck(s, t, x), [x])
    ensures FromAcks(t, t', acks, [Owner(acks[0].0, t.sentU)] + xs)
  {
    hide NamedBy, Owner;
    var x := Owner(acks[0].0, t.sentU);
    var t1, all := AfterAck(s, t, x), [x] + xs;
    assert forall y | y in [x] :: y == x;
    assert all[0] == x && forall y :: y in all <==> y == x || y in xs;
    forall y | y in all
      ensures y in t.out && NamedBy(acks, t.sentU, y)
    {
      if y in xs {
        NamedLater(acks, t.sentU, y);
      } else {
        NamedFirst(acks, t.sentU);
      }
    }
    if t'.lowU != t1.lowU {
      var y :| y in xs && y in t1.out && t'.lowU == t1.out[y].ackBase;
      assert y in all;
    }
  }

  lemma {:induction false} NamedFirst(acks: seq<Ack>, sentU: int)
    requires acks != [] && acks[0].1
    ensures NamedBy(acks, sentU, Owner(acks[0].0, sentU))
  {
  }

  lemma {:induction false} NewlyAckedCons<B>(s: PacketState, t: Trace<B>, t': Trace<B>, x: int, ids: seq<u16>,
                                             xs: seq<int>)
    requires x in t.meta && x in t.out && !t.meta[x].acked
    requires NewlyAcked(AfterAck(s, t, x), t', ids, xs)
    ensures NewlyAcked(t, t', [Wrap(x)] + ids, [x] + xs)
  {
    var t1 := AfterAck(s, t, x);
    assert forall u | u in t.meta :: t1.meta[u] == t.meta[u].(acked := t.meta[u].acked || u == x);
    assert x !in xs;
    assert forall u :: u in [x] + xs <==> u == x || u in xs;
    assert t'.meta.Keys == t.meta.Keys;
  }

  lemma {:induction false} LocalValid<B>(s: PacketState, t: Trace<B>, n: nat)
    requires Local(s, t, n)
    ensures s.Valid() && s.received.Valid()
  {
  }

  lemma {:induction false} OutBelow<B>(s: PacketState, t: Trace<B>, n: nat)
    requires Local(s, t, n)
    ensures s.sequenceId == Wrap(t.sequenceU) && t.sentU <= t.sequenceU && (forall v | v in t.out :: 0 < v <= t.sentU)
            && t.meta.Keys == t.out.Keys
    ensures Tracks(s.sent, t.sentU, t.meta) && s.sent.Capacity() == n && GoodCapacity(n)
  {
  }

  /** Whatever acks arrive, right or wrong: those that are taken name packets really sent and not
      acked before, each of them once, and the endpoint's own state stays right. */
  lemma {:induction false} AcksAreLocal<B>(s: PacketState, t: Trace<B>, n: nat, acks: seq<Ack>)
    returns (s': PacketState, ids: seq<u16>, t': Trace<B>, xs: seq<int>)
    requires Local(s, t, n)
    ensures s.Valid() && (s', ids) == ProcessAcks(s, acks) && (t', xs) == AfterAcks(s, t, acks)
    ensures Local(s', t', n) && NewlyAcked(t, t', ids, xs) && FromAcks(t, t', acks, xs)
    decreases |acks|
  {
    hide Owner, AfterAck, Tracks, SentTrue, Newer, FromAcks;
    LocalValid(s, t, n);
    OutBelow(s, t, n);
    s', ids, t', xs := s, [], t, [];
    if acks == [] {
      FromNothing(t);
    } else {
      var x := Owner(acks[0].0, t.sentU);
      var (s1, first) := ProcessAck(s, acks[0]);
      if first {
        assert acks[0] == (acks[0].0, true);
        AckIsLocal(s, t, n, acks[0].0);
        OwnerWraps(acks[0].0, t.sentU);
        assert x in t.out.Keys;
        var rest: seq<u16>;
        var more: seq<int>;
        s', rest, t', more := AcksAreLocal(s1, AfterAck(s, t, x), n, acks[1..]);
        NewlyAckedCons(s, t, t', x, rest, more);
        OneForward(s, t, n, x);
        FromCons(s, t, t', acks, more);
        ids, xs := [acks[0].0] + rest, [x] + more;
      } else {
        s', ids, t', xs := AcksAreLocal(s1, t, n, acks[1..]);
        FromLater(t, t', acks, xs);
      }
    }
  }

  lemma {:induction false} OneForward<B>(s: PacketState, t: Trace<B>, n: nat, x: int)
    requires Local(s, t, n) && x in t.meta && x in t.out && x <= t.sentU
    ensures NewestForward(t, AfterAck(s, t, x), [x])
  {
    hide Tracks;
    assert x in [x];
    if t.newestU != 0 && t.sentU - 32768 < t.newestU && t.sentU - 32768 < x {
      ComparesUnwrapped(x, t.newestU);
    }
  }

  lemma {:induction false} FromNothing<B>(t: Trace<B>)
    ensures FromAcks(t, t, [], [])
  {
  }

  /** Ack soundness: whatever an honest ack field newly marks as acked, the peer accepted; and the
      watermark stays safe. */
  lemma {:induction false} AcksKeep<B>(t: Trace<B>, t': Trace<B>, peer: Trace<B>, acks: seq<Ack>, ids: seq<u16>,
                                       xs: seq<int>)
    requires NewlyAcked(t, t', ids, xs) && FromAcks(t, t', acks, xs)
    requires t.meta.Keys == t.out.Keys && AckSound(t, peer) && Honest(t, peer, acks)
    ensures AckSound(t', peer)
    ensures AckSound(peer, t) ==> AckSound(peer, t')
    ensures WatermarkSafe(t, peer) ==> WatermarkSafe(t', peer)
    ensures WatermarkSafe(peer, t) ==> WatermarkSafe(peer, t')
  {
    hide Owner, Reports;
    forall x | x in xs
      ensures x in peer.accepted
    {
      var k :| 0 <= k < |acks| && acks[k].1 && Owner(acks[k].0, t.sentU) == x;
    }
    forall u | u in t'.meta && t'.meta[u].acked
      ensures u in peer.accepted
    {
      assert u in t.meta.Keys;
    }
    SameReports(t, t', peer);
    SameReports(peer, peer, t);
    if WatermarkSafe(t, peer) && t'.lowU != t.lowU {
      var x :| x in xs && x in t.out && t'.lowU == t.out[x].ackBase;
      forall y | y in t'.inOrder && y <= t'.lowU
        ensures Reported(t', peer, y)
      {
        assert Reports(t.out[x], y) || Reported(t, peer, y);
      }
    }
    forall y | Reported(peer, t, y)
      ensures Reported(peer, t', y)
    {
      var w :| w in t.accepted && w in peer.out && Reports(peer.out[w], y);
      assert w in t'.accepted;
    }
  }

  lemma {:induction false} SameReports<B>(t: Trace<B>, t': Trace<B>, peer: Trace<B>)
    requires t'.out == t.out
    ensures forall x :: Reported(t, peer, x) <==> Reported(t', peer, x)
  {
  }

  lemma {:induction false} SameSent<B>(s: PacketState, t: Trace<B>, x: int)
    requires x in t.meta && x in t.out
    ensures AfterAck(s, t, x).sentU == t.sentU
  {
  }

  lemma {:induction false} AckedInWindow<B>(s: PacketState, t: Trace<B>, n: nat, id: u16)
    requires Local(s, t, n)
    requires var x := Owner(id, t.sentU); x in t.out && t.sentU - n < x
    ensures s.Valid() && Owner(id, t.sentU) in t.meta
    ensures ProcessAck(s, (id, true)).1 <==> !t.meta[Owner(id, t.sentU)].acked
    ensures !ProcessAck(s, (id, true)).1 ==> ProcessAck(s, (id, true)).0 == s
  {
    var x := Owner(id, t.sentU);
    OwnerWraps(id, t.sentU);
    GetExact(s.sent, t.sentU, t.meta, x);
  }

  lemma {:induction false} StaysAcked<B>(s: PacketState, t: Trace<B>, n: nat, acks: seq<Ack>, x: int)
    requires Local(s, t, n) && x in t.meta && t.meta[x].acked
    ensures s.Valid() && x in AfterAcks(s, t, acks).0.meta && AfterAcks(s, t, acks).0.meta[x].acked
  {
    hide Local, AfterAcks;
    var _, _, t', _ := AcksAreLocal(s, t, n, acks);
    assert x in t'.meta.Keys;
  }

  /** Acks take effect: every packet in the window that the ack field names is marked acked. */
  lemma {:induction false} AcksMark<B>(s: PacketState, t: Trace<B>, n: nat, acks: seq<Ack>, k: nat)
    requires Local(s, t, n) && k < |acks| && acks[k].1
    requires var x := Owner(acks[k].0, t.sentU); x in t.out && t.sentU - n < x
    ensures s.Valid()
    ensures var x, t' := Owner(acks[k].0, t.sentU), AfterAcks(s, t, acks).0;
            x in t'.meta && t'.meta[x].acked
    decreases |acks|
  {
    hide Owner, Newer, Local;
    LocalValid(s, t, n);
    OutBelow(s, t, n);
    var (s1, first) := ProcessAck(s, acks[0]);
    var y := Owner(acks[0].0, t.sentU);
    if first {
      assert acks[0] == (acks[0].0, true);
      AckIsLocal(s, t, n, acks[0].0);
      assert y in t.out.Keys;
      if k == 0 {
        StaysAcked(s1, AfterAck(s, t, y), n, acks[1..], y);
      } else {
        AcksMark(s1, AfterAck(s, t, y), n, acks[1..], k - 1);
      }
    } else if k == 0 {
      assert acks[0] == (acks[0].0, true);
      AckedInWindow(s, t, n, acks[0].0);
      StaysAcked(s, t, n, acks[1..], y);
    } else {
      AcksMark(s1, t, n, acks[1..], k - 1);
    }
  }

  /** The peer's headers are honest while the acks in them are less than a full turn old. */
  lemma {:induction false} HeaderIsHonest<B>(t: Trace<B>, peer: Trace<B>, p: Sent<B>, u: int)
    requires SentTrue(t) && AckSound(t, peer)
    requires HeaderTrue(p, u, peer.accepted)
    requires t.sentU - p.ackBase + MAX_UNACKED_PACKETS <= 65536
    ensures Honest(t, peer, AcksOf(p.header))
  {
    var acks := AcksOf(p.header);
    forall k | 0 <= k < |acks| && acks[k].1
      ensures Owner(acks[k].0, t.sentU) in peer.accepted
    {
      assert p.ackBase - k in t.out;
      OwnerOf(p.ackBase - k, t.sentU);
    }
  }

  // -- moving forward only --

  /** While the spans stay under half the sequence space, the wrapping comparisons are the real
      ones, so the newest ack and the watermark only move forward. */
  lemma {:induction false} AckMovesForward<B>(s: PacketState, t: Trace<B>, n: nat, x: int)
    requires Local(s, t, n) && x in t.out
    requires t.newestU == 0 || -32768 < x - t.newestU < 32768
    requires -32768 < t.out[x].ackBase - t.lowU < 32768
    ensures var t' := AfterAck(s, t, x);
            && t'.newestU == (if t.newestU < x then x else t.newestU)
            && t'.lowU == (if t.lowU < t.out[x].ackBase then t.out[x].ackBase else t.lowU)
  {
    if t.newestU != 0 {
      ComparesUnwrapped(x, t.newestU);
    }
    if s.ackLowWatermark.Some? {
      ComparesUnwrapped(t.out[x].ackBase, t.lowU);
    }
  }
}
