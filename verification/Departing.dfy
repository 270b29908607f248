/** Packets leave: messages packets, as `compose_packets` makes them, and the packets of the
    handshake, keep-alives and disconnects. */
module Departing {
  import opened Words
  import opened Wire
  import opened SequenceBuffers
  import opened SequenceWindow
  import opened AckHeaders
  import opened Messages
  import opened Packets
  import opened Channels
  import opened Dispatchers
  import opened PacketLayer
  import opened PacketInvariants
  import opened Endpoints
  import opened MessageBooks
  import opened Deliveries
  import opened Acknowledging
  import opened Transmitting
  import opened Nodes

  /** How long an endpoint may be silent, or send nothing but keep-alives, and how far its peer's
      knowledge may lag behind. */
  ghost predicate CanSend(x: Node, n: nat) {
    && x.t.sequenceU + 1 - x.t.sentU < 32768 - n
    && x.t.sequenceU + 1 - x.recorded < 32768 - n
    && x.t.receivedU - x.t.lowU < 65536
  }

  ghost function PackOne(x: Node): Node
    requires Ready(x.e) && x.e.xorSalt.Some?
  {
    match ComposeOne(x.e)
    case (e, Err(_)) => x.(e := e, t := AfterHeader(x.t))
    case (e, Ok(p)) =>
      var u := x.t.sequenceU + 1;
      x.(e := e, t := AfterSend(x.t, p.header, Cargo(p.packet, p.messages)),
         recorded := u, records := x.records[u := HandlesFor(p.messages)])
  }

  /** A packet of the handshake, a keep-alive or a disconnect; its header is still to be filled in. */
  ghost predicate IsControl(p: Packet) {
    p.Valid() && !p.MessagesPacket?
  }

  function Headed(p: Packet, h: Header): Packet {
    match p
    case ConnectionRequest(_, clientSalt, protocolVersion) => ConnectionRequest(h, clientSalt, protocolVersion)
    case ConnectionChallenge(_, clientSalt, serverSalt) => ConnectionChallenge(h, clientSalt, serverSalt)
    case ConnectionChallengeResponse(_, xorSalt) => ConnectionChallengeResponse(h, xorSalt)
    case ConnectionDenied(_, reason) => ConnectionDenied(h, reason)
    case MessagesPacket(_, xorSalt) => MessagesPacket(h, xorSalt)
    case Disconnect(_, xorSalt) => Disconnect(h, xorSalt)
    case KeepAlive(_, xorSalt, clientIndex) => KeepAlive(h, xorSalt, clientIndex)
  }

  /** `send_packet`, with a header from `next_packet_header`. */
  ghost function SendPacket(e: Endpoint, p: Packet): (Endpoint, Option<bytes>)
    requires Ready(e) && IsControl(p)
  {
    var next := NextHeader(e.packets, p.header.packetType);
    var e' := e.(packets := next.0);
    if next.1.Err? then (e', None)
    else
      var written := WritePacket(e.config.maxPacketSize, Headed(p, next.1.value));
      if written.Err? then (e', None)
      else
        match RecordSent(e'.packets)
        case Err(_) => (e', None)
        case Ok(packets) => (e'.(packets := packets, outbox := e.outbox + [written.value]), Some(written.value))
  }

  ghost function Signal(x: Node, p: Packet): Node
    requires Ready(x.e) && IsControl(p)
  {
    var (e, packet) := SendPacket(x.e, p);
    if packet.None? then x.(e := e, t := AfterHeader(x.t))
    else x.(e := e, t := AfterSend(x.t, NextHeader(x.e.packets, p.header.packetType).1.value, Cargo(packet.value, [])))
  }

  // -- the record of messages --

  lemma {:induction false} InsertHeld<T>(r: Ring<T>, q: int, data: T, default: T)
    requires r.Valid() && r.Insert(Wrap(q), data, default).Ok? && 65536 % r.Capacity() == 0
    ensures var r' := r.Insert(Wrap(q), data, default).value;
            r'.Capacity() == r.Capacity() && |r'.tags| == |r'.entries| && Held(r', q)
  {
    hide Wrap;
    r.InsertSlots(Wrap(q), data, default);
    WrapKeepsSlot(q, r.Capacity());
  }

  lemma {:induction false} GuardedAdvances<T>(r: Ring<T>, top: int, q: int, data: T, default: T)
    requires r.Valid() && r.sequence == Wrap(top)
    requires top < q < top + 32768 - r.Capacity()
    ensures r.CheckSequence(Wrap(q)) && InReach(q, top, r.Capacity())
    ensures r.Insert(Wrap(q), data, default) == Ok(r.Advance(Wrap(q), default).Write(Wrap(q), data))
  {
    hide Wrap;
    GuardExact(r, top, q);
    GuardOpens(r, top, q);
  }

  ghost predicate NextTrace(t: Trace<Cargo>, t': Trace<Cargo>, h: Header, body: Cargo) {
    t' == AfterSend(t, h, body) && t.sentU <= t.sequenceU && forall v | v in t.out :: v <= t.sentU
  }

  /** A packet is recorded as sent under the id `q`. */
  ghost predicate SentNext(sent: Ring<SentMeta>, sent': Ring<SentMeta>, q: int, meta: SentMeta) {
    0 < |sent.tags| == |sent.entries| && sent.Insert(Wrap(q), meta, UNSENT) == Ok(sent')
  }

  /** What the sent-packets buffer still holds after a packet, it held before, in another slot. */
  lemma {:induction false} StillHeld(sent: Ring<SentMeta>, sent': Ring<SentMeta>, q: int, meta: SentMeta, v: int)
    requires sent.Valid() && 65536 % sent.Capacity() == 0 && SentNext(sent, sent', q, meta)
    requires |sent'.tags| == |sent'.entries| == sent.Capacity() && q - 65536 < v < q && Held(sent', v)
    ensures Held(sent, v) && v % sent.Capacity() != q % sent.Capacity()
  {
    hide Wrap;
    sent.InsertSlots(Wrap(q), meta, UNSENT);
    WrapKeepsSlot(q, sent.Capacity());
    WrapMoves(v);
    if Wrap(v) == Wrap(q) {
      WrapInjective(v, q);
    }
  }

  lemma {:induction false} SweptAfter(sent: Ring<SentMeta>, sent': Ring<SentMeta>, top: int, a: int, q: int,
                                      meta: SentMeta)
    requires sent.Valid() && sent.sequence == Wrap(a) && 65536 % sent.Capacity() == 0 && SentNext(sent, sent', q, meta)
    requires |sent'.tags| == |sent'.entries| == sent.Capacity()
    requires 0 <= top <= a < q < a + 32768 - sent.Capacity()
    requires Swept(sent, top, a)
    ensures Swept(sent', top, q)
  {
    hide Held, Wrap;
    var n := sent.Capacity();
    if Clears(top, q) {
      forall u, j | q - 65536 < u <= top < j <= q && Held(sent', u)
        ensures Slot(j, n) != Slot(u, n)
      {
        StillHeld(sent, sent', q, meta, u);
        if a < j < q {
          GuardedAdvances(sent, a, q, meta, UNSENT);
          AdvanceClears(sent, a, q, UNSENT, j);
          GoneAfter(sent, sent', q, meta, u, j);
        }
      }
    }
  }

  lemma {:induction false} GoneAfter(sent: Ring<SentMeta>, sent': Ring<SentMeta>, q: int, meta: SentMeta, u: int,
                                     j: int)
    requires sent.Valid() && 65536 % sent.Capacity() == 0
    requires sent' == sent.Advance(Wrap(q), UNSENT).Write(Wrap(q), meta)
    requires Held(sent', u) && u % sent.Capacity() != q % sent.Capacity()
    requires sent.Advance(Wrap(q), UNSENT).tags[j % sent.Capacity()] == EMPTY
    ensures u % sent.Capacity() != j % sent.Capacity()
  {
    WrapKeepsSlot(q, sent.Capacity());
  }

  lemma {:induction false} InsertSpares<T>(r: Ring<T>, top: int, q: int, data: T, default: T, u: int)
    requires r.Valid() && r.sequence == Wrap(top) && 0 <= top < q <= top + 32768
    requires 65536 % r.Capacity() == 0
    requires r.Insert(Wrap(q), data, default) == Ok(r.Advance(Wrap(q), default).Write(Wrap(q), data))
    requires Clears(top, q) ==> forall k | top < k <= q :: Slot(k, r.Capacity()) != Slot(u, r.Capacity())
    requires Held(r, u) && u % r.Capacity() != q % r.Capacity()
    ensures Held(r.Insert(Wrap(q), data, default).value, u)
  {
    hide Wrap;
    AdvanceSpares(r, top, q, default, u);
    WrapKeepsSlot(q, r.Capacity());
  }

  /** A new messages packet enters the record. */
  lemma {:induction false} RecordRight(r: Ring<seq<Handle>>, sent: Ring<SentMeta>, sent': Ring<SentMeta>,
                                       t: Trace<Cargo>, t': Trace<Cargo>, n: nat, top: int, m: map<int, seq<Handle>>,
                                       done: set<int>, h: Header, body: Cargo)
    requires HandlesRight(r, sent, t, n, top, m, done) && GoodCapacity(n)
    requires sent.Capacity() == n && Tracks(sent, t.sentU, t.meta)
    requires SentNext(sent, sent', t.sequenceU + 1, SentMeta(false, Wrap(t.receivedU)))
             && sent'.Capacity() == |sent'.tags| == n
    requires NextTrace(t, t', h, body) && h.packetType == MessagesType
    requires 0 <= top && t.sequenceU + 1 - top < 32768 - n
    ensures var u, hs := t.sequenceU + 1, HandlesFor(body.messages);
            && r.Insert(Wrap(u), hs, []).Ok?
            && HandlesRight(r.Insert(Wrap(u), hs, []).value, sent', t', n, u, m[u := hs], done)
  {
    hide Wrap, Sound, Held, HandlesFor, Swept, SentNext;
    var u, hs := t.sequenceU + 1, HandlesFor(body.messages);
    var meta := SentMeta(false, Wrap(t.receivedU));
    SoundTop(r, top, m);
    SoundTop(sent, t.sentU, t.meta);
    GuardedAdvances(r, top, u, hs, []);
    InsertTracks(r, top, m, u, hs, []);
    InsertHeld(r, u, hs, []);
    var r' := r.Insert(Wrap(u), hs, []).value;
    SweptAfter(sent, sent', top, t.sentU, u, meta);
    forall v | v in m[u := hs] && v !in done && t'.sentU - 65536 < v && Held(sent', v)
      ensures Held(r', v)
    {
      if v != u {
        SoundRange(r, top, m, v);
        StillHeld(sent, sent', u, meta, v);
        SweptAt(sent', top, u, v);
        InsertSpares(r, top, u, hs, [], v);
      }
    }
    SweptHere(sent', u);
    var m' := m[u := hs];
    forall v | v in m'
      ensures Recorded(v, m'[v], t'.out)
    {
      if v != u {
        assert Recorded(v, m[v], t.out);
      }
    }
  }

  lemma {:induction false} SweptAt(sent: Ring<SentMeta>, top: int, q: int, v: int)
    requires 0 < |sent.tags| == |sent.entries| && Swept(sent, top, q) && q - 65536 < v <= top && Held(sent, v)
    ensures Clears(top, q) ==> forall k | top < k <= q :: Slot(k, |sent.tags|) != Slot(v, |sent.tags|)
  {
    hide Held;
  }

  lemma {:induction false} SweptHere(sent: Ring<SentMeta>, q: int)
    requires 0 < |sent.tags| == |sent.entries|
    ensures Swept(sent, q, q)
  {
  }

  /** A packet without messages changes nothing in the record. */
  lemma {:induction false} RecordStays(r: Ring<seq<Handle>>, sent: Ring<SentMeta>, sent': Ring<SentMeta>,
                                       t: Trace<Cargo>, t': Trace<Cargo>, n: nat, top: int, m: map<int, seq<Handle>>,
                                       done: set<int>, h: Header, body: Cargo)
    requires HandlesRight(r, sent, t, n, top, m, done) && GoodCapacity(n)
    requires sent.Capacity() == n && Tracks(sent, t.sentU, t.meta)
    requires SentNext(sent, sent', t.sequenceU + 1, SentMeta(false, Wrap(t.receivedU)))
             && sent'.Capacity() == |sent'.tags| == n
    requires NextTrace(t, t', h, body) && h.packetType != MessagesType && body.messages == []
    requires 0 <= top && t.sequenceU + 1 - t.sentU < 32768 - n
    ensures HandlesRight(r, sent', t', n, top, m, done)
  {
    hide Wrap, Sound, Held, HandlesFor, Swept, SentNext;
    var meta := SentMeta(false, Wrap(t.receivedU));
    SoundTop(sent, t.sentU, t.meta);
    SoundTop(r, top, m);
    SweptAfter(sent, sent', top, t.sentU, t.sequenceU + 1, meta);
    forall v | v in m
      ensures Recorded(v, m[v], t'.out)
    {
      assert Recorded(v, m[v], t.out);
    }
    forall v | v in m && v !in done && t'.sentU - 65536 < v && Held(sent', v)
      ensures Held(r, v)
    {
      SoundRange(r, top, m, v);
      StillHeld(sent, sent', t.sequenceU + 1, meta, v);
    }
  }

  lemma {:induction false} DoneSame(t: Trace<Cargo>, t': Trace<Cargo>, h: Header, body: Cargo)
    requires NextTrace(t, t', h, body) && t.meta.Keys == t.out.Keys
    ensures Done(t') == Done(t) && Carried(t'.out, Done(t)) == Carried(t.out, Done(t))
  {
    assert t.sequenceU + 1 !in t.out.Keys;
    assert Done(t') == Done(t);
    CarriedSame(t.out, t'.out, Done(t));
  }

  lemma {:induction false} CarriedSame(out: map<int, Sent<Cargo>>, out': map<int, Sent<Cargo>>, done: set<int>)
    requires forall u | u in done :: u in out && u in out' && out'[u] == out[u]
    ensures Carried(out', done) == Carried(out, done)
  {
    forall m
      ensures m in Carried(out', done) <==> m in Carried(out, done)
    {
      if m in Carried(out', done) {
        var u :| u in done && u in out' && m in out'[u].body.messages;
        assert u in out && m in out[u].body.messages;
      }
      if m in Carried(out, done) {
        var u :| u in done && u in out && m in out[u].body.messages;
        assert u in out' && m in out'[u].body.messages;
      }
    }
  }

  // -- messages travel once --

  lemma {:induction false} SendLoose(cs: seq<Channel>, cs': seq<Channel>, out: map<int, Sent<Cargo>>, u: int,
                                     p: Sent<Cargo>)
    requires LooseOnce(cs, out) && u !in out
    requires |cs'| == |cs| && forall i | 0 <= i < |cs| :: Shrinks(cs[i], cs'[i])
    requires Moved(cs, cs', p.body.messages)
    ensures LooseOnce(cs', out[u := p])
  {
    hide Queued, Shrinks, Moved, UniqueAt, Loose;
    var out' := out[u := p];
    forall v, k | v in out' && 0 <= k < |out'[v].body.messages| && Loose(cs', out'[v].body.messages[k])
      ensures out'[v].body.messages[k].channel < |cs'|
      ensures UniqueAt(out', v, k) && out'[v].body.messages[k] !in Queued(cs'[out'[v].body.messages[k].channel])
    {
      LooseBefore(cs, cs', out'[v].body.messages[k]);
      if v == u {
        NewLoose(cs, cs', out, u, p, k);
      } else {
        OldLoose(cs, cs', out, u, p, v, k);
      }
    }
  }

  lemma {:induction false} LooseBefore(cs: seq<Channel>, cs': seq<Channel>, m: Message)
    requires |cs'| == |cs| && forall i | 0 <= i < |cs| :: Shrinks(cs[i], cs'[i])
    requires Loose(cs', m)
    ensures Loose(cs, m) && m.channel < |cs|
  {
    hide Queued, Shrinks;
    assert Shrinks(cs[m.channel], cs'[m.channel]);
    ShrinksId(cs[m.channel], cs'[m.channel]);
  }

  lemma {:induction false} NewLoose(cs: seq<Channel>, cs': seq<Channel>, out: map<int, Sent<Cargo>>, u: int,
                                    p: Sent<Cargo>, k: nat)
    requires LooseOnce(cs, out) && u !in out && |cs'| == |cs| && Moved(cs, cs', p.body.messages)
    requires k < |p.body.messages| && Loose(cs, p.body.messages[k])
    ensures var m := p.body.messages[k];
            m.channel < |cs| && UniqueAt(out[u := p], u, k) && m !in Queued(cs'[m.channel])
  {
    hide Queued, ReadyMessages, Stamped;
    var m := p.body.messages[k];
    assert m in p.body.messages;
    OneIndex(p.body.messages, k);
    OldElsewhere(cs, out, m);
  }

  lemma {:induction false} OldLoose(cs: seq<Channel>, cs': seq<Channel>, out: map<int, Sent<Cargo>>, u: int,
                                    p: Sent<Cargo>, v: int, k: nat)
    requires LooseOnce(cs, out) && u !in out && |cs'| == |cs| && Moved(cs, cs', p.body.messages)
    requires forall i | 0 <= i < |cs| :: Shrinks(cs[i], cs'[i])
    requires v in out && k < |out[v].body.messages| && Loose(cs, out[v].body.messages[k])
    ensures var m := out[v].body.messages[k];
            m.channel < |cs| && UniqueAt(out[u := p], v, k) && m !in Queued(cs'[m.channel])
  {
    hide Queued, Shrinks, ReadyMessages, Stamped;
    var m := out[v].body.messages[k];
    assert UniqueAt(out, v, k);
    assert m !in p.body.messages;
    StillGone(cs[m.channel], cs'[m.channel], m);
  }

  lemma {:induction false} OldElsewhere(cs: seq<Channel>, out: map<int, Sent<Cargo>>, m: Message)
    requires LooseOnce(cs, out) && Loose(cs, m) && m in Queued(cs[m.channel])
    ensures forall v, j | v in out && 0 <= j < |out[v].body.messages| :: out[v].body.messages[j] != m
  {
    hide Queued, UniqueAt;
  }

  lemma {:induction false} StillGone(c: Channel, c': Channel, m: Message)
    requires Shrinks(c, c') && m !in Queued(c)
    ensures m !in Queued(c')
  {
    if m in Queued(c') {
      QueuedShrinks(c, c', m);
    }
  }

  // -- the bytes read back --

  lemma {:induction false} KeptOutbound(b: Book, ms: seq<Message>)
    requires WellKept(b) && MessagesKept(b, ms)
    ensures AllOutbound(ms) && AllFit(ms)
  {
    hide IsOutbound, Fits, InTable;
    AllOutboundIff(ms);
    forall m | m in ms
      ensures IsOutbound(m) && Fits(m)
    {
      assert InTable(b, m, m.channel);
      KeptEntry(b, m);
    }
  }

  lemma {:induction false} KeptEntry(b: Book, m: Message)
    requires WellKept(b) && InTable(b, m, m.channel)
    ensures IsOutbound(m) && Fits(m)
  {
    assert Entry(b, m.id);
  }

  lemma {:induction false} MessagesReadable(b: Book, h: Header, salt: u64, base: int, ms: seq<Message>, packet: bytes)
    requires WellKept(b) && MessagesKept(b, ms) && h.packetType == MessagesType
    requires h.ack.Some? ==> Terminated(h.ack.value)
    requires packet == PacketBytes(MessagesPacket(h, salt)) + Coalesce(ms)
    ensures Readable(Sent(h, base, Cargo(packet, ms)))
  {
    hide PacketBytes, Coalesce, ReadPacket, ParseMessages, AllOutbound, AllFit, Terminated, InboundAll;
    KeptOutbound(b, ms);
    MessagesRoundTripIff(h, salt, ms, packet, |PacketBytes(MessagesPacket(h, salt))|);
  }

  lemma {:induction false} ControlReadable(p: Packet, h: Header, base: int)
    requires IsControl(p) && h.packetType == p.header.packetType
    requires h.ack.Some? ==> Terminated(h.ack.value)
    ensures Readable(Sent(h, base, Cargo(PacketBytes(Headed(p, h)), [])))
  {
    hide PacketBytes, ReadPacket, Terminated;
    var p' := Headed(p, h);
    assert At(PacketBytes(p'), 0, PacketBytes(p'));
    PacketReads(PacketBytes(p'), p');
  }

  lemma {:induction false} HeaderTerminated(s: PacketState, t: Trace<Cargo>, n: nat, kind: PacketType)
    requires Local(s, t, n) && NextHeader(s, kind).1.Ok?
    ensures var h := NextHeader(s, kind).1.value; h.packetType == kind && (h.ack.Some? ==> Terminated(h.ack.value))
  {
    hide NextHeader, Tracks, SentTrue;
    HeaderMade(s, t, n, kind, Cargo([], []));
  }

  // -- composing --

  /** The records never fail for an endpoint that is not silent for too long. */
  lemma {:induction false} RecordsTaken(x: Node, n: nat, kind: PacketType, load: Load)
    requires NodeOk(x, n) && CanSend(x, n)
    ensures var packets := NextHeader(x.e.packets, kind).0;
            && packets == x.e.packets.(sequenceId := Wrap(x.t.sequenceU + 1))
            && RecordSent(packets).Ok?
            && SetHandles(x.e.dispatcher, packets.sequenceId, load.handles).Ok?
  {
    hide NextHeader, Wrap, Tracks, SentTrue, WellKept, OutKept, LooseOnce, AllReadable, RecordSent, Done, Sound;
    var s := x.e.packets;
    NextHeaderId(s, kind);
    WrapArithmetic(x.t.sequenceU, 1);
    RecordTaken(NextHeader(s, kind).0, x.t, n);
    SoundTop(x.e.dispatcher.inPackets, x.recorded, x.records);
    GuardedAdvances(x.e.dispatcher.inPackets, x.recorded, x.t.sequenceU + 1, load.handles, []);
  }

  lemma {:induction false} NextHeaderId(s: PacketState, kind: PacketType)
    requires s.received.Valid()
    ensures NextHeader(s, kind).0 == s.(sequenceId := WrapAdd(s.sequenceId, 1))
  {
    hide BuildAckHeader, AckList;
  }

  lemma {:induction false} ComposeFails(x: Node, n: nat)
    requires NodeOk(x, n) && CanSend(x, n) && ComposeOne(x.e).1.Err?
    ensures ComposeOne(x.e).0 == x.e.(packets := NextHeader(x.e.packets, MessagesType).0)
  {
    hide Local, WellKept, Numbered, OutKept, LooseOnce, AllReadable, Filed, NextHeader, RecordSent, SetHandles, Fill,
      PacketBytes, Coalesce;
    var next := NextHeader(x.e.packets, MessagesType);
    if next.1.Ok? {
      var head := PacketBytes(MessagesPacket(next.1.value, x.e.xorSalt.value));
      if |head| <= x.e.config.maxPacketSize {
        RecordsTaken(x, n, MessagesType, Fill(x.e.channels, x.e.config.maxPacketSize - |head|, Load([], [])).1);
      }
    }
  }

  ghost predicate Shrunk(b: Book, cs: seq<Channel>, cs': seq<Channel>, load: Load) {
    && |cs'| == |cs| && Numbered(cs') && GoodChannels(cs') && QueuesOnce(b, cs') && LoadKept(b, load)
    && (forall i | 0 <= i < |cs| :: Shrinks(cs[i], cs'[i]))
    && Moved(cs, cs', load.messages)
  }

  lemma {:induction false} FillShrunk(b: Book, cs: seq<Channel>, room: nat)
    requires GoodChannels(cs) && Numbered(cs) && QueuesOnce(b, cs)
    ensures Shrunk(b, cs, Fill(cs, room, Load([], [])).0, Fill(cs, room, Load([], [])).1)
    ensures LoadKept(b, Fill(cs, room, Load([], [])).1)
  {
    hide Fill, QueuesOnce, Moved, Shrinks, GoodChannels;
    FillMoves(b, cs, room);
    FillKeeps(b, cs, room, Load([], []));
    FillShrinks(cs, room, Load([], []));
  }

  /** What composing one packet leaves behind. */
  ghost predicate ComposedTo(x: Node, x': Node, n: nat, p: Composed, load: Load)
    requires Ready(x.e)
  {
    && p.header.packetType == MessagesType && p.messages == load.messages
    && NextTrace(x.t, x'.t, p.header, Cargo(p.packet, p.messages))
    && Shrunk(x.book, x.e.channels, x'.e.channels, load)
    && NextHeader(x.e.packets, MessagesType).1 == Ok(p.header)
    && Local(x'.e.packets, x'.t, n)
    && SentNext(x.e.packets.sent, x'.e.packets.sent, x.t.sequenceU + 1, SentMeta(false, Wrap(x.t.receivedU)))
    && Readable(Sent(p.header, x.t.receivedU, Cargo(p.packet, p.messages)))
    && x'.e.dispatcher == x.e.dispatcher.(inPackets := x'.e.dispatcher.inPackets)
    && SetHandles(x.e.dispatcher, Wrap(x.t.sequenceU + 1), HandlesFor(p.messages)) == Ok(x'.e.dispatcher)
    && x'.e.config == x.e.config && x'.e.xorSalt == x.e.xorSalt
    && x' == Node(x'.e, x'.t, x.book, x.rx, x.tops, x.t.sequenceU + 1,
         x.records[x.t.sequenceU + 1 := HandlesFor(p.messages)])
  }

  lemma {:induction false} ComposeShape(x: Node, n: nat) returns (x': Node, p: Composed, load: Load)
    requires NodeOk(x, n) && CanSend(x, n) && QueuesOnce(x.book, x.e.channels)
    requires ComposeOne(x.e).1.Ok?
    ensures x' == PackOne(x)
    ensures ComposedTo(x, x', n, p, load)
  {
    hide ComposeOne, NextHeader, RecordSent, SetHandles, Fill, PacketBytes, Coalesce, WellKept, Tracks, OutKept,
      LooseOnce, AllReadable, QueuesOnce, HandlesFor, Readable, GoodChannels, Filed, Done, SentNext, Shrunk, Local;
    var header, head, channels, load', packets, dispatcher := ComposeOneShape(x.e);
    x' := PackOne(x);
    load := load';
    p := Composed(header, load.messages, head + Coalesce(load.messages));
    NextHeaderId(x.e.packets, MessagesType);
    WrapArithmetic(x.t.sequenceU, 1);
    FillShrunk(x.book, x.e.channels, x.e.config.maxPacketSize - |head|);
    SendKeeps(x.e.packets, x.t, n, MessagesType, Cargo(p.packet, p.messages));
    HeaderTerminated(x.e.packets, x.t, n, MessagesType);
    MessagesReadable(x.book, header, x.e.xorSalt.value, x.t.receivedU, load.messages, p.packet);
    OutBelow(x.e.packets, x.t, n);
    SentInto(x.e.packets, x.t, n, MessagesType);
  }

  /** How a packet enters the sent-packets buffer. */
  lemma {:induction false} SentInto(s: PacketState, t: Trace<Cargo>, n: nat, kind: PacketType)
    requires Local(s, t, n) && s.received.Valid()
    requires NextHeader(s, kind).0.Valid() && RecordSent(NextHeader(s, kind).0).Ok?
    ensures var sent' := RecordSent(NextHeader(s, kind).0).value.sent;
            && SentNext(s.sent, sent', t.sequenceU + 1, SentMeta(false, Wrap(t.receivedU)))
            && sent'.Capacity() == |sent'.tags| == n
  {
    hide Wrap, NextHeader;
    NextHeaderId(s, kind);
    WrapArithmetic(t.sequenceU, 1);
  }

  lemma {:induction false} ShrunkReady(e: Endpoint, e': Endpoint)
    requires Ready(e) && e'.config == e.config && e'.packets.Valid() && e'.packets.received.Valid()
    requires e'.dispatcher.Valid() && GoodChannels(e'.channels)
    ensures Ready(e')
  {
  }

  lemma {:induction false} ShrunkQueues(b: Book, spent: set<Message>, cs: seq<Channel>, cs': seq<Channel>, load: Load)
    requires Queueing(b, spent, cs) && Shrunk(b, cs, cs', load)
    ensures Queueing(b, spent, cs') && |cs'| == |cs|
    ensures forall i | 0 <= i < |cs| :: cs'[i].Unreliable? == cs[i].Unreliable? && cs'[i].seen == cs[i].seen
  {
    hide Queued, QueuesOnce, LoadKept, Moved, GoodChannels;
    forall i | 0 <= i < |cs|
      ensures cs'[i].Unreliable? == cs[i].Unreliable? && cs'[i].seen == cs[i].seen
      ensures cs[i].Reliable? ==> Queued(cs'[i]) == Queued(cs[i])
    {
      assert Shrinks(cs[i], cs'[i]);
    }
    forall id | id in b.table
      ensures RetainedOne(b, spent, cs', id)
    {
      assert RetainedOne(b, spent, cs, id);
    }
  }

  lemma {:induction false} AddReadable(out: map<int, Sent<Cargo>>, u: int, p: Sent<Cargo>)
    requires AllReadable(out) && Readable(p)
    ensures AllReadable(out[u := p])
  {
    hide Readable;
  }

  lemma {:induction false} AddKeptPacket(b: Book, out: map<int, Sent<Cargo>>, u: int, p: Sent<Cargo>)
    requires OutKept(b, out) && MessagesKept(b, p.body.messages) && Once(p.body.messages)
    ensures OutKept(b, out[u := p])
  {
    hide MessagesKept, Once;
  }

  lemma {:induction false} FiledAfter(d: Dispatcher, d': Dispatcher, sent: Ring<SentMeta>, sent': Ring<SentMeta>,
                                      t: Trace<Cargo>, t': Trace<Cargo>, n: nat, top: int, m: map<int, seq<Handle>>,
                                      done: set<int>, h: Header, body: Cargo)
    requires Filed(d, sent, t, n, top, m, done)
    requires NextTrace(t, t', h, body) && h.packetType == MessagesType
    requires 0 <= top && t.sequenceU + 1 - top < 32768 - n && d.Valid()
    requires SetHandles(d, Wrap(t.sequenceU + 1), HandlesFor(body.messages)) == Ok(d')
    requires SentNext(sent, sent', t.sequenceU + 1, SentMeta(false, Wrap(t.receivedU)))
    requires sent'.Capacity() == |sent'.tags| == n && Tracks(sent', t'.sentU, t'.meta) && t'.meta.Keys == t'.out.Keys
    ensures Filed(d', sent', t', n, t.sequenceU + 1, m[t.sequenceU + 1 := HandlesFor(body.messages)], done)
  {
    hide HandlesRight, HandlesFor, Wrap, Tracks, SentNext;
    RecordRight(d.inPackets, sent, sent', t, t', n, top, m, done, h, body);
    assert t'.sentU == t.sequenceU + 1;
  }

  lemma {:induction false} MovedOnce(cs: seq<Channel>, cs': seq<Channel>, ms: seq<Message>)
    requires Moved(cs, cs', ms)
    ensures Once(ms)
  {
  }

  lemma {:induction false} ComposedNodeOk(x: Node, x': Node, n: nat, p: Composed, load: Load)
    requires NodeOk(x, n) && CanSend(x, n) && QueuesOnce(x.book, x.e.channels)
    requires ComposedTo(x, x', n, p, load)
    ensures NodeOk(x', n)
  {
    hide Local, WellKept, OutKept, LooseOnce, AllReadable, Readable, Tracks, HandlesFor, QueuesOnce, Done, HandlesRight,
      GoodChannels, MessagesKept, Wrap, SetHandles, Moved, Shrinks, NextHeader;
    OutBelow(x.e.packets, x.t, n);
    OutBelow(x'.e.packets, x'.t, n);
    LocalValid(x'.e.packets, x'.t, n);
    ShrunkReady(x.e, x'.e) by {
      SetHandlesValid(x.e.dispatcher, Wrap(x.t.sequenceU + 1), HandlesFor(p.messages));
    }
    MovedOnce(x.e.channels, x'.e.channels, p.messages);
    var sent := Sent(p.header, x.t.receivedU, Cargo(p.packet, p.messages));
    AddReadable(x.t.out, x.t.sequenceU + 1, sent);
    AddKeptPacket(x.book, x.t.out, x.t.sequenceU + 1, sent);
    SendLoose(x.e.channels, x'.e.channels, x.t.out, x.t.sequenceU + 1, sent);
    DoneSame(x.t, x'.t, p.header, Cargo(p.packet, p.messages));
    RecordedAt(x.e.dispatcher, x.e.packets.sent, x.t, n, x.recorded, x.records, Done(x.t));
    FiledAfter(x.e.dispatcher, x'.e.dispatcher, x.e.packets.sent, x'.e.packets.sent, x.t, x'.t, n, x.recorded,
        x.records,
               Done(x.t), p.header, Cargo(p.packet, p.messages));
  }

  lemma {:induction false} RecordedAt(d: Dispatcher, sent: Ring<SentMeta>, t: Trace<Cargo>, n: nat, top: int,
                                      m: map<int, seq<Handle>>, done: set<int>)
    requires Filed(d, sent, t, n, top, m, done)
    ensures 0 <= top && d.inPackets.Valid()
  {
  }

  lemma {:induction false} SetHandlesValid(d: Dispatcher, id: u16, hs: seq<Handle>)
    requires d.Valid() && SetHandles(d, id, hs).Ok?
    ensures SetHandles(d, id, hs).value.Valid()
  {
  }

  // -- both directions --

  /** A packet sent, whatever it carries, as the two packet layers see it. */
  lemma {:induction false} SentPair(x: Node, y: Node, n: nat, kind: PacketType, body: Cargo)
    requires Local(x.e.packets, x.t, n) && CanSend(x, n) && NextHeader(x.e.packets, kind).1.Ok?
    requires AckSound(x.t, y.t) && AckSound(y.t, x.t) && WatermarkSafe(x.t, y.t) && WatermarkSafe(y.t, x.t)
    requires Landed(y.t.accepted, x.t.out, y.rx)
    ensures var t' := AfterSend(x.t, NextHeader(x.e.packets, kind).1.value, body);
            && AckSound(t', y.t) && AckSound(y.t, t') && WatermarkSafe(t', y.t) && WatermarkSafe(y.t, t')
            && Landed(y.t.accepted, t'.out, y.rx)
  {
    hide NextHeader, Tracks, WatermarkSafe, AllGot, SentTrue;
    LocalValid(x.e.packets, x.t, n);
    var h := NextHeader(x.e.packets, kind).1.value;
    OutBelow(x.e.packets, x.t, n);
    SentTrueOf(x.e.packets, x.t, n);
    SendKeepsAcks(x.t, y.t, h, body);
    SendKeepsWatermark(x.e.packets, x.t, y.t, n, kind, body);
  }

  lemma {:induction false} SentTrueOf(s: PacketState, t: Trace<Cargo>, n: nat)
    requires Local(s, t, n)
    ensures SentTrue(t) && t.sentU <= t.sequenceU && 0 <= t.lowU <= t.receivedU
  {
  }

  lemma {:induction false} SendingAfter(d: Dispatcher, d': Dispatcher, cs: seq<Channel>, cs': seq<Channel>, b: Book,
                                        rx: Log, spent: set<Message>)
    requires Sending(d, cs, b, rx, spent) && Queueing(b, spent, cs')
    requires d'.fragMap == d.fragMap && d'.ackInbox == d.ackInbox
    requires |cs'| == |cs| && forall i | 0 <= i < |cs| :: cs'[i].Unreliable? == cs[i].Unreliable?
    ensures Sending(d', cs', b, rx, spent)
  {
    hide AcksOnce, AcksRight, Queueing, SlotRight, Spent;
    FragsValid(d.fragMap, b, rx);
    SpentGrows(d.ackInbox, d.fragMap, d.fragMap, b, cs, cs', spent, spent);
  }

  lemma {:induction false} ComposedKeepsPair(x: Node, y: Node, n: nat)
    requires PairOk(x, y, n) && CanSend(x, n) && ComposeOne(x.e).1.Ok?
    ensures PairOk(PackOne(x), y, n)
  {
    hide ComposeOne, Local, WellKept, OutKept, LooseOnce, AllReadable, Readable, Filed, HandlesFor, Done, GoodChannels,
      ReportsRight, Retained, QueuesOnce, Wrap, SetHandles, Moved, Shrinks, NextHeader, Receiving, Carried, AckSound,
      WatermarkSafe, Landed, Shrunk;
    var x', p, load := ComposeShape(x, n);
    ComposedNodeOk(x, x', n, p, load);
    SentPair(x, y, n, MessagesType, Cargo(p.packet, p.messages));
    ShrunkQueues(x.book, Carried(x.t.out, Done(x.t)), x.e.channels, x'.e.channels, load);
    FiledKeys(x.e.dispatcher, x.e.packets.sent, x.t, n, x.recorded, x.records, Done(x.t));
    DoneSame(x.t, x'.t, p.header, Cargo(p.packet, p.messages));
    SendingAfter(x.e.dispatcher, x'.e.dispatcher, x.e.channels, x'.e.channels, x.book, y.rx,
        Carried(x.t.out, Done(x.t)));
    SeenSame(x.e.dispatcher, x'.e.dispatcher, x.e.channels, x'.e.channels, y.book, x.rx, x.tops);
  }

  lemma {:induction false} FiledKeys(d: Dispatcher, sent: Ring<SentMeta>, t: Trace<Cargo>, n: nat, top: int,
                                     m: map<int, seq<Handle>>, done: set<int>)
    requires Filed(d, sent, t, n, top, m, done)
    ensures t.meta.Keys == t.out.Keys
  {
  }

  // -- no packet, or one without messages --

  /** Only a packet id was used up. */
  lemma {:induction false} HeaderLostKeepsPair(x: Node, y: Node, n: nat, kind: PacketType)
    requires PairOk(x, y, n)
    ensures PairOk(x.(e := x.e.(packets := NextHeader(x.e.packets, kind).0), t := AfterHeader(x.t)), y, n)
  {
    hide Local, WellKept, OutKept, LooseOnce, AllReadable, NextHeader, Sending, Receiving, AckSound, WatermarkSafe,
      Landed, HandlesRight, Tracks, GoodChannels;
    HeaderFailsKeeps(x.e.packets, x.t, n, kind);
    NextHeaderId(x.e.packets, kind);
    var t' := AfterHeader(x.t);
    assert Done(t') == Done(x.t);
    TraceSame(x, y, t', n);
  }

  lemma {:induction false} TraceSame(x: Node, y: Node, t': Trace<Cargo>, n: nat)
    requires t' == AfterHeader(x.t)
    ensures AckSound(x.t, y.t) ==> AckSound(t', y.t)
    ensures AckSound(y.t, x.t) ==> AckSound(y.t, t')
    ensures WatermarkSafe(x.t, y.t) ==> WatermarkSafe(t', y.t)
    ensures WatermarkSafe(y.t, x.t) ==> WatermarkSafe(y.t, t')
    ensures forall r, sent, top, m, done :: HandlesRight(r, sent, x.t, n, top, m, done) ==>
            HandlesRight(r, sent, t', n, top, m, done)
  {
    assert forall z :: Reported(x.t, y.t, z) <==> Reported(t', y.t, z);
    assert forall z :: Reported(y.t, x.t, z) <==> Reported(y.t, t', z);
  }

  /** Composing keeps everything. */
  lemma {:induction false} ComposeKeepsPair(x: Node, y: Node, n: nat)
    requires PairOk(x, y, n) && CanSend(x, n)
    ensures PairOk(PackOne(x), y, n)
  {
    hide Local, WellKept, OutKept, LooseOnce, AllReadable, NextHeader, DirectionOk, ComposeOne, Filed;
    if ComposeOne(x.e).1.Ok? {
      ComposedKeepsPair(x, y, n);
    } else {
      ComposeFails(x, n);
      HeaderLostKeepsPair(x, y, n, MessagesType);
    }
  }

  lemma {:induction false} SignalOutcome(x: Node, n: nat, p: Packet)
    requires NodeOk(x, n) && CanSend(x, n) && IsControl(p)
    ensures var (e, packet) := SendPacket(x.e, p);
            var next := NextHeader(x.e.packets, p.header.packetType);
            if packet.None? then e == x.e.(packets := next.0)
            else
              && next.1.Ok?
              && packet.value == PacketBytes(Headed(p, next.1.value))
              && RecordSent(next.0).Ok?
              && e == x.e.(packets := RecordSent(next.0).value, outbox := x.e.outbox + [packet.value])
  {
    hide Local, WellKept, Numbered, OutKept, LooseOnce, AllReadable, Filed, NextHeader, RecordSent, SetHandles,
      PacketBytes, Terminated;
    RecordsTaken(x, n, p.header.packetType, Load([], []));
  }

  lemma {:induction false} EmptyLoose(cs: seq<Channel>, out: map<int, Sent<Cargo>>, u: int, p: Sent<Cargo>)
    requires LooseOnce(cs, out) && u !in out && p.body.messages == []
    ensures LooseOnce(cs, out[u := p])
  {
    hide Queued;
    var out' := out[u := p];
    forall v, k | v in out' && 0 <= k < |out'[v].body.messages| && Loose(cs, out'[v].body.messages[k])
      ensures UniqueAt(out', v, k) && out'[v].body.messages[k] !in Queued(cs[out'[v].body.messages[k].channel])
    {
      assert UniqueAt(out, v, k);
    }
  }

  lemma {:induction false} FiledSignal(d: Dispatcher, sent: Ring<SentMeta>, sent': Ring<SentMeta>, t: Trace<Cargo>,
                                       t': Trace<Cargo>, n: nat, top: int, m: map<int, seq<Handle>>, done: set<int>,
                                       h: Header, body: Cargo)
    requires Filed(d, sent, t, n, top, m, done)
    requires NextTrace(t, t', h, body) && h.packetType != MessagesType && body.messages == []
    requires 0 <= top && t.sequenceU + 1 - top < 32768 - n
    requires SentNext(sent, sent', t.sequenceU + 1, SentMeta(false, Wrap(t.receivedU)))
    requires sent'.Capacity() == |sent'.tags| == n && Tracks(sent', t'.sentU, t'.meta) && t'.meta.Keys == t'.out.Keys
    ensures Filed(d, sent', t', n, top, m, done)
  {
    hide HandlesRight, Tracks, SentNext;
    TopBelow(d.inPackets, sent, t, n, top, m, done);
    RecordStays(d.inPackets, sent, sent', t, t', n, top, m, done, h, body);
  }

  lemma {:induction false} TopBelow(r: Ring<seq<Handle>>, sent: Ring<SentMeta>, t: Trace<Cargo>, n: nat, top: int,
                                    m: map<int, seq<Handle>>, done: set<int>)
    requires HandlesRight(r, sent, t, n, top, m, done)
    ensures top <= t.sentU
  {
  }

  lemma {:induction false} SignalNodeOk(x: Node, x': Node, n: nat, h: Header, packet: bytes)
    requires NodeOk(x, n) && CanSend(x, n)
    requires h.packetType != MessagesType && Local(x'.e.packets, x'.t, n)
    requires NextTrace(x.t, x'.t, h, Cargo(packet, [])) && Readable(Sent(h, x.t.receivedU, Cargo(packet, [])))
    requires x'.e == x.e.(packets := x'.e.packets, outbox := x'.e.outbox) && x' == x.(e := x'.e, t := x'.t)
    requires SentNext(x.e.packets.sent, x'.e.packets.sent, x.t.sequenceU + 1, SentMeta(false, Wrap(x.t.receivedU)))
    ensures NodeOk(x', n)
  {
    hide Local, WellKept, OutKept, LooseOnce, AllReadable, Readable, Sound, Done, Filed, GoodChannels, SentNext;
    RecordedAt(x.e.dispatcher, x.e.packets.sent, x.t, n, x.recorded, x.records, Done(x.t));
    OutBelow(x.e.packets, x.t, n);
    OutBelow(x'.e.packets, x'.t, n);
    SoundTop(x'.e.packets.sent, x'.t.sentU, x'.t.meta);
    LocalValid(x'.e.packets, x'.t, n);
    var sent := Sent(h, x.t.receivedU, Cargo(packet, []));
    AddReadable(x.t.out, x.t.sequenceU + 1, sent);
    AddKeptPacket(x.book, x.t.out, x.t.sequenceU + 1, sent);
    EmptyLoose(x.e.channels, x.t.out, x.t.sequenceU + 1, sent);
    DoneSame(x.t, x'.t, h, Cargo(packet, []));
    FiledSignal(x.e.dispatcher, x.e.packets.sent, x'.e.packets.sent, x.t, x'.t, n, x.recorded, x.records, Done(x.t),
        h, Cargo(packet, []));
  }

  /** A packet without messages keeps everything. */
  lemma {:induction false} SignalKeepsPair(x: Node, y: Node, n: nat, p: Packet)
    requires PairOk(x, y, n) && CanSend(x, n) && IsControl(p)
    ensures PairOk(Signal(x, p), y, n)
  {
    hide Local, WellKept, OutKept, LooseOnce, AllReadable, Readable, NextHeader, SendPacket, Filed, Sending, Receiving,
      AckSound, WatermarkSafe, Landed, PacketBytes, RecordSent, Done, GoodChannels, Carried, SentNext, Wrap, Terminated;
    SignalOutcome(x, n, p);
    var kind := p.header.packetType;
    var (e, packet) := SendPacket(x.e, p);
    if packet.None? {
      HeaderLostKeepsPair(x, y, n, kind);
    } else {
      var h, body := NextHeader(x.e.packets, kind).1.value, Cargo(packet.value, []);
      SendKeeps(x.e.packets, x.t, n, kind, body);
      HeaderTerminated(x.e.packets, x.t, n, kind);
      ControlReadable(p, h, x.t.receivedU);
      OutBelow(x.e.packets, x.t, n);
      NextHeaderId(x.e.packets, kind);
      SentInto(x.e.packets, x.t, n, kind);
      SignalNodeOk(x, Signal(x, p), n, h, packet.value);
      SentPair(x, y, n, kind, body);
      DoneSame(x.t, Signal(x, p).t, h, body);
    }
  }

  // -- time passes --

  ghost function PassTime(x: Node, dt: real): Node {
    x.(e := x.e.(channels := TickAll(x.e.channels, dt)))
  }

  lemma {:induction false} TickSame(c: Channel, dt: real)
    ensures var c' := Channels.Tick(c, dt);
            && Queued(c') == Queued(c) && c'.seen == c.seen && c'.id == c.id && c'.Unreliable? == c.Unreliable?
            && (GoodChannel(c) ==> GoodChannel(c'))
  {
  }

  lemma {:induction false} TickQueues(b: Book, spent: set<Message>, out: map<int, Sent<Cargo>>, cs: seq<Channel>,
                                      dt: real)
    ensures Queueing(b, spent, cs) ==> Queueing(b, spent, TickAll(cs, dt))
    ensures Numbered(cs) ==> Numbered(TickAll(cs, dt))
    ensures GoodChannels(cs) ==> GoodChannels(TickAll(cs, dt))
    ensures LooseOnce(cs, out) ==> LooseOnce(TickAll(cs, dt), out)
    ensures |TickAll(cs, dt)| == |cs|
    ensures forall i | 0 <= i < |cs| ::
            TickAll(cs, dt)[i].Unreliable? == cs[i].Unreliable? && TickAll(cs, dt)[i].seen == cs[i].seen
  {
    hide Queued, GoodChannel, Once, UniqueAt;
    var cs' := TickAll(cs, dt);
    forall i | 0 <= i < |cs|
      ensures Queued(cs'[i]) == Queued(cs[i]) && cs'[i].seen == cs[i].seen && cs'[i].id == cs[i].id
      ensures cs'[i].Unreliable? == cs[i].Unreliable? && (GoodChannel(cs[i]) ==> GoodChannel(cs'[i]))
    {
      TickSame(cs[i], dt);
    }
    if Queueing(b, spent, cs) {
      forall i | 0 <= i < |cs'|
        ensures QueuedOnce(b, cs'[i])
      {
        assert QueuedOnce(b, cs[i]);
      }
      forall id | id in b.table
        ensures RetainedOne(b, spent, cs', id)
      {
        assert RetainedOne(b, spent, cs, id);
      }
    }
    if LooseOnce(cs, out) {
      forall u, k | u in out && 0 <= k < |out[u].body.messages| && Loose(cs', out[u].body.messages[k])
        ensures UniqueAt(out, u, k) && out[u].body.messages[k] !in Queued(cs'[out[u].body.messages[k].channel])
      {
        assert Loose(cs, out[u].body.messages[k]);
      }
    }
  }

  /** Time keeps everything. */
  lemma {:induction false} TickKeepsPair(x: Node, y: Node, n: nat, dt: real)
    requires PairOk(x, y, n)
    ensures PairOk(PassTime(x, dt), y, n)
  {
    hide Local, WellKept, OutKept, LooseOnce, AllReadable, Filed, Receiving, AckSound, WatermarkSafe, Landed, Done,
      GoodChannels, Carried, ReportsRight, QueuesOnce, Retained, TickAll;
    TickQueues(x.book, Carried(x.t.out, Done(x.t)), x.t.out, x.e.channels, dt);
    SendingAfter(x.e.dispatcher, x.e.dispatcher, x.e.channels, TickAll(x.e.channels, dt), x.book, y.rx,
        Carried(x.t.out, Done(x.t)));
    SeenSame(x.e.dispatcher, x.e.dispatcher, x.e.channels, TickAll(x.e.channels, dt), y.book, x.rx, x.tops);
  }
}
