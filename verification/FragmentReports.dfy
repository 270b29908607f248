/** When a fragmented message is reported acked: exactly when all its fragments have been acked, once,
    as long as the fragment map keeps its entry. */
module FragmentReports {
  import opened Words
  import opened SequenceBuffers
  import opened SequenceWindow
  import opened AckHeaders
  import opened Messages
  import opened Packets
  import opened Channels
  import opened Reassembler
  import opened Dispatchers
  import opened PacketLayer
  import opened PacketInvariants
  import opened Endpoints
  import opened MessageBooks
  import opened Deliveries
  import opened Acknowledging
  import opened Transmitting
  import opened Nodes
  import opened Posting
  import opened Departing
  import opened Arriving
  import opened Network
  import opened AckCounts

  /** Fragment `i` of what was posted under `p` was in an acked packet. */
  ghost predicate PartSpent(b: Book, spent: set<Message>, p: u16, i: int) {
    0 <= p + i < 65536 && p + i in b.table && b.table[p + i] in spent
  }

  ghost predicate StatusExact(status: FragAckStatus, b: Book, spent: set<Message>, p: u16, times: nat)
    requires p in b.posted && Sizeable(b.posted[p])
  {
    var n := IdsFor(b.posted[p].payload);
    match status
    case Unknown => false
    case Complete => times == 1 && forall i | 0 <= i < n :: PartSpent(b, spent, p, i)
    case Awaiting(remaining) =>
      && times == 0 && remaining != [] && (forall x | x in remaining :: p <= x < p + n)
      && forall i | 0 <= i < n :: p + i in remaining <==> !PartSpent(b, spent, p, i)
  }

  /** The entry of `p`, while it is kept, says which fragments are still to be acked. */
  ghost predicate EntryExact(b: Book, inbox: map<u8, seq<u16>>, r: Ring<FragAckStatus>, spent: set<Message>, p: u16)
    requires r.Valid()
  {
    p in b.posted && Sizeable(b.posted[p]) && r.Exists(p) ==>
      StatusExact(r.entries[r.Index(p)], b, spent, p, Times(inbox, b.posted[p].channel, p))
  }

  ghost predicate EntriesExact(b: Book, inbox: map<u8, seq<u16>>, r: Ring<FragAckStatus>, spent: set<Message>)
    requires r.Valid()
  {
    forall p: u16 :: EntryExact(b, inbox, r, spent, p)
  }

  // -- one acked message --

  lemma {:induction false} PartOfParent(b: Book, p: u16, i: int)
    requires WellKept(b) && p in b.posted && Sizeable(b.posted[p]) && 0 <= i < IdsFor(b.posted[p].payload)
    ensures p + i < 65536 && p + i in b.table
    ensures b.table[p + i].fragment.Some? && ParentOf(b.table[p + i]) == p && b.table[p + i].id == p + i
  {
    hide IsOutbound, Fits, NumFragments;
    assert PostEntered(b, p);
    assert PartEntered(b, p, i, NumFragments(|b.posted[p].payload|));
    assert Entry(b, p + i);
  }

  /** A message that is no part of `p` changes nothing for `p`. */
  lemma {:induction false} OtherPart(status: FragAckStatus, b: Book, spent: set<Message>, p: u16, m: Message,
                                     times: nat)
    requires WellKept(b) && p in b.posted && Sizeable(b.posted[p]) && InTable(b, m, m.channel)
    requires m.fragment.None? || ParentOf(m) != p
    requires StatusExact(status, b, spent, p, times)
    ensures StatusExact(status, b, spent + {m}, p, times)
  {
    hide WellKept, IdsFor;
    forall i | 0 <= i < IdsFor(b.posted[p].payload)
      ensures PartSpent(b, spent + {m}, p, i) <==> PartSpent(b, spent, p, i)
    {
      PartOfParent(b, p, i);
    }
  }

  /** Its own part is struck off; with the last one it is complete. */
  lemma {:induction false} OwnPart(remaining: seq<u16>, b: Book, spent: set<Message>, p: u16, m: Message)
    requires WellKept(b) && p in b.posted && Sizeable(b.posted[p]) && InTable(b, m, m.channel)
    requires m.fragment.Some? && ParentOf(m) == p
    requires StatusExact(Awaiting(remaining), b, spent, p, 0)
    ensures var left := Without(remaining, m.id);
            if left == [] then StatusExact(FragAckStatus.Complete, b, spent + {m}, p, 1)
            else StatusExact(Awaiting(left), b, spent + {m}, p, 0)
  {
    hide WellKept, IdsFor, Without;
    var left := Without(remaining, m.id);
    forall i | 0 <= i < IdsFor(b.posted[p].payload)
      ensures p + i in left <==> !PartSpent(b, spent + {m}, p, i)
    {
      PartOfParent(b, p, i);
      WithoutExact(remaining, m.id, p + i);
      assert p + i in remaining <==> !PartSpent(b, spent, p, i);
      assert b.table[p + i] == m <==> p + i == m.id;
    }
    forall x | x in left
      ensures x in remaining
    {
      WithoutExact(remaining, m.id, x);
    }
  }

  lemma {:induction false} CompleteStays(b: Book, spent: set<Message>, p: u16, m: Message, times: nat)
    requires p in b.posted && Sizeable(b.posted[p]) && StatusExact(FragAckStatus.Complete, b, spent, p, times)
    ensures StatusExact(FragAckStatus.Complete, b, spent + {m}, p, times)
  {
    forall i | 0 <= i < IdsFor(b.posted[p].payload)
      ensures PartSpent(b, spent + {m}, p, i)
    {
      assert PartSpent(b, spent, p, i);
    }
  }

  lemma {:induction false} FragmentExact(inbox: map<u8, seq<u16>>, r: Ring<FragAckStatus>, b: Book, rx: Log,
                                         spent: set<Message>, m: Message, p: u16)
    requires WellKept(b) && InTable(b, m, m.channel) && m.fragment.Some? && FragsRight(r, b, rx)
    requires r.Valid() && EntryExact(b, inbox, r, spent, p)
    ensures var (r', whole) := AckFragment(r, ParentOf(m), m.id);
            r'.Valid() ==>
              EntryExact(b, if whole then Push(inbox, m.channel, ParentOf(m)) else inbox, r', spent + {m}, p)
  {
    hide WellKept, StatusExact, Times, Push, FragsRight, Without, IsOutbound, Fits, InboundOf, SlotRight, AckFragment;
    var q := ParentOf(m);
    var (r', whole) := AckFragment(r, q, m.id);
    AckFragmentSlot(r, b, rx, q, m.id);
    EntryParent(b, m, m.channel);
    if p in b.posted && Sizeable(b.posted[p]) && r'.Valid() && r'.Exists(p) {
      PushTimes(inbox, m.channel, q, b.posted[p].channel, p);
      var i := r.Index(p);
      if p != q {
        OtherPart(r.entries[i], b, spent, p, m, Times(inbox, b.posted[p].channel, p));
      } else if r.entries[i].Awaiting? {
        AwaitingNone(r.entries[i].remaining, b, spent, p, Times(inbox, b.posted[p].channel, p));
        OwnPart(r.entries[i].remaining, b, spent, p, m);
      } else {
        KnownStatus(r.entries[i], b, spent, p, Times(inbox, b.posted[p].channel, p));
        CompleteStays(b, spent, p, m, Times(inbox, b.posted[p].channel, p));
      }
    }
  }

  lemma {:induction false} AwaitingNone(remaining: seq<u16>, b: Book, spent: set<Message>, p: u16, times: nat)
    requires p in b.posted && Sizeable(b.posted[p]) && StatusExact(Awaiting(remaining), b, spent, p, times)
    ensures times == 0
  {
  }

  lemma {:induction false} KnownStatus(status: FragAckStatus, b: Book, spent: set<Message>, p: u16, times: nat)
    requires p in b.posted && Sizeable(b.posted[p]) && StatusExact(status, b, spent, p, times)
    ensures !status.Unknown?
  {
  }

  lemma {:induction false} HandleExact(d: Dispatcher, cs: seq<Channel>, b: Book, rx: Log, spent: set<Message>,
                                       m: Message)
    requires WellKept(b) && d.Valid() && InTable(b, m, m.channel) && Got(rx, m.channel, m.id)
    requires FragsRight(d.fragMap, b, rx) && d.fragMap.Valid() && EntriesExact(b, d.ackInbox, d.fragMap, spent)
    ensures var d' := AckHandle(d, cs, HandleOf(m, m.channel)).0;
            && FragsRight(d'.fragMap, b, rx) && d'.fragMap.Valid()
            && EntriesExact(b, d'.ackInbox, d'.fragMap, spent + {m})
  {
    hide WellKept, Got, StatusExact, Times, Push, FragsRight, IsOutbound, Fits, InboundOf, AckFragment, ChannelAcked,
      EntryExact, Whole;
    EntryParent(b, m, m.channel);
    HandleParent(m);
    var d' := AckHandle(d, cs, HandleOf(m, m.channel)).0;
    if m.fragment.Some? {
      AckFragmentRight(d.fragMap, b, rx, ParentOf(m), m.id);
      FragsValid(d'.fragMap, b, rx);
    }
    forall p: u16
      ensures EntryExact(b, d'.ackInbox, d'.fragMap, spent + {m}, p)
    {
      assert EntryExact(b, d.ackInbox, d.fragMap, spent, p);
      if m.fragment.Some? {
        FragmentExact(d.ackInbox, d.fragMap, b, rx, spent, m, p);
      } else {
        WholeExact(d.ackInbox, d.fragMap, b, spent, m, p);
      }
    }
  }

  lemma {:induction false} WholeExact(inbox: map<u8, seq<u16>>, r: Ring<FragAckStatus>, b: Book, spent: set<Message>,
                                      m: Message, p: u16)
    requires WellKept(b) && InTable(b, m, m.channel) && m.fragment.None? && r.Valid()
    requires EntryExact(b, inbox, r, spent, p)
    ensures EntryExact(b, Push(inbox, m.channel, m.id), r, spent + {m}, p)
  {
    hide WellKept, StatusExact, Times, Push, IsOutbound, Fits, InboundOf;
    EntryParent(b, m, m.channel);
    if p in b.posted && Sizeable(b.posted[p]) && r.Exists(p) {
      PushTimes(inbox, m.channel, m.id, b.posted[p].channel, p);
      OtherPart(r.entries[r.Index(p)], b, spent, p, m, Times(inbox, b.posted[p].channel, p));
    }
  }

  // -- one header --

  lemma {:induction false} HandlesExact(d: Dispatcher, cs: seq<Channel>, b: Book, rx: Log, spent: set<Message>,
                                        ms: seq<Message>)
    requires WellKept(b) && d.Valid() && MessagesKept(b, ms) && AllGot(rx, ms)
    requires FragsRight(d.fragMap, b, rx) && d.fragMap.Valid() && EntriesExact(b, d.ackInbox, d.fragMap, spent)
    ensures var d' := AckHandles(d, cs, HandlesFor(ms)).0;
            d'.fragMap.Valid() && EntriesExact(b, d'.ackInbox, d'.fragMap, Spend(spent, ms))
    decreases |ms|
  {
    hide WellKept, Got, FragsRight, EntriesExact, AckHandle, InTable;
    if ms == [] {
      assert Spend(spent, ms) == spent;
    } else {
      var m, rest := ms[0], ms[1..];
      assert InTable(b, m, m.channel) && Got(rx, m.channel, m.id);
      HandleExact(d, cs, b, rx, spent, m);
      AckHandleValid(d, cs, HandleOf(m, m.channel));
      var (d1, cs1) := AckHandle(d, cs, HandleOf(m, m.channel));
      HandlesExact(d1, cs1, b, rx, spent + {m}, rest);
      assert Spend(spent + {m}, rest) == Spend(spent, ms);
      assert HandlesFor(ms)[1..] == HandlesFor(rest) && HandlesFor(ms)[0] == HandleOf(m, m.channel);
    }
  }

  lemma {:induction false} PacketExact(d: Dispatcher, cs: seq<Channel>, b: Book, rx: Log, sent: Ring<SentMeta>,
                                       t: Trace<Cargo>, n: nat, top: int, m: map<int, seq<Handle>>, done: set<int>,
                                       ids: seq<u16>, xs: seq<int>)
    requires AcksReady(d, cs, b, rx, sent, t, n, top, m, done, ids, xs) && ids != []
    requires d.fragMap.Valid() && EntriesExact(b, d.ackInbox, d.fragMap, Carried(t.out, done))
    ensures d.Valid()
    ensures var d' := AckPacket(d, cs, ids[0]).0;
            d'.fragMap.Valid() && EntriesExact(b, d'.ackInbox, d'.fragMap, Carried(t.out, done + {xs[0]}))
  {
    hide WellKept, Wrap, Filed, LooseOnce, EntriesExact, Carried, AckHandles, HandlesFor, Held, MessagesKept, Once,
      FragsRight, AcksRight, AcksOnce, Spent, Queueing, Spend, AllGot;
    var x := xs[0];
    var ms := t.out[x].body.messages;
    assert MessagesKept(b, ms);
    assert Ackable(sent, t, rx, xs[0]);
    FoundRight(d, sent, t, n, top, m, done, x);
    CarriedMore(t.out, done, x);
    var d0 := d.(inPackets := d.inPackets.Remove(Wrap(x), []));
    if t.out[x].header.packetType == MessagesType {
      HandlesExact(d0, cs, b, rx, Carried(t.out, done), ms);
    } else {
      NoCargo(d, sent, t, n, top, m, done, x);
      SpendNothing(Carried(t.out, done));
    }
  }

  lemma {:induction false} SpendNothing(spent: set<Message>)
    ensures Spend(spent, []) == spent
  {
  }

  lemma {:induction false} AllExact(d: Dispatcher, cs: seq<Channel>, b: Book, rx: Log, sent: Ring<SentMeta>,
                                    t: Trace<Cargo>, n: nat, top: int, m: map<int, seq<Handle>>, done: set<int>,
                                    ids: seq<u16>, xs: seq<int>)
    requires AcksReady(d, cs, b, rx, sent, t, n, top, m, done, ids, xs)
    requires d.fragMap.Valid() && EntriesExact(b, d.ackInbox, d.fragMap, Carried(t.out, done))
    ensures d.Valid()
    ensures var d' := AckAll(d, cs, ids).0;
            d'.fragMap.Valid() && EntriesExact(b, d'.ackInbox, d'.fragMap, Carried(t.out, done + Upto(xs)))
    decreases |ids|
  {
    hide WellKept, Filed, LooseOnce, OutKept, Sending, EntriesExact, AckPacket, Ackable, Wrap, Carried, OnlyReliable;
    if ids == [] {
      assert done + Upto(xs) == done;
    } else {
      PacketExact(d, cs, b, rx, sent, t, n, top, m, done, ids, xs);
      AcksReadyNext(d, cs, b, rx, sent, t, n, top, m, done, ids, xs);
      var (d1, cs1) := AckPacket(d, cs, ids[0]);
      AllExact(d1, cs1, b, rx, sent, t, n, top, m, done + {xs[0]}, ids[1..], xs[1..]);
    }
  }

  // -- a new entry --

  lemma {:induction false} OldEntryStays(b: Book, rx: Log, status: FragAckStatus, spent: set<Message>, channel: u8,
                                         payload: bytes, p: u16, times: nat)
    requires WellKept(b) && Postable(b, channel, payload) && p in b.posted && Sizeable(b.posted[p])
    requires StatusExact(status, b, spent, p, times)
    ensures var b' := AfterPost(b, channel, payload);
            p in b'.posted && b'.posted[p] == b.posted[p] && StatusExact(status, b', spent, p, times)
  {
    hide WellKept, AfterPost, IdsFor, NewOutbound, Part;
    var b' := AfterPost(b, channel, payload);
    PostOther(b, rx, channel, payload, p);
    forall i | 0 <= i < IdsFor(b.posted[p].payload)
      ensures PartSpent(b', spent, p, i) <==> PartSpent(b, spent, p, i)
    {
      PartOfParent(b, p, i);
      PostedAt(b, channel, payload, p + i);
    }
  }

  lemma {:induction false} NewEntryExact(b: Book, spent: set<Message>, channel: u8, payload: bytes)
    requires WellKept(b) && Postable(b, channel, payload) && FRAGMENT_SIZE < |payload|
    requires forall m | m in spent :: m.id < b.next
    ensures var b' := AfterPost(b, channel, payload);
            && b.next in b'.posted && Sizeable(b'.posted[b.next])
            && StatusExact(Awaiting(FragmentIds(b.next, NumFragments(|payload|))), b', spent, b.next, 0)
  {
    hide WellKept, AfterPost, NumFragments, NewOutbound, Part;
    var b' := AfterPost(b, channel, payload);
    PostBook(b, channel, payload);
    PostKeeps(b, channel, payload);
    FragmentIdsIn(b.next, NumFragments(|payload|));
    assert b.next in FragmentIds(b.next, NumFragments(|payload|));
    forall i | 0 <= i < NumFragments(|payload|)
      ensures !PartSpent(b', spent, b.next, i)
    {
      PartOfParent(b', b.next, i);
    }
  }

  /** What a posting does to the fragment map. */
  ghost predicate MapPosted(r: Ring<FragAckStatus>, r': Ring<FragAckStatus>, b: Book, payload: bytes) {
    && r.Valid() && r'.Valid() && r'.Capacity() == r.Capacity()
    && (forall i | 0 <= i < |r'.tags| && r'.tags[i] != EMPTY ::
          if r'.tags[i] == b.next then
            FRAGMENT_SIZE < |payload| <= MAX_PAYLOAD &&
            r'.entries[i] == Awaiting(FragmentIds(b.next, NumFragments(|payload|)))
          else r'.tags[i] == r.tags[i] && r'.entries[i] == r.entries[i])
  }

  lemma {:induction false} PostExact(inbox: map<u8, seq<u16>>, r: Ring<FragAckStatus>, r': Ring<FragAckStatus>, b: Book,
                                     rx: Log, out: map<int, Sent<Cargo>>, done: set<int>, channel: u8, payload: bytes)
    requires WellKept(b) && Postable(b, channel, payload) && OutKept(b, out) && AcksRight(inbox, b, rx)
    requires MapPosted(r, r', b, payload)
    requires EntriesExact(b, inbox, r, Carried(out, done))
    ensures EntriesExact(AfterPost(b, channel, payload), inbox, r', Carried(out, done))
  {
    hide WellKept, AfterPost, OutKept, AcksRight, Carried, StatusExact, Times, NumFragments, FragmentIds;
    var b', spent := AfterPost(b, channel, payload), Carried(out, done);
    CarriedOld(b, out, done);
    PostBook(b, channel, payload);
    PostKeeps(b, channel, payload);
    forall p: u16
      ensures EntryExact(b', inbox, r', spent, p)
    {
      if p in b'.posted && Sizeable(b'.posted[p]) && r'.Exists(p) {
        if p == b.next {
          NewEntryExact(b, spent, channel, payload);
          PartOfParent(b', p, 0);
          FreshUncounted(b, rx, inbox, out, done, b'.table[p]);
        } else {
          assert EntryExact(b, inbox, r, spent, p);
          OldEntryStays(b, rx, r.entries[r.Index(p)], spent, channel, payload, p,
            Times(inbox, b.posted[p].channel, p));
        }
      }
    }
  }

  lemma {:induction false} MapAfterPost(d: Dispatcher, c: Channel, b: Book, rx: Log, payload: bytes)
    requires WellKept(b) && Postable(b, c.id, payload) && d.Valid() && d.nextMessageId == b.next
    requires FragsRight(d.fragMap, b, rx)
    ensures MapPosted(d.fragMap, AddMessage(d, c, payload).0.fragMap, b, payload)
    ensures AddMessage(d, c, payload).0.ackInbox == d.ackInbox
  {
    hide WellKept, AfterPost, AddMessage, NumFragments, FragmentIds, StatusRight, Rewritable;
    PostDispatcher(d, c, b, payload);
    var r, r' := d.fragMap, AddMessage(d, c, payload).0.fragMap;
    forall i | 0 <= i < |r.tags|
      ensures r.tags[i] == EMPTY || r.tags[i] < b.next
    {
      assert SlotRight(r, b, rx, i);
    }
    if r' != r {
      r.InsertSlots(b.next, Awaiting(FragmentIds(b.next, NumFragments(|payload|))), Unknown);
      assert r'.Index(b.next) == r.Index(b.next);
    }
  }

  // -- every step --

  ghost predicate NodeExact(x: Node) {
    x.e.dispatcher.fragMap.Valid()
    && EntriesExact(x.book, x.e.dispatcher.ackInbox, x.e.dispatcher.fragMap, Carried(x.t.out, Done(x.t)))
  }

  lemma {:induction false} PostNodeExact(x: Node, y: Node, n: nat, channel: u8, payload: bytes)
    requires PairOk(x, y, n) && CanPost(x, channel, payload) && NodeExact(x)
    ensures NodeExact(Post(x, channel, payload))
  {
    hide AfterPost, WellKept, Local, OutKept, LooseOnce, Filed, AllReadable, AddMessage, QueuesOnce, Done, FragsRight,
      AcksOnce, Spent, Receiving, Retained, Carried, AckSound, WatermarkSafe, Landed, QueuedOnce, AcksRight,
      EntriesExact;
    if Takes(x.e, channel, payload) {
      PostNodeOk(x, n, channel, payload);
      var c := x.e.channels[channel];
      MapAfterPost(x.e.dispatcher, c, x.book, y.rx, payload);
      PostExact(x.e.dispatcher.ackInbox, x.e.dispatcher.fragMap, Post(x, channel, payload).e.dispatcher.fragMap, x.book,
        y.rx, x.t.out, Done(x.t), channel, payload);
    }
  }

  /** A packet sent changes nothing here. */
  lemma {:induction false} SentExact(x: Node, x': Node, h: Header, body: Cargo)
    requires NodeExact(x) && NextTrace(x.t, x'.t, h, body) && x.t.meta.Keys == x.t.out.Keys
    requires x'.book == x.book && x'.e.dispatcher.ackInbox == x.e.dispatcher.ackInbox
    requires x'.e.dispatcher.fragMap == x.e.dispatcher.fragMap
    ensures NodeExact(x')
  {
    hide EntriesExact;
    DoneSame(x.t, x'.t, h, body);
  }

  lemma {:induction false} PackExact(x: Node, y: Node, n: nat)
    requires PairOk(x, y, n) && CanSend(x, n) && NodeExact(x)
    ensures NodeExact(PackOne(x))
  {
    hide ComposeOne, Local, WellKept, OutKept, LooseOnce, AllReadable, Readable, Filed, HandlesFor, GoodChannels,
      ReportsRight, Retained, QueuesOnce, Wrap, SetHandles, Moved, Shrinks, NextHeader, Receiving, Carried, AckSound,
      WatermarkSafe, Landed, Shrunk, EntriesExact, Done;
    if ComposeOne(x.e).1.Ok? {
      var x', p, load := ComposeShape(x, n);
      FiledKeys(x.e.dispatcher, x.e.packets.sent, x.t, n, x.recorded, x.records, Done(x.t));
      SentExact(x, x', p.header, Cargo(p.packet, p.messages));
    } else {
      ComposeFails(x, n);
      assert Done(PackOne(x).t) == Done(x.t) by {
        SameMetaDone(x.t, PackOne(x).t);
      }
    }
  }

  lemma {:induction false} SameMetaDone(t: Trace<Cargo>, t': Trace<Cargo>)
    requires t'.meta == t.meta
    ensures Done(t') == Done(t)
  {
  }

  lemma {:induction false} SignalExact(x: Node, y: Node, n: nat, p: Packet)
    requires PairOk(x, y, n) && CanSend(x, n) && IsControl(p) && NodeExact(x)
    ensures NodeExact(Signal(x, p))
  {
    hide Local, WellKept, OutKept, LooseOnce, AllReadable, NextHeader, SendPacket, Filed, DirectionOk, PacketBytes,
      RecordSent, GoodChannels, EntriesExact, Terminated, Done, Carried;
    SignalOutcome(x, n, p);
    var (e, packet) := SendPacket(x.e, p);
    if packet.Some? {
      OutBelow(x.e.packets, x.t, n);
      SentExact(x, Signal(x, p), NextHeader(x.e.packets, p.header.packetType).1.value, Cargo(packet.value, []));
    } else {
      SameMetaDone(x.t, Signal(x, p).t);
    }
  }

  lemma {:induction false} DeliverExact(x: Node, y: Node, n: nat, u: int)
    requires PairOk(x, y, n) && CanArrive(x, y, n, u) && NodeExact(x)
    ensures NodeExact(Deliver(x, y.t.out[u], u))
  {
    hide Local, WellKept, OutKept, LooseOnce, Readable, Filed, Receiving, Landed, Done, GoodChannels, Sending, AckSound,
      WatermarkSafe, AcceptPacket, ProcessAcks, AfterAcks, AcksOf, AckAll, ReceiveAll, Honest, Timely, Windowed,
      EntriesExact, AcksReady, InboundAll, AllOutbound, NoteAll, NewestAll, AcksTaken, ReceiveDatagram, Numbered,
      Carried;
    var p := y.t.out[u];
    assert Readable(p) by {
      ArrivalReadable(x, y, n, u);
    }
    if AcceptPacket(x.e.packets, p.header.id).Ok? {
      var s1, t1 := AcceptTakes(x, y, n, u);
      LocalValid(s1, t1, n);
      var s2, t2, ids, xs := AcksTake(s1, t1, y.t, n, AcksOf(p.header));
      var _, d1, cs1, x' := TakeShape(x, y, n, u, s1, ids);
      AcksReadyAt(x, y, n, u, s1, t1, s2, t2, ids, xs);
      AllExact(x.e.dispatcher, x.e.channels, x.book, y.rx, s2.sent, t2, n, x.recorded, x.records, Done(x.t), ids, xs);
      ReceiveReports(d1, cs1, InboundAll(p.body.messages));
    } else {
      ReceiveShape(x.e, p);
    }
  }

  lemma {:induction false} StepExact(w: World, n: nat, side: Side, step: Step)
    requires PairOk(w.At(side), w.Peer(side), n) && Possible(w, n, step) && NodeExact(w.At(side))
    ensures NodeExact(Next(w, n, step).At(side))
  {
    hide PairOk, CanPost, CanSend, CanArrive, Post, PackOne, Signal, Deliver, Ready, Sends, EntriesExact, TickAll,
      IsControl, Carried, Done;
    var x, y := w.At(side), w.Peer(side);
    if step.at == side {
      match step {
        case Send(_, channel, payload) => PostNodeExact(x, y, n, channel, payload);
        case Time(_, dt) =>
        case Pack(_) => PackExact(x, y, n);
        case Control(_, packet) => SignalExact(x, y, n, packet);
        case Arrive(_, u) => DeliverExact(x, y, n, u);
      }
    }
  }

  lemma {:induction false} RunExact(w: World, n: nat, side: Side, steps: seq<Step>, w': World)
    requires PairOk(w.left, w.right, n) && Reaches(w, n, steps, w') && NodeExact(w.At(side))
    ensures NodeExact(w'.At(side))
    decreases |steps|
  {
    hide PairOk, Possible, Next, NodeExact;
    if steps != [] {
      PairSwap(w.left, w.right, n);
      StepExact(w, n, side, steps[0]);
      StepKeeps(w, n, steps[0]);
      RunExact(Next(w, n, steps[0]), n, side, steps[1..], w');
    }
  }

  lemma {:induction false} StartExact(s: Setting, side: Side)
    requires s.Valid()
    ensures NodeExact(Start(s).At(side))
  {
    hide NewRing;
    NewRingIs(s.fragMapLeft, Unknown);
    NewRingIs(s.fragMapRight, Unknown);
  }

  /** Exactly when a fragmented message is reported acked, in every run: while the fragment map keeps
      its entry, it has been reported once if every one of its fragments was in an acked packet, and
      not at all otherwise. */
  lemma {:induction false} ReportedWhenWhole(s: Setting, steps: seq<Step>, w: World, side: Side, p: u16)
    requires Reachable(s, steps, w) && p in w.At(side).book.posted && w.At(side).book.posted[p].Big()
    ensures var x := w.At(side);
            && x.e.dispatcher.fragMap.Valid() && |x.book.posted[p].payload| <= MAX_PAYLOAD
            && (x.e.dispatcher.fragMap.Exists(p) ==>
                  var spent := Carried(x.t.out, Done(x.t));
                  Times(x.e.dispatcher.ackInbox, x.book.posted[p].channel, p) ==
                    if forall i | 0 <= i < IdsFor(x.book.posted[p].payload) :: PartSpent(x.book, spent, p, i) then 1
                    else 0)
  {
    hide NodeOk, DirectionOk, Reaches, NewEndpoint, Times, PartSpent, Carried, Done;
    NewPairOk(s.left, s.right, s.n, s.fragMapLeft, s.fragMapRight, s.time, s.salt);
    StartExact(s, side);
    RunExact(Start(s), s.n, side, steps, w);
    AlwaysPaired(s, steps, w, side);
    var x := w.At(side);
    PostedSize(x, s.n, p);
    assert EntryExact(x.book, x.e.dispatcher.ackInbox, x.e.dispatcher.fragMap, Carried(x.t.out, Done(x.t)), p);
    if x.e.dispatcher.fragMap.Exists(p) {
      StatusSays(x.e.dispatcher.fragMap.entries[x.e.dispatcher.fragMap.Index(p)], x.book, Carried(x.t.out, Done(x.t)),
          p,
        Times(x.e.dispatcher.ackInbox, x.book.posted[p].channel, p));
    }
  }

  lemma {:induction false} PostedSize(x: Node, n: nat, p: u16)
    requires NodeOk(x, n) && p in x.book.posted
    ensures |x.book.posted[p].payload| <= MAX_PAYLOAD
  {
    hide Local, Numbered, OutKept, LooseOnce, AllReadable, Filed;
    assert PostEntered(x.book, p);
  }

  lemma {:induction false} StatusSays(status: FragAckStatus, b: Book, spent: set<Message>, p: u16, times: nat)
    requires p in b.posted && Sizeable(b.posted[p]) && StatusExact(status, b, spent, p, times)
    ensures times == if forall i | 0 <= i < IdsFor(b.posted[p].payload) :: PartSpent(b, spent, p, i) then 1 else 0
  {
    if status.Awaiting? {
      var x := status.remaining[0];
      assert x in status.remaining;
      assert !PartSpent(b, spent, p, x - p) by {
        assert p + (x - p) in status.remaining;
      }
    }
  }
}
