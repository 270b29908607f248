/** The application sends a message. */
module Posting {
  import opened Words
  import opened SequenceBuffers
  import opened AckHeaders
  import opened Messages
  import opened Channels
  import opened Reassembler
  import opened Dispatchers
  import opened PacketLayer
  import opened PacketInvariants
  import opened Endpoints
  import opened MessageBooks
  import opened Deliveries
  import opened Acknowledging
  import opened Nodes

  /** The source takes the message: it refuses payloads that are too big, unknown channels, and
      everything while too many packets are unacked. */
  predicate Takes(e: Endpoint, channel: u8, payload: bytes) {
    && |payload| <= e.config.maxMessageSize
    && SentUnacked(e.packets) < MAX_UNACKED_PACKETS
    && IndexOfChannel(e.channels, channel) < |e.channels|
  }

  ghost predicate CanPost(x: Node, channel: u8, payload: bytes) {
    Ready(x.e) && (Takes(x.e, channel, payload) ==> Postable(x.book, channel, payload))
  }

  ghost function Post(x: Node, channel: u8, payload: bytes): Node
    requires CanPost(x, channel, payload)
  {
    var e := SendMessage(x.e, channel, payload).0;
    if Takes(x.e, channel, payload) then x.(e := e, book := AfterPost(x.book, channel, payload)) else x.(e := e)
  }

  /** What posting does to the dispatcher. */
  lemma {:induction false} PostDispatcher(d: Dispatcher, c: Channel, b: Book, payload: bytes)
    requires d.Valid() && Postable(b, c.id, payload) && d.nextMessageId == b.next
    ensures var d' := AddMessage(d, c, payload).0;
            && d'.nextMessageId == Wrap(AfterPost(b, c.id, payload).next)
            && d' == d.(nextMessageId := d'.nextMessageId, fragMap := d'.fragMap)
            && d'.Valid()
            && (|payload| <= FRAGMENT_SIZE ==> d'.fragMap == d.fragMap)
            && (|payload| > FRAGMENT_SIZE ==>
                  var inserted := d.fragMap.Insert(b.next, Awaiting(FragmentIds(b.next, NumFragments(|payload|))),
                      Unknown);
                  d'.fragMap == if inserted.Ok? then inserted.value else d.fragMap)
  {
    hide NumFragments, EnqueueFragments, Enqueue, Wrap, AfterPost, FragmentIds;
    PostBook(b, c.id, payload);
    WrapArithmetic(b.next, IdsFor(payload));
    WrapSmall(b.next);
  }

  // -- acks --

  /** A new entry in the fragment map cannot make anything be reported again. */
  lemma {:induction false} PostSpent(inbox: map<u8, seq<u16>>, r: Ring<FragAckStatus>, r': Ring<FragAckStatus>, b: Book,
                                     rx: Log, cs: seq<Channel>, cs': seq<Channel>, spent: set<Message>, channel: u8,
                                     payload: bytes)
    requires WellKept(b) && Postable(b, channel, payload)
    requires r.Valid() && r'.Valid() && r'.Capacity() == r.Capacity()
    requires forall i | 0 <= i < |r'.tags| :: r'.tags[i] == EMPTY || r'.tags[i] == b.next ||
               (r'.tags[i] == r.tags[i] && r'.entries[i] == r.entries[i])
    requires |cs'| == |cs| && forall i | 0 <= i < |cs| :: cs'[i].Unreliable? == cs[i].Unreliable?
    requires AcksRight(inbox, b, rx) && AcksOnce(inbox, b, cs) && Spent(inbox, r, b, cs, spent)
    ensures var b' := AfterPost(b, channel, payload);
            AcksRight(inbox, b', rx) && AcksOnce(inbox, b', cs') && Spent(inbox, r', b', cs', spent)
  {
    hide AfterPost, WellKept, Finished;
    var b' := AfterPost(b, channel, payload);
    PostBook(b, channel, payload);
    PostKeeps(b, channel, payload);
    forall c, k | c in inbox && 0 <= k < |inbox[c]|
      ensures AckRight(b', rx, c, inbox[c][k]) && SpentOne(r', b', cs', spent, inbox[c][k])
      ensures SingleShot(b', cs', inbox[c][k]) ==> SingleShot(b, cs, inbox[c][k])
    {
      var id := inbox[c][k];
      assert AckRight(b, rx, c, id) && SpentOne(r, b, cs, spent, id);
      FinishedPosted(b, rx, id);
      PostOther(b, rx, channel, payload, id);
      if id in b.table {
        PostedAt(b, channel, payload, id);
      }
    }
  }

  lemma {:induction false} FinishedPosted(b: Book, rx: Log, p: u16)
    requires Finished(b, rx, p)
    ensures p in b.posted
  {
  }

  lemma {:induction false} PostReports(d: Dispatcher, d': Dispatcher, b: Book, rx: Log, cs: seq<Channel>,
                                       cs': seq<Channel>, spent: set<Message>, c: Channel, payload: bytes)
    requires WellKept(b) && Postable(b, c.id, payload) && d.Valid() && d.nextMessageId == b.next
    requires d' == AddMessage(d, c, payload).0
    requires |cs'| == |cs| && forall i | 0 <= i < |cs| :: cs'[i].Unreliable? == cs[i].Unreliable?
    requires ReportsRight(d.ackInbox, d.fragMap, b, rx, cs, spent)
    ensures ReportsRight(d'.ackInbox, d'.fragMap, AfterPost(b, c.id, payload), rx, cs', spent)
  {
    hide AfterPost, WellKept, AcksRight, AcksOnce, Spent, SlotRight, NumFragments, FragmentIds, AddMessage;
    PostDispatcher(d, c, b, payload);
    PostBook(b, c.id, payload);
    var status := if |payload| > FRAGMENT_SIZE then Awaiting(FragmentIds(b.next, NumFragments(|payload|))) else Unknown;
    if d'.fragMap == d.fragMap {
      FragsStay(d.fragMap, b, rx, c.id, payload);
    } else {
      d.fragMap.InsertSlots(b.next, status, Unknown);
      InsertedRewritable(d.fragMap, b.next, status, Unknown);
      PostFrags(d.fragMap, b, rx, c.id, payload);
    }
    PostSpent(d.ackInbox, d.fragMap, d'.fragMap, b, rx, cs, cs', spent, c.id, payload);
  }

  // -- queues --

  lemma {:induction false} OtherQueue(b: Book, c: Channel, channel: u8, payload: bytes)
    requires WellKept(b) && Postable(b, channel, payload) && QueuedOnce(b, c)
    ensures QueuedOnce(AfterPost(b, channel, payload), c)
  {
    hide AfterPost, WellKept;
    forall j | 0 <= j < |Queued(c)|
      ensures InTable(AfterPost(b, channel, payload), Queued(c)[j], c.id)
    {
      PostInTable(b, channel, payload, Queued(c)[j], c.id);
    }
  }

  lemma {:induction false} PostQueueing(d: Dispatcher, b: Book, spent: set<Message>, cs: seq<Channel>, i: nat,
                                        payload: bytes)
    requires WellKept(b) && i < |cs| && Postable(b, cs[i].id, payload) && d.Valid() && d.nextMessageId == b.next
    requires Queueing(b, spent, cs) && forall m | m in spent :: m.id < b.next
    ensures var c := AddMessage(d, cs[i], payload).1;
            && SameButQueue(cs[i], c)
            && Queueing(AfterPost(b, cs[i].id, payload), spent, cs[i := c])
            && (forall m | m in Queued(c) :: m in Queued(cs[i]) || b.next <= m.id)
  {
    hide AfterPost, WellKept, QueuedOnce, Queued, AddMessage;
    var channel := cs[i].id;
    assert QueuedOnce(b, cs[i]);
    var c, b' := PostQueues(b, d, cs[i], payload);
    var cs' := cs[i := c];
    forall j | 0 <= j < |cs'|
      ensures QueuedOnce(b', cs'[j])
    {
      assert QueuedOnce(b, cs[j]);
      if j != i {
        OtherQueue(b, cs[j], channel, payload);
      }
    }
    forall id | id in b'.table
      ensures RetainedOne(b', spent, cs', id)
    {
      PostedAt(b, channel, payload, id);
      if id in b.table {
        assert RetainedOne(b, spent, cs, id);
        TableId(b, id);
      } else {
        PostedChannel(b, channel, payload, id);
      }
    }
  }

  lemma {:induction false} CarriedOld(b: Book, out: map<int, Sent<Cargo>>, done: set<int>)
    requires WellKept(b) && OutKept(b, out)
    ensures forall m | m in Carried(out, done) :: m.id < b.next
  {
    hide IsOutbound, Fits;
    forall m | m in Carried(out, done)
      ensures m.id < b.next
    {
      var u :| u in done && u in out && m in out[u].body.messages;
      var k :| 0 <= k < |out[u].body.messages| && out[u].body.messages[k] == m;
      assert InTable(b, m, m.channel);
      assert Entry(b, m.id);
    }
  }

  lemma {:induction false} PostedChannel(b: Book, channel: u8, payload: bytes, id: u16)
    requires WellKept(b) && Postable(b, channel, payload)
    requires id in AfterPost(b, channel, payload).table && id !in b.table
    ensures AfterPost(b, channel, payload).table[id].channel == channel
  {
    hide AfterPost, WellKept, Part, NewOutbound;
    PostBook(b, channel, payload);
    PostedAt(b, channel, payload, id);
    if |payload| <= FRAGMENT_SIZE {
      WholeFits(b.next, channel, payload);
    } else {
      PartIs(channel, payload, b.next, id - b.next);
    }
  }

  // -- the endpoint --

  lemma {:induction false} PostOutKept(b: Book, out: map<int, Sent<Cargo>>, channel: u8, payload: bytes)
    requires WellKept(b) && Postable(b, channel, payload) && OutKept(b, out)
    ensures OutKept(AfterPost(b, channel, payload), out)
  {
    hide AfterPost, WellKept, InTable;
    forall u, k | u in out && 0 <= k < |out[u].body.messages|
      ensures InTable(AfterPost(b, channel, payload), out[u].body.messages[k], out[u].body.messages[k].channel)
    {
      assert MessagesKept(b, out[u].body.messages);
      PostInTable(b, channel, payload, out[u].body.messages[k], out[u].body.messages[k].channel);
    }
  }

  lemma {:induction false} PostLoose(b: Book, cs: seq<Channel>, i: nat, c: Channel, out: map<int, Sent<Cargo>>)
    requires WellKept(b) && OutKept(b, out) && LooseOnce(cs, out)
    requires i < |cs| && SameButQueue(cs[i], c) && forall m | m in Queued(c) :: m in Queued(cs[i]) || b.next <= m.id
    ensures LooseOnce(cs[i := c], out)
  {
    hide UniqueAt, Queued, IsOutbound, Fits;
    var cs' := cs[i := c];
    forall u, k | u in out && 0 <= k < |out[u].body.messages| && Loose(cs', out[u].body.messages[k])
      ensures UniqueAt(out, u, k) && out[u].body.messages[k] !in Queued(cs'[out[u].body.messages[k].channel])
    {
      var m := out[u].body.messages[k];
      assert Loose(cs, m);
      assert MessagesKept(b, out[u].body.messages);
      assert InTable(b, m, m.channel);
      assert Entry(b, m.id);
    }
  }

  lemma {:induction false} PostNodeOk(x: Node, n: nat, channel: u8, payload: bytes)
    requires NodeOk(x, n) && CanPost(x, channel, payload) && Takes(x.e, channel, payload)
    requires QueuesOnce(x.book, x.e.channels)
    ensures channel < |x.e.channels| && x.e.channels[channel].id == channel
    ensures x.e.dispatcher.nextMessageId == x.book.next
    ensures var e' := Post(x, channel, payload).e;
            && e' == x.e.(dispatcher := AddMessage(x.e.dispatcher, x.e.channels[channel], payload).0,
                          channels := x.e.channels[channel := AddMessage(x.e.dispatcher, x.e.channels[channel],
                              payload).1])
            && NodeOk(Post(x, channel, payload), n)
  {
    hide AfterPost, WellKept, Local, OutKept, LooseOnce, Filed, AllReadable, AddMessage, QueuedOnce, Done;
    IndexOfNumbered(x.e.channels, channel);
    PostBook(x.book, channel, payload);
    WrapSmall(x.book.next);
    var d, cs, b := x.e.dispatcher, x.e.channels, x.book;
    var (d', c, r) := AddMessage(d, cs[channel], payload);
    assert WellKept(b) && 0 <= b.next;
    PostDispatcher(d, cs[channel], b, payload);
    assert QueuedOnce(b, cs[channel]);
    var _, _ := PostQueues(b, d, cs[channel], payload);
    PostKeeps(b, channel, payload);
    PostOutKept(b, x.t.out, channel, payload);
    PostLoose(b, cs, channel, c, x.t.out);
    FiledSame(d, d', x.e.packets.sent, x.t, n, x.recorded, x.records, Done(x.t));
  }

  lemma {:induction false} FiledSame(d: Dispatcher, d': Dispatcher, sent: Ring<SentMeta>, t: Trace<Cargo>, n: nat,
                                     top: int, m: map<int, seq<Handle>>, done: set<int>)
    requires d'.inPackets == d.inPackets
    ensures Filed(d', sent, t, n, top, m, done) <==> Filed(d, sent, t, n, top, m, done)
  {
  }

  // -- both directions --

  lemma {:induction false} PostOutward(x: Node, y: Node, n: nat, channel: u8, payload: bytes)
    requires PairOk(x, y, n) && CanPost(x, channel, payload) && Takes(x.e, channel, payload)
    ensures DirectionOk(Post(x, channel, payload), y)
  {
    hide AfterPost, WellKept, Local, OutKept, LooseOnce, Filed, AllReadable, AddMessage, QueuesOnce, Done, ReportsRight,
      Receiving, Retained, Carried, AckSound, WatermarkSafe, Landed, QueuedOnce;
    PostNodeOk(x, n, channel, payload);
    var d, cs, b := x.e.dispatcher, x.e.channels, x.book;
    var cs' := Post(x, channel, payload).e.channels;
    CarriedOld(b, x.t.out, Done(x.t));
    PostQueueing(d, b, Carried(x.t.out, Done(x.t)), cs, channel, payload);
    SameKinds(cs, cs', channel);
    PostReports(d, Post(x, channel, payload).e.dispatcher, b, y.rx, cs, cs', Carried(x.t.out, Done(x.t)), cs[channel],
        payload);
    PostReceiving(y.e.dispatcher, y.e.channels, b, y.rx, y.tops, channel, payload);
  }

  lemma {:induction false} SameKinds(cs: seq<Channel>, cs': seq<Channel>, i: nat)
    requires i < |cs| && |cs'| == |cs| && cs' == cs[i := cs'[i]] && SameButQueue(cs[i], cs'[i])
    ensures forall j | 0 <= j < |cs| :: cs'[j].Unreliable? == cs[j].Unreliable? && cs'[j].seen == cs[j].seen
  {
  }

  lemma {:induction false} PostInward(x: Node, y: Node, n: nat, channel: u8, payload: bytes)
    requires PairOk(x, y, n) && CanPost(x, channel, payload) && Takes(x.e, channel, payload)
    ensures DirectionOk(y, Post(x, channel, payload))
  {
    hide AfterPost, WellKept, Local, OutKept, LooseOnce, Filed, AllReadable, AddMessage, QueuesOnce, Done, ReportsRight,
      Receiving, Retained, Carried, AckSound, WatermarkSafe, Landed, QueuedOnce;
    PostNodeOk(x, n, channel, payload);
    var d, cs, b := x.e.dispatcher, x.e.channels, x.book;
    var e' := Post(x, channel, payload).e;
    CarriedOld(b, x.t.out, Done(x.t));
    PostQueueing(d, b, Carried(x.t.out, Done(x.t)), cs, channel, payload);
    PostDispatcher(d, cs[channel], b, payload);
    SameKinds(cs, e'.channels, channel);
    SeenSame(d, e'.dispatcher, cs, e'.channels, y.book, x.rx, x.tops);
  }

  /** Sending a message keeps everything. */
  lemma {:induction false} PostKeepsPair(x: Node, y: Node, n: nat, channel: u8, payload: bytes)
    requires PairOk(x, y, n) && CanPost(x, channel, payload)
    ensures PairOk(Post(x, channel, payload), y, n)
  {
    hide NodeOk, AddMessage, QueuesOnce, ReportsRight, Receiving, Retained, Carried, AckSound, WatermarkSafe, Landed;
    if Takes(x.e, channel, payload) {
      PostNodeOk(x, n, channel, payload);
      PostOutward(x, y, n, channel, payload);
      PostInward(x, y, n, channel, payload);
    }
  }
}
