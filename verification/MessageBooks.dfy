/** The history of the messages that one endpoint sends, and what a channel's queue holds of it.

    Message ids are taken not to have wrapped, so an id on the wire is the id itself. */
module MessageBooks {
  import opened Words
  import opened Messages
  import opened Channels
  import opened Reassembler
  import opened Dispatchers

  /** What the application handed over under an id. */
  datatype Posted = Posted(channel: u8, payload: bytes) {
    predicate Big() {
      |payload| > FRAGMENT_SIZE
    }
  }

  /** `table` has every message queued so far by id, fragments included; `posted` has what the
      application sent by the id it was told. */
  datatype Book = Book(next: int, table: map<u16, Message>, posted: map<u16, Posted>)

  const EMPTY_BOOK := Book(0, map[], map[])

  /** The payloads whose fragments all fit their headers. */
  predicate Deliverable(payload: bytes) {
    |payload| <= MAX_PAYLOAD &&
    (|payload| > FRAGMENT_SIZE ==>
       var n := NumFragments(|payload|);
       n <= 255 || FragmentLen(|payload|, n - 1) > 255)
  }

  /** How many ids a payload takes. */
  function IdsFor(payload: bytes): nat
    requires |payload| <= MAX_PAYLOAD
  {
    if |payload| <= FRAGMENT_SIZE then 1 else NumFragments(|payload|)
  }

  /** The message under `id` is fragment `f` of what was posted under `f.parentId`. */
  ghost predicate PartOf(w: Posted, m: Message, f: Fragment)
    requires IsOutbound(m)
  {
    && FRAGMENT_SIZE < |w.payload| <= MAX_PAYLOAD
    && w.channel == m.channel
    && f.numFragments == NumFragments(|w.payload|) && f.index < f.numFragments
    && m.id == f.parentId + f.index
    && PayloadOf(m) == Slice(w.payload, f.index)
  }

  ghost predicate Entry(b: Book, id: u16)
    requires id in b.table
  {
    var m := b.table[id];
    && m.id == id && id < b.next
    && IsOutbound(m) && Fits(m)
    && match m.fragment
       case None => id in b.posted && b.posted[id] == Posted(m.channel, PayloadOf(m)) && !b.posted[id].Big()
       case Some(f) => f.parentId in b.posted && PartOf(b.posted[f.parentId], m, f)
  }

  /** What was posted under `p` is in the table, whole or in all its parts. */
  ghost predicate PostEntered(b: Book, p: u16)
    requires p in b.posted
  {
    var w := b.posted[p];
    && |w.payload| <= MAX_PAYLOAD && p + IdsFor(w.payload) <= b.next
    && if w.Big() then forall i: nat | i < NumFragments(|w.payload|) :: PartEntered(b, p, i, NumFragments(|w.payload|))
       else p in b.table && b.table[p].fragment == None
  }

  ghost predicate PartEntered(b: Book, p: u16, i: nat, n: u16) {
    i < n && p + i < 65536 && p + i in b.table && b.table[p + i].fragment == Some(Fragment(i, n, p))
  }

  ghost predicate WellKept(b: Book) {
    && 0 <= b.next <= 65536
    && (forall id | id in b.table :: Entry(b, id))
    && (forall p | p in b.posted :: PostEntered(b, p))
  }

  /** `m` was sent on channel `c`. */
  ghost predicate InTable(b: Book, m: Message, c: int) {
    m.id in b.table && b.table[m.id] == m && m.channel == c
  }

  // -- queues --

  ghost predicate Numbered(cs: seq<Channel>) {
    |cs| <= MAX_CHANNELS && forall i | 0 <= i < |cs| :: cs[i].id == i
  }

  ghost predicate QueueKept(b: Book, q: seq<Message>, c: int) {
    forall j | 0 <= j < |q| :: InTable(b, q[j], c)
  }

  /** No message is queued twice. */
  ghost predicate Once(q: seq<Message>) {
    forall m | m in q :: multiset(q)[m] == 1
  }

  lemma {:induction false} OnceAppend(q: seq<Message>, m: Message)
    requires Once(q) && m !in q
    ensures Once(q + [m])
  {
    forall x | x in q + [m]
      ensures multiset(q + [m])[x] == 1
    {
      assert multiset(q + [m]) == multiset(q) + multiset{m};
      assert m !in multiset(q);
    }
  }

  lemma {:induction false} IndexOfFrom(cs: seq<Channel>, c: u8, k: nat)
    requires k <= c && forall i | 0 <= i < |cs| :: cs[i].id == i + k
    ensures IndexOfChannel(cs, c) == if c - k < |cs| then c - k else |cs|
    decreases |cs|
  {
    if cs != [] && cs[0].id != c {
      IndexOfFrom(cs[1..], c, k + 1);
    }
  }

  lemma {:induction false} IndexOfNumbered(cs: seq<Channel>, c: u8)
    requires Numbered(cs)
    ensures IndexOfChannel(cs, c) == if c < |cs| then c else |cs|
  {
    IndexOfFrom(cs, c, 0);
  }

  // -- posting --

  /** Fragment `i` of what is posted under `p`. */
  ghost function Part(channel: u8, payload: bytes, p: int, i: nat): Message
    requires channel < MAX_CHANNELS && FRAGMENT_SIZE < |payload| <= MAX_PAYLOAD && i < NumFragments(|payload|)
    requires 0 <= p && p + i < 65536
  {
    FragmentSendable(channel, payload, p, i);
    NewOutbound(p + i, channel, Slice(payload, i), Some(FragmentAt(payload, p, i)))
  }

  ghost predicate Postable(b: Book, channel: u8, payload: bytes) {
    channel < MAX_CHANNELS && Deliverable(payload) && 0 <= b.next && b.next + IdsFor(payload) <= 65536
  }

  /** The table with the first `n` fragments entered. */
  ghost function PutParts(table: map<u16, Message>, channel: u8, payload: bytes, p: int, n: nat): map<u16, Message>
    requires channel < MAX_CHANNELS && FRAGMENT_SIZE < |payload| <= MAX_PAYLOAD && n <= NumFragments(|payload|)
    requires 0 <= p && p + n <= 65536
  {
    if n == 0 then table
    else PutParts(table, channel, payload, p, n - 1)[p + n - 1 := Part(channel, payload, p, n - 1)]
  }

  lemma {:induction false} PutPartsAt(table: map<u16, Message>, channel: u8, payload: bytes, p: int, n: nat, id: u16)
    requires channel < MAX_CHANNELS && FRAGMENT_SIZE < |payload| <= MAX_PAYLOAD && n <= NumFragments(|payload|)
    requires 0 <= p && p + n <= 65536
    ensures var after := PutParts(table, channel, payload, p, n);
            if p <= id < p + n then id in after && after[id] == Part(channel, payload, p, id - p)
            else (id in after <==> id in table) && (id in table ==> after[id] == table[id])
  {
    hide Part;
    if n > 0 {
      PutPartsAt(table, channel, payload, p, n - 1, id);
    }
  }

  ghost function AfterPost(b: Book, channel: u8, payload: bytes): Book
    requires Postable(b, channel, payload)
  {
    var table := if |payload| <= FRAGMENT_SIZE then b.table[b.next := NewOutbound(b.next, channel, payload, None)]
                 else PutParts(b.table, channel, payload, b.next, NumFragments(|payload|));
    Book(b.next + IdsFor(payload), table, b.posted[b.next := Posted(channel, payload)])
  }

  lemma {:induction false} PartIs(channel: u8, payload: bytes, p: int, i: nat)
    requires channel < MAX_CHANNELS && FRAGMENT_SIZE < |payload| && Deliverable(payload) && i < NumFragments(|payload|)
    requires 0 <= p && p + i < 65536
    ensures var m := Part(channel, payload, p, i);
            && m.id == p + i && m.channel == channel
            && m.fragment == Some(Fragment(i, NumFragments(|payload|), p))
            && IsOutbound(m) && Fits(m)
            && PayloadOf(m) == Slice(payload, i)
            && PartOf(Posted(channel, payload), m, m.fragment.value)
            && InboundOf(m) == Inbound(p + i, channel, Slice(payload, i), Some(Fragment(i, NumFragments(|payload|), p)))
  {
    hide IsOutbound, NewOutbound, Slice, InboundOf, PayloadOf;
    FragmentSendable(channel, payload, p, i);
    WrapSmall(p + i);
    NewOutboundIs(p + i, channel, Slice(payload, i), Some(FragmentAt(payload, p, i)));
    PartShape(channel, payload, p, i);
    SplitArithmetic(|payload|, i);
  }

  lemma {:induction false} PartShape(channel: u8, payload: bytes, p: int, i: nat)
    requires channel < MAX_CHANNELS && FRAGMENT_SIZE < |payload| <= MAX_PAYLOAD && i < NumFragments(|payload|)
    requires 0 <= p && p + i < 65536
    ensures var m := Part(channel, payload, p, i);
            && m.id == p + i && m.channel == channel && m.fragment == Some(FragmentAt(payload, p, i))
            && |Slice(payload, i)| == FragmentLen(|payload|, i)
  {
    SplitArithmetic(|payload|, i);
  }

  /** What a post adds to the table. */
  lemma {:induction false} PostedAt(b: Book, channel: u8, payload: bytes, id: u16)
    requires WellKept(b) && Postable(b, channel, payload)
    ensures var b' := AfterPost(b, channel, payload);
            && (id in b.table ==> id < b.next && id in b'.table && b'.table[id] == b.table[id])
            && (id in b'.table ==> id in b.table || b.next <= id < b'.next)
            && (b.next <= id < b'.next ==>
                  && id in b'.table
                  && b'.table[id] == if |payload| <= FRAGMENT_SIZE then NewOutbound(b.next, channel, payload, None)
                                     else Part(channel, payload, b.next, id - b.next))
  {
    hide Part, NewOutbound, PutParts, NumFragments;
    assert id in b.table ==> Entry(b, id);
    if |payload| > FRAGMENT_SIZE {
      PutPartsAt(b.table, channel, payload, b.next, NumFragments(|payload|), id);
    }
  }

  lemma {:induction false} PostingKeeps(b: Book, channel: u8, payload: bytes, p: u16)
    requires WellKept(b) && Postable(b, channel, payload)
    requires p in b.posted
    ensures p < b.next
    ensures var b' := AfterPost(b, channel, payload); p in b'.posted && PostEntered(b', p)
  {
    hide AfterPost, Part, NewOutbound, Entry;
    var b' := AfterPost(b, channel, payload);
    assert PostEntered(b, p);
    PostBook(b, channel, payload);
    if b.posted[p].Big() {
      var n := NumFragments(|b.posted[p].payload|);
      forall i: nat | i < n
        ensures PartEntered(b', p, i, n)
      {
        assert PartEntered(b, p, i, n);
        PostedAt(b, channel, payload, p + i);
      }
    } else {
      PostedAt(b, channel, payload, p);
    }
  }

  lemma {:induction false} PostBook(b: Book, channel: u8, payload: bytes)
    requires Postable(b, channel, payload)
    ensures AfterPost(b, channel, payload).next == b.next + IdsFor(payload)
    ensures AfterPost(b, channel, payload).posted == b.posted[b.next := Posted(channel, payload)]
    ensures 1 <= IdsFor(payload)
  {
  }

  lemma {:induction false} NewPosting(b: Book, channel: u8, payload: bytes)
    requires WellKept(b) && Postable(b, channel, payload)
    ensures b.next in AfterPost(b, channel, payload).posted && PostEntered(AfterPost(b, channel, payload), b.next)
  {
    hide AfterPost, Part, NewOutbound, Entry;
    var b' := AfterPost(b, channel, payload);
    PostBook(b, channel, payload);
    if |payload| > FRAGMENT_SIZE {
      forall i: nat | i < NumFragments(|payload|)
        ensures PartEntered(b', b.next, i, NumFragments(|payload|))
      {
        PostedAt(b, channel, payload, b.next + i);
        PartIs(channel, payload, b.next, i);
      }
    } else {
      PostedAt(b, channel, payload, b.next);
      WholeFits(b.next, channel, payload);
    }
  }

  lemma {:induction false} EntryKeeps(b: Book, channel: u8, payload: bytes, id: u16)
    requires WellKept(b) && Postable(b, channel, payload)
    requires id in AfterPost(b, channel, payload).table
    ensures Entry(AfterPost(b, channel, payload), id)
  {
    hide AfterPost, Part, NewOutbound, IsOutbound, PayloadOf, Fits, PartOf, PostEntered;
    PostedAt(b, channel, payload, id);
    PostBook(b, channel, payload);
    if id in b.table {
      assert Entry(b, id);
      assert forall p | p in b.posted :: p != b.next by {
        forall p | p in b.posted
          ensures p < b.next
        {
          PostingKeeps(b, channel, payload, p);
        }
      }
    } else if |payload| <= FRAGMENT_SIZE {
      NewOutboundIs(b.next, channel, payload, None);
      WholeFits(b.next, channel, payload);
    } else {
      PartIs(channel, payload, b.next, id - b.next);
    }
  }

  lemma {:induction false} PostKeeps(b: Book, channel: u8, payload: bytes)
    requires WellKept(b) && Postable(b, channel, payload)
    ensures WellKept(AfterPost(b, channel, payload))
    ensures b.next !in b.posted
  {
    hide AfterPost, PostEntered, Entry;
    var b' := AfterPost(b, channel, payload);
    PostBook(b, channel, payload);
    forall p | p in b.posted
      ensures p < b.next && PostEntered(b', p)
    {
      PostingKeeps(b, channel, payload, p);
    }
    NewPosting(b, channel, payload);
    forall id | id in b'.table
      ensures Entry(b', id)
    {
      EntryKeeps(b, channel, payload, id);
    }
  }

  lemma {:induction false} WholeFits(id: u16, channel: u8, payload: bytes)
    requires channel < MAX_CHANNELS && |payload| <= FRAGMENT_SIZE
    ensures var m := NewOutbound(id, channel, payload, None);
            m.id == id && m.channel == channel && m.fragment == None && IsOutbound(m) && Fits(m)
  {
    NewOutboundIs(id, channel, payload, None);
  }

  // -- queueing what is posted --

  lemma {:induction false} MessagesOfAppend(pending: seq<Resendable>, r: Resendable)
    ensures MessagesOf(pending + [r]) == MessagesOf(pending) + [r.message]
  {
    if pending == [] {
      assert pending + [r] == [r];
      assert [r][1..] == [];
    } else {
      assert (pending + [r])[1..] == pending[1..] + [r];
      MessagesOfAppend(pending[1..], r);
    }
  }

  /** Everything about a channel but its queue. */
  ghost predicate SameButQueue(c: Channel, c': Channel) {
    && c'.id == c.id && c'.seen == c.seen && c'.time == c.time && c'.Reliable? == c.Reliable?
    && (c.Reliable? ==> c'.resendTime == c.resendTime)
  }

  lemma {:induction false} EnqueueAppends(c: Channel, id: u16, payload: bytes, fragment: Option<Fragment>)
    requires Sendable(c.id, payload, fragment)
    ensures SameButQueue(c, Enqueue(c, id, payload, fragment))
    ensures Queued(Enqueue(c, id, payload, fragment)) == Queued(c) + [NewOutbound(id, c.id, payload, fragment)]
  {
    hide NewOutbound, Sendable;
    if c.Reliable? {
      MessagesOfAppend(c.pending, Resendable(NewOutbound(id, c.id, payload, fragment), None));
    }
  }

  ghost predicate QueueBelow(q: seq<Message>, next: int) {
    forall m | m in q :: m.id < next
  }

  /** The fragments from `i` on join the queue, each of them once. */
  lemma {:induction false} EnqueueFragmentsAppends(c: Channel, payload: bytes, p: int, i: nat) returns (c': Channel)
    requires c.id < MAX_CHANNELS && FRAGMENT_SIZE < |payload| && Deliverable(payload) && i <= NumFragments(|payload|)
    requires 0 <= p && p + NumFragments(|payload|) <= 65536 && p < 65536
    requires Once(Queued(c)) && QueueBelow(Queued(c), p + i)
    ensures c' == EnqueueFragments(c, payload, p, i)
    ensures SameButQueue(c, c') && Once(Queued(c'))
    ensures forall m | m in Queued(c) :: m in Queued(c')
    ensures forall k | i <= k < NumFragments(|payload|) :: Part(c.id, payload, p, k) in Queued(c')
    ensures forall m | m in Queued(c') :: m in Queued(c) ||
              (p + i <= m.id < p + NumFragments(|payload|) && m == Part(c.id, payload, p, m.id - p))
    decreases NumFragments(|payload|) - i
  {
    hide Part, Queued, Enqueue, NewOutbound, Slice, NumFragments, Once, QueueBelow;
    c' := EnqueueFragments(c, payload, p, i);
    if i < NumFragments(|payload|) {
      var m, c1 := EnqueuePart(c, payload, p, i);
      var c2 := EnqueueFragmentsAppends(c1, payload, p, i + 1);
    }
  }

  lemma {:induction false} EnqueuePart(c: Channel, payload: bytes, p: int, i: nat) returns (m: Message, c': Channel)
    requires c.id < MAX_CHANNELS && FRAGMENT_SIZE < |payload| && Deliverable(payload) && i < NumFragments(|payload|)
    requires 0 <= p && p + NumFragments(|payload|) <= 65536
    requires Once(Queued(c)) && QueueBelow(Queued(c), p + i)
    ensures m == Part(c.id, payload, p, i) && m.id == p + i
    ensures SameButQueue(c, c') && Queued(c') == Queued(c) + [m]
    ensures EnqueueFragments(c, payload, p, i) == EnqueueFragments(c', payload, p, i + 1)
    ensures Once(Queued(c')) && QueueBelow(Queued(c'), p + i + 1)
  {
    hide Queued, Slice, Enqueue, NumFragments, NewOutbound;
    FragmentSendable(c.id, payload, p, i);
    WrapSmall(p + i);
    PartIs(c.id, payload, p, i);
    m := Part(c.id, payload, p, i);
    c' := Enqueue(c, p + i, Slice(payload, i), Some(FragmentAt(payload, p, i)));
    EnqueueAppends(c, p + i, Slice(payload, i), Some(FragmentAt(payload, p, i)));
    assert m !in Queued(c);
    OnceAppend(Queued(c), m);
  }

  ghost predicate QueuedOnce(b: Book, c: Channel) {
    QueueKept(b, Queued(c), c.id) && Once(Queued(c))
  }

  lemma {:induction false} KeptBelow(b: Book, q: seq<Message>, c: int)
    requires WellKept(b) && QueueKept(b, q, c)
    ensures QueueBelow(q, b.next)
  {
    forall m | m in q
      ensures m.id < b.next
    {
      assert InTable(b, m, c);
      assert Entry(b, m.id);
    }
  }

  /** What posting a payload does to the channel: whatever the table gains is queued, once, behind
      what was queued before. */
  lemma {:induction false} PostQueues(b: Book, d: Dispatcher, c: Channel, payload: bytes)
    returns (c': Channel, b': Book)
    requires WellKept(b) && Postable(b, c.id, payload) && d.Valid() && d.nextMessageId == b.next
    requires QueuedOnce(b, c)
    ensures c' == AddMessage(d, c, payload).1 && b' == AfterPost(b, c.id, payload)
    ensures SameButQueue(c, c') && QueuedOnce(b', c')
    ensures forall m | m in Queued(c) :: m in Queued(c')
    ensures forall m | m in Queued(c') :: m in Queued(c) || b.next <= m.id
    ensures forall id | id in b'.table && id !in b.table :: b'.table[id] in Queued(c')
  {
    hide NewOutbound, Part, Queued, NumFragments, AfterPost, Enqueue, EnqueueFragments, IsOutbound, Fits, Once, Entry;
    b' := AfterPost(b, c.id, payload);
    PostBook(b, c.id, payload);
    KeptBelow(b, Queued(c), c.id);
    c' := AddMessage(d, c, payload).1;
    if |payload| <= FRAGMENT_SIZE {
      assert c' == Enqueue(c, b.next, payload, None);
      EnqueueAppends(c, b.next, payload, None);
      WholeFits(b.next, c.id, payload);
      OnceAppend(Queued(c), NewOutbound(b.next, c.id, payload, None));
    } else {
      assert c' == EnqueueFragments(c, payload, b.next, 0);
      var _ := EnqueueFragmentsAppends(c, payload, b.next, 0);
    }
    forall id | id in b'.table
      ensures id !in b.table ==> b'.table[id] in Queued(c')
    {
      PostedAt(b, c.id, payload, id);
      assert id !in b.table && |payload| > FRAGMENT_SIZE ==> Part(c.id, payload, b.next, id - b.next) in Queued(c');
    }
    forall j | 0 <= j < |Queued(c')|
      ensures InTable(b', Queued(c')[j], c.id)
    {
      PostedInTable(b, c, payload, Queued(c')[j]);
    }
  }

  lemma {:induction false} PostedInTable(b: Book, c: Channel, payload: bytes, m: Message)
    requires WellKept(b) && Postable(b, c.id, payload)
    requires InTable(b, m, c.id)
          || (if |payload| <= FRAGMENT_SIZE then m == NewOutbound(b.next, c.id, payload, None)
              else b.next <= m.id < b.next + IdsFor(payload) && m == Part(c.id, payload, b.next, m.id - b.next))
    ensures InTable(AfterPost(b, c.id, payload), m, c.id)
  {
    hide NewOutbound, Part, AfterPost, NumFragments;
    PostBook(b, c.id, payload);
    if |payload| <= FRAGMENT_SIZE {
      WholeFits(b.next, c.id, payload);
    } else if b.next <= m.id < b.next + IdsFor(payload) {
      PartIs(c.id, payload, b.next, m.id - b.next);
    }
    PostedAt(b, c.id, payload, m.id);
  }
}
