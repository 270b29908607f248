/** The sending side of the message layer: whatever the application is told was acked has been
    delivered, and nothing that could be sent only once is reported twice. */
module Acknowledging {
  import opened Words
  import opened SequenceBuffers
  import opened SequenceWindow
  import opened Messages
  import opened Packets
  import opened Channels
  import opened Reassembler
  import opened Dispatchers
  import opened PacketLayer
  import opened PacketInvariants
  import opened Endpoints
  import opened MessageBooks
  import opened Deliveries

  // -- the fragment ack map --

  /** The entry under `p` can be written again without moving the ring. */
  ghost predicate Rewritable<T>(r: Ring<T>, p: int) {
    || r.sequence - r.Capacity() < p <= r.sequence
    || (r.sequence < p < 65536 && !SequenceGreaterThan(p, r.sequence)
        && !SequenceLessThan(p, WrapSub(r.sequence, r.Capacity())))
  }

  /** Whatever an entry no longer waits for has been taken in by the receiver. */
  ghost predicate StatusRight(status: FragAckStatus, b: Book, rx: Log, p: u16)
    requires p in b.posted && Sizeable(b.posted[p])
  {
    match status
    case Unknown => false
    case Complete => Whole(b, rx, p)
    case Awaiting(remaining) =>
      forall i | 0 <= i < IdsFor(b.posted[p].payload) :: p + i in remaining || GotPart(b, rx, p, i)
  }

  ghost predicate SlotRight(r: Ring<FragAckStatus>, b: Book, rx: Log, i: int)
    requires 0 <= i < |r.tags| == |r.entries|
  {
    r.tags[i] == EMPTY ||
    (&& 0 <= r.tags[i] < 65536
     && var p: u16 := r.tags[i];
        && p < b.next && p in b.posted && Sizeable(b.posted[p])
        && Rewritable(r, p)
        && StatusRight(r.entries[i], b, rx, p))
  }

  ghost predicate FragsRight(r: Ring<FragAckStatus>, b: Book, rx: Log) {
    && r.Valid() && r.sequence <= b.next
    && forall i | 0 <= i < |r.tags| :: SlotRight(r, b, rx, i)
  }

  lemma {:induction false} RewritableWrites<T>(r: Ring<T>, p: int, data: T, default: T)
    requires r.Valid() && 0 <= p < 65536 && Rewritable(r, p)
    ensures r.Insert(p, data, default) == Ok(r.Write(p, data))
  {
  }

  lemma {:induction false} WithoutExact(ids: seq<u16>, id: u16, x: int)
    ensures x in Without(ids, id) <==> x in ids && x != id
  {
    if ids != [] {
      WithoutExact(ids[1..], id, x);
      assert x in ids <==> x == ids[0] || x in ids[1..];
    }
  }

  /** Striking a fragment that has been taken in off the list. */
  lemma {:induction false} StrikeRight(remaining: seq<u16>, b: Book, rx: Log, p: u16, id: u16)
    requires p in b.posted && Sizeable(b.posted[p])
    requires StatusRight(Awaiting(remaining), b, rx, p)
    requires Got(rx, b.posted[p].channel, id)
    ensures StatusRight(Awaiting(Without(remaining, id)), b, rx, p)
    ensures Without(remaining, id) == [] ==> Whole(b, rx, p)
  {
    hide Without;
    forall i | 0 <= i < IdsFor(b.posted[p].payload)
      ensures p + i in Without(remaining, id) || GotPart(b, rx, p, i)
    {
      WithoutExact(remaining, id, p + i);
    }
  }

  /** Overwriting one slot with something right. */
  lemma {:induction false} WriteRight(r: Ring<FragAckStatus>, r': Ring<FragAckStatus>, b: Book, rx: Log, p: u16,
                                      status: FragAckStatus)
    requires FragsRight(r, b, rx) && r.Exists(p)
    requires r' == r.(entries := r.entries[r.Index(p) := status])
    requires p in b.posted && Sizeable(b.posted[p]) ==> StatusRight(status, b, rx, p)
    ensures FragsRight(r', b, rx)
  {
    hide StatusRight;
    assert SlotRight(r, b, rx, r.Index(p));
    forall i | 0 <= i < |r'.tags|
      ensures SlotRight(r', b, rx, i)
    {
      assert SlotRight(r, b, rx, i);
    }
  }

  /** What `ack_fragment_message` does to the slot of the parent, the only slot it touches. */
  lemma {:induction false} AckFragmentSlot(r: Ring<FragAckStatus>, b: Book, rx: Log, p: u16, id: u16)
    requires FragsRight(r, b, rx)
    ensures var (r', whole) := AckFragment(r, p, id);
            if r.Exists(p) && r.entries[r.Index(p)].Awaiting? then
              var left := Without(r.entries[r.Index(p)].remaining, id);
              && whole == (left == [])
              && r' == r.(entries := r.entries[r.Index(p) := if whole then FragAckStatus.Complete else Awaiting(left)])
            else r' == r && !whole
  {
    hide Without, StatusRight;
    var i := r.Index(p);
    assert SlotRight(r, b, rx, i);
    if r.Exists(p) && r.entries[i].Awaiting? {
      var left := Without(r.entries[i].remaining, id);
      var noted := r.Update(p, Awaiting(left));
      assert noted == r.(entries := r.entries[i := Awaiting(left)]);
      assert noted.Valid();
      RewritableWrites(noted, p, FragAckStatus.Complete, Unknown);
      assert noted.Write(p, FragAckStatus.Complete) == r.(entries := r.entries[i := FragAckStatus.Complete]) by {
        assert r.tags[i := p as int] == r.tags;
        assert r.entries[i := Awaiting(left)][i := FragAckStatus.Complete] == r.entries[i := FragAckStatus.Complete];
      }
    }
  }

  /** A parent is reported acked only when all of it has been taken in. */
  lemma {:induction false} AckFragmentRight(r: Ring<FragAckStatus>, b: Book, rx: Log, p: u16, id: u16)
    requires FragsRight(r, b, rx)
    requires p in b.posted && Sizeable(b.posted[p]) && Got(rx, b.posted[p].channel, id)
    ensures var (r', whole) := AckFragment(r, p, id);
            && FragsRight(r', b, rx)
            && (whole ==> Whole(b, rx, p))
  {
    hide Without, Whole, AckFragment;
    AckFragmentSlot(r, b, rx, p, id);
    var i := r.Index(p);
    if r.Exists(p) && r.entries[i].Awaiting? {
      assert SlotRight(r, b, rx, i);
      StrikeRight(r.entries[i].remaining, b, rx, p, id);
      var (r', whole) := AckFragment(r, p, id);
      WriteRight(r, r', b, rx, p, if whole then
          FragAckStatus.Complete else Awaiting(Without(r.entries[i].remaining, id)));
    }
  }

  // -- a new entry --

  lemma {:induction false} FragmentIdsIn(parent: u16, n: nat)
    requires parent + n <= 65536
    ensures forall x: int :: x in FragmentIds(parent, n) <==> parent <= x < parent + n
  {
    if n > 0 {
      FragmentIdsIn(parent, n - 1);
      WrapSmall(parent + n - 1);
    }
  }

  /** A slot that is not emptied when the ring moves up belongs to an id still in the window. */
  lemma {:induction false} SurvivesAdvance<T>(r: Ring<T>, s: u16, data: T, default: T, i: nat)
    requires r.Valid() && r.sequence < s && SequenceGreaterThan(s, r.sequence)
    requires r.Insert(s, data, default).Ok?
    requires i < |r.tags| && i != r.Index(s) && r.sequence - r.Capacity() < r.tags[i] <= r.sequence
    requires r.Insert(s, data, default).value.tags[i] != EMPTY
    ensures s - r.Capacity() < r.tags[i]
  {
    var p := r.tags[i];
    if p <= s - r.Capacity() {
      var j := p + r.Capacity();
      ModMultiple(p, 1, r.Capacity());
      assert r.Index(j) == i;
      WrapSmall(r.sequence + 1);
      r.RangeSlots(WrapAdd(r.sequence, 1), s, default);
    }
  }

  lemma {:induction false} StatusStays(status: FragAckStatus, b: Book, rx: Log, channel: u8, payload: bytes, p: u16)
    requires WellKept(b) && Postable(b, channel, payload) && p in b.posted && Sizeable(b.posted[p])
    ensures var b' := AfterPost(b, channel, payload);
            && p in b'.posted && b'.posted[p] == b.posted[p]
            && (StatusRight(status, b', rx, p) <==> StatusRight(status, b, rx, p))
  {
    hide AfterPost, WellKept;
    PostOther(b, rx, channel, payload, p);
    assert forall i :: GotPart(AfterPost(b, channel, payload), rx, p, i) <==> GotPart(b, rx, p, i);
  }

  lemma {:induction false} SlotStays(r: Ring<FragAckStatus>, b: Book, rx: Log, channel: u8, payload: bytes, i: nat)
    requires WellKept(b) && Postable(b, channel, payload)
    requires i < |r.tags| == |r.entries| && SlotRight(r, b, rx, i)
    ensures SlotRight(r, AfterPost(b, channel, payload), rx, i)
  {
    hide AfterPost, WellKept, StatusRight, Rewritable;
    if r.tags[i] != EMPTY {
      StatusStays(r.entries[i], b, rx, channel, payload, r.tags[i]);
      PostBook(b, channel, payload);
    }
  }

  lemma {:induction false} FragsStay(r: Ring<FragAckStatus>, b: Book, rx: Log, channel: u8, payload: bytes)
    requires WellKept(b) && Postable(b, channel, payload)
    requires FragsRight(r, b, rx)
    ensures FragsRight(r, AfterPost(b, channel, payload), rx)
  {
    hide AfterPost, WellKept, SlotRight;
    PostBook(b, channel, payload);
    forall i | 0 <= i < |r.tags|
      ensures SlotRight(r, AfterPost(b, channel, payload), rx, i)
    {
      SlotStays(r, b, rx, channel, payload, i);
    }
  }

  lemma {:induction false} NewSlotRight(b: Book, rx: Log, channel: u8, payload: bytes)
    requires WellKept(b) && Postable(b, channel, payload) && FRAGMENT_SIZE < |payload|
    ensures var b' := AfterPost(b, channel, payload);
            && b.next in b'.posted && Sizeable(b'.posted[b.next])
            && StatusRight(Awaiting(FragmentIds(b.next, NumFragments(|payload|))), b', rx, b.next)
  {
    hide AfterPost, WellKept, NumFragments;
    PostBook(b, channel, payload);
    FragmentIdsIn(b.next, NumFragments(|payload|));
  }

  /** An entry kept by an insert is still one that can be written again. */
  lemma {:induction false} StaysRewritable<T>(r: Ring<T>, s: u16, data: T, default: T, i: nat)
    requires r.Valid() && r.sequence <= s && r.Insert(s, data, default).Ok?
    requires i < |r.tags| && i != r.Index(s) && r.tags[i] != EMPTY && r.tags[i] < s && Rewritable(r, r.tags[i])
    requires r.Insert(s, data, default).value.tags[i] == r.tags[i]
    ensures Rewritable(r.Insert(s, data, default).value, r.tags[i])
  {
    if SequenceGreaterThan(s, r.sequence) {
      SurvivesAdvance(r, s, data, default, i);
    }
  }

  lemma {:induction false} InsertedRewritable<T>(r: Ring<T>, s: u16, data: T, default: T)
    requires r.Valid() && r.sequence <= s && r.Insert(s, data, default).Ok?
    ensures var r' := r.Insert(s, data, default).value;
            Rewritable(r', s) && r'.sequence <= s && r'.tags[r.Index(s)] == s && r'.entries[r.Index(s)] == data
  {
  }

  /** A fragmented posting enters the map, or is refused by it. */
  lemma {:induction false} PostFrags(r: Ring<FragAckStatus>, b: Book, rx: Log, channel: u8, payload: bytes)
    requires WellKept(b) && Postable(b, channel, payload) && FRAGMENT_SIZE < |payload|
    requires FragsRight(r, b, rx)
    requires r.Insert(b.next, Awaiting(FragmentIds(b.next, NumFragments(|payload|))), Unknown).Ok?
    ensures FragsRight(r.Insert(b.next, Awaiting(FragmentIds(b.next, NumFragments(|payload|))), Unknown).value,
                       AfterPost(b, channel, payload), rx)
  {
    hide AfterPost, WellKept, StatusRight, Rewritable, NumFragments, FragmentIds, SequenceGreaterThan;
    PostBook(b, channel, payload);
    var b' := AfterPost(b, channel, payload);
    var status := Awaiting(FragmentIds(b.next, NumFragments(|payload|)));
    var r' := r.Insert(b.next, status, Unknown).value;
    r.InsertSlots(b.next, status, Unknown);
    InsertedRewritable(r, b.next, status, Unknown);
    NewSlotRight(b, rx, channel, payload);
    forall i | 0 <= i < |r'.tags|
      ensures SlotRight(r', b', rx, i)
    {
      if i != r.Index(b.next) && r'.tags[i] != EMPTY {
        assert SlotRight(r, b, rx, i);
        StatusStays(r.entries[i], b, rx, channel, payload, r.tags[i]);
        StaysRewritable(r, b.next, status, Unknown, i);
      }
    }
  }

  // -- what the application is told --

  ghost predicate AckRight(b: Book, rx: Log, c: u8, id: u16) {
    Finished(b, rx, id) && b.posted[id].channel == c
  }

  /** Whatever is reported acked has been taken in whole by the receiver. */
  ghost predicate AcksRight(inbox: map<u8, seq<u16>>, b: Book, rx: Log) {
    forall c, k | c in inbox && 0 <= k < |inbox[c]| :: AckRight(b, rx, c, inbox[c][k])
  }

  /** What can be reported only once: fragmented messages, and messages on an unreliable channel. */
  ghost predicate SingleShot(b: Book, cs: seq<Channel>, id: u16) {
    id in b.posted &&
    (b.posted[id].Big() || (b.posted[id].channel < |cs| && cs[b.posted[id].channel].Unreliable?))
  }

  ghost predicate AcksOnce(inbox: map<u8, seq<u16>>, b: Book, cs: seq<Channel>) {
    forall c, j, k | c in inbox && 0 <= j < k < |inbox[c]| && inbox[c][j] == inbox[c][k] ::
      !SingleShot(b, cs, inbox[c][j])
  }

  /** Why `id` will not be reported again: its entry waits for nothing, or its only copy, one of
      `spent`, has been acked. */
  ghost predicate SpentOne(r: Ring<FragAckStatus>, b: Book, cs: seq<Channel>, spent: set<Message>, id: u16)
    requires r.Valid()
  {
    SingleShot(b, cs, id) ==>
      if b.posted[id].Big() then !(r.Exists(id) && r.entries[r.Index(id)].Awaiting?)
      else id in b.table && b.table[id] in spent
  }

  ghost predicate Spent(inbox: map<u8, seq<u16>>, r: Ring<FragAckStatus>, b: Book, cs: seq<Channel>,
                        spent: set<Message>)
    requires r.Valid()
  {
    forall c, k | c in inbox && 0 <= k < |inbox[c]| :: SpentOne(r, b, cs, spent, inbox[c][k])
  }

  ghost predicate ReportsRight(inbox: map<u8, seq<u16>>, r: Ring<FragAckStatus>, b: Book, rx: Log, cs: seq<Channel>,
                               spent: set<Message>)
  {
    && FragsRight(r, b, rx)
    && AcksRight(inbox, b, rx)
    && AcksOnce(inbox, b, cs)
    && Spent(inbox, r, b, cs, spent)
  }

  lemma {:induction false} PushReports(inbox: map<u8, seq<u16>>, r: Ring<FragAckStatus>, b: Book, rx: Log,
                                       cs: seq<Channel>, spent: set<Message>, c: u8, id: u16)
    requires ReportsRight(inbox, r, b, rx, cs, spent)
    requires AckRight(b, rx, c, id) && SpentOne(r, b, cs, spent, id)
    requires SingleShot(b, cs, id) ==> !(c in inbox && id in inbox[c])
    ensures ReportsRight(Push(inbox, c, id), r, b, rx, cs, spent)
  {
    hide Push, AckRight, SpentOne, SingleShot, FragsRight;
    FragsValid(r, b, rx);
    PushAt(inbox, c, id);
    var inbox' := Push(inbox, c, id);
    forall c', k | c' in inbox' && 0 <= k < |inbox'[c']|
      ensures AckRight(b, rx, c', inbox'[c'][k]) && SpentOne(r, b, cs, spent, inbox'[c'][k])
    {
      if c' != c || k < |inbox'[c]| - 1 {
        assert AckRight(b, rx, c', inbox[c'][k]) && SpentOne(r, b, cs, spent, inbox[c'][k]);
      }
    }
    forall c', j, k | c' in inbox' && 0 <= j < k < |inbox'[c']| && inbox'[c'][j] == inbox'[c'][k]
      ensures !SingleShot(b, cs, inbox'[c'][j])
    {
      if c' == c && k == |inbox'[c]| - 1 {
        assert inbox[c][j] in inbox[c];
      }
    }
  }

  /** More is spent, and an entry waits for nothing more. */
  lemma {:induction false} SpentGrows(inbox: map<u8, seq<u16>>, r: Ring<FragAckStatus>, r': Ring<FragAckStatus>,
                                      b: Book, cs: seq<Channel>, cs': seq<Channel>, spent: set<Message>,
                                      spent': set<Message>)
    requires r.Valid() && r'.Valid() && r'.tags == r.tags && |r'.entries| == |r.entries|
    requires forall i | 0 <= i < |r.tags| && r'.entries[i].Awaiting? :: r.entries[i].Awaiting?
    requires |cs'| == |cs| && forall i | 0 <= i < |cs| :: cs'[i].Unreliable? == cs[i].Unreliable?
    requires spent <= spent'
    ensures AcksOnce(inbox, b, cs) ==> AcksOnce(inbox, b, cs')
    ensures Spent(inbox, r, b, cs, spent) ==> Spent(inbox, r', b, cs', spent')
  {
    forall id: u16 | SingleShot(b, cs', id)
      ensures SingleShot(b, cs, id)
    {
    }
    if Spent(inbox, r, b, cs, spent) {
      forall c, k | c in inbox && 0 <= k < |inbox[c]|
        ensures SpentOne(r', b, cs', spent', inbox[c][k])
      {
        assert SpentOne(r, b, cs, spent, inbox[c][k]);
      }
    }
  }

  /** What an ack means for the record of acks: of a whole message ... */
  lemma {:induction false} AckWhole(inbox: map<u8, seq<u16>>, r: Ring<FragAckStatus>, b: Book, rx: Log,
                                    cs: seq<Channel>, spent: set<Message>, m: Message)
    requires WellKept(b) && InTable(b, m, m.channel) && m.fragment.None? && Got(rx, m.channel, m.id)
    requires ReportsRight(inbox, r, b, rx, cs, spent)
    requires SingleShot(b, cs, m.id) ==> m !in spent
    ensures ReportsRight(Push(inbox, m.channel, m.id), r, b, rx, cs, spent + {m})
  {
    hide FragsRight, AcksRight, AcksOnce, WellKept, Spent, IsOutbound, Fits, InboundOf, Push;
    EntryParent(b, m, m.channel);
    FragsValid(r, b, rx);
    SpentGrows(inbox, r, r, b, cs, cs, spent, spent + {m});
    assert Finished(b, rx, m.id) by {
      assert GotPart(b, rx, m.id, 0);
    }
    if SingleShot(b, cs, m.id) && m.channel in inbox && m.id in inbox[m.channel] {
      SpentAt(inbox, r, b, cs, spent, m.channel, m.id);
    }
    PushReports(inbox, r, b, rx, cs, spent + {m}, m.channel, m.id);
  }

  lemma {:induction false} FragsValid(r: Ring<FragAckStatus>, b: Book, rx: Log)
    requires FragsRight(r, b, rx)
    ensures r.Valid()
  {
  }

  lemma {:induction false} SpentAt(inbox: map<u8, seq<u16>>, r: Ring<FragAckStatus>, b: Book, cs: seq<Channel>,
                                   spent: set<Message>, c: u8, id: u16)
    requires r.Valid() && Spent(inbox, r, b, cs, spent) && c in inbox && id in inbox[c]
    ensures SpentOne(r, b, cs, spent, id)
  {
    var k :| 0 <= k < |inbox[c]| && inbox[c][k] == id;
  }

  /** ... and of a fragment. */
  lemma {:induction false} AckPart(inbox: map<u8, seq<u16>>, r: Ring<FragAckStatus>, b: Book, rx: Log, cs: seq<Channel>,
                                   spent: set<Message>, m: Message)
    requires WellKept(b) && InTable(b, m, m.channel) && m.fragment.Some? && Got(rx, m.channel, m.id)
    requires ReportsRight(inbox, r, b, rx, cs, spent)
    ensures r.Valid()
    ensures var (r', whole) := AckFragment(r, ParentOf(m), m.id);
            ReportsRight(if whole then Push(inbox, m.channel, ParentOf(m)) else inbox, r', b, rx, cs, spent + {m})
  {
    hide FragsRight, AcksRight, AcksOnce, WellKept, Spent, IsOutbound, Fits, InboundOf, Push, AckFragment, Whole,
      Without;
    EntryParent(b, m, m.channel);
    FragsValid(r, b, rx);
    var p := ParentOf(m);
    var (r', whole) := AckFragment(r, p, m.id);
    AckFragmentSlot(r, b, rx, p, m.id);
    AckFragmentRight(r, b, rx, p, m.id);
    FragsValid(r', b, rx);
    SpentGrows(inbox, r, r', b, cs, cs, spent, spent + {m});
    if whole {
      if p in b.posted && m.channel in inbox && p in inbox[m.channel] {
        SpentAt(inbox, r, b, cs, spent, m.channel, p);
      }
      PushReports(inbox, r', b, rx, cs, spent + {m}, m.channel, p);
    }
  }

  // -- queues --

  /** A reliable message is queued until, and only until, a packet that carried it has been acked:
      `spent` has the messages of the acked packets. */
  ghost predicate RetainedOne(b: Book, spent: set<Message>, cs: seq<Channel>, id: u16)
    requires id in b.table
  {
    var m := b.table[id];
    m.channel < |cs| && (cs[m.channel].Reliable? ==> (m in Queued(cs[m.channel]) <==> m !in spent))
  }

  ghost predicate Retained(b: Book, spent: set<Message>, cs: seq<Channel>) {
    forall id | id in b.table :: RetainedOne(b, spent, cs, id)
  }

  ghost predicate QueuesOnce(b: Book, cs: seq<Channel>) {
    forall i | 0 <= i < |cs| :: QueuedOnce(b, cs[i])
  }

  ghost predicate Queueing(b: Book, spent: set<Message>, cs: seq<Channel>) {
    Numbered(cs) && QueuesOnce(b, cs) && Retained(b, spent, cs)
  }

  /** Nothing but reliable queues differs. */
  ghost predicate OnlyReliable(cs: seq<Channel>, cs': seq<Channel>) {
    |cs'| == |cs| && forall i | 0 <= i < |cs| :: SameButQueue(cs[i], cs'[i]) && (cs[i].Unreliable? ==> cs'[i] == cs[i])
  }

  /** An ack takes the named message, and no other, out of the queue. */
  lemma {:induction false} RetainQueue(pending: seq<Resendable>, h: Handle)
    ensures multiset(MessagesOf(Retain(pending, h))) <= multiset(MessagesOf(pending))
    ensures forall m | m in MessagesOf(pending) && m.id != h.id :: m in MessagesOf(Retain(pending, h))
    ensures forall m | m in MessagesOf(Retain(pending, h)) :: !Resendable(m, None).DismissedByAck(h)
  {
    if pending != [] {
      RetainQueue(pending[1..], h);
      var rest := Retain(pending[1..], h);
      assert MessagesOf(pending) == [pending[0].message] + MessagesOf(pending[1..]);
      if !pending[0].DismissedByAck(h) {
        assert ([pending[0]] + rest)[1..] == rest;
        assert MessagesOf([pending[0]] + rest) == [pending[0].message] + MessagesOf(rest);
      }
    }
  }

  lemma {:induction false} AckReceivedQueue(c: Channel, h: Handle)
    ensures SameButQueue(c, AckReceived(c, h)) && (c.Unreliable? ==> AckReceived(c, h) == c)
    ensures multiset(Queued(AckReceived(c, h))) <= multiset(Queued(c))
    ensures forall m | m in Queued(c) && m.id != h.id :: m in Queued(AckReceived(c, h))
    ensures c.Reliable? ==> forall m | m in Queued(AckReceived(c, h)) :: !Resendable(m, None).DismissedByAck(h)
  {
    if c.Reliable? {
      RetainQueue(c.pending, h);
    }
  }

  lemma {:induction false} SubQueue(b: Book, q: seq<Message>, q': seq<Message>, c: int)
    requires QueueKept(b, q, c) && Once(q) && multiset(q') <= multiset(q)
    ensures QueueKept(b, q', c) && Once(q')
    ensures forall m | m in q' :: m in q
  {
    forall m | m in q'
      ensures m in q && multiset(q')[m] == 1
    {
      assert m in multiset(q');
      assert m in multiset(q);
    }
    forall j | 0 <= j < |q'|
      ensures InTable(b, q'[j], c)
    {
      assert q'[j] in q;
    }
  }

  lemma {:induction false} ChannelAckedKeeps(b: Book, spent: set<Message>, cs: seq<Channel>, m: Message, h: Handle)
    requires WellKept(b) && InTable(b, m, m.channel)
    requires Resendable(m, None).DismissedByAck(h) && h.channel == m.channel
    requires Queueing(b, spent, cs)
    ensures Queueing(b, spent + {m}, ChannelAcked(cs, h)) && OnlyReliable(cs, ChannelAcked(cs, h))
  {
    hide WellKept, AckReceived, Queued, Once, QueueKept;
    IndexOfNumbered(cs, h.channel);
    var cs' := ChannelAcked(cs, h);
    if h.channel < |cs| {
      var c := cs[h.channel];
      AckReceivedQueue(c, h);
      assert QueuedOnce(b, c);
      SubQueue(b, Queued(c), Queued(AckReceived(c, h)), h.channel);
    }
    assert OnlyReliable(cs, cs');
    forall i | 0 <= i < |cs'|
      ensures QueuedOnce(b, cs'[i])
    {
      assert QueuedOnce(b, cs[i]);
    }
    forall id | id in b.table
      ensures RetainedOne(b, spent + {m}, cs', id)
    {
      assert RetainedOne(b, spent, cs, id);
      TableId(b, id);
    }
  }

  lemma {:induction false} TableId(b: Book, id: u16)
    requires WellKept(b) && id in b.table
    ensures b.table[id].id == id < b.next
  {
    assert Entry(b, id);
  }

  // -- the handles of a packet --

  ghost predicate Sending(d: Dispatcher, cs: seq<Channel>, b: Book, rx: Log, spent: set<Message>) {
    && ReportsRight(d.ackInbox, d.fragMap, b, rx, cs, spent)
    && Queueing(b, spent, cs)
  }

  lemma {:induction false} HandleParent(m: Message)
    requires IsOutbound(m)
    ensures HandleOf(m, m.channel).ParentId() == match m.fragment case None => None case Some(f) => Some(f.parentId)
  {
  }

  /** One message of an acked packet. */
  lemma {:induction false} AckHandleKeeps(d: Dispatcher, cs: seq<Channel>, b: Book, rx: Log, spent: set<Message>,
                                          m: Message)
    requires WellKept(b) && d.Valid() && InTable(b, m, m.channel) && Got(rx, m.channel, m.id)
    requires Sending(d, cs, b, rx, spent)
    requires m.fragment.None? && SingleShot(b, cs, m.id) ==> m !in spent
    ensures var (d', cs') := AckHandle(d, cs, HandleOf(m, m.channel));
            && Sending(d', cs', b, rx, spent + {m})
            && d' == d.(fragMap := d'.fragMap, ackInbox := d'.ackInbox)
            && d'.Valid() && OnlyReliable(cs, cs')
  {
    hide WellKept, Got, SingleShot, Queueing, AckFragment, AcksRight, AcksOnce, Spent, FragsRight, ChannelAcked,
      IsOutbound, Fits, InboundOf, Push, OnlyReliable;
    EntryParent(b, m, m.channel);
    HandleParent(m);
    ChannelAckedKeeps(b, spent, cs, m, HandleOf(m, m.channel));
    var cs' := ChannelAcked(cs, HandleOf(m, m.channel));
    AckHandleValid(d, cs, HandleOf(m, m.channel));
    FragsValid(d.fragMap, b, rx);
    if m.fragment.None? {
      AckWhole(d.ackInbox, d.fragMap, b, rx, cs, spent, m);
    } else {
      AckPart(d.ackInbox, d.fragMap, b, rx, cs, spent, m);
    }
    var d' := AckHandle(d, cs, HandleOf(m, m.channel)).0;
    FragsValid(d'.fragMap, b, rx);
    OnlyReliableKinds(cs, cs');
    SpentGrows(d'.ackInbox, d'.fragMap, d'.fragMap, b, cs, cs', spent + {m}, spent + {m});
  }

  lemma {:induction false} OnlyReliableKinds(cs: seq<Channel>, cs': seq<Channel>)
    requires OnlyReliable(cs, cs')
    ensures |cs'| == |cs| && forall i | 0 <= i < |cs| :: cs'[i].Unreliable? == cs[i].Unreliable?
  {
    forall i | 0 <= i < |cs|
      ensures cs'[i].Unreliable? == cs[i].Unreliable?
    {
      assert SameButQueue(cs[i], cs'[i]);
    }
  }

  ghost function HandlesFor(ms: seq<Message>): seq<Handle> {
    if ms == [] then [] else [HandleOf(ms[0], ms[0].channel)] + HandlesFor(ms[1..])
  }

  ghost predicate Lone(b: Book, cs: seq<Channel>, m: Message) {
    m.fragment.None? && SingleShot(b, cs, m.id)
  }

  /** No unreliable message in the packet was acked before, or is in it twice. */
  ghost predicate Unspent(b: Book, cs: seq<Channel>, spent: set<Message>, ms: seq<Message>) {
    forall k | 0 <= k < |ms| && Lone(b, cs, ms[k]) ::
      ms[k] !in spent && forall j | 0 <= j < |ms| && j != k :: ms[j] != ms[k]
  }

  ghost predicate AllGot(rx: Log, ms: seq<Message>) {
    forall k | 0 <= k < |ms| :: Got(rx, ms[k].channel, ms[k].id)
  }

  ghost function Spend(spent: set<Message>, ms: seq<Message>): set<Message> {
    spent + set m | m in ms
  }

  lemma {:induction false} OnlyReliableTransitive(a: seq<Channel>, b: seq<Channel>, c: seq<Channel>)
    requires OnlyReliable(a, b) && OnlyReliable(b, c)
    ensures OnlyReliable(a, c)
  {
    forall i | 0 <= i < |a|
      ensures SameButQueue(a[i], c[i]) && (a[i].Unreliable? ==> c[i] == a[i])
    {
      assert SameButQueue(a[i], b[i]) && SameButQueue(b[i], c[i]);
    }
  }

  lemma {:induction false} OnlyReliableSelf(cs: seq<Channel>)
    ensures OnlyReliable(cs, cs)
  {
  }

  lemma {:induction false} UnspentRest(b: Book, cs: seq<Channel>, cs': seq<Channel>, spent: set<Message>,
                                       ms: seq<Message>)
    requires ms != [] && Unspent(b, cs, spent, ms) && OnlyReliable(cs, cs')
    ensures Unspent(b, cs', spent + {ms[0]}, ms[1..])
    ensures Lone(b, cs, ms[0]) ==> ms[0] !in spent
  {
    OnlyReliableKinds(cs, cs');
    var rest := ms[1..];
    forall k | 0 <= k < |rest| && Lone(b, cs', rest[k])
      ensures rest[k] !in spent + {ms[0]} && forall j | 0 <= j < |rest| && j != k :: rest[j] != rest[k]
    {
      assert rest[k] == ms[k + 1] && Lone(b, cs, ms[k + 1]);
      assert ms[0] != ms[k + 1];
      forall j | 0 <= j < |rest| && j != k
        ensures rest[j] != rest[k]
      {
        assert rest[j] == ms[j + 1];
      }
    }
  }

  /** All the messages of an acked packet. */
  lemma {:induction false} AckHandlesKeeps(d: Dispatcher, cs: seq<Channel>, b: Book, rx: Log, spent: set<Message>,
                                           ms: seq<Message>)
    requires WellKept(b) && d.Valid() && MessagesKept(b, ms) && AllGot(rx, ms)
    requires Sending(d, cs, b, rx, spent) && Unspent(b, cs, spent, ms)
    ensures var (d', cs') := AckHandles(d, cs, HandlesFor(ms));
            && Sending(d', cs', b, rx, Spend(spent, ms))
            && d' == d.(fragMap := d'.fragMap, ackInbox := d'.ackInbox)
            && d'.Valid() && OnlyReliable(cs, cs')
    decreases |ms|
  {
    hide WellKept, Got, SingleShot, Sending, AckHandle, OnlyReliable, Unspent, InTable;
    if ms == [] {
      OnlyReliableSelf(cs);
      assert Spend(spent, ms) == spent;
    } else {
      var m, rest := ms[0], ms[1..];
      UnspentRest(b, cs, cs, spent, ms) by {
        OnlyReliableSelf(cs);
      }
      assert InTable(b, m, m.channel) && Got(rx, m.channel, m.id);
      AckHandleKeeps(d, cs, b, rx, spent, m);
      var (d1, cs1) := AckHandle(d, cs, HandleOf(m, m.channel));
      UnspentRest(b, cs, cs1, spent, ms);
      AckHandlesKeeps(d1, cs1, b, rx, spent + {m}, rest);
      OnlyReliableTransitive(cs, cs1, AckHandles(d1, cs1, HandlesFor(rest)).1);
      assert Spend(spent + {m}, rest) == Spend(spent, ms);
      assert HandlesFor(ms)[1..] == HandlesFor(rest) && HandlesFor(ms)[0] == HandleOf(m, m.channel);
    }
  }

  // -- the record of the messages in each packet --

  /** What travels in a packet. */
  datatype Cargo = Cargo(packet: bytes, messages: seq<Message>)

  ghost predicate Recorded(u: int, hs: seq<Handle>, out: map<int, Sent<Cargo>>) {
    && u in out && out[u].header.packetType == MessagesType
    && hs == HandlesFor(out[u].body.messages)
  }

  /** The ids passed over since the last messages packet took their slots from older packets in the
      sent-packets buffer, unless some removal was skipped at the wrap point. */
  ghost predicate Swept(sent: Ring<SentMeta>, top: int, sentU: int)
    requires 0 < |sent.tags| == |sent.entries|
  {
    Clears(top, sentU) ==>
      forall u, j | sentU - 65536 < u <= top < j <= sentU && Held(sent, u) ::
          Slot(j, |sent.tags|) != Slot(u, |sent.tags|)
  }

  /** The record speaks the truth, and has every messages packet that was not acked and that the
      sent-packets buffer still holds. */
  ghost predicate HandlesRight(r: Ring<seq<Handle>>, sent: Ring<SentMeta>, t: Trace<Cargo>, n: nat, top: int,
                               m: map<int, seq<Handle>>, done: set<int>) {
    && r.Capacity() == n && Sound(r, top, m) && top <= t.sentU
    && (forall u | u in m :: Recorded(u, m[u], t.out))
    && (forall u | u in t.out ::
         if t.out[u].header.packetType == MessagesType then u in m else t.out[u].body.messages == [])
    && 0 < |sent.tags| == |sent.entries| && Swept(sent, top, t.sentU)
    && (forall u | u in m && u !in done && t.sentU - 65536 < u && Held(sent, u) :: Held(r, u))
  }

  lemma {:induction false} RemoveSound<T>(r: Ring<T>, s: int, default: T, top: int, m: map<int, T>)
    requires Sound(r, top, m)
    ensures Sound(r.Remove(s, default), top, m) && r.Remove(s, default).Capacity() == r.Capacity()
  {
    hide Owner, Wrap, Leftover, Aligned;
    var r' := r.Remove(s, default);
    forall i | 0 <= i < |r'.tags| && r'.tags[i] != EMPTY
      ensures Genuine(r', i, top, m)
    {
      assert Genuine(r, i, top, m);
    }
  }

  lemma {:induction false} RemoveHolds<T>(r: Ring<T>, x: int, default: T, u: int)
    requires r.Valid() && Held(r, u) && u % r.Capacity() != Wrap(x) % r.Capacity()
    ensures Held(r.Remove(Wrap(x), default), u)
  {
  }

  /** Two packets that the sent-packets buffer holds are in different slots. */
  lemma {:induction false} HeldApart<T>(r: Ring<T>, top: int, x: int, u: int)
    requires r.Valid() && Held(r, x) && Held(r, u) && x != u
    requires top - 65536 < x <= top && top - 65536 < u <= top
    requires 65536 % r.Capacity() == 0
    ensures u % r.Capacity() != Wrap(x) % r.Capacity()
  {
    WrapKeepsSlot(x, r.Capacity());
    if u % r.Capacity() == x % r.Capacity() {
      WrapInjective(x, u);
    }
  }

  /** Taking the record of an acked packet leaves the records of the others. */
  lemma {:induction false} HandlesTaken(r: Ring<seq<Handle>>, sent: Ring<SentMeta>, t: Trace<Cargo>, n: nat, top: int,
                                        m: map<int, seq<Handle>>, done: set<int>, x: int)
    requires HandlesRight(r, sent, t, n, top, m, done)
    requires GoodCapacity(n) && sent.Capacity() == n && Tracks(sent, t.sentU, t.meta)
    requires t.sentU - 65536 < x <= t.sentU && Held(sent, x)
    ensures HandlesRight(r.Remove(Wrap(x), []), sent, t, n, top, m, done + {x})
  {
    hide Wrap, Sound, Recorded, Held, Swept;
    RemoveSound(r, Wrap(x), [], top, m);
    SoundTop(r, top, m);
    SoundTop(sent, t.sentU, t.meta);
    forall u | u in m && u !in done + {x} && t.sentU - 65536 < u && Held(sent, u)
      ensures Held(r.Remove(Wrap(x), []), u)
    {
      SoundRange(r, top, m, u);
      HeldApart(sent, t.sentU, x, u);
      RemoveHolds(r, x, [], u);
    }
  }

  lemma {:induction false} SoundRange<T>(r: Ring<T>, top: int, m: map<int, T>, u: int)
    requires Sound(r, top, m) && u in m
    ensures 0 <= u <= top
  {
  }

  // -- acked packets --

  ghost predicate Loose(cs: seq<Channel>, m: Message) {
    m.channel < |cs| && cs[m.channel].Unreliable?
  }

  ghost predicate UniqueAt(out: map<int, Sent<Cargo>>, u: int, k: int)
    requires u in out && 0 <= k < |out[u].body.messages|
  {
    forall v, j | v in out && 0 <= j < |out[v].body.messages| && out[v].body.messages[j] == out[u].body.messages[k] ::
      v == u && j == k
  }

  /** A message of an unreliable channel travels in one packet only, once, and is not queued any more. */
  ghost predicate LooseOnce(cs: seq<Channel>, out: map<int, Sent<Cargo>>) {
    forall u, k | u in out && 0 <= k < |out[u].body.messages| && Loose(cs, out[u].body.messages[k]) ::
      UniqueAt(out, u, k) && out[u].body.messages[k] !in Queued(cs[out[u].body.messages[k].channel])
  }

  /** What every packet carries was sent by the application, and no packet carries it twice. */
  ghost predicate OutKept(b: Book, out: map<int, Sent<Cargo>>) {
    forall u | u in out :: MessagesKept(b, out[u].body.messages) && Once(out[u].body.messages)
  }

  /** The messages of the packets in `done`. */
  ghost function Carried(out: map<int, Sent<Cargo>>, done: set<int>): set<Message> {
    set u, m | u in done && u in out && m in out[u].body.messages :: m
  }

  lemma {:induction false} CarriedMore(out: map<int, Sent<Cargo>>, done: set<int>, x: int)
    requires x in out
    ensures Carried(out, done) <= Carried(out, done + {x})
    ensures Spend(Carried(out, done), out[x].body.messages) == Carried(out, done + {x})
  {
    forall m | m in Carried(out, done + {x})
      ensures m in Spend(Carried(out, done), out[x].body.messages)
    {
      var u :| u in done + {x} && u in out && m in out[u].body.messages;
    }
    forall m | m in Spend(Carried(out, done), out[x].body.messages)
      ensures m in Carried(out, done + {x})
    {
      if m !in Carried(out, done) {
        assert x in done + {x} && m in out[x].body.messages;
      }
    }
  }

  /** The unreliable messages of a packet not acked before have not been acked before. */
  lemma {:induction false} NotSpent(b: Book, cs: seq<Channel>, out: map<int, Sent<Cargo>>, done: set<int>, x: int)
    requires WellKept(b) && OutKept(b, out) && LooseOnce(cs, out)
    requires x in out && x !in done
    ensures Unspent(b, cs, Carried(out, done), out[x].body.messages)
  {
    hide WellKept, IsOutbound, Fits, InboundOf, Parts;
    var ms := out[x].body.messages;
    forall k | 0 <= k < |ms| && Lone(b, cs, ms[k])
      ensures ms[k] !in Carried(out, done) && forall j | 0 <= j < |ms| && j != k :: ms[j] != ms[k]
    {
      assert InTable(b, ms[k], ms[k].channel);
      EntryParent(b, ms[k], ms[k].channel);
      assert Loose(cs, ms[k]);
      assert UniqueAt(out, x, k);
    }
  }

  /** What an ack for `x` relies on. */
  ghost predicate Ackable(sent: Ring<SentMeta>, t: Trace<Cargo>, rx: Log, x: int)
    requires 0 < |sent.tags| == |sent.entries|
  {
    && x in t.out && t.sentU - 65536 < x <= t.sentU
    && Held(sent, x)
    && AllGot(rx, t.out[x].body.messages)
  }

  /** What an endpoint has recorded about its packets. */
  ghost predicate Filed(d: Dispatcher, sent: Ring<SentMeta>, t: Trace<Cargo>, n: nat, top: int,
                        m: map<int, seq<Handle>>, done: set<int>)
  {
    && HandlesRight(d.inPackets, sent, t, n, top, m, done)
    && t.sentU - top <= 32768 - n
    && GoodCapacity(n) && sent.Capacity() == n && Tracks(sent, t.sentU, t.meta) && t.meta.Keys == t.out.Keys
  }

  /** What is found under a newly acked packet is what it carried, and nothing else. */
  lemma {:induction false} FoundRight(d: Dispatcher, sent: Ring<SentMeta>, t: Trace<Cargo>, n: nat, top: int,
                                      m: map<int, seq<Handle>>, done: set<int>, x: int)
    requires Filed(d, sent, t, n, top, m, done)
    requires x in t.out && t.sentU - 65536 < x <= t.sentU && Held(sent, x) && x !in done
    ensures d.inPackets.Valid()
    ensures d.inPackets.Get(Wrap(x)) ==
              if t.out[x].header.packetType == MessagesType then Some(HandlesFor(t.out[x].body.messages)) else None
  {
    hide Wrap, Sound, HandlesFor, Tracks, Swept;
    SoundTop(d.inPackets, top, m);
    WrapKeepsSlot(x, n);
    if d.inPackets.Exists(Wrap(x)) {
      GetSound(d.inPackets, top, m, x);
      assert Recorded(x, m[x], t.out);
    }
  }

  lemma {:induction false} NoMessages(r: Ring<seq<Handle>>, sent: Ring<SentMeta>, t: Trace<Cargo>, n: nat, top: int,
                                      m: map<int, seq<Handle>>, done: set<int>, x: int)
    requires HandlesRight(r, sent, t, n, top, m, done) && x in t.out && t.out[x].header.packetType != MessagesType
    ensures t.out[x].body.messages == [] && Spend(Carried(t.out, done), []) == Carried(t.out, done)
  {
  }

  lemma {:induction false} AckPacketKeeps(d: Dispatcher, cs: seq<Channel>, b: Book, rx: Log, sent: Ring<SentMeta>,
                                          t: Trace<Cargo>, n: nat, top: int, m: map<int, seq<Handle>>, done: set<int>,
                                          x: int)
    requires WellKept(b) && d.Valid() && OutKept(b, t.out) && LooseOnce(cs, t.out)
    requires Filed(d, sent, t, n, top, m, done)
    requires Ackable(sent, t, rx, x) && x !in done
    requires Sending(d, cs, b, rx, Carried(t.out, done))
    ensures var (d', cs') := AckPacket(d, cs, Wrap(x));
            && Sending(d', cs', b, rx, Carried(t.out, done + {x}))
            && Filed(d', sent, t, n, top, m, done + {x})
            && d' == d.(fragMap := d'.fragMap, inPackets := d'.inPackets, ackInbox := d'.ackInbox)
            && d'.Valid() && OnlyReliable(cs, cs')
  {
    hide Wrap, WellKept, Sending, AckHandles, HandlesFor, HandlesRight, OnlyReliable, LooseOnce, Tracks, Carried, Held,
      Unspent, Spend;
    FoundRight(d, sent, t, n, top, m, done, x);
    HandlesTaken(d.inPackets, sent, t, n, top, m, done, x);
    CarriedMore(t.out, done, x);
    var d0 := d.(inPackets := d.inPackets.Remove(Wrap(x), []));
    assert Sending(d0, cs, b, rx, Carried(t.out, done)) by {
      SendingSame(d, d0, cs, b, rx, Carried(t.out, done));
    }
    if d.inPackets.Get(Wrap(x)).Some? {
      NotSpent(b, cs, t.out, done, x);
      AckHandlesKeeps(d0, cs, b, rx, Carried(t.out, done), t.out[x].body.messages);
    } else {
      NoMessages(d.inPackets, sent, t, n, top, m, done, x);
      assert Carried(t.out, done + {x}) == Carried(t.out, done);
      OnlyReliableSelf(cs);
    }
  }

  lemma {:induction false} SendingSame(d: Dispatcher, d': Dispatcher, cs: seq<Channel>, b: Book, rx: Log,
                                       spent: set<Message>)
    requires d'.fragMap == d.fragMap && d'.ackInbox == d.ackInbox
    ensures Sending(d', cs, b, rx, spent) <==> Sending(d, cs, b, rx, spent)
  {
  }

  lemma {:induction false} LooseStays(cs: seq<Channel>, cs': seq<Channel>, out: map<int, Sent<Cargo>>)
    requires LooseOnce(cs, out) && OnlyReliable(cs, cs')
    ensures LooseOnce(cs', out)
  {
    hide UniqueAt, Queued;
    OnlyReliableKinds(cs, cs');
    forall u, k | u in out && 0 <= k < |out[u].body.messages| && Loose(cs', out[u].body.messages[k])
      ensures UniqueAt(out, u, k) && out[u].body.messages[k] !in Queued(cs'[out[u].body.messages[k].channel])
    {
      assert Loose(cs, out[u].body.messages[k]);
    }
  }

  ghost function Upto(xs: seq<int>): set<int> {
    set x | x in xs
  }

  /** What the acks of one header rely on. */
  ghost predicate AcksReady(d: Dispatcher, cs: seq<Channel>, b: Book, rx: Log, sent: Ring<SentMeta>, t: Trace<Cargo>,
                            n: nat, top: int, m: map<int, seq<Handle>>, done: set<int>, ids: seq<u16>, xs: seq<int>) {
    && WellKept(b) && d.Valid() && OutKept(b, t.out) && LooseOnce(cs, t.out)
    && Filed(d, sent, t, n, top, m, done) && 0 < |sent.tags| == |sent.entries|
    && |ids| == |xs|
         && (forall k | 0 <= k < |xs| :: ids[k] == Wrap(xs[k]) && xs[k] !in done && Ackable(sent, t, rx, xs[k]))
    && (forall j, k | 0 <= j < k < |xs| :: xs[j] != xs[k])
    && Sending(d, cs, b, rx, Carried(t.out, done))
  }

  lemma {:induction false} AcksReadyNext(d: Dispatcher, cs: seq<Channel>, b: Book, rx: Log, sent: Ring<SentMeta>,
                                         t: Trace<Cargo>, n: nat, top: int, m: map<int, seq<Handle>>, done: set<int>,
                                         ids: seq<u16>, xs: seq<int>)
    requires AcksReady(d, cs, b, rx, sent, t, n, top, m, done, ids, xs) && ids != []
    ensures d.Valid()
    ensures var (d1, cs1) := AckPacket(d, cs, ids[0]);
            && AcksReady(d1, cs1, b, rx, sent, t, n, top, m, done + {xs[0]}, ids[1..], xs[1..])
            && d1 == d.(fragMap := d1.fragMap, inPackets := d1.inPackets, ackInbox := d1.ackInbox)
            && OnlyReliable(cs, cs1)
            && done + {xs[0]} + Upto(xs[1..]) == done + Upto(xs)
  {
    hide Wrap, WellKept, Sending, AckPacket, HandlesRight, OnlyReliable, LooseOnce, Tracks, Carried, Held, Filed,
      Ackable, OutKept;
    AckPacketKeeps(d, cs, b, rx, sent, t, n, top, m, done, xs[0]);
    LooseStays(cs, AckPacket(d, cs, ids[0]).1, t.out);
    UptoCons(xs);
  }

  /** All the packets that one header newly acks. */
  lemma {:induction false} AckAllKeeps(d: Dispatcher, cs: seq<Channel>, b: Book, rx: Log, sent: Ring<SentMeta>,
                                       t: Trace<Cargo>, n: nat, top: int, m: map<int, seq<Handle>>, done: set<int>,
                                       ids: seq<u16>, xs: seq<int>)
    requires AcksReady(d, cs, b, rx, sent, t, n, top, m, done, ids, xs)
    ensures d.Valid()
    ensures var (d', cs') := AckAll(d, cs, ids);
            && Sending(d', cs', b, rx, Carried(t.out, done + Upto(xs)))
            && Filed(d', sent, t, n, top, m, done + Upto(xs))
            && d' == d.(fragMap := d'.fragMap, inPackets := d'.inPackets, ackInbox := d'.ackInbox)
            && d'.Valid() && OnlyReliable(cs, cs')
    decreases |ids|
  {
    hide Wrap, WellKept, Sending, AckPacket, HandlesRight, OnlyReliable, LooseOnce, Tracks, Carried, Held, Filed,
      Ackable, OutKept;
    if ids == [] {
      OnlyReliableSelf(cs);
      assert done + Upto(xs) == done;
    } else {
      AcksReadyNext(d, cs, b, rx, sent, t, n, top, m, done, ids, xs);
      var (d1, cs1) := AckPacket(d, cs, ids[0]);
      AckAllKeeps(d1, cs1, b, rx, sent, t, n, top, m, done + {xs[0]}, ids[1..], xs[1..]);
      OnlyReliableTransitive(cs, cs1, AckAll(d1, cs1, ids[1..]).1);
    }
  }

  lemma {:induction false} UptoCons(xs: seq<int>)
    requires xs != []
    ensures Upto(xs) == {xs[0]} + Upto(xs[1..])
  {
    assert xs == [xs[0]] + xs[1..];
  }
}
