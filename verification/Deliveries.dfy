/** The receiving side of the message layer: every message goes to the application once, whole and
    unchanged, when and only when the last of it has been taken in. */
module Deliveries {
  import opened Words
  import opened SequenceBuffers
  import opened SequenceWindow
  import opened Messages
  import opened Channels
  import opened Reassembler
  import opened Reassembly
  import opened Dispatchers
  import opened Endpoints
  import opened MessageBooks

  /** The ids taken in, channel by channel. */
  type Log = seq<map<int, bool>>

  ghost predicate Got(rx: Log, c: int, id: int) {
    0 <= c < |rx| && id in rx[c]
  }

  ghost predicate GotPart(b: Book, rx: Log, p: u16, i: int)
    requires p in b.posted
  {
    Got(rx, b.posted[p].channel, p + i)
  }

  /** Everything that was posted under `p` has been taken in. */
  ghost predicate Whole(b: Book, rx: Log, p: u16)
    requires p in b.posted && |b.posted[p].payload| <= MAX_PAYLOAD
  {
    forall i | 0 <= i < IdsFor(b.posted[p].payload) :: GotPart(b, rx, p, i)
  }

  ghost predicate Finished(b: Book, rx: Log, p: u16) {
    p in b.posted && |b.posted[p].payload| <= MAX_PAYLOAD && Whole(b, rx, p)
  }

  ghost function Have(b: Book, rx: Log, p: u16): set<int>
    requires p in b.posted && |b.posted[p].payload| <= MAX_PAYLOAD
  {
    set i | 0 <= i < IdsFor(b.posted[p].payload) && GotPart(b, rx, p, i)
  }

  ghost predicate Sizeable(w: Posted) {
    FRAGMENT_SIZE < |w.payload| <= MAX_PAYLOAD
  }

  /** The fragments of a posted payload as the receiver sees them. */
  ghost function Parts(w: Posted, p: u16): (fs: seq<Message>)
    requires Sizeable(w)
    ensures |fs| == NumFragments(|w.payload|)
  {
    seq(NumFragments(|w.payload|), i requires 0 <= i < NumFragments(|w.payload|) =>
      Inbound(Wrap(p + i), w.channel, Slice(w.payload, i), Some(Fragment(i, NumFragments(|w.payload|), p))))
  }

  /** What the application gets for what was posted under `p`. */
  ghost function DeliveryOf(w: Posted, p: u16): ReceivedMessage
    requires |w.payload| <= MAX_PAYLOAD
  {
    if w.Big() then Fragmented(Parts(w, p)) else Single(Inbound(p, w.channel, w.payload, None))
  }

  /** It carries the id, the channel and exactly the payload that was posted. */
  lemma {:induction false} DeliveryIntact(w: Posted, p: u16)
    requires |w.payload| <= MAX_PAYLOAD
    ensures var r := DeliveryOf(w, p);
            && (r.Fragmented? ==> r.fragments != [] && r.fragments[0].fragment.Some?)
            && r.Id() == p && r.Channel() == w.channel && r.Payload() == w.payload
  {
    if w.Big() {
      SplitArithmetic(|w.payload|, 0);
      WholePayload(Parts(w, p), w.payload);
    }
  }

  lemma {:induction false} DeliveryChannel(w: Posted, p: u16)
    requires |w.payload| <= MAX_PAYLOAD
    ensures ChannelOf(DeliveryOf(w, p)) == w.channel
  {
    if w.Big() {
      SplitArithmetic(|w.payload|, 0);
    }
  }

  lemma {:induction false} PartsAre(w: Posted, p: u16)
    requires Sizeable(w)
    ensures FragmentsOf(Parts(w, p), p)
  {
    SplitArithmetic(|w.payload|, 0);
  }

  function ParentOf(m: Message): u16 {
    match m.fragment case None => m.id case Some(f) => f.parentId
  }

  /** A message in the table is part of one posting only. */
  lemma {:induction false} OnePosting(b: Book, p: u16, i: int)
    requires WellKept(b) && p in b.posted && 0 <= i < IdsFor(b.posted[p].payload)
    ensures p + i < 65536 && p + i in b.table && ParentOf(b.table[p + i]) == p
    ensures b.table[p + i].channel == b.posted[p].channel
  {
    hide IsOutbound, Fits;
    assert PostEntered(b, p);
    if b.posted[p].Big() {
      assert PartEntered(b, p, i, NumFragments(|b.posted[p].payload|));
    }
    assert Entry(b, p + i);
  }

  /** Which posting an entry of the table belongs to, and what the receiver makes of it. */
  lemma {:induction false} EntryParent(b: Book, m: Message, c: int)
    requires WellKept(b) && InTable(b, m, c)
    ensures IsOutbound(m) && Fits(m) && InboundOf(m).id == m.id && InboundOf(m).channel == m.channel
    ensures InboundOf(m).fragment == m.fragment
    ensures var p := ParentOf(m);
            && p in b.posted && b.posted[p].channel == c && |b.posted[p].payload| <= MAX_PAYLOAD
            && (m.fragment.None? ==>
                 !b.posted[p].Big() && m.id == p && Single(InboundOf(m)) == DeliveryOf(b.posted[p], p))
            && (m.fragment.Some? ==>
                  && Sizeable(b.posted[p])
                  && var i := m.fragment.value.index;
                  && i < IdsFor(b.posted[p].payload) && m.id == p + i
                  && InboundOf(m) == Parts(b.posted[p], p)[i])
  {
    hide Slice, IsOutbound, PayloadOf, Fits;
    assert Entry(b, m.id);
    assert PostEntered(b, ParentOf(m));
    InboundIs(m);
    WrapSmall(m.id);
  }

  lemma {:induction false} InboundIs(m: Message)
    requires IsOutbound(m)
    ensures InboundOf(m) == Inbound(m.id, m.channel, PayloadOf(m), m.fragment)
  {
  }

  // -- the invariant of the receiver --

  /** The logs of seen ids are exact, and the newest id seen is known. */
  ghost predicate SeenTracks(cs: seq<Channel>, rx: Log, tops: seq<int>) {
    && |rx| == |tops| == |cs|
    && forall i | 0 <= i < |cs| ::
         cs[i].seen.Capacity() == SEEN_CAPACITY && Tracks(cs[i].seen, tops[i], rx[i]) && tops[i] < 65536
  }

  ghost predicate KnownId(b: Book, rx: Log, c: int, id: int)
    requires 0 <= c < |rx|
  {
    id in rx[c] ==> rx[c][id] && 0 <= id < 65536 && id in b.table && b.table[id].channel == c
  }

  /** Only what was sent was taken in. */
  ghost predicate Known(b: Book, rx: Log) {
    forall c, id | 0 <= c < |rx| && id in rx[c] :: KnownId(b, rx, c, id)
  }

  /** The state of the reassembler for one message. */
  ghost predicate AssemblingOne(ip: InProgress, b: Book, rx: Log, p: u16)
    requires p in b.posted && Sizeable(b.posted[p])
  {
    if Whole(b, rx, p) then p !in ip else Holds(ip, p, Parts(b.posted[p], p), Have(b, rx, p))
  }

  ghost predicate Assembling(ip: InProgress, b: Book, rx: Log) {
    && (forall p | p in ip :: p in b.posted && b.posted[p].Big())
    && (forall p | p in b.posted && Sizeable(b.posted[p]) :: AssemblingOne(ip, b, rx, p))
  }

  function Holder(r: ReceivedMessage): u16 {
    match r
    case Single(m) => m.id
    case Fragmented(fs) => if fs == [] || fs[0].fragment.None? then 0 else fs[0].fragment.value.parentId
  }

  ghost predicate GivenRightly(b: Book, rx: Log, c: u8, r: ReceivedMessage) {
    var p := Holder(r);
    Finished(b, rx, p) && b.posted[p].channel == c && r == DeliveryOf(b.posted[p], p)
  }

  ghost predicate Given(inbox: map<u8, seq<ReceivedMessage>>, w: Posted, p: u16)
    requires |w.payload| <= MAX_PAYLOAD
  {
    w.channel in inbox && DeliveryOf(w, p) in inbox[w.channel]
  }

  /** The inbox has what is finished, once each, and nothing else. */
  ghost predicate InboxExact(inbox: map<u8, seq<ReceivedMessage>>, b: Book, rx: Log) {
    && (forall c, k | c in inbox && 0 <= k < |inbox[c]| :: GivenRightly(b, rx, c, inbox[c][k]))
    && (forall c, j, k | c in inbox && 0 <= j < k < |inbox[c]| :: Holder(inbox[c][j]) != Holder(inbox[c][k]))
    && (forall p | Finished(b, rx, p) :: Given(inbox, b.posted[p], p))
  }

  ghost predicate Receiving(d: Dispatcher, cs: seq<Channel>, b: Book, rx: Log, tops: seq<int>) {
    && SeenTracks(cs, rx, tops)
    && Known(b, rx)
    && Assembling(d.inProgress, b, rx)
    && InboxExact(d.inbox, b, rx)
  }

  /** Only the logs of seen ids, the reassembler and the inbox matter. */
  lemma {:induction false} SeenSame(d: Dispatcher, d': Dispatcher, cs: seq<Channel>, cs': seq<Channel>, b: Book,
                                    rx: Log, tops: seq<int>)
    requires Receiving(d, cs, b, rx, tops)
    requires d'.inProgress == d.inProgress && d'.inbox == d.inbox
    requires |cs'| == |cs| && forall i | 0 <= i < |cs| :: cs'[i].seen == cs[i].seen
    ensures Receiving(d', cs', b, rx, tops)
  {
    hide Known, Assembling, InboxExact;
  }

  // -- one more message --

  ghost function Note(rx: Log, c: int, id: int): Log
    requires 0 <= c < |rx|
  {
    rx[c := rx[c][id := true]]
  }

  /** Taking in a message that is not part of `p` changes nothing for `p`. */
  lemma {:induction false} OthersStay(b: Book, rx: Log, m: Message, c: int, p: u16)
    requires WellKept(b) && InTable(b, m, c) && 0 <= c < |rx|
    requires p in b.posted && p != ParentOf(m)
    ensures |b.posted[p].payload| <= MAX_PAYLOAD
    ensures Have(b, Note(rx, c, m.id), p) == Have(b, rx, p)
    ensures Whole(b, Note(rx, c, m.id), p) <==> Whole(b, rx, p)
  {
    hide IsOutbound, Fits;
    var rx' := Note(rx, c, m.id);
    assert PostEntered(b, p);
    forall i | 0 <= i < IdsFor(b.posted[p].payload)
      ensures GotPart(b, rx', p, i) <==> GotPart(b, rx, p, i)
    {
      OnePosting(b, p, i);
    }
  }

  /** Taking in a message that is part of `p`. */
  lemma {:induction false} OwnGrows(b: Book, rx: Log, m: Message, c: int)
    requires WellKept(b) && InTable(b, m, c) && 0 <= c < |rx|
    ensures var p := ParentOf(m);
            && p in b.posted && |b.posted[p].payload| <= MAX_PAYLOAD
            && var i := m.id - p;
            && Have(b, Note(rx, c, m.id), p) == Have(b, rx, p) + {i}
            && (m.id !in rx[c] ==> !Whole(b, rx, p) && i !in Have(b, rx, p))
            && (m.fragment.None? ==> Whole(b, Note(rx, c, m.id), p))
  {
    hide IsOutbound, Fits, InboundOf, DeliveryOf, Parts, WellKept, NumFragments;
    EntryParent(b, m, c);
    var p := ParentOf(m);
    assert m.id !in rx[c] ==> !GotPart(b, rx, p, m.id - p);
    assert GotPart(b, Note(rx, c, m.id), p, m.id - p);
  }

  lemma {:induction false} WholeIffHave(b: Book, rx: Log, p: u16)
    requires p in b.posted && Sizeable(b.posted[p])
    ensures Whole(b, rx, p) <==> Have(b, rx, p) == AllIndices(NumFragments(|b.posted[p].payload|))
    ensures Have(b, rx, p) <= AllIndices(NumFragments(|b.posted[p].payload|))
  {
    var all := AllIndices(NumFragments(|b.posted[p].payload|));
    if Whole(b, rx, p) {
      forall i | i in all
        ensures i in Have(b, rx, p)
      {
        assert GotPart(b, rx, p, i);
      }
      assert Have(b, rx, p) == all;
    }
    if Have(b, rx, p) == all {
      forall i | 0 <= i < IdsFor(b.posted[p].payload)
        ensures GotPart(b, rx, p, i)
      {
        assert i in Have(b, rx, p);
      }
    }
  }

  /** The ids that the log of seen messages can tell apart from older and newer ones. */
  ghost predicate InWindow(id: int, top: int) {
    top - SEEN_CAPACITY < id < top + 32768 - SEEN_CAPACITY
  }

  /** Inside the window, an id is taken in exactly when it was not taken in before. */
  lemma {:induction false} AcceptIdExact(seen: Ring<bool>, top: int, m: map<int, bool>, id: u16)
    requires Tracks(seen, top, m) && seen.Capacity() == SEEN_CAPACITY && top < 65536
    requires InWindow(id, top)
    ensures var (seen', accepted) := AcceptId(seen, id);
            && (accepted <==> id !in m)
            && seen'.Capacity() == SEEN_CAPACITY
            && Tracks(seen', if top < id then id else top, m[id := if id in m then m[id] else true])
  {
    hide Wrap, WrapSub, Sound, SequenceWindow.Complete, SequenceGreaterThan;
    WrapSmall(id);
    assert seen.sequence == Wrap(top) && Aligned(SEEN_CAPACITY, id) by {
      SoundTop(seen, top, m);
    }
    GuardExact(seen, top, id);
    GetExact(seen, top, m, id);
    if id !in m {
      InsertTracks(seen, top, m, id, true, false);
    } else {
      assert m[id := m[id]] == m;
      SoundTop(seen, top, m);
    }
  }

  lemma {:induction false} SoundTop<T>(r: Ring<T>, top: int, m: map<int, T>)
    requires Sound(r, top, m)
    ensures r.Valid() && r.sequence == Wrap(top)
    ensures forall id: int | 0 <= id < 65536 :: Aligned(r.Capacity(), id)
    ensures forall id | id in m :: id <= top
  {
  }

  /** What is done with a message that was taken in. */
  lemma {:induction false} ProcessKeeps(d: Dispatcher, b: Book, rx: Log, m: Message, c: u8)
    requires WellKept(b) && InTable(b, m, c) && IsOutbound(m) && c < |rx| && m.id !in rx[c]
    requires Assembling(d.inProgress, b, rx) && InboxExact(d.inbox, b, rx)
    ensures var d' := ProcessReceived(d, InboundOf(m)).0;
            && d' == d.(inProgress := d'.inProgress, inbox := d'.inbox)
            && Assembling(d'.inProgress, b, Note(rx, c, m.id))
            && InboxExact(d'.inbox, b, Note(rx, c, m.id))
  {
    hide InboundOf, IsOutbound, Fits, InboxExact, DeliveryOf, Whole, PlaceFragment, Note, WellKept, AssemblingOne;
    EntryParent(b, m, c);
    OwnGrows(b, rx, m, c);
    var p := ParentOf(m);
    if m.fragment.None? {
      DeliveryChannel(b.posted[p], p);
      AssemblingOthers(d.inProgress, d.inProgress, b, rx, m, c);
      PushExact(d.inbox, b, rx, m, c);
    } else {
      var out := PlacePart(d.inProgress, b, rx, m, c);
      if out.Some? {
        DeliveryChannel(b.posted[p], p);
        PushExact(d.inbox, b, rx, m, c);
      } else {
        InboxStays(d.inbox, b, rx, m, c);
      }
    }
  }

  lemma {:induction false} AssemblingOthers(ip: InProgress, ip': InProgress, b: Book, rx: Log, m: Message, c: int)
    requires WellKept(b) && InTable(b, m, c) && 0 <= c < |rx|
    requires Assembling(ip, b, rx)
    requires forall q | q != ParentOf(m) :: (q in ip' <==> q in ip) && (q in ip ==> ip'[q] == ip[q])
    requires var p := ParentOf(m);
             && p in b.posted
             && (p in ip' ==> b.posted[p].Big())
             && (Sizeable(b.posted[p]) ==> AssemblingOne(ip', b, Note(rx, c, m.id), p))
    ensures Assembling(ip', b, Note(rx, c, m.id))
  {
    hide Have, Whole, WellKept, Note, Parts, AllIndices;
    forall q | q in b.posted && Sizeable(b.posted[q])
      ensures AssemblingOne(ip', b, Note(rx, c, m.id), q)
    {
      if q != ParentOf(m) {
        OthersStay(b, rx, m, c, q);
        assert AssemblingOne(ip, b, rx, q);
      }
    }
  }

  /** A fragment not taken in before: it completes its message exactly when all the others had
      been taken in. */
  lemma {:induction false} PlacePart(ip: InProgress, b: Book, rx: Log, m: Message, c: int)
    returns (out: Option<ReceivedMessage>)
    requires WellKept(b) && InTable(b, m, c) && 0 <= c < |rx| && m.id !in rx[c]
    requires Assembling(ip, b, rx) && m.fragment.Some? && IsOutbound(m)
    ensures out == PlaceFragment(ip, InboundOf(m)).1
    ensures Assembling(PlaceFragment(ip, InboundOf(m)).0, b, Note(rx, c, m.id))
    ensures var p := ParentOf(m);
            && p in b.posted && |b.posted[p].payload| <= MAX_PAYLOAD
            && (out.Some? <==> Whole(b, Note(rx, c, m.id), p))
            && (out.Some? ==> out.value == DeliveryOf(b.posted[p], p))
  {
    hide PlaceFragment, InboundOf, IsOutbound, Fits, Parts, WellKept, Note, Have, Whole, AllIndices, FragmentsOf, Holds;
    var p := ParentOf(m);
    EntryParent(b, m, c);
    OwnGrows(b, rx, m, c);
    var w, i := b.posted[p], m.fragment.value.index;
    var rx' := Note(rx, c, m.id);
    assert AssemblingOne(ip, b, rx, p);
    PartsAre(w, p);
    PlaceOwn(ip, p, Parts(w, p), Have(b, rx, p), i);
    WholeIffHave(b, rx', p);
    var ip' := PlaceFragment(ip, InboundOf(m)).0;
    out := PlaceFragment(ip, InboundOf(m)).1;
    if Whole(b, rx', p) {
      NothingHeld(ip', p, Parts(w, p));
    }
    AssemblingOthers(ip, ip', b, rx, m, c);
  }

  lemma {:induction false} NothingHeld(ip: InProgress, p: u16, fs: seq<Message>)
    requires |fs| < 65536 && Holds(ip, p, fs, {})
    ensures p !in ip
  {
  }

  lemma {:induction false} FinishedAfter(b: Book, rx: Log, m: Message, c: int, p: u16)
    requires WellKept(b) && InTable(b, m, c) && 0 <= c < |rx|
    ensures Finished(b, rx, p) ==> Finished(b, Note(rx, c, m.id), p)
    ensures p != ParentOf(m) ==> (Finished(b, Note(rx, c, m.id), p) <==> Finished(b, rx, p))
  {
    if p in b.posted && p != ParentOf(m) {
      OthersStay(b, rx, m, c, p);
    } else if Finished(b, rx, p) {
      forall i | 0 <= i < IdsFor(b.posted[p].payload)
        ensures GotPart(b, Note(rx, c, m.id), p, i)
      {
        assert GotPart(b, rx, p, i);
      }
    }
  }

  /** A message that does not finish anything leaves the inbox right. */
  lemma {:induction false} InboxStays(inbox: map<u8, seq<ReceivedMessage>>, b: Book, rx: Log, m: Message, c: int)
    requires WellKept(b) && InTable(b, m, c) && 0 <= c < |rx|
    requires InboxExact(inbox, b, rx)
    requires !Finished(b, Note(rx, c, m.id), ParentOf(m))
    ensures InboxExact(inbox, b, Note(rx, c, m.id))
  {
    hide Finished, WellKept, Note, DeliveryOf;
    var rx' := Note(rx, c, m.id);
    forall c', k | c' in inbox && 0 <= k < |inbox[c']|
      ensures GivenRightly(b, rx', c', inbox[c'][k])
    {
      assert GivenRightly(b, rx, c', inbox[c'][k]);
      FinishedAfter(b, rx, m, c, Holder(inbox[c'][k]));
    }
    forall p | Finished(b, rx', p)
      ensures p in b.posted && |b.posted[p].payload| <= MAX_PAYLOAD && Given(inbox, b.posted[p], p)
    {
      FinishedAfter(b, rx, m, c, p);
    }
  }

  lemma {:induction false} PushAt<T>(inbox: map<u8, seq<T>>, c: u8, x: T)
    ensures var inbox' := Push(inbox, c, x);
            && c in inbox'
            && inbox'[c] == (if c in inbox then inbox[c] + [x] else [x])
            && (forall k | 0 <= k < |inbox'[c]| - 1 :: c in inbox && k < |inbox[c]| && inbox'[c][k] == inbox[c][k])
            && inbox'[c][|inbox'[c]| - 1] == x
            && (forall c' | c' != c :: (c' in inbox' <==> c' in inbox) && (c' in inbox ==> inbox'[c'] == inbox[c']))
            && (forall y | c in inbox && y in inbox[c] :: y in inbox'[c])
  {
  }

  lemma {:induction false} HolderOf(w: Posted, p: u16)
    requires |w.payload| <= MAX_PAYLOAD
    ensures Holder(DeliveryOf(w, p)) == p
  {
    if w.Big() {
      SplitArithmetic(|w.payload|, 0);
    }
  }

  /** A message that finishes its posting puts it into the inbox. */
  lemma {:induction false} PushExact(inbox: map<u8, seq<ReceivedMessage>>, b: Book, rx: Log, m: Message, c: u8)
    requires WellKept(b) && InTable(b, m, c) && c < |rx|
    requires InboxExact(inbox, b, rx)
    requires Finished(b, Note(rx, c, m.id), ParentOf(m)) && !Finished(b, rx, ParentOf(m))
    ensures var p := ParentOf(m);
            && p in b.posted && |b.posted[p].payload| <= MAX_PAYLOAD
            && InboxExact(Push(inbox, c, DeliveryOf(b.posted[p], p)), b, Note(rx, c, m.id))
  {
    hide WellKept, Note, DeliveryOf, Whole, Holder, IsOutbound, InboundOf, Fits, Push, Parts, Got;
    var p, rx' := ParentOf(m), Note(rx, c, m.id);
    EntryParent(b, m, c);
    HolderOf(b.posted[p], p);
    var r := DeliveryOf(b.posted[p], p);
    var inbox' := Push(inbox, c, r);
    PushAt(inbox, c, r);
    forall c', k | c' in inbox' && 0 <= k < |inbox'[c']|
      ensures GivenRightly(b, rx', c', inbox'[c'][k])
      ensures inbox'[c'][k] == r || GivenRightly(b, rx, c', inbox'[c'][k])
    {
      if c' != c || k < |inbox'[c]| - 1 {
        assert GivenRightly(b, rx, c', inbox[c'][k]);
        FinishedAfter(b, rx, m, c, Holder(inbox[c'][k]));
      }
    }
    PushDistinct(inbox, c, r, b, rx);
    forall q | Finished(b, rx', q)
      ensures Given(inbox', b.posted[q], q)
    {
      FinishedAfter(b, rx, m, c, q);
    }
  }

  lemma {:induction false} PushDistinct(inbox: map<u8, seq<ReceivedMessage>>, c: u8, r: ReceivedMessage, b: Book,
                                        rx: Log)
    requires InboxExact(inbox, b, rx)
    requires !Finished(b, rx, Holder(r))
    ensures var inbox' := Push(inbox, c, r);
            forall c', j, k | c' in inbox' && 0 <= j < k < |inbox'[c']| ::
                Holder(inbox'[c'][j]) != Holder(inbox'[c'][k])
  {
    hide DeliveryOf, Finished, Holder, Push, Given;
    var inbox' := Push(inbox, c, r);
    PushAt(inbox, c, r);
    forall c', j, k | c' in inbox' && 0 <= j < k < |inbox'[c']|
      ensures Holder(inbox'[c'][j]) != Holder(inbox'[c'][k])
    {
      if c' == c && k == |inbox'[c]| - 1 {
        assert GivenRightly(b, rx, c, inbox[c][j]);
      }
    }
  }

  // -- a whole packet of messages --

  ghost function Newest(tops: seq<int>, c: int, id: int): seq<int>
    requires 0 <= c < |tops|
  {
    tops[c := if tops[c] < id then id else tops[c]]
  }

  ghost predicate OnlySeen(cs: seq<Channel>, cs': seq<Channel>) {
    |cs'| == |cs| && forall i | 0 <= i < |cs| :: cs'[i] == cs[i].(seen := cs'[i].seen)
  }

  lemma {:induction false} NoteAgain(b: Book, rx: Log, c: int, id: int)
    requires Known(b, rx) && Got(rx, c, id)
    ensures Note(rx, c, id) == rx
  {
    assert KnownId(b, rx, c, id);
    assert rx[c][id := true] == rx[c];
  }

  lemma {:induction false} NoteKnown(b: Book, rx: Log, m: Message, c: int)
    requires Known(b, rx) && InTable(b, m, c) && 0 <= c < |rx|
    ensures Known(b, Note(rx, c, m.id))
  {
    var rx' := Note(rx, c, m.id);
    forall c', id | 0 <= c' < |rx'| && id in rx'[c']
      ensures KnownId(b, rx', c', id)
    {
      if c' != c || id != m.id {
        assert KnownId(b, rx, c', id);
      }
    }
  }

  lemma {:induction false} SeenGrows(cs: seq<Channel>, rx: Log, tops: seq<int>, c: int, id: u16)
    requires SeenTracks(cs, rx, tops) && 0 <= c < |cs|
    requires InWindow(id, tops[c])
    requires id in rx[c] ==> rx[c][id]
    ensures var (seen', accepted) := AcceptId(cs[c].seen, id);
            && (accepted <==> !Got(rx, c, id))
            && SeenTracks(cs[c := cs[c].(seen := seen')], Note(rx, c, id), Newest(tops, c, id))
  {
    hide Tracks, AcceptId;
    AcceptIdExact(cs[c].seen, tops[c], rx[c], id);
  }

  /** A message that arrives: it is handed on exactly when its id was not taken in before. */
  lemma {:induction false} ReceiveOneKeeps(d: Dispatcher, cs: seq<Channel>, b: Book, rx: Log, tops: seq<int>,
                                           m: Message, c: int)
    requires WellKept(b) && GoodChannels(cs) && Numbered(cs)
    requires Receiving(d, cs, b, rx, tops)
    requires InTable(b, m, c) && IsOutbound(m) && 0 <= c < |cs| && InWindow(m.id, tops[c])
    ensures var (d', cs', _) := ReceiveOne(d, cs, InboundOf(m));
            && Receiving(d', cs', b, Note(rx, c, m.id), Newest(tops, c, m.id))
            && OnlySeen(cs, cs') && GoodChannels(cs')
            && d' == d.(inProgress := d'.inProgress, inbox := d'.inbox)
  {
    hide Assembling, InboxExact, IsOutbound, Fits, WellKept, Known, SeenTracks, AcceptId, ProcessReceived, Note, Newest,
      InWindow, GoodChannel;
    EntryParent(b, m, c);
    var x := InboundOf(m);
    IndexOfNumbered(cs, x.channel);
    ReceiveOneGood(d, cs, x);
    SeenLength(cs, rx, tops);
    if Got(rx, c, m.id) {
      NoteAgain(b, rx, c, m.id);
      KnownTrue(b, rx, c, m.id);
    } else {
      ProcessKeeps(d, b, rx, m, c);
    }
    SeenGrows(cs, rx, tops, c, m.id);
    NoteKnown(b, rx, m, c);
  }

  lemma {:induction false} SeenLength(cs: seq<Channel>, rx: Log, tops: seq<int>)
    requires SeenTracks(cs, rx, tops)
    ensures |rx| == |tops| == |cs|
  {
  }

  lemma {:induction false} KnownTrue(b: Book, rx: Log, c: int, id: int)
    requires Known(b, rx) && Got(rx, c, id)
    ensures rx[c][id]
  {
    assert KnownId(b, rx, c, id);
  }

  /** Every message is within reach of its channel's log when its turn comes. */
  ghost predicate Windowed(tops: seq<int>, ms: seq<Message>)
    decreases |ms|
  {
    ms == [] ||
    (ms[0].channel < |tops| && InWindow(ms[0].id, tops[ms[0].channel])
     && Windowed(Newest(tops, ms[0].channel, ms[0].id), ms[1..]))
  }

  ghost predicate MessagesKept(b: Book, ms: seq<Message>) {
    forall k | 0 <= k < |ms| :: InTable(b, ms[k], ms[k].channel)
  }

  ghost function NoteAll(rx: Log, ms: seq<Message>): Log
    decreases |ms|
  {
    if ms == [] then rx
    else if ms[0].channel < |rx| then NoteAll(Note(rx, ms[0].channel, ms[0].id), ms[1..])
    else NoteAll(rx, ms[1..])
  }

  ghost function NewestAll(tops: seq<int>, ms: seq<Message>): seq<int>
    decreases |ms|
  {
    if ms == [] then tops
    else if ms[0].channel < |tops| then NewestAll(Newest(tops, ms[0].channel, ms[0].id), ms[1..])
    else NewestAll(tops, ms[1..])
  }

  lemma {:induction false} NoteAllGot(rx: Log, ms: seq<Message>)
    ensures |NoteAll(rx, ms)| == |rx|
    ensures forall c, id | Got(rx, c, id) :: Got(NoteAll(rx, ms), c, id)
    ensures forall k | 0 <= k < |ms| && ms[k].channel < |rx| :: Got(NoteAll(rx, ms), ms[k].channel, ms[k].id)
    decreases |ms|
  {
    if ms != [] {
      var rx' := if ms[0].channel < |rx| then Note(rx, ms[0].channel, ms[0].id) else rx;
      assert forall c, id | Got(rx, c, id) :: Got(rx', c, id);
      NoteAllGot(rx', ms[1..]);
      forall k | 0 <= k < |ms| && ms[k].channel < |rx|
        ensures Got(NoteAll(rx, ms), ms[k].channel, ms[k].id)
      {
        if k > 0 {
          assert ms[k] == ms[1..][k - 1];
        } else {
          assert Got(rx', ms[0].channel, ms[0].id);
        }
      }
    }
  }

  lemma {:induction false} InboundCons(ms: seq<Message>)
    requires ms != [] && AllOutbound(ms)
    ensures IsOutbound(ms[0]) && AllOutbound(ms[1..])
    ensures InboundAll(ms) != [] && InboundAll(ms)[0] == InboundOf(ms[0]) && InboundAll(ms)[1..] == InboundAll(ms[1..])
  {
  }

  lemma {:induction false} OnlySeenNumbered(cs: seq<Channel>, cs': seq<Channel>)
    requires OnlySeen(cs, cs') && Numbered(cs)
    ensures Numbered(cs')
  {
  }

  lemma {:induction false} OnlySeenTransitive(a: seq<Channel>, b: seq<Channel>, c: seq<Channel>)
    requires OnlySeen(a, b) && OnlySeen(b, c)
    ensures OnlySeen(a, c)
  {
    forall i | 0 <= i < |a|
      ensures c[i] == a[i].(seen := c[i].seen)
    {
      assert b[i] == a[i].(seen := b[i].seen) && c[i] == b[i].(seen := c[i].seen);
    }
  }

  lemma {:induction false} ReceiveAllKeeps(d: Dispatcher, cs: seq<Channel>, b: Book, rx: Log, tops: seq<int>,
                                           ms: seq<Message>)
    requires WellKept(b) && GoodChannels(cs) && Numbered(cs)
    requires Receiving(d, cs, b, rx, tops)
    requires MessagesKept(b, ms) && AllOutbound(ms) && Windowed(tops, ms)
    ensures var (d', cs', _) := ReceiveAll(d, cs, InboundAll(ms));
            && Receiving(d', cs', b, NoteAll(rx, ms), NewestAll(tops, ms))
            && OnlySeen(cs, cs') && GoodChannels(cs')
            && d' == d.(inProgress := d'.inProgress, inbox := d'.inbox)
    decreases |ms|
  {
    hide Assembling, InboxExact, IsOutbound, Fits, WellKept, Known, SeenTracks, ReceiveOne, Note, Newest, InWindow,
      GoodChannel, InboundOf, AllOutbound, OnlySeen, Numbered;
    SeenLength(cs, rx, tops);
    if ms != [] {
      InboundCons(ms);
      var m := ms[0];
      assert InTable(b, m, m.channel);
      ReceiveOneKeeps(d, cs, b, rx, tops, m, m.channel);
      var r := ReceiveOne(d, cs, InboundOf(m));
      OnlySeenNumbered(cs, r.1);
      ReceiveAllKeeps(r.0, r.1, b, Note(rx, m.channel, m.id), Newest(tops, m.channel, m.id), ms[1..]);
      OnlySeenTransitive(cs, r.1, ReceiveAll(r.0, r.1, InboundAll(ms[1..])).1);
    } else {
      OnlySeenSelf(cs);
    }
  }

  lemma {:induction false} OnlySeenSelf(cs: seq<Channel>)
    ensures OnlySeen(cs, cs)
  {
  }

  // -- when the sender posts --

  lemma {:induction false} PostFresh(b: Book, rx: Log, channel: u8, payload: bytes)
    requires WellKept(b) && Postable(b, channel, payload) && Known(b, rx)
    ensures var b' := AfterPost(b, channel, payload);
            && b.next in b'.posted && b'.posted[b.next] == Posted(channel, payload) && b.next !in b.posted
            && !Whole(b', rx, b.next) && Have(b', rx, b.next) == {}
  {
    hide AfterPost, Entry, PostEntered;
    var b' := AfterPost(b, channel, payload);
    PostBook(b, channel, payload);
    PostKeeps(b, channel, payload);
    forall i | 0 <= i < IdsFor(payload)
      ensures !GotPart(b', rx, b.next, i)
    {
      if GotPart(b', rx, b.next, i) {
        assert KnownId(b, rx, channel, b.next + i);
        PostedAt(b, channel, payload, b.next + i);
      }
    }
    assert !GotPart(b', rx, b.next, 0);
  }

  lemma {:induction false} PostOther(b: Book, rx: Log, channel: u8, payload: bytes, p: u16)
    requires WellKept(b) && Postable(b, channel, payload) && p in b.posted
    ensures var b' := AfterPost(b, channel, payload);
            && |b.posted[p].payload| <= MAX_PAYLOAD
            && p in b'.posted && b'.posted[p] == b.posted[p]
            && Have(b', rx, p) == Have(b, rx, p) && (Whole(b', rx, p) <==> Whole(b, rx, p))
            && (Finished(b', rx, p) <==> Finished(b, rx, p))
  {
    hide AfterPost, Entry;
    assert PostEntered(b, p);
    var b' := AfterPost(b, channel, payload);
    PostBook(b, channel, payload);
    PostKeeps(b, channel, payload);
    assert forall i :: GotPart(b', rx, p, i) <==> GotPart(b, rx, p, i);
  }

  lemma {:induction false} PostInTable(b: Book, channel: u8, payload: bytes, m: Message, c: int)
    requires WellKept(b) && Postable(b, channel, payload) && InTable(b, m, c)
    ensures InTable(AfterPost(b, channel, payload), m, c)
  {
    hide AfterPost;
    PostedAt(b, channel, payload, m.id);
  }

  lemma {:induction false} PostKnown(b: Book, rx: Log, channel: u8, payload: bytes)
    requires WellKept(b) && Postable(b, channel, payload) && Known(b, rx)
    ensures Known(AfterPost(b, channel, payload), rx)
  {
    hide AfterPost;
    forall c, id | 0 <= c < |rx| && id in rx[c]
      ensures KnownId(AfterPost(b, channel, payload), rx, c, id)
    {
      assert KnownId(b, rx, c, id);
      PostedAt(b, channel, payload, id);
    }
  }

  lemma {:induction false} PostAssembling(ip: InProgress, b: Book, rx: Log, channel: u8, payload: bytes)
    requires WellKept(b) && Postable(b, channel, payload) && Known(b, rx)
    requires Assembling(ip, b, rx)
    ensures Assembling(ip, AfterPost(b, channel, payload), rx)
  {
    hide AfterPost, Have, Whole, WellKept, Parts, Known;
    var b' := AfterPost(b, channel, payload);
    PostBook(b, channel, payload);
    PostFresh(b, rx, channel, payload);
    forall p | p in b'.posted && Sizeable(b'.posted[p])
      ensures AssemblingOne(ip, b', rx, p)
    {
      if p in b.posted {
        PostOther(b, rx, channel, payload, p);
        assert AssemblingOne(ip, b, rx, p);
      } else {
        SplitArithmetic(|payload|, 0);
        assert 0 in AllIndices(NumFragments(|payload|));
      }
    }
    forall p | p in ip
      ensures p in b'.posted && b'.posted[p].Big()
    {
      PostOther(b, rx, channel, payload, p);
    }
  }

  lemma {:induction false} PostInbox(inbox: map<u8, seq<ReceivedMessage>>, b: Book, rx: Log, channel: u8,
                                     payload: bytes)
    requires WellKept(b) && Postable(b, channel, payload) && Known(b, rx)
    requires InboxExact(inbox, b, rx)
    ensures InboxExact(inbox, AfterPost(b, channel, payload), rx)
  {
    hide AfterPost, Whole, WellKept, DeliveryOf, Known;
    var b' := AfterPost(b, channel, payload);
    PostBook(b, channel, payload);
    PostFresh(b, rx, channel, payload);
    forall c, k | c in inbox && 0 <= k < |inbox[c]|
      ensures GivenRightly(b', rx, c, inbox[c][k])
    {
      assert GivenRightly(b, rx, c, inbox[c][k]);
      PostOther(b, rx, channel, payload, Holder(inbox[c][k]));
    }
    forall p | Finished(b', rx, p)
      ensures Given(inbox, b'.posted[p], p)
    {
      if p in b.posted {
        PostOther(b, rx, channel, payload, p);
      }
    }
  }

  /** Posting more leaves the receiver's state right. */
  lemma {:induction false} PostReceiving(d: Dispatcher, cs: seq<Channel>, b: Book, rx: Log, tops: seq<int>, channel: u8,
                                         payload: bytes)
    requires WellKept(b) && Postable(b, channel, payload)
    requires Receiving(d, cs, b, rx, tops)
    ensures Receiving(d, cs, AfterPost(b, channel, payload), rx, tops)
  {
    hide AfterPost, Known, Assembling, InboxExact, SeenTracks, WellKept;
    PostKnown(b, rx, channel, payload);
    PostAssembling(d.inProgress, b, rx, channel, payload);
    PostInbox(d.inbox, b, rx, channel, payload);
  }
}
