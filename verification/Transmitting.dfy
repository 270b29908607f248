/** Packets going out: what composing a packet does to the queues and to the record of messages. */
module Transmitting {
  import opened Words
  import opened Messages
  import opened Channels
  import opened Endpoints
  import opened MessageBooks
  import opened Deliveries
  import opened Acknowledging
  import opened Composing

  // -- handles --

  lemma {:induction false} HandlesForAppend(a: seq<Message>, b: seq<Message>)
    ensures HandlesFor(a + b) == HandlesFor(a) + HandlesFor(b)
  {
    if a == [] {
      assert a + b == b;
    } else {
      assert (a + b)[1..] == a[1..] + b;
      HandlesForAppend(a[1..], b);
    }
  }

  lemma {:induction false} HandlesOfChannel(ms: seq<Message>, c: u8)
    requires forall k | 0 <= k < |ms| :: ms[k].channel == c
    ensures HandlesOf(ms, c) == HandlesFor(ms)
  {
    if ms != [] {
      HandlesOfChannel(ms[1..], c);
    }
  }

  // -- filling a packet --

  /** The load carries messages that were sent, with their handles. */
  ghost predicate LoadKept(b: Book, load: Load) {
    && MessagesKept(b, load.messages)
    && load.handles == HandlesFor(load.messages)
  }

  lemma {:induction false} AddKept(b: Book, load: Load, ms: seq<Message>, c: u8)
    requires LoadKept(b, load) && ms != [] && QueueKept(b, ms, c)
    ensures LoadKept(b, load.Add(ms, c))
  {
    HandlesOfChannel(ms, c);
    if load.messages != [] {
      HandlesForAppend(load.messages, ms);
    }
    var l := load.Add(ms, c);
    forall k | 0 <= k < |l.messages|
      ensures InTable(b, l.messages[k], l.messages[k].channel)
    {
      if load.messages == [] || k >= |load.messages| {
        assert InTable(b, ms[k - |load.messages|], c);
      }
    }
  }

  lemma {:induction false} WrittenKept(b: Book, c: Channel, room: nat)
    requires GoodChannel(c) && QueueKept(b, Queued(c), c.id)
    ensures QueueKept(b, WriteChannel(c, room).1, c.id)
  {
    hide Queued, WriteChannel;
    var ms := WriteChannel(c, room).1;
    forall j | 0 <= j < |ms|
      ensures InTable(b, ms[j], c.id)
    {
      assert ms[j] in ms;
      WriteChannelFromQueue(c, room, ms[j]);
    }
  }

  lemma {:induction false} ShrinksKept(b: Book, c: Channel, c': Channel)
    requires Shrinks(c, c') && QueuedOnce(b, c)
    ensures QueuedOnce(b, c')
  {
    if c.Unreliable? {
      SubQueue(b, Queued(c), Queued(c'), c.id);
    }
  }

  // -- what is due --

  lemma {:induction false} ReadyOfQueued(pending: seq<Resendable>, now: real, cutoff: real)
    ensures multiset(ReadyOf(pending, now, cutoff)) <= multiset(MessagesOf(pending))
  {
    if pending != [] {
      var m, ready, rest := pending[0].message, ReadyOf(pending[1..], now, cutoff), MessagesOf(pending[1..]);
      ReadyOfQueued(pending[1..], now, cutoff);
      assert multiset([m] + rest) == multiset{m} + multiset(rest);
      assert multiset([m] + ready) == multiset{m} + multiset(ready);
    }
  }

  lemma {:induction false} ReadyQueued(c: Channel)
    ensures multiset(ReadyMessages(c)) <= multiset(Queued(c))
  {
    if c.Reliable? {
      ReadyOfQueued(c.pending, c.time, c.resendTime);
    }
  }

  /** A message can be due only on its own channel. */
  lemma {:induction false} DueAtFrom(b: Book, cs: seq<Channel>, k: nat, m: Message)
    requires forall i | 0 <= i < |cs| :: cs[i].id == i + k && QueueKept(b, Queued(cs[i]), cs[i].id)
    ensures Due(cs)[m] == if k <= m.channel < k + |cs| then multiset(ReadyMessages(cs[m.channel - k]))[m] else 0
    decreases |cs|
  {
    hide Queued, ReadyMessages;
    if cs != [] {
      var rest := cs[1..];
      forall i | 0 <= i < |rest|
        ensures rest[i].id == i + (k + 1) && QueueKept(b, Queued(rest[i]), rest[i].id)
      {
        assert rest[i] == cs[i + 1];
      }
      DueAtFrom(b, rest, k + 1, m);
      ReadyQueued(cs[0]);
      if m in multiset(ReadyMessages(cs[0])) {
        assert m in multiset(Queued(cs[0]));
        assert InTable(b, m, k);
      }
    }
  }

  lemma {:induction false} DueAt(b: Book, cs: seq<Channel>, m: Message)
    requires Numbered(cs) && QueuesOnce(b, cs)
    ensures Due(cs)[m] == if m.channel < |cs| then multiset(ReadyMessages(cs[m.channel]))[m] else 0
    ensures Due(cs)[m] <= 1 && (m in Due(cs) ==> m.channel < |cs| && m in Queued(cs[m.channel]))
  {
    hide Queued, ReadyMessages, Due;
    forall i | 0 <= i < |cs|
      ensures cs[i].id == i && QueueKept(b, Queued(cs[i]), cs[i].id)
    {
      assert QueuedOnce(b, cs[i]);
    }
    DueAtFrom(b, cs, 0, m);
    if m.channel < |cs| {
      var c := cs[m.channel];
      assert QueuedOnce(b, c);
      ReadyQueued(c);
      if m in multiset(ReadyMessages(c)) {
        assert m in multiset(Queued(c));
        assert m in Queued(c);
      }
    }
  }

  // -- what is sent is stamped --

  /** A reliable channel has noted that `m` was sent just now. */
  ghost predicate Stamped(c: Channel, m: Message) {
    c.Reliable? ==> forall r | r in c.pending && r.message == m :: r.lastSent == Some(c.time)
  }

  lemma {:induction false} TwiceCounts(ms: seq<Message>, lo: nat, hi: nat)
    requires lo < hi < |ms| && ms[lo] == ms[hi]
    ensures multiset(ms)[ms[lo]] >= 2
  {
    assert ms == ms[..lo] + [ms[lo]] + ms[lo + 1..hi] + [ms[hi]] + ms[hi + 1..];
    assert multiset(ms) ==
           multiset(ms[..lo]) + multiset{ms[lo]} + multiset(ms[lo + 1..hi]) + multiset{ms[hi]} + multiset(ms[hi + 1..]);
  }

  lemma {:induction false} OneIndex(ms: seq<Message>, k: nat)
    requires k < |ms| && multiset(ms)[ms[k]] == 1
    ensures forall j | 0 <= j < |ms| && ms[j] == ms[k] :: j == k
  {
    forall j | 0 <= j < |ms| && ms[j] == ms[k]
      ensures j == k
    {
      if j < k {
        TwiceCounts(ms, j, k);
      } else if k < j {
        TwiceCounts(ms, k, j);
      }
    }
  }

  lemma {:induction false} OneEntry(pending: seq<Resendable>, i: nat, j: nat)
    requires i < |pending| && j < |pending| && pending[i].message == pending[j].message
    requires Once(MessagesOf(pending))
    ensures i == j
  {
    MessagesOfAt(pending, i);
    MessagesOfAt(pending, j);
    OneIndex(MessagesOf(pending), i);
  }

  lemma {:induction false} TakeStamps(c: Channel, room: nat, x: Message)
    requires Once(Queued(c))
    requires Stamped(c, x) || Take(c, room).1 == Some(x)
    ensures Stamped(Take(c, room).0, x)
  {
    var i := TakesFirst(c, room);
    if c.Reliable? && i < |c.pending| {
      var c' := Take(c, room).0;
      forall r | r in c'.pending && r.message == x
        ensures r.lastSent == Some(c'.time)
      {
        var j :| 0 <= j < |c'.pending| && c'.pending[j] == r;
        if j != i {
          if c.pending[i].message == x {
            OneEntry(c.pending, i, j);
          }
          assert c.pending[j] in c.pending;
        }
      }
    }
  }

  lemma {:induction false} WriteStamps(b: Book, c: Channel, room: nat, x: Message)
    requires GoodChannel(c) && QueuedOnce(b, c)
    requires Stamped(c, x) || x in WriteChannel(c, room).1
    ensures Stamped(WriteChannel(c, room).0, x)
    decreases ReadyCount(c)
  {
    hide Stamped, Take, ReadyCount, Queued, Once, QueueKept, Shrinks;
    var c', m, left := WriteChannelStep(c, room);
    if m.Some? {
      OnceOf(b, c);
      ShrinksKept(b, c, c');
      if Stamped(c, x) || m.value == x {
        TakeStamps(c, room, x);
      }
      WriteStamps(b, c', left, x);
    }
  }

  lemma {:induction false} OnceOf(b: Book, c: Channel)
    requires QueuedOnce(b, c)
    ensures Once(Queued(c))
  {
  }

  ghost predicate AllStamped(cs: seq<Channel>, x: Message) {
    forall i | 0 <= i < |cs| :: Stamped(cs[i], x)
  }

  lemma {:induction false} OtherStamped(b: Book, c: Channel, x: Message)
    requires QueuedOnce(b, c) && x.channel != c.id
    ensures Stamped(c, x)
  {
    if c.Reliable? {
      forall r | r in c.pending
        ensures r.message.channel == c.id
      {
        var i :| 0 <= i < |c.pending| && c.pending[i] == r;
        MessagesOfAt(c.pending, i);
        assert InTable(b, Queued(c)[i], c.id);
      }
    }
  }

  /** Whatever a packet is filled with is noted as sent now. */
  lemma {:induction false} FillStamps(b: Book, cs: seq<Channel>, room: nat, load: Load, x: Message)
    requires GoodChannels(cs) && Numbered(cs) && QueuesOnce(b, cs)
    requires AllStamped(cs, x) || (x in Fill(cs, room, load).1.messages && x !in load.messages)
    ensures AllStamped(Fill(cs, room, load).0, x)
    decreases TotalReady(cs)
  {
    hide Fill, WriteChannel, QueuedOnce, GoodChannel, Shrinks, Take, Stamped;
    var i, c, ms, left := FillTurn(cs, room, load);
    if ms != [] {
      assert QueuedOnce(b, cs[i]) && GoodChannel(cs[i]);
      UpdateKeepsQueues(b, cs, i, c);
      LoadGrows(load, ms, c.id, x);
      if AllStamped(cs, x) || x in ms {
        WriteStamps(b, cs[i], room, x);
        var cs' := cs[i := c];
        forall j | 0 <= j < |cs'|
          ensures Stamped(cs'[j], x)
        {
          if j != i && !AllStamped(cs, x) {
            QueuedOnceKept(b, cs[i]);
            WrittenKept(b, cs[i], room);
            WrittenHere(b, ms, cs[i].id, x);
            assert QueuedOnce(b, cs[j]);
            OtherStamped(b, cs[j], x);
          }
        }
      }
      if left >= 3 {
        FillStamps(b, cs[i := c], left, load.Add(ms, c.id), x);
      }
    }
  }

  lemma {:induction false} LoadGrows(load: Load, ms: seq<Message>, c: u8, x: Message)
    ensures x in load.Add(ms, c).messages <==> x in load.messages || x in ms
  {
  }

  lemma {:induction false} WrittenHere(b: Book, ms: seq<Message>, c: int, x: Message)
    requires QueueKept(b, ms, c) && x in ms
    ensures x.channel == c
  {
    var k :| 0 <= k < |ms| && ms[k] == x;
    assert InTable(b, ms[k], c);
  }

  /** What goes into a packet was due, goes into it once, and leaves an unreliable queue; a reliable
      queue notes that it is sent now. */
  ghost predicate Moved(cs: seq<Channel>, cs': seq<Channel>, ms: seq<Message>) {
    && Once(ms)
    && (forall m | m in ms :: m.channel < |cs| == |cs'| && m in Queued(cs[m.channel]) &&
          (cs[m.channel].Unreliable? ==> m !in Queued(cs'[m.channel])))
    && (forall m | m in ms :: m.channel < |cs| == |cs'| && m in ReadyMessages(cs[m.channel]) &&
          Stamped(cs'[m.channel], m))
  }

  lemma {:induction false} FillMoves(b: Book, cs: seq<Channel>, room: nat)
    requires GoodChannels(cs) && Numbered(cs) && QueuesOnce(b, cs)
    ensures Moved(cs, Fill(cs, room, Load([], [])).0, Fill(cs, room, Load([], [])).1.messages)
  {
    hide Fill, QueuedOnce, GoodChannels, Queued, Due, ReadyMessages, Stamped;
    var (cs', load) := Fill(cs, room, Load([], []));
    var ms := load.messages;
    FillConserves(cs, room, Load([], []));
    SwapSides(Due(cs), Due(cs'), multiset(ms));
    FillKeeps(b, cs, room, Load([], []));
    FillShrinks(cs, room, Load([], []));
    forall m | m in ms
      ensures multiset(ms)[m] == 1 && m.channel < |cs| && m in Queued(cs[m.channel])
      ensures cs[m.channel].Unreliable? ==> m !in Queued(cs'[m.channel])
      ensures m in ReadyMessages(cs[m.channel]) && Stamped(cs'[m.channel], m)
    {
      FillStamps(b, cs, room, Load([], []), m);
      DueAt(b, cs, m);
      DueAt(b, cs', m);
      assert m in multiset(ms);
      assert Due(cs)[m] == multiset(ms)[m] + Due(cs')[m];
      assert Shrinks(cs[m.channel], cs'[m.channel]);
      if cs[m.channel].Unreliable? {
        ReadyUnreliable(cs'[m.channel]);
      }
    }
  }

  lemma {:induction false} ReadyUnreliable(c: Channel)
    requires c.Unreliable?
    ensures ReadyMessages(c) == Queued(c)
  {
  }

  lemma {:induction false} UpdateKeepsQueues(b: Book, cs: seq<Channel>, i: nat, c: Channel)
    requires i < |cs| && Numbered(cs) && QueuesOnce(b, cs) && Shrinks(cs[i], c)
    ensures Numbered(cs[i := c]) && QueuesOnce(b, cs[i := c])
  {
    hide Shrinks, QueuedOnce;
    assert QueuedOnce(b, cs[i]);
    ShrinksKept(b, cs[i], c);
    ShrinksId(cs[i], c);
    var cs' := cs[i := c];
    forall j | 0 <= j < |cs'|
      ensures QueuedOnce(b, cs'[j])
    {
      assert QueuedOnce(b, cs[j]);
    }
  }

  lemma {:induction false} ShrinksId(c: Channel, c': Channel)
    requires Shrinks(c, c')
    ensures c'.id == c.id && c'.Unreliable? == c.Unreliable?
    ensures c.Reliable? ==> Queued(c') == Queued(c)
  {
  }

  /** Filling a packet: what it carries was queued, and the handles are right. */
  lemma {:induction false} FillKeeps(b: Book, cs: seq<Channel>, room: nat, load: Load)
    requires GoodChannels(cs) && Numbered(cs) && QueuesOnce(b, cs) && LoadKept(b, load)
    ensures var (cs', load') := Fill(cs, room, load);
            && Numbered(cs') && QueuesOnce(b, cs') && LoadKept(b, load') && |cs'| == |cs|
    decreases TotalReady(cs)
  {
    hide Fill, WriteChannel, QueuedOnce, GoodChannel, LoadKept, Shrinks, Take;
    var i, c, ms, left := FillTurn(cs, room, load);
    if ms != [] {
      assert QueuedOnce(b, cs[i]) && GoodChannel(cs[i]);
      UpdateKeepsQueues(b, cs, i, c);
      ShrinksId(cs[i], c);
      QueuedOnceKept(b, cs[i]);
      WrittenKept(b, cs[i], room);
      AddKept(b, load, ms, c.id);
      if left >= 3 {
        FillKeeps(b, cs[i := c], left, load.Add(ms, c.id));
      }
    }
  }

  lemma {:induction false} QueuedOnceKept(b: Book, c: Channel)
    requires QueuedOnce(b, c)
    ensures QueueKept(b, Queued(c), c.id)
  {
  }
}
