/** What one call of `compose_packets` guarantees: it ends, every packet fits and carries at least
    one message, and no due message is lost or sent twice. */
module Composing {
  import opened Words
  import opened AckHeaders
  import opened Messages
  import opened Packets
  import opened Channels
  import opened PacketLayer
  import opened Endpoints

  /** The messages due on all channels. */
  ghost function Due(cs: seq<Channel>): multiset<Message> {
    if cs == [] then multiset{} else multiset(ReadyMessages(cs[0])) + Due(cs[1..])
  }

  lemma {:induction false} DueUpdate(cs: seq<Channel>, i: nat, c: Channel)
    requires i < |cs|
    ensures Due(cs) + multiset(ReadyMessages(c)) == Due(cs[i := c]) + multiset(ReadyMessages(cs[i]))
  {
    if i > 0 {
      assert cs[i := c][1..] == cs[1..][i - 1 := c];
      DueUpdate(cs[1..], i - 1, c);
      Regroup(multiset(ReadyMessages(cs[0])), Due(cs[1..]), Due(cs[i := c][1..]),
              multiset(ReadyMessages(c)), multiset(ReadyMessages(cs[i])));
    } else {
      assert cs[0 := c][1..] == cs[1..];
    }
  }

  lemma {:induction false} Regroup<T>(a: multiset<T>, b: multiset<T>, c: multiset<T>, x: multiset<T>, y: multiset<T>)
    requires b + x == c + y
    ensures (a + b) + x == (a + c) + y
  {
    assert (a + b) + x == a + (b + x);
    assert (a + c) + y == a + (c + y);
  }

  lemma {:induction false} NothingDue(cs: seq<Channel>)
    ensures FirstReady(cs) == |cs| <==> Due(cs) == multiset{}
  {
    if cs != [] {
      NothingDue(cs[1..]);
      ReadyIffCount(cs[0]);
      if Due(cs) == multiset{} {
        assert multiset(ReadyMessages(cs[0])) <= Due(cs);
        assert ReadyCount(cs[0]) == |multiset(ReadyMessages(cs[0]))|;
      }
    }
  }

  /** Filling a packet moves messages from the channels to the load, and loses none. */
  lemma {:induction false} FillConserves(cs: seq<Channel>, room: nat, load: Load)
    requires GoodChannels(cs)
    ensures var (cs', load') := Fill(cs, room, load);
            Due(cs) + multiset(load.messages) == Due(cs') + multiset(load'.messages)
    decreases TotalReady(cs)
  {
    var i, c, ms, left := FillTurn(cs, room, load);
    if ms != [] {
      WriteChannelConserves(cs[i], room);
      DueUpdate(cs, i, c);
      assert Due(cs) + multiset(load.messages) == Due(cs[i := c]) + multiset(load.messages + ms) by {
        MoveAcross(Due(cs), Due(cs[i := c]), multiset(ReadyMessages(cs[i])), multiset(ReadyMessages(c)), multiset(ms));
        assert multiset(load.messages + ms) == multiset(load.messages) + multiset(ms);
      }
      if left >= 3 {
        FillConserves(cs[i := c], left, load.Add(ms, c.id));
      }
    }
  }

  lemma {:induction false} MoveAcross<T>(a: multiset<T>, b: multiset<T>, x: multiset<T>, y: multiset<T>,
                                         moved: multiset<T>)
    requires a + y == b + x && x == moved + y
    ensures a == b + moved
  {
    forall t: T | t in a || t in b + moved
      ensures a[t] == (b + moved)[t]
    {
      assert (a + y)[t] == (b + x)[t];
    }
  }

  /** The packets that the loop emits. */
  ghost function Emitted(e: Endpoint): seq<Composed>
    requires Composable(e)
    decreases TotalReady(e.channels)
  {
    if FirstReady(e.channels) == |e.channels| || SentUnacked(e.packets) >= MAX_UNACKED_PACKETS then []
    else
      match ComposeOne(e)
      case (_, Err(_)) => []
      case (e', Ok(composed)) => ComposeOneProgress(e, e', composed); [composed] + Emitted(e')
  }

  ghost function MessagesIn(ps: seq<Composed>): multiset<Message> {
    if ps == [] then multiset{} else multiset(ps[0].messages) + MessagesIn(ps[1..])
  }

  function PacketsOf(ps: seq<Composed>): seq<bytes> {
    if ps == [] then [] else [ps[0].packet] + PacketsOf(ps[1..])
  }

  /** A packet within the size limit that carries at least one message, in its wire form. */
  ghost predicate WellFormed(e: Endpoint, p: Composed)
    requires e.xorSalt.Some?
  {
    && p.messages != []
    && |p.packet| <= e.config.maxPacketSize
    && p.packet == MessagesBytes(p.header, e.xorSalt.value, p.messages)
  }

  lemma {:induction false} RoundWellFormed(e: Endpoint, e': Endpoint, p: Composed)
    requires Composable(e) && FirstReady(e.channels) < |e.channels|
    requires ComposeOne(e) == (e', Ok(p))
    ensures WellFormed(e, p)
    ensures e'.outbox == e.outbox + [p.packet] && e'.config == e.config && e'.xorSalt == e.xorSalt
  {
    hide ComposeOne, Coalesce, Fill, HeaderBytes, SmallMessages, GoodChannels, NextHeader, Body;
    var header, head, channels, load, packets, dispatcher := ComposeOneShape(e);
    assert |head| <= MAX_HEADER by {
      HeaderFits(e.packets, e.xorSalt.value);
    }
    assert load.messages != [] by {
      FillTakes(e.channels, e.config.maxPacketSize - |head|);
    }
    assert |Coalesce(load.messages)| <= e.config.maxPacketSize - |head| by {
      FillEmpty(e.channels, e.config.maxPacketSize - |head|);
    }
  }

  lemma {:induction false} RoundConserves(e: Endpoint, e': Endpoint, p: Composed)
    requires Composable(e) && ComposeOne(e) == (e', Ok(p))
    ensures Due(e.channels) == multiset(p.messages) + Due(e'.channels)
  {
    hide ComposeOne, Coalesce, Fill, HeaderBytes, SmallMessages, GoodChannels, NextHeader, Body, Due;
    var header, head, channels, load, packets, dispatcher := ComposeOneShape(e);
    FillConserves(e.channels, e.config.maxPacketSize - |head|, Load([], []));
    SwapSides(Due(e.channels), Due(channels), multiset(load.messages));
  }

  lemma {:induction false} SwapSides<T>(a: multiset<T>, b: multiset<T>, c: multiset<T>)
    requires a + multiset([]) == b + c
    ensures a == c + b
  {
    assert a + multiset([]) == a;
  }

  /** A round fails for want of a header, which leaves the channels alone, or because a record is
      too old for its buffer. */
  lemma {:induction false} RoundFails(e: Endpoint, e': Endpoint, error: Error)
    requires Composable(e) && ComposeOne(e) == (e', Err(error))
    ensures error == SequenceTooOld || (error == TooManyPending && e'.channels == e.channels && e'.outbox == e.outbox)
  {
    var next := NextHeader(e.packets, MessagesType);
    if next.1.Ok? {
      HeaderFits(e.packets, e.xorSalt.value);
    }
  }

  /** What the loop has done when it ends, unless a record was too old for its buffer. */
  ghost predicate Conserves(e: Endpoint, e': Endpoint, r: Result<(), Error>, ps: seq<Composed>) {
    && e'.outbox == e.outbox + PacketsOf(ps)
    && Due(e.channels) == MessagesIn(ps) + Due(e'.channels)
    && (r == Ok(()) ==> Due(e'.channels) == multiset{})
    && (r != Ok(()) ==> r == Err(TooManyPending))
  }

  lemma {:induction false} ConservesNil(e: Endpoint, e': Endpoint, r: Result<(), Error>)
    requires e'.outbox == e.outbox && e'.channels == e.channels
    requires if r == Ok(()) then Due(e.channels) == multiset{} else r == Err(TooManyPending)
    ensures Conserves(e, e', r, [])
  {
    assert e.outbox + [] == e.outbox;
  }

  lemma {:induction false} ConservesCons(e: Endpoint, e1: Endpoint, e': Endpoint, r: Result<(), Error>, p: Composed,
                                         ps: seq<Composed>)
    requires e1.outbox == e.outbox + [p.packet]
    requires Due(e.channels) == multiset(p.messages) + Due(e1.channels)
    requires Conserves(e1, e', r, ps)
    ensures Conserves(e, e', r, [p] + ps)
  {
    assert ([p] + ps)[1..] == ps;
    assert e.outbox + [p.packet] + PacketsOf(ps) == e.outbox + ([p.packet] + PacketsOf(ps));
    assert multiset(p.messages) + (MessagesIn(ps) + Due(e'.channels))
        == (multiset(p.messages) + MessagesIn(ps)) + Due(e'.channels);
  }

  /** Unless a record is too old for its buffer: on Ok, the packets emitted carry exactly the
      messages that were due, each as often as it was due; on backpressure, what they do not carry
      is still queued and due. */
  lemma {:induction false} ComposeConserves(e: Endpoint)
    requires Composable(e)
    ensures var (e', r) := ComposeLoop(e);
            r == Err(SequenceTooOld) || Conserves(e, e', r, Emitted(e))
    decreases TotalReady(e.channels)
  {
    hide ComposeOne, Due, Conserves, FirstReady, MessagesIn, PacketsOf, SentUnacked;
    NothingDue(e.channels);
    if FirstReady(e.channels) == |e.channels| {
      ConservesNil(e, e, Ok(()));
    } else if SentUnacked(e.packets) >= MAX_UNACKED_PACKETS {
      ConservesNil(e, e, Err(TooManyPending));
    } else {
      match ComposeOne(e)
      case (e', Err(error)) =>
        RoundFails(e, e', error);
        if error != SequenceTooOld {
          ConservesNil(e, e', Err(error));
        }
      case (e', Ok(p)) =>
        ComposeOneProgress(e, e', p);
        RoundWellFormed(e, e', p);
        RoundConserves(e, e', p);
        ComposeConserves(e');
        EmittedCons(e, e', p);
        if ComposeLoop(e').1 != Err(SequenceTooOld) {
          ConservesCons(e, e', ComposeLoop(e').0, ComposeLoop(e').1, p, Emitted(e'));
        }
    }
  }

  /** Every packet emitted fits the size limit, carries at least one message, and is the wire form
      of its header, salt and messages. */
  lemma {:induction false} EmittedWellFormed(e: Endpoint, i: nat)
    requires Composable(e) && i < |Emitted(e)|
    ensures WellFormed(e, Emitted(e)[i])
    decreases TotalReady(e.channels)
  {
    match ComposeOne(e)
    case (e', Ok(p)) =>
      ComposeOneProgress(e, e', p);
      RoundWellFormed(e, e', p);
      EmittedCons(e, e', p);
      if i > 0 {
        EmittedWellFormed(e', i - 1);
      }
  }

  lemma {:induction false} EmittedCons(e: Endpoint, e': Endpoint, p: Composed)
    requires Composable(e) && FirstReady(e.channels) < |e.channels| && SentUnacked(e.packets) < MAX_UNACKED_PACKETS
    requires ComposeOne(e) == (e', Ok(p))
    ensures Composable(e')
    ensures Emitted(e) == [p] + Emitted(e')
    ensures MessagesIn(Emitted(e)) == multiset(p.messages) + MessagesIn(Emitted(e'))
    ensures PacketsOf(Emitted(e)) == [p.packet] + PacketsOf(Emitted(e'))
  {
    ComposeOneProgress(e, e', p);
    assert ([p] + Emitted(e'))[1..] == Emitted(e');
  }
}
