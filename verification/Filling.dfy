/** What a packet is filled with, and why it is closed. */
module Filling {
  import opened Words
  import SequenceBuffers
  import opened Messages
  import opened Packets
  import opened Channels
  import opened PacketLayer
  import opened Endpoints

  /** Something is due on the channel, whatever room it takes. */
  ghost predicate HasDue(c: Channel) {
    exists k, room | 0 <= k < |Queued(c)| :: Eligible(c, k, room)
  }

  ghost predicate NoneDueBefore(cs: seq<Channel>, i: nat) {
    forall j | 0 <= j < i && j < |cs| :: !HasDue(cs[j])
  }

  /** The next message of a packet with `room` bytes left: of the first channel on which something is
      due, the first one that fits and is due. */
  ghost predicate NextIs(cs: seq<Channel>, room: nat, i: nat, k: nat) {
    && i < |cs| && k < |Queued(cs[i])|
    && NoneDueBefore(cs, i)
    && Eligible(cs[i], k, room)
    && forall l | 0 <= l < k :: !Eligible(cs[i], l, room)
  }

  /** There is no next message: of the first channel on which something is due, nothing fits.  Other
      channels are not asked. */
  ghost predicate Stuck(cs: seq<Channel>, room: nat) {
    forall i, k | 0 <= i < |cs| && HasDue(cs[i]) && NoneDueBefore(cs, i) && 0 <= k < |Queued(cs[i])| ::
      !Eligible(cs[i], k, room)
  }

  /** Entry `k` is written into a packet: an unreliable queue closes up behind it, a reliable one notes
      the time. */
  function Taking(c: Channel, k: nat): Channel
    requires k < |Queued(c)|
  {
    match c
    case Unreliable(_, _, _, q) => c.(q := q[..k] + q[k + 1..])
    case Reliable(_, now, _, pending, _) => c.(pending := pending[k := Resendable(pending[k].message, Some(now))])
  }

  /** The messages `ms` are the next ones, one after the other, while three bytes or more are left. */
  ghost predicate Fills(cs: seq<Channel>, room: nat, ms: seq<Message>, cs': seq<Channel>)
    decreases |ms|
  {
    if ms == [] then cs' == cs
    else
      && |ms[0].buffer| <= room
      && (|ms| > 1 ==> 3 <= room - |ms[0].buffer|)
      && exists i: nat, k: nat ::
           && NextIs(cs, room, i, k) && ms[0] == Queued(cs[i])[k]
           && Fills(cs[i := Taking(cs[i], k)], room - |ms[0].buffer|, ms[1..], cs')
  }

  lemma {:induction false} FillsMore(cs: seq<Channel>, room: nat, i: nat, k: nat, ms: seq<Message>, cs': seq<Channel>)
    requires NextIs(cs, room, i, k)
    requires var m := Queued(cs[i])[k];
             && |m.buffer| <= room && (ms != [] ==> 3 <= room - |m.buffer|)
             && Fills(cs[i := Taking(cs[i], k)], room - |m.buffer|, ms, cs')
    ensures Fills(cs, room, [Queued(cs[i])[k]] + ms, cs')
  {
    hide NoneDueBefore, Eligible, Taking, Queued;
    assert ([Queued(cs[i])[k]] + ms)[1..] == ms;
  }

  lemma {:induction false} FillsFirst(cs: seq<Channel>, room: nat, ms: seq<Message>, cs': seq<Channel>)
    returns (i: nat, k: nat)
    requires Fills(cs, room, ms, cs') && ms != []
    ensures NextIs(cs, room, i, k) && ms[0] == Queued(cs[i])[k]
    ensures |ms[0].buffer| <= room && (|ms| > 1 ==> 3 <= room - |ms[0].buffer|)
    ensures Fills(cs[i := Taking(cs[i], k)], room - |ms[0].buffer|, ms[1..], cs')
  {
    hide NoneDueBefore, Eligible, Taking, Queued;
    i, k :|
      && NextIs(cs, room, i, k) && ms[0] == Queued(cs[i])[k]
      && Fills(cs[i := Taking(cs[i], k)], room - |ms[0].buffer|, ms[1..], cs');
  }

  lemma {:induction false} FillsNothing(cs: seq<Channel>, room: nat, cs': seq<Channel>)
    ensures Fills(cs, room, [], cs') <==> cs' == cs
    ensures MessageBytes([]) == 0
  {
  }

  lemma {:induction false} FillsTwice(cs: seq<Channel>, room: nat, ms: seq<Message>, cs1: seq<Channel>,
                                      ms': seq<Message>, cs': seq<Channel>)
    requires Fills(cs, room, ms, cs1) && MessageBytes(ms) <= room
    requires ms' == [] || 3 <= room - MessageBytes(ms)
    requires Fills(cs1, room - MessageBytes(ms), ms', cs')
    ensures Fills(cs, room, ms + ms', cs')
    decreases |ms|
  {
    hide Fills, Taking, Queued, NoneDueBefore, Eligible;
    if ms == [] {
      FillsNothing(cs, room, cs1);
      assert ms + ms' == ms';
    } else {
      var i, k := FillsFirst(cs, room, ms, cs1);
      FillsTwice(cs[i := Taking(cs[i], k)], room - |ms[0].buffer|, ms[1..], cs1, ms', cs');
      FillsMore(cs, room, i, k, ms[1..] + ms', cs');
      assert ms + ms' == [ms[0]] + (ms[1..] + ms');
    }
  }

  /** What `Take` gives, in these terms. */
  lemma {:induction false} TakeIsNext(cs: seq<Channel>, i: nat, room: nat)
    requires i < |cs| && NoneDueBefore(cs, i)
    ensures match Take(cs[i], room)
            case (c', Some(m)) =>
              exists k: nat :: NextIs(cs, room, i, k) && m == Queued(cs[i])[k] && c' == Taking(cs[i], k)
            case (c', None) =>
              c' == cs[i] && forall k | 0 <= k < |Queued(cs[i])| :: !Eligible(cs[i], k, room)
  {
    hide HasDue, Take;
    var k := TakesFirst(cs[i], room);
    if k < |Queued(cs[i])| {
      if cs[i].Reliable? {
        MessagesOfAt(cs[i].pending, k);
      }
      assert NextIs(cs, room, i, k);
    }
  }

  lemma {:induction false} BeforeStays(cs: seq<Channel>, i: nat, c: Channel)
    requires i < |cs| && NoneDueBefore(cs, i)
    ensures NoneDueBefore(cs[i := c], i)
  {
    hide HasDue;
  }

  /** One channel's part of a packet. */
  lemma {:induction false} WriteChannelFills(cs: seq<Channel>, i: nat, room: nat)
    requires i < |cs| && NoneDueBefore(cs, i) && GoodChannel(cs[i])
    ensures var (c, ms) := WriteChannel(cs[i], room);
            && Fills(cs, room, ms, cs[i := c]) && MessageBytes(ms) <= room
            && (ms == [] ==> forall k | 0 <= k < |Queued(cs[i])| :: !Eligible(cs[i], k, room))
    decreases ReadyCount(cs[i])
  {
    hide Take, ReadyCount, NoneDueBefore, Queued, Eligible, Taking, ReadyMessages, Shrinks, GoodChannel;
    var c', m, left := WriteChannelStep(cs[i], room);
    TakeIsNext(cs, i, room);
    WriteChannelShrinks(cs[i], room);
    var (c, ms) := WriteChannel(cs[i], room);
    if m.Some? {
      BeforeStays(cs, i, c');
      WriteChannelFills(cs[i := c'], i, left);
      assert cs[i := c'][i := c] == cs[i := c];
      var k: nat :| NextIs(cs, room, i, k) && m.value == Queued(cs[i])[k] && c' == Taking(cs[i], k);
      FillsMore(cs, room, i, k, WriteChannel(c', left).1, cs[i := c]);
    } else {
      assert cs[i := c] == cs;
    }
  }

  lemma {:induction false} FirstReadyIs(cs: seq<Channel>)
    ensures NoneDueBefore(cs, FirstReady(cs))
    ensures FirstReady(cs) < |cs| ==> HasDue(cs[FirstReady(cs)])
  {
    forall j | 0 <= j < FirstReady(cs)
      ensures !HasDue(cs[j])
    {
      NotReadyBefore(cs, j);
      ReadyIff(cs[j]);
    }
    if FirstReady(cs) < |cs| {
      ReadyIff(cs[FirstReady(cs)]);
    }
  }

  lemma {:induction false} NotReadyBefore(cs: seq<Channel>, j: nat)
    requires j < FirstReady(cs)
    ensures !AnyReady(cs[j])
  {
    if j > 0 {
      NotReadyBefore(cs[1..], j - 1);
    }
  }

  lemma {:induction false} StuckAt(cs: seq<Channel>, i: nat, room: nat)
    requires NoneDueBefore(cs, i) && i <= |cs|
    requires i < |cs| ==>
               HasDue(cs[i]) && forall k | 0 <= k < |Queued(cs[i])| :: !Eligible(cs[i], k, room)
    ensures Stuck(cs, room)
  {
    hide HasDue, Queued, Eligible;
    forall j, k | 0 <= j < |cs| && HasDue(cs[j]) && NoneDueBefore(cs, j) && 0 <= k < |Queued(cs[j])|
      ensures !Eligible(cs[j], k, room)
    {
      assert j == i;
    }
  }

  /** A packet is filled with the next message, and the next, until fewer than three bytes are left or
      there is no next message. */
  lemma {:induction false} FillIsGreedy(cs: seq<Channel>, room: nat, load: Load) returns (ms: seq<Message>, left: nat)
    requires GoodChannels(cs)
    ensures Fill(cs, room, load).1.messages == load.messages + ms
    ensures Fills(cs, room, ms, Fill(cs, room, load).0)
    ensures MessageBytes(ms) + left == room
    ensures left < 3 || Stuck(Fill(cs, room, load).0, left)
    decreases TotalReady(cs)
  {
    hide Fill, WriteChannel, Fills, Stuck, NoneDueBefore, HasDue, GoodChannel, Shrinks, Take, AnyReady, MessageBytes,
      Queued, Eligible;
    var i, c;
    i, c, ms, left := FillTurn(cs, room, load);
    FirstReadyIs(cs);
    if i == |cs| {
      left := room;
      StuckAt(cs, i, room);
      FillsNothing(cs, room, cs);
    } else {
      assert GoodChannel(cs[i]);
      WriteChannelFills(cs, i, room);
      if ms == [] {
        StuckAt(cs, i, room);
        FillsNothing(cs, room, cs);
        left := room;
      } else if left >= 3 {
        var more, rest := FillIsGreedy(cs[i := c], left, load.Add(ms, c.id));
        FillsTwice(cs, room, ms, cs[i := c], more, Fill(cs[i := c], left, load.Add(ms, c.id)).0);
        BytesAppend(ms, more);
        assert load.messages + (ms + more) == load.messages + ms + more;
        ms, left := ms + more, rest;
      }
    }
  }

  lemma {:induction false} BytesAppend(a: seq<Message>, b: seq<Message>)
    ensures MessageBytes(a + b) == MessageBytes(a) + MessageBytes(b)
  {
    CoalesceAppend(a, b);
  }

  /** A packet of the loop: behind its header and the salt come the next message, and the next, and so
      on.  It is closed when fewer than three bytes are left, or when nothing is due any more, or
      when none of the messages due on the first channel that has any fits into the bytes left. */
  lemma {:induction false} PacketFilled(e: Endpoint) returns (left: nat)
    requires Ready(e) && e.xorSalt.Some? && ComposeOne(e).1.Ok?
    ensures var (e', p) := (ComposeOne(e).0, ComposeOne(e).1.value);
            && |p.packet| + left == e.config.maxPacketSize
            && Fills(e.channels, MessageBytes(p.messages) + left, p.messages, e'.channels)
            && (left < 3 || Stuck(e'.channels, left))
  {
    hide ComposeOne, Fill, Fills, Stuck, Coalesce, PacketBytes, NextHeader, GoodChannels;
    var header, head, channels, load, packets, dispatcher := ComposeOneShape(e);
    var ms, rest := FillIsGreedy(e.channels, e.config.maxPacketSize - |head|, Load([], []));
    assert ms == load.messages;
    left := rest;
  }

  // -- messages that would have fitted --

  /** With something due on one channel only, a packet is closed only when nothing that is due fits. */
  lemma {:induction false} OneChannelFilled(cs: seq<Channel>, room: nat, i: nat, k: nat)
    requires Stuck(cs, room) && i < |cs| && k < |Queued(cs[i])|
    requires forall j | 0 <= j < |cs| && HasDue(cs[j]) :: j == i
    ensures !Eligible(cs[i], k, room)
  {
    hide Eligible, Queued;
  }

  /** Otherwise it may be closed too soon: the message at the head of channel 0 does not fit into the ten
      bytes left, and the one on channel 1, which would fit, is not asked for. */
  lemma {:induction false} HeadOfLine(seen: SequenceBuffers.Ring<bool>)
    requires seen.Valid()
    ensures var large, small := NewOutbound(0, 0, [7, 7, 7], None), NewOutbound(1, 1, [7], None);
            var cs := [Unreliable(0, 0.0, seen, [large]), Unreliable(1, 0.0, seen, [small])];
            && Stuck(cs, 10)
            && |Queued(cs[1])| == 1 && Eligible(cs[1], 0, 10)
            && Fill(cs, 10, Load([], [])) == (cs, Load([], []))
  {
    var large, small := NewOutbound(0, 0, [7, 7, 7], None), NewOutbound(1, 1, [7], None);
    assert large.Size() == 11 && small.Size() == 9;
    var cs := [Unreliable(0, 0.0, seen, [large]), Unreliable(1, 0.0, seen, [small])];
    assert Eligible(cs[0], 0, 11);
    assert HasDue(cs[0]);
    StuckAt(cs, 0, 10);
  }
}
