/** The unreliable and the reliable channel (src/channel.rs).

    `Channel` is a channel as a value, with one function per operation of the channel trait; the
    two classes are the channels as the source has them, updating their queue in place, and are
    proved to perform those functions. */
module Channels {
  import opened Words
  import opened SequenceBuffers
  import opened Messages

  const SEEN_CAPACITY: nat := 10000
  const RESEND_TIME := 0.1

  /** Which message travels in a packet; `channel` is the channel that sent it. */
  datatype Handle = Handle(id: u16, fragIndex: Option<u16>, channel: u8) {
    function ParentId(): Option<u16> {
      match fragIndex
      case Some(i) => Some(WrapSub(id, i))
      case None => None
    }
  }

  function HandleOf(m: Message, channel: u8): Handle {
    Handle(m.id, if m.fragment.Some? then Some(m.fragment.value.index) else None, channel)
  }

  datatype Resendable = Resendable(message: Message, lastSent: Option<real>) {
    predicate IsReady(now: real, cutoff: real) {
      lastSent.None? || now - lastSent.value >= cutoff
    }

    /** The source panics when an unfragmented message shares its id with an acked fragment. */
    predicate DismissedByAck(h: Handle) {
      && message.id == h.id
      && (message.fragment.Some? ==> Some(message.fragment.value.parentId) == h.ParentId())
    }
  }

  datatype Channel =
    | Unreliable(id: u8, time: real, seen: Ring<bool>, q: seq<Message>)
    | Reliable(id: u8, time: real, seen: Ring<bool>, pending: seq<Resendable>, resendTime: real)

  function NewUnreliable(id: u8, time: real): Channel {
    Unreliable(id, time, NewRing(SEEN_CAPACITY, false), [])
  }

  function NewReliable(id: u8, time: real): Channel {
    Reliable(id, time, NewRing(SEEN_CAPACITY, false), [], RESEND_TIME)
  }

  // -- the operations --

  function Tick(c: Channel, dt: real): Channel {
    c.(time := c.time + dt)
  }

  /** Whether a log of seen ids takes a message id it has not seen, and the log afterwards. */
  function AcceptId(seen: Ring<bool>, id: u16): (Ring<bool>, bool)
    requires seen.Valid()
  {
    if !seen.CheckSequence(id) || seen.Exists(id) then (seen, false)
    else match seen.Insert(id, true, false)
      case Ok(seen') => (seen', true)
      case Err(_) => (seen, false)
  }

  function Accept(c: Channel, m: Message): (Channel, bool)
    requires c.seen.Valid()
  {
    var (seen, accepted) := AcceptId(c.seen, m.id);
    (c.(seen := seen), accepted)
  }

  function Enqueue(c: Channel, id: u16, payload: bytes, fragment: Option<Fragment>): Channel
    requires Sendable(c.id, payload, fragment)
  {
    var m := NewOutbound(id, c.id, payload, fragment);
    match c
    case Unreliable(_, _, _, q) => c.(q := q + [m])
    case Reliable(_, _, _, pending, _) => c.(pending := pending + [Resendable(m, None)])
  }

  predicate AnyReady(c: Channel) {
    match c
    case Unreliable(_, _, _, q) => q != []
    case Reliable(_, now, _, pending, cutoff) => SomeReady(pending, now, cutoff)
  }

  predicate SomeReady(pending: seq<Resendable>, now: real, cutoff: real) {
    pending != [] && (pending[0].IsReady(now, cutoff) || SomeReady(pending[1..], now, cutoff))
  }

  function Retain(pending: seq<Resendable>, h: Handle): seq<Resendable> {
    if pending == [] then []
    else if pending[0].DismissedByAck(h) then Retain(pending[1..], h)
    else [pending[0]] + Retain(pending[1..], h)
  }

  function AckReceived(c: Channel, h: Handle): Channel {
    match c
    case Unreliable(_, _, _, _) => c
    case Reliable(_, _, _, pending, _) => c.(pending := Retain(pending, h))
  }

  function FirstFitting(q: seq<Message>, maxSize: nat): (i: nat)
    ensures i <= |q|
    ensures i < |q| ==> q[i].Size() <= maxSize
  {
    if q == [] || q[0].Size() <= maxSize then 0 else 1 + FirstFitting(q[1..], maxSize)
  }

  predicate Takable(r: Resendable, now: real, cutoff: real, maxSize: nat) {
    r.message.Size() <= maxSize && r.IsReady(now, cutoff)
  }

  function FirstTakable(pending: seq<Resendable>, now: real, cutoff: real, maxSize: nat): (i: nat)
    ensures i <= |pending|
    ensures i < |pending| ==> Takable(pending[i], now, cutoff, maxSize)
  {
    if pending == [] || Takable(pending[0], now, cutoff, maxSize) then 0
    else 1 + FirstTakable(pending[1..], now, cutoff, maxSize)
  }

  /** `VecDeque::remove`. */
  function RemoveAt(q: seq<Message>, i: nat): seq<Message>
    requires i < |q|
  {
    if i == 0 then q[1..] else [q[0]] + RemoveAt(q[1..], i - 1)
  }

  lemma {:induction false} RemoveAtIs(q: seq<Message>, i: nat)
    requires i < |q|
    ensures RemoveAt(q, i) == q[..i] + q[i + 1..]
    ensures multiset(q) == multiset(RemoveAt(q, i)) + multiset{q[i]}
    ensures |RemoveAt(q, i)| == |q| - 1
  {
    RemoveAtSplits(q, i);
    assert q == q[..i] + [q[i]] + q[i + 1..];
  }

  lemma {:induction false} RemoveAtSplits(q: seq<Message>, i: nat)
    requires i < |q|
    ensures RemoveAt(q, i) == q[..i] + q[i + 1..]
  {
    if i > 0 {
      RemoveAtSplits(q[1..], i - 1);
      assert q[1..][..i - 1] == q[1..i] && q[1..][i..] == q[i + 1..];
      assert q[..i] == [q[0]] + q[1..i];
    }
  }

  /** The next message for a packet with `maxSize` bytes left.  The unreliable queue gives it up;
      the reliable one keeps it and notes the time. */
  function Take(c: Channel, maxSize: nat): (Channel, Option<Message>) {
    match c
    case Unreliable(_, _, _, q) =>
      var i := FirstFitting(q, maxSize);
      if i == |q| then (c, None) else (c.(q := RemoveAt(q, i)), Some(q[i]))
    case Reliable(_, now, _, pending, cutoff) =>
      var i := FirstTakable(pending, now, cutoff, maxSize);
      if i == |pending| then (c, None)
      else (c.(pending := pending[i := pending[i].(lastSent := Some(now))]), Some(pending[i].message))
  }

  // -- the channels as objects --

  class UnreliableChannel {
    const id: u8
    var time: real
    var seen: Ring<bool>
    var q: seq<Message>

    ghost function Model(): Channel
      reads this
    {
      Unreliable(id, time, seen, q)
    }

    constructor (id: u8, time: real)
      ensures Model() == NewUnreliable(id, time)
    {
      this.id := id;
      this.time := time;
      seen := NewRing(SEEN_CAPACITY, false);
      q := [];
    }

    method Update(dt: real)
      modifies this
      ensures Model() == Tick(old(Model()), dt)
    {
      time := time + dt;
    }

    method AcceptsMessage(m: Message) returns (accepted: bool)
      requires seen.Valid()
      modifies this
      ensures (Model(), accepted) == Accept(old(Model()), m)
    {
      if !seen.CheckSequence(m.id) {
        return false;
      }
      if seen.Exists(m.id) {
        return false;
      }
      match seen.Insert(m.id, true, false) {
        case Ok(seen') =>
          seen := seen';
          return true;
        case Err(_) =>
          return false;
      }
    }

    method EnqueueMessage(id: u16, payload: bytes, fragment: Option<Fragment>)
      requires Sendable(this.id, payload, fragment)
      modifies this
      ensures Model() == Enqueue(old(Model()), id, payload, fragment)
    {
      q := q + [NewOutbound(id, this.id, payload, fragment)];
    }

    method AnyReadyToSend() returns (ready: bool)
      ensures ready == AnyReady(Model())
    {
      ready := q != [];
    }

    method GetMessageToWriteToAPacket(maxSize: nat) returns (m: Option<Message>)
      modifies this
      ensures (Model(), m) == Take(old(Model()), maxSize)
    {
      for index := 0 to |q|
        invariant q == old(q)
        invariant FirstFitting(q, maxSize) == index + FirstFitting(q[index..], maxSize)
      {
        if q[index].Size() > maxSize {
          assert q[index..][1..] == q[index + 1..];
          continue;
        }
        m := Some(q[index]);
        RemoveAtIs(q, index);
        q := q[..index] + q[index + 1..];
        return;
      }
      m := None;
    }
  }

  class ReliableChannel {
    const id: u8
    const resendTime: real
    var time: real
    var seen: Ring<bool>
    var q: seq<Resendable>

    ghost function Model(): Channel
      reads this
    {
      Reliable(id, time, seen, q, resendTime)
    }

    constructor (id: u8, time: real)
      ensures Model() == NewReliable(id, time)
    {
      this.id := id;
      this.time := time;
      resendTime := RESEND_TIME;
      seen := NewRing(SEEN_CAPACITY, false);
      q := [];
    }

    method Update(dt: real)
      modifies this
      ensures Model() == Tick(old(Model()), dt)
    {
      time := time + dt;
    }

    method AcceptsMessage(m: Message) returns (accepted: bool)
      requires seen.Valid()
      modifies this
      ensures (Model(), accepted) == Accept(old(Model()), m)
    {
      if !seen.CheckSequence(m.id) {
        return false;
      }
      if seen.Exists(m.id) {
        return false;
      }
      match seen.Insert(m.id, true, false) {
        case Ok(seen') =>
          seen := seen';
          return true;
        case Err(_) =>
          return false;
      }
    }

    method EnqueueMessage(id: u16, payload: bytes, fragment: Option<Fragment>)
      requires Sendable(this.id, payload, fragment)
      modifies this
      ensures Model() == Enqueue(old(Model()), id, payload, fragment)
    {
      q := q + [Resendable(NewOutbound(id, this.id, payload, fragment), None)];
    }

    method AnyReadyToSend() returns (ready: bool)
      ensures ready == AnyReady(Model())
    {
      for index := 0 to |q|
        invariant SomeReady(q, time, resendTime) <==> SomeReady(q[index..], time, resendTime)
      {
        assert q[index..][1..] == q[index + 1..];
        if q[index].IsReady(time, resendTime) {
          return true;
        }
      }
      return false;
    }

    method MessageAckReceived(h: Handle)
      requires forall r | r in q :: r.message.id == h.id && r.message.fragment.None? ==> h.fragIndex.None?
      modifies this
      ensures Model() == AckReceived(old(Model()), h)
    {
      var kept: seq<Resendable> := [];
      for index := 0 to |q|
        invariant q == old(q)
        invariant Retain(q, h) == kept + Retain(q[index..], h)
      {
        assert q[index..][1..] == q[index + 1..];
        if !q[index].DismissedByAck(h) {
          assert kept + ([q[index]] + Retain(q[index + 1..], h)) == kept + [q[index]] + Retain(q[index + 1..], h);
          kept := kept + [q[index]];
        }
      }
      q := kept;
    }

    method GetMessageToWriteToAPacket(maxSize: nat) returns (m: Option<Message>)
      modifies this
      ensures (Model(), m) == Take(old(Model()), maxSize)
    {
      for index := 0 to |q|
        invariant q == old(q)
        invariant FirstTakable(q, time, resendTime, maxSize)
               == index + FirstTakable(q[index..], time, resendTime, maxSize)
      {
        assert q[index..][1..] == q[index + 1..];
        if q[index].message.Size() > maxSize {
          continue;
        }
        if q[index].IsReady(time, resendTime) {
          m := Some(q[index].message);
          q := q[index := q[index].(lastSent := Some(time))];
          return;
        }
      }
      m := None;
    }
  }

  // -- what a channel keeps --

  /** The messages in a channel's queue. */
  function Queued(c: Channel): seq<Message> {
    match c
    case Unreliable(_, _, _, q) => q
    case Reliable(_, _, _, pending, _) => MessagesOf(pending)
  }

  function MessagesOf(pending: seq<Resendable>): (ms: seq<Message>)
    ensures |ms| == |pending|
  {
    if pending == [] then [] else [pending[0].message] + MessagesOf(pending[1..])
  }

  lemma {:induction false} MessagesOfAt(pending: seq<Resendable>, i: nat)
    requires i < |pending|
    ensures MessagesOf(pending)[i] == pending[i].message
  {
    if i > 0 {
      MessagesOfAt(pending[1..], i - 1);
    }
  }

  lemma {:induction false} MessagesOfUpdate(pending: seq<Resendable>, i: nat, r: Resendable)
    requires i < |pending| && r.message == pending[i].message
    ensures MessagesOf(pending[i := r]) == MessagesOf(pending)
  {
    if i > 0 {
      assert pending[i := r][1..] == pending[1..][i - 1 := r];
      MessagesOfUpdate(pending[1..], i - 1, r);
    } else {
      assert pending[0 := r][1..] == pending[1..];
    }
  }

  /** The messages that are due to be sent. */
  function ReadyMessages(c: Channel): seq<Message> {
    match c
    case Unreliable(_, _, _, q) => q
    case Reliable(_, now, _, pending, cutoff) => ReadyOf(pending, now, cutoff)
  }

  function ReadyOf(pending: seq<Resendable>, now: real, cutoff: real): seq<Message> {
    if pending == [] then []
    else if pending[0].IsReady(now, cutoff) then [pending[0].message] + ReadyOf(pending[1..], now, cutoff)
    else ReadyOf(pending[1..], now, cutoff)
  }

  function ReadyCount(c: Channel): nat {
    |ReadyMessages(c)|
  }

  lemma {:induction false} ReadyOfSplit(a: seq<Resendable>, b: seq<Resendable>, now: real, cutoff: real)
    ensures ReadyOf(a + b, now, cutoff) == ReadyOf(a, now, cutoff) + ReadyOf(b, now, cutoff)
  {
    if a == [] {
      assert a + b == b;
    } else {
      assert (a + b)[1..] == a[1..] + b;
      ReadyOfSplit(a[1..], b, now, cutoff);
    }
  }

  lemma {:induction false} ReadyOfExact(pending: seq<Resendable>, now: real, cutoff: real, r: Resendable)
    requires r in pending && r.IsReady(now, cutoff)
    ensures SomeReady(pending, now, cutoff) && r.message in ReadyOf(pending, now, cutoff)
  {
    assert pending == [pending[0]] + pending[1..];
    if r != pending[0] {
      ReadyOfExact(pending[1..], now, cutoff, r);
    }
  }

  lemma {:induction false} ReadyOfMember(pending: seq<Resendable>, now: real, cutoff: real, m: Message)
    returns (r: Resendable)
    requires m in ReadyOf(pending, now, cutoff)
    ensures r in pending && r.message == m && r.IsReady(now, cutoff)
  {
    if pending[0].IsReady(now, cutoff) && pending[0].message == m {
      r := pending[0];
    } else {
      r := ReadyOfMember(pending[1..], now, cutoff, m);
    }
  }

  lemma {:induction false} SomeReadyExact(pending: seq<Resendable>, now: real, cutoff: real)
    ensures SomeReady(pending, now, cutoff) <==> ReadyOf(pending, now, cutoff) != []
  {
    if pending != [] {
      SomeReadyExact(pending[1..], now, cutoff);
    }
  }

  lemma {:induction false} ReadyIffCount(c: Channel)
    ensures AnyReady(c) <==> ReadyCount(c) > 0
  {
    match c
    case Unreliable(_, _, _, _) =>
    case Reliable(_, now, _, pending, cutoff) => SomeReadyExact(pending, now, cutoff);
  }

  /** Nothing that comes before the index found could have been taken. */
  lemma {:induction false} FirstTakableExact(pending: seq<Resendable>, now: real, cutoff: real, maxSize: nat, j: nat)
    requires j < FirstTakable(pending, now, cutoff, maxSize)
    ensures !Takable(pending[j], now, cutoff, maxSize)
  {
    if j > 0 {
      FirstTakableExact(pending[1..], now, cutoff, maxSize, j - 1);
    }
  }

  lemma {:induction false} TakeFromQueue(q: seq<Message>, maxSize: nat)
    ensures var i := FirstFitting(q, maxSize);
            if i < |q| then multiset(q) == multiset(RemoveAt(q, i)) + multiset{q[i]} && |RemoveAt(q, i)| == |q| - 1
            else q != [] ==> q[0].Size() > maxSize
  {
    var i := FirstFitting(q, maxSize);
    if i < |q| {
      RemoveAtIs(q, i);
    }
  }

  lemma {:induction false} TakeFromPending(pending: seq<Resendable>, now: real, cutoff: real, maxSize: nat)
    requires cutoff > 0.0
    ensures var i := FirstTakable(pending, now, cutoff, maxSize);
            if i < |pending| then
              var left := ReadyOf(pending[i := pending[i].(lastSent := Some(now))], now, cutoff);
              && multiset(ReadyOf(pending, now, cutoff)) == multiset(left) + multiset{pending[i].message}
              && |left| == |ReadyOf(pending, now, cutoff)| - 1
            else SomeReady(pending, now, cutoff) ==> exists r | r in pending :: r.message.Size() > maxSize
  {
    var i := FirstTakable(pending, now, cutoff, maxSize);
    if i < |pending| {
      var r := pending[i].(lastSent := Some(now));
      var a, b := pending[..i], pending[i + 1..];
      assert pending == a + ([pending[i]] + b) && pending[i := r] == a + ([r] + b);
      ReadyOfSplit(a, [pending[i]] + b, now, cutoff);
      ReadyOfSplit(a, [r] + b, now, cutoff);
      assert ([pending[i]] + b)[1..] == b && ([r] + b)[1..] == b;
      assert ReadyOf([pending[i]] + b, now, cutoff) == [pending[i].message] + ReadyOf(b, now, cutoff);
      assert ReadyOf([r] + b, now, cutoff) == ReadyOf(b, now, cutoff);
    } else if SomeReady(pending, now, cutoff) {
      var j := ReadyAt(pending, now, cutoff);
      FirstTakableExact(pending, now, cutoff, maxSize, j);
      assert pending[j] in pending;
    }
  }

  lemma {:induction false} ReadyAt(pending: seq<Resendable>, now: real, cutoff: real) returns (j: nat)
    requires SomeReady(pending, now, cutoff)
    ensures j < |pending| && pending[j].IsReady(now, cutoff)
  {
    if pending[0].IsReady(now, cutoff) {
      j := 0;
    } else {
      j := ReadyAt(pending[1..], now, cutoff);
      j := j + 1;
    }
  }

  /** Taking a message: it was queued and due, exactly it is no longer due, an unreliable channel
      gives it up and a reliable channel keeps its whole queue; nothing is taken only if something
      queued does not fit or nothing is due. */
  ghost predicate Taken(c: Channel, c': Channel, m: Option<Message>, maxSize: nat) {
    && c'.id == c.id && c'.seen == c.seen && c'.time == c.time && c'.Reliable? == c.Reliable?
    && (c.Reliable? ==> c'.resendTime == c.resendTime && Queued(c') == Queued(c))
    && match m
       case Some(x) =>
         && x in Queued(c) && x in ReadyMessages(c) && x.Size() <= maxSize
         && ReadyCount(c') == ReadyCount(c) - 1
         && multiset(ReadyMessages(c)) == multiset(ReadyMessages(c')) + multiset{x}
       case None =>
         c' == c && (AnyReady(c) ==> exists n | n in Queued(c) :: n.Size() > maxSize)
  }

  lemma {:induction false} TakeUnreliable(c: Channel, maxSize: nat)
    requires c.Unreliable?
    ensures Taken(c, Take(c, maxSize).0, Take(c, maxSize).1, maxSize)
  {
    TakeFromQueue(c.q, maxSize);
    if c.q != [] {
      assert c.q[0] in Queued(c);
    }
  }

  lemma {:induction false} TakeReliable(c: Channel, maxSize: nat)
    requires c.Reliable? && c.resendTime > 0.0
    ensures Taken(c, Take(c, maxSize).0, Take(c, maxSize).1, maxSize)
  {
    TakeFromPending(c.pending, c.time, c.resendTime, maxSize);
    var i := FirstTakable(c.pending, c.time, c.resendTime, maxSize);
    if i < |c.pending| {
      MessagesOfAt(c.pending, i);
      MessagesOfUpdate(c.pending, i, c.pending[i].(lastSent := Some(c.time)));
      ReadyOfExact(c.pending, c.time, c.resendTime, c.pending[i]);
    } else if AnyReady(c) {
      var r :| r in c.pending && r.message.Size() > maxSize;
      var j :| 0 <= j < |c.pending| && c.pending[j] == r;
      MessagesOfAt(c.pending, j);
    }
  }

  lemma {:induction false} TakeExact(c: Channel, maxSize: nat)
    requires c.Reliable? ==> c.resendTime > 0.0
    ensures Taken(c, Take(c, maxSize).0, Take(c, maxSize).1, maxSize)
  {
    if c.Unreliable? {
      TakeUnreliable(c, maxSize);
    } else {
      TakeReliable(c, maxSize);
    }
  }

  /** Entry `i` of the queue fits into `maxSize` bytes and is due: on a reliable channel, because it was
      not sent yet, or not within the resend time. */
  ghost predicate Eligible(c: Channel, i: nat, maxSize: nat)
    requires i < |Queued(c)|
  {
    match c
    case Unreliable(_, _, _, q) => q[i].Size() <= maxSize
    case Reliable(_, now, _, pending, resendTime) =>
      && pending[i].message.Size() <= maxSize
      && (pending[i].lastSent.None? || resendTime <= now - pending[i].lastSent.value)
  }

  lemma {:induction false} NothingFitsBefore(q: seq<Message>, maxSize: nat, j: nat)
    requires j < FirstFitting(q, maxSize)
    ensures maxSize < q[j].Size()
  {
    if j > 0 {
      NothingFitsBefore(q[1..], maxSize, j - 1);
    }
  }

  /** What is taken is the first entry that fits and is due, if there is one.  An unreliable queue
      closes up behind it; a reliable queue keeps it and notes the time, for this entry only. */
  lemma {:induction false} TakesFirst(c: Channel, maxSize: nat) returns (i: nat)
    ensures i <= |Queued(c)| && forall j | 0 <= j < i :: !Eligible(c, j, maxSize)
    ensures i < |Queued(c)| ==> Eligible(c, i, maxSize)
    ensures Take(c, maxSize) ==
              if i == |Queued(c)| then (c, None)
              else match c
                case Unreliable(_, _, _, q) => (c.(q := q[..i] + q[i + 1..]), Some(q[i]))
                case Reliable(_, now, _, pending, _) =>
                  (c.(pending := pending[i := Resendable(pending[i].message, Some(now))]), Some(pending[i].message))
  {
    match c {
      case Unreliable(_, _, _, q) =>
        i := FirstFitting(q, maxSize);
        forall j | 0 <= j < i
          ensures !Eligible(c, j, maxSize)
        {
          NothingFitsBefore(q, maxSize, j);
        }
        if i < |q| {
          RemoveAtIs(q, i);
        }
      case Reliable(_, now, _, pending, resendTime) =>
        i := FirstTakable(pending, now, resendTime, maxSize);
        forall j | 0 <= j < i
          ensures !Eligible(c, j, maxSize)
        {
          FirstTakableExact(pending, now, resendTime, maxSize, j);
        }
    }
  }

  /** Whether anything is due does not depend on the room there is. */
  lemma {:induction false} ReadyIff(c: Channel)
    ensures AnyReady(c) <==> exists i, room | 0 <= i < |Queued(c)| :: Eligible(c, i, room)
  {
    match c {
      case Unreliable(_, _, _, q) =>
        if q != [] {
          assert Eligible(c, 0, q[0].Size());
        }
      case Reliable(_, now, _, pending, resendTime) =>
        if AnyReady(c) {
          var j := ReadyAt(pending, now, resendTime);
          assert Eligible(c, j, pending[j].message.Size());
        }
        if i: nat, room: nat :| i < |pending| && Eligible(c, i, room) {
          ReadyOfExact(pending, now, resendTime, pending[i]);
        }
    }
  }

  /** What an ack leaves, it leaves in order. */
  lemma {:induction false} RetainInOrder(a: seq<Resendable>, b: seq<Resendable>, r: Resendable, h: Handle)
    ensures Retain(a + b, h) == Retain(a, h) + Retain(b, h)
    ensures Retain([r], h) == if r.DismissedByAck(h) then [] else [r]
  {
    if a == [] {
      assert a + b == b;
    } else {
      assert (a + b)[1..] == a[1..] + b;
      RetainInOrder(a[1..], b, r, h);
    }
  }

  /** An ack removes the messages it names and no others. */
  lemma {:induction false} RetainExact(pending: seq<Resendable>, h: Handle, r: Resendable)
    ensures r in Retain(pending, h) <==> r in pending && !r.DismissedByAck(h)
  {
    if pending != [] {
      RetainExact(pending[1..], h, r);
      assert r in pending <==> r == pending[0] || r in pending[1..];
    }
  }
}
