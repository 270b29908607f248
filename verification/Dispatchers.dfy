/** The message dispatcher (src/dispatcher.rs): message ids, fragments and their acks, the
    messages in each packet, and the two inboxes.

    `Dispatcher` is the dispatcher as a value, with one function per operation;
    `MessageDispatcher` updates its fields in place and is proved to perform those functions. */
module Dispatchers {
  import opened Words
  import opened SequenceBuffers
  import opened Messages
  import opened Channels
  import opened Reassembler

  const MAX_PAYLOAD: nat := MAX_FRAGMENTS * FRAGMENT_SIZE

  datatype FragAckStatus = Unknown | Complete | Awaiting(remaining: seq<u16>)

  datatype Dispatcher = Dispatcher(
    nextMessageId: u16,
    fragMap: Ring<FragAckStatus>,
    inPackets: Ring<seq<Handle>>,
    inProgress: InProgress,
    inbox: map<u8, seq<ReceivedMessage>>,
    ackInbox: map<u8, seq<u16>>)
  {
    predicate Valid() {
      0 < |fragMap.entries| == |fragMap.tags| && 0 < |inPackets.entries| == |inPackets.tags|
    }
  }

  function NewDispatcher(fragMapSize: nat, packetsSize: nat): Dispatcher {
    Dispatcher(0, NewRing(fragMapSize, Unknown), NewRing(packetsSize, []), map[], map[], map[])
  }

  // -- channel lists --

  function IndexOfChannel(cs: seq<Channel>, id: u8): (i: nat)
    ensures i <= |cs|
    ensures i < |cs| ==> cs[i].id == id
  {
    if cs == [] || cs[0].id == id then 0 else 1 + IndexOfChannel(cs[1..], id)
  }

  function ChannelAcked(cs: seq<Channel>, h: Handle): seq<Channel> {
    var i := IndexOfChannel(cs, h.channel);
    if i < |cs| then cs[i := AckReceived(cs[i], h)] else cs
  }

  // -- inboxes --

  function Push<T>(inbox: map<u8, seq<T>>, channel: u8, x: T): map<u8, seq<T>> {
    inbox[channel := if channel in inbox then inbox[channel] + [x] else [x]]
  }

  // -- acks of fragments --

  function Without(ids: seq<u16>, id: u16): seq<u16> {
    if ids == [] then []
    else if ids[0] == id then Without(ids[1..], id)
    else [ids[0]] + Without(ids[1..], id)
  }

  /** Strikes a fragment off its parent's list; the flag says that the list is now empty.  (The
      source panics where the entry just read cannot be written again.) */
  function AckFragment(fragMap: Ring<FragAckStatus>, parent: u16, fragment: u16): (Ring<FragAckStatus>, bool)
    requires 0 < |fragMap.entries| == |fragMap.tags|
  {
    match fragMap.Get(parent)
    case Some(Awaiting(remaining)) =>
      var left := Without(remaining, fragment);
      var noted := fragMap.Update(parent, Awaiting(left));
      if left != [] then (noted, false)
      else
        (match noted.Insert(parent, Complete, Unknown) case Ok(done) => done case Err(_) => noted, true)
    case _ => (fragMap, false)
  }

  /** What one acked message means for the sender. */
  function AckHandle(d: Dispatcher, cs: seq<Channel>, h: Handle): (Dispatcher, seq<Channel>)
    requires d.Valid()
  {
    var cs' := ChannelAcked(cs, h);
    match h.ParentId()
    case None => (d.(ackInbox := Push(d.ackInbox, h.channel, h.id)), cs')
    case Some(parent) =>
      var (fragMap', whole) := AckFragment(d.fragMap, parent, h.id);
      var d' := d.(fragMap := fragMap');
      (if whole then d'.(ackInbox := Push(d.ackInbox, h.channel, parent)) else d', cs')
  }

  function AckHandles(d: Dispatcher, cs: seq<Channel>, hs: seq<Handle>): (Dispatcher, seq<Channel>)
    requires d.Valid()
    decreases |hs|
  {
    if hs == [] then (d, cs)
    else
      var (d', cs') := AckHandle(d, cs, hs[0]);
      AckHandles(d', cs', hs[1..])
  }

  /** The messages in an acked packet are taken from the record, which forgets them. */
  function AckPacket(d: Dispatcher, cs: seq<Channel>, packet: u16): (Dispatcher, seq<Channel>)
    requires d.Valid()
  {
    var d' := d.(inPackets := d.inPackets.Remove(packet, []));
    match d.inPackets.Get(packet)
    case None => (d', cs)
    case Some(hs) => AckHandles(d', cs, hs)
  }

  function SetHandles(d: Dispatcher, packet: u16, hs: seq<Handle>): Result<Dispatcher, Error>
    requires d.Valid()
  {
    match d.inPackets.Insert(packet, hs, [])
    case Ok(inPackets') => Ok(d.(inPackets := inPackets'))
    case Err(e) => Err(e)
  }

  // -- messages coming in --

  /** A whole message goes to the inbox, a fragment to the reassembler; what reaches the inbox, if
      anything, is returned as well. */
  function ProcessReceived(d: Dispatcher, m: Message): (Dispatcher, Option<ReceivedMessage>) {
    var (ip, received) := if m.fragment.None? then (d.inProgress, Some(Single(m))) else PlaceFragment(d.inProgress, m);
    match received
    case None => (d.(inProgress := ip), None)
    case Some(r) => (d.(inProgress := ip, inbox := Push(d.inbox, ChannelOf(r), r)), received)
  }

  function ChannelOf(r: ReceivedMessage): u8 {
    match r
    case Single(m) => m.channel
    case Fragmented(fs) => if fs == [] then 0 else fs[0].channel
  }

  // -- messages going out --

  function FragmentAt(payload: bytes, parent: u16, i: nat): Fragment
    requires FRAGMENT_SIZE < |payload| <= MAX_PAYLOAD && i < NumFragments(|payload|)
  {
    Fragment(i, NumFragments(|payload|), parent)
  }

  lemma {:induction false} FragmentSendable(c: u8, payload: bytes, parent: u16, i: nat)
    requires FRAGMENT_SIZE < |payload| <= MAX_PAYLOAD && i < NumFragments(|payload|) && c < 64
    ensures Sendable(c, Slice(payload, i), Some(FragmentAt(payload, parent, i)))
    ensures SentFragment(WrapAdd(parent, i), FragmentAt(payload, parent, i))
  {
    SplitArithmetic(|payload|, i);
    assert FragmentAt(payload, parent, i).IsLast() <==> i == NumFragments(|payload|) - 1;
    ParentOfFragment(parent, i);
  }

  /** A fragment's id less its index is its parent's id, also where the ids wrap. */
  lemma {:induction false} ParentOfFragment(parent: u16, i: nat)
    ensures WrapSub(WrapAdd(parent, i), i) == parent
  {
    WrapArithmetic(parent + i, i);
  }

  function EnqueueFragments(c: Channel, payload: bytes, parent: u16, i: nat): Channel
    requires FRAGMENT_SIZE < |payload| <= MAX_PAYLOAD && i <= NumFragments(|payload|) && c.id < 64
    decreases NumFragments(|payload|) - i
  {
    if i == NumFragments(|payload|) then c
    else
      FragmentSendable(c.id, payload, parent, i);
      EnqueueFragments(Enqueue(c, WrapAdd(parent, i), Slice(payload, i), Some(FragmentAt(payload, parent, i))),
                       payload, parent, i + 1)
  }

  function FragmentIds(parent: u16, n: nat): seq<u16> {
    if n == 0 then [] else FragmentIds(parent, n - 1) + [WrapAdd(parent, n - 1)]
  }

  /** Queues a payload on a channel, whole or in fragments.  The fragments stay queued even when
      their acks cannot be tracked. */
  function AddMessage(d: Dispatcher, c: Channel, payload: bytes): (Dispatcher, Channel, Result<u16, Error>)
    requires d.Valid() && c.id < 64 && |payload| <= MAX_PAYLOAD
  {
    var id := d.nextMessageId;
    if |payload| <= FRAGMENT_SIZE then
      (d.(nextMessageId := WrapAdd(id, 1)), Enqueue(c, id, payload, None), Ok(id))
    else
      var n := NumFragments(|payload|);
      var d' := d.(nextMessageId := WrapAdd(id, n));
      var c' := EnqueueFragments(c, payload, id, 0);
      match d.fragMap.Insert(id, Awaiting(FragmentIds(id, n)), Unknown)
      case Ok(fragMap') => (d'.(fragMap := fragMap'), c', Ok(id))
      case Err(e) => (d', c', Err(e))
  }

  // -- the dispatcher as an object --

  class MessageDispatcher {
    var nextMessageId: u16
    var fragMap: Ring<FragAckStatus>
    var inPackets: Ring<seq<Handle>>
    var inProgress: InProgress
    var inbox: map<u8, seq<ReceivedMessage>>
    var ackInbox: map<u8, seq<u16>>

    function Model(): Dispatcher
      reads this
    {
      Dispatcher(nextMessageId, fragMap, inPackets, inProgress, inbox, ackInbox)
    }

    constructor (fragMapSize: nat, packetsSize: nat)
      ensures Model() == NewDispatcher(fragMapSize, packetsSize)
    {
      nextMessageId := 0;
      fragMap := NewRing(fragMapSize, Unknown);
      inPackets := NewRing(packetsSize, []);
      inProgress, inbox, ackInbox := map[], map[], map[];
    }

    method ProcessReceivedMessage(m: Message)
      modifies this
      ensures Model() == ProcessReceived(old(Model()), m).0
    {
      var received: Option<ReceivedMessage>;
      if m.fragment.None? {
        received := Some(Single(m));
      } else {
        var placed := PlaceFragment(inProgress, m);
        inProgress, received := placed.0, placed.1;
      }
      if received.Some? {
        inbox := Push(inbox, ChannelOf(received.value), received.value);
      }
    }

    method TakeReceivedMessages(channel: u8) returns (ms: seq<ReceivedMessage>)
      modifies this
      ensures Model() == old(Model()).(inbox := old(inbox)[channel := []])
      ensures ms == if channel in old(inbox) then old(inbox)[channel] else []
    {
      ms := if channel in inbox then inbox[channel] else [];
      inbox := inbox[channel := []];
    }

    method DrainMessageAcks(channel: u8) returns (ids: seq<u16>)
      modifies this
      ensures Model() == old(Model()).(ackInbox := old(ackInbox)[channel := []])
      ensures ids == if channel in old(ackInbox) then old(ackInbox)[channel] else []
    {
      ids := if channel in ackInbox then ackInbox[channel] else [];
      ackInbox := ackInbox[channel := []];
    }

    method SetPacketMessageHandles(packet: u16, handles: seq<Handle>) returns (r: Result<(), Error>)
      requires Model().Valid()
      modifies this
      ensures var set' := SetHandles(old(Model()), packet, handles);
              if set'.Ok? then r == Ok(()) && Model() == set'.value
              else r == Err(set'.error) && Model() == old(Model())
    {
      match inPackets.Insert(packet, handles, []) {
        case Ok(inPackets') =>
          inPackets := inPackets';
          return Ok(());
        case Err(e) =>
          return Err(e);
      }
    }

    method AckFragmentMessage(parent: u16, fragment: u16) returns (whole: bool)
      requires Model().Valid()
      modifies this
      ensures Model() == old(Model()).(fragMap := AckFragment(old(fragMap), parent, fragment).0)
      ensures whole == AckFragment(old(fragMap), parent, fragment).1
    {
      var entry := fragMap.Get(parent);
      if entry.None? {
        return false;
      }
      match entry.value {
        case Complete =>
          return false;
        case Unknown =>
          return false;
        case Awaiting(remaining) =>
          var left: seq<u16> := [];
          for i := 0 to |remaining|
            invariant Without(remaining, fragment) == left + Without(remaining[i..], fragment)
          {
            assert remaining[i..][1..] == remaining[i + 1..];
            if remaining[i] != fragment {
              assert left + ([remaining[i]] + Without(remaining[i + 1..], fragment))
                  == left + [remaining[i]] + Without(remaining[i + 1..], fragment);
              left := left + [remaining[i]];
            }
          }
          assert left == Without(remaining, fragment);
          fragMap := fragMap.Update(parent, Awaiting(left));
          if left == [] {
            match fragMap.Insert(parent, Complete, Unknown) {
              case Ok(done) => fragMap := done;
              case Err(_) =>
            }
            return true;
          }
          return false;
      }
    }

    method AckedPacket(packet: u16, channels: seq<Channel>) returns (channels': seq<Channel>)
      requires Model().Valid()
      modifies this
      ensures (Model(), channels') == AckPacket(old(Model()), channels, packet)
    {
      var found := inPackets.Get(packet);
      inPackets := inPackets.Remove(packet, []);
      channels' := channels;
      if found.Some? {
        var handles := found.value;
        ghost var result := AckHandles(Model(), channels, handles);
        for i := 0 to |handles|
          invariant Model().Valid()
          invariant AckHandles(Model(), channels', handles[i..]) == result
        {
          assert handles[i..][1..] == handles[i + 1..];
          var h := handles[i];
          ghost var was := Model();
          channels' := ChannelAcked(channels', h);
          match h.ParentId() {
            case Some(parent) =>
              var whole := AckFragmentMessage(parent, h.id);
              if whole {
                ackInbox := Push(ackInbox, h.channel, parent);
              }
            case None =>
              ackInbox := Push(ackInbox, h.channel, h.id);
          }
        }
      }
    }

    method NextMessageId() returns (id: u16)
      modifies this
      ensures id == old(nextMessageId)
      ensures Model() == old(Model()).(nextMessageId := WrapAdd(old(nextMessageId), 1))
    {
      id := nextMessageId;
      nextMessageId := WrapAdd(nextMessageId, 1);
    }

    method AddMessageToChannel(c: Channel, payload: bytes) returns (c': Channel, r: Result<u16, Error>)
      requires Model().Valid() && c.id < 64 && |payload| <= MAX_PAYLOAD
      modifies this
      ensures (Model(), c', r) == AddMessage(old(Model()), c, payload)
    {
      if |payload| <= FRAGMENT_SIZE {
        var id := NextMessageId();
        c' := Enqueue(c, id, payload, None);
        r := Ok(id);
      } else {
        c', r := AddLargeMessageToChannel(c, payload);
      }
    }

    static method EnqueueFragment(c: Channel, payload: bytes, parent: u16, id: u16, index: nat, numFragments: u16)
      returns (c': Channel)
      requires FRAGMENT_SIZE < |payload| <= MAX_PAYLOAD && c.id < 64
      requires numFragments == NumFragments(|payload|) && index < numFragments && id == WrapAdd(parent, index)
      ensures c'.id == c.id
      ensures EnqueueFragments(c', payload, parent, index + 1) == EnqueueFragments(c, payload, parent, index)
    {
      var payloadSize: u16 :=
        if index == numFragments - 1
        then WrapSub(Wrap(|payload|), Wrap((numFragments - 1) * FRAGMENT_SIZE))
        else FRAGMENT_SIZE;
      var start := index * FRAGMENT_SIZE;
      var end := start + payloadSize;
      SliceAt(payload, index, end);
      FragmentSendable(c.id, payload, parent, index);
      c' := Enqueue(c, id, payload[start..end], Some(Fragment(index, numFragments, parent)));
    }

    method AddLargeMessageToChannel(c: Channel, payload: bytes) returns (c': Channel, r: Result<u16, Error>)
      requires Model().Valid() && c.id < 64 && FRAGMENT_SIZE < |payload| <= MAX_PAYLOAD
      modifies this
      ensures (Model(), c', r) == AddMessage(old(Model()), c, payload)
    {
      hide Enqueue, Slice, FragmentAt, EnqueueFragments, Wrap;
      var remainder := if |payload| % FRAGMENT_SIZE > 0 then 1 else 0;
      var numFragments: u16 := |payload| / FRAGMENT_SIZE + remainder;
      var fragIds: seq<u16> := [];
      var id := NextMessageId();
      var parent := id;
      WrapSmall(parent);
      c' := c;
      var index: nat := 0;
      while index < numFragments
        invariant index <= numFragments && c'.id == c.id && (index == 0 ==> id == parent)
        invariant fragIds == FragmentIds(parent, index)
        invariant Model() == old(Model()).(nextMessageId := WrapAdd(parent, if index == 0 then 1 else index))
        invariant EnqueueFragments(c', payload, parent, index) == EnqueueFragments(c, payload, parent, 0)
      {
        if index > 0 {
          id := NextMessageId();
          WrapArithmetic(parent + index, 1);
        }
        fragIds := fragIds + [id];
        c' := EnqueueFragment(c', payload, parent, id, index, numFragments);
        index := index + 1;
      }
      assert numFragments != 0;
      EnqueuedAll(c', payload, parent);
      match fragMap.Insert(parent, Awaiting(fragIds), Unknown) {
        case Ok(fragMap') =>
          fragMap := fragMap';
          r := Ok(parent);
        case Err(e) =>
          r := Err(e);
      }
    }
  }

  lemma {:induction false} EnqueuedAll(c: Channel, payload: bytes, parent: u16)
    requires FRAGMENT_SIZE < |payload| <= MAX_PAYLOAD && c.id < 64
    ensures EnqueueFragments(c, payload, parent, NumFragments(|payload|)) == c
  {
  }

  lemma {:induction false} SliceAt(payload: bytes, i: nat, end: nat)
    requires FRAGMENT_SIZE < |payload| <= MAX_PAYLOAD && i < NumFragments(|payload|)
    requires end == i * FRAGMENT_SIZE + FragmentLen(|payload|, i)
    ensures end <= |payload| && payload[i * FRAGMENT_SIZE..end] == Slice(payload, i)
  {
    SplitArithmetic(|payload|, i);
  }
}
