/** Fragmenting and reassembling (src/dispatcher.rs, src/message_reassembler.rs,
    src/received_message.rs). */
module Reassembler {
  import opened Words
  import opened Messages

  const MAX_FRAGMENTS: nat := 1024

  // -- splitting a payload --

  function NumFragments(len: nat): u16
    requires len <= MAX_FRAGMENTS * FRAGMENT_SIZE
  {
    len / FRAGMENT_SIZE + if len % FRAGMENT_SIZE > 0 then 1 else 0
  }

  /** The size of fragment `index`, in wrapping 16-bit arithmetic as in a release build. */
  function FragmentLen(len: nat, index: nat): u16
    requires len <= MAX_FRAGMENTS * FRAGMENT_SIZE
  {
    var n := NumFragments(len);
    if index == n - 1 then WrapSub(Wrap(len), Wrap((n - 1) * FRAGMENT_SIZE)) else FRAGMENT_SIZE
  }

  /** The wrapping arithmetic gives the true sizes: every fragment but the last is full, and the
      last holds what remains, which is at least one byte and at most a full fragment. */
  lemma {:induction false} SplitArithmetic(len: nat, index: nat)
    requires FRAGMENT_SIZE < len <= MAX_FRAGMENTS * FRAGMENT_SIZE
    requires index < NumFragments(len)
    ensures var n := NumFragments(len);
            && 2 <= n <= MAX_FRAGMENTS
            && (n - 1) * FRAGMENT_SIZE < len <= n * FRAGMENT_SIZE
            && FragmentLen(len, index) == (if index == n - 1 then len - (n - 1) * FRAGMENT_SIZE else FRAGMENT_SIZE)
            && 1 <= FragmentLen(len, index) <= FRAGMENT_SIZE
            && index * FRAGMENT_SIZE + FragmentLen(len, index) <= len
  {
    var n := NumFragments(len);
    WrapArithmetic(len, (n - 1) * FRAGMENT_SIZE);
  }

  /** The bytes that fragment `index` carries. */
  function Slice(payload: bytes, index: nat): bytes
    requires FRAGMENT_SIZE < |payload| <= MAX_FRAGMENTS * FRAGMENT_SIZE
    requires index < NumFragments(|payload|)
  {
    SplitArithmetic(|payload|, index);
    payload[index * FRAGMENT_SIZE..index * FRAGMENT_SIZE + FragmentLen(|payload|, index)]
  }

  function Join(parts: seq<bytes>): bytes {
    if parts == [] then [] else parts[0] + Join(parts[1..])
  }

  function Slices(payload: bytes): seq<bytes>
    requires FRAGMENT_SIZE < |payload| <= MAX_FRAGMENTS * FRAGMENT_SIZE
  {
    seq(NumFragments(|payload|), i requires 0 <= i < NumFragments(|payload|) => Slice(payload, i))
  }

  lemma {:induction false} JoinFrom(payload: bytes, i: nat)
    requires FRAGMENT_SIZE < |payload| <= MAX_FRAGMENTS * FRAGMENT_SIZE
    requires i < NumFragments(|payload|)
    ensures i * FRAGMENT_SIZE <= |payload|
    ensures Join(Slices(payload)[i..]) == payload[i * FRAGMENT_SIZE..]
    decreases NumFragments(|payload|) - i
  {
    SplitArithmetic(|payload|, i);
    var n := NumFragments(|payload|);
    var rest := Slices(payload)[i..];
    assert rest[0] == Slice(payload, i);
    assert rest[1..] == Slices(payload)[i + 1..];
    if i + 1 < n {
      JoinFrom(payload, i + 1);
      assert payload[i * FRAGMENT_SIZE..] == Slice(payload, i) + payload[(i + 1) * FRAGMENT_SIZE..];
    }
  }

  /** The slices partition the payload. */
  lemma {:induction false} JoinSlices(payload: bytes)
    requires FRAGMENT_SIZE < |payload| <= MAX_FRAGMENTS * FRAGMENT_SIZE
    ensures Join(Slices(payload)) == payload
  {
    SplitArithmetic(|payload|, 0);
    JoinFrom(payload, 0);
    assert Slices(payload)[0..] == Slices(payload);
    assert payload[0..] == payload;
  }

  // -- putting fragments together again --

  datatype ReceivedMessage = Single(message: Message) | Fragmented(fragments: seq<Message>) {
    function Id(): u16
      requires Fragmented? ==> fragments != [] && fragments[0].fragment.Some?
    {
      match this
      case Single(m) => m.id
      case Fragmented(fs) => fs[0].fragment.value.parentId
    }

    function Channel(): u8
      requires Fragmented? ==> fragments != []
    {
      match this
      case Single(m) => m.channel
      case Fragmented(fs) => fs[0].channel
    }

    /** What the chained readers yield. */
    function Payload(): bytes {
      match this
      case Single(m) => m.buffer
      case Fragmented(fs) => Join(seq(|fs|, i requires 0 <= i < |fs| => fs[i].buffer))
    }
  }

  datatype Incomplete = Incomplete(numFragments: u16, numReceived: nat, fragments: seq<Option<Message>>)

  type InProgress = map<u16, Incomplete>

  function NewIncomplete(numFragments: u16): Incomplete {
    Incomplete(numFragments, 0, seq(numFragments, _ => None))
  }

  /** Stores a fragment; the flag says that it was the last one missing. */
  function Store(x: Incomplete, index: nat, m: Message): (Incomplete, bool)
    requires index < |x.fragments|
  {
    if x.fragments[index].Some? then (x, false)
    else
      (Incomplete(x.numFragments, x.numReceived + 1, x.fragments[index := Some(m)]),
       x.numReceived + 1 == x.numFragments)
  }

  function Present(fragments: seq<Option<Message>>): seq<Message> {
    if fragments == [] then []
    else match fragments[0]
      case Some(m) => [m] + Present(fragments[1..])
      case None => Present(fragments[1..])
  }

  /** What the source asserts about a fragment before it stores it. */
  predicate Placeable(ip: InProgress, m: Message) {
    && m.fragment.Some?
    && var f := m.fragment.value;
       f.numFragments <= MAX_FRAGMENTS ==>
         if f.parentId in ip then f.index < |ip[f.parentId].fragments|
         else 1 < f.numFragments && f.index < f.numFragments
  }

  /** One fragment into the reassembler.  (Where the source panics, nothing happens here.) */
  function PlaceFragment(ip: InProgress, m: Message): (InProgress, Option<ReceivedMessage>) {
    if !Placeable(ip, m) then (ip, None)
    else
      var f := m.fragment.value;
      if f.numFragments > MAX_FRAGMENTS then (ip, None)
      else if f.parentId in ip then
        var (x, ready) := Store(ip[f.parentId], f.index, m);
        if ready then (ip - {f.parentId}, Some(Fragmented(Present(x.fragments))))
        else (ip[f.parentId := x], None)
      else
        var (x, _) := Store(NewIncomplete(f.numFragments), f.index, m);
        (ip[f.parentId := x], None)
  }

  class IncompleteMessage {
    const numFragments: u16
    var numReceived: nat
    const fragments: array<Option<Message>>

    ghost function Model(): Incomplete
      reads this, fragments
    {
      Incomplete(numFragments, numReceived, fragments[..])
    }

    constructor (numFragments: u16)
      requires 1 < numFragments <= MAX_FRAGMENTS
      ensures fresh(fragments)
      ensures fragments.Length == numFragments && Model() == NewIncomplete(numFragments)
    {
      this.numFragments := numFragments;
      numReceived := 0;
      fragments := new Option<Message>[numFragments](_ => None);
      new;
      assert fragments[..] == NewIncomplete(numFragments).fragments;
    }

    method AddFragment(index: u16, m: Message) returns (complete: bool)
      requires index < fragments.Length
      modifies this, fragments
      ensures (Model(), complete) == Store(old(Model()), index, m)
    {
      if fragments[index].Some? {
        return false;
      }
      fragments[index] := Some(m);
      numReceived := numReceived + 1;
      assert fragments[..] == old(fragments[..])[index := Some(m)];
      return numReceived == numFragments;
    }

    method TakeFragments() returns (ms: seq<Message>)
      ensures ms == Present(Model().fragments)
    {
      ms := [];
      for i := 0 to fragments.Length
        invariant Present(fragments[..]) == ms + Present(fragments[i..])
      {
        assert fragments[i..][0] == fragments[i] && fragments[i..][1..] == fragments[i + 1..];
        match fragments[i] {
          case Some(m) =>
            assert ms + ([m] + Present(fragments[i + 1..])) == (ms + [m]) + Present(fragments[i + 1..]);
            ms := ms + [m];
          case None =>
        }
      }
    }
  }

  class MessageReassembler {
    var inProgress: InProgress

    constructor ()
      ensures inProgress == map[]
    {
      inProgress := map[];
    }

    method AddFragment(m: Message) returns (received: Option<ReceivedMessage>)
      requires Placeable(inProgress, m)
      modifies this
      ensures (inProgress, received) == PlaceFragment(old(inProgress), m)
    {
      var f := m.fragment.value;
      if f.numFragments > MAX_FRAGMENTS {
        return None;
      }
      var ready := false;
      if f.parentId in inProgress {
        var (x, last) := Store(inProgress[f.parentId], f.index, m);
        inProgress := inProgress[f.parentId := x];
        ready := last;
      } else {
        var (x, _) := Store(NewIncomplete(f.numFragments), f.index, m);
        inProgress := inProgress[f.parentId := x];
      }
      if ready {
        var fragments := Present(inProgress[f.parentId].fragments);
        inProgress := inProgress - {f.parentId};
        assert inProgress == old(inProgress) - {f.parentId};
        return Some(Fragmented(fragments));
      }
      return None;
    }
  }
}
