/** Messages and their wire form (src/protocol/message.rs). */
module Messages {
  import opened Words
  import opened Wire

  const FRAGMENT_SIZE: nat := 1024
  const MAX_CHANNELS: nat := 32

  datatype Fragment = Fragment(index: u16, numFragments: u16, parentId: u16) {
    /** With wrapping subtraction, as in a release build. */
    predicate IsLast() {
      index == WrapSub(numFragments, 1)
    }
  }

  datatype SizeMode = Small | Large

  function ModeFor(len: nat): SizeMode {
    if len > 255 then Large else Small
  }

  /** On the sending side `buffer` holds headers and payload, on the receiving side the payload. */
  datatype Message = Message(
    id: u16,
    sizeMode: SizeMode,
    channel: u8,
    buffer: bytes,
    fragment: Option<Fragment>)
  {
    /** The space a message is taken to need in a packet. */
    function Size(): nat {
      |buffer| + 1 +
      (match (fragment, sizeMode)
       case (None, Small) => 1
       case (None, Large) => 2
       case (Some(f), Small) => if f.IsLast() then 5 else 3
       case (Some(f), Large) => if f.IsLast() then 7 else 5) +
      2
    }
  }

  function HeaderSize(fragment: Option<Fragment>, mode: SizeMode): nat {
    1 +
    (match fragment
     case Some(f) => (if mode.Small? then 2 else 4) + if f.IsLast() then 2 else 0
     case None => if mode.Large? then 2 else 1) +
    2
  }

  // -- writing --

  /** Two flags and the channel; the shift by three keeps five bits of the channel. */
  function PrefixByte(fragmented: bool, mode: SizeMode, channel: u8): u8 {
    (if fragmented then 1 else 0) + (if mode.Large? then 2 else 0) + 8 * (channel % 32)
  }

  /** The width of the size, index and count fields. */
  function NumberWidth(mode: SizeMode): nat {
    if mode.Small? then 1 else 2
  }

  function PutNumber(x: u16, mode: SizeMode): (b: bytes)
    ensures |b| == NumberWidth(mode)
  {
    if mode.Small? then [x % 256] else PutU16(x)
  }

  function FragmentHeader(f: Fragment, payloadLen: nat, mode: SizeMode): Result<bytes, Error>
    requires payloadLen <= FRAGMENT_SIZE
  {
    var position := PutNumber(f.index, mode) + PutNumber(f.numFragments, mode);
    if f.IsLast() then Ok(position + PutU16(payloadLen))
    else if payloadLen != FRAGMENT_SIZE then Err(InvalidMessage)
    else Ok(position)
  }

  function PlaceHeader(fragment: Option<Fragment>, payloadLen: nat, mode: SizeMode): Result<bytes, Error>
    requires payloadLen <= FRAGMENT_SIZE
    requires mode.Small? ==> payloadLen < 256
  {
    match fragment
    case Some(f) => FragmentHeader(f, payloadLen, mode)
    case None => Ok(PutNumber(payloadLen, mode))
  }

  function WriteHeaders(id: u16, fragment: Option<Fragment>, mode: SizeMode, channel: u8, payloadLen: nat)
    : Result<bytes, Error>
    requires payloadLen <= FRAGMENT_SIZE
    requires mode.Small? ==> payloadLen < 256
  {
    match PlaceHeader(fragment, payloadLen, mode)
    case Ok(place) => Ok([PrefixByte(fragment.Some?, mode, channel)] + PutU16(id) + place)
    case Err(e) => Err(e)
  }

  /** What the source demands of the callers of `new_outbound`: it panics otherwise. */
  predicate Sendable(channel: u8, payload: bytes, fragment: Option<Fragment>) {
    && channel < 64
    && |payload| <= FRAGMENT_SIZE
    && (fragment.Some? && !fragment.value.IsLast() ==> |payload| == FRAGMENT_SIZE)
  }

  function NewOutbound(id: u16, channel: u8, payload: bytes, fragment: Option<Fragment>): (m: Message)
    requires Sendable(channel, payload, fragment)
    ensures |m.buffer| == HeaderSize(fragment, m.sizeMode) + |payload|
    ensures m.Size() <= 1043
  {
    var mode := ModeFor(|payload|);
    var headers := WriteHeaders(id, fragment, mode, channel, |payload|).value;
    Message(id, mode, channel, headers + payload, fragment)
  }

  /** The message as the receiver should see it. */
  function Inbound(id: u16, channel: u8, payload: bytes, fragment: Option<Fragment>): Message {
    Message(id, ModeFor(|payload|), channel, payload, fragment)
  }

  // -- parsing --

  function NumberAt(s: bytes, pos: nat, mode: SizeMode): u16
    requires pos + NumberWidth(mode) <= |s|
  {
    if mode.Small? then s[pos] else U16At(s, pos)
  }

  function ParseFragmentHeader(s: bytes, pos: nat, mode: SizeMode, id: u16): (r: Read<(Fragment, u16)>)
    ensures r.Ok? ==> pos < r.value.1 <= |s|
  {
    var w := NumberWidth(mode);
    if pos + 2 * w > |s| then Err(Io)
    else
      var index := NumberAt(s, pos, mode);
      var f := Fragment(index, NumberAt(s, pos + w, mode), WrapSub(id, index));
      if !f.IsLast() then Ok(((f, FRAGMENT_SIZE), pos + 2 * w))
      else if pos + 2 * w + 2 > |s| then Err(Io)
      else Ok(((f, U16At(s, pos + 2 * w)), pos + 2 * w + 2))
  }

  /** The part of the header that depends on the two flags: the fragment and the payload size. */
  function ParsePlace(s: bytes, pos: nat, fragmented: bool, mode: SizeMode, id: u16)
    : (r: Read<(Option<Fragment>, u16)>)
    ensures r.Ok? ==> pos < r.value.1 <= |s|
  {
    if fragmented then
      match ParseFragmentHeader(s, pos, mode, id)
      case Ok(((f, size), p)) => Ok(((Some(f), size), p))
      case Err(e) => Err(e)
    else if pos + NumberWidth(mode) > |s| then Err(Io)
    else Ok(((None, NumberAt(s, pos, mode)), pos + NumberWidth(mode)))
  }

  function ParseMessage(s: bytes, pos: nat): (r: Read<Message>)
    ensures r.Ok? ==> pos < r.value.1 <= |s|
  {
    if pos + 3 > |s| then Err(Io)
    else
      var mode := if s[pos] / 2 % 2 != 0 then Large else Small;
      var id := U16At(s, pos + 1);
      match ParsePlace(s, pos + 3, s[pos] % 2 != 0, mode, id)
      case Err(e) => Err(e)
      case Ok(((fragment, size), p)) =>
        if |s| - p < size then Err(InvalidMessage)
        else Ok((Message(id, mode, s[pos] / 8, s[p..p + size], fragment), p + size))
  }

  method ParseFragment(reader: Cursor, mode: SizeMode, id: u16) returns (r: Result<(Fragment, u16), Error>)
    requires reader.Valid()
    modifies reader
    ensures reader.Valid()
    ensures var parsed := ParseFragmentHeader(reader.buf, old(reader.pos), mode, id);
            if parsed.Ok? then r == Ok(parsed.value.0) && reader.pos == parsed.value.1
            else r == Err(parsed.error)
  {
    var index, numFragments: u16;
    if mode.Small? {
      index :- reader.ReadU8();
      numFragments :- reader.ReadU8();
    } else {
      index :- reader.ReadU16();
      numFragments :- reader.ReadU16();
    }
    var payloadSize: u16 := FRAGMENT_SIZE;
    if index == WrapSub(numFragments, 1) {
      payloadSize :- reader.ReadU16();
    }
    return Ok((Fragment(index, numFragments, WrapSub(id, index)), payloadSize));
  }

  method Parse(reader: Cursor) returns (r: Result<Message, Error>)
    requires reader.Valid()
    modifies reader
    ensures reader.Valid()
    ensures var parsed := ParseMessage(reader.buf, old(reader.pos));
            if parsed.Ok? then r == Ok(parsed.value.0) && reader.pos == parsed.value.1
            else r == Err(parsed.error)
  {
    var prefix :- reader.ReadU8();
    var mode := if prefix / 2 % 2 != 0 then Large else Small;
    var id :- reader.ReadU16();
    var channel := prefix / 8;
    var fragment: Option<Fragment> := None;
    var payloadSize: u16;
    if prefix % 2 == 0 {
      if mode.Small? {
        payloadSize :- reader.ReadU8();
      } else {
        payloadSize :- reader.ReadU16();
      }
    } else {
      var parsed :- ParseFragment(reader, mode, id);
      fragment, payloadSize := Some(parsed.0), parsed.1;
    }
    if reader.Remaining() < payloadSize {
      return Err(InvalidMessage);
    }
    var start := reader.pos;
    reader.pos := start + payloadSize;
    return Ok(Message(id, mode, channel, reader.buf[start..start + payloadSize], fragment));
  }

  // -- the round trip --

  /** A fragment as the sender makes it: in range, and numbered from its parent. */
  ghost predicate SentFragment(id: u16, f: Fragment) {
    f.index < f.numFragments && f.parentId == WrapSub(id, f.index)
  }

  /** The fields that the message header has room for. */
  predicate FitsHeader(channel: u8, payload: bytes, fragment: Option<Fragment>) {
    channel < MAX_CHANNELS &&
    (fragment.Some? && |payload| <= 255 ==> fragment.value.numFragments <= 255)
  }

  lemma {:induction false} PrefixReads(fragmented: bool, mode: SizeMode, channel: u8)
    ensures var b := PrefixByte(fragmented, mode, channel);
            && (b % 2 != 0 <==> fragmented)
            && (b / 2 % 2 != 0 <==> mode.Large?)
            && b / 8 == channel % 32
  {
  }

  lemma {:induction false} NumberReads(s: bytes, pos: nat, x: u16, mode: SizeMode)
    requires At(s, pos, PutNumber(x, mode))
    ensures NumberAt(s, pos, mode) == if mode.Small? then x % 256 else x
  {
    if mode.Small? {
      ReadU8(s, pos, x % 256);
    } else {
      ReadU16(s, pos, x);
    }
  }

  /** A fragment header keeps its place and size when its fields fit. */
  lemma {:induction false} FragmentHeaderReads(s: bytes, pos: nat, id: u16, f: Fragment, size: nat, mode: SizeMode)
    requires SentFragment(id, f) && size <= FRAGMENT_SIZE && (mode.Small? <==> size <= 255)
    requires !f.IsLast() ==> size == FRAGMENT_SIZE
    requires mode.Small? ==> f.numFragments <= 255
    requires At(s, pos, FragmentHeader(f, size, mode).value)
    ensures ParseFragmentHeader(s, pos, mode, id)
         == Ok(((f, size), pos + |FragmentHeader(f, size, mode).value|))
  {
    var w := NumberWidth(mode);
    var tail := if f.IsLast() then PutU16(size) else [];
    assert FragmentHeader(f, size, mode).value
        == (PutNumber(f.index, mode) + PutNumber(f.numFragments, mode)) + tail;
    AtSplit(s, pos, PutNumber(f.index, mode) + PutNumber(f.numFragments, mode), tail);
    AtSplit(s, pos, PutNumber(f.index, mode), PutNumber(f.numFragments, mode));
    NumberReads(s, pos, f.index, mode);
    NumberReads(s, pos + w, f.numFragments, mode);
    if f.IsLast() {
      ReadU16(s, pos + 2 * w, size);
    }
  }

  lemma {:induction false} PlaceReads(s: bytes, pos: nat, id: u16, fragment: Option<Fragment>, size: nat,
                                      mode: SizeMode)
    requires size <= FRAGMENT_SIZE && (mode.Small? <==> size <= 255)
    requires fragment.Some? ==>
               && SentFragment(id, fragment.value)
               && (!fragment.value.IsLast() ==> size == FRAGMENT_SIZE)
               && (mode.Small? ==> fragment.value.numFragments <= 255)
    requires At(s, pos, PlaceHeader(fragment, size, mode).value)
    ensures ParsePlace(s, pos, fragment.Some?, mode, id)
         == Ok(((fragment, size), pos + |PlaceHeader(fragment, size, mode).value|))
  {
    match fragment {
      case Some(f) => FragmentHeaderReads(s, pos, id, f, size, mode);
      case None => NumberReads(s, pos, size, mode);
    }
  }

  /** Where the parts of a written message stand. */
  lemma {:induction false} MessageParts(s: bytes, pos: nat, m: Message, payload: bytes)
    requires Sendable(m.channel, payload, m.fragment)
    requires m == NewOutbound(m.id, m.channel, payload, m.fragment)
    requires At(s, pos, m.buffer)
    ensures var prefix := PrefixByte(m.fragment.Some?, m.sizeMode, m.channel);
            var place := PlaceHeader(m.fragment, |payload|, m.sizeMode).value;
            && GetU8(s, pos) == Ok((prefix, pos + 1))
            && GetU16(s, pos + 1) == Ok((m.id, pos + 3))
            && At(s, pos + 3, place)
            && At(s, pos + 3 + |place|, payload)
            && |m.buffer| == 3 + |place| + |payload|
  {
    var prefix := PrefixByte(m.fragment.Some?, m.sizeMode, m.channel);
    var place := PlaceHeader(m.fragment, |payload|, m.sizeMode).value;
    assert m.buffer == ([prefix] + PutU16(m.id) + place) + payload;
    AtSplit(s, pos, [prefix] + PutU16(m.id) + place, payload);
    AtSplit(s, pos, [prefix] + PutU16(m.id), place);
    AtSplit(s, pos, [prefix], PutU16(m.id));
    ReadU8(s, pos, prefix);
    ReadU16(s, pos + 1, m.id);
  }

  /** The message part of the wire round trip: a message whose fields fit comes back whole, and
      the cursor stops right behind it. */
  lemma {:induction false} MessageReads(s: bytes, pos: nat, id: u16, channel: u8, payload: bytes,
                                        fragment: Option<Fragment>)
    requires Sendable(channel, payload, fragment) && FitsHeader(channel, payload, fragment)
    requires fragment.Some? ==> SentFragment(id, fragment.value)
    requires At(s, pos, NewOutbound(id, channel, payload, fragment).buffer)
    ensures ParseMessage(s, pos)
         == Ok((Inbound(id, channel, payload, fragment), pos + |NewOutbound(id, channel, payload, fragment).buffer|))
  {
    var m := NewOutbound(id, channel, payload, fragment);
    MessageParts(s, pos, m, payload);
    PrefixReads(fragment.Some?, m.sizeMode, channel);
    PlaceReads(s, pos + 3, id, fragment, |payload|, m.sizeMode);
  }

  /** And only then: a last fragment of at most 255 bytes writes its index and count as single
      bytes, so the 256th and later fragments of a message come back as something else. */
  lemma {:induction false} MessageRoundTripIff(s: bytes, pos: nat, id: u16, channel: u8, payload: bytes,
                                               fragment: Option<Fragment>)
    requires Sendable(channel, payload, fragment)
    requires fragment.Some? ==> SentFragment(id, fragment.value)
    requires At(s, pos, NewOutbound(id, channel, payload, fragment).buffer)
    ensures ParseMessage(s, pos)
         == Ok((Inbound(id, channel, payload, fragment), pos + |NewOutbound(id, channel, payload, fragment).buffer|))
       <==> FitsHeader(channel, payload, fragment)
    ensures ParseMessage(s, pos).Ok? && ParseMessage(s, pos).value.0 == Inbound(id, channel, payload, fragment)
       ==> FitsHeader(channel, payload, fragment)
  {
    if FitsHeader(channel, payload, fragment) {
      MessageReads(s, pos, id, channel, payload, fragment);
    } else {
      var m := NewOutbound(id, channel, payload, fragment);
      MessageParts(s, pos, m, payload);
      PrefixReads(fragment.Some?, m.sizeMode, channel);
      if channel < MAX_CHANNELS {
        var f := fragment.value;
        var place := PlaceHeader(fragment, |payload|, m.sizeMode).value;
        assert place == [f.index % 256] + ([f.numFragments % 256] + place[2..]);
        AtSplit(s, pos + 3, [f.index % 256], [f.numFragments % 256] + place[2..]);
        AtSplit(s, pos + 4, [f.numFragments % 256], place[2..]);
        ReadU8(s, pos + 3, f.index % 256);
        ReadU8(s, pos + 4, f.numFragments % 256);
      }
    }
  }

  // -- outbound messages as such --

  /** A message that `new_outbound` made, for a fragment numbered from its parent. */
  ghost predicate IsOutbound(m: Message) {
    && HeaderSize(m.fragment, m.sizeMode) <= |m.buffer|
    && Sendable(m.channel, PayloadOf(m), m.fragment)
    && (m.fragment.Some? ==> SentFragment(m.id, m.fragment.value))
    && m == NewOutbound(m.id, m.channel, PayloadOf(m), m.fragment)
  }

  ghost function PayloadOf(m: Message): bytes
    requires HeaderSize(m.fragment, m.sizeMode) <= |m.buffer|
  {
    m.buffer[HeaderSize(m.fragment, m.sizeMode)..]
  }

  ghost function InboundOf(m: Message): Message
    requires IsOutbound(m)
  {
    Inbound(m.id, m.channel, PayloadOf(m), m.fragment)
  }

  ghost predicate Fits(m: Message)
    requires IsOutbound(m)
  {
    FitsHeader(m.channel, PayloadOf(m), m.fragment)
  }

  lemma {:induction false} NewOutboundIs(id: u16, channel: u8, payload: bytes, fragment: Option<Fragment>)
    requires Sendable(channel, payload, fragment)
    requires fragment.Some? ==> SentFragment(id, fragment.value)
    ensures var m := NewOutbound(id, channel, payload, fragment);
            IsOutbound(m) && PayloadOf(m) == payload && InboundOf(m) == Inbound(id, channel, payload, fragment)
  {
    var m := NewOutbound(id, channel, payload, fragment);
    assert PayloadOf(m) == payload;
  }

  /** The messages of a packet one after the other, as `compose_packets` writes them. */
  function Coalesce(ms: seq<Message>): bytes {
    if ms == [] then [] else ms[0].buffer + Coalesce(ms[1..])
  }

  /** The messages that the receiving loop takes out of the rest of a packet, and the error, if
      any, that ends it early. */
  function ParseMessages(s: bytes, pos: nat): (seq<Message>, Option<Error>)
    decreases |s| - pos
  {
    if pos >= |s| then ([], None)
    else match ParseMessage(s, pos)
      case Err(e) => ([], Some(e))
      case Ok((m, p)) =>
        var (rest, e) := ParseMessages(s, p);
        ([m] + rest, e)
  }

  ghost predicate AllOutbound(ms: seq<Message>) {
    ms == [] || (IsOutbound(ms[0]) && AllOutbound(ms[1..]))
  }

  ghost predicate AllFit(ms: seq<Message>)
    requires AllOutbound(ms)
  {
    ms == [] || (Fits(ms[0]) && AllFit(ms[1..]))
  }

  ghost function InboundAll(ms: seq<Message>): seq<Message>
    requires AllOutbound(ms)
  {
    if ms == [] then [] else [InboundOf(ms[0])] + InboundAll(ms[1..])
  }

  lemma {:induction false} OutboundRoundTrip(s: bytes, pos: nat, m: Message)
    requires IsOutbound(m) && At(s, pos, m.buffer)
    ensures m.buffer != []
    ensures Fits(m) ==> ParseMessage(s, pos) == Ok((InboundOf(m), pos + |m.buffer|))
    ensures !Fits(m) ==> ParseMessage(s, pos).Err? || ParseMessage(s, pos).value.0 != InboundOf(m)
  {
    MessageRoundTripIff(s, pos, m.id, m.channel, PayloadOf(m), m.fragment);
  }

  /** The receiving loop takes out the first message, or something else when it does not fit. */
  lemma {:induction false} FirstMessageReads(s: bytes, pos: nat, m: Message)
    requires IsOutbound(m) && At(s, pos, m.buffer)
    ensures var (parsed, e) := ParseMessages(s, pos);
            var (rest, e') := ParseMessages(s, pos + |m.buffer|);
            if Fits(m) then (parsed, e) == ([InboundOf(m)] + rest, e')
            else parsed == [] ==> e.Some?
    ensures !Fits(m) && ParseMessages(s, pos).0 != [] ==> ParseMessages(s, pos).0[0] != InboundOf(m)
  {
    OutboundRoundTrip(s, pos, m);
  }

  lemma {:induction false} HeadsAndTails<T>(x: T, xs: seq<T>, y: T, ys: seq<T>)
    ensures [x] + xs == [y] + ys <==> x == y && xs == ys
  {
    if [x] + xs == [y] + ys {
      assert xs == ([x] + xs)[1..] && ys == ([y] + ys)[1..];
      assert x == ([x] + xs)[0];
    }
  }

  lemma {:induction false} FirstDiffers(s: bytes, pos: nat, m: Message, rest: seq<Message>)
    requires IsOutbound(m) && At(s, pos, m.buffer) && !Fits(m)
    ensures ParseMessages(s, pos).0 != [InboundOf(m)] + rest
  {
    FirstMessageReads(s, pos, m);
    assert ([InboundOf(m)] + rest)[0] == InboundOf(m);
  }

  lemma {:induction false} RestDecides(s: bytes, pos: nat, m: Message, rest: seq<Message>)
    requires IsOutbound(m) && At(s, pos, m.buffer) && Fits(m)
    ensures ParseMessages(s, pos) == ([InboundOf(m)] + rest, None)
       <==> ParseMessages(s, pos + |m.buffer|) == (rest, None)
  {
    FirstMessageReads(s, pos, m);
    HeadsAndTails(InboundOf(m), ParseMessages(s, pos + |m.buffer|).0, InboundOf(m), rest);
  }

  /** Coalesced messages are taken apart again into exactly what was sent, if and only if every
      one of them fits its header. */
  lemma {:induction false} CoalesceRoundTripIff(s: bytes, pos: nat, ms: seq<Message>)
    requires AllOutbound(ms)
    requires At(s, pos, Coalesce(ms)) && |s| == pos + |Coalesce(ms)|
    ensures ParseMessages(s, pos) == (InboundAll(ms), None) <==> AllFit(ms)
    decreases |ms|
  {
    if ms != [] {
      AtSplit(s, pos, ms[0].buffer, Coalesce(ms[1..]));
      if Fits(ms[0]) {
        CoalesceRoundTripIff(s, pos + |ms[0].buffer|, ms[1..]);
        RestDecides(s, pos, ms[0], InboundAll(ms[1..]));
      } else {
        FirstDiffers(s, pos, ms[0], InboundAll(ms[1..]));
      }
    }
  }

  lemma {:induction false} AllOutboundIff(ms: seq<Message>)
    ensures AllOutbound(ms) <==> forall m | m in ms :: IsOutbound(m)
    ensures AllOutbound(ms) ==> (AllFit(ms) <==> forall m | m in ms :: Fits(m))
  {
    if ms != [] {
      AllOutboundIff(ms[1..]);
      assert forall m :: m in ms <==> m == ms[0] || m in ms[1..];
    }
  }

  lemma {:induction false} InboundAt(ms: seq<Message>, i: nat)
    requires AllOutbound(ms) && i < |ms|
    ensures |InboundAll(ms)| == |ms| && IsOutbound(ms[i]) && InboundAll(ms)[i] == InboundOf(ms[i])
  {
    if i > 0 {
      InboundAt(ms[1..], i - 1);
    } else if |ms| > 1 {
      InboundAt(ms[1..], 0);
    }
  }
}
