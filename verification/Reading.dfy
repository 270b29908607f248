/** What can be read out of a datagram, whoever sent it: exactly what has the written form. */
module Reading {
  import opened Words
  import opened Wire
  import opened AckHeaders
  import opened Messages
  import opened Packets

  // -- numbers --

  lemma {:induction false} PutNumberBack(b: bytes)
    ensures PutBytes(Number(b), |b|) == b
  {
    if b != [] {
      PutNumberBack(b[..|b| - 1]);
      assert Number(b) / 256 == Number(b[..|b| - 1]) && Number(b) % 256 == b[|b| - 1];
      assert b == b[..|b| - 1] + [b[|b| - 1]];
    }
  }

  lemma {:induction false} NumberIff(s: bytes, pos: nat, n: nat, x: nat, p: nat)
    requires 0 < n
    ensures GetNumber(s, pos, n) == Ok((x, p)) <==> x < Pow256(n) && p == pos + n && At(s, pos, PutBytes(x, n))
  {
    if pos + n <= |s| {
      PutNumberBack(s[pos..pos + n]);
    }
    if x < Pow256(n) {
      NumberPut(x, n);
    }
  }

  lemma {:induction false} U64Iff(s: bytes, pos: nat, x: u64, p: nat)
    ensures GetU64(s, pos) == Ok((x, p)) <==> p == pos + 8 && At(s, pos, PutU64(x))
  {
    assert Pow256(8) == 0x1_0000_0000_0000_0000;
    NumberIff(s, pos, 8, x, p);
  }

  lemma {:induction false} U16Iff(s: bytes, pos: nat, x: u16, p: nat)
    ensures GetU16(s, pos) == Ok((x, p)) <==> p == pos + 2 && At(s, pos, PutU16(x))
  {
    if At(s, pos, PutU16(x)) {
      ReadU16(s, pos, x);
    }
    if pos + 2 <= |s| && U16At(s, pos) == x {
      assert s[pos..pos + 2] == [s[pos], s[pos + 1]];
    }
  }

  lemma {:induction false} U8Iff(s: bytes, pos: nat, x: u8, p: nat)
    ensures GetU8(s, pos) == Ok((x, p)) <==> p == pos + 1 && At(s, pos, [x])
  {
    if At(s, pos, [x]) {
      ReadU8(s, pos, x);
    }
    if pos < |s| {
      assert s[pos..pos + 1] == [s[pos]];
    }
  }

  // -- headers --

  lemma {:induction false} FieldIs(s: bytes, pos: nat, limit: nat)
    requires FieldBytes(s, pos, limit).Ok? && 0 < limit
    ensures var field := FieldBytes(s, pos, limit).value;
            && 1 <= |field| <= limit && At(s, pos, field)
            && (forall i | 0 <= i < |field| - 1 :: Continues(field[i]))
            && (|field| == limit || !Continues(field[|field| - 1]))
    decreases limit
  {
    var b := GetU8(s, pos).value.0;
    U8Iff(s, pos, b, pos + 1);
    if Continues(b) && limit > 1 {
      FieldIs(s, pos + 1, limit - 1);
      AtSplit(s, pos, [b], FieldBytes(s, pos + 1, limit - 1).value);
    }
  }

  /** An ack field is read exactly where the form of one stands: every byte but the last announces
      another one, and the last one does not, unless there are fifty. */
  lemma {:induction false} AckHeaderIff(s: bytes, pos: nat, h: AckHeader, p: nat)
    ensures ParseAckHeader(s, pos) == Ok((h, p))
       <==> Terminated(h) && p == pos + |AckHeaderBytes(h)| && At(s, pos, AckHeaderBytes(h))
  {
    if ParseAckHeader(s, pos) == Ok((h, p)) {
      U16Iff(s, pos, h.ackId, pos + 2);
      FieldIs(s, pos + 2, MAX_ACK_BYTES);
      AtSplit(s, pos, PutU16(h.ackId), h.bytes);
    }
    if Terminated(h) && At(s, pos, AckHeaderBytes(h)) {
      ParseWritten(s, pos, h);
    }
  }

  /** A packet header is read exactly where the form of one stands. */
  lemma {:induction false} HeaderIff(s: bytes, pos: nat, h: Packets.Header, p: nat)
    ensures ParseHeader(s, pos) == Ok((h, p))
       <==> && (h.ack.Some? ==> Terminated(h.ack.value))
            && p == pos + |HeaderBytes(h)| && At(s, pos, HeaderBytes(h))
  {
    hide ParseAckHeader, AckHeaderBytes, Terminated, At;
    if (h.ack.Some? ==> Terminated(h.ack.value)) && At(s, pos, HeaderBytes(h)) {
      HeaderReads(s, pos, h);
    }
    if ParseHeader(s, pos) == Ok((h, p)) {
      var prefix := GetU8(s, pos).value.0;
      U8Iff(s, pos, prefix, pos + 1);
      KindIs(prefix, h.packetType, h.ack.Some?);
      U16Iff(s, pos + 1, h.id, pos + 3);
      AtSplit(s, pos, [prefix], PutU16(h.id));
      if h.ack.Some? {
        var (ack, end) := ParseAckHeader(s, pos + 3).value;
        assert ack == h.ack.value;
        assert end == p;
        AckHeaderIff(s, pos + 3, h.ack.value, p);
        AtSplit(s, pos, [prefix] + PutU16(h.id), AckHeaderBytes(h.ack.value));
      } else {
        assert At(s, pos, HeaderBytes(h));
      }
    }
  }

  lemma {:induction false} KindIs(prefix: u8, kind: PacketType, ack: bool)
    requires TypeOf(prefix % 128) == Ok(kind) && (prefix >= 128 <==> ack)
    ensures prefix == TypeCode(kind) + if ack then 128 else 0
  {
  }

  // -- packets --

  /** What follows the header, without the padding. */
  function Fields(p: Packet): bytes
    requires p.KeepAlive? ==> 0 <= p.clientIndex < 0x1_0000_0000
  {
    match p
    case ConnectionRequest(_, c, v) => PutU64(c) + PutU64(v)
    case ConnectionChallenge(_, c, s) => PutU64(c) + PutU64(s)
    case ConnectionChallengeResponse(_, x) => PutU64(x)
    case ConnectionDenied(_, reason) => [ReasonCode(reason)]
    case MessagesPacket(_, x) => PutU64(x)
    case Disconnect(_, x) => PutU64(x)
    case KeepAlive(_, x, i) => PutU64(x) + PutU32(i)
  }

  /** One number, and two. */
  lemma {:induction false} U64s(s: bytes, pos: nat, x: u64, y: u64)
    ensures GetU64(s, pos).Ok? ==> GetU64(s, pos).value.1 == pos + 8
    ensures GetU64(s, pos) == Ok((x, pos + 8)) <==> At(s, pos, PutU64(x))
    ensures GetU64(s, pos) == Ok((x, pos + 8)) && GetU64(s, pos + 8) == Ok((y, pos + 16))
       <==> At(s, pos, PutU64(x) + PutU64(y))
    ensures GetU64(s, pos + 8).Ok? ==> GetU64(s, pos + 8).value.1 == pos + 16
  {
    U64Iff(s, pos, x, pos + 8);
    U64Iff(s, pos + 8, y, pos + 16);
    AtSplit(s, pos, PutU64(x), PutU64(y));
  }

  lemma {:induction false} SaltAndIndex(s: bytes, pos: nat, x: u64, i: int)
    requires 0 <= i < 0x1_0000_0000
    ensures GetU64(s, pos) == Ok((x, pos + 8)) && GetU32(s, pos + 8) == Ok((i, pos + 12))
       <==> At(s, pos, PutU64(x) + PutU32(i))
    ensures GetU32(s, pos + 8).Ok? ==> GetU32(s, pos + 8).value.1 == pos + 12
  {
    assert Pow256(4) == 0x1_0000_0000;
    U64Iff(s, pos, x, pos + 8);
    NumberIff(s, pos + 8, 4, i, pos + 12);
    AtSplit(s, pos, PutU64(x), PutU32(i));
  }

  lemma {:induction false} ReasonIs(code: u8, reason: DisconnectReason)
    ensures ReasonOf(code) == Ok(reason) <==> code == ReasonCode(reason)
  {
  }

  lemma {:induction false} HandshakeBodyIff(s: bytes, pos: nat, p: Packet, end: nat)
    requires p.header.ack.Some? ==> Terminated(p.header.ack.value)
    requires Padding(p) != 0
    ensures ReadBody(s, pos, p.header) == Ok((p, end))
       <==> p.Valid() && end == pos + |Fields(p)| && At(s, pos, Fields(p)) && |s| == end + 500
  {
    hide GetU64, GetU32, At, PutBytes, Terminated;
    match p {
      case ConnectionRequest(_, c, v) => U64s(s, pos, c, v);
      case ConnectionChallenge(_, c, v) => U64s(s, pos, c, v);
      case ConnectionChallengeResponse(_, x) => U64s(s, pos, x, 0);
    }
  }

  lemma {:induction false} BodyIff(s: bytes, pos: nat, p: Packet, end: nat)
    requires p.header.ack.Some? ==> Terminated(p.header.ack.value)
    ensures ReadBody(s, pos, p.header) == Ok((p, end))
       <==> && p.Valid() && end == pos + |Fields(p)| && At(s, pos, Fields(p))
            && (Padding(p) != 0 ==> |s| == end + 500)
  {
    hide GetU64, GetU32, At, PutBytes, Terminated;
    if Padding(p) != 0 {
      HandshakeBodyIff(s, pos, p, end);
    } else {
      match p {
        case ConnectionDenied(_, reason) =>
          if pos < |s| {
            ReasonIs(s[pos], reason);
          }
          U8Iff(s, pos, ReasonCode(reason), pos + 1);
        case MessagesPacket(_, x) => U64s(s, pos, x, 0);
        case Disconnect(_, x) => U64s(s, pos, x, 0);
        case KeepAlive(_, x, i) =>
          U64s(s, pos, x, 0);
          if 0 <= i < 0x1_0000_0000 {
            SaltAndIndex(s, pos, x, i);
          }
      }
    }
  }

  lemma {:induction false} BodyHeader(s: bytes, pos: nat, h: Packets.Header)
    requires ReadBody(s, pos, h).Ok?
    ensures ReadBody(s, pos, h).value.0.header == h
  {
  }

  /** A packet is read out of a datagram if and only if the datagram starts with its written form.  A
      packet of the handshake also needs exactly 500 more bytes, whatever they are. */
  lemma {:induction false} PacketIff(s: bytes, p: Packet, end: nat)
    ensures ReadPacket(s) == Ok((p, end))
       <==> && p.Valid() && end == |HeaderBytes(p.header)| + |Fields(p)|
            && At(s, 0, HeaderBytes(p.header) + Fields(p))
            && (Padding(p) != 0 ==> |s| == end + 500)
  {
    hide ParseHeader, ReadBody, HeaderBytes, Fields, At, Terminated;
    var mid := |HeaderBytes(p.header)|;
    if ReadPacket(s) == Ok((p, end)) {
      var (h, m) := ParseHeader(s, 0).value;
      BodyHeader(s, m, h);
      HeaderIff(s, 0, h, m);
    }
    HeaderIff(s, 0, p.header, mid);
    if p.KeepAlive? ==> 0 <= p.clientIndex < 0x1_0000_0000 {
      AtSplit(s, 0, HeaderBytes(p.header), Fields(p));
    }
    if p.header.ack.Some? ==> Terminated(p.header.ack.value) {
      BodyIff(s, mid, p, end);
    }
  }

  // -- messages --

  /** The part of a message header that says where the payload belongs and how long it is. */
  function Place(m: Message): bytes {
    match m.fragment
    case None => PutNumber(|m.buffer| % 65536, m.sizeMode)
    case Some(f) =>
      PutNumber(f.index, m.sizeMode) + PutNumber(f.numFragments, m.sizeMode)
      + if f.IsLast() then PutU16(|m.buffer| % 65536) else []
  }

  /** A message that the header form has room for.  `buffer` is the payload. */
  ghost predicate Expressible(m: Message) {
    && m.channel < 32 && |m.buffer| < 65536
    && match m.fragment
       case None => m.sizeMode.Small? ==> |m.buffer| < 256
       case Some(f) =>
         && f.parentId == WrapSub(m.id, f.index)
         && (m.sizeMode.Small? ==> f.index < 256 && f.numFragments < 256)
         && (!f.IsLast() ==> |m.buffer| == 1024)
  }

  /** The form of a message: a byte of flags and channel, the id, its place, the payload.  One bit of the
      first byte is not used. */
  ghost predicate FormAt(s: bytes, pos: nat, m: Message) {
    && pos < |s|
    && (s[pos] == PrefixByte(m.fragment.Some?, m.sizeMode, m.channel)
        || s[pos] == PrefixByte(m.fragment.Some?, m.sizeMode, m.channel) + 4)
    && At(s, pos + 1, PutU16(m.id) + Place(m) + m.buffer)
  }

  function FormLength(m: Message): nat {
    3 + |Place(m)| + |m.buffer|
  }

  lemma {:induction false} NumberHere(s: bytes, pos: nat, x: u16, mode: SizeMode)
    requires pos + NumberWidth(mode) <= |s|
    requires mode.Small? ==> x < 256
    ensures NumberAt(s, pos, mode) == x <==> At(s, pos, PutNumber(x, mode))
  {
    if mode.Small? {
      U8Iff(s, pos, x, pos + 1);
    } else {
      U16Iff(s, pos, x, pos + 2);
    }
  }

  lemma {:induction false} BitsOf(b: u8)
    ensures b == b % 2 + 2 * (b / 2 % 2) + 4 * (b / 4 % 2) + 8 * (b / 8)
  {
    Quarter(b, 2);
    Quarter(b, 4);
  }

  lemma {:induction false} Quarter(b: nat, k: nat)
    requires k in {2, 4}
    ensures b / k / 2 == b / (2 * k) && b / k == 2 * (b / (2 * k)) + b / k % 2
  {
    if k == 2 {
      assert b / 2 / 2 == b / 4;
    } else {
      assert b / 4 / 2 == b / 8;
    }
  }

  lemma {:induction false} Halves(k: nat, x: nat)
    requires x < 2
    ensures (2 * k + x) / 2 == k && (2 * k + x) % 2 == x
  {
  }

  lemma {:induction false} BitsAre(x: nat, y: nat, r: nat, q: nat)
    requires x < 2 && y < 2 && r < 2
    ensures var b := 2 * (2 * (2 * q + r) + y) + x;
            b % 2 == x && b / 2 % 2 == y && b / 8 == q
  {
    Halves(2 * (2 * q + r) + y, x);
    Halves(2 * q + r, y);
  }

  /** The first byte as its bits. */
  lemma {:induction false} PrefixSum(fragmented: bool, mode: SizeMode, channel: u8)
    requires channel < 32
    ensures PrefixByte(fragmented, mode, channel) ==
              (if fragmented then 1 else 0) + 2 * (if mode.Large? then 1 else 0) + 8 * channel
  {
  }

  lemma {:induction false} PrefixIs(b: u8, fragmented: bool, mode: SizeMode, channel: u8)
    requires channel < 32
    ensures (b == PrefixByte(fragmented, mode, channel) || b == PrefixByte(fragmented, mode, channel) + 4)
       <==> (b % 2 != 0 <==> fragmented) && (b / 2 % 2 != 0 <==> mode.Large?) && b / 8 == channel
  {
    hide PrefixByte;
    var x, y := if fragmented then 1 else 0, if mode.Large? then 1 else 0;
    PrefixSum(fragmented, mode, channel);
    BitsAre(x, y, 0, channel);
    BitsAre(x, y, 1, channel);
    BitsOf(b);
  }

  lemma {:induction false} WholePlaceIff(s: bytes, pos: nat, m: Message, p: nat)
    requires m.fragment.None? && |m.buffer| < 65536
    ensures ParsePlace(s, pos, false, m.sizeMode, m.id) == Ok(((None, |m.buffer|), p))
       <==> && (m.sizeMode.Small? ==> |m.buffer| < 256)
            && p == pos + |Place(m)| && At(s, pos, Place(m))
  {
    if pos + NumberWidth(m.sizeMode) <= |s| && (m.sizeMode.Small? ==> |m.buffer| < 256) {
      NumberHere(s, pos, |m.buffer|, m.sizeMode);
    }
  }

  lemma {:induction false} FragmentPlaceIff(s: bytes, pos: nat, m: Message, f: Fragment, p: nat)
    requires m.fragment == Some(f) && |m.buffer| < 65536
    ensures ParseFragmentHeader(s, pos, m.sizeMode, m.id) == Ok(((f, |m.buffer|), p))
       <==> && f.parentId == WrapSub(m.id, f.index)
            && (m.sizeMode.Small? ==> f.index < 256 && f.numFragments < 256)
            && (!f.IsLast() ==> |m.buffer| == 1024)
            && p == pos + |Place(m)| && At(s, pos, Place(m))
  {
    hide At, Wrap, WrapSub;
    var mode := m.sizeMode;
    var w := NumberWidth(mode);
    AtLength(s, pos, Place(m));
    if pos + 2 * w <= |s| && (mode.Small? ==> f.index < 256 && f.numFragments < 256) {
      NumberHere(s, pos, f.index, mode);
      NumberHere(s, pos + w, f.numFragments, mode);
      AtSplit(s, pos, PutNumber(f.index, mode), PutNumber(f.numFragments, mode));
      if f.IsLast() {
        U16Iff(s, pos + 2 * w, |m.buffer|, pos + 2 * w + 2);
        AtSplit(s, pos, PutNumber(f.index, mode) + PutNumber(f.numFragments, mode), PutU16(|m.buffer|));
      } else {
        assert Place(m) == PutNumber(f.index, mode) + PutNumber(f.numFragments, mode);
      }
    }
  }

  lemma {:induction false} AtLength(s: bytes, pos: nat, part: bytes)
    ensures At(s, pos, part) ==> pos + |part| <= |s|
  {
  }

  lemma {:induction false} PlaceIff(s: bytes, pos: nat, m: Message, p: nat)
    requires |m.buffer| < 65536
    ensures ParsePlace(s, pos, m.fragment.Some?, m.sizeMode, m.id) == Ok(((m.fragment, |m.buffer|), p))
            && m.channel < 32
       <==> Expressible(m) && p == pos + |Place(m)| && At(s, pos, Place(m))
  {
    hide ParseFragmentHeader, At, Place;
    match m.fragment
    case None => WholePlaceIff(s, pos, m, p);
    case Some(f) => FragmentPlaceIff(s, pos, m, f, p);
  }

  lemma {:induction false} FormParts(s: bytes, pos: nat, m: Message)
    requires m.channel < 32
    ensures FormAt(s, pos, m)
       <==> && pos + 3 <= |s|
            && (s[pos] % 2 != 0 <==> m.fragment.Some?) && (s[pos] / 2 % 2 != 0 <==> m.sizeMode.Large?)
            && s[pos] / 8 == m.channel && U16At(s, pos + 1) == m.id
            && At(s, pos + 3, Place(m)) && At(s, pos + 3 + |Place(m)|, m.buffer)
  {
    hide Place, PrefixByte;
    if pos < |s| {
      PrefixIs(s[pos], m.fragment.Some?, m.sizeMode, m.channel);
    }
    U16Iff(s, pos + 1, m.id, pos + 3);
    AtSplit(s, pos + 1, PutU16(m.id) + Place(m), m.buffer);
    AtSplit(s, pos + 1, PutU16(m.id), Place(m));
  }

  lemma {:induction false} MessageParsed(s: bytes, pos: nat, m: Message, p: nat)
    requires ParseMessage(s, pos) == Ok((m, p))
    ensures pos + 3 <= |s| && |m.buffer| < 65536 && m.channel == s[pos] / 8 < 32
    ensures (s[pos] % 2 != 0 <==> m.fragment.Some?) && (s[pos] / 2 % 2 != 0 <==> m.sizeMode.Large?)
    ensures U16At(s, pos + 1) == m.id && |m.buffer| <= p && At(s, p - |m.buffer|, m.buffer)
    ensures ParsePlace(s, pos + 3, m.fragment.Some?, m.sizeMode, m.id) == Ok(((m.fragment, |m.buffer|), p - |m.buffer|))
  {
    hide ParseFragmentHeader, NumberAt;
    var mode := if s[pos] / 2 % 2 != 0 then Large else Small;
    var ((fragment, size), q) := ParsePlace(s, pos + 3, s[pos] % 2 != 0, mode, U16At(s, pos + 1)).value;
    assert fragment.Some? <==> s[pos] % 2 != 0;
    assert m == Message(U16At(s, pos + 1), mode, s[pos] / 8, s[q..q + size], fragment) && p == q + size;
  }

  /** A message is read exactly where the form of one stands. */
  lemma {:induction false} MessageIff(s: bytes, pos: nat, m: Message, p: nat)
    ensures ParseMessage(s, pos) == Ok((m, p)) <==> Expressible(m) && FormAt(s, pos, m) && p == pos + FormLength(m)
  {
    hide ParsePlace, Place, FormAt;
    if ParseMessage(s, pos) == Ok((m, p)) {
      MessageParsed(s, pos, m, p);
      FormParts(s, pos, m);
      PlaceIff(s, pos + 3, m, p - |m.buffer|);
    } else if Expressible(m) && FormAt(s, pos, m) && p == pos + FormLength(m) {
      FormParts(s, pos, m);
      PlaceIff(s, pos + 3, m, pos + 3 + |Place(m)|);
    }
  }

  /** The messages `ms` stand one after the other from `pos` to the end. */
  ghost predicate Formed(s: bytes, pos: nat, ms: seq<Message>)
    decreases |ms|
  {
    if ms == [] then pos >= |s|
    else Expressible(ms[0]) && FormAt(s, pos, ms[0]) && Formed(s, pos + FormLength(ms[0]), ms[1..])
  }

  /** The rest of a packet is read as `ms`, without error, if and only if it is the forms of `ms` one
      after the other; otherwise the messages are read up to the first place where none stands. */
  lemma {:induction false} MessagesIff(s: bytes, pos: nat, ms: seq<Message>)
    ensures ParseMessages(s, pos) == (ms, None) <==> Formed(s, pos, ms)
    decreases |ms|
  {
    hide ParseMessage, Expressible, At, PrefixByte, FormLength;
    if pos < |s| && ms != [] {
      MessageIff(s, pos, ms[0], pos + FormLength(ms[0]));
      if ParseMessage(s, pos).Ok? {
        var (m, p) := ParseMessage(s, pos).value;
        MessageIff(s, pos, m, p);
        MessagesIff(s, p, ms[1..]);
        assert ([m] + ParseMessages(s, p).0)[1..] == ParseMessages(s, p).0;
        assert ms == [ms[0]] + ms[1..];
      }
    }
  }

  /** The errors of the two readers are their own: none of them can be taken for a stale or duplicate
      packet. */
  lemma {:induction false} ReadErrors(s: bytes, pos: nat)
    ensures ReadPacket(s).Err? ==> ReadPacket(s).error in {Io, InvalidPacket}
    ensures ParseMessages(s, pos).1.Some? ==> ParseMessages(s, pos).1.value in {Io, InvalidMessage}
    decreases |s| - pos
  {
    hide PutBytes, Number, PrefixByte, WrapSub;
    if ParseHeader(s, 0).Err? {
      HeaderErrors(s, 0);
    }
    if pos < |s| && ParseMessage(s, pos).Ok? {
      ReadErrors(s, ParseMessage(s, pos).value.1);
    }
  }

  lemma {:induction false} HeaderErrors(s: bytes, pos: nat)
    requires ParseHeader(s, pos).Err?
    ensures ParseHeader(s, pos).error in {Io, InvalidPacket}
  {
    hide FieldBytes;
    var afterId := pos + 3;
    if FieldBytes(s, afterId + 2, MAX_ACK_BYTES).Err? {
      FieldErrors(s, afterId + 2, MAX_ACK_BYTES);
    }
  }

  lemma {:induction false} FieldErrors(s: bytes, pos: nat, limit: nat)
    requires FieldBytes(s, pos, limit).Err?
    ensures FieldBytes(s, pos, limit).error == Io
    decreases limit
  {
    if limit > 0 && pos < |s| && Continues(s[pos]) {
      FieldErrors(s, pos + 1, limit - 1);
    }
  }
}
