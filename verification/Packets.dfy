/** Packet headers and whole packets (src/protocol/packets.rs). */
module Packets {
  import opened Words
  import opened Wire
  import opened AckHeaders
  import opened Messages

  const PADDING: nat := 500

  datatype PacketType =
    | ConnectionRequestType
    | ConnectionChallengeType
    | ConnectionChallengeResponseType
    | ConnectionDeniedType
    | MessagesType
    | DisconnectType
    | KeepAliveType

  function TypeCode(t: PacketType): u8 {
    match t
    case ConnectionRequestType => 1
    case ConnectionChallengeType => 2
    case ConnectionChallengeResponseType => 3
    case ConnectionDeniedType => 4
    case MessagesType => 5
    case DisconnectType => 6
    case KeepAliveType => 7
  }

  function TypeOf(code: u8): Result<PacketType, Error> {
    match code
    case 1 => Ok(ConnectionRequestType)
    case 2 => Ok(ConnectionChallengeType)
    case 3 => Ok(ConnectionChallengeResponseType)
    case 4 => Ok(ConnectionDeniedType)
    case 5 => Ok(MessagesType)
    case 6 => Ok(DisconnectType)
    case 7 => Ok(KeepAliveType)
    case _ => Err(InvalidPacket)
  }

  datatype DisconnectReason = Normal | ProtocolMismatch | HandshakeTimeout | TimedOut | ServerFull

  function ReasonCode(r: DisconnectReason): u8 {
    match r
    case Normal => 0
    case ProtocolMismatch => 1
    case HandshakeTimeout => 2
    case TimedOut => 3
    case ServerFull => 4
  }

  function ReasonOf(code: u8): Result<DisconnectReason, Error> {
    match code
    case 0 => Ok(Normal)
    case 1 => Ok(ProtocolMismatch)
    case 2 => Ok(HandshakeTimeout)
    case 3 => Ok(TimedOut)
    case 4 => Ok(ServerFull)
    case _ => Err(InvalidPacket)
  }

  datatype Header = Header(packetType: PacketType, id: u16, ack: Option<AckHeader>)

  function HeaderBytes(h: Header): bytes {
    match h.ack
    case Some(ack) => [TypeCode(h.packetType) + 128] + PutU16(h.id) + AckHeaderBytes(ack)
    case None => [TypeCode(h.packetType)] + PutU16(h.id)
  }

  function ParseHeader(s: bytes, pos: nat): Read<Header> {
    var (prefix, p1) :- GetU8(s, pos);
    var packetType :- TypeOf(prefix % 128);
    var (id, p2) :- GetU16(s, p1);
    if prefix >= 128 then
      var (ack, p3) :- ParseAckHeader(s, p2);
      Ok((Header(packetType, id, Some(ack)), p3))
    else
      Ok((Header(packetType, id, None), p2))
  }

  datatype Packet =
    | ConnectionRequest(header: Header, clientSalt: u64, protocolVersion: u64)
    | ConnectionChallenge(header: Header, clientSalt: u64, serverSalt: u64)
    | ConnectionChallengeResponse(header: Header, xorSalt: u64)
    | ConnectionDenied(header: Header, reason: DisconnectReason)
    | MessagesPacket(header: Header, xorSalt: u64)
    | Disconnect(header: Header, xorSalt: u64)
    | KeepAlive(header: Header, xorSalt: u64, clientIndex: int)
  {
    ghost predicate Valid() {
      && (header.ack.Some? ==> Terminated(header.ack.value))
      && (KeepAlive? ==> 0 <= clientIndex < 0x1_0000_0000)
      && header.packetType ==
           (match this
            case ConnectionRequest(_, _, _) => ConnectionRequestType
            case ConnectionChallenge(_, _, _) => ConnectionChallengeType
            case ConnectionChallengeResponse(_, _) => ConnectionChallengeResponseType
            case ConnectionDenied(_, _) => ConnectionDeniedType
            case MessagesPacket(_, _) => MessagesType
            case Disconnect(_, _) => DisconnectType
            case KeepAlive(_, _, _) => KeepAliveType)
    }
  }

  function ZeroBytes(n: nat): bytes {
    seq(n, _ => 0)
  }

  /** What follows the header; a messages packet goes on with its messages after that. */
  function Body(p: Packet): bytes
    requires p.KeepAlive? ==> 0 <= p.clientIndex < 0x1_0000_0000
  {
    match p
    case ConnectionRequest(_, c, v) => PutU64(c) + PutU64(v) + ZeroBytes(PADDING)
    case ConnectionChallenge(_, c, s) => PutU64(c) + PutU64(s) + ZeroBytes(PADDING)
    case ConnectionChallengeResponse(_, x) => PutU64(x) + ZeroBytes(PADDING)
    case ConnectionDenied(_, reason) => [ReasonCode(reason)]
    case MessagesPacket(_, x) => PutU64(x)
    case Disconnect(_, x) => PutU64(x)
    case KeepAlive(_, x, i) => PutU64(x) + PutU32(i)
  }

  function PacketBytes(p: Packet): bytes
    requires p.KeepAlive? ==> 0 <= p.clientIndex < 0x1_0000_0000
  {
    HeaderBytes(p.header) + Body(p)
  }

  /** `write_packet`: the writer refuses what exceeds the packet size.  Messages packets are
      written elsewhere, and passing one here panics. */
  function WritePacket(maxPacketSize: nat, p: Packet): Result<bytes, Error>
    requires !p.MessagesPacket?
    requires p.KeepAlive? ==> 0 <= p.clientIndex < 0x1_0000_0000
  {
    if |PacketBytes(p)| > maxPacketSize then Err(Io) else Ok(PacketBytes(p))
  }

  function ReadPacket(s: bytes): Read<Packet> {
    var (h, p) :- ParseHeader(s, 0);
    ReadBody(s, p, h)
  }

  function ReadBody(s: bytes, p: nat, h: Header): Read<Packet> {
    match h.packetType
    case KeepAliveType =>
      var (salt, p1) :- GetU64(s, p);
      var (clientIndex, p2) :- GetU32(s, p1);
      Ok((KeepAlive(h, salt, clientIndex), p2))
    case ConnectionRequestType =>
      var (salt, p1) :- GetU64(s, p);
      var (version, p2) :- GetU64(s, p1);
      if |s| - p2 != PADDING then Err(InvalidPacket) else Ok((ConnectionRequest(h, salt, version), p2))
    case ConnectionChallengeType =>
      var (client, p1) :- GetU64(s, p);
      var (server, p2) :- GetU64(s, p1);
      if |s| - p2 != PADDING then Err(InvalidPacket) else Ok((ConnectionChallenge(h, client, server), p2))
    case ConnectionChallengeResponseType =>
      var (salt, p1) :- GetU64(s, p);
      if |s| - p1 != PADDING then Err(InvalidPacket) else Ok((ConnectionChallengeResponse(h, salt), p1))
    case ConnectionDeniedType =>
      var (code, p1) :- GetU8(s, p);
      var reason :- ReasonOf(code);
      Ok((ConnectionDenied(h, reason), p1))
    case MessagesType =>
      var (salt, p1) :- GetU64(s, p);
      Ok((MessagesPacket(h, salt), p1))
    case DisconnectType =>
      var (salt, p1) :- GetU64(s, p);
      Ok((Disconnect(h, salt), p1))
  }

  /** Every packet that parses has its header back, with an ack field of at most fifty bytes. */
  lemma {:induction false} ParsedHeader(s: bytes)
    requires ReadPacket(s).Ok?
    ensures ParseHeader(s, 0).Ok? && ReadPacket(s).value.0.header == ParseHeader(s, 0).value.0
    ensures var ack := ReadPacket(s).value.0.header.ack;
            ack.Some? ==> Chained(ack.value) && |ack.value.bytes| <= MAX_ACK_BYTES
  {
    hide ParseAckHeader, GetU64, GetU32;
    var prefix := GetU8(s, 0).value;
    if prefix.0 >= 128 {
      ParsedIsChained(s, GetU16(s, prefix.1).value.1);
    }
  }

  method ReadHeaderFrom(reader: Cursor) returns (r: Result<Header, Error>)
    requires reader.Valid()
    modifies reader
    ensures reader.Valid()
    ensures var parsed := ParseHeader(reader.buf, old(reader.pos));
            if parsed.Ok? then r == Ok(parsed.value.0) && reader.pos == parsed.value.1
            else r == Err(parsed.error)
  {
    var prefix :- reader.ReadU8();
    var packetType :- TypeOf(prefix % 128);
    var id :- reader.ReadU16();
    if prefix >= 128 {
      var ack :- AckHeaders.Parse(reader);
      return Ok(Header(packetType, id, Some(ack)));
    }
    return Ok(Header(packetType, id, None));
  }

  method ReadU64From(reader: Cursor) returns (r: Result<u64, Error>)
    requires reader.Valid()
    modifies reader
    ensures reader.Valid()
    ensures var read := GetU64(reader.buf, old(reader.pos));
            if read.Ok? then r == Ok(read.value.0) && reader.pos == read.value.1 else r == Err(read.error)
  {
    assert Pow256(8) == 0x1_0000_0000_0000_0000;
    var x :- reader.ReadNumber(8);
    return Ok(x);
  }

  /** Padding is checked, and left unread. */
  method ReadPacketFrom(reader: Cursor) returns (r: Result<Packet, Error>)
    requires reader.Valid() && reader.pos == 0
    modifies reader
    ensures reader.Valid()
    ensures var read := ReadPacket(reader.buf);
            if read.Ok? then r == Ok(read.value.0) && reader.pos == read.value.1 else r == Err(read.error)
  {
    var header :- ReadHeaderFrom(reader);
    match header.packetType {
      case KeepAliveType =>
        var salt :- ReadU64From(reader);
        var clientIndex :- reader.ReadNumber(4);
        return Ok(KeepAlive(header, salt, clientIndex));
      case ConnectionRequestType =>
        var salt :- ReadU64From(reader);
        var version :- ReadU64From(reader);
        if reader.Remaining() != PADDING {
          return Err(InvalidPacket);
        }
        return Ok(ConnectionRequest(header, salt, version));
      case ConnectionChallengeType =>
        var client :- ReadU64From(reader);
        var server :- ReadU64From(reader);
        if reader.Remaining() != PADDING {
          return Err(InvalidPacket);
        }
        return Ok(ConnectionChallenge(header, client, server));
      case ConnectionChallengeResponseType =>
        var salt :- ReadU64From(reader);
        if reader.Remaining() != PADDING {
          return Err(InvalidPacket);
        }
        return Ok(ConnectionChallengeResponse(header, salt));
      case ConnectionDeniedType =>
        var code :- reader.ReadU8();
        var reason :- ReasonOf(code);
        return Ok(ConnectionDenied(header, reason));
      case MessagesType =>
        var salt :- ReadU64From(reader);
        return Ok(MessagesPacket(header, salt));
      case DisconnectType =>
        var salt :- ReadU64From(reader);
        return Ok(Disconnect(header, salt));
    }
  }

  // -- the round trip --

  lemma {:induction false} PrefixReads(t: PacketType, ack: bool)
    ensures var prefix := TypeCode(t) + if ack then 128 else 0;
            0 <= prefix < 256 && TypeOf(prefix % 128) == Ok(t) && (prefix >= 128 <==> ack)
  {
  }

  lemma {:induction false} HeaderReads(s: bytes, pos: nat, h: Header)
    requires h.ack.Some? ==> Terminated(h.ack.value)
    requires At(s, pos, HeaderBytes(h))
    ensures ParseHeader(s, pos) == Ok((h, pos + |HeaderBytes(h)|))
  {
    PrefixReads(h.packetType, h.ack.Some?);
    var prefix := TypeCode(h.packetType) + if h.ack.Some? then 128 else 0;
    match h.ack {
      case Some(ack) =>
        HeaderSplits(s, pos, prefix, h.id, AckHeaderBytes(ack));
        var end := AckEnds(s, pos + 3, ack);
        HeaderFrom(s, pos, prefix, h, end);
      case None =>
        HeaderSplits(s, pos, prefix, h.id, []);
        HeaderFrom(s, pos, prefix, h, pos + 3);
    }
  }

  lemma {:induction false} AckEnds(s: bytes, pos: nat, ack: AckHeader) returns (end: nat)
    requires Terminated(ack) && At(s, pos, AckHeaderBytes(ack))
    ensures ParseAckHeader(s, pos) == Ok((ack, end)) && end == pos + |AckHeaderBytes(ack)|
  {
    ParseWritten(s, pos, ack);
    end := pos + |AckHeaderBytes(ack)|;
  }

  lemma {:induction false} HeaderSplits(s: bytes, pos: nat, prefix: u8, id: u16, ack: bytes)
    requires At(s, pos, [prefix] + PutU16(id) + ack)
    ensures GetU8(s, pos) == Ok((prefix, pos + 1)) && GetU16(s, pos + 1) == Ok((id, pos + 3))
    ensures At(s, pos + 3, ack)
  {
    AtSplit(s, pos, [prefix] + PutU16(id), ack);
    AtSplit(s, pos, [prefix], PutU16(id));
    ReadU8(s, pos, prefix);
    ReadU16(s, pos + 1, id);
  }

  lemma {:induction false} HeaderFrom(s: bytes, pos: nat, prefix: u8, h: Header, end: nat)
    requires GetU8(s, pos) == Ok((prefix, pos + 1)) && GetU16(s, pos + 1) == Ok((h.id, pos + 3))
    requires TypeOf(prefix % 128) == Ok(h.packetType) && (prefix >= 128 <==> h.ack.Some?)
    requires if h.ack.Some? then ParseAckHeader(s, pos + 3) == Ok((h.ack.value, end)) else end == pos + 3
    ensures ParseHeader(s, pos) == Ok((h, end))
  {
  }

  /** How much of a packet is padding that the reader checks but does not consume. */
  function Padding(p: Packet): nat {
    if p.ConnectionRequest? || p.ConnectionChallenge? || p.ConnectionChallengeResponse? then PADDING else 0
  }

  lemma {:induction false} HandshakeBodyReads(s: bytes, pos: nat, p: Packet)
    requires p.Valid() && Padding(p) == PADDING
    requires At(s, pos, Body(p)) && |s| == pos + |Body(p)|
    ensures ReadBody(s, pos, p.header) == Ok((p, pos + |Body(p)| - PADDING))
  {
    match p {
      case ConnectionRequest(_, c, v) =>
        BodyReads2(s, pos, c, v);
      case ConnectionChallenge(_, c, v) =>
        BodyReads2(s, pos, c, v);
      case ConnectionChallengeResponse(_, x) =>
        AtSplit(s, pos, PutU64(x), ZeroBytes(PADDING));
        ReadU64(s, pos, x);
    }
  }

  /** Reading goes on from the header to the body of the kind that the header announces. */
  lemma {:induction false} BodyReads(s: bytes, pos: nat, p: Packet)
    requires p.Valid()
    requires At(s, pos, Body(p))
    requires |s| == pos + |Body(p)| || p.MessagesPacket?
    ensures ReadBody(s, pos, p.header) == Ok((p, pos + |Body(p)| - Padding(p)))
  {
    if Padding(p) != 0 {
      HandshakeBodyReads(s, pos, p);
    } else {
      match p {
        case ConnectionDenied(_, reason) =>
          ReadU8(s, pos, ReasonCode(reason));
        case MessagesPacket(_, x) =>
          ReadU64(s, pos, x);
        case Disconnect(_, x) =>
          ReadU64(s, pos, x);
        case KeepAlive(_, x, i) =>
          AtSplit(s, pos, PutU64(x), PutU32(i));
          ReadU64(s, pos, x);
          ReadU32(s, pos + 8, i);
      }
    }
  }

  lemma {:induction false} ReadWritten(s: bytes, p: Packet, end: nat)
    requires p.Valid() && end == |HeaderBytes(p.header)|
    requires At(s, 0, HeaderBytes(p.header)) && At(s, end, Body(p))
    requires |s| == end + |Body(p)| || p.MessagesPacket?
    ensures ReadPacket(s) == Ok((p, end + |Body(p)| - Padding(p)))
  {
    var header := ParseHeader(s, 0);
    assert header == Ok((p.header, end)) by {
      HeaderReads(s, 0, p.header);
    }
    BodyReads(s, end, p);
  }

  /** Every packet that is written is read back as itself.  A messages packet may be followed by
      its messages, left for the caller from the position returned; no other leaves a rest. */
  lemma {:induction false} PacketReads(s: bytes, p: Packet)
    requires p.Valid() && At(s, 0, PacketBytes(p))
    requires |s| == |PacketBytes(p)| || p.MessagesPacket?
    ensures ReadPacket(s) == Ok((p, |PacketBytes(p)| - Padding(p)))
  {
    hide HeaderBytes, Body, At, ReadPacket, Terminated;
    AtSplit(s, 0, HeaderBytes(p.header), Body(p));
    ReadWritten(s, p, |HeaderBytes(p.header)|);
  }

  lemma {:induction false} BodyReads2(s: bytes, pos: nat, x: u64, y: u64)
    requires At(s, pos, PutU64(x) + PutU64(y) + ZeroBytes(PADDING))
    ensures GetU64(s, pos) == Ok((x, pos + 8))
    ensures GetU64(s, pos + 8) == Ok((y, pos + 16))
  {
    AtSplit(s, pos, PutU64(x) + PutU64(y), ZeroBytes(PADDING));
    AtSplit(s, pos, PutU64(x), PutU64(y));
    ReadU64(s, pos, x);
    ReadU64(s, pos + 8, y);
  }

  /** A messages packet on the wire. */
  function MessagesBytes(h: Header, salt: u64, ms: seq<Message>): bytes {
    PacketBytes(MessagesPacket(h, salt)) + Coalesce(ms)
  }

  /** The whole packet: header id, ack list, salt and messages all come back, with nothing left
      over and no error, if and only if every message fits its header. */
  lemma {:induction false} MessagesRoundTripIff(h: Header, salt: u64, ms: seq<Message>, s: bytes, pos: nat)
    requires h.packetType == MessagesType
    requires h.ack.Some? ==> Terminated(h.ack.value)
    requires AllOutbound(ms)
    requires s == MessagesBytes(h, salt, ms) && pos == |PacketBytes(MessagesPacket(h, salt))|
    ensures |s| == pos + |Coalesce(ms)|
    ensures ReadPacket(s) == Ok((MessagesPacket(h, salt), pos))
    ensures ParseMessages(s, pos) == (InboundAll(ms), None) <==> AllFit(ms)
  {
    hide PacketBytes, Coalesce, At, ReadPacket, ParseMessages, Terminated;
    RestAt(s, PacketBytes(MessagesPacket(h, salt)), Coalesce(ms));
    PacketReads(s, MessagesPacket(h, salt));
    CoalesceRoundTripIff(s, pos, ms);
  }

  lemma {:induction false} RestAt(s: bytes, front: bytes, rest: bytes)
    requires s == front + rest
    ensures |s| == |front| + |rest| && At(s, 0, front) && At(s, |front|, rest)
  {
  }
}
