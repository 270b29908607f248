/** The ack bitfield of a packet header (src/protocol/ack_header.rs).

    Seven acks to a byte, least significant bit first; the top bit says that another byte
    follows.  Item `i` of the list speaks of the id `ack_id - i`. */
module AckHeaders {
  import opened Words
  import opened Wire
  import opened SequenceBuffers

  const MAX_ACK_BYTES: nat := 50
  const MAX_UNACKED_PACKETS: u16 := 7 * MAX_ACK_BYTES

  /** One entry of the received-packets buffer; its time and size play no part here. */
  datatype ReceivedMeta = ReceivedMeta

  type Ack = (u16, bool)

  /** `bytes` is the used part of the bit buffer. */
  datatype AckHeader = AckHeader(ackId: u16, bytes: bytes)

  // -- bits of a byte --

  function Bit(b: nat, k: nat): bool {
    if k == 0 then b % 2 == 1 else Bit(b / 2, k - 1)
  }

  /** The most significant bit of a byte: another byte follows. */
  predicate Continues(b: u8) {
    b >= 128
  }

  function Pow2(k: nat): nat {
    if k == 0 then 1 else 2 * Pow2(k - 1)
  }

  // -- building --

  function DivideRoundingUp(n: nat): nat {
    (n + 6) / 7
  }

  /** `ceil(n / 7) as u8`, at least one. */
  function BytesNeeded(numAcks: u16): nat {
    var k := DivideRoundingUp(numAcks);
    if k == 0 then 1 else if k > 255 then 255 else k
  }

  /** Whether the list has an item `i` that is an ack. */
  predicate Flag(acks: seq<Ack>, i: nat)
    decreases acks, i
  {
    acks != [] && if i == 0 then acks[0].1 else Flag(acks[1..], i - 1)
  }

  lemma {:induction false} FlagIs(acks: seq<Ack>, i: nat)
    ensures Flag(acks, i) <==> i < |acks| && acks[i].1
  {
    if acks != [] && i > 0 {
      FlagIs(acks[1..], i - 1);
    }
  }

  /** `k` acks from item `first` on, least significant bit first. */
  function Pack(acks: seq<Ack>, first: nat, k: nat): nat
    decreases k, acks
  {
    if k == 0 then 0 else (if Flag(acks, first) then 1 else 0) + 2 * Pack(acks, first + 1, k - 1)
  }

  lemma {:induction false} PackBound(acks: seq<Ack>, first: nat, k: nat)
    ensures Pack(acks, first, k) < Pow2(k)
    decreases k
  {
    if k > 0 {
      PackBound(acks, first + 1, k - 1);
    }
  }

  lemma {:induction false} PackBit(acks: seq<Ack>, first: nat, k: nat, j: nat)
    requires j < k
    ensures Bit(Pack(acks, first, k), j) == Flag(acks, first + j)
    decreases k
  {
    assert Pack(acks, first, k) / 2 == Pack(acks, first + 1, k - 1);
    if j > 0 {
      PackBit(acks, first + 1, k - 1, j - 1);
    }
  }

  /** Setting one more bit adds its weight. */
  lemma {:induction false} PackSnoc(acks: seq<Ack>, first: nat, k: nat)
    ensures Pack(acks, first, k + 1) == Pack(acks, first, k) + if Flag(acks, first + k) then Pow2(k) else 0
    decreases k
  {
    if k > 0 {
      PackSnoc(acks, first + 1, k - 1);
    }
  }

  lemma {:induction false} LowBits(x: nat, k: nat, j: nat)
    requires j < k
    ensures Bit(x + Pow2(k), j) == Bit(x, j)
  {
    if j > 0 {
      assert (x + Pow2(k)) / 2 == x / 2 + Pow2(k - 1);
      LowBits(x / 2, k - 1, j - 1);
    }
  }

  /** Byte `i`: seven acks, and the continuation mark if the list goes on. */
  function AckByte(acks: seq<Ack>, i: nat): u8 {
    PackBound(acks, 7 * i, 7);
    assert Pow2(7) == 128;
    Pack(acks, 7 * i, 7) + if 7 * i + 7 < |acks| then 128 else 0
  }

  lemma {:induction false} AckByteBits(acks: seq<Ack>, i: nat, j: nat)
    requires j < 7
    ensures Bit(AckByte(acks, i), j) <==> 7 * i + j < |acks| && acks[7 * i + j].1
    ensures Continues(AckByte(acks, i)) <==> 7 * i + 7 < |acks|
  {
    assert Pow2(7) == 128;
    PackBound(acks, 7 * i, 7);
    PackBit(acks, 7 * i, 7, j);
    LowBits(Pack(acks, 7 * i, 7), 7, j);
    FlagIs(acks, 7 * i + j);
  }

  /** The first `n` bytes of the field. */
  function AckBytes(acks: seq<Ack>, n: nat): (b: bytes)
    ensures |b| == n
  {
    if n == 0 then [] else AckBytes(acks, n - 1) + [AckByte(acks, n - 1)]
  }

  lemma {:induction false} AckBytesAt(acks: seq<Ack>, n: nat, j: nat)
    requires j < n
    ensures AckBytes(acks, n)[j] == AckByte(acks, j)
  {
    if j < n - 1 {
      AckBytesAt(acks, n - 1, j);
    }
  }

  function BuildAckHeader(numAcks: u16, acks: seq<Ack>): Result<AckHeader, Error>
    requires acks != []
  {
    if BytesNeeded(numAcks) > MAX_ACK_BYTES then Err(Io)
    else Ok(AckHeader(acks[0].0, AckBytes(acks, BytesNeeded(numAcks))))
  }

  method FromAckIter(numAcks: u16, acks: seq<Ack>) returns (r: Result<AckHeader, Error>)
    requires acks != []
    ensures r == BuildAckHeader(numAcks, acks)
  {
    var ackId := acks[0].0;
    var numBytesNeeded := BytesNeeded(numAcks);
    var buffer: bytes := [];
    var next: nat := 0;  // items of the iterator consumed so far
    for i := 0 to numBytesNeeded
      invariant |buffer| == i <= MAX_ACK_BYTES
      invariant next == if 7 * i < |acks| then 7 * i else |acks|
      invariant buffer == AckBytes(acks, i)
    {
      var mask: int := 1;
      var currentByte: int := 0;
      for k := 0 to 7
        invariant next == if 7 * i + k < |acks| then 7 * i + k else |acks|
        invariant mask == Pow2(k) && currentByte == Pack(acks, 7 * i, k)
      {
        PackSnoc(acks, 7 * i, k);
        FlagIs(acks, 7 * i + k);
        if next < |acks| {
          if acks[next].1 {
            currentByte := currentByte + mask;
          }
          next := next + 1;
        }
        mask := 2 * mask;
      }
      PackBound(acks, 7 * i, 7);
      assert Pow2(7) == 128;
      if next < |acks| {
        currentByte := currentByte + mask;
      }
      if |buffer| == MAX_ACK_BYTES {
        return Err(Io);
      }
      buffer := buffer + [currentByte];
    }
    return Ok(AckHeader(ackId, buffer));
  }

  // -- writing and parsing --

  function AckHeaderBytes(h: AckHeader): bytes {
    PutU16(h.ackId) + h.bytes
  }

  /** The bytes up to and including the first one without a continuation mark, at most `limit`. */
  function FieldBytes(s: bytes, pos: nat, limit: nat): Result<bytes, Error>
    decreases |s| - pos
  {
    if limit == 0 then Ok([])
    else
      var (b, p) :- GetU8(s, pos);
      if !Continues(b) then Ok([b])
      else
        var rest :- FieldBytes(s, p, limit - 1);
        Ok([b] + rest)
  }

  function ParseAckHeader(s: bytes, pos: nat): Read<AckHeader> {
    var (ackId, p) :- GetU16(s, pos);
    var field :- FieldBytes(s, p, MAX_ACK_BYTES);
    Ok((AckHeader(ackId, field), p + |field|))
  }

  method Parse(reader: Cursor) returns (r: Result<AckHeader, Error>)
    requires reader.Valid()
    modifies reader
    ensures reader.Valid()
    ensures var parsed := ParseAckHeader(reader.buf, old(reader.pos));
            if parsed.Ok? then r == Ok(parsed.value.0) && reader.pos == parsed.value.1
            else r == Err(parsed.error)
  {
    var ackId :- reader.ReadU16();
    ghost var start := reader.pos;
    ghost var field := FieldBytes(reader.buf, start, MAX_ACK_BYTES);
    var buffer: bytes := [];
    var i := 0;
    assert forall rest: bytes :: [] + rest == rest;
    while i < MAX_ACK_BYTES
      invariant reader.Valid() && i <= MAX_ACK_BYTES && |buffer| == i && reader.pos == start + i
      invariant var rest := FieldBytes(reader.buf, reader.pos, MAX_ACK_BYTES - i);
                field == if rest.Ok? then Ok(buffer + rest.value) else rest
    {
      var b :- reader.ReadU8();
      buffer := buffer + [b];
      if !Continues(b) {
        break;
      }
      assert forall rest: bytes :: buffer[..i] + ([b] + rest) == buffer + rest;
      i := i + 1;
    }
    assert buffer + [] == buffer;
    r := Ok(AckHeader(ackId, buffer));
  }

  // -- iterating --

  /** What the iterator over a header still yields from a given byte and bit offset. */
  function ItemsFrom(h: AckHeader, byteOffset: nat, bitOffset: nat): seq<Ack>
    requires bitOffset < 7
    decreases |h.bytes| - byteOffset, 7 - bitOffset
  {
    if byteOffset >= |h.bytes| || byteOffset == MAX_ACK_BYTES then []
    else
      var b := h.bytes[byteOffset];
      var item := (WrapSub(h.ackId, 7 * byteOffset + bitOffset), Bit(b, bitOffset));
      [item] +
      if bitOffset < 6 then ItemsFrom(h, byteOffset, bitOffset + 1)
      else if Continues(b) then ItemsFrom(h, byteOffset + 1, 0)
      else []
  }

  /** The acks a header stands for. */
  function Items(h: AckHeader): seq<Ack> {
    ItemsFrom(h, 0, 0)
  }

  class AckHeaderIter {
    const header: AckHeader
    var byteOffset: nat
    var bitOffset: nat

    ghost predicate Valid()
      reads this
    {
      |header.bytes| <= MAX_ACK_BYTES && bitOffset < 7 &&
      (byteOffset <= |header.bytes| || byteOffset == MAX_ACK_BYTES)
    }

    ghost function Rest(): seq<Ack>
      requires Valid()
      reads this
    {
      ItemsFrom(header, byteOffset, bitOffset)
    }

    constructor (header: AckHeader)
      requires |header.bytes| <= MAX_ACK_BYTES
      ensures Valid() && this.header == header && Rest() == Items(header)
    {
      this.header := header;
      byteOffset, bitOffset := 0, 0;
    }

    method Next() returns (item: Option<Ack>)
      requires Valid()
      modifies this
      ensures Valid()
      ensures var rest := old(Rest());
              if rest == [] then item == None && Rest() == []
              else item == Some(rest[0]) && Rest() == rest[1..]
    {
      if byteOffset == |header.bytes| || byteOffset == MAX_ACK_BYTES {
        return None;
      }
      var b := header.bytes[byteOffset];
      var isAcked := Bit(b, bitOffset);
      var sequence := WrapSub(header.ackId, 7 * byteOffset + bitOffset);
      if bitOffset == 6 {
        if !Continues(b) {
          byteOffset := MAX_ACK_BYTES;
        } else {
          byteOffset := byteOffset + 1;
          bitOffset := 0;
        }
      } else {
        bitOffset := bitOffset + 1;
      }
      return Some((sequence, isAcked));
    }
  }

  /** The acks for the newest `length` received ids, rounded up to fill whole bytes. */
  function AckList(received: Ring<ReceivedMeta>, length: u16): seq<Ack>
    requires received.Valid()
  {
    AckListTo(received, 7 * DivideRoundingUp(length))
  }

  function AckListTo(received: Ring<ReceivedMeta>, n: nat): (acks: seq<Ack>)
    requires received.Valid()
    ensures |acks| == n
  {
    if n == 0 then []
    else
      var id := WrapSub(received.sequence, n - 1);
      AckListTo(received, n - 1) + [(id, received.Exists(id))]
  }

  lemma {:induction false} AckListAt(received: Ring<ReceivedMeta>, n: nat, i: nat)
    requires received.Valid() && i < n
    ensures AckListTo(received, n)[i] == (WrapSub(received.sequence, i), received.Exists(WrapSub(received.sequence, i)))
  {
    if i < n - 1 {
      AckListAt(received, n - 1, i);
    }
  }

  class AckIter {
    const received: Ring<ReceivedMeta>
    const max: nat
    ghost const list: seq<Ack>
    var i: nat

    ghost predicate Valid()
      reads this
    {
      && received.Valid() && i <= max == |list|
      && (forall k | 0 <= k < max ::
            list[k] == (WrapSub(received.sequence, k), received.Exists(WrapSub(received.sequence, k))))
    }

    constructor WithMinimumLength(received: Ring<ReceivedMeta>, length: u16)
      requires received.Valid()
      ensures Valid() && i == 0 && list == AckList(received, length)
    {
      this.received := received;
      max := 7 * DivideRoundingUp(length);
      i := 0;
      list := AckList(received, length);
      new;
      forall k | 0 <= k < max
        ensures list[k] == (WrapSub(received.sequence, k), received.Exists(WrapSub(received.sequence, k)))
      {
        AckListAt(received, max, k);
      }
    }

    method Next() returns (item: Option<Ack>)
      requires Valid()
      modifies this
      ensures Valid()
      ensures old(i) == |list| ==> item == None && i == old(i)
      ensures old(i) < |list| ==> item == Some(list[old(i)]) && i == old(i) + 1
    {
      if i >= max {
        return None;
      }
      var sequence := WrapSub(received.sequence, i);
      var exists' := received.Exists(sequence);
      i := i + 1;
      return Some((sequence, exists'));
    }
  }

  // -- the round trip --

  /** Every byte but the last announces another one. */
  ghost predicate Chained(h: AckHeader) {
    && 1 <= |h.bytes| <= MAX_ACK_BYTES
    && forall i | 0 <= i < |h.bytes| - 1 :: Continues(h.bytes[i])
  }

  /** ... and the last one does not, unless the field is full. */
  ghost predicate Terminated(h: AckHeader) {
    Chained(h) && (|h.bytes| == MAX_ACK_BYTES || !Continues(h.bytes[|h.bytes| - 1]))
  }

  function ItemAt(h: AckHeader, i: nat): Ack
    requires i < 7 * |h.bytes|
  {
    (WrapSub(h.ackId, i), Bit(h.bytes[i / 7], i % 7))
  }

  lemma {:induction false} ItemsFromStep(h: AckHeader, j: nat, k: nat)
    requires Chained(h) && k < 7 && j < |h.bytes|
    ensures var rest := if k < 6 then ItemsFrom(h, j, k + 1) else ItemsFrom(h, j + 1, 0);
            && ItemsFrom(h, j, k) == [(WrapSub(h.ackId, 7 * j + k), Bit(h.bytes[j], k))] + rest
            && (k == 6 && j + 1 == |h.bytes| ==> rest == [])
  {
    hide Bit, WrapSub;
  }

  lemma {:induction false} ItemsFromExact(h: AckHeader, j: nat, k: nat, i: nat)
    requires Chained(h) && k < 7 && j <= |h.bytes| && (j == |h.bytes| ==> k == 0)
    requires 7 * j + k <= i < 7 * |h.bytes|
    ensures |ItemsFrom(h, j, k)| == 7 * |h.bytes| - 7 * j - k
    ensures ItemsFrom(h, j, k)[i - 7 * j - k] == ItemAt(h, i)
    decreases |h.bytes| - j, 7 - k
  {
    hide Bit, WrapSub, ItemsFrom, Continues;
    var j', k' := if k < 6 then j else j + 1, if k < 6 then k + 1 else 0;
    var rest := ItemsFrom(h, j', k');
    ItemsFromStep(h, j, k);
    if 7 * j + k < i {
      ItemsFromExact(h, j', k', i);
      assert ItemsFrom(h, j, k)[i - 7 * j - k] == rest[i - 7 * j - k - 1];
    } else {
      assert i / 7 == j && i % 7 == k;
      if i + 1 < 7 * |h.bytes| {
        ItemsFromExact(h, j', k', i + 1);
      }
    }
  }

  /** A well-formed header stands for seven acks per byte, in descending order of id. */
  lemma {:induction false} ItemsExact(h: AckHeader)
    requires Chained(h)
    ensures |Items(h)| == 7 * |h.bytes|
    ensures forall i | 0 <= i < |Items(h)| :: Items(h)[i] == ItemAt(h, i)
  {
    ItemsFromExact(h, 0, 0, 0);
    forall i | 0 <= i < |Items(h)|
      ensures Items(h)[i] == ItemAt(h, i)
    {
      ItemsFromExact(h, 0, 0, i);
    }
  }

  lemma {:induction false} FieldReads(s: bytes, pos: nat, field: bytes, limit: nat)
    requires At(s, pos, field) && 1 <= |field| <= limit
    requires forall i | 0 <= i < |field| - 1 :: Continues(field[i])
    requires |field| == limit || !Continues(field[|field| - 1])
    ensures FieldBytes(s, pos, limit) == Ok(field)
    decreases limit
  {
    assert field == [field[0]] + field[1..];
    AtSplit(s, pos, [field[0]], field[1..]);
    ReadU8(s, pos, field[0]);
    if |field| > 1 {
      FieldReads(s, pos + 1, field[1..], limit - 1);
    }
  }

  lemma {:induction false} FieldShape(s: bytes, pos: nat, limit: nat)
    requires FieldBytes(s, pos, limit).Ok?
    ensures var field := FieldBytes(s, pos, limit).value;
            && |field| <= limit && (0 < limit ==> 1 <= |field|)
            && (forall i | 0 <= i < |field| - 1 :: Continues(field[i]))
            && pos + |field| <= |s| + if limit == 0 then pos else 0
    decreases limit
  {
    if limit > 0 {
      var b := GetU8(s, pos).value.0;
      if Continues(b) {
        FieldShape(s, pos + 1, limit - 1);
      }
    }
  }

  /** Whatever bytes arrive, a header that parses is well formed. */
  lemma {:induction false} ParsedIsChained(s: bytes, pos: nat)
    requires ParseAckHeader(s, pos).Ok?
    ensures var (h, p) := ParseAckHeader(s, pos).value;
            Chained(h) && pos < p <= |s|
  {
    FieldShape(s, pos + 2, MAX_ACK_BYTES);
  }

  lemma {:induction false} ParseWritten(s: bytes, pos: nat, h: AckHeader)
    requires Terminated(h) && At(s, pos, AckHeaderBytes(h))
    ensures ParseAckHeader(s, pos) == Ok((h, pos + |AckHeaderBytes(h)|))
  {
    AtSplit(s, pos, PutU16(h.ackId), h.bytes);
    ReadU16(s, pos, h.ackId);
    FieldReads(s, pos + 2, h.bytes, MAX_ACK_BYTES);
  }

  /** Any list of acks that fills the bytes asked for comes back from the header built from it. */
  lemma {:induction false} BuildExact(numAcks: u16, acks: seq<Ack>)
    requires 1 <= numAcks <= MAX_UNACKED_PACKETS
    requires |acks| == 7 * DivideRoundingUp(numAcks)
    requires forall i | 0 <= i < |acks| :: acks[i].0 == WrapSub(acks[0].0, i)
    ensures BuildAckHeader(numAcks, acks).Ok?
    ensures var h := BuildAckHeader(numAcks, acks).value;
            && Terminated(h)
            && h.ackId == acks[0].0
            && |h.bytes| == DivideRoundingUp(numAcks) <= MAX_ACK_BYTES
            && (forall j | 0 <= j < |h.bytes| :: Continues(h.bytes[j]) <==> j < |h.bytes| - 1)
            && Items(h) == acks
  {
    var h := BuildAckHeader(numAcks, acks).value;
    forall j | 0 <= j < |h.bytes|
      ensures Continues(h.bytes[j]) <==> j < |h.bytes| - 1
    {
      AckBytesAt(acks, |h.bytes|, j);
      AckByteBits(acks, j, 0);
    }
    ItemsExact(h);
    forall i | 0 <= i < |acks|
      ensures ItemAt(h, i) == acks[i]
    {
      AckBytesAt(acks, |h.bytes|, i / 7);
      AckByteBits(acks, i / 7, i % 7);
    }
  }

  /** From the received-packets buffer to the peer's iterator: building, writing, parsing and
      iterating gives exactly the pairs `(newest - i, received?)`, for the number of acks asked
      for rounded up to whole bytes, in at most fifty bytes of bitfield. */
  lemma {:induction false} AckRoundTrip(received: Ring<ReceivedMeta>, numAcks: u16, s: bytes, pos: nat)
    requires received.Valid()
    requires 1 <= numAcks <= MAX_UNACKED_PACKETS
    ensures var acks := AckList(received, numAcks);
            && numAcks <= |acks| < numAcks + 7 && |acks| <= MAX_UNACKED_PACKETS
            && BuildAckHeader(numAcks, acks).Ok?
            && var h := BuildAckHeader(numAcks, acks).value;
            && |h.bytes| <= MAX_ACK_BYTES
            && (At(s, pos, AckHeaderBytes(h)) ==>
                  && ParseAckHeader(s, pos) == Ok((h, pos + 2 + |h.bytes|))
                  && |Items(h)| == |acks|
                  && forall i | 0 <= i < |Items(h)| ::
                       Items(h)[i] == (WrapSub(received.sequence, i), received.Exists(WrapSub(received.sequence, i))))
  {
    hide Wrap, BuildAckHeader, Items, ParseAckHeader, AckListTo, At, Terminated;
    var acks := AckList(received, numAcks);
    forall i | 0 <= i < |acks|
      ensures acks[i] == (WrapSub(received.sequence, i), received.Exists(WrapSub(received.sequence, i)))
    {
      AckListAt(received, |acks|, i);
    }
    WrapSmall(received.sequence);
    BuildExact(numAcks, acks);
    var h := BuildAckHeader(numAcks, acks).value;
    if At(s, pos, AckHeaderBytes(h)) {
      ParseWritten(s, pos, h);
    }
  }
}
