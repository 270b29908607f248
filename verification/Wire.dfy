/** Big-endian numbers on the wire, and the cursor that packets are read through. */
module Wire {
  import opened Words

  function PutU16(x: u16): bytes {
    [x / 256, x % 256]
  }

  /** `n` bytes, most significant first. */
  function PutBytes(x: nat, n: nat): (b: bytes)
    ensures |b| == n
    decreases n, x
  {
    if n == 0 then [] else PutBytes(x / 256, n - 1) + [x % 256]
  }

  function Pow256(n: nat): nat {
    if n == 0 then 1 else 256 * Pow256(n - 1)
  }

  function Number(b: bytes): (x: nat)
    ensures x < Pow256(|b|)
  {
    if b == [] then 0 else 256 * Number(b[..|b| - 1]) + b[|b| - 1]
  }

  lemma {:induction false} NumberPut(x: nat, n: nat)
    requires x < Pow256(n)
    ensures Number(PutBytes(x, n)) == x
  {
    if n > 0 {
      NumberPut(x / 256, n - 1);
      assert PutBytes(x, n)[..n - 1] == PutBytes(x / 256, n - 1);
    }
  }

  function PutU32(x: int): bytes
    requires 0 <= x < 0x1_0000_0000
  {
    PutBytes(x, 4)
  }

  function PutU64(x: u64): bytes {
    PutBytes(x, 8)
  }

  /** A successful read: the value and the position after it. */
  type Read<T> = Result<(T, nat), Error>

  function GetU8(s: bytes, pos: nat): (r: Read<u8>)
    ensures r.Ok? ==> pos < r.value.1 <= |s|
  {
    if pos < |s| then Ok((s[pos], pos + 1)) else Err(Io)
  }

  function U16At(s: bytes, pos: nat): u16
    requires pos + 2 <= |s|
  {
    256 * (s[pos] as int) + s[pos + 1]
  }

  function GetU16(s: bytes, pos: nat): (r: Read<u16>)
    ensures r.Ok? ==> pos < r.value.1 <= |s|
  {
    if pos + 2 <= |s| then Ok((U16At(s, pos), pos + 2)) else Err(Io)
  }

  function GetNumber(s: bytes, pos: nat, n: nat): (r: Read<nat>)
    requires 0 < n
    ensures r.Ok? ==> pos < r.value.1 <= |s| && r.value.0 < Pow256(n)
  {
    if pos + n <= |s| then Ok((Number(s[pos..pos + n]), pos + n)) else Err(Io)
  }

  function GetU32(s: bytes, pos: nat): (r: Read<nat>)
    ensures r.Ok? ==> r.value.0 < 0x1_0000_0000
  {
    assert Pow256(4) == 0x1_0000_0000;
    GetNumber(s, pos, 4)
  }

  function GetU64(s: bytes, pos: nat): Read<u64> {
    assert Pow256(8) == 0x1_0000_0000_0000_0000;
    var (x, p) :- GetNumber(s, pos, 8);
    Ok((x, p))
  }

  /** `part` is what stands at `pos`. */
  ghost predicate At(s: bytes, pos: nat, part: bytes) {
    pos + |part| <= |s| && s[pos..pos + |part|] == part
  }

  lemma {:induction false} AtSplit(s: bytes, pos: nat, a: bytes, b: bytes)
    ensures At(s, pos, a + b) <==> At(s, pos, a) && At(s, pos + |a|, b)
  {
    if At(s, pos, a + b) {
      assert s[pos..pos + |a|] == s[pos..pos + |a + b|][..|a|];
      assert s[pos + |a|..pos + |a| + |b|] == s[pos..pos + |a + b|][|a|..];
    }
    if At(s, pos, a) && At(s, pos + |a|, b) {
      assert s[pos..pos + |a + b|] == s[pos..pos + |a|] + s[pos + |a|..pos + |a| + |b|];
    }
  }

  lemma {:induction false} ReadU8(s: bytes, pos: nat, x: u8)
    requires At(s, pos, [x])
    ensures s[pos] == x
    ensures GetU8(s, pos) == Ok((x, pos + 1))
  {
    assert s[pos] == s[pos..pos + 1][0];
  }

  lemma {:induction false} ReadU16(s: bytes, pos: nat, x: u16)
    requires At(s, pos, PutU16(x))
    ensures U16At(s, pos) == x
    ensures GetU16(s, pos) == Ok((x, pos + 2))
  {
    assert s[pos] == s[pos..pos + 2][0] && s[pos + 1] == s[pos..pos + 2][1];
  }

  lemma {:induction false} ReadU32(s: bytes, pos: nat, x: int)
    requires 0 <= x < 0x1_0000_0000
    requires At(s, pos, PutU32(x))
    ensures GetU32(s, pos) == Ok((x, pos + 4))
  {
    assert Pow256(4) == 0x1_0000_0000;
    NumberPut(x, 4);
  }

  lemma {:induction false} ReadU64(s: bytes, pos: nat, x: u64)
    requires At(s, pos, PutU64(x))
    ensures GetU64(s, pos) == Ok((x, pos + 8))
  {
    assert Pow256(8) == 0x1_0000_0000_0000_0000;
    NumberPut(x, 8);
  }

  /** A read position in a received datagram. */
  class Cursor {
    const buf: bytes
    var pos: nat

    ghost predicate Valid()
      reads this
    {
      pos <= |buf|
    }

    constructor (buf: bytes)
      ensures Valid() && this.buf == buf && pos == 0
    {
      this.buf := buf;
      pos := 0;
    }

    function Remaining(): nat
      requires Valid()
      reads this
    {
      |buf| - pos
    }

    method ReadU8() returns (r: Result<u8, Error>)
      requires Valid()
      modifies this
      ensures Valid()
      ensures r.Ok? <==> GetU8(buf, old(pos)).Ok?
      ensures r.Ok? ==> GetU8(buf, old(pos)) == Ok((r.value, pos))
      ensures r.Err? ==> r.error == Io && pos == old(pos)
    {
      if pos >= |buf| {
        return Err(Io);
      }
      r := Ok(buf[pos]);
      pos := pos + 1;
    }

    method ReadU16() returns (r: Result<u16, Error>)
      requires Valid()
      modifies this
      ensures Valid()
      ensures r.Ok? <==> GetU16(buf, old(pos)).Ok?
      ensures r.Ok? ==> GetU16(buf, old(pos)) == Ok((r.value, pos))
      ensures r.Err? ==> r.error == Io && pos == old(pos)
    {
      if pos + 2 > |buf| {
        return Err(Io);
      }
      r := Ok(256 * (buf[pos] as int) + buf[pos + 1]);
      pos := pos + 2;
    }

    /** `n` bytes as a big-endian number. */
    method ReadNumber(n: nat) returns (r: Result<nat, Error>)
      requires Valid() && 0 < n
      modifies this
      ensures Valid()
      ensures r.Ok? <==> GetNumber(buf, old(pos), n).Ok?
      ensures r.Ok? ==> GetNumber(buf, old(pos), n) == Ok((r.value, pos))
      ensures r.Err? ==> r.error == Io && pos == old(pos)
    {
      if pos + n > |buf| {
        return Err(Io);
      }
      var x: nat := 0;
      for i := 0 to n
        invariant pos == old(pos)
        invariant x == Number(buf[pos..pos + i])
      {
        assert buf[pos..pos + i + 1][..i] == buf[pos..pos + i];
        x := 256 * x + (buf[pos + i] as int);
      }
      r := Ok(x);
      pos := pos + n;
    }
  }
}
