/** Machine words, wrapping arithmetic and the wrapping order on 16-bit sequence numbers.

    Ids on the wire are `u16` and wrap.  The proofs speak of unwrapped ids: plain integers that
    only grow, of which the wire shows the residue `Wrap(x)`. */
module Words {

  datatype Option<+T> = None | Some(value: T)

  datatype Result<+T, +E> = Ok(value: T) | Err(error: E) {
    predicate IsFailure() {
      Err?
    }

    function PropagateFailure<U>(): Result<U, E>
      requires Err?
    {
      Err(error)
    }

    function Extract(): T
      requires Ok?
    {
      value
    }
  }

  /** The outcomes that drive control flow in the modelled code. */
  datatype Error =
    | Io
    | SequenceTooOld
    | InvalidPacket
    | StalePacket
    | DuplicatePacket
    | InvalidMessage
    | TooManyPending
    | PayloadTooBig
    | NoSuchChannel
    | SocketAddrMismatch

  type u8 = x: int | 0 <= x < 256
  type u16 = x: int | 0 <= x < 65536
  type u64 = x: int | 0 <= x < 0x1_0000_0000_0000_0000

  type bytes = seq<u8>

  /** What an unwrapped id looks like on the wire. */
  function Wrap(x: int): u16 {
    x % 65536
  }

  function WrapAdd(x: u16, y: int): u16 {
    Wrap(x + y)
  }

  function WrapSub(x: u16, y: int): u16 {
    Wrap(x - y)
  }

  predicate SequenceGreaterThan(s1: u16, s2: u16) {
    (s1 > s2 && s1 - s2 <= 32768) || (s1 < s2 && s2 - s1 > 32768)
  }

  predicate SequenceLessThan(s1: u16, s2: u16) {
    SequenceGreaterThan(s2, s1)
  }

  /** Within half the sequence space the wrapping comparison is the real one. */
  lemma {:induction false} ComparesUnwrapped(x: int, y: int)
    requires -32768 < x - y < 32768
    ensures SequenceGreaterThan(Wrap(x), Wrap(y)) <==> x > y
  {
    WrapMoves(x);
    WrapMoves(y);
  }

  /** Exactly half the space away the order is decided by the raw values, so one of the two
      directions holds and the other does not; beyond it, the order is reversed. */
  lemma {:induction false} ComparesHalfway(x: int, y: int)
    requires x - y == 32768
    ensures SequenceGreaterThan(Wrap(x), Wrap(y)) <==> Wrap(x) > Wrap(y)
    ensures SequenceGreaterThan(Wrap(x), Wrap(y)) != SequenceGreaterThan(Wrap(y), Wrap(x))
  {
    WrapMoves(x);
    WrapMoves(y);
  }

  lemma {:induction false} WrapMoves(x: int)
    ensures x == 65536 * (x / 65536) + Wrap(x)
  {
  }

  /** Two ids less than one full turn apart with the same wire form are the same id. */
  lemma {:induction false} WrapInjective(x: int, y: int)
    requires Wrap(x) == Wrap(y)
    requires -65536 < x - y < 65536
    ensures x == y
  {
  }

  lemma {:induction false} WrapArithmetic(x: int, y: int)
    ensures WrapAdd(Wrap(x), y) == Wrap(x + y)
    ensures WrapSub(Wrap(x), y) == Wrap(x - y)
    ensures WrapSub(Wrap(x), Wrap(y)) == Wrap(x - y)
  {
    var p, q := x / 65536, y / 65536;
    assert x == 65536 * p + Wrap(x) && y == 65536 * q + Wrap(y);
    WrapTurns(Wrap(x) + y, p);
    WrapTurns(Wrap(x) - y, p);
    WrapTurns(Wrap(x) - Wrap(y), p - q);
  }

  lemma {:induction false} WrapSmall(x: int)
    ensures 0 <= x < 65536 ==> Wrap(x) == x
  {
  }

  lemma {:induction false} WrapTurns(x: int, turns: int)
    ensures Wrap(x + 65536 * turns) == Wrap(x)
  {
  }

  // -- residues modulo a variable capacity --

  lemma {:induction false} ModMultiple(x: int, k: int, n: int)
    requires 0 < n
    ensures (x + k * n) % n == x % n
  {
    var q, m := x / n, x % n;
    assert x == q * n + m;
    Distribute(q, k, n);
    ModUnique(x + k * n, q + k, m, n);
  }

  lemma {:induction false} Distribute(a: int, b: int, n: int)
    ensures (a + b) * n == a * n + b * n
    ensures (a - b) * n == a * n - b * n
  {
  }

  lemma {:induction false} AtLeastOnce(k: int, n: int)
    requires 0 < n && 1 <= k
    ensures n <= k * n
  {
    Distribute(k - 1, 1, n);
    assert 0 <= (k - 1) * n;
  }

  /** Quotient and remainder are unique. */
  lemma {:induction false} ModUnique(x: int, q: int, m: int, n: int)
    requires 0 < n
    requires x == q * n + m && 0 <= m < n
    ensures x % n == m && x / n == q
  {
    var q', m' := x / n, x % n;
    assert x == q' * n + m';
    Distribute(q, q', n);
    Distribute(q', q, n);
    if q' < q {
      AtLeastOnce(q - q', n);
    } else if q < q' {
      AtLeastOnce(q' - q, n);
    }
  }

  /** Distinct numbers less than `n` apart have distinct residues. */
  lemma {:induction false} ModDistinct(x: int, y: int, n: int)
    requires 0 < n
    requires x < y < x + n
    ensures x % n != y % n
  {
    if x % n == y % n {
      var qx, qy := x / n, y / n;
      assert x == qx * n + x % n && y == qy * n + y % n;
      Distribute(qy, qx, n);
      Distribute(qx, qy, n);
      if qx < qy {
        AtLeastOnce(qy - qx, n);
      } else if qy < qx {
        AtLeastOnce(qx - qy, n);
      }
    }
  }

  /** A capacity that divides the sequence space gives a wrapped id the slot of the unwrapped one. */
  lemma {:induction false} WrapKeepsSlot(x: int, n: int)
    requires 0 < n
    requires 65536 % n == 0
    ensures Wrap(x) % n == x % n
  {
    var turns := x / 65536;
    var per := 65536 / n;
    assert 65536 == per * n;
    assert x == Wrap(x) + turns * 65536;
    assert turns * 65536 == (turns * per) * n;
    ModMultiple(Wrap(x), turns * per, n);
  }
}
