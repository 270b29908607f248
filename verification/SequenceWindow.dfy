/** The ring refines a window of an ideal map over unwrapped ids, through any number of wraps.

    `m` is the history: every unwrapped id ever inserted, with its entry.  `top` is the greatest
    of them.  Ids in `(top - capacity, top]` form the window. */
module SequenceWindow {
  import opened Words
  import opened SequenceBuffers

  /** The unwrapped id that a tag stands for when the newest id is `top`. */
  ghost function Owner(tag: int, top: int): int {
    top - (top - tag) % 65536
  }

  ghost function Slot(u: int, len: nat): int
    requires 0 < len
  {
    u % len
  }

  /** The newest id, not beyond `top`, that uses the slot of `u`. */
  ghost function Latest(u: int, top: int, len: nat): int
    requires 0 < len
  {
    top - (top - u) % len
  }

  /** Slots follow unwrapped ids: the capacity divides the sequence space, or nothing wrapped yet. */
  ghost predicate Aligned(len: nat, top: int)
    requires 0 < len
  {
    65536 % len == 0 || top < 65536
  }

  /** The ids that a guarded insert can take: in the window, or ahead by no more than the guard
      lets through. */
  ghost predicate InReach(q: int, top: int, len: nat) {
    top - len < q <= top + 32768 - len
  }

  /** A tag may outlive its window only if the range that should have cleared its slot crossed the
      wrap point, and then only until the slot comes round again. */
  ghost predicate Leftover(u: int, top: int, len: nat)
    requires 0 < len
  {
    var wrapPoint := top - top % 65536;
    && u < wrapPoint
    && Latest(u, top, len) - u < 32768
    && Latest(u, top, len) < wrapPoint + 32768 - len
  }

  ghost predicate Genuine<T>(r: Ring<T>, i: nat, top: int, m: map<int, T>)
    requires i < |r.tags| == |r.entries|
  {
    var u := Owner(r.tags[i], top);
    && 0 <= u <= top
    && u in m && r.entries[i] == m[u]
    && u % |r.tags| == i
    && (top - |r.tags| < u || Leftover(u, top, |r.tags|))
  }

  /** Whatever the ring holds was inserted. */
  ghost predicate Sound<T>(r: Ring<T>, top: int, m: map<int, T>) {
    && r.Valid()
    && 0 <= top && r.sequence == Wrap(top)
    && Aligned(r.Capacity(), top)
    && (forall u | u in m :: 0 <= u <= top)
    && (forall i | 0 <= i < |r.tags| && r.tags[i] != EMPTY :: Genuine(r, i, top, m))
  }

  ghost predicate Held<T>(r: Ring<T>, u: int)
    requires 0 < |r.tags| == |r.entries|
  {
    r.tags[u % |r.tags|] == Wrap(u)
  }

  /** Whatever was inserted and is still in the window is held by the ring. */
  ghost predicate Complete<T>(r: Ring<T>, top: int, m: map<int, T>)
    requires 0 < |r.tags| == |r.entries|
  {
    forall u | u in m && top - |r.tags| < u :: Held(r, u)
  }

  ghost predicate Tracks<T>(r: Ring<T>, top: int, m: map<int, T>) {
    Sound(r, top, m) && Complete(r, top, m)
  }

  lemma {:induction false} NewRingTracks<T>(size: nat, default: T)
    requires 0 < size < 32768
    ensures Tracks(NewRing(size, default), 0, map[])
  {
  }

  // -- the guard --

  /** For any id less than half the sequence space from the lower edge of the window,
      `check_sequence` says exactly whether it is above that edge. */
  lemma {:induction false} GuardExact<T>(r: Ring<T>, top: int, q: int)
    requires r.sequence == Wrap(top)
    requires -32768 < q - (top - r.Capacity()) < 32768
    ensures r.CheckSequence(Wrap(q)) <==> top - r.Capacity() < q
  {
    WrapArithmetic(top, r.Capacity());
    ComparesUnwrapped(q, top - r.Capacity());
  }

  // -- reading --

  lemma {:induction false} OwnerOf(u: int, top: int)
    requires top - 65536 < u <= top
    ensures Owner(Wrap(u), top) == u
  {
    WrapMoves(u);
    WrapTurns(top - Wrap(u), -(u / 65536));
  }

  lemma {:induction false} OwnerWraps(tag: u16, top: int)
    ensures Wrap(Owner(tag, top)) == tag
    ensures top - 65536 < Owner(tag, top) <= top
  {
    WrapMoves(top - tag);
    WrapTurns(tag, (top - tag) / 65536);
  }

  /** The slot the ring uses for an id in reach is the slot of the unwrapped id. */
  lemma {:induction false} SlotOf<T>(r: Ring<T>, q: int)
    requires r.Valid() && 0 <= q
    requires Aligned(r.Capacity(), q)
    ensures r.Index(Wrap(q)) == q % r.Capacity()
  {
    if 65536 % r.Capacity() == 0 {
      WrapKeepsSlot(q, r.Capacity());
    }
  }

  /** No aliasing: whatever the ring reports for an id no further ahead than the guard allows, and
      less than a full turn behind, is that id's own entry. */
  lemma {:induction false} GetSound<T>(r: Ring<T>, top: int, m: map<int, T>, q: int)
    requires Sound(r, top, m)
    requires top - 65536 < q <= top + 32768 - r.Capacity()
    requires r.Exists(Wrap(q))
    ensures q in m && q <= top && r.Get(Wrap(q)) == Some(m[q])
  {
    var i := r.Index(Wrap(q));
    var u := Owner(r.tags[i], top);
    OwnerWraps(Wrap(q), top);
    assert Genuine(r, i, top, m);
    LatestNear(u, top, r.Capacity());
    WrapInjective(u, q);
  }

  lemma {:induction false} LatestNear(u: int, top: int, len: nat)
    requires 0 < len
    ensures top - len < Latest(u, top, len) <= top
  {
  }

  /** In reach, `exists` and `get` agree with the history. */
  lemma {:induction false} GetExact<T>(r: Ring<T>, top: int, m: map<int, T>, q: int)
    requires Tracks(r, top, m)
    requires InReach(q, top, r.Capacity())
    ensures r.Exists(Wrap(q)) <==> q in m
    ensures r.Get(Wrap(q)) == if q in m then Some(m[q]) else None
  {
    if q in m {
      assert Held(r, q);
      SlotOf(r, q);
    }
    if r.Exists(Wrap(q)) {
      GetSound(r, top, m, q);
    }
  }

  // -- writing --

  /** Passing over ids up to `q` moves the newest user of a slot only onto an id passed over. */
  lemma {:induction false} LatestStays(u: int, top: int, q: int, len: nat)
    requires 0 < len && u <= top <= q
    requires forall j | top < j <= q :: Slot(j, len) != Slot(u, len)
    ensures Latest(u, q, len) == Latest(u, top, len)
  {
    var v, w := Latest(u, top, len), Latest(u, q, len);
    LatestSlot(u, top, len);
    LatestSlot(u, q, len);
    if w < v {
      ModDistinct(w, v, len);
    } else if v < w {
      ModDistinct(v, w, len);
    }
  }

  lemma {:induction false} LatestSlot(u: int, top: int, len: nat)
    requires 0 < len
    ensures Slot(Latest(u, top, len), len) == Slot(u, len)
  {
    var k := (top - u) / len;
    assert top - u == k * len + (top - u) % len;
    ModMultiple(u, k, len);
  }

  lemma {:induction false} LatestOf(u: int, top: int, len: nat)
    requires 0 < len && top - len < u <= top
    ensures Latest(u, top, len) == u
  {
    ModUnique(top - u, 0, top - u, len);
  }

  /** Whether the range between the old and the new top is really removed: it is unless it crosses
      the wrap point. */
  ghost predicate Clears(top: int, q: int) {
    (top + 1) / 65536 == q / 65536
  }

  lemma {:induction false} SameTurn(x: int, y: int, z: int)
    requires x <= y <= z && x / 65536 == z / 65536
    ensures Wrap(x) <= Wrap(y) <= Wrap(z)
    ensures Wrap(x) == Wrap(z) ==> x == z
  {
  }

  lemma {:induction false} InRange(top: int, q: int, j: int)
    requires top < q < top + 65536
    requires Wrap(top + 1) <= j <= Wrap(q)
    ensures top < q - (Wrap(q) - j) <= q
    ensures Wrap(q - (Wrap(q) - j)) == j
  {
  }

  /** A guarded id is not refused by `insert`, and `insert` moves `sequence` exactly when the
      unwrapped id is newer. */
  lemma {:induction false} GuardOpens<T>(r: Ring<T>, top: int, q: int)
    requires r.Valid() && r.sequence == Wrap(top) && InReach(q, top, r.Capacity())
    requires r.CheckSequence(Wrap(q))
    ensures !SequenceLessThan(Wrap(q), WrapSub(r.sequence, r.Capacity()))
    ensures SequenceGreaterThan(Wrap(q), r.sequence) <==> top < q
  {
    ComparesUnwrapped(q, top);
  }

  /** After moving up to `q`, no slot that was passed over is still in use, unless the removal was
      skipped at the wrap point. */
  lemma {:induction false} AdvanceClears<T>(r: Ring<T>, top: int, q: int, default: T, j: int)
    requires r.Valid() && r.sequence == Wrap(top)
    requires 0 <= top < q <= top + 32768 && Clears(top, q)
    requires Aligned(r.Capacity(), q)
    requires top < j < q
    ensures r.Advance(Wrap(q), default).tags[j % r.Capacity()] == EMPTY
  {
    WrapArithmetic(top, 1);
    SameTurn(top + 1, j, q);
    SameTurn(top + 1, q, q);
    r.RangeSlots(Wrap(top + 1), Wrap(q), default);
    SlotOf(r, j);
    assert r.RemoveRange(Wrap(top + 1), Wrap(q), default).tags[r.Index(Wrap(j))] == EMPTY;
  }

  /** Moving up to `q` clears no slot but those of the ids passed over, and none at all when the
      removal is skipped. */
  lemma {:induction false} AdvanceSpares<T>(r: Ring<T>, top: int, q: int, default: T, u: int)
    requires r.Valid() && r.sequence == Wrap(top)
    requires 0 <= top < q <= top + 32768
    requires Aligned(r.Capacity(), q)
    requires Clears(top, q) ==> forall k | top < k <= q :: Slot(k, r.Capacity()) != Slot(u, r.Capacity())
    ensures var i := u % r.Capacity();
            r.Advance(Wrap(q), default).tags[i] == r.tags[i]
  {
    WrapArithmetic(top, 1);
    if Clears(top, q) {
      r.RangeSlots(Wrap(top + 1), Wrap(q), default);
      forall j: int | Wrap(top + 1) <= j <= Wrap(q)
        ensures r.Index(j) != u % r.Capacity()
      {
        var k := q - (Wrap(q) - j);
        InRange(top, q, j);
        SlotOf(r, k);
        assert Slot(k, r.Capacity()) != Slot(u, r.Capacity());
      }
    }
  }

  /** Moving up to `q` clears no slot whose user stays in the window. */
  lemma {:induction false} AdvanceKeeps<T>(r: Ring<T>, top: int, q: int, default: T, u: int)
    requires r.Valid() && r.sequence == Wrap(top)
    requires 0 <= top < q <= top + 32768
    requires Aligned(r.Capacity(), q)
    requires 0 <= u <= top && q - r.Capacity() < u
    ensures var i := u % r.Capacity();
            r.Advance(Wrap(q), default).tags[i] == r.tags[i]
  {
    forall k | top < k <= q
      ensures Slot(k, r.Capacity()) != Slot(u, r.Capacity())
    {
      ModDistinct(u, k, r.Capacity());
    }
    AdvanceSpares(r, top, q, default, u);
  }

  /** The two ways for a tag to be still in use once the top has moved from `top` to `q`. */
  lemma {:induction false} StaysUsable(u: int, top: int, q: int, len: nat)
    requires 0 < len < 32768 && 0 <= u <= top < q <= top + 32768 - len
    requires top - len < u || Leftover(u, top, len)
    requires Clears(top, q) ==> Latest(u, q, len) == Latest(u, top, len)
    ensures q - len < u || Leftover(u, q, len)
    ensures q - 65536 < u
  {
    hide Latest;
    LatestNear(u, top, len);
    LatestNear(u, q, len);
    if top - len < u {
      LatestOf(u, top, len);
    }
  }

  /** A slot that keeps its entry while the top moves from `top` to `q` stays genuine. */
  lemma {:induction false} GenuineAdvances<T>(r: Ring<T>, r': Ring<T>, i: nat, top: int, q: int, m: map<int, T>,
                                              m': map<int, T>)
    requires Sound(r, top, m) && r'.Valid() && r'.Capacity() == r.Capacity()
    requires top < q <= top + 32768 - r.Capacity()
    requires i < |r.tags| && r'.tags[i] == r.tags[i] != EMPTY && r'.entries[i] == r.entries[i]
    requires Clears(top, q) ==> forall j | top < j <= q :: Slot(j, r.Capacity()) != i
    requires forall u | u in m :: u in m' && m'[u] == m[u]
    ensures Genuine(r', i, q, m')
  {
    var len := r.Capacity();
    var u := Owner(r.tags[i], top);
    assert Genuine(r, i, top, m);
    OwnerWraps(r.tags[i], top);
    if Clears(top, q) {
      LatestStays(u, top, q, len);
    }
    StaysUsable(u, top, q, len);
    OwnerOf(u, q);
  }

  /** One guarded insert keeps the ring in step with the history. */
  lemma {:induction false} InsertTracks<T>(r: Ring<T>, top: int, m: map<int, T>, q: int, data: T, default: T)
    requires Sound(r, top, m)
    requires 0 <= q && InReach(q, top, r.Capacity()) && r.CheckSequence(Wrap(q))
    requires Aligned(r.Capacity(), q)
    ensures r.Insert(Wrap(q), data, default).Ok?
    ensures var r' := r.Insert(Wrap(q), data, default).value;
            var top' := if top < q then q else top;
            && r'.Capacity() == r.Capacity()
            && Sound(r', top', m[q := data])
            && (Complete(r, top, m) ==> Complete(r', top', m[q := data]))
  {
    var r' := r.Insert(Wrap(q), data, default).value;
    var top' := if top < q then q else top;
    var m' := m[q := data];
    var len := r.Capacity();
    GuardOpens(r, top, q);
    r.InsertSlots(Wrap(q), data, default);
    SlotOf(r, q);
    forall i | 0 <= i < |r'.tags| && r'.tags[i] != EMPTY
      ensures Genuine(r', i, top', m')
    {
      if i == q % len {
        OwnerOf(q, top');
      } else {
        assert Genuine(r, i, top, m);
        if top < q {
          forall j | top < j <= q && Clears(top, q)
            ensures Slot(j, len) != i
          {
            if j < q && j % len == i {
              AdvanceClears(r, top, q, default, j);
            }
          }
          GenuineAdvances(r, r', i, top, q, m, m');
        }
      }
    }
    if Complete(r, top, m) {
      forall u | u in m' && top' - len < u
        ensures Held(r', u)
      {
        if u != q {
          assert Held(r, u);
          if top < q {
            AdvanceKeeps(r, top, q, default, u);
          }
          if u < q {
            ModDistinct(u, q, len);
          } else {
            ModDistinct(q, u, len);
          }
        }
      }
    }
  }

  /** Overwriting the entry found under an id overwrites that id's entry in the history. */
  lemma {:induction false} UpdateTracks<T>(r: Ring<T>, top: int, m: map<int, T>, q: int, data: T)
    requires Tracks(r, top, m)
    requires top - 65536 < q <= top && r.Exists(Wrap(q))
    ensures Tracks(r.Update(Wrap(q), data), top, m[q := data])
    ensures r.Update(Wrap(q), data).Capacity() == r.Capacity()
  {
    var r' := r.Update(Wrap(q), data);
    GetSound(r, top, m, q);
    SlotOf(r, q);
    forall i | 0 <= i < |r'.tags| && r'.tags[i] != EMPTY
      ensures Genuine(r', i, top, m[q := data])
    {
      assert Genuine(r, i, top, m);
      OwnerOf(q, top);
    }
    forall u | u in m && top - |r.tags| < u
      ensures Held(r', u)
    {
      assert Held(r, u);
    }
  }

  // -- whole runs --

  /** What every caller of the buffer does: ask `check_sequence`, then insert. */
  function GuardedInsert<T>(r: Ring<T>, s: u16, data: T, default: T): (r': Ring<T>)
    requires r.Valid()
    ensures r'.Valid()
  {
    if !r.CheckSequence(s) then r
    else match r.Insert(s, data, default)
      case Ok(r') => r.InsertSlots(s, data, default); r'
      case Err(_) => r
  }

  function Feed<T>(r: Ring<T>, ops: seq<(u16, T)>, default: T): Ring<T>
    requires r.Valid()
    decreases |ops|
  {
    if ops == [] then r else Feed(GuardedInsert(r, ops[0].0, ops[0].1, default), ops[1..], default)
  }

  /** The ideal history, which forgets nothing. */
  datatype History<T> = History(top: int, m: map<int, T>)

  /** The one id in reach whose wire form is `s`. */
  ghost function Unwrap(s: u16, top: int, len: nat): int {
    top - len + (s - (top - len)) % 65536
  }

  ghost function Record<T>(h: History<T>, len: nat, s: u16, data: T): History<T> {
    var q := Unwrap(s, h.top, len);
    if SequenceGreaterThan(s, Wrap(h.top - len))
    then History(if h.top < q then q else h.top, h.m[q := data])
    else h
  }

  ghost function Replay<T>(h: History<T>, len: nat, ops: seq<(u16, T)>): History<T>
    decreases |ops|
  {
    if ops == [] then h else Replay(Record(h, len, ops[0].0, ops[0].1), len, ops[1..])
  }

  lemma {:induction false} UnwrapExact(s: u16, top: int, len: nat)
    requires SequenceGreaterThan(s, Wrap(top - len))
    ensures Wrap(Unwrap(s, top, len)) == s
    ensures InReach(Unwrap(s, top, len), top, len)
  {
    var edge := top - len;
    WrapMoves(edge);
    WrapTurns(s - Wrap(edge), -(edge / 65536));
    WrapMoves(s - edge);
    WrapTurns(s, -((s - edge) / 65536));
  }

  lemma {:induction false} FeedTracks<T>(r: Ring<T>, h: History<T>, ops: seq<(u16, T)>, default: T)
    requires Tracks(r, h.top, h.m)
    requires 65536 % r.Capacity() == 0 && r.Capacity() <= h.top
    ensures var r', h' := Feed(r, ops, default), Replay(h, r.Capacity(), ops);
            Tracks(r', h'.top, h'.m) && r'.Capacity() == r.Capacity()
    decreases |ops|
  {
    hide Wrap, WrapSub, SequenceGreaterThan, Unwrap, Genuine;
    if ops != [] {
      var s, data := ops[0].0, ops[0].1;
      WrapArithmetic(h.top, r.Capacity());
      if r.CheckSequence(s) {
        UnwrapExact(s, h.top, r.Capacity());
        InsertTracks(r, h.top, h.m, Unwrap(s, h.top, r.Capacity()), data, default);
      }
      FeedTracks(GuardedInsert(r, s, data, default), Record(h, r.Capacity(), s, data), ops[1..], default);
    }
  }

  /** After any run of guarded inserts of arbitrary wire ids, with any number of wraps, `exists`
      and `get` give the ideal history's answer for every id in reach.  (The history starts one
      full turn up, so that no id in reach is negative.) */
  lemma {:induction false} RunRefinesHistory<T>(size: nat, ops: seq<(u16, T)>, default: T, q: int)
    requires 0 < size < 32768 && 65536 % size == 0
    ensures var r, h := Feed(NewRing(size, default), ops, default), Replay(History(65536, map[]), size, ops);
            && r.Valid() && r.sequence == Wrap(h.top)
            && (InReach(q, h.top, size) ==>
                  && (r.Exists(Wrap(q)) <==> q in h.m)
                  && r.Get(Wrap(q)) == if q in h.m then Some(h.m[q]) else None)
  {
    var r, h := Feed(NewRing(size, default), ops, default), Replay(History(65536, map[]), size, ops);
    assert NewRing(size, default).Capacity() == size;
    FeedTracks(NewRing(size, default), History(65536, map[]), ops, default);
    if InReach(q, h.top, size) {
      GetExact(r, h.top, h.m, q);
    }
  }

  /** `q` jumps too far ahead of `top` for a buffer of this capacity: it is more than half the sequence
      space beyond the lower edge of the window, and so looks older than that edge; exactly half the
      space beyond it the raw values decide. */
  predicate TooFar(top: int, q: int, len: nat) {
    || 32768 - len < q - top < 65536 - len
    || (q - top == 32768 - len && Wrap(q) < Wrap(top - len))
  }

  /** A newer id, less than a full turn ahead, is refused exactly when it jumps too far.  This is what
      happens to the record of a packet's messages after too many keep-alives, and to the fragment
      map's entry for a large message after too many small ones. */
  lemma {:induction false} JumpRefusedIff<T>(r: Ring<T>, top: int, q: int, data: T, default: T)
    requires r.Valid() && r.sequence == Wrap(top)
    requires 0 <= q - top < 65536
    ensures r.Insert(Wrap(q), data, default) == Err(SequenceTooOld) <==> TooFar(top, q, r.Capacity())
  {
    var edge := top - r.Capacity();
    WrapArithmetic(top, r.Capacity());
    if q - top < 32768 - r.Capacity() {
      ComparesUnwrapped(q, edge);
      ComparesUnwrapped(edge, q);
    } else if q - top == 32768 - r.Capacity() {
      ComparesHalfway(q, edge);
    } else {
      WrapTurns(edge, 1);
      ComparesUnwrapped(edge + 65536, q);
    }
  }

  // -- what goes wrong without the two conditions --

  /** An unguarded insert also takes the id one below the window, and then forgets the newest. */
  lemma {:induction false} UnguardedInsertForgets<T>(r: Ring<T>, top: int, m: map<int, T>, data: T, default: T)
    requires Tracks(r, top, m) && top in m
    requires 65536 % r.Capacity() == 0
    ensures !r.CheckSequence(Wrap(top - r.Capacity()))
    ensures r.Exists(Wrap(top))
    ensures var result := r.Insert(Wrap(top - r.Capacity()), data, default);
            result.Ok? && !result.value.Exists(Wrap(top))
  {
    var len := r.Capacity();
    var low := Wrap(top - len);
    GetExact(r, top, m, top);
    WrapArithmetic(top, len);
    ComparesUnwrapped(top - len, top - len);
    ComparesUnwrapped(top - len, top);
    WrapKeepsSlot(top, len);
    WrapKeepsSlot(top - len, len);
    ModMultiple(top, -1, len);
    if low == Wrap(top) {
      WrapInjective(top - len, top);
    }
  }

  /** Guarded inserts never lose an id that is still in the window. */
  ghost predicate KeepsWindow(len: nat)
    requires 0 < len < 32767
  {
    forall r: Ring<bool>, top: int, m: map<int, bool>, q: int ::
      Tracks(r, top, m) && r.Capacity() == len && 0 <= q && InReach(q, top, len) && r.CheckSequence(Wrap(q)) ==>
        && r.Insert(Wrap(q), true, false).Ok?
        && forall u | u in m && (if top < q then q else top) - len < u ::
             ExistsIn(r.Insert(Wrap(q), true, false).value, u)
  }

  ghost predicate ExistsIn(r: Ring<bool>, u: int) {
    0 < |r.entries| == |r.tags| && r.Exists(Wrap(u))
  }

  /** That holds exactly for the capacities that divide the sequence space.  The capacity 10000 of
      the channels' log of seen messages is not one of them. */
  lemma {:induction false} KeepsWindowIff(len: nat)
    requires 0 < len < 32767
    ensures KeepsWindow(len) <==> 65536 % len == 0
  {
    if 65536 % len == 0 {
      forall r: Ring<bool>, top: int, m: map<int, bool>, q: int |
        Tracks(r, top, m) && r.Capacity() == len && 0 <= q && InReach(q, top, len) && r.CheckSequence(Wrap(q))
        ensures r.Insert(Wrap(q), true, false).Ok?
        ensures forall u | u in m && (if top < q then q else top) - len < u ::
                  ExistsIn(r.Insert(Wrap(q), true, false).value, u)
      {
        InsertKeepsWindow(r, top, m, q);
      }
    } else {
      var r, m, u := WrapWitness(len);
      InsertLoses(r, m, u);
    }
  }

  lemma {:induction false} InsertKeepsWindow(r: Ring<bool>, top: int, m: map<int, bool>, q: int)
    requires Tracks(r, top, m) && 65536 % r.Capacity() == 0
    requires 0 <= q && InReach(q, top, r.Capacity()) && r.CheckSequence(Wrap(q))
    ensures r.Insert(Wrap(q), true, false).Ok?
    ensures forall u | u in m && (if top < q then q else top) - r.Capacity() < u ::
              ExistsIn(r.Insert(Wrap(q), true, false).value, u)
  {
    hide Wrap;
    InsertTracks(r, top, m, q, true, false);
    var r' := r.Insert(Wrap(q), true, false).value;
    var top' := if top < q then q else top;
    forall u | u in m && top' - r.Capacity() < u
      ensures ExistsIn(r', u)
    {
      GetExact(r', top', m[q := true], u);
    }
  }

  /** Id 65536 takes the slot of `u`, which is still in the window. */
  lemma {:induction false} InsertLoses(r: Ring<bool>, m: map<int, bool>, u: int)
    requires Tracks(r, 65535, m) && 0 < r.Capacity() < 32767 && r.sequence == 65535
    requires u in m && 65536 - r.Capacity() < u < 65536 && u % r.Capacity() == 0 && u != 0
    ensures !KeepsWindow(r.Capacity())
  {
    GuardExact(r, 65535, 65536);
    assert Wrap(65536) == 0;
    var r' := r.Insert(0, true, false).value;
    if KeepsWindow(r.Capacity()) {
      assert ExistsIn(r', u);
      r.InsertSlots(0, true, false);
    }
  }

  /** Just before the wrap point, holding the greatest multiple of the capacity and the newest id. */
  lemma {:induction false} WrapWitness(len: nat) returns (r: Ring<bool>, m: map<int, bool>, u: int)
    requires 0 < len < 32767 && 65536 % len != 0
    ensures Tracks(r, 65535, m) && r.Capacity() == len && r.sequence == 65535
    ensures u in m && 65536 - len < u < 65536 && u % len == 0 && u != 0
  {
    var k := 65536 / len;
    u := 65536 - 65536 % len;
    assert u == k * len;
    ModUnique(u, k, 0, len);
    var i := 65535 % len;
    if u < 65535 {
      ModDistinct(u, 65535, len);
    }
    m := map[u := true, 65535 := true];
    var tags := seq(len, j => if j == 0 then u else if j == i then 65535 else EMPTY);
    r := Ring(seq(len, _ => true), tags, 65535);
    WitnessValid(r, u, i);
    assert forall j | 0 <= j < len :: r.tags[j] in {u, 65535, EMPTY};
    WitnessTracks(r, m, u);
  }

  lemma {:induction false} WitnessTracks(r: Ring<bool>, m: map<int, bool>, u: int)
    requires r.Valid() && r.sequence == 65535
    requires 65535 - |r.tags| < u <= 65535
    requires m == map[u := true, 65535 := true]
    requires forall j | 0 <= j < |r.tags| :: r.entries[j] && r.tags[j] in {u, 65535, EMPTY}
    requires Held(r, u) && Held(r, 65535)
    ensures Tracks(r, 65535, m)
  {
    forall j | 0 <= j < |r.tags| && r.tags[j] != EMPTY
      ensures Genuine(r, j, 65535, m)
    {
      InWindowGenuine(r, j, 65535, m);
    }
  }

  lemma {:induction false} InWindowGenuine<T>(r: Ring<T>, i: nat, top: nat, m: map<int, T>)
    requires r.Valid() && top < 65536
    requires i < |r.tags| && top - |r.tags| < r.tags[i] <= top
    requires r.tags[i] in m && r.entries[i] == m[r.tags[i]]
    ensures Genuine(r, i, top, m)
  {
    hide Wrap, Owner, Leftover;
    WrapSmall(r.tags[i]);
    OwnerOf(r.tags[i], top);
  }

  lemma {:induction false} WitnessValid(r: Ring<bool>, u: int, i: nat)
    requires 0 < |r.entries| == |r.tags| < 32767
    requires 0 <= u < 65536 && u % |r.tags| == 0 && i == 65535 % |r.tags|
    requires i == 0 ==> u == 65535
    requires forall j | 0 <= j < |r.tags| ::
               r.tags[j] == if j == 0 then u else if j == i then 65535 else EMPTY
    ensures r.Valid() && Held(r, u) && Held(r, 65535)
  {
  }
}
