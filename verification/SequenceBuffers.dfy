/** The fixed ring indexed by a wrapping 16-bit sequence number (src/sequence_buffer.rs).

    `Ring` is the ring as a value, with one function per operation; `SequenceBuffer` is the
    mutable buffer, whose methods are proved to perform those functions on its two arrays. */
module SequenceBuffers {
  import opened Words

  /** The tag of a slot that holds nothing. */
  const EMPTY := 0xFFFF_FFFF

  datatype Ring<T> = Ring(entries: seq<T>, tags: seq<int>, sequence: u16) {

    function Capacity(): nat {
      |entries|
    }

    /** Non-empty, small enough for 16-bit arithmetic on the capacity, and every tag sits in the
        slot it belongs to. */
    ghost predicate Valid() {
      && 0 < |entries| < 32768
      && |tags| == |entries|
      && forall i | 0 <= i < |tags| ::
           tags[i] == EMPTY || (0 <= tags[i] < 65536 && Index(tags[i]) == i)
    }

    function Index(s: int): nat
      requires 0 < |entries|
    {
      s % |entries|
    }

    predicate Exists(s: u16)
      requires 0 < |entries| == |tags|
    {
      tags[Index(s)] == s
    }

    function Get(s: u16): Option<T>
      requires 0 < |entries| == |tags|
    {
      if tags[Index(s)] != s then None else Some(entries[Index(s)])
    }

    /** Overwrites the entry found under `s`; nothing happens when there is none. */
    function Update(s: u16, data: T): (r: Ring<T>)
      requires 0 < |entries| == |tags|
      ensures |r.entries| == |r.tags| == |entries| && r.sequence == sequence
    {
      if tags[Index(s)] != s then this else this.(entries := entries[Index(s) := data])
    }

    /** Clears the slot of `s` whether or not the slot held `s`. */
    function Remove(s: int, default: T): (r: Ring<T>)
      requires 0 < |entries| == |tags|
      ensures |r.entries| == |r.tags| == |entries| && r.sequence == sequence
    {
      this.(entries := entries[Index(s) := default], tags := tags[Index(s) := EMPTY])
    }

    /** Removes `lo..=hi`; nothing at all when the range crosses the wrap point. */
    function RemoveRange(lo: nat, hi: nat, default: T): (r: Ring<T>)
      requires 0 < |entries| == |tags|
      ensures |r.entries| == |r.tags| == |entries| && r.sequence == sequence
      decreases hi + 1 - lo
    {
      if lo > hi then this else Remove(lo, default).RemoveRange(lo + 1, hi, default)
    }

    /** The ring after `sequence` has moved up to a newer `s`, before `s` is written. */
    function Advance(s: u16, default: T): (r: Ring<T>)
      requires 0 < |entries| == |tags|
      ensures |r.entries| == |r.tags| == |entries|
    {
      var first := WrapAdd(sequence, 1);
      var cleared := if first != s then RemoveRange(first, s, default) else this;
      cleared.(sequence := s)
    }

    function Write(s: u16, data: T): Ring<T>
      requires 0 < |entries| == |tags|
    {
      this.(entries := entries[Index(s) := data], tags := tags[Index(s) := s])
    }

    function Insert(s: u16, data: T, default: T): (r: Result<Ring<T>, Error>)
      requires 0 < |entries| == |tags|
      ensures r.Ok? ==> |r.value.entries| == |r.value.tags| == |entries|
      ensures r.Err? ==> r.error == SequenceTooOld
    {
      if SequenceLessThan(s, WrapSub(sequence, |entries|)) then
        Err(SequenceTooOld)
      else if SequenceGreaterThan(s, sequence) then
        Ok(Advance(s, default).Write(s, data))
      else
        Ok(Write(s, data))
    }

    predicate CheckSequence(s: u16) {
      SequenceGreaterThan(s, WrapSub(sequence, |entries|))
    }

    /** What a removed range does to each slot. */
    lemma {:induction false} RangeSlots(lo: nat, hi: nat, default: T)
      requires 0 < |entries| == |tags|
      ensures var r := RemoveRange(lo, hi, default);
              && |r.entries| == |r.tags| == |entries|
              && r.sequence == sequence
              && (forall j | lo <= j <= hi :: r.tags[Index(j)] == EMPTY)
              && (forall i | 0 <= i < |tags| ::
                    r.tags[i] == EMPTY || (r.tags[i] == tags[i] && r.entries[i] == entries[i]))
              && (forall i | 0 <= i < |tags| && (forall j | lo <= j <= hi :: Index(j) != i) ::
                    r.tags[i] == tags[i] && r.entries[i] == entries[i])
      decreases hi + 1 - lo
    {
      if lo <= hi {
        var r' := Remove(lo, default);
        r'.RangeSlots(lo + 1, hi, default);
        assert forall j :: Index(j) == r'.Index(j);
      }
    }

    /** The slots after a successful insert: the new entry in its own slot, and every other slot
        either as before or emptied. */
    lemma {:induction false} InsertSlots(s: u16, data: T, default: T)
      requires Valid()
      requires Insert(s, data, default).Ok?
      ensures var r := Insert(s, data, default).value;
              && r.Valid()
              && |r.entries| == |entries|
              && r.Get(s) == Some(data)
              && (forall i | 0 <= i < |tags| && i != Index(s) ::
                    r.tags[i] == EMPTY || (r.tags[i] == tags[i] && r.entries[i] == entries[i]))
    {
      RangeSlots(WrapAdd(sequence, 1), s, default);
    }
  }

  function NewRing<T>(size: nat, default: T): Ring<T> {
    Ring(seq(size, _ => default), seq(size, _ => EMPTY), 0)
  }

  /** The buffer itself: two arrays and the newest sequence number. */
  class SequenceBuffer<T(0)> {
    const default: T
    var entries: array<T>
    var tags: array<int>
    var sequence: u16

    ghost predicate Valid()
      reads this, entries, tags
    {
      entries as object != tags && entries.Length == tags.Length && Model().Valid()
    }

    ghost function Model(): Ring<T>
      reads this, entries, tags
    {
      Ring(entries[..], tags[..], sequence)
    }

    constructor WithCapacity(size: nat, default: T)
      requires 0 < size < 32768
      ensures Valid() && fresh(entries) && fresh(tags)
      ensures this.default == default
      ensures Model() == NewRing(size, default)
    {
      this.default := default;
      entries := new T[size](_ => default);
      tags := new int[size](_ => EMPTY);
      sequence := 0;
      new;
      assert entries[..] == NewRing(size, default).entries;
      assert tags[..] == NewRing(size, default).tags;
    }

    method Exists(s: u16) returns (found: bool)
      requires Valid()
      ensures found == Model().Exists(s)
    {
      var index := s % entries.Length;
      found := tags[index] == s;
    }

    method Get(s: u16) returns (entry: Option<T>)
      requires Valid()
      ensures entry == Model().Get(s)
    {
      var index := s % entries.Length;
      if tags[index] != s {
        return None;
      }
      return Some(entries[index]);
    }

    method Remove(s: u16) returns (removed: Option<T>)
      requires Valid()
      modifies entries, tags
      ensures Valid()
      ensures removed == old(Model().Get(s))
      ensures Model() == old(Model()).Remove(s, default)
    {
      var index := s % entries.Length;
      removed := if tags[index] != s then None else Some(entries[index]);
      entries[index] := default;
      tags[index] := EMPTY;
      assert Model().entries == old(Model()).Remove(s, default).entries;
      assert Model().tags == old(Model()).Remove(s, default).tags;
    }

    method RemoveRange(start: u16, end: u16)
      requires Valid()
      modifies entries, tags
      ensures Valid()
      ensures Model() == old(Model()).RemoveRange(start, end, default)
    {
      var i: nat := start;
      while i <= end
        invariant start <= i
        invariant start <= end ==> i <= end + 1
        invariant Valid()
        invariant Model().RemoveRange(i, end, default) == old(Model()).RemoveRange(start, end, default)
      {
        var _ := Remove(i);
        i := i + 1;
      }
    }

    method Insert(s: u16, data: T) returns (result: Result<(), Error>)
      requires Valid()
      modifies this`sequence, entries, tags
      ensures Valid()
      ensures var inserted := old(Model()).Insert(s, data, default);
              if inserted.Ok? then result == Ok(()) && Model() == inserted.value
              else result == Err(inserted.error) && Model() == old(Model())
    {
      if SequenceLessThan(s, WrapSub(sequence, entries.Length)) {
        return Err(SequenceTooOld);
      }
      if SequenceGreaterThan(s, sequence) {
        var firstCandidate := WrapAdd(sequence, 1);
        if firstCandidate != s {
          RemoveRange(firstCandidate, s);
        }
        sequence := s;
        assert Model() == old(Model()).Advance(s, default);
      }
      label Written:
      var index := s % entries.Length;
      entries[index] := data;
      tags[index] := s;
      assert Model().entries == old@Written(Model()).Write(s, data).entries;
      assert Model().tags == old@Written(Model()).Write(s, data).tags;
      return Ok(());
    }

    method CheckSequence(s: u16) returns (inRange: bool)
      requires Valid()
      ensures inRange == Model().CheckSequence(s)
    {
      inRange := SequenceGreaterThan(s, WrapSub(sequence, entries.Length));
    }
  }
}
