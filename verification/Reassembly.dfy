/** Reassembling is the inverse of fragmenting, for fragments in any order, among fragments of
    other messages, and with repeats. */
module Reassembly {
  import opened Words
  import opened Messages
  import opened Reassembler

  /** All the fragments of the message whose parent id is `p`, by index. */
  ghost predicate FragmentsOf(fs: seq<Message>, p: u16) {
    && 2 <= |fs| <= MAX_FRAGMENTS
    && forall i | 0 <= i < |fs| :: fs[i].fragment == Some(Fragment(i, |fs|, p))
  }

  ghost function AllIndices(n: nat): (all: set<int>)
    ensures forall i :: i in all <==> 0 <= i < n
    ensures |all| == n
  {
    if n == 0 then {} else AllIndices(n - 1) + {n - 1}
  }

  /** The state of an incomplete message that has the fragments `have`. */
  ghost function Partial(fs: seq<Message>, have: set<int>): Incomplete
    requires |fs| < 65536
  {
    Incomplete(|fs|, |have|, seq(|fs|, i requires 0 <= i < |fs| => if i in have then Some(fs[i]) else None))
  }

  /** The reassembler has exactly the fragments `have` of message `p`. */
  ghost predicate Holds(ip: InProgress, p: u16, fs: seq<Message>, have: set<int>)
    requires |fs| < 65536
  {
    && have < AllIndices(|fs|)
    && if have == {} then p !in ip else p in ip && ip[p] == Partial(fs, have)
  }

  lemma {:induction false} SubsetSize<T>(a: set<T>, b: set<T>)
    requires a <= b
    ensures |a| <= |b|
    ensures |a| == |b| ==> a == b
  {
    if a != {} {
      var x :| x in a;
      SubsetSize(a - {x}, b - {x});
    }
  }

  lemma {:induction false} PresentAll(fragments: seq<Option<Message>>, fs: seq<Message>)
    requires |fragments| == |fs| && forall i | 0 <= i < |fs| :: fragments[i] == Some(fs[i])
    ensures Present(fragments) == fs
  {
    if fs != [] {
      PresentAll(fragments[1..], fs[1..]);
    }
  }

  /** One more fragment of message `p`: a repeat changes nothing, a new one is added, and the last
      one missing yields the whole message and forgets it. */
  lemma {:induction false} PlaceOwn(ip: InProgress, p: u16, fs: seq<Message>, have: set<int>, j: nat)
    requires FragmentsOf(fs, p) && Holds(ip, p, fs, have) && j < |fs|
    ensures Placeable(ip, fs[j])
    ensures var (ip', out) := PlaceFragment(ip, fs[j]);
            && (forall q | q != p :: q in ip' <==> q in ip)
            && (forall q | q != p && q in ip :: ip'[q] == ip[q])
            && if have + {j} == AllIndices(|fs|) then out == Some(Fragmented(fs)) && Holds(ip', p, fs, {})
               else out == None && Holds(ip', p, fs, have + {j})
  {
    var x := if have == {} then NewIncomplete(|fs|) else ip[p];
    assert x == Partial(fs, have);
    SubsetSize(have, AllIndices(|fs|));
    if j in have {
      assert have + {j} == have;
    } else {
      var (x', last) := Store(x, j, fs[j]);
      assert x'.fragments == Partial(fs, have + {j}).fragments;
      SubsetSize(have + {j}, AllIndices(|fs|));
      if last {
        PresentAll(x'.fragments, fs);
      }
    }
  }

  /** Fragments of other messages leave message `p` alone. */
  lemma {:induction false} PlaceOther(ip: InProgress, p: u16, m: Message)
    requires m.fragment.Some? ==> m.fragment.value.parentId != p
    ensures var (ip', _) := PlaceFragment(ip, m);
            (p in ip' <==> p in ip) && (p in ip ==> ip'[p] == ip[p])
  {
  }

  // -- any order --

  function Assemble(ip: InProgress, ms: seq<Message>): (InProgress, seq<Option<ReceivedMessage>>)
    decreases |ms|
  {
    if ms == [] then (ip, [])
    else
      var (ip1, out) := PlaceFragment(ip, ms[0]);
      var (ip2, outs) := Assemble(ip1, ms[1..]);
      (ip2, [out] + outs)
  }

  predicate Owns(p: u16, m: Message) {
    m.fragment.Some? && m.fragment.value.parentId == p
  }

  /** Every fragment of `p` in the stream is one of `fs`. */
  ghost predicate Stream(ms: seq<Message>, p: u16, fs: seq<Message>) {
    forall m | m in ms && Owns(p, m) :: m.fragment.value.index < |fs| && m == fs[m.fragment.value.index]
  }

  ghost function Indices(ms: seq<Message>, p: u16): set<int> {
    set m | m in ms && Owns(p, m) :: m.fragment.value.index
  }

  lemma {:induction false} AssembleSnoc(ip: InProgress, ms: seq<Message>, m: Message)
    ensures Assemble(ip, ms + [m])
         == (PlaceFragment(Assemble(ip, ms).0, m).0, Assemble(ip, ms).1 + [PlaceFragment(Assemble(ip, ms).0, m).1])
    decreases |ms|
  {
    if ms == [] {
      var (ip', out) := PlaceFragment(ip, m);
      assert ms + [m] == [m] && [m][1..] == ms;
      assert Assemble(ip, ms) == (ip, []);
      assert Assemble(ip', ms) == (ip', []);
      assert Assemble(ip, [m]) == (ip', [out] + []);
      assert [out] + [] == [] + [out];
    } else {
      var (ip', out) := PlaceFragment(ip, ms[0]);
      var outs := Assemble(ip', ms[1..]).1;
      assert (ms + [m])[1..] == ms[1..] + [m];
      AssembleSnoc(ip', ms[1..], m);
      var last := PlaceFragment(Assemble(ip', ms[1..]).0, m).1;
      assert [out] + (outs + [last]) == ([out] + outs) + [last];
    }
  }

  lemma {:induction false} StreamSnoc(front: seq<Message>, m: Message, p: u16, fs: seq<Message>)
    requires Stream(front + [m], p, fs)
    ensures Stream(front, p, fs)
    ensures Owns(p, m) ==> m.fragment.value.index < |fs| && m == fs[m.fragment.value.index]
    ensures Indices(front + [m], p) == Indices(front, p) + if Owns(p, m) then {m.fragment.value.index as int} else {}
  {
    assert m in front + [m];
  }

  lemma {:induction false} IndicesInRange(ms: seq<Message>, p: u16, fs: seq<Message>)
    requires Stream(ms, p, fs)
    ensures Indices(ms, p) <= AllIndices(|fs|)
  {
  }

  lemma {:induction false} AssembleNothing(ip: InProgress, ms: seq<Message>, p: u16)
    requires ms == []
    ensures Assemble(ip, ms) == (ip, []) && Indices(ms, p) == {}
  {
  }

  lemma {:induction false} AssembleHolds(ip: InProgress, ms: seq<Message>, p: u16, fs: seq<Message>)
    requires FragmentsOf(fs, p) && p !in ip && Stream(ms, p, fs)
    requires Indices(ms, p) != AllIndices(|fs|)
    ensures var (ip', outs) := Assemble(ip, ms);
            && |outs| == |ms|
            && Holds(ip', p, fs, Indices(ms, p))
            && forall k | 0 <= k < |ms| && Owns(p, ms[k]) :: outs[k] == None
  {
    hide PlaceFragment, Partial, Stream, Assemble, Indices, FragmentsOf;
    if ms == [] {
      AssembleNothing(ip, ms, p);
    } else {
      var front, m := ms[..|ms| - 1], ms[|ms| - 1];
      assert ms == front + [m];
      StreamSnoc(front, m, p, fs);
      IndicesInRange(ms, p, fs);
      AssembleHolds(ip, front, p, fs);
      AssembleSnoc(ip, front, m);
      if Owns(p, m) {
        PlaceOwn(Assemble(ip, front).0, p, fs, Indices(front, p), m.fragment.value.index);
      } else {
        PlaceOther(Assemble(ip, front).0, p, m);
      }
    }
  }

  lemma {:induction false} LastCompletes(ip: InProgress, front: seq<Message>, m: Message, p: u16, fs: seq<Message>)
    requires FragmentsOf(fs, p) && p !in ip && Stream(front + [m], p, fs)
    requires Indices(front + [m], p) == AllIndices(|fs|)
    requires Indices(front, p) != AllIndices(|fs|)
    ensures var (ip', outs) := Assemble(ip, front + [m]);
            && |outs| == |front| + 1 && p !in ip'
            && (forall k | 0 <= k < |front| && Owns(p, front[k]) :: outs[k] == None)
            && outs[|front|] == Some(Fragmented(fs))
  {
    hide Assemble, PlaceFragment, Partial, Stream, Indices;
    StreamSnoc(front, m, p, fs);
    AssembleHolds(ip, front, p, fs);
    AssembleSnoc(ip, front, m);
    PlaceOwn(Assemble(ip, front).0, p, fs, Indices(front, p), m.fragment.value.index);
  }

  /** A stream that brings the last missing fragment of `p` with its last message yields message
      `p` exactly once, then, and with its original payload. */
  lemma {:induction false} ReassemblesInAnyOrder(ip: InProgress, ms: seq<Message>, p: u16, fs: seq<Message>,
                                                 payload: bytes)
    requires FRAGMENT_SIZE < |payload| <= MAX_FRAGMENTS * FRAGMENT_SIZE
    requires FragmentsOf(fs, p) && |fs| == NumFragments(|payload|)
    requires forall i | 0 <= i < |fs| :: fs[i].buffer == Slice(payload, i)
    requires p !in ip && Stream(ms, p, fs)
    requires ms != [] && Indices(ms, p) == AllIndices(|fs|)
    requires Indices(ms[..|ms| - 1], p) != AllIndices(|fs|)
    ensures var (ip', outs) := Assemble(ip, ms);
            && |outs| == |ms| && p !in ip'
            && (forall k | 0 <= k < |ms| - 1 && Owns(p, ms[k]) :: outs[k] == None)
            && outs[|ms| - 1] == Some(Fragmented(fs))
            && Fragmented(fs).Payload() == payload
  {
    var front, m := ms[..|ms| - 1], ms[|ms| - 1];
    assert ms == front + [m];
    LastCompletes(ip, front, m, p, fs);
    WholePayload(fs, payload);
  }

  lemma {:induction false} WholePayload(fs: seq<Message>, payload: bytes)
    requires FRAGMENT_SIZE < |payload| <= MAX_FRAGMENTS * FRAGMENT_SIZE
    requires |fs| == NumFragments(|payload|)
    requires forall i | 0 <= i < |fs| :: fs[i].buffer == Slice(payload, i)
    ensures Fragmented(fs).Payload() == payload
  {
    assert seq(|fs|, i requires 0 <= i < |fs| => fs[i].buffer) == Slices(payload);
    JoinSlices(payload);
  }
}
