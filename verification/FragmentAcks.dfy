/** Acks of fragments, in any order and with repeats, among acks and entries of other messages: the
    parent is reported exactly when the last of its fragments is acked, and never again. */
module FragmentAcks {
  import opened Words
  import opened SequenceBuffers
  import opened Dispatchers
  import opened Acknowledging

  datatype FragEvent =
    | Acked(parent: u16, id: u16)
    | Entered(parent: u16, ids: seq<u16>)

  /** What happens to the map, and whether a parent is reported acked. */
  function Apply(r: Ring<FragAckStatus>, e: FragEvent): (Ring<FragAckStatus>, bool)
    requires 0 < |r.entries| == |r.tags|
  {
    match e
    case Acked(parent, id) => AckFragment(r, parent, id)
    case Entered(parent, ids) =>
      (match r.Insert(parent, Awaiting(ids), Unknown) case Ok(r') => r' case Err(_) => r, false)
  }

  function Play(r: Ring<FragAckStatus>, es: seq<FragEvent>): (r': Ring<FragAckStatus>)
    requires 0 < |r.entries| == |r.tags|
    ensures |r'.entries| == |r'.tags| == |r.entries|
  {
    if es == [] then r else Apply(Play(r, es[..|es| - 1]), es[|es| - 1]).0
  }

  /** Event `k` reports its parent acked. */
  predicate Fires(r: Ring<FragAckStatus>, es: seq<FragEvent>, k: nat)
    requires 0 < |r.entries| == |r.tags| && k < |es|
  {
    Apply(Play(r, es[..k]), es[k]).1
  }

  /** The entry of `p` is still there, and still one that can be written again. */
  ghost predicate Kept(r: Ring<FragAckStatus>, p: u16) {
    r.Valid() && r.Exists(p) && Rewritable(r, p)
  }

  /** ... all along, and `p` itself is entered only once. */
  ghost predicate KeptThroughout(r: Ring<FragAckStatus>, p: u16, es: seq<FragEvent>)
    requires 0 < |r.entries| == |r.tags|
  {
    && (forall k | 0 <= k <= |es| :: Kept(Play(r, es[..k]), p))
    && (forall k | 0 <= k < |es| && es[k].Entered? :: es[k].parent != p)
  }

  /** The ids acked for `p`. */
  function Struck(es: seq<FragEvent>, p: u16): set<u16> {
    if es == [] then {}
    else
      var last := es[|es| - 1];
      Struck(es[..|es| - 1], p) + if last.Acked? && last.parent == p then {last.id} else {}
  }

  ghost predicate Covers(struck: set<u16>, ids: seq<u16>) {
    forall id | id in ids :: id in struck
  }

  /** The entry waits for exactly the ids that were not acked yet. */
  ghost predicate Waits(r: Ring<FragAckStatus>, p: u16, ids: seq<u16>, struck: set<u16>)
    requires 0 < |r.entries| == |r.tags|
  {
    match r.Get(p)
    case Some(Complete) => Covers(struck, ids)
    case Some(Awaiting(left)) => !Covers(struck, ids) && forall id :: id in left <==> id in ids && id !in struck
    case _ => false
  }

  lemma {:induction false} WithoutAll(ids: seq<u16>, id: u16)
    ensures forall x: u16 :: x in Without(ids, id) <==> x in ids && x != id
  {
    forall x: u16
      ensures x in Without(ids, id) <==> x in ids && x != id
    {
      WithoutExact(ids, id, x);
    }
  }

  lemma {:induction false} EmptyIff(ids: seq<u16>)
    ensures ids == [] <==> forall x: u16 :: x !in ids
  {
    if ids != [] {
      assert ids[0] in ids;
    }
  }

  /** An ack for `p`: it fires exactly when it completes the set. */
  lemma {:induction false} OwnAck(r: Ring<FragAckStatus>, p: u16, id: u16, ids: seq<u16>, struck: set<u16>)
    requires Kept(r, p) && Waits(r, p, ids, struck)
    ensures var (r', fires) := AckFragment(r, p, id);
            && Waits(r', p, ids, struck + {id})
            && (fires <==> Covers(struck + {id}, ids) && !Covers(struck, ids))
  {
    hide Without, SequenceGreaterThan, WrapSub;
    var i := r.Index(p);
    if r.entries[i].Awaiting? {
      var left := Without(r.entries[i].remaining, id);
      WithoutAll(r.entries[i].remaining, id);
      EmptyIff(left);
      var noted := r.Update(p, Awaiting(left));
      RewritableWrites(noted, p, FragAckStatus.Complete, Unknown);
      assert left == [] <==> Covers(struck + {id}, ids);
    }
  }

  /** Acks and entries of other messages leave the entry alone. */
  lemma {:induction false} OtherEvent(r: Ring<FragAckStatus>, p: u16, e: FragEvent)
    requires Kept(r, p) && e.parent != p && Kept(Apply(r, e).0, p)
    ensures Apply(r, e).0.Get(p) == r.Get(p)
  {
    hide SequenceGreaterThan, WrapSub, Rewritable;
    match e {
      case Acked(parent, id) =>
        OtherAck(r, p, parent, id);
      case Entered(parent, ids) =>
        if r.Insert(parent, Awaiting(ids), Unknown).Ok? {
          r.InsertSlots(parent, Awaiting(ids), Unknown);
        }
    }
  }

  lemma {:induction false} OtherAck(r: Ring<FragAckStatus>, p: u16, parent: u16, id: u16)
    requires r.Valid() && r.Exists(p) && parent != p
    requires AckFragment(r, parent, id).0.Exists(p)
    ensures AckFragment(r, parent, id).0.Get(p) == r.Get(p)
  {
    hide Without, SequenceGreaterThan, WrapSub;
    if r.Get(parent).Some? && r.Get(parent).value.Awaiting? {
      var left := Without(r.Get(parent).value.remaining, id);
      var noted := r.Update(parent, Awaiting(left));
      assert noted.Get(p) == r.Get(p);
      if left == [] && noted.Insert(parent, FragAckStatus.Complete, Unknown).Ok? {
        assert noted.Valid();
        noted.InsertSlots(parent, FragAckStatus.Complete, Unknown);
      }
    }
  }

  lemma {:induction false} WaitsAll(r: Ring<FragAckStatus>, p: u16, ids: seq<u16>, es: seq<FragEvent>, k: nat)
    requires 0 < |r.entries| == |r.tags| && ids != [] && r.Get(p) == Some(Awaiting(ids))
    requires KeptThroughout(r, p, es) && k <= |es|
    ensures Waits(Play(r, es[..k]), p, ids, Struck(es[..k], p))
    decreases k
  {
    hide Kept, Apply, Covers;
    if k > 0 {
      WaitsAll(r, p, ids, es, k - 1);
      assert es[..k][..k - 1] == es[..k - 1] && es[..k][k - 1] == es[k - 1];
      WaitsStep(Play(r, es[..k - 1]), p, ids, Struck(es[..k - 1], p), es[k - 1]);
    } else {
      WaitsFirst(r, p, ids);
    }
  }

  lemma {:induction false} WaitsFirst(r: Ring<FragAckStatus>, p: u16, ids: seq<u16>)
    requires 0 < |r.entries| == |r.tags| && ids != [] && r.Get(p) == Some(Awaiting(ids))
    ensures Waits(r, p, ids, {})
  {
    assert ids[0] in ids;
  }

  lemma {:induction false} WaitsStep(r: Ring<FragAckStatus>, p: u16, ids: seq<u16>, struck: set<u16>, e: FragEvent)
    requires Kept(r, p) && Kept(Apply(r, e).0, p) && Waits(r, p, ids, struck) && (e.Entered? ==> e.parent != p)
    ensures var struck' := struck + if e.Acked? && e.parent == p then {e.id} else {};
            && Waits(Apply(r, e).0, p, ids, struck')
            && (e.parent == p ==> (Apply(r, e).1 <==> Covers(struck', ids) && !Covers(struck, ids)))
  {
    hide AckFragment, Covers, Rewritable;
    if e.parent == p {
      OwnAck(r, p, e.id, ids, struck);
    } else {
      assert struck + {} == struck;
      OtherEvent(r, p, e);
    }
  }

  /** Exactly when: an event of `p` reports it acked if and only if it is the one that completes the
      set of its fragments' acks. */
  lemma {:induction false} ParentAckedExactly(r: Ring<FragAckStatus>, p: u16, ids: seq<u16>, es: seq<FragEvent>, k: nat)
    requires 0 < |r.entries| == |r.tags| && ids != [] && r.Get(p) == Some(Awaiting(ids))
    requires KeptThroughout(r, p, es) && k < |es| && es[k].parent == p
    ensures Fires(r, es, k) <==> Covers(Struck(es[..k + 1], p), ids) && !Covers(Struck(es[..k], p), ids)
  {
    hide Kept, Apply, Covers, Waits;
    WaitsAll(r, p, ids, es, k);
    assert es[..k + 1][..k] == es[..k] && es[..k + 1][k] == es[k];
    WaitsStep(Play(r, es[..k]), p, ids, Struck(es[..k], p), es[k]);
  }

  lemma {:induction false} StruckGrows(es: seq<FragEvent>, p: u16, j: nat, k: nat)
    requires j <= k <= |es|
    ensures Struck(es[..j], p) <= Struck(es[..k], p)
    decreases k
  {
    if j < k {
      StruckGrows(es, p, j, k - 1);
      assert es[..k][..k - 1] == es[..k - 1];
    }
  }

  /** And only once. */
  lemma {:induction false} ParentAckedOnce(r: Ring<FragAckStatus>, p: u16, ids: seq<u16>, es: seq<FragEvent>, j: nat,
                                           k: nat)
    requires 0 < |r.entries| == |r.tags| && ids != [] && r.Get(p) == Some(Awaiting(ids))
    requires KeptThroughout(r, p, es) && j < k < |es| && es[j].parent == p && es[k].parent == p
    ensures !(Fires(r, es, j) && Fires(r, es, k))
  {
    hide Kept, Fires;
    ParentAckedExactly(r, p, ids, es, j);
    ParentAckedExactly(r, p, ids, es, k);
    StruckGrows(es, p, j + 1, k);
  }
}
