/** Streams without B frames: the sets the builder writes for them, used by the index the
    firmware takes (pictures since the IDR while that is at most 3, else 0), name pictures that
    are in the decoder's buffer. */
module IpppRefs {
  import opened HevcRps
  import opened LittleEndian

  /** The firmware's choice for the d-th picture after an IDR. */
  function SetIndex(d: nat): nat {
    if d <= 3 then d else 0
  }

  /** The POCs a set without following pictures names at POC d. */
  function Names(d: nat, s: Rps): set<int> {
    set x | x in s.neg :: d + x
  }

  /** The POCs marked as references once pictures 0 to d are decoded, picture k with set sets[k]. */
  function Marked(d: nat, sets: seq<Rps>): set<int>
    requires d < |sets|
  {
    if d == 0 then {0} else Marked(d - 1, sets) * Names(d, sets[d]) + {d as int}
  }

  /** What the d-th picture can reach: the refs pictures before it, or the one there is. */
  function Reach(d: nat, refs: nat): set<int> {
    if d == 1 || refs != 2 then {d - 1} else {d - 1, d - 2}
  }

  lemma {:induction false} OneName(d: nat, x: int)
    ensures Names(d, Rps([x], [])) == {d + x}
  {
    assert x in [x];
  }

  lemma {:induction false} TwoNames(d: nat, x: int, y: int)
    ensures Names(d, Rps([x, y], [])) == {d + x, d + y}
  {
    assert x in [x, y] && y in [x, y];
  }

  lemma {:induction false} IpNames(d: nat, refs: nat)
    requires d >= 1
    ensures Names(d, IpSet(IpRefs(refs, SetIndex(d)))) == Reach(d, refs)
  {
    if IpRefs(refs, SetIndex(d)) == 1 {
      assert IpSet(1) == Rps([-1], []);
      OneName(d, -1);
    } else {
      assert IpSet(2) == Rps([-1, -2], []);
      TwoNames(d, -1, -2);
    }
  }

  /** Each picture after the IDR uses the set of the written block that the firmware picks. */
  ghost predicate SetsFromBlock(blk: seq<U8>, rps: nat, n: nat, refs: nat, sets: seq<Rps>) {
    && n >= 4 && BlockHolds(blk, rps, n, 0, refs)
    && forall d: nat :: 1 <= d < |sets| ==> Picked(blk, rps, n, refs, SetIndex(d), sets[d])
  }

  ghost predicate Picked(blk: seq<U8>, rps: nat, n: nat, refs: nat, idx: nat, s: Rps)
    requires BlockHolds(blk, rps, n, 0, refs)
  {
    idx < n && SetHolds(blk, rps, idx, 0, refs) && Carries(Entry(blk, EntryAt(rps, idx)), s)
  }

  lemma {:induction false} PickedReaches(blk: seq<U8>, rps: nat, n: nat, refs: nat, sets: seq<Rps>, d: nat)
    requires SetsFromBlock(blk, rps, n, refs, sets) && 1 <= d < |sets|
    ensures Names(d, sets[d]) == Reach(d, refs)
  {
    var idx := SetIndex(d);
    assert Picked(blk, rps, n, refs, idx, sets[d]);
    CarriesOneSet(Entry(blk, EntryAt(rps, idx)), sets[d], IpSet(IpRefs(refs, idx)));
    IpNames(d, refs);
  }

  lemma {:induction false} ReachIsKept(d: nat, refs: nat)
    requires d >= 1
    ensures (if d == 1 then {0} else Reach(d - 1, refs) + {d - 1}) * Reach(d, refs) == Reach(d, refs)
  {
  }

  ghost predicate AllReach(sets: seq<Rps>, refs: nat) {
    forall d: nat :: 1 <= d < |sets| ==> Names(d, sets[d]) == Reach(d, refs)
  }

  lemma {:induction false} MarkedIs(sets: seq<Rps>, refs: nat, d: nat)
    requires AllReach(sets, refs) && d < |sets|
    ensures Marked(d, sets) == if d == 0 then {0} else Reach(d, refs) + {d as int}
  {
    if d > 0 {
      MarkedIs(sets, refs, d - 1);
      ReachIsKept(d, refs);
    }
  }

  /** Every picture an IPPP set names is in the decoded picture buffer when it is named, however
      long the stream, and at most two are. */
  lemma {:induction false} IpReferencesExist(blk: seq<U8>, rps: nat, n: nat, refs: nat, sets: seq<Rps>, d: nat)
    requires SetsFromBlock(blk, rps, n, refs, sets) && 1 <= d < |sets|
    ensures Names(d, sets[d]) <= Marked(d - 1, sets)
    ensures |Names(d, sets[d])| <= 2 && (d as int) - 1 in Names(d, sets[d])
  {
    forall k: nat | 1 <= k < |sets| ensures Names(k, sets[k]) == Reach(k, refs) {
      PickedReaches(blk, rps, n, refs, sets, k);
    }
    MarkedIs(sets, refs, d - 1);
    ReachIsKept(d, refs);
  }
}
