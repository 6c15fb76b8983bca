/**
 The address map of base/addr_range_map.hh: entries sorted by the ranges' order,
 found by predecessor search and a walk back over the stripes of one chunk.
 */
module AddrRangeMaps {
  import opened Basics
  import opened AddrRanges

  /** The entries of the tree in iteration order. */
  type Entries<V> = seq<(AddrRange, V)>

  datatype Found = End | Entry(i: nat) | Panicked

  ghost predicate Sane<V>(tree: Entries<V>) {
    forall i | 0 <= i < |tree| :: tree[i].0.WellFormed()
  }

  ghost predicate Sorted<V>(tree: Entries<V>) {
    forall i, j | 0 <= i < j < |tree| :: tree[i].0.Less(tree[j].0)
  }

  /** Two ranges lie apart, or are different stripes of one chunk. */
  ghost predicate Apart(x: AddrRange, y: AddrRange) {
    !x.Overlaps(y) || (x.MergesWith(y) && x.Interleaved() && x.match_ != y.match_)
  }

  ghost predicate Disjoint<V>(tree: Entries<V>) {
    forall i, j | 0 <= i < j < |tree| :: Apart(tree[i].0, tree[j].0)
  }

  /** The position of the first entry above r. */
  function UpperBound<V>(tree: Entries<V>, r: AddrRange): (u: nat)
    ensures u <= |tree|
    ensures forall i | 0 <= i < u :: !r.Less(tree[i].0)
    ensures u < |tree| ==> r.Less(tree[u].0)
  {
    if tree == [] || r.Less(tree[0].0) then 0 else 1 + UpperBound(tree[1..], r)
  }

  function Check<V>(tree: Entries<V>, i: nat, r: AddrRange): Found
    requires Sane(tree) && i < |tree|
  {
    match tree[i].0.Intersects(r)
    case Yes => Entry(i)
    case No => End
    case Panic => Panicked
  }

  /** Steps back through the entries that belong to the chunk of `orig`, and one further. */
  function WalkBack<V>(tree: Entries<V>, i: nat, orig: AddrRange, r: AddrRange): Found
    requires Sane(tree) && i < |tree|
  {
    if i == 0 || !tree[i].0.MergesWith(orig) then Check(tree, i, r)
    else
      var c := Check(tree, i - 1, r);
      if c.End? then WalkBack(tree, i - 1, orig, r) else c
  }

  function Lookup<V>(tree: Entries<V>, r: AddrRange): Found
    requires Sane(tree)
  {
    if tree == [] then End
    else
      var u := UpperBound(tree, r);
      if u == 0 then Check(tree, 0, r)
      else
        var c := Check(tree, u - 1, r);
        if c.End? && tree[u - 1].0.Interleaved() then WalkBack(tree, u - 1, tree[u - 1].0, r) else c
  }

  // ----- looking up one address

  ghost predicate Holds<V>(tree: Entries<V>, i: int, a: nat)
    requires Sane(tree)
  {
    0 <= i < |tree| && tree[i].0.Contains(a)
  }

  /** Disjoint entries share no address. */
  lemma HolderIsUnique<V>(tree: Entries<V>, i: nat, j: nat, a: nat)
    requires Sane(tree) && Disjoint(tree) && Holds(tree, i, a) && Holds(tree, j, a)
    ensures i == j
  {
  }

  lemma CheckSingle<V>(tree: Entries<V>, i: nat, a: nat)
    requires Sane(tree) && i < |tree|
    ensures Check(tree, i, Single(a)) == if tree[i].0.Contains(a) then Entry(i) else End
  {
    SingleIntersects(tree[i].0, a);
  }

  lemma {:induction false} WalkFindsHolder<V>(tree: Entries<V>, i: nat, orig: AddrRange, a: nat, k: nat)
    requires Sane(tree) && i < |tree| && k < i && Holds(tree, k, a)
    requires forall j | k <= j <= i :: tree[j].0.MergesWith(orig)
    ensures WalkBack(tree, i, orig, Single(a)).Entry?
    decreases i
  {
    CheckSingle(tree, i - 1, a);
    if k == i - 1 {
    } else {
      WalkFindsHolder(tree, i - 1, orig, a, k);
    }
  }

  lemma {:induction false} WalkFindsOnlyHolders<V>(tree: Entries<V>, i: nat, orig: AddrRange, a: nat)
    requires Sane(tree) && i < |tree|
    ensures var f := WalkBack(tree, i, orig, Single(a)); f.End? || (f.Entry? && f.i <= i && Holds(tree, f.i, a))
    decreases i
  {
    CheckSingle(tree, i, a);
    if i == 0 {
    } else {
      CheckSingle(tree, i - 1, a);
      WalkFindsOnlyHolders(tree, i - 1, orig, a);
    }
  }

  /** What a lookup returns always holds the address; it never panics. */
  lemma LookupFindsHolder<V>(tree: Entries<V>, a: nat)
    requires Sane(tree)
    ensures var f := Lookup(tree, Single(a));
            f.End? || (f.Entry? && Holds(tree, f.i, a) && (f.i == 0 || f.i < UpperBound(tree, Single(a))))
  {
    if tree != [] {
      CheckSingle(tree, 0, a);
      var u := UpperBound(tree, Single(a));
      if u > 0 {
        CheckSingle(tree, u - 1, a);
        WalkFindsOnlyHolders(tree, u - 1, tree[u - 1].0, a);
      }
    }
  }

  /** Between the entry that holds a and a's predecessor in the order lies only its own chunk. */
  lemma ChunkIsContiguous<V>(tree: Entries<V>, k: nat, j: nat, a: nat)
    requires Sane(tree) && Sorted(tree) && Disjoint(tree) && Holds(tree, k, a)
    requires k < j < |tree| && tree[j].0.start <= a
    ensures tree[j].0.MergesWith(tree[k].0) && tree[j].0.Interleaved()
  {
    assert tree[k].0.Less(tree[j].0);
    assert Apart(tree[k].0, tree[j].0);
  }

  /** The one way to be missed: a later entry that starts at a with a non-zero match. */
  ghost predicate Missed<V>(tree: Entries<V>, k: int, a: nat)
    requires 0 <= k < |tree|
  {
    k > 0 && tree[k].0.start == a && tree[k].0.match_ != 0
  }

  /** A lookup finds the entry that holds the address, unless that entry is a missed one. */
  lemma LookupExact<V>(tree: Entries<V>, a: nat, k: nat)
    requires Sane(tree) && Sorted(tree) && Disjoint(tree) && Holds(tree, k, a)
    ensures Lookup(tree, Single(a)) == if Missed(tree, k, a) then End else Entry(k)
  {
    var r := Single(a);
    var u := UpperBound(tree, r);
    var f := Lookup(tree, r);
    LookupFindsHolder(tree, a);
    if f.Entry? {
      HolderIsUnique(tree, f.i, k, a);
    }
    if u <= k {
      AboveBound(tree, k, a);
      CheckSingle(tree, 0, a);
    } else {
      CheckSingle(tree, u - 1, a);
      if k < u - 1 {
        forall j | k < j <= u - 1
          ensures tree[j].0.MergesWith(tree[k].0) && tree[j].0.Interleaved()
        {
          ChunkIsContiguous(tree, k, j, a);
        }
        WalkFindsHolder(tree, u - 1, tree[u - 1].0, a, k);
      }
    }
  }

  /** An entry that holds a but lies above it in the order starts at a with a non-zero match. */
  lemma AboveBound<V>(tree: Entries<V>, k: nat, a: nat)
    requires Sane(tree) && Sorted(tree) && Holds(tree, k, a) && UpperBound(tree, Single(a)) <= k
    ensures tree[k].0.start == a && tree[k].0.match_ != 0
  {
    var u := UpperBound(tree, Single(a));
    assert Single(a).Less(tree[u].0);
    assert u < k ==> tree[u].0.Less(tree[k].0);
  }

  /** Right for every address: the result is an entry that holds it, or the end when no entry does. */
  ghost predicate Right<V>(tree: Entries<V>, a: nat)
    requires Sane(tree)
  {
    match Lookup(tree, Single(a))
    case Entry(i) => Holds(tree, i, a)
    case End => forall k | 0 <= k < |tree| :: !Holds(tree, k, a)
    case Panicked => false
  }

  /** The range does not contain its own start under a non-zero match. */
  predicate Reachable(r: AddrRange)
    requires r.bits <= r.highBit + 1
  {
    r.match_ == 0 || !r.Contains(r.start)
  }

  /** No entry but the first contains its own start under a non-zero match. */
  ghost predicate StartsReachable<V>(tree: Entries<V>)
    requires Sane(tree)
  {
    forall k | 0 < k < |tree| :: Reachable(tree[k].0)
  }

  /** Address lookup agrees with a full scan for all addresses exactly when every start is reachable. */
  lemma LookupRightIff<V>(tree: Entries<V>)
    requires Sane(tree) && Sorted(tree) && Disjoint(tree)
    ensures (forall a: nat :: Right(tree, a)) <==> StartsReachable(tree)
  {
    forall a: nat | StartsReachable(tree)
      ensures Right(tree, a)
    {
      LookupFindsHolder(tree, a);
      forall k | 0 <= k < |tree| && Holds(tree, k, a)
        ensures Lookup(tree, Single(a)) == Entry(k)
      {
        LookupExact(tree, a, k);
      }
    }
    if !StartsReachable(tree) {
      var k :| 0 < k < |tree| && !Reachable(tree[k].0);
      LookupExact(tree, tree[k].0.start, k);
      assert Holds(tree, k, tree[k].0.start);
      assert !Right(tree, tree[k].0.start);
    }
  }

  /** A chunk that starts on a stripe boundary, or a plain range with no match. */
  predicate Aligned(r: AddrRange)
    requires r.bits <= r.highBit + 1
  {
    if r.Interleaved() then r.Stripe(r.start) == 0 else r.match_ == 0
  }

  /** Aligned ranges are always found. */
  lemma AlignedStartsReachable<V>(tree: Entries<V>)
    requires Sane(tree) && forall k | 0 <= k < |tree| :: Aligned(tree[k].0)
    ensures StartsReachable(tree)
  {
  }

  // ----- insertion

  /** A map entry with the same key is already there. */
  predicate HasKey<V>(tree: Entries<V>, r: AddrRange) {
    var u := UpperBound(tree, r);
    u > 0 && !tree[u - 1].0.Less(r)
  }

  function Inserted<V>(tree: Entries<V>, r: AddrRange, d: V): Entries<V> {
    var u := UpperBound(tree, r);
    tree[..u] + [(r, d)] + tree[u..]
  }

  lemma InsertedSorted<V>(tree: Entries<V>, r: AddrRange, d: V)
    requires Sorted(tree) && !HasKey(tree, r)
    ensures Sorted(Inserted(tree, r, d))
  {
    var u, t := UpperBound(tree, r), Inserted(tree, r, d);
    forall i, j | 0 <= i < j < |t|
      ensures t[i].0.Less(t[j].0)
    {
      if i < u {
        assert i < u - 1 ==> tree[i].0.Less(tree[u - 1].0);
      }
      if j > u {
        assert j - 1 > u ==> tree[u].0.Less(tree[j - 1].0);
      }
    }
  }

  /** The first entry above r starts after r ends, or is another stripe of r's chunk. */
  predicate SuccessorClear<V>(tree: Entries<V>, r: AddrRange) {
    var u := UpperBound(tree, r);
    u < |tree| ==> r.end < tree[u].0.start || (r.MergesWith(tree[u].0) && r.Interleaved())
  }

  /** The last entry not above r ends before r starts, or is another stripe of r's chunk. */
  predicate PredecessorClear<V>(tree: Entries<V>, r: AddrRange) {
    var u := UpperBound(tree, r);
    u > 0 ==> tree[u - 1].0.end < r.start || (tree[u - 1].0.MergesWith(r) && r.Interleaved())
  }

  /** For all but one-address ranges the check before insertion covers the predecessor and shows that the key is new. */
  lemma CheckedPredecessor<V>(tree: Entries<V>, r: AddrRange)
    requires Sane(tree) && r.WellFormed() && r.Size() != 1 && Lookup(tree, r).End?
    ensures PredecessorClear(tree, r) && !HasKey(tree, r)
  {
    var u := UpperBound(tree, r);
    if u > 0 {
      assert Check(tree, u - 1, r).End?;
      assert !r.Less(tree[u - 1].0);
    }
  }

  lemma AllBelowApart<V>(tree: Entries<V>, r: AddrRange, k: nat)
    requires Sane(tree) && Sorted(tree) && Disjoint(tree) && r.WellFormed() && PredecessorClear(tree, r)
             && !HasKey(tree, r)
    requires k < UpperBound(tree, r)
    ensures Apart(tree[k].0, r)
  {
    var u := UpperBound(tree, r);
    assert tree[u - 1].0.Less(r) && !r.Less(tree[k].0);
    if k < u - 1 {
      assert tree[k].0.Less(tree[u - 1].0) && Apart(tree[k].0, tree[u - 1].0);
    }
  }

  lemma AllAboveApart<V>(tree: Entries<V>, r: AddrRange, k: nat)
    requires Sane(tree) && Sorted(tree) && Disjoint(tree) && r.WellFormed() && SuccessorClear(tree, r)
    requires UpperBound(tree, r) <= k < |tree|
    ensures Apart(r, tree[k].0)
  {
    var u := UpperBound(tree, r);
    if k > u {
      assert tree[u].0.Less(tree[k].0) && Apart(tree[u].0, tree[k].0);
    }
  }

  /**
   An insertion keeps the entries disjoint exactly when the new range is clear
   of its predecessor and of its successor. The check before it covers the
   predecessor, except for one-address ranges against an interleaved one; it
   looks at the successor only when there is no predecessor.
   */
  lemma InsertKeepsDisjointIff<V>(tree: Entries<V>, r: AddrRange, d: V)
    requires Sane(tree) && Sorted(tree) && Disjoint(tree) && r.WellFormed() && Lookup(tree, r).End?
    ensures !HasKey(tree, r) ==> (Disjoint(Inserted(tree, r, d)) <==>
              PredecessorClear(tree, r) && SuccessorClear(tree, r))
    ensures r.Size() != 1 ==> !HasKey(tree, r) && PredecessorClear(tree, r)
  {
    if r.Size() != 1 {
      CheckedPredecessor(tree, r);
    }
    if !HasKey(tree, r) {
      if PredecessorClear(tree, r) && SuccessorClear(tree, r) {
        ClearIsDisjoint(tree, r, d);
      } else {
        NotClearIsNotDisjoint(tree, r, d);
      }
    }
  }

  lemma ClearIsDisjoint<V>(tree: Entries<V>, r: AddrRange, d: V)
    requires Sane(tree) && Sorted(tree) && Disjoint(tree) && r.WellFormed() && !HasKey(tree, r)
    requires PredecessorClear(tree, r) && SuccessorClear(tree, r)
    ensures Disjoint(Inserted(tree, r, d))
  {
    var u, t := UpperBound(tree, r), Inserted(tree, r, d);
    forall i, j | 0 <= i < j < |t|
      ensures Apart(t[i].0, t[j].0)
    {
      if j == u {
        AllBelowApart(tree, r, i);
      } else if i == u {
        AllAboveApart(tree, r, j - 1);
      } else {
        assert Apart(tree[if i < u then i else i - 1].0, tree[if j < u then j else j - 1].0);
      }
    }
  }

  lemma NotClearIsNotDisjoint<V>(tree: Entries<V>, r: AddrRange, d: V)
    requires Sane(tree) && r.WellFormed() && !(PredecessorClear(tree, r) && SuccessorClear(tree, r))
    ensures !Disjoint(Inserted(tree, r, d))
  {
    var u, t := UpperBound(tree, r), Inserted(tree, r, d);
    assert t[u].0 == r;
    if !PredecessorClear(tree, r) {
      assert t[u - 1] == tree[u - 1] && !r.Less(tree[u - 1].0);
      assert !Apart(t[u - 1].0, t[u].0);
    } else {
      assert t[u + 1] == tree[u];
      assert !Apart(t[u].0, t[u + 1].0);
    }
  }

  /** What the search needs of the other entries when r comes in: only the first of all may be unreachable. */
  ghost predicate KeepsReachable<V>(tree: Entries<V>, r: AddrRange)
    requires Sane(tree) && r.WellFormed()
  {
    && (UpperBound(tree, r) > 0 ==> Reachable(r))
    && (UpperBound(tree, r) == 0 && tree != [] ==> Reachable(tree[0].0))
    && forall k | 0 < k < |tree| :: Reachable(tree[k].0)
  }

  lemma InsertedReachable<V>(tree: Entries<V>, r: AddrRange, d: V)
    requires Sane(tree) && r.WellFormed()
    ensures Sane(Inserted(tree, r, d)) && (StartsReachable(Inserted(tree, r, d)) <==> KeepsReachable(tree, r))
  {
    var u, t := UpperBound(tree, r), Inserted(tree, r, d);
    assert forall k | 0 <= k < |t| :: t[k].0 == if k < u then tree[k].0 else if k == u then r else tree[k - 1].0;
    assert forall k | 0 <= k < |tree| :: t[if k < u then k else k + 1] == tree[k];
    if StartsReachable(t) {
      forall k | 0 <= k < |tree| && (k > 0 || u == 0)
        ensures Reachable(tree[k].0)
      {
        assert Reachable(t[if k < u then k else k + 1].0);
      }
      assert t[u].0 == r;
    }
  }

  /**
   After an insertion that is clear of its neighbours the search is right for
   every address exactly when the new range is reachable, unless it comes first;
   the entry that was first is reachable, if it is first no more; and all others
   are. Of a map where the search was right the last holds already.
   */
  lemma InsertKeepsRightIff<V>(tree: Entries<V>, r: AddrRange, d: V)
    requires Sane(tree) && Sorted(tree) && Disjoint(tree) && r.WellFormed() && !HasKey(tree, r)
    requires PredecessorClear(tree, r) && SuccessorClear(tree, r)
    ensures Sane(Inserted(tree, r, d))
    ensures (forall a: nat :: Right(Inserted(tree, r, d), a)) <==> KeepsReachable(tree, r)
    ensures (forall a: nat :: Right(tree, a)) ==>
              (KeepsReachable(tree, r) <==>
                if UpperBound(tree, r) > 0 then Reachable(r) else tree == [] || Reachable(tree[0].0))
  {
    InsertedReachable(tree, r, d);
    InsertedSorted(tree, r, d);
    ClearIsDisjoint(tree, r, d);
    LookupRightIff(Inserted(tree, r, d));
    LookupRightIff(tree);
  }

  /** A range over two entries is accepted when only its successor is in the way. */
  lemma OverlapAccepted()
    ensures var tree: Entries<int> := [(AddrRange(0, 1, 0, 0, 0), 0), (AddrRange(10, 20, 0, 0, 0), 1)];
            var r := AddrRange(5, 15, 0, 0, 0);
            Sane(tree) && Disjoint(tree) && Lookup(tree, r).End? && !Disjoint(Inserted(tree, r, 2))
  {
    var tree: Entries<int> := [(AddrRange(0, 1, 0, 0, 0), 0), (AddrRange(10, 20, 0, 0, 0), 1)];
    var r := AddrRange(5, 15, 0, 0, 0);
    assert |tree[1..]| == 1 && tree[1..][0] == tree[1];
    assert UpperBound(tree[1..], r) == 0;
    var t := Inserted(tree, r, 2);
    assert t[1].0 == r && t[2].0 == tree[1].0;
    assert !Apart(t[1].0, t[2].0);
  }

  /**
   A one-address range inside a chunk, but in another stripe, is accepted. From
   then on addresses of the chunk above it are not found any more.
   */
  lemma OneAddressAccepted()
    ensures var tree: Entries<int> := [(AddrRange(16, 47, 4, 1, 0), 0)];
            var r := AddrRange(17, 17, 0, 0, 0);
            && Sane(tree) && Sorted(tree) && Disjoint(tree) && r.WellFormed() && Lookup(tree, r).End?
            && !HasKey(tree, r) && SuccessorClear(tree, r) && !PredecessorClear(tree, r)
            && var t := Inserted(tree, r, 1); Sane(t) && Holds(t, 0, 32) && Lookup(t, Single(32)).End?
  {
    var chunk, r := AddrRange(16, 47, 4, 1, 0), AddrRange(17, 17, 0, 0, 0);
    var tree: Entries<int> := [(chunk, 0)];
    Sixteen();
    assert |tree[1..]| == 0;
    assert UpperBound(tree, r) == 1;
    assert r.Size() == 1;
    assert !chunk.Contains(17) && chunk.Contains(32);
    var t := Inserted(tree, r, 1);
    assert t == [(chunk, 0), (r, 1)];
    var tail: Entries<int> := t[1..];
    assert tail == [(r, 1)] && |tail[1..]| == 0;
    assert UpperBound(tail, Single(32)) == 1;
    assert UpperBound(t, Single(32)) == 2;
  }

  lemma Sixteen()
    ensures Pow2(0) == 1 && Pow2(1) == 2 && Pow2(4) == 16
  {
    assert Pow2(2) == 4;
    assert Pow2(3) == 8;
  }

  /** A map with a stripe that starts at its own address under a non-zero match: the search misses that address. */
  lemma StartMissed()
    ensures var t: Entries<int> := [(AddrRange(0, 1, 0, 0, 0), 0), (AddrRange(16, 47, 4, 1, 0), 1),
                                    (AddrRange(16, 47, 4, 1, 1), 2)];
            && Sane(t) && Sorted(t) && Disjoint(t) && !StartsReachable(t) && Holds(t, 2, 16)
            && Lookup(t, Single(16)).End?
  {
    var t: Entries<int> := [(AddrRange(0, 1, 0, 0, 0), 0), (AddrRange(16, 47, 4, 1, 0), 1),
                            (AddrRange(16, 47, 4, 1, 1), 2)];
    Sixteen();
    assert t[2].0.Contains(16);
    LookupExact(t, 16, 2);
  }

  /**
   A map where the search is right for every address. After a range below it,
   disjoint from it, has been accepted, the search misses an address.
   */
  lemma FirstMissedLater()
    ensures var tree: Entries<int> := [(AddrRange(16, 47, 4, 1, 1), 0)];
            var r := AddrRange(0, 1, 0, 0, 0);
            && Sane(tree) && Sorted(tree) && Disjoint(tree) && r.WellFormed() && Lookup(tree, r).End?
            && !HasKey(tree, r) && PredecessorClear(tree, r) && SuccessorClear(tree, r)
            && (forall a: nat :: Right(tree, a))
            && var t := Inserted(tree, r, 1); Sane(t) && Disjoint(t) && Holds(t, 1, 16) && Lookup(t, Single(16)).End?
  {
    var stripe, r := AddrRange(16, 47, 4, 1, 1), AddrRange(0, 1, 0, 0, 0);
    var tree: Entries<int> := [(stripe, 0)];
    Sixteen();
    assert UpperBound(tree, r) == 0;
    assert stripe.Contains(16);
    LookupRightIff(tree);
    var t := Inserted(tree, r, 1);
    assert t == [(r, 1), (stripe, 0)];
    InsertedSorted(tree, r, 1);
    ClearIsDisjoint(tree, r, 1);
    LookupExact(t, 16, 1);
  }

  class AddrRangeMap<V> {
    var tree: Entries<V>

    ghost predicate Valid()
      reads this
    {
      Sane(tree) && Sorted(tree)
    }

    constructor ()
      ensures Valid() && tree == []
    {
      tree := [];
    }

    method Find(r: AddrRange) returns (f: Found)
      requires Valid()
      ensures f == Lookup(tree, r)
    {
      if tree == [] {
        return End;
      }
      var i := UpperBound(tree, r);
      if i == 0 {
        return Check(tree, 0, r);
      }
      i := i - 1;
      f := Check(tree, i, r);
      if f.End? && tree[i].0.Interleaved() {
        var origRange := tree[i].0;
        ghost var start := i;
        while i != 0 && tree[i].0.MergesWith(origRange)
          invariant i < |tree| && WalkBack(tree, i, origRange, r) == WalkBack(tree, start, origRange, r)
        {
          i := i - 1;
          f := Check(tree, i, r);
          if !f.End? {
            return f;
          }
        }
        f := Check(tree, i, r);
      }
    }

    /** Find for one address: right whenever the starts are reachable. */
    method FindAddress(a: nat) returns (f: Found)
      requires Valid()
      ensures f == Lookup(tree, Single(a))
      ensures Disjoint(tree) && StartsReachable(tree) ==> Right(tree, a)
    {
      f := Find(Single(a));
      if Disjoint(tree) && StartsReachable(tree) {
        LookupRightIff(tree);
        assert Right(tree, a);
      }
    }

    /** Adds an entry unless the range is found to intersect one; panics where the intersection test does. */
    method Insert(r: AddrRange, d: V) returns (f: Found)
      requires Valid() && r.WellFormed()
      modifies this
      ensures Valid()
      ensures var l := old(Lookup(tree, r));
              if l.End? && !old(HasKey(tree, r)) then tree == old(Inserted(tree, r, d))
                  && f == Entry(old(UpperBound(tree, r)))
              else tree == old(tree) && (if l.Panicked? then f.Panicked? else if l.Entry? then f.End? else f.Entry?)
    {
      var l := Find(r);
      if l.Panicked? {
        return Panicked;
      }
      if l.Entry? {
        return End;
      }
      var u := UpperBound(tree, r);
      if HasKey(tree, r) {
        return Entry(u - 1);
      }
      InsertedSorted(tree, r, d);
      tree := Inserted(tree, r, d);
      f := Entry(u);
    }
  }
}
