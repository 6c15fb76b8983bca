/**
 Address maps built by any list of insertions: what the search for an address
 finds in them, and which lists are taken in whole.
 */
module AddrMapRuns {
  import opened Basics
  import opened AddrRanges
  import opened AddrRangeMaps

  /** The insertion of x is accepted. */
  predicate Accepts<V>(tree: Entries<V>, x: (AddrRange, V))
    requires Sane(tree)
  {
    Lookup(tree, x.0).End? && !HasKey(tree, x.0)
  }

  function Stepped<V>(tree: Entries<V>, x: (AddrRange, V)): Entries<V>
    requires Sane(tree)
  {
    if Accepts(tree, x) then Inserted(tree, x.0, x.1) else tree
  }

  /** The map after inserting the items one by one; one that is not accepted leaves it alone. */
  function Built<V>(items: Entries<V>): (tree: Entries<V>)
    requires Sane(items)
    ensures Sane(tree)
  {
    if items == [] then [] else Stepped(Built(items[..|items| - 1]), items[|items| - 1])
  }

  /** Item i was accepted. */
  ghost predicate Took<V>(items: Entries<V>, i: int)
    requires Sane(items)
  {
    0 <= i < |items| && Accepts(Built(items[..i]), items[i])
  }

  /** No insertion makes the intersection test give up. */
  ghost predicate Calm<V>(items: Entries<V>)
    requires Sane(items)
  {
    items == [] ||
    (Calm(items[..|items| - 1]) && !Lookup(Built(items[..|items| - 1]), items[|items| - 1].0).Panicked?)
  }

  lemma {:induction false} BuiltSorted<V>(items: Entries<V>)
    requires Sane(items)
    ensures Sorted(Built(items))
  {
    if items == [] {
    } else {
      var tree, x := Built(items[..|items| - 1]), items[|items| - 1];
      BuiltSorted(items[..|items| - 1]);
      if Accepts(tree, x) {
        InsertedSorted(tree, x.0, x.1);
      }
    }
  }

  lemma InsertedHas<V>(tree: Entries<V>, x: (AddrRange, V), y: (AddrRange, V))
    ensures y in Inserted(tree, x.0, x.1) <==> y in tree || y == x
  {
    var u := UpperBound(tree, x.0);
    assert tree == tree[..u] + tree[u..];
  }

  lemma TookBefore<V>(items: Entries<V>, i: int)
    requires Sane(items) && items != [] && i < |items| - 1
    ensures Took(items, i) <==> Took(items[..|items| - 1], i)
  {
    if 0 <= i {
      assert items[..|items| - 1][..i] == items[..i];
    }
  }

  /** The entries are the items accepted. */
  lemma {:induction false} BuiltHas<V>(items: Entries<V>, x: (AddrRange, V))
    requires Sane(items)
    ensures x in Built(items) <==> exists i :: Took(items, i) && items[i] == x
  {
    if items == [] {
    } else {
      var before, last := items[..|items| - 1], items[|items| - 1];
      BuiltHas(before, x);
      InsertedHas(Built(before), last, x);
      forall i | i < |items| - 1
        ensures Took(items, i) <==> Took(before, i)
      {
        TookBefore(items, i);
      }
      if x in Built(before) {
        var i :| Took(before, i) && before[i] == x;
        assert Took(items, i) && items[i] == x;
      }
      assert Took(items, |items| - 1) <==> Accepts(Built(before), last);
    }
  }

  // ----- lists of ranges that are apart

  /** What a caller can see to: ranges that are apart from each other and start on stripe boundaries. */
  ghost predicate Compatible<V>(items: Entries<V>) {
    Sane(items) && Disjoint(items) && forall i | 0 <= i < |items| :: Aligned(items[i].0)
  }

  /** A range apart from all entries is clear of its neighbours, and new. */
  lemma ApartIsClear<V>(tree: Entries<V>, r: AddrRange)
    requires Sane(tree) && r.WellFormed() && forall i | 0 <= i < |tree| :: Apart(tree[i].0, r)
    ensures PredecessorClear(tree, r) && SuccessorClear(tree, r) && !HasKey(tree, r)
  {
    var u := UpperBound(tree, r);
    if u > 0 {
      assert Apart(tree[u - 1].0, r) && !r.Less(tree[u - 1].0);
    }
    if u < |tree| {
      assert Apart(tree[u].0, r) && r.Less(tree[u].0);
    }
  }

  lemma ApartFromBuilt<V>(items: Entries<V>, x: (AddrRange, V), k: nat)
    requires Sane(items) && k < |Built(items)| && forall i | 0 <= i < |items| :: Apart(items[i].0, x.0)
    ensures Apart(Built(items)[k].0, x.0)
  {
    BuiltHas(items, Built(items)[k]);
  }

  lemma {:induction false} BuiltDisjoint<V>(items: Entries<V>)
    requires Sane(items) && Disjoint(items)
    ensures Disjoint(Built(items))
  {
    if items == [] {
    } else {
      var before, x := items[..|items| - 1], items[|items| - 1];
      BuiltDisjoint(before);
      BuiltSorted(before);
      forall k | 0 <= k < |Built(before)|
        ensures Apart(Built(before)[k].0, x.0)
      {
        ApartFromBuilt(before, x, k);
      }
      ApartIsClear(Built(before), x.0);
      if Accepts(Built(before), x) {
        ClearIsDisjoint(Built(before), x.0, x.1);
      }
    }
  }

  lemma BuiltRight<V>(items: Entries<V>, a: nat)
    requires Compatible(items)
    ensures Right(Built(items), a)
  {
    var tree := Built(items);
    BuiltSorted(items);
    BuiltDisjoint(items);
    forall k | 0 <= k < |tree|
      ensures Aligned(tree[k].0)
    {
      BuiltHas(items, tree[k]);
    }
    AlignedStartsReachable(tree);
    LookupRightIff(tree);
  }

  /** An accepted item that contains a. */
  ghost predicate TookFor<V>(items: Entries<V>, i: int, a: nat)
    requires Sane(items)
  {
    Took(items, i) && items[i].0.Contains(a)
  }

  /** The search finds the value of the accepted item that contains the address, and nothing when there is none. */
  lemma SearchIsScan<V>(items: Entries<V>, a: nat)
    requires Compatible(items)
    ensures match Lookup(Built(items), Single(a))
            case Entry(k) => k < |Built(items)| && exists i :: TookFor(items, i, a) && items[i] == Built(items)[k]
            case End => forall i :: !TookFor(items, i, a)
            case Panicked => false
  {
    var tree, f := Built(items), Lookup(Built(items), Single(a));
    BuiltRight(items, a);
    if f.Entry? {
      BuiltHas(items, tree[f.i]);
      var i :| Took(items, i) && items[i] == tree[f.i];
      assert TookFor(items, i, a);
    } else {
      forall i
        ensures !TookFor(items, i, a)
      {
        if TookFor(items, i, a) {
          BuiltHas(items, items[i]);
          var k :| 0 <= k < |tree| && tree[k] == items[i];
          assert Holds(tree, k, a);
        }
      }
    }
  }

  // ----- which insertions are accepted

  /** Entries k to i, without k, belong to one chunk. */
  ghost predicate ChunkDown<V>(tree: Entries<V>, k: int, i: int, orig: AddrRange)
    requires 0 <= k <= i < |tree|
  {
    forall j | k < j <= i :: tree[j].0.MergesWith(orig)
  }

  /** The search for r comes past entry k, unless something is found before. */
  ghost predicate Reached<V>(tree: Entries<V>, r: AddrRange, k: int) {
    var u := UpperBound(tree, r);
    if u == 0 then k == 0 < |tree|
    else 0 <= k < u && (k == u - 1 || (tree[u - 1].0.Interleaved() && ChunkDown(tree, k, u - 1, tree[u - 1].0)))
  }

  lemma {:induction false} WalkEndsIff<V>(tree: Entries<V>, i: nat, orig: AddrRange, r: AddrRange)
    requires Sane(tree) && i < |tree| && Check(tree, i, r).End?
    ensures WalkBack(tree, i, orig, r).End? <==>
              forall k | 0 <= k <= i && ChunkDown(tree, k, i, orig) :: Check(tree, k, r).End?
    decreases i
  {
    if i == 0 || !tree[i].0.MergesWith(orig) {
    } else if Check(tree, i - 1, r).End? {
      WalkEndsIff(tree, i - 1, orig, r);
      assert forall k | 0 <= k < i :: ChunkDown(tree, k, i, orig) <==> ChunkDown(tree, k, i - 1, orig);
    } else {
      assert ChunkDown(tree, i - 1, i, orig);
    }
  }

  /** Nothing is found exactly when no entry that the search comes past is hit. */
  lemma LookupEndsIff<V>(tree: Entries<V>, r: AddrRange)
    requires Sane(tree)
    ensures Lookup(tree, r).End? <==> forall k | Reached(tree, r, k) :: Check(tree, k, r).End?
  {
    var u := UpperBound(tree, r);
    if u == 0 {
      assert tree != [] ==> Reached(tree, r, 0);
    } else {
      assert Reached(tree, r, u - 1);
      if Check(tree, u - 1, r).End? && tree[u - 1].0.Interleaved() {
        WalkEndsIff(tree, u - 1, tree[u - 1].0, r);
        assert forall k | 0 <= k < u :: Reached(tree, r, k) <==> ChunkDown(tree, k, u - 1, tree[u - 1].0);
      }
    }
  }

  /** The intersection test of an entry with a range apart from it comes out as it should. */
  predicate Harmless(e: AddrRange, r: AddrRange)
    requires e.bits <= e.highBit + 1
  {
    e.Interleaved() && r.Interleaved() ==> if r.Size() == 1 then !e.Contains(r.start) else e.MergesWith(r)
  }

  lemma ApartIsNoHit<V>(tree: Entries<V>, i: nat, r: AddrRange)
    requires Sane(tree) && i < |tree| && r.WellFormed() && Apart(tree[i].0, r)
    ensures Check(tree, i, r) == End <==> Harmless(tree[i].0, r)
  {
  }

  /**
   A range apart from all entries is accepted exactly when it is not interleaved,
   or all interleaved entries that the search comes past are stripes of its own
   chunk; if it is a stripe of one address, none of them may contain its start.
   */
  lemma ApartAcceptedIff<V>(tree: Entries<V>, x: (AddrRange, V))
    requires Sane(tree) && x.0.WellFormed() && forall i | 0 <= i < |tree| :: Apart(tree[i].0, x.0)
    ensures Accepts(tree, x) <==> forall k | Reached(tree, x.0, k) :: Harmless(tree[k].0, x.0)
  {
    ApartIsClear(tree, x.0);
    LookupEndsIff(tree, x.0);
    forall k | Reached(tree, x.0, k)
      ensures Check(tree, k, x.0).End? <==> Harmless(tree[k].0, x.0)
    {
      ApartIsNoHit(tree, k, x.0);
    }
  }

  /** No two different chunks, and no stripes of one address. */
  ghost predicate OneChunk<V>(items: Entries<V>) {
    && (forall i | 0 <= i < |items| :: items[i].0.Interleaved() ==> items[i].0.Size() != 1)
    && forall i, j | 0 <= i < j < |items| :: GetAlong(items[i].0, items[j].0)
  }

  predicate GetAlong(x: AddrRange, y: AddrRange) {
    x.Interleaved() && y.Interleaved() ==> x.MergesWith(y)
  }

  /** Lists of ranges that are apart, with at most one chunk among them, are taken in whole. */
  lemma AllTaken<V>(items: Entries<V>, i: nat)
    requires Sane(items) && Disjoint(items) && OneChunk(items) && i < |items|
    ensures Took(items, i)
  {
    var before, r := items[..i], items[i].0;
    var tree := Built(before);
    forall k | 0 <= k < |tree|
      ensures Harmless(tree[k].0, r) && Apart(tree[k].0, r)
    {
      BuiltHas(before, tree[k]);
      var j :| Took(before, j) && before[j] == tree[k];
      assert Apart(items[j].0, r) && GetAlong(items[j].0, r);
    }
    ApartAcceptedIff(tree, items[i]);
  }

  lemma {:induction false} TakenIsCalm<V>(items: Entries<V>)
    requires Sane(items) && forall i | 0 <= i < |items| :: Took(items, i)
    ensures Calm(items)
  {
    if items == [] {
    } else {
      var before := items[..|items| - 1];
      forall i | 0 <= i < |before|
        ensures Took(before, i)
      {
        assert Took(items, i);
        TookBefore(items, i);
      }
      TakenIsCalm(before);
      assert Took(items, |items| - 1);
    }
  }

  /** For such lists no insertion panics, and the search is a scan of the whole list. */
  lemma WholeListSearched<V>(items: Entries<V>, a: nat)
    requires Compatible(items) && OneChunk(items)
    ensures Calm(items)
    ensures match Lookup(Built(items), Single(a))
            case Entry(k) =>
              && k < |Built(items)|
              && forall i | 0 <= i < |items| && items[i].0.Contains(a) :: items[i] == Built(items)[k]
            case End => forall i | 0 <= i < |items| :: !items[i].0.Contains(a)
            case Panicked => false
  {
    forall i | 0 <= i < |items|
      ensures Took(items, i) && (TookFor(items, i, a) <==> items[i].0.Contains(a))
    {
      AllTaken(items, i);
    }
    TakenIsCalm(items);
    SearchIsScan(items, a);
    var f := Lookup(Built(items), Single(a));
    if f.Entry? {
      var j :| TookFor(items, j, a) && items[j] == Built(items)[f.i];
      forall i | 0 <= i < |items| && items[i].0.Contains(a)
        ensures items[i] == Built(items)[f.i]
      {
        HolderIsUnique(items, i, j, a);
      }
    }
  }

  /** Two chunks that lie apart: inserting the second panics. */
  lemma TwoChunksPanic()
    ensures var items: Entries<int> := [(AddrRange(0, 31, 4, 1, 0), 0), (AddrRange(64, 95, 4, 1, 0), 1)];
            Compatible(items) && !Calm(items)
  {
    var items: Entries<int> := [(AddrRange(0, 31, 4, 1, 0), 0), (AddrRange(64, 95, 4, 1, 0), 1)];
    Sixteen();
    FirstIsBuilt(items);
    assert Shifted(0, 4) == 0 && Shifted(64, 4) == 4;
    assert items[1].0.Size() == 16;
  }

  /** Two stripes of one address each: the second is refused. */
  lemma OneAddressStripeRefused()
    ensures var items: Entries<int> := [(AddrRange(0, 1, 0, 1, 0), 0), (AddrRange(0, 1, 0, 1, 1), 1)];
            Compatible(items) && !Took(items, 1) && Calm(items)
  {
    var items: Entries<int> := [(AddrRange(0, 1, 0, 1, 0), 0), (AddrRange(0, 1, 0, 1, 1), 1)];
    Sixteen();
    FirstIsBuilt(items);
    assert Shifted(0, 0) == 0;
    assert items[1].0.Size() == 1;
  }

  lemma FirstIsBuilt<V>(items: Entries<V>)
    requires Sane(items) && |items| > 0
    ensures Sane(items[..1]) && Built(items[..1]) == [items[0]] && Calm(items[..1])
  {
    assert items[..1][..0] == [] && items[..1][0] == items[0];
  }

  // ----- the class

  method InsertItem<V>(m: AddrRangeMap<V>, x: (AddrRange, V)) returns (panicked: bool)
    requires m.Valid() && x.0.WellFormed()
    modifies m
    ensures m.Valid() && m.tree == Stepped(old(m.tree), x) && panicked == Lookup(old(m.tree), x.0).Panicked?
  {
    var f := m.Insert(x.0, x.1);
    panicked := f.Panicked?;
  }

  lemma BuiltStep<V>(items: Entries<V>, i: nat)
    requires Sane(items) && i < |items|
    ensures Built(items[..i + 1]) == Stepped(Built(items[..i]), items[i])
    ensures Calm(items[..i + 1]) <==> Calm(items[..i]) && !Lookup(Built(items[..i]), items[i].0).Panicked?
  {
    assert items[..i + 1][..i] == items[..i];
  }

  lemma {:induction false} CalmBefore<V>(items: Entries<V>, i: nat)
    requires Sane(items) && i <= |items| && Calm(items)
    ensures Calm(items[..i])
  {
    if i == |items| {
      assert items[..i] == items;
    } else {
      CalmBefore(items[..|items| - 1], i);
      assert items[..|items| - 1][..i] == items[..i];
    }
  }

  /** Inserts the items into a new map; gives up where an insertion panics. */
  method Build<V>(items: Entries<V>) returns (ok: bool, m: AddrRangeMap<V>)
    requires Sane(items)
    ensures ok <==> Calm(items)
    ensures fresh(m) && m.Valid() && (ok ==> m.tree == Built(items))
  {
    m := new AddrRangeMap<V>();
    for i := 0 to |items|
      invariant fresh(m) && m.Valid() && m.tree == Built(items[..i])
      invariant Calm(items[..i])
    {
      BuiltStep(items, i);
      var panicked := InsertItem(m, items[i]);
      if panicked {
        if Calm(items) {
          CalmBefore(items, i + 1);
        }
        return false, m;
      }
    }
    assert items[..|items|] == items;
    ok := true;
  }

  /** Inserts the items and looks an address up. */
  method Replay<V>(items: Entries<V>, a: nat) returns (ok: bool, v: Option<V>)
    requires Sane(items)
    ensures ok <==> Calm(items)
    ensures ok && Compatible(items) ==>
              if v.Some? then exists i :: TookFor(items, i, a) && items[i].1 == v.value
              else forall i :: !TookFor(items, i, a)
  {
    var m;
    ok, m := Build(items);
    v := None;
    if ok {
      var f := m.FindAddress(a);
      LookupFindsHolder(m.tree, a);
      if f.Entry? {
        v := Some(m.tree[f.i].1);
      }
      if Compatible(items) {
        SearchIsScan(items, a);
      }
    }
  }
}
