/**
 The node graph of the trie as a value: what the heap holds at one moment, the
 shape every reachable graph has, and the rewirings that keep it.
 */
module TrieGraphs {
  import opened Basics
  import opened Words

  /** A trie node. Key and mask are fixed at construction; the links and the value are rewired. */
  class Node<V> {
    const key: Word
    const mask: Word
    ghost const width: nat
    var value: Option<V>
    var parent: Node?<V>
    var kids: seq<Node?<V>>

    constructor (key: Word, mask: Word, value: Option<V>, ghost width: nat)
      requires |key| == |mask| && width <= |mask| && mask == Mask(|mask|, width)
      ensures this.mask == mask && this.width == width && Tidy(|mask|) && Prefix() == key[..width]
      ensures this.value == value && parent == null && kids == [null, null]
    {
      this.key, this.mask, this.width := And(key, mask), mask, width;
      this.value, parent, kids := value, null, [null, null];
      MaskedPrefix(key, width);
    }

    predicate Matches(test: Word)
      requires |test| == |mask|
    {
      And(test, mask) == key
    }

    /** The key has no bits beyond the mask, and the mask is a prefix mask. */
    ghost predicate Tidy(bits: nat) {
      && |mask| == bits && |key| == bits && width <= bits
      && mask == Mask(bits, width) && And(key, mask) == key
    }

    ghost function Prefix(): Word
      requires width <= |key|
    {
      key[..width]
    }

    lemma MatchesIsPrefix(test: Word, bits: nat)
      requires Tidy(bits) && |test| == bits
      ensures Matches(test) <==> Prefix() <= test
    {
      EqualUnderMask(test, key, width);
      assert Prefix() <= test ==> test[..width] == Prefix();
    }
  }

  datatype Cell<V> = Cell(value: Option<V>, parent: Node?<V>, kids: seq<Node?<V>>)

  type Graph<V> = map<Node<V>, Cell<V>>

  // ----- the shape of a trie

  /** Node x carries a proper prefix of what y carries. */
  ghost predicate Extends<V>(x: Node<V>, y: Node<V>) {
    && x.width < y.width <= |y.key| && x.width <= |x.key|
    && x.Prefix() <= y.Prefix()
  }

  /** x and y, both below n, differ in the bit right after n's prefix. */
  ghost predicate Parted<V>(n: Node<V>, x: Node<V>, y: Node<V>) {
    n.width < |x.key| && n.width < |y.key| && x.key[n.width] != y.key[n.width]
  }

  ghost predicate KidOk<V>(g: Graph<V>, n: Node<V>, kid: Node<V>) {
    kid in g && g[kid].parent == n && Extends(n, kid)
  }

  ghost predicate DownOk<V>(g: Graph<V>, n: Node<V>)
    requires n in g
  {
    var kids := g[n].kids;
    && |kids| == 2
    && (kids[0] != null ==> KidOk(g, n, kids[0]))
    && (kids[1] != null ==> kids[0] != null && KidOk(g, n, kids[1]) && Parted(n, kids[0], kids[1]))
  }

  ghost predicate UpOk<V>(g: Graph<V>, n: Node<V>, head: Node<V>)
    requires n in g
  {
    var p := g[n].parent;
    && (p == null <==> n == head)
    && (p != null ==> p in g && n in g[p].kids)
  }

  ghost predicate AllTidy<V>(g: Graph<V>, bits: nat) {
    forall n {:trigger n.Tidy(bits)} | n in g :: n.Tidy(bits)
  }

  ghost predicate WellLinked<V>(g: Graph<V>, head: Node<V>) {
    && head in g && head.width == 0 && g[head].value.None?
    && (forall n {:trigger DownOk(g, n)} | n in g :: DownOk(g, n))
    && (forall n {:trigger UpOk(g, n, head)} | n in g :: UpOk(g, n, head))
  }

  /** A node without a value branches, unless it is the root. */
  ghost predicate Needed<V>(g: Graph<V>, n: Node<V>, head: Node<V>)
    requires n in g
  {
    n != head && g[n].value.None? ==> |g[n].kids| == 2 && g[n].kids[1] != null
  }

  // ----- rewirings

  ghost function SetValue<V>(g: Graph<V>, n: Node<V>, v: Option<V>): Graph<V>
    requires n in g
  {
    g[n := g[n].(value := v)]
  }

  ghost function SetKid<V>(g: Graph<V>, n: Node<V>, i: nat, kid: Node?<V>): Graph<V>
    requires n in g && i < |g[n].kids|
  {
    g[n := g[n].(kids := g[n].kids[i := kid])]
  }

  ghost function SetParent<V>(g: Graph<V>, n: Node<V>, p: Node?<V>): Graph<V>
    requires n in g
  {
    g[n := g[n].(parent := p)]
  }

  lemma SetValueKeepsLinks<V>(g: Graph<V>, n: Node<V>, v: Option<V>, head: Node<V>)
    requires WellLinked(g, head) && n in g && n != head
    ensures WellLinked(SetValue(g, n, v), head)
  {
    var g' := SetValue(g, n, v);
    forall m | m in g'
      ensures DownOk(g', m) && UpOk(g', m, head)
    {
      assert DownOk(g, m) && UpOk(g, m, head);
    }
  }

  /** A new leaf in an empty slot. */
  ghost function AddLeaf<V>(g: Graph<V>, n: Node<V>, i: nat, leaf: Node<V>, v: Option<V>): Graph<V>
    requires n in g && i < |g[n].kids|
  {
    SetKid(g, n, i, leaf)[leaf := Cell(v, n, [null, null])]
  }

  lemma AddLeafKeepsLinks<V>(g: Graph<V>, n: Node<V>, i: nat, leaf: Node<V>, v: Option<V>, head: Node<V>)
    requires WellLinked(g, head) && n in g && leaf !in g && i < 2 && |g[n].kids| == 2 && g[n].kids[i] == null
    requires Extends(n, leaf)
    requires i == 1 ==> g[n].kids[0] != null && Parted(n, g[n].kids[0], leaf)
    ensures WellLinked(AddLeaf(g, n, i, leaf, v), head)
  {
    var g' := AddLeaf(g, n, i, leaf, v);
    assert DownOk(g, n);
    assert i == 0 ==> g[n].kids[1] == null;
    forall m | m in g'
      ensures DownOk(g', m) && UpOk(g', m, head)
    {
      if m == leaf {
        assert g'[n].kids[i] == leaf;
      } else if m != n {
        assert DownOk(g, m) && UpOk(g, m, head);
        var p := g[m].parent;
        if p == n {
          var j :| 0 <= j < |g[n].kids| && g[n].kids[j] == m;
          assert g'[n].kids[j] == m;
        }
      } else {
        assert UpOk(g, m, head);
      }
    }
  }

  /** A new valueless node between n and its kid in slot i. */
  ghost function InsertAbove<V>(g: Graph<V>, n: Node<V>, i: nat, mid: Node<V>): Graph<V>
    requires n in g && i < |g[n].kids| && g[n].kids[i] != null && g[n].kids[i] in g
  {
    var kid := g[n].kids[i];
    SetParent(SetKid(g, n, i, mid), kid, mid)[mid := Cell(None, n, [kid, null])]
  }

  ghost predicate CanInsertAbove<V>(g: Graph<V>, n: Node<V>, i: nat, mid: Node<V>) {
    && n in g && mid !in g && i < 2 && DownOk(g, n) && g[n].kids[i] != null
    && Extends(n, mid) && Extends(mid, g[n].kids[i])
  }

  lemma InsertAboveKeepsLinks<V>(g: Graph<V>, n: Node<V>, i: nat, mid: Node<V>, head: Node<V>)
    requires WellLinked(g, head) && CanInsertAbove(g, n, i, mid)
    ensures WellLinked(InsertAbove(g, n, i, mid), head)
  {
    var kid := g[n].kids[i];
    var g' := InsertAbove(g, n, i, mid);
    assert UpOk(g, n, head) && DownOk(g, kid) && UpOk(g, kid, head);
    InsertAboveAtNode(g, n, i, mid, head);
    InsertAboveAtKid(g, n, i, mid, head);
    forall m | m in g && m != n && m != kid
      ensures DownOk(g', m) && UpOk(g', m, head)
    {
      InsertAboveElsewhere(g, n, i, mid, head, m);
    }
  }

  lemma InsertAboveCells<V>(g: Graph<V>, n: Node<V>, i: nat, mid: Node<V>)
    requires CanInsertAbove(g, n, i, mid)
    ensures var g', kid := InsertAbove(g, n, i, mid), g[n].kids[i];
            && n != kid && g'[n] == Cell(g[n].value, g[n].parent, g[n].kids[i := mid])
            && g'[kid] == Cell(g[kid].value, mid, g[kid].kids)
            && g'[mid] == Cell(None, n, [kid, null])
            && kid.key[n.width] == mid.key[n.width]
  {
    var kid := g[n].kids[i];
    assert mid.key[n.width] == mid.Prefix()[n.width] == kid.Prefix()[n.width] == kid.key[n.width];
  }

  lemma InsertAboveAtNode<V>(g: Graph<V>, n: Node<V>, i: nat, mid: Node<V>, head: Node<V>)
    requires CanInsertAbove(g, n, i, mid) && head in g && UpOk(g, n, head)
    ensures var g' := InsertAbove(g, n, i, mid);
            DownOk(g', n) && UpOk(g', n, head) && DownOk(g', mid) && UpOk(g', mid, head)
  {
    var g' := InsertAbove(g, n, i, mid);
    InsertAboveCells(g, n, i, mid);
    assert g'[n].kids[i] == mid;
  }

  lemma InsertAboveAtKid<V>(g: Graph<V>, n: Node<V>, i: nat, mid: Node<V>, head: Node<V>)
    requires CanInsertAbove(g, n, i, mid) && head in g
    requires DownOk(g, g[n].kids[i]) && UpOk(g, g[n].kids[i], head)
    ensures var g', kid := InsertAbove(g, n, i, mid), g[n].kids[i]; DownOk(g', kid) && UpOk(g', kid, head)
  {
    var kid := g[n].kids[i];
    var g' := InsertAbove(g, n, i, mid);
    InsertAboveCells(g, n, i, mid);
    assert g'[mid].kids[0] == kid;
  }

  lemma InsertAboveElsewhere<V>(g: Graph<V>, n: Node<V>, i: nat, mid: Node<V>, head: Node<V>, m: Node<V>)
    requires CanInsertAbove(g, n, i, mid)
    requires m in g && m != n && m != g[n].kids[i] && DownOk(g, m) && UpOk(g, m, head)
    ensures var g' := InsertAbove(g, n, i, mid); DownOk(g', m) && UpOk(g', m, head)
  {
    var kid := g[n].kids[i];
    var g' := InsertAbove(g, n, i, mid);
    assert g'[m] == g[m] && g[m].kids[0] != kid && g[m].kids[1] != kid;
    if g[m].parent == n {
      SlotKept(g[n].kids, i, mid, m);
    }
    Untouched(g, g', m, head);
  }

  /** The graph without n, whose only kid (if any) takes its place below its parent. */
  ghost function Spliced<V>(g: Graph<V>, n: Node<V>): Graph<V>
    requires CanSplice(g, n)
  {
    var p, c := g[n].parent, g[n].kids[0];
    var g1 := g[p := g[p].(kids := SplicedKids(g[p].kids, n, c))];
    var g2 := if c != null then SetParent(g1, c, p) else g1;
    g2 - {n}
  }

  ghost predicate CanSplice<V>(g: Graph<V>, n: Node<V>) {
    && n in g && DownOk(g, n) && g[n].kids[1] == null
    && g[n].parent != null && g[n].parent in g && DownOk(g, g[n].parent) && n in g[g[n].parent].kids
  }

  /** The slot of n now holds c; a lone kid moves to slot 0. */
  ghost function SplicedKids<V>(kids: seq<Node?<V>>, n: Node<V>, c: Node?<V>): (r: seq<Node?<V>>)
    requires |kids| == 2
    ensures |r| == 2
  {
    var ks := if kids[0] == n then [c, kids[1]] else [kids[0], c];
    if ks[1] != null && ks[0] == null then [ks[1], null] else ks
  }

  lemma MaySplice<V>(g: Graph<V>, n: Node<V>, head: Node<V>)
    requires WellLinked(g, head) && n in g && n != head && |g[n].kids| == 2 && g[n].kids[1] == null
    ensures CanSplice(g, n)
  {
    assert DownOk(g, n) && UpOk(g, n, head);
  }

  lemma SpliceKeepsLinks<V>(g: Graph<V>, n: Node<V>, head: Node<V>)
    requires WellLinked(g, head) && n != head && CanSplice(g, n)
    ensures WellLinked(Spliced(g, n), head)
  {
    var p, c := g[n].parent, g[n].kids[0];
    var g' := Spliced(g, n);
    forall m | m in g'
      ensures DownOk(g', m) && UpOk(g', m, head)
    {
      assert m in g && DownOk(g, m) && UpOk(g, m, head);
      if m == p {
        SpliceAtParent(g, n, head);
      } else if m == c {
        SpliceAtKid(g, n, head);
      } else {
        SpliceElsewhere(g, n, head, m);
      }
    }
  }

  lemma SpliceAtParent<V>(g: Graph<V>, n: Node<V>, head: Node<V>)
    requires CanSplice(g, n) && UpOk(g, g[n].parent, head)
    ensures var g', p := Spliced(g, n), g[n].parent; p in g' && DownOk(g', p) && UpOk(g', p, head)
  {
    var p, c := g[n].parent, g[n].kids[0];
    var g' := Spliced(g, n);
    assert n != p && c != p && c != n;
    assert c != null ==>
               Extends(p, c) && c.key[p.width] == c.Prefix()[p.width] == n.Prefix()[p.width]
               == n.key[p.width];
    assert g'[p] == Cell(g[p].value, g[p].parent, SplicedKids(g[p].kids, n, c));
  }

  lemma SpliceAtKid<V>(g: Graph<V>, n: Node<V>, head: Node<V>)
    requires CanSplice(g, n) && g[n].kids[0] != null && head in g && head != g[n].kids[0]
    requires DownOk(g, g[n].kids[0])
    ensures var g', c := Spliced(g, n), g[n].kids[0]; c in g' && DownOk(g', c) && UpOk(g', c, head)
  {
    var p, c := g[n].parent, g[n].kids[0];
    var g' := Spliced(g, n);
    assert n != p && c != p && c != n;
    assert g'[c] == Cell(g[c].value, p, g[c].kids);
    var ks := SplicedKids(g[p].kids, n, c);
    assert ks[0] == c || ks[1] == c;
    assert g'[p].kids == ks;
    assert g[c].kids[0] != p && g[c].kids[1] != p && g[c].kids[0] != n && g[c].kids[1] != n;
  }

  lemma SpliceElsewhere<V>(g: Graph<V>, n: Node<V>, head: Node<V>, m: Node<V>)
    requires CanSplice(g, n) && m in g && m != n && m != g[n].parent && m != g[n].kids[0]
    requires DownOk(g, m) && UpOk(g, m, head)
    ensures var g' := Spliced(g, n); m in g' && DownOk(g', m) && UpOk(g', m, head)
  {
    var p, c := g[n].parent, g[n].kids[0];
    var g' := Spliced(g, n);
    assert g'[m] == g[m];
    assert g[m].kids[0] != n && g[m].kids[1] != n && (c != null ==> g[m].kids[0] != c && g[m].kids[1] != c);
    if g[m].parent == p {
      var ks := SplicedKids(g[p].kids, n, c);
      assert ks[0] == m || ks[1] == m;
      assert g'[p].kids == ks;
    }
    assert g[m].parent != n;
    Untouched(g, g', m, head);
  }

  /** A node whose cell stands and whose neighbours still point back at it keeps its shape. */
  lemma Untouched<V>(g: Graph<V>, g': Graph<V>, m: Node<V>, head: Node<V>)
    requires m in g && m in g' && g'[m] == g[m] && DownOk(g, m) && UpOk(g, m, head)
    requires g[m].kids[0] != null ==> g[m].kids[0] in g' && g'[g[m].kids[0]].parent == m
    requires g[m].kids[1] != null ==> g[m].kids[1] in g' && g'[g[m].kids[1]].parent == m
    requires g[m].parent != null ==> g[m].parent in g' && m in g'[g[m].parent].kids
    ensures DownOk(g', m) && UpOk(g', m, head)
  {
  }

  lemma SlotKept<T>(s: seq<T>, i: nat, x: T, m: T)
    requires i < |s| && m in s && s[i] != m
    ensures m in s[i := x]
  {
    var j :| 0 <= j < |s| && s[j] == m;
    assert s[i := x][j] == m;
  }
}
