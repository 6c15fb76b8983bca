/**
 The path-compressed binary trie of base/trie.hh: nodes on the heap, linked by
 `kids` and `parent`, rewired in place by insertion and removal. Its abstract
 value is a plain map from bit-string prefixes to values.
 */
module Tries {
  import opened Basics
  import opened Words
  import opened TrieGraphs

  /** The prefixes that carry a value and the nodes that carry them are in bijection. */
  ghost predicate Indexed<V>(g: Graph<V>, handles: map<Word, Node<V>>) {
    && (forall p | p in handles ::
          handles[p] in g && g[handles[p]].value.Some?
          && handles[p].width <= |handles[p].key| && handles[p].Prefix() == p)
    && (forall n | n in g && g[n].value.Some? ::
          n.width <= |n.key| && n.Prefix() in handles && handles[n.Prefix()] == n)
  }

  /** The whole invariant, except that `x` may be a valueless node that does not branch. */
  ghost predicate TrieOk<V>(g: Graph<V>, handles: map<Word, Node<V>>, bits: nat, head: Node<V>, x: Node?<V>) {
    && bits >= 1 && AllTidy(g, bits) && WellLinked(g, head) && Indexed(g, handles)
    && forall n {:trigger Needed(g, n, head)} | n in g && n != x :: Needed(g, n, head)
  }

  ghost function ContentsOf<V>(g: Graph<V>, handles: map<Word, Node<V>>): map<Word, V>
    requires Indexed(g, handles)
  {
    map p | p in handles :: g[handles[p]].value.value
  }

  /** h is a trie that binds what g binds and, through n, the new prefix p. */
  ghost predicate Planted<V>(g: Graph<V>, h: Graph<V>, handles: map<Word, Node<V>>, bits: nat, head: Node<V>,
                             p: Word, n: Node<V>, v: V)
    requires Indexed(g, handles)
  {
    && n in h && TrieOk(h, handles[p := n], bits, head, null)
    && ContentsOf(h, handles[p := n]) == ContentsOf(g, handles)[p := v]
  }

  /** Only n gained a value; nodes new in h other than n have none. */
  ghost predicate OnlyGains<V>(g: Graph<V>, h: Graph<V>, n: Node<V>) {
    && g.Keys <= h.Keys && n in h && h[n].value.Some? && (n in g ==> g[n].value.None?)
    && forall m | m in h && m != n :: h[m].value == if m in g then g[m].value else None
  }

  lemma GainKeepsIndex<V>(g: Graph<V>, h: Graph<V>, handles: map<Word, Node<V>>, n: Node<V>)
    requires Indexed(g, handles) && OnlyGains(g, h, n)
    requires n.width <= |n.key| && n.Prefix() !in handles
    ensures Indexed(h, handles[n.Prefix() := n])
    ensures ContentsOf(h, handles[n.Prefix() := n]) == ContentsOf(g, handles)[n.Prefix() := h[n].value.value]
  {
  }

  /** Only n lost its value, and perhaps valueless nodes went with it. */
  ghost predicate OnlyLoses<V>(g: Graph<V>, h: Graph<V>, n: Node<V>) {
    && h.Keys <= g.Keys && n in g && g[n].value.Some? && (n in h ==> h[n].value.None?)
    && forall m | m in g && m != n :: if m in h then h[m].value == g[m].value else g[m].value.None?
  }

  lemma LossKeepsIndex<V>(g: Graph<V>, h: Graph<V>, handles: map<Word, Node<V>>, n: Node<V>)
    requires Indexed(g, handles) && OnlyLoses(g, h, n)
    ensures n.width <= |n.key| && Indexed(h, handles - {n.Prefix()})
    ensures ContentsOf(h, handles - {n.Prefix()}) == ContentsOf(g, handles) - {n.Prefix()}
  {
  }

  lemma AddLeafOk<V>(g: Graph<V>, handles: map<Word, Node<V>>, bits: nat, head: Node<V>,
                     n: Node<V>, i: nat, leaf: Node<V>, v: V)
    requires TrieOk(g, handles, bits, head, n) && n in g && i < 2 && leaf !in g && leaf.Tidy(bits)
    requires |g[n].kids| == 2 && g[n].kids[i] == null && (n == head || g[n].value.Some? || i == 1)
    requires Extends(n, leaf) && leaf.Prefix() !in handles
    requires i == 1 ==> g[n].kids[0] != null && Parted(n, g[n].kids[0], leaf)
    ensures Planted(g, AddLeaf(g, n, i, leaf, Some(v)), handles, bits, head, leaf.Prefix(), leaf, v)
  {
    var h := AddLeaf(g, n, i, leaf, Some(v));
    AddLeafKeepsLinks(g, n, i, leaf, Some(v), head);
    GainKeepsIndex(g, h, handles, leaf);
    forall m | m in h
      ensures m.Tidy(bits) && Needed(h, m, head)
    {
      assert m in g && m != n ==> Needed(g, m, head);
      assert m in g ==> m.Tidy(bits);
    }
  }

  lemma InsertAboveOk<V>(g: Graph<V>, handles: map<Word, Node<V>>, bits: nat, head: Node<V>,
                         n: Node<V>, i: nat, mid: Node<V>)
    requires TrieOk(g, handles, bits, head, null) && CanInsertAbove(g, n, i, mid) && mid.Tidy(bits)
    ensures TrieOk(InsertAbove(g, n, i, mid), handles, bits, head, mid)
    ensures ContentsOf(InsertAbove(g, n, i, mid), handles) == ContentsOf(g, handles)
  {
    var h := InsertAbove(g, n, i, mid);
    InsertAboveKeepsLinks(g, n, i, mid, head);
    InsertAboveCells(g, n, i, mid);
    forall m | m in h
      ensures m.Tidy(bits) && (m in g ==> h[m].value == g[m].value) && (m != mid ==> Needed(h, m, head))
    {
      assert m in g ==> m.Tidy(bits) && Needed(g, m, head);
    }
  }

  lemma SetValueOk<V>(g: Graph<V>, handles: map<Word, Node<V>>, bits: nat, head: Node<V>, n: Node<V>, v: V)
    requires TrieOk(g, handles, bits, head, n) && n in g && n != head && g[n].value.None?
    requires n.Tidy(bits) && n.Prefix() !in handles
    ensures Planted(g, SetValue(g, n, Some(v)), handles, bits, head, n.Prefix(), n, v)
  {
    var h := SetValue(g, n, Some(v));
    SetValueKeepsLinks(g, n, Some(v), head);
    GainKeepsIndex(g, h, handles, n);
    forall m | m in h
      ensures m.Tidy(bits) && Needed(h, m, head)
    {
      assert m.Tidy(bits) && (m != n ==> Needed(g, m, head));
    }
  }

  lemma MidBetween<V>(n: Node<V>, mid: Node<V>, kid: Node<V>, key: Word)
    requires n.width <= |n.key| && n.Prefix() <= key
    requires n.width < mid.width < kid.width <= |kid.key| && mid.width <= |mid.key| && mid.width <= |key|
    requires mid.Prefix() == key[..mid.width] == kid.key[..mid.width]
    ensures Extends(n, mid) && Extends(mid, kid)
  {
    assert mid.Prefix() == kid.Prefix()[..mid.width];
    assert n.Prefix() == mid.Prefix()[..n.width];
  }

  lemma LeafBeside<V>(mid: Node<V>, leaf: Node<V>, kid: Node<V>, key: Word)
    requires mid.width < leaf.width <= |leaf.key| && mid.width <= |mid.key| && leaf.width <= |key|
    requires mid.Prefix() == key[..mid.width] && leaf.Prefix() == key[..leaf.width]
    requires mid.width < |kid.key| && key[mid.width] != kid.key[mid.width]
    ensures Extends(mid, leaf) && Parted(mid, kid, leaf)
  {
    assert leaf.key[mid.width] == leaf.Prefix()[mid.width] == key[mid.width];
    assert mid.Prefix() == leaf.Prefix()[..mid.width];
  }

  /** The leg to kid i of n split at mid, which either carries the value or branches off to a leaf that does. */
  ghost function SplitLegs<V>(g: Graph<V>, n: Node<V>, i: nat, mid: Node<V>, leaf: Node<V>, v: V): Graph<V>
    requires CanInsertAbove(g, n, i, mid)
  {
    var h := InsertAbove(g, n, i, mid);
    if leaf == mid then SetValue(h, mid, Some(v)) else AddLeaf(h, mid, 1, leaf, Some(v))
  }

  lemma SplitLegsOk<V>(g: Graph<V>, handles: map<Word, Node<V>>, bits: nat, head: Node<V>,
                       n: Node<V>, i: nat, mid: Node<V>, leaf: Node<V>, v: V)
    requires TrieOk(g, handles, bits, head, null) && CanInsertAbove(g, n, i, mid)
    requires mid.Tidy(bits) && leaf !in g && leaf.Tidy(bits) && leaf.Prefix() !in handles
    requires leaf == mid || (Extends(mid, leaf) && Parted(mid, g[n].kids[i], leaf))
    ensures Planted(g, SplitLegs(g, n, i, mid, leaf, v), handles, bits, head, leaf.Prefix(), leaf, v)
  {
    var h := InsertAbove(g, n, i, mid);
    assert head in g;
    InsertAboveOk(g, handles, bits, head, n, i, mid);
    assert h[mid] == Cell(None, n, [g[n].kids[i], null]);
    if leaf == mid {
      SetValueOk(h, handles, bits, head, mid, v);
    } else {
      AddLeafOk(h, handles, bits, head, mid, 1, leaf, v);
    }
  }

  // ----- removal

  ghost function Unbind<V>(handles: map<Word, Node<V>>, n: Node<V>, v: Option<V>): map<Word, Node<V>>
    requires n.width <= |n.key|
  {
    if v.Some? then handles - {n.Prefix()} else handles
  }

  /** h is a trie, but for x, that binds what g binds except what n bound. */
  ghost predicate Uprooted<V>(g: Graph<V>, h: Graph<V>, handles: map<Word, Node<V>>, bits: nat, head: Node<V>,
                              n: Node<V>, x: Node?<V>)
    requires Indexed(g, handles) && n in g && n.width <= |n.key|
  {
    && TrieOk(h, Unbind(handles, n, g[n].value), bits, head, x)
    && ContentsOf(h, Unbind(handles, n, g[n].value))
       == if g[n].value.Some? then ContentsOf(g, handles) - {n.Prefix()} else ContentsOf(g, handles)
  }

  lemma ClearValueOk<V>(g: Graph<V>, handles: map<Word, Node<V>>, bits: nat, head: Node<V>, n: Node<V>)
    requires TrieOk(g, handles, bits, head, n) && n in g && n != head && n.Tidy(bits)
    requires g[n].value.Some? && |g[n].kids| == 2 && g[n].kids[1] != null
    ensures Uprooted(g, SetValue(g, n, None), handles, bits, head, n, null)
  {
    var h := SetValue(g, n, None);
    SetValueKeepsLinks(g, n, None, head);
    LossKeepsIndex(g, h, handles, n);
    forall m | m in h
      ensures m.Tidy(bits) && Needed(h, m, head)
    {
      assert m.Tidy(bits) && (m != n ==> Needed(g, m, head));
    }
  }

  lemma SpliceValues<V>(g: Graph<V>, n: Node<V>)
    requires CanSplice(g, n)
    ensures var h := Spliced(g, n); h.Keys == g.Keys - {n} && forall m | m in h :: h[m].value == g[m].value
    ensures var h := Spliced(g, n); forall m | m in h && m != g[n].parent :: h[m].kids == g[m].kids
    ensures var h, p := Spliced(g, n), g[n].parent; p in h && h[p].kids == SplicedKids(g[p].kids, n, g[n].kids[0])
  {
    var h, p, c := Spliced(g, n), g[n].parent, g[n].kids[0];
    assert n != p && c != p;
    assert h[p] == Cell(g[p].value, g[p].parent, SplicedKids(g[p].kids, n, c));
  }

  /** After a splice only the parent may be left without need; then it keeps exactly one kid. */
  lemma SpliceAndNeed<V>(g: Graph<V>, n: Node<V>, head: Node<V>)
    requires WellLinked(g, head) && n != head && CanSplice(g, n) && Needed(g, g[n].parent, head)
    ensures var h, p := Spliced(g, n), g[n].parent;
            && p in h
            && (g[n].kids[0] != null ==> Needed(h, p, head))
            && (!Needed(h, p, head) ==> h[p].kids[0] != null && h[p].kids[1] == null)
  {
    SpliceValues(g, n);
  }

  lemma SpliceOk<V>(g: Graph<V>, handles: map<Word, Node<V>>, bits: nat, head: Node<V>, n: Node<V>)
    requires TrieOk(g, handles, bits, head, n) && n != head && CanSplice(g, n) && n.Tidy(bits)
    ensures Uprooted(g, Spliced(g, n), handles, bits, head, n, g[n].parent)
    ensures Needed(g, g[n].parent, head)
  {
    var h, p := Spliced(g, n), g[n].parent;
    SpliceKeepsLinks(g, n, head);
    SpliceValues(g, n);
    assert Needed(g, p, head);
    if g[n].value.Some? {
      LossKeepsIndex(g, h, handles, n);
    }
    SpliceKeepsOthers(g, bits, head, n);
  }

  lemma SpliceKeepsOthers<V>(g: Graph<V>, bits: nat, head: Node<V>, n: Node<V>)
    requires CanSplice(g, n) && AllTidy(g, bits) && forall m | m in g && m != n :: Needed(g, m, head)
    ensures AllTidy(Spliced(g, n), bits)
    ensures forall m | m in Spliced(g, n) && m != g[n].parent :: Needed(Spliced(g, n), m, head)
  {
    SpliceValues(g, n);
    forall m | m in Spliced(g, n)
      ensures m.Tidy(bits) && (m != g[n].parent ==> Needed(Spliced(g, n), m, head))
    {
      assert m.Tidy(bits) && Needed(g, m, head);
    }
  }

  // ----- ancestry

  /** `a` is `m` or one of its ancestors. */
  ghost predicate Above<V>(g: Graph<V>, head: Node<V>, a: Node<V>, m: Node<V>)
    requires WellLinked(g, head) && m in g
    decreases m.width
  {
    a == m || (m != head && (ParentIsSmaller(g, head, m); Above(g, head, a, g[m].parent)))
  }

  lemma ParentIsSmaller<V>(g: Graph<V>, head: Node<V>, m: Node<V>)
    requires WellLinked(g, head) && m in g && m != head
    ensures g[m].parent != null && g[m].parent in g && Extends(g[m].parent, m)
  {
    assert UpOk(g, m, head);
    assert DownOk(g, g[m].parent);
  }

  lemma {:induction false} HeadAboveAll<V>(g: Graph<V>, head: Node<V>, m: Node<V>)
    requires WellLinked(g, head) && m in g
    ensures Above(g, head, head, m)
    decreases m.width
  {
    if m == head {
    } else {
      ParentIsSmaller(g, head, m);
      HeadAboveAll(g, head, g[m].parent);
    }
  }

  /** Ancestors carry prefixes of their descendants' prefixes. */
  lemma {:induction false} AbovePrefix<V>(g: Graph<V>, head: Node<V>, a: Node<V>, m: Node<V>)
    requires WellLinked(g, head) && m in g && Above(g, head, a, m) && m.width <= |m.key|
    ensures a in g && a.width <= |a.key| && a.Prefix() <= m.Prefix()
    decreases m.width
  {
    if a == m {
    } else {
      ParentIsSmaller(g, head, m);
      AbovePrefix(g, head, a, g[m].parent);
    }
  }

  /** Anything strictly below `a` is below one of its kids. */
  lemma {:induction false} BelowSomeKid<V>(g: Graph<V>, head: Node<V>, a: Node<V>, m: Node<V>) returns (c: Node<V>)
    requires WellLinked(g, head) && m in g && Above(g, head, a, m) && a != m
    ensures a in g && c in g && c in g[a].kids && Above(g, head, c, m)
    decreases m.width
  {
    ParentIsSmaller(g, head, m);
    var p := g[m].parent;
    if p == a {
      c := m;
      assert UpOk(g, m, head);
    } else {
      c := BelowSomeKid(g, head, a, p);
    }
  }

  /** The kids part at the bit after their parent's prefix, so no key extends both. */
  lemma KidsExclude<V>(a: Node<V>, x: Node<V>, y: Node<V>, key: Word)
    requires Extends(a, x) && Extends(a, y) && Parted(a, x, y)
    ensures !(x.Prefix() <= key && y.Prefix() <= key)
  {
    assert x.Prefix()[a.width] == x.key[a.width] && y.Prefix()[a.width] == y.key[a.width];
  }

  /** Of a's kids, the one that leads to m is the only one that matches a key m matches. */
  lemma MatchLeadsDown<V>(g: Graph<V>, head: Node<V>, a: Node<V>, m: Node<V>, key: Word) returns (c: Node<V>)
    requires WellLinked(g, head) && m in g && Above(g, head, a, m) && a != m
    requires m.width <= |m.key| && m.Prefix() <= key
    ensures a in g && |g[a].kids| == 2 && c in g && c in g[a].kids && Above(g, head, c, m)
    ensures c.width <= |c.key| && c.Prefix() <= key
    ensures c == g[a].kids[1] ==> g[a].kids[0] != null && g[a].kids[0].width <= |g[a].kids[0].key|
                                  && !(g[a].kids[0].Prefix() <= key)
  {
    c := BelowSomeKid(g, head, a, m);
    AbovePrefix(g, head, c, m);
    assert DownOk(g, a);
    if c == g[a].kids[1] {
      KidsExclude(a, g[a].kids[0], c, key);
    }
  }

  // ----- the specification of lookup on maps

  /** The shortest prefix of `key`, of length at least w, that m binds. */
  function FirstBound<V>(m: map<Word, V>, key: Word, w: nat): (r: Option<Word>)
    requires w <= |key|
    ensures r.Some? ==> r.value in m && r.value <= key
    decreases |key| - w
  {
    if key[..w] in m then Some(key[..w])
    else if w == |key| then None
    else FirstBound(m, key, w + 1)
  }

  /** What a lookup of `key` finds in the map: the value of its shortest bound prefix. */
  function ShortestMatch<V>(m: map<Word, V>, key: Word): (r: Option<V>) {
    var p := FirstBound(m, key, 0);
    if p.Some? then Some(m[p.value]) else None
  }

  lemma {:induction false} FirstBoundIs<V>(m: map<Word, V>, key: Word, w: nat, v: nat)
    requires w <= v <= |key| && key[..v] in m
    requires forall p | p in m && p <= key :: v <= |p|
    ensures FirstBound(m, key, w) == Some(key[..v])
    decreases v - w
  {
    if w == v {
    } else {
      assert key[..w] <= key;
      FirstBoundIs(m, key, w + 1, v);
    }
  }

  lemma {:induction false} NothingBound<V>(m: map<Word, V>, key: Word, w: nat)
    requires w <= |key|
    requires forall p | p in m :: !(p <= key)
    ensures FirstBound(m, key, w) == None
    decreases |key| - w
  {
    assert key[..w] <= key;
    if w == |key| {
    } else {
      NothingBound(m, key, w + 1);
    }
  }

  // ----- the trie

  class Trie<V> {
    const bits: nat
    const head: Node<V>
    ghost var nodes: set<Node<V>>
    ghost var handles: map<Word, Node<V>>

    constructor (bits: nat)
      requires bits >= 1
      ensures Valid() && fresh(nodes) && Contents() == map[] && this.bits == bits
    {
      this.bits := bits;
      assert Repeat(false, bits) == Mask(bits, 0);
      head := new Node(Repeat(false, bits), Repeat(false, bits), None, 0);
      new;
      nodes, handles := {head}, map[];
    }

    ghost function Links(): Graph<V>
      reads this`nodes, nodes
    {
      map n | n in nodes :: Cell(n.value, n.parent, n.kids)
    }

    /** Every invariant, except that `x` may be a valueless node that does not branch. */
    ghost predicate ValidBut(x: Node?<V>)
      reads this, nodes
    {
      TrieOk(Links(), handles, bits, head, x)
    }

    ghost predicate Valid()
      reads this, nodes
    {
      ValidBut(null)
    }

    /** The trie as a map from prefixes to values. */
    ghost function Contents(): map<Word, V>
      requires Indexed(Links(), handles)
      reads this, nodes
    {
      ContentsOf(Links(), handles)
    }

    // ----- lookup

    method LookupHandle(key: Word) returns (h: Node?<V>)
      requires Valid() && |key| == bits
      ensures h == null ==> forall p | p in handles :: !(p <= key)
      ensures h != null ==> h in nodes && h.value.Some? && h.Tidy(bits) && h.Prefix() <= key
      ensures h != null ==> forall p | p in handles && p <= key :: h.width <= |p|
    {
      ghost var g := Links();
      var node: Node?<V> := head;
      forall p | p in handles
        ensures Above(g, head, head, handles[p])
      {
        HeadAboveAll(g, head, handles[p]);
      }
      while node != null
        invariant node != null ==> node in nodes && node.Tidy(bits) && node.Prefix() <= key
        invariant forall p | p in handles && p <= key :: node != null && Above(g, head, node, handles[p])
        decreases if node == null then 0 else 1 + bits - node.width
      {
        if node.value.Some? {
          forall p | p in handles && p <= key
            ensures node.width <= |p|
          {
            AbovePrefix(g, head, node, handles[p]);
          }
          return node;
        }
        node := Descend(node, key);
      }
      return null;
    }

    /** One step of the lookup loop: the kid that matches, or null. */
    method Descend(node: Node<V>, key: Word) returns (next: Node?<V>)
      requires Valid() && |key| == bits && node in nodes && node.value.None?
      ensures next != null ==> next in nodes && next.Tidy(bits) && next.Prefix() <= key && node.width < next.width
      ensures forall p | p in handles && p <= key && Above(Links(), head, node, handles[p]) ::
                next != null && Above(Links(), head, next, handles[p])
    {
      ghost var g := Links();
      KidFacts(node, key);
      assert node.kids[0] in node.kids && node.kids[1] in node.kids;
      if node.kids[0] != null && node.kids[0].Matches(key) {
        next := node.kids[0];
      } else if node.kids[1] != null && node.kids[1].Matches(key) {
        next := node.kids[1];
      } else {
        next := null;
      }
      forall p | p in handles && p <= key && Above(g, head, node, handles[p])
        ensures next != null && Above(g, head, next, handles[p])
      {
        var c := MatchLeadsDown(g, head, node, handles[p], key);
        assert c.Matches(key) && (c == node.kids[0] || !node.kids[0].Matches(key));
        assert next == c;
      }
    }

    lemma KidFacts(node: Node<V>, key: Word)
      requires Valid() && |key| == bits && node in nodes
      ensures |node.kids| == 2 && node.kids == Links()[node].kids
      ensures forall k | k in node.kids && k != null ::
                k in nodes && k.Tidy(bits) && node.width < k.width && (k.Matches(key) <==> k.Prefix() <= key)
    {
      assert DownOk(Links(), node);
      forall k | k in node.kids && k != null
        ensures k in nodes && k.Tidy(bits) && (k.Matches(key) <==> k.Prefix() <= key)
      {
        k.MatchesIsPrefix(key, bits);
      }
    }

    lemma LookupMeaning(h: Node<V>, key: Word)
      requires Valid() && |key| == bits
      requires h in nodes && h.value.Some? && h.Tidy(bits) && h.Prefix() <= key
      requires forall p | p in handles && p <= key :: h.width <= |p|
      ensures FirstBound(Contents(), key, 0) == Some(h.Prefix())
      ensures ShortestMatch(Contents(), key) == h.value
    {
      assert h.Prefix() == key[..h.width];
      assert Links()[h].value == h.value;
      FirstBoundIs(Contents(), key, 0, h.width);
    }

    /** The value of the shortest bound prefix of `key`, or None when no bound prefix matches. */
    method Lookup(key: Word) returns (r: Option<V>)
      requires Valid() && |key| == bits
      ensures r == ShortestMatch(Contents(), key)
    {
      var node := LookupHandle(key);
      if node != null {
        LookupMeaning(node, key);
        r := node.value;
      } else {
        NothingBound(Contents(), key, 0);
        r := None;
      }
    }

    // ----- insertion

    predicate GoesAfter(kid: Node?<V>, key: Word, newMask: Word)
      requires kid != null ==> |kid.mask| == |key| == |newMask|
    {
      kid != null && kid.Matches(key) && And(kid.mask, newMask) == kid.mask
    }

    lemma GoesAfterMeaning(kid: Node<V>, key: Word, newMask: Word, w: nat)
      requires kid.Tidy(bits) && |key| == bits && w <= bits && newMask == Mask(bits, w)
      ensures GoesAfter(kid, key, newMask) <==> kid.width <= w && kid.Prefix() <= key
    {
      kid.MatchesIsPrefix(key, bits);
      MaskTestComparesWidths(bits, kid.width, w);
    }

    /** Extends the mask while key and kid agree under it, up to the new mask. */
    method WalkLeg(key: Word, kidKey: Word, start: Word, newMask: Word, ghost s: nat, ghost w: nat)
      returns (mask: Word, ghost c: nat)
      requires bits >= 1 && |key| == |kidKey| == bits && s <= w <= bits
      requires start == Mask(bits, s) && newMask == Mask(bits, w) && key[..s] == kidKey[..s]
      ensures s <= c <= w && mask == Mask(bits, c)
      ensures key[..c] == kidKey[..c]
      ensures c == w || key[c] != kidKey[c]
    {
      var curMask, lastMask, done := start, start, false;
      ghost var n := s;
      c := s;
      while !done
        invariant s <= c <= w && lastMask == Mask(bits, c) && key[..c] == kidKey[..c]
        invariant !done ==> s <= n <= w && curMask == Mask(bits, n) && key[..n] == kidKey[..n]
        invariant done ==> c == w || key[c] != kidKey[c]
        decreases !done, w - n
      {
        lastMask, c := curMask, n;
        curMask := ExtendMask(curMask);
        ExtendMaskAddsOneBit(bits, c);
        EqualUnderMask(key, kidKey, Clip(c + 1, bits));
        MaskTestComparesWidths(bits, c, w);
        done := And(key, curMask) != And(kidKey, curMask) || lastMask == newMask;
        n := n + 1;
      }
      mask := lastMask;
    }

    /** The two assignments that hang a new leaf in a slot. */
    method HangLeaf(node: Node<V>, i: nat, leaf: Node<V>)
      requires node in nodes && leaf !in nodes && i < |node.kids| && leaf.kids == [null, null]
      modifies this`nodes, node`kids, leaf`parent
      ensures nodes == old(nodes) + {leaf}
      ensures Links() == AddLeaf(old(Links()), node, i, leaf, leaf.value)
    {
      leaf.parent := node;
      node.kids := node.kids[i := leaf];
      nodes := nodes + {leaf};
    }

    /** The four assignments that put a new node between `node` and its kid in slot i. */
    method SplitAbove(node: Node<V>, i: nat, kid: Node<V>, mid: Node<V>)
      requires node in nodes && mid !in nodes && i < |node.kids| && node.kids[i] == kid && kid in nodes && kid != node
      requires mid.kids == [null, null] && mid.value.None?
      modifies this`nodes, node`kids, kid`parent, mid`parent, mid`kids
      ensures nodes == old(nodes) + {mid} && mid.kids == [kid, null]
      ensures Links() == InsertAbove(old(Links()), node, i, mid)
    {
      mid.parent := node;
      kid.parent := mid;
      mid.kids := mid.kids[0 := kid];
      node.kids := node.kids[i := mid];
      nodes := nodes + {mid};
      ghost var h := InsertAbove(old(Links()), node, i, mid);
      assert Links()[node] == h[node] && Links()[kid] == h[kid] && Links()[mid] == h[mid];
    }

    /** One round of the walk: the kid whose prefix is a prefix of the new one, or null. */
    method GoFurther(node: Node<V>, key: Word, newMask: Word, ghost w: nat) returns (next: Node?<V>)
      requires Valid() && |key| == bits && w <= bits && newMask == Mask(bits, w) && node in nodes
      ensures next != null ==> next in nodes && next.Tidy(bits) && next.Prefix() <= key && node.width < next.width <= w
      ensures next == null ==> |node.kids| == 2 && forall k | k in node.kids && k != null ::
                k in nodes && k.Tidy(bits) && !(k.width <= w && k.Prefix() <= key)
    {
      KidFacts(node, key);
      var a, b := node.kids[0], node.kids[1];
      assert a in node.kids && b in node.kids;
      if a != null {
        GoesAfterMeaning(a, key, newMask, w);
      }
      if b != null {
        GoesAfterMeaning(b, key, newMask, w);
      }
      if GoesAfter(a, key, newMask) {
        next := a;
      } else if GoesAfter(b, key, newMask) {
        next := b;
      } else {
        next := null;
      }
    }

    /** Walks past the nodes whose prefixes are prefixes of the new one. */
    method FindSpot(key: Word, newMask: Word, ghost w: nat) returns (node: Node<V>)
      requires Valid() && |key| == bits && w <= bits && newMask == Mask(bits, w)
      ensures node in nodes && node.Tidy(bits) && node.Prefix() <= key && node.width <= w && |node.kids| == 2
      ensures forall k | k in node.kids && k != null ::
                k in nodes && k.Tidy(bits) && !(k.width <= w && k.Prefix() <= key)
    {
      node := head;
      assert head.Tidy(bits);
      while true
        invariant node in nodes && node.Tidy(bits) && node.Prefix() <= key && node.width <= w
        decreases bits - node.width
      {
        var next := GoFurther(node, key, newMask, w);
        if next == null {
          return;
        }
        node := next;
      }
    }

    method GiveValue(node: Node<V>, val: V)
      requires node in nodes
      modifies node`value
      ensures Links() == SetValue(old(Links()), node, Some(val))
    {
      node.value := Some(val);
    }

    /** Adds a valueless node on the leg to the kid in slot i, at the point c where key and kid part. */
    method AddMid(node: Node<V>, i: nat, kid: Node<V>, key: Word, curMask: Word, ghost c: nat) returns (mid: Node<V>)
      requires node in nodes && DownOk(Links(), node) && node.Tidy(bits) && i < 2
      requires node.kids[i] == kid && kid.Tidy(bits)
      requires |key| == bits && node.width < c < kid.width && curMask == Mask(bits, c)
      requires node.Prefix() <= key && key[..c] == kid.key[..c]
      modifies this`nodes, node`kids, kid`parent
      ensures fresh(mid) && nodes == old(nodes) + {mid}
      ensures mid.Tidy(bits) && mid.width == c && mid.Prefix() == key[..c]
      ensures mid.kids == [kid, null] && mid.value.None?
      ensures CanInsertAbove(old(Links()), node, i, mid)
      ensures Links() == InsertAbove(old(Links()), node, i, mid)
    {
      mid := new Node(key, curMask, None, c);
      MidBetween(node, mid, kid, key);
      SplitAbove(node, i, kid, mid);
    }

    /** Puts the value at the split point, or on a new leaf that branches off there. */
    method FinishSplit(mid: Node<V>, kid: Node<V>, key: Word, curMask: Word, newMask: Word, val: V,
                       ghost c: nat, ghost w: nat)
      returns (handle: Node<V>)
      requires |key| == bits && mid in nodes && mid.Tidy(bits) && mid.width == c && mid.Prefix() == key[..c]
               && mid.kids == [kid, null]
      requires c <= w <= bits && c < |kid.key| && (c < w ==> key[c] != kid.key[c])
      requires curMask == Mask(bits, c) && newMask == Mask(bits, w)
      modifies this`nodes, mid`value, mid`kids
      ensures if c == w then handle == mid && nodes == old(nodes) && Links() == SetValue(old(Links()), mid, Some(val))
              else && fresh(handle) && nodes == old(nodes) + {handle}
                   && Extends(mid, handle) && Parted(mid, kid, handle)
                   && Links() == AddLeaf(old(Links()), mid, 1, handle, Some(val))
      ensures handle.Tidy(bits) && handle.Prefix() == key[..w]
    {
      MaskTestComparesWidths(bits, c, w);
      if curMask == newMask {
        GiveValue(mid, val);
        handle := mid;
      } else {
        handle := new Node(key, newMask, Some(val), w);
        LeafBeside(mid, handle, kid, key);
        HangLeaf(mid, 1, handle);
      }
    }

    /** Splits the leg to the kid in slot i where it parts from the new key. */
    method SplitLeg(node: Node<V>, i: nat, kid: Node<V>, key: Word, curMask: Word, newMask: Word, val: V,
                    ghost c: nat, ghost w: nat)
      returns (ghost mid: Node<V>, handle: Node<V>)
      requires node in nodes && DownOk(Links(), node) && node.Tidy(bits) && i < 2
      requires node.kids[i] == kid && kid.Tidy(bits)
      requires |key| == bits && node.width < c <= w <= bits && c < kid.width
      requires curMask == Mask(bits, c) && newMask == Mask(bits, w)
      requires node.Prefix() <= key && key[..c] == kid.key[..c] && (c < w ==> key[c] != kid.key[c])
      modifies this`nodes, node`kids, kid`parent
      ensures fresh(mid) && fresh(handle) && nodes == old(nodes) + {mid, handle}
      ensures mid.Tidy(bits) && handle.Tidy(bits) && handle.Prefix() == key[..w]
      ensures handle == mid || (Extends(mid, handle) && Parted(mid, kid, handle))
      ensures CanInsertAbove(old(Links()), node, i, mid)
      ensures Links() == SplitLegs(old(Links()), node, i, mid, handle, val)
    {
      var newNode := AddMid(node, i, kid, key, curMask, c);
      mid := newNode;
      handle := FinishSplit(newNode, kid, key, curMask, newMask, val, c, w);
    }

    method PlantOnLeg(node: Node<V>, i: nat, kid: Node<V>, key: Word, curMask: Word, newMask: Word, val: V,
                      ghost c: nat, ghost w: nat)
      returns (handle: Node<V>)
      requires Valid() && node in nodes && node.Tidy(bits) && i < 2 && |node.kids| == 2
      requires node.kids[i] == kid && kid.Tidy(bits)
      requires |key| == bits && node.width < c <= w <= bits && c < kid.width
      requires curMask == Mask(bits, c) && newMask == Mask(bits, w)
      requires node.Prefix() <= key && key[..c] == kid.key[..c] && (c < w ==> key[c] != kid.key[c])
      requires key[..w] !in handles
      modifies this`nodes, node`kids, kid`parent
      ensures fresh(nodes - old(nodes)) && old(nodes) <= nodes
      ensures Planted(old(Links()), Links(), handles, bits, head, key[..w], handle, val)
    {
      ghost var g := Links();
      assert DownOk(g, node);
      ghost var mid;
      mid, handle := SplitLeg(node, i, kid, key, curMask, newMask, val, c, w);
      SplitLegsOk(g, handles, bits, head, node, i, mid, handle, val);
    }

    /** Hangs a new leaf for `key` in an empty slot of `node`. */
    method AttachLeaf(node: Node<V>, i: nat, key: Word, newMask: Word, val: V, ghost w: nat)
      returns (leaf: Node<V>)
      requires Valid() && node in nodes && i < 2 && |node.kids| == 2 && node.kids[i] == null
      requires |key| == bits && node.width < w <= bits && newMask == Mask(bits, w)
      requires node.Tidy(bits) && node.Prefix() <= key && key[..w] !in handles
      requires i == 1 ==>
                 && node.kids[0] != null && node.kids[0].Tidy(bits)
                 && node.kids[0].key[node.width] != key[node.width]
      modifies this`nodes, node`kids
      ensures fresh(nodes - old(nodes)) && old(nodes) <= nodes
      ensures Planted(old(Links()), Links(), handles, bits, head, key[..w], leaf, val)
    {
      ghost var g := Links();
      assert Needed(g, node, head) && DownOk(g, node);
      leaf := new Node(key, newMask, Some(val), w);
      assert leaf.key[node.width] == leaf.Prefix()[node.width] == key[node.width];
      HangLeaf(node, i, leaf);
      AddLeafOk(g, handles, bits, head, node, i, leaf, val);
    }

    /** Puts the value on a node that is already there for its prefix. */
    method FillNode(node: Node<V>, val: V)
      requires Valid() && node in nodes && node != head && node.Tidy(bits) && node.Prefix() !in handles
      modifies node`value
      ensures Planted(old(Links()), Links(), handles, bits, head, node.Prefix(), node, val)
    {
      ghost var g := Links();
      GiveValue(node, val);
      SetValueOk(g, handles, bits, head, node, val);
    }

    /** The slot of `node` the new key goes to, and how far it runs along with the kid there. */
    method ChooseLeg(node: Node<V>, key: Word, newMask: Word, ghost w: nat)
      returns (i: nat, curMask: Word, ghost c: nat)
      requires Valid() && |key| == bits && w <= bits && newMask == Mask(bits, w) && node in nodes && node.Tidy(bits)
      requires node.Prefix() <= key && node.width < w && |node.kids| == 2
      requires forall k | k in node.kids && k != null ::
                 k in nodes && k.Tidy(bits) && !(k.width <= w && k.Prefix() <= key)
      ensures i < 2
      ensures node.kids[i] == null && i == 1 ==>
                var kid := node.kids[0];
                kid != null && kid.Tidy(bits) && kid.key[node.width] != key[node.width]
      ensures node.kids[i] != null ==>
                var kid := node.kids[i];
                && kid in nodes && kid.Tidy(bits) && node.width < c <= w && c < kid.width && curMask == Mask(bits, c)
                && key[..c] == kid.key[..c] && (c < w ==> key[c] != kid.key[c])
    {
      assert DownOk(Links(), node);
      assert forall j | 0 <= j < 2 :: node.kids[j] in node.kids;
      i, curMask, c := 0, node.mask, node.width;
      while i < 2
        invariant i <= 2 && curMask == node.mask
        invariant forall j | 0 <= j < i :: node.kids[j] != null && node.kids[j].key[node.width] != key[node.width]
      {
        var kid := node.kids[i];
        if kid == null {
          return;
        }
        assert Extends(node, kid);
        assert key[..node.width] == kid.Prefix()[..node.width] == kid.key[..node.width];
        curMask, c := WalkLeg(key, kid.key, curMask, newMask, node.width, w);
        MaskTestComparesWidths(bits, c, node.width);
        if curMask != node.mask {
          AgreementCoversPrefix(kid, key, c);
          return;
        }
        i := i + 1;
      }
      assert false;
    }

    lemma AgreementCoversPrefix(kid: Node<V>, key: Word, c: nat)
      requires kid.Tidy(bits) && |key| == bits && c <= bits && key[..c] == kid.key[..c]
      ensures kid.width <= c ==> kid.Prefix() <= key
    {
      if kid.width <= c {
        assert kid.Prefix() == kid.key[..c][..kid.width] == key[..c][..kid.width];
      }
    }

    method PlantBelow(node: Node<V>, key: Word, newMask: Word, val: V, ghost w: nat) returns (handle: Node<V>)
      requires Valid() && |key| == bits && w <= bits && newMask == Mask(bits, w) && key[..w] !in handles
      requires node in nodes && node.Tidy(bits) && node.Prefix() <= key && node.width < w && |node.kids| == 2
      requires forall k | k in node.kids && k != null ::
                 k in nodes && k.Tidy(bits) && !(k.width <= w && k.Prefix() <= key)
      modifies this`nodes, nodes
      ensures fresh(nodes - old(nodes)) && old(nodes) <= nodes
      ensures Planted(old(Links()), Links(), handles, bits, head, key[..w], handle, val)
    {
      ghost var g := Links();
      var i, curMask, c := ChooseLeg(node, key, newMask, w);
      assert Links() == g;
      var kid := node.kids[i];
      if kid == null {
        handle := AttachLeaf(node, i, key, newMask, val, w);
      } else {
        handle := PlantOnLeg(node, i, kid, key, curMask, newMask, val, c, w);
      }
    }

    method Plant(key: Word, newMask: Word, val: V, ghost w: nat) returns (handle: Node<V>)
      requires Valid() && |key| == bits && 1 <= w <= bits && newMask == Mask(bits, w) && key[..w] !in handles
      modifies this`nodes, nodes
      ensures fresh(nodes - old(nodes)) && old(nodes) <= nodes
      ensures Planted(old(Links()), Links(), handles, bits, head, key[..w], handle, val)
    {
      var node := FindSpot(key, newMask, w);
      MaskTestComparesWidths(bits, node.width, w);
      if node.mask == newMask {
        assert node.Prefix() == key[..w];
        FillNode(node, val);
        handle := node;
      } else {
        handle := PlantBelow(node, key, newMask, val, w);
      }
    }

    /** Binds the first `width` bits of `key` to `val`. */
    method Insert(key: Word, width: nat, val: V) returns (handle: Node<V>)
      requires Valid() && |key| == bits && width >= 1
      requires key[..Clip(width, bits)] !in Contents()
      modifies this, nodes
      ensures Valid() && fresh(nodes - old(nodes)) && old(nodes) <= nodes
      ensures Contents() == old(Contents())[key[..Clip(width, bits)] := val]
      ensures handle in nodes && handles == old(handles)[key[..Clip(width, bits)] := handle]
    {
      var newMask := WidthMask(bits, width);
      WidthMaskIsMask(bits, width);
      ghost var w := Clip(width, bits);
      MaskedPrefix(key, w);
      handle := Plant(And(key, newMask), newMask, val, w);
      ghost var h := Links();
      handles := handles[key[..w] := handle];
      assert Links() == h;
    }

    // ----- removal

    /** Unlinks a node with at most one kid: the kid, if any, moves up to its parent. */
    method SpliceOut(node: Node<V>, parent: Node<V>)
      requires node in nodes && CanSplice(Links(), node) && node.parent == parent
      modifies this`nodes, nodes
      ensures nodes == old(nodes) - {node}
      ensures Links() == Spliced(old(Links()), node)
    {
      ghost var g := Links();
      assert DownOk(g, node) && DownOk(g, parent);
      assert node != parent;
      var kid := node.kids[0];
      if kid != null {
        kid.parent := parent;
      }
      if parent.kids[0] == node {
        parent.kids := parent.kids[0 := kid];
      } else if parent.kids[1] == node {
        parent.kids := parent.kids[1 := kid];
      } else {
        assert false;
      }
      if parent.kids[1] != null && parent.kids[0] == null {
        parent.kids := parent.kids[0 := parent.kids[1]];
        parent.kids := parent.kids[1 := null];
      }
      nodes := nodes - {node};
      ghost var h := Spliced(g, node);
      assert parent.kids == SplicedKids(g[parent].kids, node, kid);
      assert Links()[parent] == h[parent] && (kid != null ==> Links()[kid] == h[kid]);
    }

    /** Splices a node out and reports whether that left its parent without need. */
    method CutOut(node: Node<V>, parent: Node<V>) returns (orphaned: bool)
      requires ValidBut(node) && node in nodes && node != head && node.Tidy(bits)
      requires |node.kids| == 2 && node.kids[1] == null && node.parent == parent
      modifies this, nodes
      ensures nodes == old(nodes) - {node} && parent in nodes && parent.Tidy(bits) && parent.width < node.width
      ensures ValidBut(parent) && handles == Unbind(old(handles), node, old(node.value))
      ensures Contents() == if old(node.value).Some? then old(Contents()) - {node.Prefix()} else old(Contents())
      ensures orphaned ==> parent != head && parent.value.None? && |parent.kids| == 2
                           && parent.kids[0] != null && parent.kids[1] == null
      ensures !orphaned ==> Valid()
      ensures old(node.kids[0]) != null ==> !orphaned
    {
      ghost var g := Links();
      MaySplice(g, node, head);
      SpliceOk(g, handles, bits, head, node);
      SpliceAndNeed(g, node, head);
      SpliceOut(node, parent);
      ghost var h := Links();
      handles := Unbind(handles, node, g[node].value);
      assert Links() == h;
      assert UpOk(h, parent, head) && DownOk(h, parent) && parent.Tidy(bits);
      orphaned := parent.kids[1] == null && parent.value.None? && parent.parent != null;
      assert orphaned <==> !Needed(h, parent, head);
    }

    /** Takes the value off a node that branches and therefore stays. */
    method ClearNode(node: Node<V>)
      requires ValidBut(node) && node in nodes && node != head && node.Tidy(bits)
      requires node.value.Some? && |node.kids| == 2 && node.kids[1] != null
      modifies this`handles, node`value
      ensures Valid() && handles == Unbind(old(handles), node, old(node.value))
      ensures Contents() == old(Contents()) - {node.Prefix()}
    {
      ghost var g := Links();
      node.value := None;
      ghost var h := Links();
      assert h == SetValue(g, node, None);
      ClearValueOk(g, handles, bits, head, node);
      handles := handles - {node.Prefix()};
      assert Links() == h;
    }

    /**
     Unbinds the prefix of `node`. The node itself goes unless it branches; a
     valueless parent left with one kid goes too, and the recursion ends there.
     */
    method Remove(node: Node<V>) returns (val: Option<V>)
      requires ValidBut(node) && node in nodes && node != head && node.Tidy(bits)
      requires node.value.None? ==> |node.kids| == 2 && node.kids[0] != null && node.kids[1] == null
      modifies this, nodes
      ensures Valid() && val == old(node.value)
      ensures handles == Unbind(old(handles), node, old(node.value))
      ensures Contents() == if old(node.value).Some? then old(Contents()) - {node.Prefix()} else old(Contents())
      ensures old(node.value).None? ==> nodes == old(nodes) - {node}
      ensures old(nodes) - {node, old(node.parent)} <= nodes <= old(nodes)
      decreases node.width
    {
      ghost var g := Links();
      assert DownOk(g, node) && UpOk(g, node, head);
      val := node.value;
      if node.kids[1] != null {
        ClearNode(node);
        return;
      }
      var parent := node.parent;
      var orphaned := CutOut(node, parent);
      if orphaned {
        var _ := Remove(parent);
      }
    }

    /** Removes the shortest bound prefix of `key`, if there is one, and returns its value. */
    method RemoveKey(key: Word) returns (val: Option<V>)
      requires Valid() && |key| == bits
      modifies this, nodes
      ensures Valid() && nodes <= old(nodes)
      ensures val == old(ShortestMatch(Contents(), key))
      ensures Contents() == Without(old(Contents()), key)
      ensures forall p | p in handles :: p in old(handles) && handles[p] == old(handles)[p]
    {
      var handle := LookupHandle(key);
      if handle == null {
        NothingBound(Contents(), key, 0);
        return None;
      }
      LookupMeaning(handle, key);
      val := RemoveBound(handle);
    }

    /** Removes the prefix of a node that has a value. */
    method RemoveBound(node: Node<V>) returns (val: Option<V>)
      requires Valid() && node in nodes && node.value.Some? && node.Tidy(bits)
      modifies this, nodes
      ensures Valid() && val == old(node.value) && nodes <= old(nodes)
      ensures handles == old(handles) - {node.Prefix()} && Contents() == old(Contents()) - {node.Prefix()}
    {
      assert Links()[node].value.Some?;
      val := Remove(node);
    }
  }

  function Without<V>(m: map<Word, V>, key: Word): map<Word, V> {
    var p := FirstBound(m, key, 0);
    if p.Some? then m - {p.value} else m
  }

  // ----- whole runs

  /** Take removes by key, Drop through the handle that an earlier Put returned. */
  datatype Command<V> = Put(key: Word, width: nat, val: V) | Get(key: Word) | Take(key: Word) | Drop(put: nat)

  /** What is bound, the prefix that each Put bound, and the Puts whose binding is still there. */
  datatype Book<V> = Book(m: map<Word, V>, prefixes: seq<Word>, live: set<nat>)

  ghost function Struck<V>(b: Book<V>, p: Word): Book<V> {
    Book(b.m - {p}, b.prefixes, set j | j in b.live && j < |b.prefixes| && b.prefixes[j] != p)
  }

  /** Keys have the trie's number of bits, nothing is bound twice and no handle outlives its binding. */
  ghost predicate Fits<V>(bits: nat, cmd: Command<V>, b: Book<V>) {
    match cmd
    case Put(key, width, _) => |key| == bits && width >= 1 && key[..Clip(width, bits)] !in b.m
    case Get(key) => |key| == bits
    case Take(key) => |key| == bits
    case Drop(put) => put in b.live && put < |b.prefixes| && b.prefixes[put] in b.m
  }

  ghost predicate Legal<V>(bits: nat, cmds: seq<Command<V>>, b: Book<V>) {
    cmds == [] || (Fits(bits, cmds[0], b) && Legal(bits, cmds[1..], After(bits, cmds[0], b)))
  }

  /** The commands as a plain map executes them. */
  ghost function After<V>(bits: nat, cmd: Command<V>, b: Book<V>): Book<V>
    requires Fits(bits, cmd, b)
  {
    match cmd
    case Put(key, width, val) =>
      var p := key[..Clip(width, bits)];
      Book(b.m[p := val], b.prefixes + [p], b.live + {|b.prefixes|})
    case Get(_) => b
    case Take(key) =>
      var p := FirstBound(b.m, key, 0);
      if p.Some? then Struck(b, p.value) else b
    case Drop(put) => Struck(b, b.prefixes[put])
  }

  ghost function Answer<V>(bits: nat, cmd: Command<V>, b: Book<V>): Option<V>
    requires Fits(bits, cmd, b)
  {
    match cmd
    case Put(_, _, _) => None
    case Get(key) => ShortestMatch(b.m, key)
    case Take(key) => ShortestMatch(b.m, key)
    case Drop(put) => Some(b.m[b.prefixes[put]])
  }

  ghost function Outputs<V>(bits: nat, cmds: seq<Command<V>>, b: Book<V>): seq<Option<V>>
    requires Legal(bits, cmds, b)
  {
    if cmds == [] then []
    else [Answer(bits, cmds[0], b)] + Outputs(bits, cmds[1..], After(bits, cmds[0], b))
  }

  /** The trie binds what the book says, and the handle of a live Put is the node of its prefix. */
  ghost predicate Keeps<V>(handles: map<Word, Node<V>>, given: seq<Node<V>>, b: Book<V>) {
    && |given| == |b.prefixes|
    && forall j | j in b.live :: j < |given| && b.prefixes[j] in handles && handles[b.prefixes[j]] == given[j]
  }

  lemma PutKeeps<V>(handles: map<Word, Node<V>>, given: seq<Node<V>>, b: Book<V>, p: Word, node: Node<V>, val: V)
    requires Keeps(handles, given, b) && p !in handles
    ensures Keeps(handles[p := node], given + [node], Book(b.m[p := val], b.prefixes + [p], b.live + {|b.prefixes|}))
  {
  }

  lemma StruckKeeps<V>(handles: map<Word, Node<V>>, h: map<Word, Node<V>>, given: seq<Node<V>>, b: Book<V>, p: Word)
    requires Keeps(handles, given, b) && h.Keys == handles.Keys - {p} && forall q | q in h :: h[q] == handles[q]
    ensures Keeps(h, given, Struck(b, p))
  {
  }

  /** Removes through a handle that is still good. */
  method DropHandle<V>(t: Trie<V>, node: Node<V>, ghost p: Word) returns (out: Option<V>)
    requires t.Valid() && p in t.handles && t.handles[p] == node
    modifies t, t.nodes
    ensures t.Valid() && t.nodes <= old(t.nodes)
    ensures out == Some(old(t.Contents())[p]) && t.Contents() == old(t.Contents()) - {p}
    ensures t.handles == old(t.handles) - {p}
  {
    assert t.Links()[node].value.Some? && node.Prefix() == p && node.Tidy(t.bits);
    out := t.RemoveBound(node);
  }

  method Execute<V>(t: Trie<V>, cmd: Command<V>, given: seq<Node<V>>, ghost b: Book<V>)
    returns (out: Option<V>, now: seq<Node<V>>)
    requires t.Valid() && t.Contents() == b.m && Keeps(t.handles, given, b) && Fits(t.bits, cmd, b)
    modifies t, t.nodes
    ensures t.Valid() && fresh(t.nodes - old(t.nodes))
    ensures out == Answer(t.bits, cmd, b)
    ensures var b' := After(t.bits, cmd, b);
            t.Contents() == b'.m && Keeps(t.handles, now, b')
  {
    now := given;
    match cmd
    case Put(key, width, val) =>
      ghost var handles := t.handles;
      var node := t.Insert(key, width, val);
      out, now := None, given + [node];
      PutKeeps(handles, given, b, key[..Clip(width, t.bits)], node, val);
    case Get(key) =>
      out := t.Lookup(key);
    case Take(key) =>
      ghost var handles, p := t.handles, FirstBound(b.m, key, 0);
      out := t.RemoveKey(key);
      assert t.handles.Keys == t.Contents().Keys;
      if p.Some? {
        StruckKeeps(handles, t.handles, given, b, p.value);
      } else {
        assert t.handles == handles;
      }
    case Drop(put) =>
      ghost var handles := t.handles;
      out := DropHandle(t, given[put], b.prefixes[put]);
      StruckKeeps(handles, t.handles, given, b, b.prefixes[put]);
  }

  lemma NextCommand<V>(bits: nat, cmds: seq<Command<V>>, i: nat, b: Book<V>, outs: seq<Option<V>>)
    requires i < |cmds| && Legal(bits, cmds[i..], b)
    ensures Fits(bits, cmds[i], b) && Legal(bits, cmds[i + 1..], After(bits, cmds[i], b))
    ensures outs + Outputs(bits, cmds[i..], b)
            == outs + [Answer(bits, cmds[i], b)] + Outputs(bits, cmds[i + 1..], After(bits, cmds[i], b))
  {
    var rest := cmds[i..];
    assert rest[0] == cmds[i] && rest[1..] == cmds[i + 1..];
  }

  /** Any run of insertions, lookups and removals, by key or handle, answers as the plain map does. */
  method Replay<V>(bits: nat, cmds: seq<Command<V>>) returns (outs: seq<Option<V>>)
    requires bits >= 1 && Legal(bits, cmds, Book(map[], [], {}))
    ensures outs == Outputs(bits, cmds, Book(map[], [], {}))
  {
    var t := new Trie<V>(bits);
    ghost var b: Book<V> := Book(map[], [], {});
    var given: seq<Node<V>> := [];
    outs := [];
    var i := 0;
    while i < |cmds|
      invariant 0 <= i <= |cmds|
      invariant t.Valid() && fresh(t) && fresh(t.nodes) && t.bits == bits
      invariant t.Contents() == b.m && Keeps(t.handles, given, b)
      invariant Legal(bits, cmds[i..], b)
      invariant Outputs(bits, cmds, Book(map[], [], {})) == outs + Outputs(bits, cmds[i..], b)
    {
      NextCommand(bits, cmds, i, b, outs);
      var out, now := Execute(t, cmds[i], given, b);
      outs, given, b := outs + [out], now, After(bits, cmds[i], b);
      i := i + 1;
    }
  }
}
