/** What the pool of symbols keeps whatever the decoder reads. Once the code word has left the interval the
    bytes found are no longer those of the contexts, and the root's tree need not be ordered. But each
    context's links still form a tree of its own, its total is still the sum of its counts, and suffix links
    lead to shorter contexts. */
module StrayPool {
  import opened Words
  import opened RangeInterval
  import opened PpmModel
  import opened SymbolPool
  import opened PoolModel

  // --------------------------------------------------------------------- trees

  /** The symbols of the tree at i, and of the tree that a link of i leads to. */
  ghost function Nodes(p: Pool, n: nat, i: nat): (s: set<nat>)
    requires Closed(p, n) && i < n
    ensures i in s && forall j :: j in s ==> i <= j < n
    decreases n - i, 1
  {
    assert ClosedAt(p, i, n);
    {i} + Side(p, n, i, p[i].left) + Side(p, n, i, p[i].right)
  }

  ghost function Side(p: Pool, n: nat, i: nat, offset: nat): (s: set<nat>)
    requires Closed(p, n) && i + offset < n
    ensures (forall j :: j in s ==> i < j < n) && (offset != 0 ==> i + offset in s)
    decreases n - i, 0
  {
    if offset == 0 then {} else Nodes(p, n, i + offset)
  }

  /** No symbol is met twice. */
  ghost predicate Proper(p: Pool, n: nat, i: nat)
    requires Closed(p, n) && i < n
    decreases n - i, 1
  {
    assert ClosedAt(p, i, n);
    && SideProper(p, n, i, p[i].left) && SideProper(p, n, i, p[i].right)
    && Side(p, n, i, p[i].left) !! Side(p, n, i, p[i].right)
  }

  ghost predicate SideProper(p: Pool, n: nat, i: nat, offset: nat)
    requires Closed(p, n) && i + offset < n
    decreases n - i, 0
  {
    offset == 0 || Proper(p, n, i + offset)
  }

  ghost predicate SameKids(x: Symbol, y: Symbol) {
    x.left == y.left && x.right == y.right
  }

  lemma {:induction false} TreeFrame(p: Pool, p': Pool, n: nat, n': nat, i: nat, offset: nat)
    requires Closed(p, n) && Closed(p', n') && n <= n' && i + offset < n
    requires forall j :: j in Side(p, n, i, offset) ==> SameKids(p[j], p'[j])
    ensures Side(p', n', i, offset) == Side(p, n, i, offset)
    ensures SideProper(p', n', i, offset) == SideProper(p, n, i, offset)
    decreases n - i
  {
    if offset != 0 {
      var x := i + offset;
      assert ClosedAt(p, x, n) && x in Nodes(p, n, x);
      TreeFrame(p, p', n, n', x, p[x].left);
      TreeFrame(p, p', n, n', x, p[x].right);
    }
  }

  /** The links of a symbol of the tree lead to symbols of the tree. */
  lemma {:induction false} KidsInTree(p: Pool, n: nat, i: nat, offset: nat, k: nat)
    requires Closed(p, n) && i + offset < n && k in Side(p, n, i, offset)
    ensures k < n && ClosedAt(p, k, n)
    ensures p[k].left != 0 ==> k + p[k].left in Side(p, n, i, offset)
    ensures p[k].right != 0 ==> k + p[k].right in Side(p, n, i, offset)
    decreases n - i
  {
    var x := i + offset;
    assert ClosedAt(p, k, n) && ClosedAt(p, x, n);
    if k == x {
    } else if k in Side(p, n, x, p[x].left) {
      KidsInTree(p, n, x, p[x].left, k);
    } else {
      KidsInTree(p, n, x, p[x].right, k);
    }
  }

  /** p' has the new symbol n, without children, as a child of k. */
  ghost predicate LeafAt(p: Pool, p': Pool, n: nat, k: nat) {
    && k < n < POOL_SIZE && p'[n].left == 0 && p'[n].right == 0
    && (|| (p[k].left == 0 && p'[k].left == n - k && p'[k].right == p[k].right)
        || (p[k].right == 0 && p'[k].right == n - k && p'[k].left == p[k].left))
    && forall j :: 0 <= j < n && j != k ==> SameKids(p[j], p'[j])
  }

  lemma {:induction false} TreeGrows(p: Pool, p': Pool, n: nat, k: nat, i: nat, offset: nat)
    requires Closed(p, n) && LeafAt(p, p', n, k) && Closed(p', n + 1) && i + offset < n && k in Side(p, n, i, offset)
    requires SideProper(p, n, i, offset)
    ensures Side(p', n + 1, i, offset) == Side(p, n, i, offset) + {n} && SideProper(p', n + 1, i, offset)
    decreases n - i
  {
    hide Nodes, Proper, Side, SideProper;
    NoTree(p, n, i);
    TreeParts(p, n, i, offset);
    TreeParts(p', n + 1, i, offset);
    var x := i + offset;
    var l, r := p[x].left, p[x].right;
    if k == x {
      NewLeaf(p', n, x);
      NoTree(p, n, x);
      TreeFrame(p, p', n, n + 1, x, l);
      TreeFrame(p, p', n, n + 1, x, r);
    } else if k in Side(p, n, x, l) {
      TreeGrows(p, p', n, k, x, l);
      TreeFrame(p, p', n, n + 1, x, r);
    } else {
      TreeGrows(p, p', n, k, x, r);
      TreeFrame(p, p', n, n + 1, x, l);
    }
  }

  lemma TreeParts(p: Pool, n: nat, i: nat, offset: nat)
    requires Closed(p, n) && i + offset < n
    ensures offset != 0 ==>
              var x := i + offset;
              && ClosedAt(p, x, n)
              && Side(p, n, i, offset) == {x} + Side(p, n, x, p[x].left) + Side(p, n, x, p[x].right)
              && (SideProper(p, n, i, offset) <==>
                    SideProper(p, n, x, p[x].left) && SideProper(p, n, x, p[x].right)
                    && Side(p, n, x, p[x].left) !! Side(p, n, x, p[x].right))
  {
    if offset != 0 {
      assert ClosedAt(p, i + offset, n);
    }
  }

  lemma NoTree(p: Pool, n: nat, i: nat)
    requires Closed(p, n) && i < n
    ensures Side(p, n, i, 0) == {} && SideProper(p, n, i, 0)
  {
  }

  lemma NewLeaf(p: Pool, n: nat, x: nat)
    requires Closed(p, n + 1) && x < n && p[n].left == 0 && p[n].right == 0
    ensures Side(p, n + 1, x, n - x) == {n} && SideProper(p, n + 1, x, n - x)
  {
    TreeParts(p, n + 1, x, n - x);
    assert ClosedAt(p, n, n + 1);
  }

  // ---------------------------------------------------------------------- sums

  /** The counts of the symbols in `sel` below n. */
  ghost function Sum(p: Pool, sel: set<nat>, n: nat): nat
    requires n <= POOL_SIZE
  {
    if n == 0 then 0 else Sum(p, sel, n - 1) + if n - 1 in sel then p[n - 1].count else 0
  }

  lemma {:induction false} SumSame(p: Pool, p': Pool, sel: set<nat>, n: nat)
    requires n <= POOL_SIZE && forall j :: j in sel && j < n ==> p'[j].count == p[j].count
    ensures Sum(p', sel, n) == Sum(p, sel, n)
  {
    if n > 0 {
      SumSame(p, p', sel, n - 1);
    }
  }

  lemma {:induction false} SumOneMore(p: Pool, p': Pool, sel: set<nat>, n: nat, k: nat, d: nat)
    requires k < n <= POOL_SIZE && k in sel && p'[k].count == p[k].count + d
    requires forall j :: j in sel && j < n && j != k ==> p'[j].count == p[j].count
    ensures Sum(p', sel, n) == Sum(p, sel, n) + d
  {
    if k == n - 1 {
      SumSame(p, p', sel, n - 1);
    } else {
      SumOneMore(p, p', sel, n - 1, k, d);
    }
  }

  lemma {:induction false} SumBeyond(p: Pool, sel: set<nat>, x: nat, n: nat)
    requires n <= x && n <= POOL_SIZE
    ensures Sum(p, sel + {x}, n) == Sum(p, sel, n)
  {
    if n > 0 {
      SumBeyond(p, sel, x, n - 1);
    }
  }

  lemma {:induction false} SumOfBoth(p: Pool, a: set<nat>, b: set<nat>, n: nat)
    requires n <= POOL_SIZE && a !! b
    ensures Sum(p, a + b, n) == Sum(p, a, n) + Sum(p, b, n)
  {
    if n > 0 {
      SumOfBoth(p, a, b, n - 1);
    }
  }

  lemma {:induction false} SumOfOne(p: Pool, k: nat, n: nat)
    requires n <= POOL_SIZE
    ensures Sum(p, {k}, n) == if k < n then p[k].count else 0
  {
    if n > 0 {
      SumOfOne(p, k, n - 1);
    }
  }

  lemma {:induction false} SumOfNone(p: Pool, n: nat)
    requires n <= POOL_SIZE
    ensures Sum(p, {}, n) == 0
  {
    if n > 0 {
      SumOfNone(p, n - 1);
    }
  }

  lemma {:induction false} SumAtLeast(p: Pool, sel: set<nat>, n: nat, k: nat)
    requires k < n <= POOL_SIZE && k in sel
    ensures p[k].count <= Sum(p, sel, n)
  {
    if k < n - 1 {
      SumAtLeast(p, sel, n - 1, k);
    }
  }

  // ------------------------------------------------------------------- rescaling

  /** What enet_symbol_rescale does to the symbols in `sel`, and to no other. */
  ghost predicate HalvedIn(p: Pool, q: Pool, sel: set<nat>) {
    forall j :: 0 <= j < POOL_SIZE ==>
      && Linked(p[j], q[j])
      && if j in sel then q[j].count == p[j].count - p[j].count / 2 else q[j] == p[j]
  }

  lemma HalvedBoth(p: Pool, q: Pool, r: Pool, a: set<nat>, b: set<nat>)
    requires HalvedIn(p, q, a) && HalvedIn(q, r, b) && a !! b
    ensures HalvedIn(p, r, a + b)
  {
  }

  lemma {:induction false} SumHalved(p: Pool, q: Pool, sel: set<nat>, n: nat)
    requires n <= POOL_SIZE && HalvedIn(p, q, sel)
    ensures 2 * Sum(q, sel, n) <= Sum(p, sel, n) + n
  {
    if n > 0 {
      SumHalved(p, q, sel, n - 1);
    }
  }

  lemma SameLinksKeepTree(p: Pool, q: Pool, n: nat, i: nat, offset: nat)
    requires Closed(p, n) && SameLinks(p, q, n) && i + offset < n
    ensures Closed(q, n) && Side(q, n, i, offset) == Side(p, n, i, offset) && SideProper(q, n, i, offset) == SideProper(p, n, i, offset)
  {
    SameLinksClosed(p, q, n);
    hide Closed;
    forall j | j in Side(p, n, i, offset)
      ensures SameKids(p[j], q[j])
    {
      assert Linked(p[j], q[j]);
    }
    TreeFrame(p, q, n, n, i, offset);
  }

  lemma HalvedLinks(p: Pool, q: Pool, sel: set<nat>, n: nat)
    requires HalvedIn(p, q, sel)
    ensures SameLinks(p, q, n)
  {
  }

  /** And what it returns: the sum of their new counts. */
  ghost predicate Halving(p: Pool, q: Pool, sel: set<nat>, n: nat, total: nat)
    requires n <= POOL_SIZE
  {
    HalvedIn(p, q, sel) && total == Sum(q, sel, n) % 0x1_0000
  }

  /** A node with the tree on its left is done. */
  ghost predicate NodeHalved(p: Pool, q: Pool, left: set<nat>, n: nat, x: nat)
    requires x < n <= POOL_SIZE
  {
    HalvedIn(p, q, {x} + left) && q[x].under == (q[x].count + Sum(q, left, n)) % 0x1_0000
  }

  /** enet_symbol_rescale halves exactly the symbols of the tree and returns the sum of their new counts. */
  lemma {:induction false} HalveTreeIs(p: Pool, n: nat, i: nat, offset: nat)
    requires Closed(p, n) && i + offset < n && offset != 0 && SideProper(p, n, i, offset)
    ensures Halving(p, HalveTree(p, n, i + offset).0, Side(p, n, i, offset), n, HalveTree(p, n, i + offset).1)
    decreases n - i, 0
  {
    assert n <= POOL_SIZE;
    hide Nodes, Side, Proper, SideProper, Halving, NodeHalved, Closed, HalveNode, HalveTree, Add16, SameLinks;
    var x := i + offset;
    TreeParts(p, n, i, offset);
    HalveNodeIs(p, n, x);
    HalveTreeStep(p, n, x);
    var q, left, right := HalveNode(p, n, x), Side(p, n, x, p[x].left), Side(p, n, x, p[x].right);
    if p[x].right == 0 {
      NoTree(p, n, x);
      HalvedWithout(p, q, left, n, x);
    } else {
      SameLinksKeepTree(p, q, n, x, p[x].right);
      HalveTreeIs(q, n, x, q[x].right);
      var rest := HalveTree(q, n, x + q[x].right);
      HalvedWith(p, q, rest.0, left, right, n, x, rest.1);
    }
  }

  lemma HalvedWithout(p: Pool, q: Pool, left: set<nat>, n: nat, x: nat)
    requires x < n <= POOL_SIZE && x !in left && NodeHalved(p, q, left, n, x)
    ensures Halving(p, q, {x} + left + {}, n, q[x].under)
  {
    hide HalvedIn, Sum;
    assert {x} + left + {} == {x} + left;
    SumOfBoth(q, {x}, left, n);
    SumOfOne(q, x, n);
  }

  lemma HalvedWith(p: Pool, q: Pool, r: Pool, left: set<nat>, right: set<nat>, n: nat, x: nat, total: u16)
    requires x < n <= POOL_SIZE && x !in left && x !in right && left !! right
    requires NodeHalved(p, q, left, n, x) && Halving(q, r, right, n, total)
    ensures Halving(p, r, {x} + left + right, n, Add16(q[x].under, total))
  {
    hide Sum;
    HalvedBoth(p, q, r, {x} + left, right);
    SumOfBoth(r, {x} + left, right, n);
    SumOfBoth(r, {x}, left, n);
    SumOfOne(r, x, n);
    SumSame(q, r, left, n);
    WrapOnce(q[x].count + Sum(q, left, n), Sum(r, right, n));
  }

  lemma HalveTreeStep(p: Pool, n: nat, x: nat)
    requires Closed(p, n) && x < n
    ensures var q := HalveNode(p, n, x);
            && ClosedAt(p, x, n) && Closed(q, n) && q[x].right == p[x].right
            && HalveTree(p, n, x) == if p[x].right == 0 then (q, q[x].under)
                                     else var rest := HalveTree(q, n, x + q[x].right); (rest.0, Add16(q[x].under, rest.1))
  {
    assert ClosedAt(p, x, n);
    var q := HalveNode(p, n, x);
    SameLinksClosed(p, q, n);
    assert Linked(p[x], q[x]);
  }

  lemma WrapOnce(a: nat, b: nat)
    ensures Add16(a % 0x1_0000, b % 0x1_0000) == (a + b) % 0x1_0000
  {
  }

  lemma {:induction false} HalveNodeIs(p: Pool, n: nat, x: nat)
    requires Closed(p, n) && x < n && ClosedAt(p, x, n) && SideProper(p, n, x, p[x].left)
    ensures NodeHalved(p, HalveNode(p, n, x), Side(p, n, x, p[x].left), n, x)
    decreases n - x, 1
  {
    assert n <= POOL_SIZE;
    hide Nodes, Side, Proper, SideProper, Closed, HalveTree, HalveNode, Halving, NodeHalved, HalvedIn, Add16, SameLinks;
    var p1 := p[x := Halved(p[x])];
    HalveNodeStep(p, n, x);
    HalvedLinks(p, p1, {x}, n);
    SameLinksKeepTree(p, p1, n, x, p[x].left);
    if p[x].left == 0 {
      NoTree(p, n, x);
      NodeAlone(p, p1, n, x);
    } else {
      HalveTreeIs(p1, n, x, p1[x].left);
      var (l, total) := HalveTree(p1, n, x + p1[x].left);
      NodeWithLeft(p, p1, l, Side(p, n, x, p[x].left), n, x, total);
    }
  }

  lemma NodeAlone(p: Pool, p1: Pool, n: nat, x: nat)
    requires x < n <= POOL_SIZE && HalvedIn(p, p1, {x}) && p1[x].under == p1[x].count
    ensures NodeHalved(p, p1, {}, n, x)
  {
    SumOfNone(p1, n);
    assert {x} + {} == {x};
  }

  lemma NodeWithLeft(p: Pool, p1: Pool, l: Pool, left: set<nat>, n: nat, x: nat, total: u16)
    requires x < n <= POOL_SIZE && HalvedIn(p, p1, {x}) && p1[x].under == p1[x].count
    requires x !in left && Halving(p1, l, left, n, total)
    ensures NodeHalved(p, l[x := l[x].(under := Add16(l[x].under, total))], left, n, x)
  {
    hide Sum;
    var q := l[x := l[x].(under := Add16(l[x].under, total))];
    HalvedBoth(p, p1, l, {x}, left);
    SumSame(l, q, left, n);
    WrapOnce(l[x].count, Sum(l, left, n));
  }

  lemma HalveNodeStep(p: Pool, n: nat, x: nat)
    requires Closed(p, n) && x < n
    ensures var p1 := p[x := Halved(p[x])];
            && HalvedIn(p, p1, {x}) && Closed(p1, n) && ClosedAt(p1, x, n)
            && HalveNode(p, n, x) == if p[x].left == 0 then p1
                                     else var l := HalveTree(p1, n, x + p[x].left); l.0[x := l.0[x].(under := Add16(l.0[x].under, l.1))]
  {
    var p1 := p[x := Halved(p[x])];
    SameLinksClosed(p, p1, n);
    assert ClosedAt(p1, x, n);
  }
}
