/** The walks of the decoder and the encoder through a context's tree, without any meaning of what they find:
    each counts one symbol up. */
module StraySteps {
  import opened Words
  import opened RangeInterval
  import opened PpmModel
  import opened SymbolPool
  import opened StrayPool
  import opened StrayContexts

  /** Only sums on the way of a walk differ. */
  ghost predicate ButSums(p: Pool, q: Pool, n: nat) {
    forall j :: 0 <= j < n && j < POOL_SIZE ==> q[j] == p[j].(under := q[j].under)
  }

  lemma ButSumsClosed(p: Pool, q: Pool, n: nat)
    requires Closed(p, n) && ButSums(p, q, n)
    ensures Closed(q, n)
  {
    forall j | 0 <= j < n
      ensures ClosedAt(q, j, n)
    {
      assert ClosedAt(p, j, n);
    }
  }

  /** The walk ends at the symbol itself. */
  lemma EndsAt(p: Pool, q: Pool, r: Pool, n: nat, c: nat, i: nat, d: nat)
    requires Closed(p, n) && c < n < POOL_SIZE && i in TreeOf(p, n, c) && ButSums(p, q, n)
    requires r == q[i := q[i].(under := r[i].under, count := r[i].count)] && r[i].count == q[i].count + d
    ensures CountedUp(p, r, n, n, c, i, d, Existing)
  {
    ButSumsClosed(p, q, n);
    assert ClosedAt(q, i, n);
    ClosedAfter(q, n, i, r[i]);
    hide Closed, TreeOf;
    assert forall j :: 0 <= j < n ==> CountedSymbol(p[j], r[j], Existing);
  }

  /** The walk ends with a new symbol as a child of the last one. */
  lemma EndsBelow(p: Pool, q: Pool, r: Pool, n: nat, c: nat, i: nat, v: u8, d: u8)
    requires Closed(p, n) && c < n < POOL_SIZE && i in TreeOf(p, n, c) && ButSums(p, q, n)
    requires r == WithNew(q, n, v, d)[i := q[i].(under := r[i].under, left := r[i].left, right := r[i].right)]
    requires if r[i].left == q[i].left then q[i].right == 0 && r[i].right == n - i
             else q[i].left == 0 && r[i].left == n - i && r[i].right == q[i].right
    ensures CountedUp(p, r, n, n + 1, c, n, d, NewChild(i))
  {
    ButSumsClosed(p, q, n);
    assert ClosedAt(q, i, n);
    ClosedGrown(q, n, i, r[i], v, d);
    hide Closed, TreeOf;
    assert forall j :: 0 <= j < n ==> CountedSymbol(p[j], r[j], NewChild(i));
    assert LeafAt(p, r, n, i);
  }

  /** The context's first symbol. */
  lemma StartsTree(p: Pool, r: Pool, n: nat, c: nat, v: u8, d: u8)
    requires Closed(p, n) && c < n < POOL_SIZE && p[c].symbols == 0
    requires r == WithNew(p, n, v, d)[c := p[c].(symbols := n - c)]
    ensures CountedUp(p, r, n, n + 1, c, n, d, First)
  {
    assert ClosedAt(p, c, n);
    ClosedGrown(p, n, c, r[c], v, d);
    hide Closed, TreeOf;
    assert forall j :: 0 <= j < n ==> CountedSymbol(p[j], r[j], First);
  }

  ghost predicate Room(p: Pool, n: nat, c: nat, d: nat)
    requires Closed(p, n) && c < n
  {
    forall j :: j in TreeOf(p, n, c) ==> p[j].count + d <= 0xFF
  }

  /** ENET_CONTEXT_ENCODE counts one symbol up; the count it returns is the one before. */
  lemma {:induction false} DescendCounted(p: Pool, q: Pool, n: nat, c: nat, i: nat, v: u8, d: u8, under: u16, count: u16) returns (how: How)
    requires Closed(p, n) && c < n < POOL_SIZE && i in TreeOf(p, n, c) && ButSums(p, q, n) && Closed(q, n)
    requires Room(p, n, c, d) && count <= 1
    ensures var r := Descend(q, n, i, v, d, under, count);
            CountedUp(p, r.pool, n, r.next, c, r.symbol, d, how) && r.count + d == r.pool[r.symbol].count + count
    decreases n - i
  {
    hide Descend, CountedUp, Closed, TreeOf;
    DescendStep(q, n, i, v, d, under, count);
    assert ClosedAt(p, c, n) by { ClosedIs(p, n, c); }
    TreeKids(p, n, c, i);
    var r := Descend(q, n, i, v, d, under, count);
    var x := q[i];
    if v < x.value && x.left != 0 {
      how := DescendCounted(p, q[i := x.(under := Add16(x.under, d))], n, c, i + x.left, v, d, under, count);
    } else if v > x.value && x.right != 0 {
      how := DescendCounted(p, q, n, c, i + x.right, v, d, Add16(under, x.under), count);
    } else if v == x.value {
      EndsAt(p, q, r.pool, n, c, i, d);
      how := Existing;
    } else {
      EndsBelow(p, q, r.pool, n, c, i, v, d);
      how := NewChild(i);
    }
  }

  lemma ClosedIs(p: Pool, n: nat, c: nat)
    requires Closed(p, n) && c < n
    ensures ClosedAt(p, c, n)
  {
  }

  lemma TreeKids(p: Pool, n: nat, c: nat, i: nat)
    requires Closed(p, n) && c < n && i in TreeOf(p, n, c)
    ensures i < n && ClosedAt(p, i, n)
    ensures p[i].left != 0 ==> i + p[i].left in TreeOf(p, n, c)
    ensures p[i].right != 0 ==> i + p[i].right in TreeOf(p, n, c)
  {
    assert ClosedAt(p, c, n);
    KidsInTree(p, n, c, p[c].symbols, i);
  }

  lemma EncodeCounted(p: Pool, n: nat, c: nat, v: u8, d: u8, minimum: u8) returns (how: How)
    requires Closed(p, n) && c < n < POOL_SIZE && Room(p, n, c, d) && 0 < d && minimum <= 1 && v * minimum < BOTTOM
    ensures var r := Encode(p, n, c, v, d, minimum);
            CountedUp(p, r.pool, n, r.next, c, r.symbol, d, how) && r.count + d == r.pool[r.symbol].count + minimum
  {
    assert ClosedAt(p, c, n);
    if p[c].symbols == 0 {
      StartsTree(p, Encode(p, n, c, v, d, minimum).pool, n, c, v, d);
      how := First;
    } else {
      TreeRoot(p, n, c);
      hide CountedUp, Descend;
      how := DescendCounted(p, p, n, c, c + p[c].symbols, v, d, v * minimum, minimum);
    }
  }

  lemma TreeRoot(p: Pool, n: nat, c: nat)
    requires Closed(p, n) && c < n && p[c].symbols != 0
    ensures c + p[c].symbols in TreeOf(p, n, c)
  {
    assert ClosedAt(p, c, n);
  }
}
