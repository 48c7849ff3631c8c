/** A pool that represents a model has what the pool keeps afterwards. */
module StrayStart {
  import opened Words
  import opened RangeInterval
  import opened PpmModel
  import opened SymbolPool
  import opened PoolModel
  import opened StrayPool
  import opened StrayContexts

  /** The symbols below i with bytes in [lo, hi) form a tree, and their counts are the table's. */
  lemma {:induction false} ChildTree(p: Pool, names: Names, s: Context, counts: Counts, i: nat, offset: nat, lo: nat, hi: nat)
    requires Closed(p, |names|) && i + offset < |names| && lo <= hi <= 256
    requires Child(p, names, s, counts, i, offset, lo, hi)
    ensures SideProper(p, |names|, i, offset)
    ensures Sum(p, Side(p, |names|, i, offset), |names|) == Below(counts, hi) - Below(counts, lo)
    ensures forall j :: j in Side(p, |names|, i, offset) ==>
              InRange(p, names, s, lo, hi, j) && 0 < p[j].count == counts[p[j].value]
    decreases |names| - i
  {
    var n := |names|;
    hide Below;
    if offset == 0 {
      SumOfNone(p, n);
      ZerosBelow(counts, lo, hi);
    } else {
      var x := i + offset;
      var v: nat := p[x].value;
      assert ClosedAt(p, x, n);
      ChildTree(p, names, s, counts, x, p[x].left, lo, v);
      ChildTree(p, names, s, counts, x, p[x].right, v + 1, hi);
      BelowOne(counts, v);
      TreeSum(p, n, i, offset);
    }
  }

  lemma TreeSum(p: Pool, n: nat, i: nat, offset: nat)
    requires Closed(p, n) && i + offset < n && offset != 0 && ClosedAt(p, i + offset, n)
    requires var x := i + offset; Side(p, n, x, p[x].left) !! Side(p, n, x, p[x].right)
    ensures var x := i + offset;
            Sum(p, Side(p, n, i, offset), n) == p[x].count + Sum(p, Side(p, n, x, p[x].left), n) + Sum(p, Side(p, n, x, p[x].right), n)
  {
    var x := i + offset;
    var left, right := Side(p, n, x, p[x].left), Side(p, n, x, p[x].right);
    TreeParts(p, n, i, offset);
    SumOfBoth(p, {x} + left, right, n);
    SumOfBoth(p, {x}, left, n);
    SumOfOne(p, x, n);
  }

  lemma BelowOne(counts: Counts, v: nat)
    requires v < 256
    ensures Below(counts, v + 1) == Below(counts, v) + counts[v]
  {
  }

  lemma {:induction false} ZerosBelow(counts: Counts, lo: nat, hi: nat)
    requires lo <= hi <= 256 && AllZero(counts, lo, hi)
    ensures Below(counts, hi) == Below(counts, lo)
  {
    if lo < hi {
      ZerosBelow(counts, lo, hi - 1);
    }
  }

  /** The context in whose tree a symbol with this name is. */
  ghost function Home(names: Names, j: nat): nat
    requires j < |names|
  {
    if names[j] != [] && names[j][..|names[j]| - 1] in names then
      var c: nat :| c < |names| && names[c] == names[j][..|names[j]| - 1];
      c
    else 0
  }

  lemma HomeIs(names: Names, c: nat, j: nat, v: u8)
    requires Distinct(names) && c < |names| && j < |names| && names[j] == names[c] + [v]
    ensures Home(names, j) == c
  {
    assert names[j][..|names[j]| - 1] == names[c];
    var h := Home(names, j);
    SameName(names, h, c);
  }

  lemma SameName(names: Names, a: nat, b: nat)
    requires Distinct(names) && a < |names| && b < |names|
    ensures names[a] == names[b] ==> a == b
  {
  }

  ghost function PlacesOf(names: Names): (places: seq<Place>)
    ensures |places| == |names|
  {
    seq(|names|, j requires 0 <= j < |names| => Place(Home(names, j), |names[j]|))
  }

  lemma ContextIsSound(p: Pool, names: Names, m: Model, c: nat)
    requires Represents(p, names, m, {}) && m.Ok() && c < |names|
    ensures ContextSound(p, |names|, PlacesOf(names), c)
  {
    GetOk(m, names[c]);
    RootIsFirst(p, names, m, {}, c);
    assert ClosedAt(p, c, |names|);
    hide AllKnown, AllParents, AllNamed, AllContexts, TableOk, TreeOf;
    TreeIsOk(p, names, c, m.Get(names[c]));
    TableIsSummed(p, names, c, m.Get(names[c]));
  }

  lemma TreeIsOk(p: Pool, names: Names, c: nat, t: Table)
    requires c < |names| <= POOL_SIZE && Closed(p, |names|) && Distinct(names) && ContextAt(p, names, c, t)
    ensures TreeOk(p, |names|, PlacesOf(names), c)
  {
    assert ClosedAt(p, c, |names|);
    ChildTree(p, names, names[c], t.counts, c, p[c].symbols, 0, 256);
    hide Below, Subtree, Side, SideProper;
    forall j | j in TreeOf(p, |names|, c)
      ensures PlacesOf(names)[j] == Place(c, PlacesOf(names)[c].order + 1)
    {
      assert InRange(p, names, names[c], 0, 256, j);
      HomeIs(names, c, j, p[j].value);
    }
  }

  lemma TableIsSummed(p: Pool, names: Names, c: nat, t: Table)
    requires c < |names| <= POOL_SIZE && Closed(p, |names|) && ContextAt(p, names, c, t) && TableOk(names[c], t)
    requires c == 0 <==> names[c] == []
    ensures Summed(p, |names|, c)
  {
    assert ClosedAt(p, c, |names|);
    ChildTree(p, names, names[c], t.counts, c, p[c].symbols, 0, 256);
    BelowNothing(t.counts);
    hide Below, Subtree, Side, SideProper;
    forall j | j in TreeOf(p, |names|, c)
      ensures p[j].count <= 0xFF - DeltaAt(c)
    {
      assert InRange(p, names, names[c], 0, 256, j);
    }
  }

  lemma BelowNothing(counts: Counts)
    ensures Below(counts, 0) == 0
  {
  }

  /** The decoder's pool before a byte is sound, and the order of a symbol is the length of its name. */
  lemma RepresentsSound(p: Pool, names: Names, m: Model)
    requires Represents(p, names, m, {}) && m.Ok()
    ensures Sound(p, |names|, PlacesOf(names))
  {
    forall c | 0 <= c < |names|
      ensures ContextSound(p, |names|, PlacesOf(names), c)
    {
      ContextIsSound(p, names, m, c);
    }
    hide ContextSound, AllContexts, AllKnown, AllNamed;
    forall j | 0 < j < |names|
      ensures 0 < |names[j]| && p[j].parent < |names| && |names[p[j].parent]| < |names[j]|
    {
      assert ParentAt(p, names, j);
    }
  }
}
