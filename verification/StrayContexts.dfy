/** The contexts of the pool when the stream has gone astray: totals that are the sums of their parts, and
    suffix links that lead to shorter contexts. */
module StrayContexts {
  import opened Words
  import opened RangeInterval
  import opened PpmModel
  import opened SymbolPool
  import opened StrayPool

  /** The context in whose tree a symbol is, and the order of the context that it is itself. */
  datatype Place = Place(home: nat, order: nat)

  function DeltaAt(c: nat): u8 {
    if c == 0 then SYMBOL_DELTA else SUBCONTEXT_SYMBOL_DELTA
  }

  function MinimumAt(c: nat): u8 {
    if c == 0 then 1 else 0
  }

  ghost function TreeOf(p: Pool, n: nat, c: nat): (s: set<nat>)
    requires Closed(p, n) && c < n
    ensures forall j :: j in s ==> c < j < n
  {
    assert ClosedAt(p, c, n);
    Side(p, n, c, p[c].symbols)
  }

  ghost predicate TreeOk(p: Pool, n: nat, places: seq<Place>, c: nat)
    requires Closed(p, n) && c < n <= |places|
  {
    assert ClosedAt(p, c, n);
    && SideProper(p, n, c, p[c].symbols)
    && forall j :: j in TreeOf(p, n, c) ==> places[j] == Place(c, places[c].order + 1) && 0 < p[j].count
  }

  /** The total is the sum of its parts. */
  ghost predicate Summed(p: Pool, n: nat, c: nat)
    requires Closed(p, n) && c < n
  {
    && p[c].total == p[c].escapes + Sum(p, TreeOf(p, n, c), n) + 256 * MinimumAt(c)
    && p[c].total <= BOTTOM - 0x100 && (c == 0 ==> 0 < p[c].escapes)
    && forall j :: j in TreeOf(p, n, c) ==> p[j].count <= 0xFF - DeltaAt(c)
  }

  ghost predicate ContextSound(p: Pool, n: nat, places: seq<Place>, c: nat)
    requires Closed(p, n) && c < n <= |places|
  {
    TreeOk(p, n, places, c) && Summed(p, n, c)
  }

  /** Every suffix link leads to a context of lower order. */
  ghost predicate Led(p: Pool, n: nat, places: seq<Place>) {
    && 0 < n == |places| && n <= POOL_SIZE && places[0].order == 0
    && forall j :: 0 < j < n ==> 0 < places[j].order && p[j].parent < n && places[p[j].parent].order < places[j].order
  }

  ghost predicate Sound(p: Pool, n: nat, places: seq<Place>) {
    Closed(p, n) && Led(p, n, places) && forall c :: 0 <= c < n ==> ContextSound(p, n, places, c)
  }

  /** While the context c is updated. */
  ghost predicate ButOne(p: Pool, n: nat, places: seq<Place>, c: nat) {
    && Closed(p, n) && Led(p, n, places) && c < n && TreeOk(p, n, places, c)
    && forall o :: 0 <= o < n && o != c ==> ContextSound(p, n, places, o)
  }

  /** The count of `sym` has gone up and the total of its context has not. */
  ghost predicate Due(p: Pool, n: nat, c: nat, sym: nat)
    requires Closed(p, n) && c < n
  {
    && p[c].total + DeltaAt(c) == p[c].escapes + Sum(p, TreeOf(p, n, c), n) + 256 * MinimumAt(c)
    && p[c].total <= BOTTOM - 0x100 && (c == 0 ==> 0 < p[c].escapes)
    && sym in TreeOf(p, n, c) && forall j :: j in TreeOf(p, n, c) && j != sym ==> p[j].count <= 0xFF - DeltaAt(c)
  }

  lemma OneIsSound(p: Pool, n: nat, places: seq<Place>, c: nat)
    requires ButOne(p, n, places, c) && Summed(p, n, c)
    ensures Sound(p, n, places)
  {
    hide TreeOk, Summed, Closed, Led;
  }

  lemma SoundIsOne(p: Pool, n: nat, places: seq<Place>, c: nat)
    requires Sound(p, n, places) && c < n
    ensures ButOne(p, n, places, c) && Summed(p, n, c)
  {
    hide TreeOk, Summed, Closed;
    assert ContextSound(p, n, places, c);
  }

  // ---------------------------------------------------------------- counting a symbol up

  /** How a symbol came to be counted: it was there, is the first of its context, or a new child of k. */
  datatype How = Existing | First | NewChild(k: nat)

  function PlacesAfter(places: seq<Place>, c: nat, n: nat, next: nat): seq<Place>
    requires c < |places|
  {
    if next == n then places else places + [Place(c, places[c].order + 1)]
  }

  /** A walk in the tree of c counted `sym` up by d and changed nothing else but sums on its way. */
  ghost predicate CountedUp(p: Pool, p': Pool, n: nat, next: nat, c: nat, sym: nat, d: nat, how: How)
    requires Closed(p, n) && c < n
  {
    && n < POOL_SIZE && Closed(p', next)
    && (if how.Existing? then next == n && sym in TreeOf(p, n, c) else next == n + 1 && sym == n && p'[n] == NewSymbol(p'[n].value, p'[n].count) && p'[n].count == d)
    && (how.First? ==> p[c].symbols == 0)
    && (how.NewChild? ==> how.k in TreeOf(p, n, c) && LeafAt(p, p', n, how.k))
    && (forall j :: 0 <= j < n ==> CountedSymbol(p[j], p'[j], how))
    && (forall j :: 0 <= j < n ==> p'[j].symbols == if how.First? && j == c then n - c else p[j].symbols)
    && forall j :: 0 <= j < n ==> p'[j].count == if how.Existing? && j == sym then p[j].count + d else p[j].count
  }

  ghost predicate CountedSymbol(x: Symbol, y: Symbol, how: How) {
    y == x.(under := y.under, count := y.count, symbols := y.symbols,
            left := if how.NewChild? then y.left else x.left, right := if how.NewChild? then y.right else x.right)
  }

  /** A context whose tree was not touched. */
  lemma OtherContext(p: Pool, p': Pool, n: nat, next: nat, places: seq<Place>, places': seq<Place>, o: nat)
    requires Closed(p, n) && Closed(p', next) && n <= next && o < n <= |places| && places <= places' && next <= |places'|
    requires ContextSound(p, n, places, o)
    requires forall j :: j in TreeOf(p, n, o) ==> SameKids(p[j], p'[j]) && p[j].count == p'[j].count
    requires p'[o].symbols == p[o].symbols && p'[o].total == p[o].total && p'[o].escapes == p[o].escapes
    ensures ContextSound(p', next, places', o)
  {
    assert ClosedAt(p, o, n) && ClosedAt(p', o, next);
    TreeFrame(p, p', n, next, o, p[o].symbols);
    hide Side, SideProper, Closed;
    SumSame(p, p', TreeOf(p, n, o), n);
    SumFurther(p', TreeOf(p, n, o), n, next);
  }

  lemma {:induction false} SumFurther(p: Pool, sel: set<nat>, n: nat, next: nat)
    requires n <= next <= POOL_SIZE && forall j :: j in sel ==> j < n
    ensures Sum(p, sel, next) == Sum(p, sel, n)
  {
    if n < next {
      SumFurther(p, sel, n, next - 1);
    }
  }

  /** A new symbol is a context of which nothing is known. */
  lemma NewContext(p: Pool, n: nat, places: seq<Place>)
    requires 0 < n && Closed(p, n + 1) && n + 1 <= |places| && p[n] == NewSymbol(p[n].value, p[n].count)
    ensures ContextSound(p, n + 1, places, n)
  {
    NoTree(p, n + 1, n);
    SumOfNone(p, n + 1);
  }

  lemma LedAfter(p: Pool, p': Pool, n: nat, next: nat, places: seq<Place>, c: nat, sym: nat, d: nat, how: How)
    requires Closed(p, n) && Led(p, n, places) && c < n && CountedUp(p, p', n, next, c, sym, d, how)
    ensures Led(p', next, PlacesAfter(places, c, n, next))
  {
    hide Closed, TreeOf;
    var places' := PlacesAfter(places, c, n, next);
    forall j | 0 < j < next
      ensures 0 < places'[j].order && p'[j].parent < next && places'[p'[j].parent].order < places'[j].order
    {
      assert j < n ==> CountedSymbol(p[j], p'[j], how);
    }
  }

  lemma OthersAfter(p: Pool, p': Pool, n: nat, next: nat, places: seq<Place>, c: nat, sym: nat, d: nat, how: How, o: nat)
    requires ButOne(p, n, places, c) && o < next && o != c && CountedUp(p, p', n, next, c, sym, d, how)
    ensures next <= |PlacesAfter(places, c, n, next)| && ContextSound(p', next, PlacesAfter(places, c, n, next), o)
  {
    hide Side, Summed, Sum;
    if o < n {
      assert ContextSound(p, n, places, o) && CountedSymbol(p[o], p'[o], how);
      forall j | j in TreeOf(p, n, o)
        ensures SameKids(p[j], p'[j]) && p[j].count == p'[j].count
      {
        assert places[j].home == o && CountedSymbol(p[j], p'[j], how);
        assert how.NewChild? ==> places[how.k].home == c;
        assert how.Existing? ==> places[sym].home == c;
      }
      hide Closed;
      OtherContext(p, p', n, next, places, PlacesAfter(places, c, n, next), o);
    } else {
      NewContext(p', n, PlacesAfter(places, c, n, next));
    }
  }

  /** The tree of c afterwards. */
  lemma TreeAfter(p: Pool, p': Pool, n: nat, next: nat, places: seq<Place>, c: nat, sym: nat, d: nat, how: How)
    requires Closed(p, n) && c < n <= |places| && TreeOk(p, n, places, c) && CountedUp(p, p', n, next, c, sym, d, how)
    ensures TreeOf(p', next, c) == TreeOf(p, n, c) + {sym} && SideProper(p', next, c, p'[c].symbols)
    ensures sym in TreeOf(p', next, c) && Sum(p', TreeOf(p', next, c), next) == Sum(p, TreeOf(p, n, c), n) + d
  {
    assert ClosedAt(p, c, n) && ClosedAt(p', c, next);
    var tree := TreeOf(p, n, c);
    forall j | 0 <= j < n
      ensures !how.NewChild? ==> SameKids(p[j], p'[j])
    {
      assert CountedSymbol(p[j], p'[j], how);
    }
    hide Side, SideProper, Sum, Closed, CountedSymbol;
    match how
    case Existing =>
      TreeFrame(p, p', n, n, c, p[c].symbols);
      SumOneMore(p, p', tree, n, sym, d);
      assert tree + {sym} == tree;
    case First =>
      NewLeaf(p', n, c);
      NoTree(p, n, c);
      SumOfNone(p, n);
      SumOfOne(p', n, n + 1);
    case NewChild(k) =>
      TreeGrows(p, p', n, k, c, p[c].symbols);
      SumWithLeaf(p, p', tree, n, d);
  }

  lemma SumWithLeaf(p: Pool, p': Pool, tree: set<nat>, n: nat, d: nat)
    requires n < POOL_SIZE && p'[n].count == d && forall j :: 0 <= j < n ==> p'[j].count == p[j].count
    ensures Sum(p', tree + {n}, n + 1) == Sum(p, tree, n) + d
  {
    SumSame(p, p', tree, n);
    SumBeyond(p', tree, n, n);
  }

  lemma TreeOkAfter(p: Pool, p': Pool, n: nat, next: nat, places: seq<Place>, c: nat, sym: nat, d: nat, how: How)
    requires Closed(p, n) && n == |places| && c < n && TreeOk(p, n, places, c) && CountedUp(p, p', n, next, c, sym, d, how) && 0 < d
    ensures next <= |PlacesAfter(places, c, n, next)| && TreeOk(p', next, PlacesAfter(places, c, n, next), c)
  {
    TreeAfter(p, p', n, next, places, c, sym, d, how);
    hide Side, SideProper, Sum, TreeOf, Closed, LeafAt, CountedSymbol;
  }

  lemma DueAfter(p: Pool, p': Pool, n: nat, next: nat, places: seq<Place>, c: nat, sym: nat, how: How)
    requires Closed(p, n) && n == |places| && c < n && TreeOk(p, n, places, c) && Summed(p, n, c)
    requires CountedUp(p, p', n, next, c, sym, DeltaAt(c), how)
    ensures Due(p', next, c, sym)
  {
    TreeAfter(p, p', n, next, places, c, sym, DeltaAt(c), how);
    hide Side, SideProper, Sum, TreeOf, Closed, LeafAt, TreeOk;
    assert CountedSymbol(p[c], p'[c], how);
  }

  /** Counting a symbol up leaves all sound but for the total of its context. */
  lemma CountedSound(p: Pool, p': Pool, n: nat, next: nat, places: seq<Place>, c: nat, sym: nat, how: How)
    requires Sound(p, n, places) && c < n && CountedUp(p, p', n, next, c, sym, DeltaAt(c), how)
    ensures ButOne(p', next, PlacesAfter(places, c, n, next), c) && Due(p', next, c, sym)
  {
    SoundIsOne(p, n, places, c);
    LedAfter(p, p', n, next, places, c, sym, DeltaAt(c), how);
    TreeOkAfter(p, p', n, next, places, c, sym, DeltaAt(c), how);
    DueAfter(p, p', n, next, places, c, sym, how);
    hide Side, SideProper, Sum, TreeOf, Closed, ContextSound, TreeOk, Due, Led, CountedUp;
    forall o | 0 <= o < next && o != c
      ensures ContextSound(p', next, PlacesAfter(places, c, n, next), o)
    {
      OthersAfter(p, p', n, next, places, c, sym, DeltaAt(c), how, o);
    }
  }

  // ------------------------------------------------------------------- settling a context

  /** A change that leaves the trees and counts of the other contexts, and all suffix links, as they were. */
  lemma ButOneKept(p: Pool, q: Pool, n: nat, places: seq<Place>, c: nat)
    requires ButOne(p, n, places, c) && Closed(q, n)
    requires forall j :: 0 <= j < n ==> SameKids(p[j], q[j]) && p[j].symbols == q[j].symbols && p[j].parent == q[j].parent
    requires forall j :: 0 <= j < n && j != c ==> p[j].total == q[j].total && p[j].escapes == q[j].escapes
    requires forall j :: 0 <= j < n && j !in TreeOf(p, n, c) ==> p[j].count == q[j].count
    requires forall j :: j in TreeOf(p, n, c) ==> 0 < q[j].count
    ensures ButOne(q, n, places, c) && TreeOf(q, n, c) == TreeOf(p, n, c)
  {
    hide Side, SideProper, Closed, Sum, Summed;
    SameTree(p, q, n, c);
    forall o | 0 <= o < n && o != c
      ensures ContextSound(q, n, places, o)
    {
      assert ContextSound(p, n, places, o);
      forall j | j in TreeOf(p, n, o)
        ensures SameKids(p[j], q[j]) && p[j].count == q[j].count
      {
        assert places[j].home == o;
      }
      OtherContext(p, q, n, n, places, places, o);
    }
  }

  lemma SameTree(p: Pool, q: Pool, n: nat, c: nat)
    requires Closed(p, n) && Closed(q, n) && c < n && p[c].symbols == q[c].symbols
    requires forall j :: 0 <= j < n ==> SameKids(p[j], q[j])
    ensures TreeOf(q, n, c) == TreeOf(p, n, c) && ClosedAt(p, c, n) && ClosedAt(q, c, n)
    ensures SideProper(q, n, c, q[c].symbols) == SideProper(p, n, c, p[c].symbols)
  {
    assert ClosedAt(p, c, n) && ClosedAt(q, c, n);
    TreeFrame(p, q, n, n, c, p[c].symbols);
  }

  function Renumbered(p: Pool, c: nat, escapes: u16, total: u16): Pool
    requires c < POOL_SIZE
  {
    p[c := p[c].(escapes := escapes, total := total)]
  }

  /** Numbers that are right make the context sound. */
  lemma NumbersSettle(p: Pool, n: nat, places: seq<Place>, c: nat, escapes: u16, total: u16)
    requires ButOne(p, n, places, c) && total == escapes + Sum(p, TreeOf(p, n, c), n) + 256 * MinimumAt(c) <= BOTTOM - 0x100
    requires (c == 0 ==> 0 < escapes) && forall j :: j in TreeOf(p, n, c) ==> p[j].count <= 0xFF - DeltaAt(c)
    ensures Sound(Renumbered(p, c, escapes, total), n, places)
  {
    RenumberedSummed(p, n, c, escapes, total);
    RenumberedKeeps(p, n, places, c, escapes, total);
    hide ButOne, Renumbered, Summed, TreeOf, Sum;
    OneIsSound(Renumbered(p, c, escapes, total), n, places, c);
  }

  lemma RenumberedSummed(p: Pool, n: nat, c: nat, escapes: u16, total: u16)
    requires Closed(p, n) && c < n && total == escapes + Sum(p, TreeOf(p, n, c), n) + 256 * MinimumAt(c) <= BOTTOM - 0x100
    requires (c == 0 ==> 0 < escapes) && forall j :: j in TreeOf(p, n, c) ==> p[j].count <= 0xFF - DeltaAt(c)
    ensures Closed(Renumbered(p, c, escapes, total), n) && Summed(Renumbered(p, c, escapes, total), n, c)
  {
    RenumberedTree(p, n, c, escapes, total);
    hide Closed, Sum, Renumbered, TreeOf;
  }

  lemma RenumberedKeeps(p: Pool, n: nat, places: seq<Place>, c: nat, escapes: u16, total: u16)
    requires ButOne(p, n, places, c)
    ensures ButOne(Renumbered(p, c, escapes, total), n, places, c)
  {
    RenumberedTree(p, n, c, escapes, total);
    hide Side, SideProper, Closed, Sum, ContextSound, Led, Renumbered, TreeOf;
    assert forall j :: j in TreeOf(p, n, c) ==> 0 < p[j].count;
    ButOneKept(p, Renumbered(p, c, escapes, total), n, places, c);
  }

  lemma RenumberedTree(p: Pool, n: nat, c: nat, escapes: u16, total: u16)
    requires Closed(p, n) && c < n
    ensures var q := Renumbered(p, c, escapes, total);
            && Closed(q, n) && TreeOf(q, n, c) == TreeOf(p, n, c) && Sum(q, TreeOf(q, n, c), n) == Sum(p, TreeOf(p, n, c), n)
            && q[c].escapes == escapes && q[c].total == total
            && (forall j :: 0 <= j < n ==> SameKids(p[j], q[j]) && p[j].symbols == q[j].symbols && p[j].parent == q[j].parent && p[j].count == q[j].count)
            && forall j :: 0 <= j < n && j != c ==> p[j].total == q[j].total && p[j].escapes == q[j].escapes
  {
    var q := Renumbered(p, c, escapes, total);
    assert ClosedAt(p, c, n);
    ClosedAfter(p, n, c, q[c]);
    SameTree(p, q, n, c);
    SumSame(p, q, TreeOf(p, n, c), n);
  }

  lemma HalvedKeeps(p: Pool, q: Pool, n: nat, places: seq<Place>, c: nat, total: nat)
    requires ButOne(p, n, places, c) && Halving(p, q, TreeOf(p, n, c), n, total)
    ensures ButOne(q, n, places, c) && TreeOf(q, n, c) == TreeOf(p, n, c)
  {
    var tree := TreeOf(p, n, c);
    HalvedLinks(p, q, tree, n);
    SameLinksClosed(p, q, n);
    assert forall j :: 0 <= j < n ==> Linked(p[j], q[j]);
    hide Side, SideProper, Closed, Sum, ContextSound, Led, TreeOf;
    assert forall j :: j in tree ==> 0 < p[j].count;
    ButOneKept(p, q, n, places, c);
  }

  lemma HalvedNumbers(escapes: nat, sum: nat, sum': nat, n: nat, extra: nat)
    requires escapes + sum + extra < BOTTOM && extra <= 256 && 2 * sum' <= sum + n && n <= POOL_SIZE
    ensures sum' % 0x1_0000 == sum' && sum' + (escapes - escapes / 2) + extra <= BOTTOM - 0x100
  {
  }

  /** Numbers that are too large, with counts in 8 bits, are right after enet_symbol_rescale. */
  lemma HalvedSettle(p: Pool, q: Pool, n: nat, places: seq<Place>, c: nat, escapes: nat, total: nat)
    requires ButOne(p, n, places, c) && (if p[c].symbols == 0 then q == p && total == 0 else Halving(p, q, TreeOf(p, n, c), n, total))
    requires escapes + Sum(p, TreeOf(p, n, c), n) + 256 * MinimumAt(c) < BOTTOM && (c == 0 ==> 0 < escapes)
    ensures var escapes', total' := escapes - escapes / 2, total + (escapes - escapes / 2) + 256 * MinimumAt(c);
            total' < BOTTOM && Sound(Renumbered(q, c, escapes', total'), n, places)
  {
    hide Halving, ButOne, Sum, TreeOf, Renumbered, Closed, Sound, Side, SideProper, ClosedAt;
    HalvedReady(p, q, n, places, c, escapes, total);
    NumbersSettle(q, n, places, c, escapes - escapes / 2, total + (escapes - escapes / 2) + 256 * MinimumAt(c));
  }

  lemma HalvedReady(p: Pool, q: Pool, n: nat, places: seq<Place>, c: nat, escapes: nat, total: nat)
    requires ButOne(p, n, places, c) && (if p[c].symbols == 0 then q == p && total == 0 else Halving(p, q, TreeOf(p, n, c), n, total))
    requires escapes + Sum(p, TreeOf(p, n, c), n) + 256 * MinimumAt(c) < BOTTOM
    ensures ButOne(q, n, places, c) && total == Sum(q, TreeOf(q, n, c), n)
    ensures total + (escapes - escapes / 2) + 256 * MinimumAt(c) <= BOTTOM - 0x100
    ensures forall j :: j in TreeOf(q, n, c) ==> q[j].count <= 0xFF - DeltaAt(c)
  {
    var tree, sum := TreeOf(p, n, c), Sum(p, TreeOf(p, n, c), n);
    assert n <= POOL_SIZE;
    if p[c].symbols == 0 {
      EmptyTree(p, n, c);
      SumOfNone(p, n);
      HalvedNumbers(escapes, 0, 0, n, 256 * MinimumAt(c));
    } else {
      hide Side, SideProper, Closed, Sum, ButOne, HalvedIn, TreeOf;
      HalvedKeeps(p, q, n, places, c, total);
      SumHalved(p, q, tree, n);
      HalvedNumbers(escapes, sum, Sum(q, tree, n), n, 256 * MinimumAt(c));
      HalvedCounts(p, q, tree, c);
    }
  }

  lemma EmptyTree(p: Pool, n: nat, c: nat)
    requires Closed(p, n) && c < n && p[c].symbols == 0
    ensures TreeOf(p, n, c) == {}
  {
  }

  lemma HalvedCounts(p: Pool, q: Pool, sel: set<nat>, c: nat)
    requires HalvedIn(p, q, sel) && forall j :: j in sel ==> j < POOL_SIZE
    ensures forall j :: j in sel ==> q[j].count <= 0xFF - DeltaAt(c)
  {
  }

  // ------------------------------------------------------------------------ suffix links

  function WithParent(p: Pool, x: nat, y: u16): Pool
    requires x < POOL_SIZE
  {
    p[x := p[x].(parent := y)]
  }

  lemma LinkTrees(p: Pool, n: nat, places: seq<Place>, x: nat, y: u16)
    requires Closed(p, n) && Led(p, n, places) && 0 < x < n && y < n && places[y].order < places[x].order
    ensures Closed(WithParent(p, x, y), n) && Led(WithParent(p, x, y), n, places)
    ensures forall o :: 0 <= o < n ==>
              && TreeOf(WithParent(p, x, y), n, o) == TreeOf(p, n, o)
              && Sum(WithParent(p, x, y), TreeOf(p, n, o), n) == Sum(p, TreeOf(p, n, o), n)
  {
    var q := WithParent(p, x, y);
    assert ClosedAt(p, x, n);
    ClosedAfter(p, n, x, q[x]);
    forall o | 0 <= o < n
      ensures TreeOf(q, n, o) == TreeOf(p, n, o) && Sum(q, TreeOf(p, n, o), n) == Sum(p, TreeOf(p, n, o), n)
    {
      SameTree(p, q, n, o);
      SumSame(p, q, TreeOf(p, n, o), n);
    }
  }

  lemma LinkContext(p: Pool, n: nat, places: seq<Place>, x: nat, y: u16, o: nat)
    requires Closed(p, n) && Led(p, n, places) && 0 < x < n && y < n && places[y].order < places[x].order
    requires o < n && ContextSound(p, n, places, o)
    ensures Closed(WithParent(p, x, y), n) && ContextSound(WithParent(p, x, y), n, places, o)
  {
    LinkTrees(p, n, places, x, y);
    hide Side, SideProper, Closed, Sum, Summed, Led;
    OtherContext(p, WithParent(p, x, y), n, n, places, places, o);
  }

  /** A link to a context of lower order keeps all sound. */
  lemma LinkSound(p: Pool, n: nat, places: seq<Place>, x: nat, y: u16)
    requires Sound(p, n, places) && 0 < x < n && y < n && places[y].order < places[x].order
    ensures Sound(WithParent(p, x, y), n, places)
  {
    LinkTrees(p, n, places, x, y);
    hide ContextSound, Closed, Led, TreeOf, WithParent;
    forall o | 0 <= o < n
      ensures ContextSound(WithParent(p, x, y), n, places, o)
    {
      LinkContext(p, n, places, x, y, o);
    }
  }

  lemma LinkButOne(p: Pool, n: nat, places: seq<Place>, c: nat, sym: nat, x: nat, y: u16)
    requires ButOne(p, n, places, c) && Due(p, n, c, sym) && 0 < x < n && y < n && places[y].order < places[x].order
    ensures ButOne(WithParent(p, x, y), n, places, c) && Due(WithParent(p, x, y), n, c, sym)
  {
    LinkTrees(p, n, places, x, y);
    SameTree(p, WithParent(p, x, y), n, c);
    hide ContextSound, Closed, Led, TreeOf, Sum, Side, SideProper;
    forall o | 0 <= o < n && o != c
      ensures ContextSound(WithParent(p, x, y), n, places, o)
    {
      LinkContext(p, n, places, x, y, o);
    }
  }
}
