/** The pool of symbols of ENet's range coder as a sequence of records, and what it
    means for the pool to represent the tables of PpmModel.

    A symbol plays two parts. It is a node of the binary search tree of the context it
    occurs in (value, count, under, left, right), and it is the context of what follows it
    (symbols, escapes, total, parent). Tree links are offsets to later records.

    The recursive functions here follow the C loops and recursion field by field, with
    their 8-bit and 16-bit wrap-around; the lemmas show what they do to the tables. */
module SymbolPool {
  import opened Words
  import opened RangeInterval
  import opened PpmModel

  datatype Symbol = Symbol(
    value: u8, count: u8, under: u16, left: u16, right: u16,
    symbols: u16, escapes: u16, total: u16, parent: u16)

  type Pool = p: seq<Symbol> | |p| == POOL_SIZE witness seq(POOL_SIZE, i => NewSymbol(0, 0))

  function Add8(x: nat, y: nat): u8 { (x + y) % 0x100 }
  function Add16(x: nat, y: nat): u16 { (x + y) % 0x1_0000 }

  function NewSymbol(value: u8, count: u8): Symbol {
    Symbol(value, count, count, 0, 0, 0, 0, 0, 0)
  }

  /** Every link of the first `n` symbols leads to one of them. */
  ghost predicate Closed(pool: Pool, n: nat) {
    n <= POOL_SIZE
    && forall i :: 0 <= i < n ==> ClosedAt(pool, i, n)
  }

  ghost predicate ClosedAt(pool: Pool, i: nat, n: nat)
    requires i < POOL_SIZE
  {
    i + pool[i].left < n && i + pool[i].right < n && i + pool[i].symbols < n && pool[i].parent < n
  }

  // ---------------------------------------------------- inserting and counting

  datatype Visit = Visit(pool: Pool, symbol: nat, under: u16, count: u16, next: nat)

  /** The loop of ENET_CONTEXT_ENCODE from the node `i`: count `v` up by `d` in the tree, making a
      symbol for it if there is none, and add up what lies below it. */
  ghost function Descend(pool: Pool, n: nat, i: nat, v: u8, d: u8, under: u16, count: u16): (r: Visit)
    requires Closed(pool, n) && i < n < POOL_SIZE
    ensures Closed(r.pool, r.next) && r.next <= n + 1 && r.symbol < r.next
    decreases n - i
  {
    var x := pool[i];
    assert ClosedAt(pool, i, n);
    if v < x.value then
      var y := x.(under := Add16(x.under, d));
      if x.left != 0 then
        ClosedAfter(pool, n, i, y);
        Descend(pool[i := y], n, i + x.left, v, d, under, count)
      else
        ClosedGrown(pool, n, i, y.(left := n - i), v, d);
        Visit(WithNew(pool, n, v, d)[i := y.(left := n - i)], n, under, count, n + 1)
    else if v > x.value then
      if x.right != 0 then Descend(pool, n, i + x.right, v, d, Add16(under, x.under), count)
      else
        ClosedGrown(pool, n, i, x.(right := n - i), v, d);
        Visit(WithNew(pool, n, v, d)[i := x.(right := n - i)], n, Add16(under, x.under), count, n + 1)
    else
      var y := x.(under := Add16(x.under, d), count := Add8(x.count, d));
      ClosedAfter(pool, n, i, y);
      Visit(pool[i := y], i, Add16(under, x.under + 0x1_0000 - x.count), Add16(count, x.count), n)
  }

  /** One step of the walk, case by case. */
  lemma DescendStep(pool: Pool, n: nat, i: nat, v: u8, d: u8, under: u16, count: u16)
    requires Closed(pool, n) && i < n < POOL_SIZE
    ensures var x := pool[i];
            var r := Descend(pool, n, i, v, d, under, count);
            var y := x.(under := Add16(x.under, d));
            && ClosedAt(pool, i, n)
            && (v < x.value ==> Closed(pool[i := y], n))
            && (v < x.value && x.left != 0 ==> r == Descend(pool[i := y], n, i + x.left, v, d, under, count))
            && (v < x.value && x.left == 0 ==>
                  r == Visit(WithNew(pool, n, v, d)[i := y.(left := n - i)], n, under, count, n + 1))
            && (x.value < v && x.right != 0 ==> r == Descend(pool, n, i + x.right, v, d, Add16(under, x.under), count))
            && (x.value < v && x.right == 0 ==>
                  r == Visit(WithNew(pool, n, v, d)[i := x.(right := n - i)], n, Add16(under, x.under), count, n + 1))
            && (v == x.value ==>
                  r == Visit(pool[i := y.(count := Add8(x.count, d))], i,
                             Add16(under, x.under + 0x1_0000 - x.count), Add16(count, x.count), n))
  {
    assert ClosedAt(pool, i, n);
    ClosedAfter(pool, n, i, pool[i].(under := Add16(pool[i].under, d)));
  }

  /** ENET_SYMBOL_CREATE. */
  function WithNew(pool: Pool, n: nat, v: u8, d: u8): Pool
    requires n < POOL_SIZE
  {
    pool[n := NewSymbol(v, d)]
  }

  lemma ClosedAfter(pool: Pool, n: nat, i: nat, x: Symbol)
    requires Closed(pool, n) && i < n
    requires i + x.left < n && i + x.right < n && i + x.symbols < n && x.parent < n
    ensures Closed(pool[i := x], n)
  {
    var p := pool[i := x];
    forall j | 0 <= j < n ensures ClosedAt(p, j, n) {
      assert ClosedAt(pool, j, n);
    }
  }

  lemma ClosedGrown(pool: Pool, n: nat, i: nat, x: Symbol, v: u8, d: u8)
    requires Closed(pool, n) && i < n < POOL_SIZE
    requires i + x.left <= n && i + x.right <= n && i + x.symbols <= n && x.parent <= n
    ensures Closed(WithNew(pool, n, v, d)[i := x], n + 1)
  {
    var p := WithNew(pool, n, v, d)[i := x];
    var m := n + 1;
    forall j | 0 <= j < m ensures ClosedAt(p, j, m) {
      assert j < n ==> ClosedAt(pool, j, n);
    }
  }

  /** All of ENET_CONTEXT_ENCODE for the context `c`. */
  ghost function Encode(pool: Pool, n: nat, c: nat, v: u8, d: u8, minimum: u8): (r: Visit)
    requires Closed(pool, n) && c < n < POOL_SIZE && v * minimum < BOTTOM
    ensures Closed(r.pool, r.next) && r.next <= n + 1 && r.symbol < r.next
  {
    assert ClosedAt(pool, c, n);
    if pool[c].symbols == 0 then
      ClosedGrown(pool, n, c, pool[c].(symbols := n - c), v, d);
      Visit(WithNew(pool, n, v, d)[c := pool[c].(symbols := n - c)], n, v * minimum, minimum, n + 1)
    else
      Descend(pool, n, c + pool[c].symbols, v, d, v * minimum, minimum)
  }

  /** enet_symbol_rescale from the node `i`: the new pool and the total it returns. */
  ghost function HalveTree(pool: Pool, n: nat, i: nat): (r: (Pool, u16))
    requires Closed(pool, n) && i < n
    ensures SameLinks(pool, r.0, n)
    decreases n - i, 2
  {
    assert ClosedAt(pool, i, n);
    var q := HalveNode(pool, n, i);
    SameLinksClosed(pool, q, n);
    if pool[i].right == 0 then (q, q[i].under)
    else
      var rest := HalveTree(q, n, i + pool[i].right);
      (rest.0, Add16(q[i].under, rest.1))
  }

  function Halved(x: Symbol): Symbol {
    var count := x.count - x.count / 2;
    x.(count := count, under := count)
  }

  /** The node `i` and what is left of it. */
  ghost function HalveNode(pool: Pool, n: nat, i: nat): (q: Pool)
    requires Closed(pool, n) && i < n
    ensures SameLinks(pool, q, n)
    decreases n - i, 1
  {
    var p := pool[i := Halved(pool[i])];
    SameLinksClosed(pool, p, n);
    HalveLeft(p, n, i)
  }

  ghost function HalveLeft(p: Pool, n: nat, i: nat): (q: Pool)
    requires Closed(p, n) && i < n
    ensures SameLinks(p, q, n)
    decreases n - i, 0
  {
    assert ClosedAt(p, i, n);
    if p[i].left == 0 then p
    else
      var l := HalveTree(p, n, i + p[i].left);
      l.0[i := l.0[i].(under := Add16(l.0[i].under, l.1))]
  }

  lemma Add16Associative(x: nat, y: nat, z: nat)
    ensures Add16(Add16(x, y), z) == Add16(x, Add16(y, z))
  {
  }

  /** Nothing but counts and sums differs. */
  ghost predicate SameLinks(p: Pool, q: Pool, n: nat) {
    forall i :: 0 <= i < n && i < POOL_SIZE ==> Linked(p[i], q[i])
  }

  ghost predicate Linked(x: Symbol, y: Symbol) {
    y == x.(count := y.count, under := y.under)
  }

  lemma SameLinksClosed(p: Pool, q: Pool, n: nat)
    requires Closed(p, n) && SameLinks(p, q, n)
    ensures Closed(q, n)
  {
    forall j | 0 <= j < n ensures ClosedAt(q, j, n) {
      assert ClosedAt(p, j, n) && Linked(p[j], q[j]);
    }
  }

  // --------------------------------------------------------- representation

  /** The context each symbol of the pool stands for. */
  type Names = seq<Context>

  /** The tree at `i` holds exactly the counts of the bytes in [lo, hi) that follow `s`. */
  ghost predicate Subtree(pool: Pool, names: Names, s: Context, counts: Counts, i: nat, lo: nat, hi: nat)
    requires |names| <= POOL_SIZE && hi <= 256
    decreases |names| - i
  {
    && i < |names|
    && var x := pool[i];
    && lo <= x.value < hi
    && names[i] == s + [x.value]
    && 0 < x.count == counts[x.value]
    && x.under == Below(counts, x.value + 1) - Below(counts, lo)
    && Child(pool, names, s, counts, i, x.left, lo, x.value)
    && Child(pool, names, s, counts, i, x.right, x.value + 1, hi)
  }

  ghost predicate Child(pool: Pool, names: Names, s: Context, counts: Counts, i: nat, offset: nat, lo: nat, hi: nat)
    requires |names| <= POOL_SIZE && hi <= 256 && i < |names|
    decreases |names| - i, 0
  {
    if offset == 0 then AllZero(counts, lo, hi)
    else Subtree(pool, names, s, counts, i + offset, lo, hi)
  }

  ghost predicate AllZero(counts: Counts, lo: nat, hi: nat)
    requires hi <= 256
  {
    forall v :: lo <= v < hi ==> counts[v] == 0
  }

  /** The symbols of the tree of `s` whose bytes are in [lo, hi). */
  ghost predicate InRange(pool: Pool, names: Names, s: Context, lo: nat, hi: nat, j: nat)
    requires |names| <= POOL_SIZE && j < |names|
  {
    names[j] == s + [pool[j].value] && lo <= pool[j].value < hi
  }

  ghost predicate SameTreePart(x: Symbol, y: Symbol) {
    y == x.(symbols := y.symbols, escapes := y.escapes, total := y.total, parent := y.parent)
  }

  ghost predicate SameContextPart(x: Symbol, y: Symbol) {
    y.value == x.value && y.symbols == x.symbols && y.escapes == x.escapes && y.total == x.total && y.parent == x.parent
  }

  ghost predicate SameShape(counts: Counts, counts': Counts, lo: nat, hi: nat)
    requires lo <= hi <= 256
  {
    && (forall v :: lo <= v < hi ==> counts'[v] == counts[v])
    && (forall v :: lo <= v <= hi ==> Below(counts', v) - Below(counts', lo) == Below(counts, v) - Below(counts, lo))
  }

  /** A tree depends on the tree part of its own symbols and on the counts in its range. */
  lemma {:induction false} SubtreeFrame(
    pool: Pool, names: Names, counts: Counts, pool': Pool, names': Names, counts': Counts,
    s: Context, i: nat, lo: nat, hi: nat)
    requires |names| <= |names'| <= POOL_SIZE && lo <= hi <= 256 && names <= names'
    requires Subtree(pool, names, s, counts, i, lo, hi)
    requires SameShape(counts, counts', lo, hi)
    requires forall j :: 0 <= j < |names| && InRange(pool, names, s, lo, hi, j) ==> SameTreePart(pool[j], pool'[j])
    ensures Subtree(pool', names', s, counts', i, lo, hi)
    decreases |names| - i
  {
    var x := pool[i];
    assert InRange(pool, names, s, lo, hi, i);
    if x.left != 0 {
      SubtreeFrame(pool, names, counts, pool', names', counts', s, i + x.left, lo, x.value);
    }
    if x.right != 0 {
      SubtreeFrame(pool, names, counts, pool', names', counts', s, i + x.right, x.value + 1, hi);
    }
  }

  /** What a walk down a tree may touch: the tree part of the symbols in the range, and the new symbol. */
  ghost predicate Touches(pool: Pool, pool': Pool, names: Names, s: Context, lo: nat, hi: nat)
    requires |names| <= POOL_SIZE
  {
    forall j :: 0 <= j < |names| ==>
      && SameContextPart(pool[j], pool'[j])
      && (!InRange(pool, names, s, lo, hi, j) ==> pool'[j] == pool[j])
  }

  ghost predicate FreshAt(pool: Pool, n: nat, v: u8, d: u8) {
    n < POOL_SIZE && pool[n] == NewSymbol(v, d)
  }

  ghost function NamesAfter(names: Names, s: Context, counts: Counts, v: u8): Names {
    if counts[v] == 0 then names + [s + [v]] else names
  }

  lemma ShapeElsewhere(counts: Counts, v: u8, c: nat, lo: nat, hi: nat)
    requires lo <= hi <= 256 && (v < lo || hi <= v)
    ensures SameShape(counts, counts[v := c], lo, hi)
  {
    forall k | lo <= k <= hi
      ensures Below(counts[v := c], k) - Below(counts[v := c], lo) == Below(counts, k) - Below(counts, lo)
    {
      BelowUpdate(counts, v, c, k);
      BelowUpdate(counts, v, c, lo);
    }
  }

  lemma LeafCounts(pool: Pool, names: Names, s: Context, counts: Counts, lo: nat, hi: nat, v: u8, d: u8)
    requires lo <= v < hi <= 256 && AllZero(counts, lo, hi) && 0 < d
    requires 0 < |names| <= POOL_SIZE
    requires pool[|names| - 1] == NewSymbol(v, d) && names[|names| - 1] == s + [v]
    ensures Subtree(pool, names, s, counts[v := counts[v] + d], |names| - 1, lo, hi)
  {
    var counts' := counts[v := counts[v] + d];
    BelowZeros(counts', lo, v);
  }

  /** What the walk does to the tree at `i`: `v` is counted up and the sum below it returned. */
  ghost predicate Walked(r: Visit, pool: Pool, names: Names, s: Context, counts: Counts, i: nat, lo: nat, hi: nat, v: u8, d: u8)
    requires |names| < POOL_SIZE && hi <= 256
  {
    var names' := NamesAfter(names, s, counts, v);
    && r.next == |names'|
    && r.symbol < |names'| && names'[r.symbol] == s + [v]
    && (counts[v] == 0 ==> r.symbol == |names| && FreshAt(r.pool, |names|, v, d))
    && Subtree(r.pool, names', s, counts[v := counts[v] + d], i, lo, hi)
    && Touches(pool, r.pool, names, s, lo, hi)
  }

  lemma TouchesWider(pool: Pool, bumped: Pool, pool': Pool, names: Names, s: Context, i: nat, lo: nat, hi: nat, lo': nat, hi': nat)
    requires |names| <= POOL_SIZE && lo' <= lo && hi <= hi' && i < |names|
    requires InRange(pool, names, s, lo', hi', i) && SameContextPart(pool[i], bumped[i]) && bumped == pool[i := bumped[i]]
    requires Touches(bumped, pool', names, s, lo, hi)
    ensures Touches(pool, pool', names, s, lo', hi')
  {
    forall j | 0 <= j < |names|
      ensures SameContextPart(pool[j], pool'[j]) && (!InRange(pool, names, s, lo', hi', j) ==> pool'[j] == pool[j])
    {
      assert InRange(bumped, names, s, lo, hi, j) ==> InRange(pool, names, s, lo', hi', j);
    }
  }

  /** A walk in the range [lo, hi) leaves the sibling tree of [lo', hi') as it was. */
  lemma {:induction false} Sibling(
    pool: Pool, names: Names, s: Context, counts: Counts, i: nat, bumped: Pool, lo: nat, hi: nat, pool': Pool, names': Names,
    j: nat, lo': nat, hi': nat, v: u8, c: nat)
    requires |names| <= |names'| <= POOL_SIZE && names <= names' && lo' <= hi' <= 256
    requires i < |names| && bumped == pool[i := bumped[i]] && !InRange(pool, names, s, lo', hi', i)
    requires lo <= v < hi && (hi <= lo' || hi' <= lo)
    requires Touches(bumped, pool', names, s, lo, hi)
    requires Subtree(pool, names, s, counts, j, lo', hi')
    ensures Subtree(pool', names', s, counts[v := c], j, lo', hi')
  {
    ShapeElsewhere(counts, v, c, lo', hi');
    forall k | 0 <= k < |names| && InRange(pool, names, s, lo', hi', k) ensures SameTreePart(pool[k], pool'[k]) {
      assert !InRange(bumped, names, s, lo, hi, k);
    }
    SubtreeFrame(pool, names, counts, pool', names', counts[v := c], s, j, lo', hi');
  }

  lemma TouchesOne(pool: Pool, pool': Pool, names: Names, s: Context, i: nat, lo: nat, hi: nat)
    requires i < |names| <= POOL_SIZE && InRange(pool, names, s, lo, hi, i)
    requires forall j :: 0 <= j < |names| && j != i ==> pool'[j] == pool[j]
    requires SameContextPart(pool[i], pool'[i])
    ensures Touches(pool, pool', names, s, lo, hi)
  {
  }

  /** A change of the node `i` alone leaves a tree below it as it was. */
  lemma {:induction false} ChildKept(
    pool: Pool, names: Names, s: Context, counts: Counts, pool': Pool, names': Names, i: nat, j: nat, lo: nat, hi: nat, v: nat, c: nat)
    requires |names| <= |names'| <= POOL_SIZE && names <= names' && lo <= hi <= 256
    requires i < |names| && Subtree(pool, names, s, counts, j, lo, hi)
    requires !InRange(pool, names, s, lo, hi, i) && (v < lo || hi <= v) && v < 256
    requires forall k :: 0 <= k < |names| && k != i ==> pool'[k] == pool[k]
    ensures Subtree(pool', names', s, counts[v := c], j, lo, hi)
  {
    ShapeElsewhere(counts, v, c, lo, hi);
    SubtreeFrame(pool, names, counts, pool', names', counts[v := c], s, j, lo, hi);
  }

  lemma {:induction false} CountsLeft(
    pool: Pool, names: Names, s: Context, counts: Counts, i: nat, lo: nat, hi: nat, v: u8, d: u8, bumped: Pool, r: Visit)
    requires |names| < POOL_SIZE && hi <= 256 && 0 < d
    requires Subtree(pool, names, s, counts, i, lo, hi) && lo <= v < pool[i].value
    requires pool[i].under + d < BOTTOM && bumped == pool[i := pool[i].(under := pool[i].under + d)]
    requires pool[i].left != 0 && Walked(r, bumped, names, s, counts, i + pool[i].left, lo, pool[i].value, v, d)
    ensures Walked(r, pool, names, s, counts, i, lo, hi, v, d)
  {
    hide Below;
    var x := pool[i];
    var counts' := counts[v := counts[v] + d];
    var names' := NamesAfter(names, s, counts, v);
    assert names'[i] == names[i];
    assert !InRange(bumped, names, s, lo, x.value, i);
    assert r.pool[i] == bumped[i];
    BelowUpdate(counts, v, counts[v] + d, x.value + 1);
    BelowUpdate(counts, v, counts[v] + d, lo);
    if x.right != 0 {
      Sibling(pool, names, s, counts, i, bumped, lo, x.value, r.pool, names', i + x.right, x.value + 1, hi, v, counts[v] + d);
    }
    TouchesWider(pool, bumped, r.pool, names, s, i, lo, x.value, lo, hi);
    assert r.pool[i].under == Below(counts', x.value + 1) - Below(counts', lo);
    assert Subtree(r.pool, names', s, counts', i, lo, hi);
  }

  lemma {:induction false} CountsRight(
    pool: Pool, names: Names, s: Context, counts: Counts, i: nat, lo: nat, hi: nat, v: u8, d: u8, r: Visit)
    requires |names| < POOL_SIZE && hi <= 256 && 0 < d
    requires Subtree(pool, names, s, counts, i, lo, hi) && pool[i].value < v < hi
    requires pool[i].right != 0 && Walked(r, pool, names, s, counts, i + pool[i].right, pool[i].value + 1, hi, v, d)
    ensures Walked(r, pool, names, s, counts, i, lo, hi, v, d)
  {
    hide Below;
    var x := pool[i];
    var counts' := counts[v := counts[v] + d];
    var names' := NamesAfter(names, s, counts, v);
    assert names'[i] == names[i];
    assert !InRange(pool, names, s, x.value + 1, hi, i);
    assert r.pool[i] == x;
    BelowUpdate(counts, v, counts[v] + d, x.value + 1);
    BelowUpdate(counts, v, counts[v] + d, lo);
    if x.left != 0 {
      Sibling(pool, names, s, counts, i, pool, x.value + 1, hi, r.pool, names', i + x.left, lo, x.value, v, counts[v] + d);
    }
    TouchesWider(pool, pool, r.pool, names, s, i, x.value + 1, hi, lo, hi);
    assert r.pool[i].under == Below(counts', x.value + 1) - Below(counts', lo);
    assert Subtree(r.pool, names', s, counts', i, lo, hi);
  }

  lemma {:induction false} CountsNewLeft(
    pool: Pool, names: Names, s: Context, counts: Counts, i: nat, lo: nat, hi: nat, v: u8, d: u8, r: Visit)
    requires |names| < POOL_SIZE && hi <= 256 && 0 < d
    requires Subtree(pool, names, s, counts, i, lo, hi) && lo <= v < pool[i].value
    requires pool[i].under + d < BOTTOM && pool[i].left == 0
    requires r.pool == pool[|names| := NewSymbol(v, d)][i := pool[i].(under := pool[i].under + d, left := |names| - i)]
    requires r.symbol == |names| && r.next == |names| + 1
    ensures Walked(r, pool, names, s, counts, i, lo, hi, v, d) && counts[v] == 0
  {
    hide Below;
    var x := pool[i];
    var counts' := counts[v := counts[v] + d];
    var names' := names + [s + [v]];
    assert names'[i] == names[i];
    BelowUpdate(counts, v, counts[v] + d, x.value + 1);
    BelowUpdate(counts, v, counts[v] + d, lo);
    LeafCounts(r.pool, names', s, counts, lo, x.value, v, d);
    assert i + r.pool[i].left == |names|;
    if x.right != 0 {
      ChildKept(pool, names, s, counts, r.pool, names', i, i + x.right, x.value + 1, hi, v, counts[v] + d);
    }
    TouchesOne(pool, r.pool, names, s, i, lo, hi);
    assert r.pool[i].under == Below(counts', x.value + 1) - Below(counts', lo);
    assert Subtree(r.pool, names', s, counts', i, lo, hi);
  }

  lemma {:induction false} CountsNewRight(
    pool: Pool, names: Names, s: Context, counts: Counts, i: nat, lo: nat, hi: nat, v: u8, d: u8, r: Visit)
    requires |names| < POOL_SIZE && hi <= 256 && 0 < d
    requires Subtree(pool, names, s, counts, i, lo, hi) && pool[i].value < v < hi
    requires pool[i].right == 0
    requires r.pool == pool[|names| := NewSymbol(v, d)][i := pool[i].(right := |names| - i)]
    requires r.symbol == |names| && r.next == |names| + 1
    ensures Walked(r, pool, names, s, counts, i, lo, hi, v, d) && counts[v] == 0
  {
    hide Below;
    var x := pool[i];
    var counts' := counts[v := counts[v] + d];
    var names' := names + [s + [v]];
    assert names'[i] == names[i];
    BelowUpdate(counts, v, counts[v] + d, x.value + 1);
    BelowUpdate(counts, v, counts[v] + d, lo);
    LeafCounts(r.pool, names', s, counts, x.value + 1, hi, v, d);
    assert i + r.pool[i].right == |names|;
    if x.left != 0 {
      ChildKept(pool, names, s, counts, r.pool, names', i, i + x.left, lo, x.value, v, counts[v] + d);
    }
    TouchesOne(pool, r.pool, names, s, i, lo, hi);
    assert r.pool[i].under == Below(counts', x.value + 1) - Below(counts', lo);
    assert Subtree(r.pool, names', s, counts', i, lo, hi);
  }

  lemma {:induction false} CountsHere(
    pool: Pool, names: Names, s: Context, counts: Counts, i: nat, lo: nat, hi: nat, d: u8, r: Visit)
    requires |names| < POOL_SIZE && hi <= 256 && 0 < d
    requires Subtree(pool, names, s, counts, i, lo, hi)
    requires pool[i].under + d < BOTTOM && pool[i].count + d < 0x100
    requires r.pool == pool[i := pool[i].(under := pool[i].under + d, count := pool[i].count + d)]
    requires r.symbol == i && r.next == |names|
    ensures Walked(r, pool, names, s, counts, i, lo, hi, pool[i].value, d)
  {
    hide Below;
    var x := pool[i];
    var v: nat := x.value;
    var counts' := counts[v := counts[v] + d];
    BelowUpdate(counts, v, counts[v] + d, v + 1);
    BelowUpdate(counts, v, counts[v] + d, lo);
    if x.left != 0 {
      ChildKept(pool, names, s, counts, r.pool, names, i, i + x.left, lo, v, x.value, counts[v] + d);
    }
    if x.right != 0 {
      ChildKept(pool, names, s, counts, r.pool, names, i, i + x.right, v + 1, hi, x.value, counts[v] + d);
    }
    TouchesOne(pool, r.pool, names, s, i, lo, hi);
    assert r.pool[i].under == Below(counts', x.value + 1) - Below(counts', lo);
    assert Subtree(r.pool, names, s, counts', i, lo, hi);
  }

  /** The walk of ENET_CONTEXT_ENCODE agrees with the plain table: it counts `v` up, adds to
      `under` exactly the counts of the bytes below `v`, and touches no other context's tree. */
  lemma {:induction false} DescendCounts(
    pool: Pool, names: Names, s: Context, counts: Counts, i: nat, lo: nat, hi: nat, v: u8, d: u8, under: u16, count: u16)
    requires Closed(pool, |names|) && |names| < POOL_SIZE && lo <= v < hi <= 256
    requires Subtree(pool, names, s, counts, i, lo, hi)
    requires 0 < d && counts[v] + d < 0x100
    requires Below(counts, lo) <= under && under - Below(counts, lo) + Below(counts, 256) + d < BOTTOM
    requires count + counts[v] < BOTTOM
    ensures var r := Descend(pool, |names|, i, v, d, under, count);
            && r.under == under - Below(counts, lo) + Below(counts, v)
            && r.count == count + counts[v]
            && Walked(r, pool, names, s, counts, i, lo, hi, v, d)
    decreases |names| - i
  {
    if v < pool[i].value {
      DescendLeft(pool, names, s, counts, i, lo, hi, v, d, under, count);
    } else if pool[i].value < v {
      DescendRight(pool, names, s, counts, i, lo, hi, v, d, under, count);
    } else {
      BelowMonotone(counts, lo, v);
      BelowMonotone(counts, v + 1, 256);
      CountsHere(pool, names, s, counts, i, lo, hi, d, Descend(pool, |names|, i, v, d, under, count));
    }
  }

  lemma {:induction false} DescendLeft(
    pool: Pool, names: Names, s: Context, counts: Counts, i: nat, lo: nat, hi: nat, v: u8, d: u8, under: u16, count: u16)
    requires Closed(pool, |names|) && |names| < POOL_SIZE && lo <= v < hi <= 256
    requires Subtree(pool, names, s, counts, i, lo, hi) && v < pool[i].value
    requires 0 < d && counts[v] + d < 0x100
    requires Below(counts, lo) <= under && under - Below(counts, lo) + Below(counts, 256) + d < BOTTOM
    requires count + counts[v] < BOTTOM
    ensures var r := Descend(pool, |names|, i, v, d, under, count);
            && r.under == under - Below(counts, lo) + Below(counts, v)
            && r.count == count + counts[v]
            && Walked(r, pool, names, s, counts, i, lo, hi, v, d)
    decreases |names| - i, 0
  {
    var n := |names|;
    var x := pool[i];
    assert ClosedAt(pool, i, n);
    BelowMonotone(counts, x.value + 1, 256);
    assert Add16(x.under, d) == x.under + d;
    var bumped := pool[i := x.(under := x.under + d)];
    var r := Descend(pool, n, i, v, d, under, count);
    if x.left != 0 {
      ClosedAfter(pool, n, i, bumped[i]);
      SubtreeFrame(pool, names, counts, bumped, names, counts, s, i + x.left, lo, x.value);
      DescendCounts(bumped, names, s, counts, i + x.left, lo, x.value, v, d, under, count);
      CountsLeft(pool, names, s, counts, i, lo, hi, v, d, bumped, r);
    } else {
      BelowZeros(counts, lo, v);
      CountsNewLeft(pool, names, s, counts, i, lo, hi, v, d, r);
    }
  }

  lemma {:induction false} DescendRight(
    pool: Pool, names: Names, s: Context, counts: Counts, i: nat, lo: nat, hi: nat, v: u8, d: u8, under: u16, count: u16)
    requires Closed(pool, |names|) && |names| < POOL_SIZE && lo <= v < hi <= 256
    requires Subtree(pool, names, s, counts, i, lo, hi) && pool[i].value < v
    requires 0 < d && counts[v] + d < 0x100
    requires Below(counts, lo) <= under && under - Below(counts, lo) + Below(counts, 256) + d < BOTTOM
    requires count + counts[v] < BOTTOM
    ensures var r := Descend(pool, |names|, i, v, d, under, count);
            && r.under == under - Below(counts, lo) + Below(counts, v)
            && r.count == count + counts[v]
            && Walked(r, pool, names, s, counts, i, lo, hi, v, d)
    decreases |names| - i, 0
  {
    var n := |names|;
    var x := pool[i];
    assert ClosedAt(pool, i, n);
    BelowMonotone(counts, x.value + 1, 256);
    assert Add16(under, x.under) == under + x.under;
    var r := Descend(pool, n, i, v, d, under, count);
    if x.right != 0 {
      DescendCounts(pool, names, s, counts, i + x.right, x.value + 1, hi, v, d, under + x.under, count);
      CountsRight(pool, names, s, counts, i, lo, hi, v, d, r);
    } else {
      BelowZeros(counts, x.value + 1, v);
      CountsNewRight(pool, names, s, counts, i, lo, hi, v, d, r);
    }
  }

  // -------------------------------------------------------------- rescaling

  lemma HalveZeros(counts: Counts, lo: nat, hi: nat)
    requires lo <= hi <= 256 && AllZero(counts, lo, hi)
    ensures AllZero(Halve(counts), lo, hi)
    ensures Below(Halve(counts), lo) == Below(Halve(counts), hi)
  {
    BelowZeros(Halve(counts), lo, hi);
  }

  /** A walk in the range [lo, hi) leaves the tree of a disjoint range as it was. */
  lemma {:induction false} Unreached(
    pool: Pool, pool': Pool, names: Names, s: Context, counts: Counts, lo: nat, hi: nat, j: nat, lo': nat, hi': nat)
    requires |names| <= POOL_SIZE && lo' <= hi' <= 256 && (hi <= lo' || hi' <= lo)
    requires Touches(pool, pool', names, s, lo, hi)
    requires Subtree(pool, names, s, counts, j, lo', hi')
    ensures Subtree(pool', names, s, counts, j, lo', hi')
  {
    forall k | 0 <= k < |names| && InRange(pool, names, s, lo', hi', k) ensures SameTreePart(pool[k], pool'[k]) {
      assert !InRange(pool, names, s, lo, hi, k);
    }
    SubtreeFrame(pool, names, counts, pool', names, counts, s, j, lo', hi');
  }

  /** The node `i` and its left part are halved, its right part is still to do. */
  ghost predicate LeftHalved(pool: Pool, q: Pool, names: Names, s: Context, counts: Counts, halved: Counts, i: nat, lo: nat, hi: nat)
    requires i < |names| <= POOL_SIZE && lo <= hi <= 256 && pool[i].value < hi
  {
    var v := pool[i].value;
    && 0 < halved[v]
    && q[i] == pool[i].(count := q[i].count, under := q[i].under)
    && q[i].count == halved[v]
    && q[i].under == Below(halved, v + 1) - Below(halved, lo)
    && Child(q, names, s, halved, i, pool[i].left, lo, v)
    && Child(q, names, s, counts, i, pool[i].right, v + 1, hi)
    && Touches(pool, q, names, s, lo, v + 1)
  }

  lemma {:induction false} JoinLeft(
    pool: Pool, p: Pool, l: Pool, q: Pool, names: Names, s: Context, counts: Counts, halved: Counts, i: nat, lo: nat, hi: nat)
    requires |names| <= POOL_SIZE && lo <= hi <= 256
    requires Subtree(pool, names, s, counts, i, lo, hi) && pool[i].left != 0
    requires 0 < halved[pool[i].value]
    requires p[i] == pool[i].(count := p[i].count, under := p[i].under) && p == pool[i := p[i]]
    requires p[i].count == halved[pool[i].value]
    requires Subtree(l, names, s, halved, i + pool[i].left, lo, pool[i].value)
    requires Touches(p, l, names, s, lo, pool[i].value)
    requires q == l[i := l[i].(under := q[i].under)]
    requires q[i].under == Below(halved, pool[i].value + 1) - Below(halved, lo)
    ensures LeftHalved(pool, q, names, s, counts, halved, i, lo, hi)
  {
    var x := pool[i];
    assert InRange(pool, names, s, lo, x.value + 1, i);
    assert !InRange(p, names, s, lo, x.value, i);
    SubtreeFrame(l, names, halved, q, names, halved, s, i + x.left, lo, x.value);
    TouchesWider(pool, p, l, names, s, i, lo, x.value, lo, x.value + 1);
    if x.right != 0 {
      Unreached(pool, q, names, s, counts, lo, x.value + 1, i + x.right, x.value + 1, hi);
    }
  }

  lemma {:induction false} NoLeft(pool: Pool, p: Pool, names: Names, s: Context, counts: Counts, halved: Counts, i: nat, lo: nat, hi: nat)
    requires |names| <= POOL_SIZE && lo <= hi <= 256
    requires Subtree(pool, names, s, counts, i, lo, hi) && pool[i].left == 0
    requires p[i] == pool[i].(count := p[i].count, under := p[i].under) && p == pool[i := p[i]]
    requires 0 < halved[pool[i].value] == p[i].count == p[i].under
    requires AllZero(halved, lo, pool[i].value) && Below(halved, lo) == Below(halved, pool[i].value)
    ensures LeftHalved(pool, p, names, s, counts, halved, i, lo, hi)
  {
    var x := pool[i];
    assert InRange(pool, names, s, lo, x.value + 1, i);
    if x.right != 0 {
      Unreached(pool, p, names, s, counts, lo, x.value + 1, i + x.right, x.value + 1, hi);
    }
  }

  lemma HalveSums(counts: Counts, lo: nat, v: nat, hi: nat)
    requires lo <= v < hi <= 256 && Below(counts, 256) < BOTTOM
    ensures var h := Halve(counts);
            && Below(h, lo) <= Below(h, v) <= Below(h, v + 1) <= Below(h, hi) < BOTTOM
            && h[v] == counts[v] - counts[v] / 2
  {
    var h := Halve(counts);
    BelowMonotone(h, lo, v);
    BelowMonotone(h, v + 1, hi);
    BelowMonotone(h, hi, 256);
    BelowHalve(counts, 256);
  }

  /** Halving the left part of the node `i`, whose own count is halved already. */
  lemma {:induction false} HalveLeftCounts(pool: Pool, p: Pool, names: Names, s: Context, counts: Counts, i: nat, lo: nat, hi: nat)
    requires Closed(pool, |names|) && Closed(p, |names|) && lo <= hi <= 256 && Below(counts, 256) < BOTTOM
    requires Subtree(pool, names, s, counts, i, lo, hi)
    requires p == pool[i := Halved(pool[i])]
    ensures LeftHalved(pool, HalveLeft(p, |names|, i), names, s, counts, Halve(counts), i, lo, hi)
    decreases |names| - i, 0, 1
  {
    var x := pool[i];
    HalveSums(counts, lo, x.value, hi);
    if x.left == 0 {
      HalveZeros(counts, lo, x.value);
      NoLeft(pool, p, names, s, counts, Halve(counts), i, lo, hi);
    } else {
      assert ClosedAt(p, i, |names|);
      HalveBelowLeft(pool, p, names, s, counts, i, lo, hi);
      var l := HalveTree(p, |names|, i + x.left).0;
      assert !InRange(p, names, s, lo, x.value, i);
      assert l[i] == p[i];
      JoinLeft(pool, p, l, HalveLeft(p, |names|, i), names, s, counts, Halve(counts), i, lo, hi);
    }
  }

  lemma {:induction false} HalveBelowLeft(pool: Pool, p: Pool, names: Names, s: Context, counts: Counts, i: nat, lo: nat, hi: nat)
    requires Closed(p, |names|) && lo <= hi <= 256 && Below(counts, 256) < BOTTOM
    requires Subtree(pool, names, s, counts, i, lo, hi) && pool[i].left != 0 && p[i].left == pool[i].left
    requires p == pool[i := p[i]] && p[i].value == pool[i].value
    requires i + pool[i].left < |names|
    ensures var l := HalveTree(p, |names|, i + pool[i].left);
            && l.1 == Below(Halve(counts), pool[i].value) - Below(Halve(counts), lo)
            && Subtree(l.0, names, s, Halve(counts), i + pool[i].left, lo, pool[i].value)
            && Touches(p, l.0, names, s, lo, pool[i].value)
    decreases |names| - i, 0, 0
  {
    var x := pool[i];
    SubtreeFrame(pool, names, counts, p, names, counts, s, i + x.left, lo, x.value);
    HalveCounts(p, names, s, counts, i + x.left, lo, x.value);
  }

  lemma {:induction false} NoRight(pool: Pool, q: Pool, names: Names, s: Context, counts: Counts, halved: Counts, i: nat, lo: nat, hi: nat)
    requires |names| <= POOL_SIZE && lo <= hi <= 256
    requires Subtree(pool, names, s, counts, i, lo, hi) && pool[i].right == 0
    requires LeftHalved(pool, q, names, s, counts, halved, i, lo, hi)
    requires AllZero(halved, pool[i].value + 1, hi)
    ensures Subtree(q, names, s, halved, i, lo, hi) && Touches(pool, q, names, s, lo, hi)
  {
    TouchesMore(pool, q, names, s, lo, pool[i].value + 1, hi);
  }

  lemma {:induction false} JoinRight(
    pool: Pool, q: Pool, r: Pool, names: Names, s: Context, counts: Counts, halved: Counts, i: nat, lo: nat, hi: nat)
    requires |names| <= POOL_SIZE && lo <= hi <= 256
    requires Subtree(pool, names, s, counts, i, lo, hi) && pool[i].right != 0
    requires LeftHalved(pool, q, names, s, counts, halved, i, lo, hi)
    requires Subtree(r, names, s, halved, i + pool[i].right, pool[i].value + 1, hi)
    requires Touches(q, r, names, s, pool[i].value + 1, hi)
    ensures Subtree(r, names, s, halved, i, lo, hi) && Touches(pool, r, names, s, lo, hi)
  {
    var x := pool[i];
    if x.left != 0 {
      Unreached(q, r, names, s, halved, x.value + 1, hi, i + x.left, lo, x.value);
    }
    assert !InRange(q, names, s, x.value + 1, hi, i);
    TouchesBoth(pool, q, r, names, s, lo, x.value + 1, hi);
  }

  /** enet_symbol_rescale halves every count of the tree, restores its partial sums and
      returns the new sum of its counts. */
  lemma {:induction false} HalveCounts(pool: Pool, names: Names, s: Context, counts: Counts, i: nat, lo: nat, hi: nat)
    requires Closed(pool, |names|) && lo <= hi <= 256 && Below(counts, 256) < BOTTOM
    requires Subtree(pool, names, s, counts, i, lo, hi)
    ensures var r := HalveTree(pool, |names|, i);
            && r.1 == Below(Halve(counts), hi) - Below(Halve(counts), lo)
            && Subtree(r.0, names, s, Halve(counts), i, lo, hi)
            && Touches(pool, r.0, names, s, lo, hi)
    decreases |names| - i
  {
    hide HalveLeft, Halve, Below, Touches;
    var n := |names|;
    var x := pool[i];
    var p := pool[i := Halved(x)];
    SameLinksClosed(pool, p, n);
    HalveLeftCounts(pool, p, names, s, counts, i, lo, hi);
    var q := HalveNode(pool, n, i);
    SameLinksClosed(pool, q, n);
    assert ClosedAt(pool, i, n);
    HalveSums(counts, lo, x.value, hi);
    if x.right == 0 {
      HalveZeros(counts, x.value + 1, hi);
      NoRight(pool, q, names, s, counts, Halve(counts), i, lo, hi);
    } else {
      HalveCounts(q, names, s, counts, i + x.right, x.value + 1, hi);
      JoinRight(pool, q, HalveTree(q, n, i + x.right).0, names, s, counts, Halve(counts), i, lo, hi);
    }
  }

  lemma TouchesMore(pool: Pool, pool': Pool, names: Names, s: Context, lo: nat, mid: nat, hi: nat)
    requires |names| <= POOL_SIZE && mid <= hi && Touches(pool, pool', names, s, lo, mid)
    ensures Touches(pool, pool', names, s, lo, hi)
  {
    forall j | 0 <= j < |names|
      ensures SameContextPart(pool[j], pool'[j]) && (!InRange(pool, names, s, lo, hi, j) ==> pool'[j] == pool[j])
    {
      assert InRange(pool, names, s, lo, mid, j) ==> InRange(pool, names, s, lo, hi, j);
    }
  }

  lemma TouchesBoth(pool: Pool, q: Pool, r: Pool, names: Names, s: Context, lo: nat, mid: nat, hi: nat)
    requires |names| <= POOL_SIZE && lo <= mid <= hi
    requires Touches(pool, q, names, s, lo, mid) && Touches(q, r, names, s, mid, hi)
    ensures Touches(pool, r, names, s, lo, hi)
  {
    forall j | 0 <= j < |names|
      ensures SameContextPart(pool[j], r[j]) && (!InRange(pool, names, s, lo, hi, j) ==> r[j] == pool[j])
    {
      assert SameContextPart(pool[j], q[j]) && SameContextPart(q[j], r[j]);
      if !InRange(pool, names, s, lo, hi, j) {
        assert !InRange(pool, names, s, lo, mid, j);
        assert !InRange(q, names, s, mid, hi, j);
      }
    }
  }
}
