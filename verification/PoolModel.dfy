/** When a pool of symbols represents a PpmModel: each symbol is the context of one string,
    no string has two symbols, and each symbol's `parent` is the context of the string
    without its first byte. Strings, not pool indices, identify contexts, so the encoder's
    and the decoder's pools can represent the same model with different numbering. */
module PoolModel {
  import opened Words
  import opened RangeInterval
  import opened PpmModel
  import opened SymbolPool

  ghost predicate ContextAt(pool: Pool, names: Names, i: nat, t: Table)
    requires i < |names| <= POOL_SIZE
  {
    && pool[i].escapes == t.escapes
    && pool[i].total == t.total
    && if pool[i].symbols == 0 then AllZero(t.counts, 0, 256)
       else Subtree(pool, names, names[i], t.counts, i + pool[i].symbols, 0, 256)
  }

  ghost predicate Known(m: Model, s: Context) {
    s != [] && 0 < m.Count(s[..|s| - 1], s[|s| - 1])
  }

  ghost predicate ParentAt(pool: Pool, names: Names, i: nat)
    requires i < |names| <= POOL_SIZE
  {
    names[i] != [] && pool[i].parent < |names| && names[pool[i].parent] == names[i][1..]
  }

  ghost predicate ContextHolds(pool: Pool, names: Names, m: Model, i: nat)
    requires i < |names| <= POOL_SIZE
  {
    ContextAt(pool, names, i, m.Get(names[i]))
  }

  ghost predicate AllContexts(pool: Pool, names: Names, m: Model)
    requires |names| <= POOL_SIZE
  {
    forall i :: 0 <= i < |names| ==> ContextHolds(pool, names, m, i)
  }

  ghost predicate KnownAt(names: Names, m: Model, i: nat)
    requires i < |names|
  {
    Known(m, names[i])
  }

  ghost predicate AllKnown(names: Names, m: Model) {
    forall i :: 1 <= i < |names| ==> KnownAt(names, m, i)
  }

  ghost predicate AllParents(pool: Pool, names: Names, pending: set<nat>)
    requires |names| <= POOL_SIZE
  {
    forall i :: 1 <= i < |names| && i !in pending ==> ParentAt(pool, names, i)
  }

  ghost predicate Distinct(names: Names) {
    forall i, j :: 0 <= i < j < |names| ==> names[i] != names[j]
  }

  ghost predicate AllNamed(names: Names, m: Model) {
    forall s :: s in m.tables ==> s in names
  }

  /** `pending` are the new symbols whose parent is not known yet. */
  ghost predicate Represents(pool: Pool, names: Names, m: Model, pending: set<nat>) {
    && 0 < |names| == m.next <= POOL_SIZE
    && Closed(pool, |names|)
    && names[0] == []
    && Distinct(names)
    && AllContexts(pool, names, m)
    && AllKnown(names, m)
    && AllParents(pool, names, pending)
    && AllNamed(names, m)
  }

  lemma RootIsFirst(pool: Pool, names: Names, m: Model, pending: set<nat>, c: nat)
    requires Represents(pool, names, m, pending) && c < |names|
    ensures |names| == m.next <= POOL_SIZE && (c == 0 <==> names[c] == [])
    ensures ContextHolds(pool, names, m, c)
  {
  }

  lemma MorePending(pool: Pool, names: Names, m: Model, pending: set<nat>, more: set<nat>)
    requires Represents(pool, names, m, pending) && pending <= more
    ensures Represents(pool, names, m, more)
  {
  }

  /** Only the tree of `s` and the context numbers of its symbol `c` may differ. */
  ghost predicate ChangesOnly(pool: Pool, pool': Pool, names: Names, s: Context, c: nat)
    requires |names| <= POOL_SIZE
  {
    forall j :: 0 <= j < |names| ==>
      && (names[j] != s + [pool[j].value] ==> SameTreePart(pool[j], pool'[j]))
      && pool'[j].value == pool[j].value
      && pool'[j].parent == pool[j].parent
      && (j != c ==> SameContextPart(pool[j], pool'[j]))
  }

  lemma {:induction false} ContextFrame(
    pool: Pool, names: Names, pool': Pool, names': Names, s: Context, c: nat, i: nat, t: Table)
    requires i < |names| <= |names'| <= POOL_SIZE && names <= names' && i != c && names[i] != s
    requires ChangesOnly(pool, pool', names, s, c)
    requires ContextAt(pool, names, i, t)
    ensures ContextAt(pool', names', i, t)
  {
    if pool[i].symbols != 0 {
      forall j | 0 <= j < |names| && InRange(pool, names, names[i], 0, 256, j) ensures SameTreePart(pool[j], pool'[j]) {
        assert (names[i] + [pool[j].value])[..|names[j]| - 1] == names[i];
        assert (s + [pool[j].value])[..|s|] == s;
      }
      SubtreeFrame(pool, names, t.counts, pool', names', t.counts, names[i], i + pool[i].symbols, 0, 256);
    }
  }

  /** The context `c` has the table `t` now, and there may be one more symbol in its tree. */
  ghost predicate OneContextNew(
    pool: Pool, names: Names, m: Model, c: nat, pool': Pool, names': Names, t: Table, created: bool, v: u8)
  {
    && c < |names| <= |names'| <= POOL_SIZE
    && ChangesOnly(pool, pool', names, names[c], c)
    && Closed(pool', |names'|)
    && ContextAt(pool', names', c, t)
    && (forall v: nat :: v < 256 && 0 < m.Get(names[c]).counts[v] ==> 0 < t.counts[v])
    && (if created then NewName(pool', names, names', m, names[c], v) && 0 < t.counts[v] else names' == names)
  }

  ghost predicate NewName(pool': Pool, names: Names, names': Names, m: Model, s: Context, v: u8) {
    && |names| < POOL_SIZE
    && names' == names + [s + [v]]
    && m.Count(s, v) == 0
    && pool'[|names|] == NewSymbol(v, Delta(s))
  }

  lemma NewNameIsNew(names: Names, m: Model, s: Context, v: u8)
    requires AllKnown(names, m) && AllNamed(names, m) && m.Count(s, v) == 0 && 0 < |names| && names[0] == []
    ensures s + [v] !in names && s + [v] !in m.tables
  {
    var name := s + [v];
    assert name[..|name| - 1] == s;
    forall i | 0 <= i < |names| ensures names[i] != name {
      assert i > 0 ==> KnownAt(names, m, i);
    }
  }

  /** Changing one context, perhaps with a new symbol, changes just its table in the model. */
  lemma {:induction false} OneContextChanged(
    pool: Pool, names: Names, m: Model, pending: set<nat>, c: nat, pool': Pool, names': Names, t: Table, created: bool, v: u8)
    requires Represents(pool, names, m, pending)
    requires OneContextNew(pool, names, m, c, pool', names', t, created, v)
    ensures Represents(pool', names', m.Put(names[c], t).(next := |names'|), if created && names[c] != [] then pending + {|names|} else pending)
  {
    if created {
      NewNameIsNew(names, m, names[c], v);
    }
    ChangedContexts(pool, names, m, pending, c, pool', names', t, created, v);
    ChangedKnown(pool, names, m, pending, c, pool', names', t, created, v);
    ChangedParents(pool, names, m, pending, c, pool', names', t, created, v);
    assert names[c] == names'[c];
  }

  lemma {:induction false} ChangedContexts(
    pool: Pool, names: Names, m: Model, pending: set<nat>, c: nat, pool': Pool, names': Names, t: Table, created: bool, v: u8)
    requires Represents(pool, names, m, pending)
    requires OneContextNew(pool, names, m, c, pool', names', t, created, v)
    requires created ==> names[c] + [v] !in names && names[c] + [v] !in m.tables
    ensures AllContexts(pool', names', m.Put(names[c], t).(next := |names'|))
  {
    var s := names[c];
    var m' := m.Put(s, t).(next := |names'|);
    forall i | 0 <= i < |names'| ensures ContextHolds(pool', names', m', i) {
      if i == c {
      } else if i < |names| {
        assert ContextHolds(pool, names, m, i);
        ContextFrame(pool, names, pool', names', s, c, i, m.Get(names[i]));
      } else {
        assert names'[i] == s + [v];
        assert m'.Get(s + [v]) == NewTable(s + [v]);
      }
    }
  }

  lemma {:induction false} ChangedKnown(
    pool: Pool, names: Names, m: Model, pending: set<nat>, c: nat, pool': Pool, names': Names, t: Table, created: bool, v: u8)
    requires Represents(pool, names, m, pending)
    requires OneContextNew(pool, names, m, c, pool', names', t, created, v)
    ensures AllKnown(names', m.Put(names[c], t).(next := |names'|))
  {
    var s := names[c];
    var m' := m.Put(s, t).(next := |names'|);
    forall i | 1 <= i < |names'| ensures KnownAt(names', m', i) {
      if i < |names| {
        assert KnownAt(names, m, i);
      } else {
        assert names'[i] == s + [v];
        assert names'[i][..|names'[i]| - 1] == s;
      }
    }
  }

  lemma {:induction false} ChangedParents(
    pool: Pool, names: Names, m: Model, pending: set<nat>, c: nat, pool': Pool, names': Names, t: Table, created: bool, v: u8)
    requires Represents(pool, names, m, pending)
    requires OneContextNew(pool, names, m, c, pool', names', t, created, v)
    ensures AllParents(pool', names', if created && names[c] != [] then pending + {|names|} else pending)
  {
    var pending' := if created && names[c] != [] then pending + {|names|} else pending;
    forall i | 1 <= i < |names'| && i !in pending' ensures ParentAt(pool', names', i) {
      if i < |names| {
        assert ParentAt(pool, names, i);
      } else {
        assert names'[i] == [v];
      }
    }
  }

  // ------------------------------------------------------------- the steps

  ghost predicate SmallTable(s: Context, t: Table) {
    && (forall v: nat :: v < 256 ==> t.counts[v] + Delta(s) < 0x100)
    && Below(t.counts, 256) + Delta(s) + 256 * Minimum(s) < BOTTOM
  }

  /** The symbol for `v` waits for its parent if it is new, except that the root's symbols have
      the root, whose index is 0, as their parent from the start. */
  ghost function Waiting(s: Context, t: Table, v: u8, symbol: nat): set<nat> {
    if t.counts[v] == 0 && s != [] then {symbol} else {}
  }

  /** ENET_CONTEXT_ENCODE in a represented model: it counts the byte up in one context's
      table and returns what SlotOf needs. */
  lemma {:induction false} EncodeRepresents(pool: Pool, names: Names, m: Model, pending: set<nat>, c: nat, v: u8)
    requires Represents(pool, names, m, pending) && c < |names| < POOL_SIZE
    requires SmallTable(names[c], m.Get(names[c]))
    ensures var s := names[c];
            var t := m.Get(s);
            var r := Encode(pool, |names|, c, v, Delta(s), Minimum(s));
            var names' := NamesAfter(names, s, t.counts, v);
            && r.under == v * Minimum(s) + Below(t.counts, v)
            && r.count == t.counts[v] + Minimum(s)
            && r.next == |names'| && r.symbol < |names'| && names'[r.symbol] == s + [v]
            && (t.counts[v] == 0 ==> r.symbol == |names|)
            && Represents(r.pool, names', m.Put(s, Counted(s, t, v)).(next := r.next), pending + Waiting(s, t, v, r.symbol))
  {
    EncodeInContext(pool, names, m, pending, c, v);
    hide Encode, Below, OneContextNew, Represents, NamesAfter, Counted, Delta, Minimum;
    var s := names[c];
    var t := m.Get(s);
    var n := |names|;
    var r := Encode(pool, n, c, v, Delta(s), Minimum(s));
    OneContextChanged(pool, names, m, pending, c, r.pool, NamesAfter(names, s, t.counts, v), Counted(s, t, v), t.counts[v] == 0, v);
    assert pending + Waiting(s, t, v, r.symbol) == if t.counts[v] == 0 && s != [] then pending + {n} else pending;
  }

  /** What the walk does to the context's own tree. */
  lemma {:induction false} EncodeInContext(pool: Pool, names: Names, m: Model, pending: set<nat>, c: nat, v: u8)
    requires Represents(pool, names, m, pending) && c < |names| < POOL_SIZE
    requires SmallTable(names[c], m.Get(names[c]))
    ensures var s := names[c];
            var t := m.Get(s);
            var r := Encode(pool, |names|, c, v, Delta(s), Minimum(s));
            var names' := NamesAfter(names, s, t.counts, v);
            && r.under == v * Minimum(s) + Below(t.counts, v)
            && r.count == t.counts[v] + Minimum(s)
            && r.next == |names'| && r.symbol < |names'| && names'[r.symbol] == s + [v]
            && (t.counts[v] == 0 ==> r.symbol == |names|)
            && OneContextNew(pool, names, m, c, r.pool, names', Counted(s, t, v), t.counts[v] == 0, v)
  {
    hide Descend, AllContexts, AllKnown, AllParents, AllNamed;
    var s := names[c];
    var t := m.Get(s);
    var d := Delta(s);
    RootIsFirst(pool, names, m, pending, c);
    var n := |names|;
    var r := Encode(pool, n, c, v, d, Minimum(s));
    var names' := NamesAfter(names, s, t.counts, v);
    var t' := Counted(s, t, v);
    if pool[c].symbols == 0 {
      BelowZeros(t.counts, 0, v);
      LeafCounts(r.pool, names', s, t.counts, 0, 256, v, d);
      assert c + r.pool[c].symbols == n;
    } else {
      var i := c + pool[c].symbols;
      BelowMonotone(t.counts, 0, 256);
      DescendCounts(pool, names, s, t.counts, i, 0, 256, v, d, v * Minimum(s), Minimum(s));
      assert Walked(r, pool, names, s, t.counts, i, 0, 256, v, d);
      assert !InRange(pool, names, s, 0, 256, c);
    }
    assert ChangesOnly(pool, r.pool, names, s, c);
  }

  lemma LinkRepresents(pool: Pool, names: Names, m: Model, pending: set<nat>, i: nat, parent: u16)
    requires Represents(pool, names, m, pending) && i < |names| && i != 0
    requires parent < |names| && names[parent] == names[i][1..]
    ensures Represents(pool[i := pool[i].(parent := parent)], names, m, pending - {i})
  {
    var pool' := pool[i := pool[i].(parent := parent)];
    assert ClosedAt(pool, i, |names|);
    ClosedAfter(pool, |names|, i, pool'[i]);
    forall j | 0 <= j < |names| ensures ContextHolds(pool', names, m, j) {
      var t := m.Get(names[j]);
      assert ContextHolds(pool, names, m, j);
      if pool[j].symbols != 0 {
        SubtreeFrame(pool, names, t.counts, pool', names, t.counts, names[j], j + pool[j].symbols, 0, 256);
      }
    }
    forall j | 1 <= j < |names| && j !in pending - {i} ensures ParentAt(pool', names, j) {
      assert j != i ==> ParentAt(pool, names, j);
    }
  }

  /** New context numbers for the context `c`. */
  lemma {:induction false} NumbersRepresent(
    pool: Pool, names: Names, m: Model, pending: set<nat>, c: nat, escapes: u16, total: u16)
    requires Represents(pool, names, m, pending) && c < |names|
    ensures var t := m.Get(names[c]).(escapes := escapes, total := total);
            Represents(pool[c := pool[c].(escapes := escapes, total := total)], names, m.Put(names[c], t), pending)
  {
    var s := names[c];
    var t := m.Get(s).(escapes := escapes, total := total);
    var pool' := pool[c := pool[c].(escapes := escapes, total := total)];
    assert ClosedAt(pool, c, |names|);
    ClosedAfter(pool, |names|, c, pool'[c]);
    assert ContextHolds(pool, names, m, c);
    if pool[c].symbols != 0 {
      SubtreeFrame(pool, names, t.counts, pool', names, t.counts, s, c + pool[c].symbols, 0, 256);
    }
    OneContextChanged(pool, names, m, pending, c, pool', names, t, false, 0);
  }

  /** enet_symbol_rescale on the context `c`. */
  lemma {:induction false} HalveRepresents(pool: Pool, names: Names, m: Model, pending: set<nat>, c: nat)
    requires Represents(pool, names, m, pending) && c < |names|
    requires Below(m.Get(names[c]).counts, 256) < BOTTOM
    ensures var t := m.Get(names[c]);
            var t' := t.(counts := Halve(t.counts));
            if pool[c].symbols == 0 then
              Below(t'.counts, 256) == 0 && Represents(pool, names, m.Put(names[c], t'), pending)
            else
              && ClosedAt(pool, c, |names|)
              && var r := HalveTree(pool, |names|, c + pool[c].symbols);
              r.1 == Below(t'.counts, 256) && Represents(r.0, names, m.Put(names[c], t'), pending)
  {
    var s := names[c];
    var t := m.Get(s);
    var t' := t.(counts := Halve(t.counts));
    assert ContextHolds(pool, names, m, c);
    if pool[c].symbols == 0 {
      HalveZeros(t.counts, 0, 256);
      OneContextChanged(pool, names, m, pending, c, pool, names, t', false, 0);
    } else {
      var i := c + pool[c].symbols;
      assert ClosedAt(pool, c, |names|);
      HalveCounts(pool, names, s, t.counts, i, 0, 256);
      var r := HalveTree(pool, |names|, i);
      SameLinksClosed(pool, r.0, |names|);
      assert !InRange(pool, names, s, 0, 256, c);
      OneContextChanged(pool, names, m, pending, c, r.0, names, t', false, 0);
    }
  }

  lemma NewPoolRepresents(pool: Pool)
    requires pool[0] == NewSymbol(0, 0).(escapes := 1, total := 1 + 256)
    ensures Represents(pool, [[]], NewModel, {})
  {
    var names: Names := [[]];
    assert ClosedAt(pool, 0, 1);
    assert ContextHolds(pool, names, NewModel, 0);
  }
}
