/** Puts and deletes in LMDB's B+tree: splitting, moving nodes between neighbours, merging, and the
    root's growth and collapse. */
module BTreeUpdate {
  import opened BTree

  /** The size of pages: which contents fit, where the split of an overfull page falls when the new node
      is at an index, and which pages are above the fill threshold. */
  datatype Policy = Policy(
    leafFits: seq<Entry> -> bool, branchFits: seq<Slot> -> bool,
    leafSplit: (seq<Entry>, nat) -> nat, branchSplit: (seq<Slot>, nat) -> nat,
    leafFull: seq<Entry> -> bool, branchFull: seq<Slot> -> bool)

  /** A split leaves nodes on both pages, and two children on both branch pages. */
  ghost predicate Sane(p: Policy) {
    && (forall es, at: nat :: !p.leafFits(es) ==> 1 <= p.leafSplit(es, at) < |es|)
    && (forall slots, at: nat :: !p.branchFits(slots) ==> 2 <= p.branchSplit(slots, at) <= |slots| - 2)
  }

  /** What becomes of a page: it stays one page, or it is split and the key goes up with the right one. */
  datatype Up = One(tree: Tree) | Two(left: Tree, key: int, right: Tree)

  // -------------------------------------------------------------------- puts

  /** A leaf with new contents, split if they do not fit. */
  function GrowLeaf(es: seq<Entry>, at: nat, p: Policy): Up {
    if p.leafFits(es) then One(Leaf(es))
    else
      var s := p.leafSplit(es, at);
      if 0 < s < |es| then Two(Leaf(es[..s]), es[s].key, Leaf(es[s..])) else One(Leaf(es))
  }

  function WithoutKey(slots: seq<Slot>): seq<Slot>
    requires slots != []
  {
    [slots[0].(key := None)] + slots[1..]
  }

  /** A branch with new contents, split if they do not fit; the right page's first key goes up. */
  function GrowBranch(slots: seq<Slot>, at: nat, p: Policy): Up {
    if p.branchFits(slots) then One(Branch(slots))
    else
      var s := p.branchSplit(slots, at);
      if 0 < s < |slots| && slots[s].key.Some? then
        Two(Branch(slots[..s]), slots[s].key.value, Branch(WithoutKey(slots[s..])))
      else One(Branch(slots))
  }

  /** The slots that a page takes in its parent. */
  function SlotsFor(key: Option<int>, up: Up): (slots: seq<Slot>)
    ensures slots != [] && slots[0].key == key
  {
    match up
    case One(t) => [Slot(key, t)]
    case Two(l, k, r) => [Slot(key, l), Slot(Some(k), r)]
  }

  /** A branch after its child c changed: a split child takes two slots. */
  function Refill(slots: seq<Slot>, c: nat, up: Up, p: Policy): Up
    requires c < |slots|
  {
    var more := Replace(slots, c, c + 1, SlotsFor(slots[c].key, up));
    if up.One? then One(Branch(more)) else GrowBranch(more, c + 1, p)
  }

  /** mdb_cursor_put below one page. */
  function Insert(t: Tree, k: int, v: int, p: Policy): Up
    decreases t
  {
    match t
    case Leaf(es) => GrowLeaf(PutIn(es, k, v), Index(es, k), p)
    case Branch(slots) =>
      if slots == [] then One(t)
      else
        var c := Pick(slots, |slots| - 1, k);
        Refill(slots, c, Insert(slots[c].child, k, v, p), p)
  }

  /** A page or its two halves, between bounds and with the given entries. */
  predicate UpOk(up: Up, h: nat, lo: Option<int>, hi: Option<int>, es: seq<Entry>) {
    match up
    case One(t) => Tidy(t, h, lo, hi, 1) && Entries(t) == es
    case Two(l, key, r) => Tidy(l, h, lo, Some(key), 1) && Tidy(r, h, Some(key), hi, 1) && Entries(l) + Entries(r) == es
  }

  lemma GrowLeafOk(es: seq<Entry>, at: nat, p: Policy, lo: Option<int>, hi: Option<int>)
    requires Sane(p) && Sorted(es) && AllIn(es, lo, hi) && es != []
    ensures UpOk(GrowLeaf(es, at, p), 1, lo, hi, es)
  {
    var s := p.leafSplit(es, at);
    if !p.leafFits(es) {
      assert es == es[..s] + es[s..];
    }
  }

  /** The key of the first slot bounds nothing within the page. */
  lemma FirstKeyFree(slots: seq<Slot>, h: nat, lo: Option<int>, hi: Option<int>)
    requires slots != []
    ensures Slots(WithoutKey(slots), h, lo, hi) == Slots(slots, h, lo, hi) && All(WithoutKey(slots)) == All(slots)
  {
    assert WithoutKey(slots)[1..] == slots[1..];
  }

  lemma GrowBranchOk(slots: seq<Slot>, at: nat, p: Policy, h: nat, lo: Option<int>, hi: Option<int>)
    requires Sane(p) && Slots(slots, h, lo, hi) && |slots| >= 2 && slots[0].key == None && h >= 1
    ensures UpOk(GrowBranch(slots, at, p), h + 1, lo, hi, All(slots))
  {
    hide Slots, All;
    var s := p.branchSplit(slots, at);
    if !p.branchFits(slots) {
      assert slots == slots[..s] + slots[s..];
      SlotsCut(slots[..s], slots[s..], h, lo, hi);
      AllConcat(slots[..s], slots[s..]);
      FirstKeyFree(slots[s..], h, slots[s].key, hi);
    }
  }

  lemma SlotsForOk(key: Option<int>, up: Up, h: nat, lo: Option<int>, hi: Option<int>, es: seq<Entry>)
    requires UpOk(up, h, lo, hi, es)
    ensures Slots(SlotsFor(key, up), h, lo, hi) && All(SlotsFor(key, up)) == es
  {
    hide Tidy;
    match up
    case One(t) => OneSlot(Slot(key, t));
    case Two(l, k, r) =>
      TwoSlots(Slot(key, l), Slot(Some(k), r));
      assert [Slot(key, l), Slot(Some(k), r)][1..] == [Slot(Some(k), r)];
  }

  /** A put keeps the tree tidy and puts the entry into the sorted list of all entries. */
  lemma {:induction false} InsertOk(t: Tree, k: int, v: int, p: Policy, h: nat, lo: Option<int>, hi: Option<int>)
    requires Sane(p) && Tidy(t, h, lo, hi, 1) && In(k, lo, hi)
    ensures UpOk(Insert(t, k, v, p), h, lo, hi, PutIn(Entries(t), k, v))
    decreases h
  {
    hide Tidy, Slots, All, PutIn, In, UpOk, Sane, Refill, GrowLeaf, Insert, Entries;
    if t.Leaf? {
      InsertLeafOk(t.entries, k, v, p, h, lo, hi);
    } else {
      var slots := t.slots;
      TidyBranch(slots, h, lo, hi, 1);
      var c := FollowOk(slots, k, v, h - 1, lo, hi);
      InsertOk(slots[c].child, k, v, p, h - 1, LowOf(slots, c, lo), HighOf(slots, c + 1, hi));
      RefillOk(slots, c, Insert(slots[c].child, k, v, p), p, h - 1, lo, hi, PutIn(Entries(slots[c].child), k, v));
      InsertIs(slots, k, v, p);
    }
  }

  lemma TidyBranch(slots: seq<Slot>, h: nat, lo: Option<int>, hi: Option<int>, min: nat)
    requires Tidy(Branch(slots), h, lo, hi, min)
    ensures h >= 2 && |slots| >= 1 + min && slots[0].key == None && Slots(slots, h - 1, lo, hi)
    ensures Entries(Branch(slots)) == All(slots)
  {
  }

  lemma InsertIs(slots: seq<Slot>, k: int, v: int, p: Policy)
    requires slots != []
    ensures var c := Pick(slots, |slots| - 1, k);
            Insert(Branch(slots), k, v, p) == Refill(slots, c, Insert(slots[c].child, k, v, p), p)
  {
  }

  lemma InsertLeafOk(es: seq<Entry>, k: int, v: int, p: Policy, h: nat, lo: Option<int>, hi: Option<int>)
    requires Sane(p) && Tidy(Leaf(es), h, lo, hi, 1) && In(k, lo, hi)
    ensures UpOk(Insert(Leaf(es), k, v, p), h, lo, hi, PutIn(Entries(Leaf(es)), k, v))
  {
    PutSorted(es, k, v, lo, hi);
    PutNotEmpty(es, k, v);
    hide PutIn, UpOk, Sane, GrowLeaf;
    GrowLeafOk(PutIn(es, k, v), Index(es, k), p, lo, hi);
  }

  lemma PutNotEmpty(es: seq<Entry>, k: int, v: int)
    ensures PutIn(es, k, v) != []
  {
  }

  /** The child to follow: its bounds hold the key, and only its entries are concerned. */
  lemma FollowOk(slots: seq<Slot>, k: int, v: int, h: nat, lo: Option<int>, hi: Option<int>) returns (c: nat)
    requires Slots(slots, h, lo, hi) && In(k, lo, hi)
    ensures c < |slots| && c == Pick(slots, |slots| - 1, k) && In(k, LowOf(slots, c, lo), HighOf(slots, c + 1, hi))
    ensures Tidy(slots[c].child, h, LowOf(slots, c, lo), HighOf(slots, c + 1, hi), 1)
    ensures PutIn(All(slots), k, v) == All(slots[..c]) + PutIn(Entries(slots[c].child), k, v) + All(slots[c + 1..])
    ensures BTree.CutFrom(All(slots), k) == All(slots[..c]) + BTree.CutFrom(Entries(slots[c].child), k) + All(slots[c + 1..])
    ensures Lookup(All(slots), k) == Lookup(Entries(slots[c].child), k) && Has(All(slots), k) == Has(Entries(slots[c].child), k)
  {
    c := Pick(slots, |slots| - 1, k);
    PickBounds(slots, |slots| - 1, k, h, lo, hi);
    hide Slots, All, PutIn, BTree.CutFrom, Lookup, In, Pick, Tidy, Entries, Has;
    AroundChild(slots, c, k, h, lo, hi);
    StretchPut(All(slots[..c]), Entries(slots[c].child), All(slots[c + 1..]), k, v);
    StretchIndex(All(slots[..c]), Entries(slots[c].child), All(slots[c + 1..]), k);
  }

  lemma RefillOk(slots: seq<Slot>, c: nat, up: Up, p: Policy, h: nat, lo: Option<int>, hi: Option<int>, es: seq<Entry>)
    requires Sane(p) && |slots| >= 2 && slots[0].key == None && Slots(slots, h, lo, hi) && h >= 1 && c < |slots|
    requires UpOk(up, h, LowOf(slots, c, lo), HighOf(slots, c + 1, hi), es)
    ensures UpOk(Refill(slots, c, up, p), h + 1, lo, hi, All(slots[..c]) + es + All(slots[c + 1..]))
  {
    hide Slots, All, UpOk, Sane, GrowBranch, Tidy;
    var mid := SlotsFor(slots[c].key, up);
    SlotsForOk(slots[c].key, up, h, LowOf(slots, c, lo), HighOf(slots, c + 1, hi), es);
    SegmentReplaced(slots, c, c + 1, mid, h, lo, hi);
    var more := Replace(slots, c, c + 1, mid);
    if up.One? {
      BranchOk(more, h, lo, hi);
    } else {
      GrowBranchOk(more, c + 1, p, h, lo, hi);
    }
  }

  lemma BranchOk(slots: seq<Slot>, h: nat, lo: Option<int>, hi: Option<int>)
    requires Slots(slots, h, lo, hi) && |slots| >= 2 && slots[0].key == None && h >= 1
    ensures UpOk(One(Branch(slots)), h + 1, lo, hi, All(slots))
  {
    hide Slots, All;
  }

  // ----------------------------------------------------------------- deletes

  /** A page after a delete; `shrunk` says that it lost a node, so that it may need rebalancing. */
  datatype Down = Down(up: Up, shrunk: bool)

  /** The number of nodes on a page. */
  function NumKeys(t: Tree): nat {
    match t
    case Leaf(es) => |es|
    case Branch(slots) => |slots|
  }

  function MinKeys(t: Tree): nat {
    if t.Leaf? then 1 else 2
  }

  predicate Full(t: Tree, p: Policy) {
    match t
    case Leaf(es) => p.leafFull(es)
    case Branch(slots) => p.branchFull(slots)
  }

  /** The lowest key under a page. */
  function Lowest(t: Tree): int {
    var es := Entries(t);
    if es == [] then 0 else es[0].key
  }

  function Keyed(s: Slot): Slot {
    s.(key := Some(Lowest(s.child)))
  }

  /** mdb_node_move of the right neighbour's first node to the end of the page on its left. */
  function MoveFromRight(c: Tree, n: Tree): (r: (Tree, int, Tree)) {
    match (c, n)
    case (Leaf(es), Leaf(ns)) =>
      if |ns| < 2 then (c, 0, n) else (Leaf(es + [ns[0]]), ns[1].key, Leaf(ns[1..]))
    case (Branch(slots), Branch(ns)) =>
      if |ns| < 2 || ns[1].key.None? then (c, 0, n)
      else (Branch(slots + [Keyed(ns[0])]), ns[1].key.value, Branch(WithoutKey(ns[1..])))
    case _ => (c, 0, n)
  }

  /** mdb_node_move of the left neighbour's last node to the front of the page on its right. */
  function MoveFromLeft(n: Tree, c: Tree): (r: (Tree, int, Tree)) {
    match (n, c)
    case (Leaf(ns), Leaf(es)) =>
      if ns == [] then (n, 0, c) else
        var last := ns[|ns| - 1];
        (Leaf(ns[..|ns| - 1]), last.key, Leaf([last] + es))
    case (Branch(ns), Branch(slots)) =>
      if ns == [] || slots == [] || ns[|ns| - 1].key.None? then (n, 0, c) else
        var last := ns[|ns| - 1];
        (Branch(ns[..|ns| - 1]), last.key.value, Branch([last.(key := None), Keyed(slots[0])] + slots[1..]))
    case _ => (n, 0, c)
  }

  /** mdb_page_merge of the right page into the left one. */
  function Merge(l: Tree, r: Tree): Tree {
    match (l, r)
    case (Leaf(ls), Leaf(rs)) => Leaf(ls + rs)
    case (Branch(ls), Branch(rs)) => if rs == [] then l else Branch(ls + ([Keyed(rs[0])] + rs[1..]))
    case _ => l
  }

  /** mdb_rebalance: child i of the page, which lost a node and is now c, is left alone, refilled from a
      neighbour, or merged with it. */
  function Rebalance(slots: seq<Slot>, i: nat, c: Tree, p: Policy): Down
    requires i < |slots|
  {
    var same := slots[i := slots[i].(child := c)];
    if Full(c, p) && NumKeys(c) >= MinKeys(c) then Down(One(Branch(same)), false)
    else if |slots| < 2 then Down(One(Branch(same)), false)
    else if i == 0 then
      var n := slots[1].child;
      if Full(n, p) && NumKeys(n) > MinKeys(n) then
        var (c', key, n') := MoveFromRight(c, n);
        Down(GrowBranch(Replace(slots, 0, 2, [Slot(slots[0].key, c'), Slot(Some(key), n')]), 1, p), false)
      else Down(One(Branch(Replace(slots, 0, 2, [Slot(slots[0].key, Merge(c, n))]))), true)
    else
      var n := slots[i - 1].child;
      if Full(n, p) && NumKeys(n) > MinKeys(n) then
        var (n', key, c') := MoveFromLeft(n, c);
        Down(GrowBranch(Replace(slots, i - 1, i + 1, [Slot(slots[i - 1].key, n'), Slot(Some(key), c')]), i, p), false)
      else Down(One(Branch(Replace(slots, i - 1, i + 1, [Slot(slots[i - 1].key, Merge(n, c))]))), true)
  }

  /** mdb_cursor_del below one page. */
  function Delete(t: Tree, k: int, p: Policy): Down
    decreases t
  {
    match t
    case Leaf(es) => Down(One(Leaf(BTree.CutFrom(es, k))), true)
    case Branch(slots) =>
      if slots == [] then Down(One(t), false)
      else
        var c := Pick(slots, |slots| - 1, k);
        var down := Delete(slots[c].child, k, p);
        if down.shrunk && down.up.One? then Rebalance(slots, c, down.up.tree, p)
        else Down(Refill(slots, c, down.up, p), false)
  }

  predicate DownOk(d: Down, h: nat, lo: Option<int>, hi: Option<int>, es: seq<Entry>) {
    if d.shrunk then d.up.One? && Tidy(d.up.tree, h, lo, hi, 0) && Entries(d.up.tree) == es
    else UpOk(d.up, h, lo, hi, es)
  }

  // ------------------------------------------------------ bounds of one page

  predicate NotAbove(hi: Option<int>, hi': Option<int>) {
    hi'.Some? ==> hi.Some? && hi.value <= hi'.value
  }

  /** A higher upper bound. */
  lemma {:induction false} RaiseHigh(t: Tree, h: nat, lo: Option<int>, hi: Option<int>, hi': Option<int>, min: nat)
    requires Tidy(t, h, lo, hi, min) && NotAbove(hi, hi')
    ensures Tidy(t, h, lo, hi', min)
    decreases h, 0
  {
    if t.Branch? {
      RaiseHighSlots(t.slots, h - 1, lo, hi, hi');
    }
  }

  lemma {:induction false} RaiseHighSlots(slots: seq<Slot>, h: nat, lo: Option<int>, hi: Option<int>, hi': Option<int>)
    requires Slots(slots, h, lo, hi) && NotAbove(hi, hi')
    ensures Slots(slots, h, lo, hi')
    decreases h, |slots|
  {
    if |slots| == 1 {
      RaiseHigh(slots[0].child, h, lo, hi, hi', 1);
    } else {
      RaiseHighSlots(slots[1..], h, slots[1].key, hi, hi');
    }
  }

  /** The lowest key is a lower bound. */
  lemma {:induction false} RaiseLow(t: Tree, h: nat, lo: Option<int>, hi: Option<int>, min: nat)
    requires Tidy(t, h, lo, hi, min) && Entries(t) != []
    ensures Tidy(t, h, Some(Lowest(t)), hi, min) && In(Lowest(t), lo, hi)
    decreases h, 0
  {
    TidyOrder(t, h, lo, hi, min);
    if t.Branch? {
      RaiseLowSlots(t.slots, h - 1, lo, hi);
    }
  }

  lemma {:induction false} RaiseLowSlots(slots: seq<Slot>, h: nat, lo: Option<int>, hi: Option<int>)
    requires Slots(slots, h, lo, hi)
    ensures All(slots) != [] && Slots(slots, h, Some(All(slots)[0].key), hi)
    ensures All(slots)[0].key == Lowest(slots[0].child)
    decreases h, |slots|
  {
    TidyOrder(slots[0].child, h, lo, if |slots| == 1 then hi else slots[1].key, 1);
    RaiseLow(slots[0].child, h, lo, if |slots| == 1 then hi else slots[1].key, 1);
  }

  // ------------------------------------------------------- moves and merging

  /** Two neighbouring pages, as a pair of slots would hold them. */
  predicate PairOk(l: Tree, key: int, r: Tree, h: nat, lo: Option<int>, hi: Option<int>, es: seq<Entry>) {
    Tidy(l, h, lo, Some(key), 1) && Tidy(r, h, Some(key), hi, 1) && Entries(l) + Entries(r) == es
  }

  lemma MoveRightLeaf(c: Tree, n: Tree, lo: Option<int>, mid: int, hi: Option<int>)
    requires c.Leaf? && n.Leaf? && Tidy(c, 1, lo, Some(mid), 0) && Tidy(n, 1, Some(mid), hi, 1) && |n.entries| >= 2
    requires In(mid, lo, hi)
    ensures var (c', key, n') := MoveFromRight(c, n); PairOk(c', key, n', 1, lo, hi, Entries(c) + Entries(n))
  {
    var es, ns := c.entries, n.entries;
    assert In(ns[0].key, Some(mid), hi) && In(ns[1].key, Some(mid), hi);
    assert (es + [ns[0]]) + ns[1..] == es + ns;
  }

  lemma MoveLeftLeaf(n: Tree, c: Tree, lo: Option<int>, mid: int, hi: Option<int>)
    requires c.Leaf? && n.Leaf? && Tidy(n, 1, lo, Some(mid), 1) && Tidy(c, 1, Some(mid), hi, 0) && |n.entries| >= 2
    requires In(mid, lo, hi)
    ensures var (n', key, c') := MoveFromLeft(n, c); PairOk(n', key, c', 1, lo, hi, Entries(n) + Entries(c))
  {
    var es, ns := c.entries, n.entries;
    var last := ns[|ns| - 1];
    assert In(last.key, lo, Some(mid));
    assert ns[..|ns| - 1] + ([last] + es) == ns + es;
  }

  lemma MergeLeaf(l: Tree, r: Tree, lo: Option<int>, mid: int, hi: Option<int>, a: nat, b: nat)
    requires l.Leaf? && r.Leaf? && Tidy(l, 1, lo, Some(mid), a) && Tidy(r, 1, Some(mid), hi, b) && a + b >= 1
    requires In(mid, lo, hi)
    ensures Tidy(Merge(l, r), 1, lo, hi, 1) && Entries(Merge(l, r)) == Entries(l) + Entries(r)
  {
  }

  /** A slot that had no key gets the lowest key under it. */
  lemma KeyedSlots(slots: seq<Slot>, h: nat, lo: Option<int>, hi: Option<int>)
    requires Slots(slots, h, lo, hi)
    ensures var keyed := [Keyed(slots[0])] + slots[1..];
            && Slots(keyed, h, keyed[0].key, hi) && All(keyed) == All(slots) && In(keyed[0].key.value, lo, hi)
  {
    RaiseLowSlots(slots, h, lo, hi);
    var keyed := [Keyed(slots[0])] + slots[1..];
    assert keyed[1..] == slots[1..];
    SlotsOrder(slots, h, lo, hi);
  }

  lemma MergeBranch(l: Tree, r: Tree, h: nat, lo: Option<int>, mid: int, hi: Option<int>, a: nat, b: nat)
    requires l.Branch? && r.Branch? && Tidy(l, h, lo, Some(mid), a) && Tidy(r, h, Some(mid), hi, b) && a + b >= 1
    ensures Tidy(Merge(l, r), h, lo, hi, 1) && Entries(Merge(l, r)) == Entries(l) + Entries(r)
  {
    hide Slots, All, Keyed;
    var ls, rs := l.slots, r.slots;
    var keyed := [Keyed(rs[0])] + rs[1..];
    KeyedSlots(rs, h - 1, Some(mid), hi);
    RaiseHighSlots(ls, h - 1, lo, Some(mid), keyed[0].key);
    KeyedKey(rs[0]);
    SlotsJoin(ls, keyed, h - 1, lo, hi);
    AllConcat(ls, keyed);
  }

  lemma KeyedKey(s: Slot)
    ensures Keyed(s).key.Some?
  {
  }

  lemma MoveRightBranch(c: Tree, n: Tree, h: nat, lo: Option<int>, mid: int, hi: Option<int>)
    requires c.Branch? && n.Branch? && Tidy(c, h, lo, Some(mid), 0) && Tidy(n, h, Some(mid), hi, 1) && |n.slots| >= 3
    ensures var (c', key, n') := MoveFromRight(c, n); PairOk(c', key, n', h, lo, hi, Entries(c) + Entries(n))
  {
    hide Slots, All, Keyed;
    var slots, ns := c.slots, n.slots;
    assert ns == [ns[0]] + ns[1..];
    SlotsCut([ns[0]], ns[1..], h - 1, Some(mid), hi);
    var key := ns[1].key;
    KeyedSlots([ns[0]], h - 1, Some(mid), key);
    KeyedKey(ns[0]);
    var first := [Keyed(ns[0])];
    assert [Keyed([ns[0]][0])] + [ns[0]][1..] == first;
    RaiseHighSlots(slots, h - 1, lo, Some(mid), first[0].key);
    SlotsJoin(slots, first, h - 1, lo, key);
    FirstKeyFree(ns[1..], h - 1, key, hi);
    AllConcat(slots, first);
    AllConcat([ns[0]], ns[1..]);
  }

  lemma MoveLeftBranch(n: Tree, c: Tree, h: nat, lo: Option<int>, mid: int, hi: Option<int>)
    requires c.Branch? && n.Branch? && Tidy(n, h, lo, Some(mid), 1) && Tidy(c, h, Some(mid), hi, 0) && |n.slots| >= 3
    ensures var (n', key, c') := MoveFromLeft(n, c); PairOk(n', key, c', h, lo, hi, Entries(n) + Entries(c))
  {
    hide Slots, All, Keyed;
    var slots, ns := c.slots, n.slots;
    var i := |ns| - 1;
    var last := ns[i..];
    assert ns == ns[..i] + last;
    SlotsCut(ns[..i], last, h - 1, lo, Some(mid));
    var key := ns[i].key;
    KeyedSlots(slots, h - 1, Some(mid), hi);
    KeyedKey(slots[0]);
    var keyed := [Keyed(slots[0])] + slots[1..];
    RaiseHighSlots(last, h - 1, key, Some(mid), keyed[0].key);
    SlotsJoin(last, keyed, h - 1, key, hi);
    FirstKeyFree(last + keyed, h - 1, key, hi);
    assert WithoutKey(last + keyed) == [ns[i].(key := None), Keyed(slots[0])] + slots[1..];
    AllConcat(ns[..i], last);
    AllConcat(last, keyed);
  }

  // --------------------------------------------------------------- rebalance

  lemma MoveRightOk(c: Tree, n: Tree, h: nat, lo: Option<int>, mid: int, hi: Option<int>)
    requires Tidy(c, h, lo, Some(mid), 0) && Tidy(n, h, Some(mid), hi, 1) && NumKeys(n) > MinKeys(n) && In(mid, lo, hi)
    ensures var (c', key, n') := MoveFromRight(c, n); PairOk(c', key, n', h, lo, hi, Entries(c) + Entries(n))
  {
    hide PairOk, MoveFromRight, Entries;
    if c.Leaf? {
      MoveRightLeaf(c, n, lo, mid, hi);
    } else {
      MoveRightBranch(c, n, h, lo, mid, hi);
    }
  }

  lemma MoveLeftOk(n: Tree, c: Tree, h: nat, lo: Option<int>, mid: int, hi: Option<int>)
    requires Tidy(n, h, lo, Some(mid), 1) && Tidy(c, h, Some(mid), hi, 0) && NumKeys(n) > MinKeys(n) && In(mid, lo, hi)
    ensures var (n', key, c') := MoveFromLeft(n, c); PairOk(n', key, c', h, lo, hi, Entries(n) + Entries(c))
  {
    hide PairOk, MoveFromLeft, Entries;
    if c.Leaf? {
      MoveLeftLeaf(n, c, lo, mid, hi);
    } else {
      MoveLeftBranch(n, c, h, lo, mid, hi);
    }
  }

  lemma MergeOk(l: Tree, r: Tree, h: nat, lo: Option<int>, mid: int, hi: Option<int>, a: nat, b: nat)
    requires Tidy(l, h, lo, Some(mid), a) && Tidy(r, h, Some(mid), hi, b) && a + b >= 1 && In(mid, lo, hi)
    ensures Tidy(Merge(l, r), h, lo, hi, 1) && Entries(Merge(l, r)) == Entries(l) + Entries(r)
  {
    hide Merge, Entries;
    if l.Leaf? {
      MergeLeaf(l, r, lo, mid, hi, a, b);
    } else {
      MergeBranch(l, r, h, lo, mid, hi, a, b);
    }
  }

  /** Two neighbouring children and the key between them. */
  lemma Neighbours(slots: seq<Slot>, i: nat, h: nat, lo: Option<int>, hi: Option<int>)
    requires Slots(slots, h, lo, hi) && i + 1 < |slots|
    ensures var key := slots[i + 1].key;
            && key.Some? && In(key.value, LowOf(slots, i, lo), HighOf(slots, i + 2, hi))
            && Tidy(slots[i].child, h, LowOf(slots, i, lo), key, 1)
            && Tidy(slots[i + 1].child, h, key, HighOf(slots, i + 2, hi), 1)
    ensures All(slots[i + 1..]) == Entries(slots[i + 1].child) + All(slots[i + 2..])
    ensures All(slots[..i + 1]) == All(slots[..i]) + Entries(slots[i].child)
  {
    Segment(slots, i, i + 1, h, lo, hi);
    Segment(slots, i + 1, i + 2, h, lo, hi);
    SlotsCutKey(slots, i + 1, h, lo, hi);
    assert slots[i..i + 1] == [slots[i]] && slots[i + 1..i + 2] == [slots[i + 1]];
    assert slots[i + 1..] == [slots[i + 1]] + slots[i + 2..] && slots[..i + 1] == slots[..i] + [slots[i]];
    AllConcat([slots[i + 1]], slots[i + 2..]);
    AllConcat(slots[..i], [slots[i]]);
    OneSlot(slots[i]);
    OneSlot(slots[i + 1]);
    TidyOrder(slots[i].child, h, LowOf(slots, i, lo), slots[i + 1].key, 1);
    TidyOrder(slots[i + 1].child, h, slots[i + 1].key, HighOf(slots, i + 2, hi), 1);
    hide Tidy, Slots, All;
    SortedConcat(Entries(slots[i].child), Entries(slots[i + 1].child), LowOf(slots, i, lo), slots[i + 1].key.value, HighOf(slots, i + 2, hi));
  }

  lemma PairReplaced(slots: seq<Slot>, i: nat, l: Tree, key: int, r: Tree, h: nat, lo: Option<int>, hi: Option<int>, es: seq<Entry>)
    requires Slots(slots, h, lo, hi) && i + 1 < |slots|
    requires PairOk(l, key, r, h, LowOf(slots, i, lo), HighOf(slots, i + 2, hi), es)
    ensures var more := Replace(slots, i, i + 2, [Slot(slots[i].key, l), Slot(Some(key), r)]);
            && Slots(more, h, lo, hi) && |more| == |slots| && more[0].key == slots[0].key
            && All(more) == All(slots[..i]) + es + All(slots[i + 2..])
  {
    hide Slots, All, Tidy;
    SlotsForOk(slots[i].key, Two(l, key, r), h, LowOf(slots, i, lo), HighOf(slots, i + 2, hi), es);
    SegmentReplaced(slots, i, i + 2, [Slot(slots[i].key, l), Slot(Some(key), r)], h, lo, hi);
  }

  lemma MergedReplaced(slots: seq<Slot>, i: nat, m: Tree, h: nat, lo: Option<int>, hi: Option<int>)
    requires Slots(slots, h, lo, hi) && i + 1 < |slots| && h >= 1 && slots[0].key == None
    requires Tidy(m, h, LowOf(slots, i, lo), HighOf(slots, i + 2, hi), 1)
    ensures var more := Replace(slots, i, i + 2, [Slot(slots[i].key, m)]);
            && Tidy(Branch(more), h + 1, lo, hi, 0)
            && Entries(Branch(more)) == All(slots[..i]) + Entries(m) + All(slots[i + 2..])
  {
    var up := One(m);
    SlotsForOk(slots[i].key, up, h, LowOf(slots, i, lo), HighOf(slots, i + 2, hi), Entries(m));
    hide Slots, All;
    SegmentReplaced(slots, i, i + 2, [Slot(slots[i].key, m)], h, lo, hi);
  }

  lemma EnoughIsTidy(c: Tree, h: nat, lo: Option<int>, hi: Option<int>)
    requires Tidy(c, h, lo, hi, 0) && NumKeys(c) >= MinKeys(c)
    ensures Tidy(c, h, lo, hi, 1)
  {
  }

  /** Rebalancing keeps all entries in order and gives every page enough nodes; if two pages were merged
      the parent has one child less. */
  lemma RebalanceOk(slots: seq<Slot>, i: nat, c: Tree, p: Policy, h: nat, lo: Option<int>, hi: Option<int>)
    requires Sane(p) && Slots(slots, h, lo, hi) && |slots| >= 2 && slots[0].key == None && h >= 1 && i < |slots|
    requires Tidy(c, h, LowOf(slots, i, lo), HighOf(slots, i + 1, hi), 0)
    ensures DownOk(Rebalance(slots, i, c, p), h + 1, lo, hi, All(slots[..i]) + Entries(c) + All(slots[i + 1..]))
  {
    hide Slots, All, Tidy, Entries, MoveFromLeft, MoveFromRight, Merge, GrowBranch, UpOk, PairOk, Sane, In;
    if Full(c, p) && NumKeys(c) >= MinKeys(c) {
      EnoughIsTidy(c, h, LowOf(slots, i, lo), HighOf(slots, i + 1, hi));
      OneIsOk(c, h, LowOf(slots, i, lo), HighOf(slots, i + 1, hi));
      RefillOk(slots, i, One(c), p, h, lo, hi, Entries(c));
      assert slots[i := slots[i].(child := c)] == Replace(slots, i, i + 1, SlotsFor(slots[i].key, One(c)));
    } else if i == 0 {
      RebalanceFirst(slots, c, p, h, lo, hi);
    } else {
      RebalanceLater(slots, i, c, p, h, lo, hi);
    }
  }

  lemma OneIsOk(c: Tree, h: nat, lo: Option<int>, hi: Option<int>)
    requires Tidy(c, h, lo, hi, 1)
    ensures UpOk(One(c), h, lo, hi, Entries(c))
  {
  }

  lemma RebalanceFirst(slots: seq<Slot>, c: Tree, p: Policy, h: nat, lo: Option<int>, hi: Option<int>)
    requires Sane(p) && Slots(slots, h, lo, hi) && |slots| >= 2 && slots[0].key == None && h >= 1
    requires Tidy(c, h, lo, slots[1].key, 0) && !(Full(c, p) && NumKeys(c) >= MinKeys(c))
    ensures DownOk(Rebalance(slots, 0, c, p), h + 1, lo, hi, All(slots[..0]) + Entries(c) + All(slots[1..]))
  {
    hide Slots, All, Tidy, Entries, MoveFromRight, Merge, GrowBranch, UpOk, PairOk, Sane, In;
    var n, hi2 := slots[1].child, HighOf(slots, 2, hi);
    Neighbours(slots, 0, h, lo, hi);
    var mid := slots[1].key.value;
    Associate(All(slots[..0]), Entries(c), Entries(n), All(slots[2..]));
    if Full(n, p) && NumKeys(n) > MinKeys(n) {
      var (c', key, n') := MoveFromRight(c, n);
      MoveRightOk(c, n, h, lo, mid, hi2);
      PairReplaced(slots, 0, c', key, n', h, lo, hi, Entries(c) + Entries(n));
      GrowBranchOk(Replace(slots, 0, 2, [Slot(slots[0].key, c'), Slot(Some(key), n')]), 1, p, h, lo, hi);
    } else {
      MergeOk(c, n, h, lo, mid, hi2, 0, 1);
      MergedReplaced(slots, 0, Merge(c, n), h, lo, hi);
    }
  }

  lemma RebalanceLater(slots: seq<Slot>, i: nat, c: Tree, p: Policy, h: nat, lo: Option<int>, hi: Option<int>)
    requires Sane(p) && Slots(slots, h, lo, hi) && |slots| >= 2 && slots[0].key == None && h >= 1 && 0 < i < |slots|
    requires Tidy(c, h, slots[i].key, HighOf(slots, i + 1, hi), 0) && !(Full(c, p) && NumKeys(c) >= MinKeys(c))
    ensures DownOk(Rebalance(slots, i, c, p), h + 1, lo, hi, All(slots[..i]) + Entries(c) + All(slots[i + 1..]))
  {
    hide Slots, All, Tidy, Entries, MoveFromLeft, Merge, GrowBranch, UpOk, PairOk, Sane, In;
    var n, lo1, hi1 := slots[i - 1].child, LowOf(slots, i - 1, lo), HighOf(slots, i + 1, hi);
    Neighbours(slots, i - 1, h, lo, hi);
    var mid := slots[i].key.value;
    Associate(All(slots[..i - 1]), Entries(n), Entries(c), All(slots[i + 1..]));
    if Full(n, p) && NumKeys(n) > MinKeys(n) {
      var (n', key, c') := MoveFromLeft(n, c);
      MoveLeftOk(n, c, h, lo1, mid, hi1);
      PairReplaced(slots, i - 1, n', key, c', h, lo, hi, Entries(n) + Entries(c));
      GrowBranchOk(Replace(slots, i - 1, i + 1, [Slot(slots[i - 1].key, n'), Slot(Some(key), c')]), i, p, h, lo, hi);
    } else {
      MergeOk(n, c, h, lo1, mid, hi1, 1, 0);
      MergedReplaced(slots, i - 1, Merge(n, c), h, lo, hi);
    }
  }

  lemma Associate(a: seq<Entry>, b: seq<Entry>, c: seq<Entry>, d: seq<Entry>)
    ensures a + b + (c + d) == a + (b + c) + d && (a + b) + c + d == a + (b + c) + d
  {
  }

  /** A delete keeps the tree tidy, but for the top page, and cuts the entry from the list of all entries. */
  lemma {:induction false} DeleteOk(t: Tree, k: int, p: Policy, h: nat, lo: Option<int>, hi: Option<int>)
    requires Sane(p) && Tidy(t, h, lo, hi, 1) && In(k, lo, hi)
    ensures DownOk(Delete(t, k, p), h, lo, hi, BTree.CutFrom(Entries(t), k))
    decreases h
  {
    hide Tidy, Slots, All, BTree.CutFrom, In, UpOk, Sane, Refill, Delete, Entries, Rebalance;
    if t.Leaf? {
      DeleteLeafOk(t.entries, k, p, h, lo, hi);
    } else {
      var slots := t.slots;
      TidyBranch(slots, h, lo, hi, 1);
      var c := FollowOk(slots, k, 0, h - 1, lo, hi);
      DeleteOk(slots[c].child, k, p, h - 1, LowOf(slots, c, lo), HighOf(slots, c + 1, hi));
      DeleteIs(slots, k, p);
      var down := Delete(slots[c].child, k, p);
      if down.shrunk {
        RebalanceOk(slots, c, down.up.tree, p, h - 1, lo, hi);
      } else {
        RefillOk(slots, c, down.up, p, h - 1, lo, hi, BTree.CutFrom(Entries(slots[c].child), k));
      }
    }
  }

  lemma DeleteIs(slots: seq<Slot>, k: int, p: Policy)
    requires slots != []
    ensures var c := Pick(slots, |slots| - 1, k);
            var down := Delete(slots[c].child, k, p);
            Delete(Branch(slots), k, p) ==
            if down.shrunk && down.up.One? then Rebalance(slots, c, down.up.tree, p) else Down(Refill(slots, c, down.up, p), false)
  {
  }

  lemma DeleteLeafOk(es: seq<Entry>, k: int, p: Policy, h: nat, lo: Option<int>, hi: Option<int>)
    requires Tidy(Leaf(es), h, lo, hi, 1) && In(k, lo, hi)
    ensures DownOk(Delete(Leaf(es), k, p), h, lo, hi, BTree.CutFrom(Entries(Leaf(es)), k))
  {
    PutSorted(es, k, 0, lo, hi);
    hide BTree.CutFrom;
  }
}
