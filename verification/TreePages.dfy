/** What puts and deletes do to the pages of LMDB's B+tree: every page holds its nodes, a page is split exactly
    when it would not, and a page that has lost too much is mended from a neighbour. */
module TreePages {
  import opened BTree
  import opened BTreeUpdate

  // ---------------------------------------------------------------------- room

  function Keys(slots: seq<Slot>): (keys: seq<Option<int>>)
    ensures |keys| == |slots|
  {
    seq(|slots|, i requires 0 <= i < |slots| => slots[i].key)
  }

  function Without<T>(s: seq<T>, i: nat): seq<T>
    requires i < |s|
  {
    s[..i] + s[i + 1..]
  }

  /** A page that mdb_rebalance mends, and a neighbour that has no node to give. */
  predicate ThinLeaf(es: seq<Entry>, p: Policy, more: nat) {
    !p.leafFull(es) || |es| < 1 + more
  }

  predicate ThinBranch(slots: seq<Slot>, p: Policy, more: nat) {
    !p.branchFull(slots) || |slots| < 2 + more
  }

  /** Leaves: one entry fits, fewer fit, the two parts of a split fit, and so do two thin leaves together. */
  ghost predicate LeafRoom(p: Policy) {
    && (forall e: Entry :: p.leafFits([e]))
    && (forall es: seq<Entry>, i: nat :: i < |es| && p.leafFits(es) ==> p.leafFits(Without(es, i)))
    && (forall es: seq<Entry>, at: nat :: at < |es| && !p.leafFits(es) && p.leafFits(Without(es, at)) ==>
          var s := p.leafSplit(es, at); 0 < s < |es| && p.leafFits(es[..s]) && p.leafFits(es[s..]))
    && (forall es: seq<Entry>, e: Entry :: p.leafFits(es) && ThinLeaf(es, p, 0) ==> p.leafFits(es + [e]) && p.leafFits([e] + es))
    && (forall a: seq<Entry>, b: seq<Entry> :: p.leafFits(a) && p.leafFits(b) && ThinLeaf(a, p, 0) && ThinLeaf(b, p, 1) ==>
          p.leafFits(a + b) && p.leafFits(b + a))
  }

  /** The slots of two branch pages put together, the right one's first getting a key. */
  function Joined(a: seq<Slot>, b: seq<Slot>, key: int): seq<Slot>
    requires b != []
  {
    a + ([b[0].(key := Some(key))] + b[1..])
  }

  /** Branch pages, of which only the keys take room; the first node needs none. */
  ghost predicate BranchRoom(p: Policy) {
    && (forall a: seq<Slot>, b: seq<Slot> :: Keys(a) == Keys(b) ==> p.branchFits(a) == p.branchFits(b) && p.branchFull(a) == p.branchFull(b))
    && (forall a: Slot, b: Slot :: a.key == None ==> p.branchFits([a, b]))
    && (forall slots: seq<Slot>, i: nat :: i < |slots| && p.branchFits(slots) ==> p.branchFits(Without(slots, i)))
    && (forall slots: seq<Slot> :: slots != [] && p.branchFits(slots) ==> p.branchFits(WithoutKey(slots)))
    && (forall slots: seq<Slot>, at: nat :: at < |slots| && !p.branchFits(slots) && p.branchFits(Without(slots, at)) ==>
          var s := p.branchSplit(slots, at); 0 < s < |slots| && p.branchFits(slots[..s]) && p.branchFits(WithoutKey(slots[s..])))
    && (forall slots: seq<Slot>, s: Slot :: p.branchFits(slots) && ThinBranch(slots, p, 0) ==> p.branchFits(slots + [s]))
    && (forall slots: seq<Slot>, s: Slot, key: int :: slots != [] && p.branchFits(slots) && ThinBranch(slots, p, 0) && s.key == None ==>
          p.branchFits(Joined([s], slots, key)))
    && (forall a: seq<Slot>, b: seq<Slot>, key: int ::
          p.branchFits(a) && p.branchFits(b) && b != [] && ((ThinBranch(a, p, 0) && ThinBranch(b, p, 1)) || (ThinBranch(a, p, 1) && ThinBranch(b, p, 0))) ==>
            p.branchFits(Joined(a, b, key)))
  }

  ghost predicate Roomy(p: Policy) {
    LeafRoom(p) && BranchRoom(p)
  }

  /** Every page of the tree holds its nodes. */
  ghost predicate AllFit(t: Tree, p: Policy)
    decreases t
  {
    match t
    case Leaf(es) => p.leafFits(es)
    case Branch(slots) => p.branchFits(slots) && forall i :: 0 <= i < |slots| ==> AllFit(slots[i].child, p)
  }

  ghost predicate UpFits(up: Up, p: Policy) {
    match up
    case One(t) => AllFit(t, p)
    case Two(l, _, r) => AllFit(l, p) && AllFit(r, p)
  }

  ghost predicate ChildrenFit(slots: seq<Slot>, p: Policy) {
    forall i :: 0 <= i < |slots| ==> AllFit(slots[i].child, p)
  }

  // ---------------------------------------------------------------------- puts

  lemma GrowLeafFits(es: seq<Entry>, at: nat, p: Policy)
    requires LeafRoom(p) && at < |es| && p.leafFits(Without(es, at))
    ensures UpFits(GrowLeaf(es, at, p), p)
  {
  }

  lemma PutLeafFits(es: seq<Entry>, k: int, v: int, p: Policy)
    requires LeafRoom(p) && p.leafFits(es)
    ensures UpFits(GrowLeaf(PutIn(es, k, v), Index(es, k), p), p)
  {
    var i := Index(es, k);
    if Has(es, k) {
      assert Without(PutIn(es, k, v), i) == Without(es, i);
    } else {
      assert Without(PutIn(es, k, v), i) == es;
    }
    GrowLeafFits(PutIn(es, k, v), i, p);
  }

  lemma GrowBranchFits(slots: seq<Slot>, at: nat, p: Policy)
    requires BranchRoom(p) && at < |slots| && p.branchFits(Without(slots, at)) && ChildrenFit(slots, p)
    requires forall i :: 0 < i < |slots| ==> slots[i].key.Some?
    ensures UpFits(GrowBranch(slots, at, p), p)
  {
    if !p.branchFits(slots) {
      var s := p.branchSplit(slots, at);
      forall i | 0 <= i < |slots| - s
        ensures AllFit(WithoutKey(slots[s..])[i].child, p)
      {
        assert WithoutKey(slots[s..])[i].child == slots[s + i].child;
      }
    }
  }

  lemma KeysSome(slots: seq<Slot>, h: nat, lo: Option<int>, hi: Option<int>)
    requires Slots(slots, h, lo, hi)
    ensures forall i :: 0 < i < |slots| ==> slots[i].key.Some?
  {
    forall i | 0 < i < |slots|
      ensures slots[i].key.Some?
    {
      SlotsCutKey(slots, i, h, lo, hi);
    }
  }

  lemma RefillFits(slots: seq<Slot>, c: nat, up: Up, p: Policy)
    requires BranchRoom(p) && c < |slots| && p.branchFits(slots) && ChildrenFit(slots, p) && UpFits(up, p)
    requires forall i :: 0 < i < |slots| ==> slots[i].key.Some?
    ensures UpFits(Refill(slots, c, up, p), p)
  {
    hide AllFit, BranchRoom, GrowBranch;
    var more := Replace(slots, c, c + 1, SlotsFor(slots[c].key, up));
    if up.One? {
      assert more == slots[c := Slot(slots[c].key, up.tree)];
      assert Keys(more) == Keys(slots);
      SameKeysFit(more, slots, p);
      BranchFits(more, p);
    } else {
      TwoKeys(slots, c, up);
      SameKeysFit(Without(more, c + 1), slots, p);
      TwoFit(slots, c, up, p);
      GrowBranchFits(more, c + 1, p);
    }
  }

  lemma TwoKeys(slots: seq<Slot>, c: nat, up: Up)
    requires c < |slots| && up.Two?
    ensures var more := Replace(slots, c, c + 1, SlotsFor(slots[c].key, up));
            c + 1 < |more| && Keys(Without(more, c + 1)) == Keys(slots)
  {
    var more := Replace(slots, c, c + 1, SlotsFor(slots[c].key, up));
    assert more == slots[..c] + [Slot(slots[c].key, up.left), Slot(Some(up.key), up.right)] + slots[c + 1..];
    forall i | 0 <= i < |slots|
      ensures Without(more, c + 1)[i].key == slots[i].key
    {
    }
  }

  lemma TwoFit(slots: seq<Slot>, c: nat, up: Up, p: Policy)
    requires c < |slots| && up.Two? && ChildrenFit(slots, p) && UpFits(up, p)
    requires forall i :: 0 < i < |slots| ==> slots[i].key.Some?
    ensures var more := Replace(slots, c, c + 1, SlotsFor(slots[c].key, up));
            ChildrenFit(more, p) && forall i :: 0 < i < |more| ==> more[i].key.Some?
  {
    hide AllFit;
    var more := Replace(slots, c, c + 1, SlotsFor(slots[c].key, up));
    assert more == slots[..c] + [Slot(slots[c].key, up.left), Slot(Some(up.key), up.right)] + slots[c + 1..];
  }

  lemma BranchFits(slots: seq<Slot>, p: Policy)
    requires p.branchFits(slots) && ChildrenFit(slots, p)
    ensures AllFit(Branch(slots), p)
  {
  }

  lemma FitsBranch(slots: seq<Slot>, p: Policy)
    requires AllFit(Branch(slots), p)
    ensures p.branchFits(slots) && ChildrenFit(slots, p)
  {
  }

  /** After a put every page holds its nodes. */
  lemma {:induction false} InsertFits(t: Tree, k: int, v: int, p: Policy, h: nat, lo: Option<int>, hi: Option<int>)
    requires Roomy(p) && AllFit(t, p) && Tidy(t, h, lo, hi, 1) && In(k, lo, hi)
    ensures UpFits(Insert(t, k, v, p), p)
    decreases h
  {
    hide Tidy, Slots, All, PutIn, In, UpFits, LeafRoom, BranchRoom, Refill, Insert, Entries, AllFit, GrowLeaf;
    if t.Leaf? {
      LeafFits(t.entries, p);
      PutLeafFits(t.entries, k, v, p);
      InsertLeafIs(t.entries, k, v, p);
    } else {
      var slots := t.slots;
      TidyBranch(slots, h, lo, hi, 1);
      FitsBranch(slots, p);
      var c := FollowOk(slots, k, v, h - 1, lo, hi);
      InsertFits(slots[c].child, k, v, p, h - 1, LowOf(slots, c, lo), HighOf(slots, c + 1, hi));
      KeysSome(slots, h - 1, lo, hi);
      RefillFits(slots, c, Insert(slots[c].child, k, v, p), p);
      InsertIs(slots, k, v, p);
    }
  }

  lemma LeafFits(es: seq<Entry>, p: Policy)
    ensures AllFit(Leaf(es), p) <==> p.leafFits(es)
  {
  }

  lemma InsertLeafIs(es: seq<Entry>, k: int, v: int, p: Policy)
    ensures Insert(Leaf(es), k, v, p) == GrowLeaf(PutIn(es, k, v), Index(es, k), p)
  {
  }

  /** A leaf is split exactly if its new contents do not fit, into the two halves that the policy names ... */
  lemma LeafSplitIff(es: seq<Entry>, k: int, v: int, p: Policy)
    requires Sane(p)
    ensures var up, all := Insert(Leaf(es), k, v, p), PutIn(es, k, v);
            if p.leafFits(all) then up == One(Leaf(all))
            else up.Two? && up.left.Leaf? && up.right.Leaf? && up.left.entries + up.right.entries == all
                 && |up.left.entries| == p.leafSplit(all, Index(es, k)) && up.key == up.right.entries[0].key
  {
    hide PutIn;
  }

  /** A branch page with a split child. */
  function WithSplit(slots: seq<Slot>, c: nat, child: Up): seq<Slot>
    requires c < |slots| && child.Two?
  {
    slots[..c] + ([Slot(slots[c].key, child.left), Slot(Some(child.key), child.right)] + slots[c + 1..])
  }

  lemma SplitKeys(slots: seq<Slot>, c: nat, child: Up)
    requires c < |slots| && child.Two? && forall i :: 0 < i < |slots| ==> slots[i].key.Some?
    ensures forall i :: 0 < i < |WithSplit(slots, c, child)| ==> WithSplit(slots, c, child)[i].key.Some?
  {
  }

  /** ... and a branch page if its child was split and the new node does not fit. */
  lemma BranchSplitIff(slots: seq<Slot>, k: int, v: int, p: Policy)
    requires Sane(p) && slots != [] && forall i :: 0 < i < |slots| ==> slots[i].key.Some?
    ensures var c := Pick(slots, |slots| - 1, k);
            var child, up := Insert(slots[c].child, k, v, p), Insert(Branch(slots), k, v, p);
            if child.One? then up == One(Branch(slots[c := Slot(slots[c].key, child.tree)]))
            else var more := WithSplit(slots, c, child);
                 if p.branchFits(more) then up == One(Branch(more))
                 else var s := p.branchSplit(more, c + 1);
                      0 < s < |more| && more[s].key.Some? && up == Two(Branch(more[..s]), more[s].key.value, Branch([Slot(None, more[s].child)] + more[s + 1..]))
  {
    hide Insert, GrowBranch, Refill, Sane, WithSplit, Pick;
    var c := Pick(slots, |slots| - 1, k);
    InsertIs(slots, k, v, p);
    var child := Insert(slots[c].child, k, v, p);
    if child.One? {
      RefillOne(slots, c, child.tree, p);
    } else {
      RefillSplit(slots, c, child, p);
    }
  }

  lemma RefillSplit(slots: seq<Slot>, c: nat, child: Up, p: Policy)
    requires Sane(p) && c < |slots| && child.Two? && forall i :: 0 < i < |slots| ==> slots[i].key.Some?
    ensures var more, up := WithSplit(slots, c, child), Refill(slots, c, child, p);
            if p.branchFits(more) then up == One(Branch(more))
            else var s := p.branchSplit(more, c + 1);
                 0 < s < |more| && more[s].key.Some? && up == Two(Branch(more[..s]), more[s].key.value, Branch([Slot(None, more[s].child)] + more[s + 1..]))
  {
    RefillTwo(slots, c, child, p);
    SplitKeys(slots, c, child);
    GrowBranchIs(WithSplit(slots, c, child), c + 1, p);
    hide GrowBranch, Refill, Sane, WithSplit;
  }

  lemma RefillOne(slots: seq<Slot>, c: nat, t: Tree, p: Policy)
    requires c < |slots|
    ensures Refill(slots, c, One(t), p) == One(Branch(slots[c := Slot(slots[c].key, t)]))
  {
    assert Replace(slots, c, c + 1, [Slot(slots[c].key, t)]) == slots[c := Slot(slots[c].key, t)];
  }

  lemma RefillTwo(slots: seq<Slot>, c: nat, up: Up, p: Policy)
    requires c < |slots| && up.Two?
    ensures Refill(slots, c, up, p) == GrowBranch(WithSplit(slots, c, up), c + 1, p)
  {
    hide GrowBranch;
    assert Replace(slots, c, c + 1, SlotsFor(slots[c].key, up)) == WithSplit(slots, c, up);
  }

  lemma GrowBranchIs(more: seq<Slot>, at: nat, p: Policy)
    requires Sane(p) && forall i :: 0 < i < |more| ==> more[i].key.Some?
    ensures var up := GrowBranch(more, at, p);
            if p.branchFits(more) then up == One(Branch(more))
            else var s := p.branchSplit(more, at);
                 0 < s < |more| && up == Two(Branch(more[..s]), more[s].key.value, Branch([Slot(None, more[s].child)] + more[s + 1..]))
  {
    if !p.branchFits(more) {
      var s := p.branchSplit(more, at);
      assert more[s..][1..] == more[s + 1..];
    }
  }

  // -------------------------------------------------------------------- deletes

  lemma AppendFits(slots: seq<Slot>, s: Slot, p: Policy)
    requires BranchRoom(p) && p.branchFits(slots) && ThinBranch(slots, p, 0) && ChildrenFit(slots, p) && AllFit(s.child, p)
    ensures AllFit(Branch(slots + [s]), p)
  {
    BranchFits(slots + [s], p);
  }

  lemma PrependFits(slots: seq<Slot>, s: Slot, key: int, p: Policy)
    requires BranchRoom(p) && slots != [] && p.branchFits(slots) && ThinBranch(slots, p, 0) && ChildrenFit(slots, p) && AllFit(s.child, p) && s.key == None
    ensures AllFit(Branch([s, slots[0].(key := Some(key))] + slots[1..]), p)
  {
    var more := [s, slots[0].(key := Some(key))] + slots[1..];
    assert more == Joined([s], slots, key);
    BranchFits(more, p);
  }

  lemma WithoutFirstFits(slots: seq<Slot>, p: Policy)
    requires BranchRoom(p) && |slots| >= 2 && p.branchFits(slots) && ChildrenFit(slots, p)
    ensures AllFit(Branch(WithoutKey(slots[1..])), p)
  {
    assert Without(slots, 0) == slots[1..];
    BranchFits(WithoutKey(slots[1..]), p);
  }

  lemma WithoutLastFits(slots: seq<Slot>, p: Policy)
    requires BranchRoom(p) && slots != [] && p.branchFits(slots) && ChildrenFit(slots, p)
    ensures AllFit(Branch(slots[..|slots| - 1]), p)
  {
    assert Without(slots, |slots| - 1) == slots[..|slots| - 1];
    BranchFits(slots[..|slots| - 1], p);
  }

  lemma JoinFits(a: seq<Slot>, b: seq<Slot>, key: int, p: Policy)
    requires BranchRoom(p) && b != [] && p.branchFits(a) && p.branchFits(b) && ChildrenFit(a, p) && ChildrenFit(b, p)
    requires (ThinBranch(a, p, 0) && ThinBranch(b, p, 1)) || (ThinBranch(a, p, 1) && ThinBranch(b, p, 0))
    ensures AllFit(Branch(Joined(a, b, key)), p)
  {
    BranchFits(Joined(a, b, key), p);
  }

  /** Two neighbours after a move or a merge. */
  lemma MoveRightFits(c: Tree, n: Tree, p: Policy)
    requires Roomy(p) && AllFit(c, p) && AllFit(n, p) && c.Leaf? == n.Leaf? && NumKeys(n) > MinKeys(n)
    requires !(Full(c, p) && NumKeys(c) >= MinKeys(c))
    requires n.Branch? ==> forall i :: 0 < i < |n.slots| ==> n.slots[i].key.Some?
    ensures var (c', _, n') := MoveFromRight(c, n);
            AllFit(c', p) && AllFit(n', p) && NumKeys(c') == NumKeys(c) + 1 && NumKeys(n') == NumKeys(n) - 1
  {
    if c.Leaf? {
      assert Without(n.entries, 0) == n.entries[1..];
    } else {
      var slots, ns := c.slots, n.slots;
      FitsBranch(slots, p);
      FitsBranch(ns, p);
      hide AllFit, BranchRoom, LeafRoom, Lowest;
      AppendFits(slots, Keyed(ns[0]), p);
      WithoutFirstFits(ns, p);
    }
  }

  lemma MoveLeftFits(n: Tree, c: Tree, p: Policy)
    requires Roomy(p) && AllFit(c, p) && AllFit(n, p) && c.Leaf? == n.Leaf? && NumKeys(n) > MinKeys(n)
    requires !(Full(c, p) && NumKeys(c) >= MinKeys(c))
    requires n.Branch? ==> c.slots != [] && forall i :: 0 < i < |n.slots| ==> n.slots[i].key.Some?
    ensures var (n', _, c') := MoveFromLeft(n, c);
            AllFit(c', p) && AllFit(n', p) && NumKeys(c') == NumKeys(c) + 1 && NumKeys(n') == NumKeys(n) - 1
  {
    if c.Leaf? {
      assert Without(n.entries, |n.entries| - 1) == n.entries[..|n.entries| - 1];
    } else {
      var slots, ns := c.slots, n.slots;
      FitsBranch(slots, p);
      FitsBranch(ns, p);
      hide AllFit, BranchRoom, LeafRoom, Lowest;
      WithoutLastFits(ns, p);
      PrependFits(slots, ns[|ns| - 1].(key := None), Lowest(slots[0].child), p);
    }
  }

  lemma MergeFits(l: Tree, r: Tree, p: Policy, left: bool)
    requires Roomy(p) && AllFit(l, p) && AllFit(r, p) && l.Leaf? == r.Leaf? && (r.Branch? ==> r.slots != [])
    requires var (c, n) := if left then (l, r) else (r, l);
             !(Full(c, p) && NumKeys(c) >= MinKeys(c)) && !(Full(n, p) && NumKeys(n) > MinKeys(n))
    ensures AllFit(Merge(l, r), p) && NumKeys(Merge(l, r)) == NumKeys(l) + NumKeys(r)
  {
    if l.Branch? {
      var ls, rs := l.slots, r.slots;
      FitsBranch(ls, p);
      FitsBranch(rs, p);
      hide AllFit, BranchRoom, LeafRoom, Lowest;
      JoinFits(ls, rs, Lowest(rs[0].child), p);
    }
  }

  lemma SameKeysFit(a: seq<Slot>, b: seq<Slot>, p: Policy)
    requires BranchRoom(p) && p.branchFits(b) && Keys(a) == Keys(b)
    ensures p.branchFits(a)
  {
  }

  lemma FewerFit(slots: seq<Slot>, i: nat, p: Policy)
    requires BranchRoom(p) && p.branchFits(slots) && i < |slots|
    ensures p.branchFits(Without(slots, i))
  {
  }

  /** A pair of neighbours changed, or merged into one page. */
  lemma PairFits(slots: seq<Slot>, j: nat, l: Tree, key: int, r: Tree, p: Policy)
    requires BranchRoom(p) && j + 1 < |slots| && p.branchFits(slots) && ChildrenFit(slots, p) && AllFit(l, p) && AllFit(r, p)
    requires forall i :: 0 < i < |slots| ==> slots[i].key.Some?
    ensures UpFits(GrowBranch(Replace(slots, j, j + 2, [Slot(slots[j].key, l), Slot(Some(key), r)]), j + 1, p), p)
  {
    hide AllFit, BranchRoom, Replace, Keys, Without;
    var more := Replace(slots, j, j + 2, [Slot(slots[j].key, l), Slot(Some(key), r)]);
    PairIs(slots, j, l, key, r);
    FewerFit(slots, j + 1, p);
    PairKeys(slots, j, l, key, r);
    SameKeysFit(Without(more, j + 1), Without(slots, j + 1), p);
    GrowBranchFits(more, j + 1, p);
  }

  lemma PairIs(slots: seq<Slot>, j: nat, l: Tree, key: int, r: Tree)
    requires j + 1 < |slots|
    ensures Replace(slots, j, j + 2, [Slot(slots[j].key, l), Slot(Some(key), r)]) == slots[j := Slot(slots[j].key, l)][j + 1 := Slot(Some(key), r)]
  {
  }

  lemma PairKeys(slots: seq<Slot>, j: nat, l: Tree, key: int, r: Tree)
    requires j + 1 < |slots|
    ensures var more := Replace(slots, j, j + 2, [Slot(slots[j].key, l), Slot(Some(key), r)]);
            |more| == |slots| && Keys(Without(more, j + 1)) == Keys(Without(slots, j + 1))
  {
    PairIs(slots, j, l, key, r);
    hide Replace;
    var a, b := slots[j := Slot(slots[j].key, l)][j + 1 := Slot(Some(key), r)], slots;
    var x, y := Without(a, j + 1), Without(b, j + 1);
    assert forall i :: 0 <= i < |x| ==> x[i].key == y[i].key;
    assert Keys(x) == Keys(y);
  }

  lemma MergedFits(slots: seq<Slot>, j: nat, m: Tree, p: Policy)
    requires BranchRoom(p) && j + 1 < |slots| && p.branchFits(slots) && ChildrenFit(slots, p) && AllFit(m, p)
    ensures AllFit(Branch(Replace(slots, j, j + 2, [Slot(slots[j].key, m)])), p)
  {
    hide AllFit, BranchRoom;
    var fewer := Replace(slots, j, j + 2, [Slot(slots[j].key, m)]);
    FewerFit(slots, j + 1, p);
    assert Keys(fewer) == Keys(Without(slots, j + 1));
    SameKeysFit(fewer, Without(slots, j + 1), p);
    BranchFits(fewer, p);
  }

  lemma ChangedFits(slots: seq<Slot>, i: nat, c: Tree, p: Policy)
    requires BranchRoom(p) && i < |slots| && p.branchFits(slots) && ChildrenFit(slots, p) && AllFit(c, p)
    ensures AllFit(Branch(slots[i := slots[i].(child := c)]), p)
  {
    hide AllFit, BranchRoom;
    var same := slots[i := slots[i].(child := c)];
    assert Keys(same) == Keys(slots);
    SameKeysFit(same, slots, p);
    BranchFits(same, p);
  }

  /** A page of a tidy tree: its kind, and the keys of its nodes. */
  lemma PageIs(t: Tree, h: nat, lo: Option<int>, hi: Option<int>, min: nat)
    requires Tidy(t, h, lo, hi, min)
    ensures t.Leaf? <==> h == 1
    ensures t.Branch? ==> t.slots != [] && forall i :: 0 < i < |t.slots| ==> t.slots[i].key.Some?
  {
    if t.Branch? {
      KeysSome(t.slots, h - 1, lo, hi);
    }
  }

  /** The neighbour that mdb_rebalance looks at: the right one of the first child, the left one of any other. */
  function LeftOf(i: nat): nat {
    if i == 0 then 0 else i - 1
  }

  function Neighbour(slots: seq<Slot>, i: nat): Tree
    requires i < |slots| && 2 <= |slots|
  {
    slots[if i == 0 then 1 else i - 1].child
  }

  /** The children of a page, or of its two halves. */
  function Kids(slots: seq<Slot>): (kids: seq<Tree>)
    ensures |kids| == |slots|
  {
    seq(|slots|, i requires 0 <= i < |slots| => slots[i].child)
  }

  function KidsOf(up: Up): seq<Tree> {
    match up
    case One(t) => if t.Branch? then Kids(t.slots) else []
    case Two(l, _, r) => (if l.Branch? then Kids(l.slots) else []) + (if r.Branch? then Kids(r.slots) else [])
  }

  lemma GrowBranchKids(slots: seq<Slot>, at: nat, p: Policy)
    ensures KidsOf(GrowBranch(slots, at, p)) == Kids(slots)
  {
    if !p.branchFits(slots) {
      var s := p.branchSplit(slots, at);
      if 0 < s < |slots| {
        assert Kids(slots[..s]) + Kids(WithoutKey(slots[s..])) == Kids(slots);
      }
    }
  }

  /** mdb_rebalance: the child c, which lost a node, is left alone if it is above the threshold and has the least
      number of nodes; otherwise it gets one node of its neighbour if that is above the threshold and can spare it;
      otherwise the two are merged. */
  lemma RebalanceDoes(slots: seq<Slot>, i: nat, c: Tree, p: Policy, h: nat, lo: Option<int>, hi: Option<int>)
    requires Roomy(p) && 2 <= |slots| && i < |slots| && Slots(slots, h, lo, hi) && slots[0].key == None
    requires p.branchFits(slots) && ChildrenFit(slots, p) && AllFit(c, p)
    requires Tidy(c, h, LowOf(slots, i, lo), HighOf(slots, i + 1, hi), 0)
    ensures var down, n, j := Rebalance(slots, i, c, p), Neighbour(slots, i), LeftOf(i);
            && UpFits(down.up, p)
            && if Full(c, p) && NumKeys(c) >= MinKeys(c) then !down.shrunk && KidsOf(down.up) == Kids(slots)[i := c]
               else if Full(n, p) && NumKeys(n) > MinKeys(n) then
                 !down.shrunk && exists c', n' ::
                   && NumKeys(c') == NumKeys(c) + 1 && NumKeys(n') == NumKeys(n) - 1
                   && KidsOf(down.up) == if i == 0 then Kids(slots)[0 := c'][1 := n'] else Kids(slots)[i - 1 := n'][i := c']
               else
                 down.shrunk && down.up.One? && exists m ::
                   NumKeys(m) == NumKeys(c) + NumKeys(n) && KidsOf(down.up) == Kids(slots)[..j] + [m] + Kids(slots)[j + 2..]
  {
    var n, j := Neighbour(slots, i), LeftOf(i);
    Neighbours(slots, j, h, lo, hi);
    KeysSome(slots, h, lo, hi);
    PageIs(c, h, LowOf(slots, i, lo), HighOf(slots, i + 1, hi), 0);
    if i == 0 {
      PageIs(n, h, slots[1].key, HighOf(slots, 2, hi), 1);
    } else {
      PageIs(n, h, LowOf(slots, i - 1, lo), slots[i].key, 1);
    }
    hide Slots, All, Tidy, Entries, AllFit, Sane, GrowBranch, MoveFromLeft, MoveFromRight, Merge, LeafRoom, BranchRoom;
    if Full(c, p) && NumKeys(c) >= MinKeys(c) {
      ChangedFits(slots, i, c, p);
      assert Kids(slots[i := slots[i].(child := c)]) == Kids(slots)[i := c];
    } else if Full(n, p) && NumKeys(n) > MinKeys(n) {
      Moved(slots, i, c, p);
    } else {
      Merged(slots, i, c, p);
    }
  }

  lemma Moved(slots: seq<Slot>, i: nat, c: Tree, p: Policy)
    requires Roomy(p) && 2 <= |slots| && i < |slots| && forall x :: 0 < x < |slots| ==> slots[x].key.Some?
    requires p.branchFits(slots) && ChildrenFit(slots, p) && AllFit(c, p)
    requires var n := Neighbour(slots, i);
             && c.Leaf? == n.Leaf? && NumKeys(n) > MinKeys(n) && Full(n, p) && !(Full(c, p) && NumKeys(c) >= MinKeys(c))
             && (n.Branch? ==> c.slots != [] && forall x :: 0 < x < |n.slots| ==> n.slots[x].key.Some?)
    ensures var down, n := Rebalance(slots, i, c, p), Neighbour(slots, i);
            && UpFits(down.up, p) && !down.shrunk
            && exists c', n' ::
                 && NumKeys(c') == NumKeys(c) + 1 && NumKeys(n') == NumKeys(n) - 1
                 && KidsOf(down.up) == if i == 0 then Kids(slots)[0 := c'][1 := n'] else Kids(slots)[i - 1 := n'][i := c']
  {
    var n := Neighbour(slots, i);
    RebalanceMoves(slots, i, c, p);
    FitsThere(slots, i, p);
    hide AllFit, GrowBranch, MoveFromLeft, MoveFromRight, LeafRoom, BranchRoom, UpFits, Replace, Kids, KidsOf, Rebalance;
    if i == 0 {
      MoveRightFits(c, n, p);
      var (c', key, n') := MoveFromRight(c, n);
      PairFits(slots, 0, c', key, n', p);
      PairKids(slots, 0, c', key, n', p);
    } else {
      MoveLeftFits(n, c, p);
      var (n', key, c') := MoveFromLeft(n, c);
      PairFits(slots, i - 1, n', key, c', p);
      PairKids(slots, i - 1, n', key, c', p);
    }
  }

  lemma RebalanceMoves(slots: seq<Slot>, i: nat, c: Tree, p: Policy)
    requires 2 <= |slots| && i < |slots|
    requires var n := Neighbour(slots, i); Full(n, p) && NumKeys(n) > MinKeys(n) && !(Full(c, p) && NumKeys(c) >= MinKeys(c))
    ensures var n := Neighbour(slots, i);
            Rebalance(slots, i, c, p) ==
            if i == 0 then
              var (c', key, n') := MoveFromRight(c, n);
              Down(GrowBranch(Replace(slots, 0, 2, [Slot(slots[0].key, c'), Slot(Some(key), n')]), 1, p), false)
            else
              var (n', key, c') := MoveFromLeft(n, c);
              Down(GrowBranch(Replace(slots, i - 1, i + 1, [Slot(slots[i - 1].key, n'), Slot(Some(key), c')]), i, p), false)
  {
    hide MoveFromLeft, MoveFromRight, GrowBranch, Replace;
  }

  lemma PairKids(slots: seq<Slot>, j: nat, l: Tree, key: int, r: Tree, p: Policy)
    requires j + 1 < |slots|
    ensures KidsOf(GrowBranch(Replace(slots, j, j + 2, [Slot(slots[j].key, l), Slot(Some(key), r)]), j + 1, p)) == Kids(slots)[j := l][j + 1 := r]
  {
    var more := Replace(slots, j, j + 2, [Slot(slots[j].key, l), Slot(Some(key), r)]);
    GrowBranchKids(more, j + 1, p);
    assert Kids(more) == Kids(slots)[j := l][j + 1 := r];
  }

  lemma Merged(slots: seq<Slot>, i: nat, c: Tree, p: Policy)
    requires Roomy(p) && 2 <= |slots| && i < |slots|
    requires p.branchFits(slots) && ChildrenFit(slots, p) && AllFit(c, p)
    requires var n := Neighbour(slots, i);
             && c.Leaf? == n.Leaf? && !(Full(n, p) && NumKeys(n) > MinKeys(n)) && !(Full(c, p) && NumKeys(c) >= MinKeys(c))
             && (n.Branch? ==> c.slots != [] && n.slots != [])
    ensures var down, n, j := Rebalance(slots, i, c, p), Neighbour(slots, i), LeftOf(i);
            && UpFits(down.up, p) && down.shrunk && down.up.One?
            && exists m :: NumKeys(m) == NumKeys(c) + NumKeys(n) && KidsOf(down.up) == Kids(slots)[..j] + [m] + Kids(slots)[j + 2..]
  {
    RebalanceMerges(slots, i, c, p);
    hide AllFit, Merge, LeafRoom, BranchRoom, Replace, Kids, KidsOf, ChildrenFit, Rebalance;
    FitsThere(slots, i, p);
    var n, j := Neighbour(slots, i), LeftOf(i);
    var m := if i == 0 then Merge(c, n) else Merge(n, c);
    if i == 0 {
      MergeFits(c, n, p, true);
    } else {
      MergeFits(n, c, p, false);
    }
    MergedFits(slots, j, m, p);
    MergedKids(slots, j, m);
  }

  lemma RebalanceMerges(slots: seq<Slot>, i: nat, c: Tree, p: Policy)
    requires 2 <= |slots| && i < |slots|
    requires var n := Neighbour(slots, i);
             !(Full(n, p) && NumKeys(n) > MinKeys(n)) && !(Full(c, p) && NumKeys(c) >= MinKeys(c))
    ensures var n, j := Neighbour(slots, i), LeftOf(i);
            var m := if i == 0 then Merge(c, n) else Merge(n, c);
            Rebalance(slots, i, c, p) == Down(One(Branch(Replace(slots, j, j + 2, [Slot(slots[j].key, m)]))), true)
  {
    hide Merge, Replace;
  }

  lemma FitsThere(slots: seq<Slot>, i: nat, p: Policy)
    requires 2 <= |slots| && i < |slots| && ChildrenFit(slots, p)
    ensures AllFit(Neighbour(slots, i), p)
  {
    hide AllFit;
  }

  lemma MergedKids(slots: seq<Slot>, j: nat, m: Tree)
    requires j + 1 < |slots|
    ensures KidsOf(One(Branch(Replace(slots, j, j + 2, [Slot(slots[j].key, m)])))) == Kids(slots)[..j] + [m] + Kids(slots)[j + 2..]
  {
    var fewer := Replace(slots, j, j + 2, [Slot(slots[j].key, m)]);
    assert Kids(fewer) == Kids(slots)[..j] + [m] + Kids(slots)[j + 2..];
  }

  /** The leaf that loses the key goes to mdb_rebalance. */
  lemma LeafIsMended(slots: seq<Slot>, k: int, p: Policy)
    requires slots != [] && slots[Pick(slots, |slots| - 1, k)].child.Leaf?
    ensures var c := Pick(slots, |slots| - 1, k);
            Delete(Branch(slots), k, p) == Rebalance(slots, c, Leaf(BTree.CutFrom(slots[c].child.entries, k)), p)
  {
    hide Rebalance, Pick, BTree.CutFrom;
    DeleteIs(slots, k, p);
  }

  /** After a delete every page holds its nodes. */
  lemma {:induction false} DeleteFits(t: Tree, k: int, p: Policy, h: nat, lo: Option<int>, hi: Option<int>)
    requires Roomy(p) && Sane(p) && AllFit(t, p) && Tidy(t, h, lo, hi, 1) && In(k, lo, hi)
    ensures UpFits(Delete(t, k, p).up, p)
    decreases h
  {
    hide Tidy, Slots, All, BTree.CutFrom, In, UpFits, LeafRoom, BranchRoom, Sane, Refill, Delete, Entries, AllFit, Rebalance, UpOk;
    if t.Leaf? {
      LeafFits(t.entries, p);
      CutLeafFits(t.entries, k, p);
    } else {
      var slots := t.slots;
      TidyBranch(slots, h, lo, hi, 1);
      FitsBranch(slots, p);
      var c := FollowOk(slots, k, 0, h - 1, lo, hi);
      DeleteFits(slots[c].child, k, p, h - 1, LowOf(slots, c, lo), HighOf(slots, c + 1, hi));
      DeleteOk(slots[c].child, k, p, h - 1, LowOf(slots, c, lo), HighOf(slots, c + 1, hi));
      DeleteIs(slots, k, p);
      KeysSome(slots, h - 1, lo, hi);
      var down := Delete(slots[c].child, k, p);
      if down.shrunk {
        OneFits(down.up.tree, p);
        RebalanceDoes(slots, c, down.up.tree, p, h - 1, lo, hi);
      } else {
        RefillFits(slots, c, down.up, p);
      }
    }
  }

  lemma OneFits(t: Tree, p: Policy)
    ensures UpFits(One(t), p) <==> AllFit(t, p)
  {
  }

  lemma CutLeafFits(es: seq<Entry>, k: int, p: Policy)
    requires LeafRoom(p) && p.leafFits(es)
    ensures UpFits(Delete(Leaf(es), k, p).up, p)
  {
    if Has(es, k) {
      assert BTree.CutFrom(es, k) == Without(es, Index(es, k));
    } else {
      assert BTree.CutFrom(es, k) == es;
    }
  }
}
