/** An LMDB database as a finite map: its B+tree with md_depth and md_entries under any sequence of
    puts, deletes and gets. */
module BTreeDatabase {
  import opened BTree
  import opened BTreeUpdate
  import TreePages

  /** The entries as a map. */
  function ToMap(es: seq<Entry>): map<int, int> {
    if es == [] then map[] else ToMap(es[..|es| - 1])[es[|es| - 1].key := es[|es| - 1].data]
  }

  lemma LastLookup(es: seq<Entry>, e: Entry, k: int)
    requires Sorted(es + [e])
    ensures Lookup(es + [e], k) == if k == e.key then Some(e.data) else Lookup(es, k)
  {
    hide Index;
    var all, n := es + [e], |es|;
    assert forall i :: 0 <= i < n ==> all[i] == es[i] && all[i].key < all[n].key;
    if k == e.key {
      IndexIs(all, k, n);
    } else if k < e.key {
      IndexIs(all, k, Index(es, k));
    } else {
      IndexIs(all, k, n + 1);
      IndexIs(es, k, n);
    }
  }

  lemma {:induction false} MapLookup(es: seq<Entry>, k: int)
    requires Sorted(es)
    ensures Lookup(es, k) == if k in ToMap(es) then Some(ToMap(es)[k]) else None
  {
    if es != [] {
      hide Lookup, Sorted;
      var n := |es| - 1;
      assert es == es[..n] + [es[n]];
      LastLookup(es[..n], es[n], k);
      SliceIn(es, n, None, None);
      MapLookup(es[..n], k);
    }
  }

  lemma {:induction false} MapSize(es: seq<Entry>)
    requires Sorted(es)
    ensures |ToMap(es)| == |es|
  {
    if es != [] {
      var n := |es| - 1;
      MapSize(es[..n]);
      MapLookup(es[..n], es[n].key);
      IndexIs(es[..n], es[n].key, n);
    }
  }

  /** Two maps that agree on every lookup. */
  lemma MapPut(es: seq<Entry>, k: int, v: int)
    requires Sorted(es)
    ensures ToMap(PutIn(es, k, v)) == ToMap(es)[k := v] && ToMap(BTree.CutFrom(es, k)) == ToMap(es) - {k}
  {
    hide ToMap, Lookup, PutIn, BTree.CutFrom, Sorted;
    PutOrder(es, k, v);
    var more, less := PutIn(es, k, v), BTree.CutFrom(es, k);
    forall x
      ensures x in ToMap(more) <==> x in ToMap(es)[k := v]
      ensures x in ToMap(more) ==> ToMap(more)[x] == ToMap(es)[k := v][x]
      ensures x in ToMap(less) <==> x in ToMap(es) - {k}
      ensures x in ToMap(less) ==> ToMap(less)[x] == (ToMap(es) - {k})[x]
    {
      MapLookup(more, x);
      MapLookup(less, x);
      MapLookup(es, x);
      PutLookup(es, k, v, x);
      CutLookup(es, k, x);
    }
  }

  lemma PutFacts(es: seq<Entry>, k: int, v: int)
    requires Sorted(es)
    ensures ToMap(PutIn(es, k, v)) == ToMap(es)[k := v] && ToMap(BTree.CutFrom(es, k)) == ToMap(es) - {k}
    ensures |PutIn(es, k, v)| == |es| + (if k in ToMap(es) then 0 else 1)
    ensures |BTree.CutFrom(es, k)| == |es| - (if k in ToMap(es) then 1 else 0)
  {
    hide ToMap, PutIn, BTree.CutFrom, Sorted, Index;
    MapPut(es, k, v);
    PutOrder(es, k, v);
    MapLookup(es, k);
  }

  // ------------------------------------------------------------------ search

  function KeysOf(slots: seq<Slot>): seq<int> {
    seq(|slots|, i requires 0 <= i < |slots| => if slots[i].key.Some? then slots[i].key.value else 0)
  }

  function LeafKeys(es: seq<Entry>): seq<int> {
    seq(|es|, i requires 0 <= i < |es| => es[i].key)
  }

  lemma {:induction false} PickIs(slots: seq<Slot>, i: nat, k: int, c: nat)
    requires c <= i < |slots| && (c > 0 ==> slots[c].key.Some? && slots[c].key.value <= k)
    requires forall j :: c < j <= i ==> slots[j].key.Some? && slots[j].key.value > k
    ensures Pick(slots, i, k) == c
  {
    if c < i {
      PickIs(slots, i - 1, k, c);
    }
  }

  /** The keys of a tidy page's slots grow. */
  lemma {:induction false} KeysGrow(slots: seq<Slot>, a: nat, b: nat, h: nat, lo: Option<int>, hi: Option<int>)
    requires Slots(slots, h, lo, hi) && 0 < a <= b < |slots|
    ensures slots[a].key.Some? && slots[b].key.Some? && (a < b ==> slots[a].key.value < slots[b].key.value)
    decreases b
  {
    SlotsCutKey(slots, a, h, lo, hi);
    SlotsCutKey(slots, b, h, lo, hi);
    if a < b {
      Segment(slots, a, b, h, lo, hi);
      SlotsOrder(slots[a..b], h, slots[a].key, slots[b].key);
      assert In(All(slots[a..b])[0].key, slots[a].key, slots[b].key);
    }
  }

  /** The step from a branch page to a child. */
  method SearchBranch(slots: seq<Slot>, key: int, ghost h: nat, ghost lo: Option<int>, ghost hi: Option<int>) returns (c: nat)
    requires Slots(slots, h, lo, hi) && |slots| >= 2
    ensures c < |slots| && c == Pick(slots, |slots| - 1, key)
  {
    hide Slots;
    var keys := KeysOf(slots);
    forall a | 1 <= a < |slots|
      ensures slots[a].key.Some? && keys[a] == slots[a].key.value
    {
      KeysGrow(slots, a, a, h, lo, hi);
    }
    forall a, b | 1 <= a < b < |slots|
      ensures keys[a] < keys[b]
    {
      KeysGrow(slots, a, b, h, lo, hi);
    }
    var i, exact := NodeSearch(keys, false, key);
    if i == |slots| {
      c := |slots| - 1;
    } else if exact {
      c := i;
    } else {
      c := i - 1;
    }
    assert forall j :: c < j < |slots| ==> slots[j].key.Some? && keys[j] == slots[j].key.value && (i < j ==> keys[i] < keys[j]);
    PickIs(slots, |slots| - 1, key, c);
  }

  // ---------------------------------------------------------------- database

  class Database {
    var root: Option<Tree>
    var depth: nat
    var entries: nat
    const policy: Policy

    ghost predicate Valid()
      reads this
    {
      && Sane(policy)
      && match root
         case None => depth == 0 && entries == 0
         case Some(t) => Tidy(t, depth, None, None, 1) && entries == |Entries(t)|
    }

    function List(): seq<Entry>
      reads this
    {
      if root.None? then [] else Entries(root.value)
    }

    /** Every page holds its nodes. */
    ghost predicate PagesFit()
      reads this
    {
      root.Some? ==> TreePages.AllFit(root.value, policy)
    }

    /** What the database is for. */
    function Contents(): map<int, int>
      reads this
    {
      ToMap(List())
    }

    lemma ListSorted()
      requires Valid()
      ensures Sorted(List()) && |List()| == entries
    {
      if root.Some? {
        TidyOrder(root.value, depth, None, None, 1);
      }
    }

    /** md_entries counts the keys. */
    lemma EntriesCount()
      requires Valid()
      ensures entries == |Contents()|
    {
      ListSorted();
      MapSize(List());
    }

    constructor (policy: Policy)
      requires Sane(policy)
      ensures Valid() && Contents() == map[] && PagesFit() && this.policy == policy
    {
      root, depth, entries := None, 0, 0;
      this.policy := policy;
    }

    /** mdb_get: down from the root to a leaf. */
    method Get(key: int) returns (data: Option<int>)
      requires Valid()
      ensures data == if key in Contents() then Some(Contents()[key]) else None
    {
      ListSorted();
      MapLookup(List(), key);
      hide ToMap, Sorted, Tidy, Index;
      if root.None? {
        return None;
      }
      var es := Descend(root.value, key, depth);
      var keys := LeafKeys(es);
      var i, exact := NodeSearch(keys, true, key);
      assert forall j :: 0 <= j < |es| ==> es[j].key == keys[j];
      IndexIs(es, key, i);
      return if exact then Some(es[i].data) else None;
    }

    /** mdb_page_search_root: down to the leaf that holds the key if any does. */
    static method Descend(root: Tree, key: int, ghost depth: nat) returns (es: seq<Entry>)
      requires Tidy(root, depth, None, None, 1)
      ensures Sorted(es) && Lookup(es, key) == Lookup(Entries(root), key)
    {
      hide Tidy, Slots, Entries, Lookup, In;
      NoBounds(key);
      var page := root;
      ghost var h: nat, lo: Option<int>, hi: Option<int> := depth, None, None;
      while page.Branch?
        invariant Tidy(page, h, lo, hi, 1) && In(key, lo, hi) && Lookup(Entries(page), key) == Lookup(Entries(root), key)
        decreases h
      {
        var slots := page.slots;
        TidyBranch(slots, h, lo, hi, 1);
        var i := SearchBranch(slots, key, h - 1, lo, hi);
        ghost var c := FollowOk(slots, key, 0, h - 1, lo, hi);
        lo, hi, h := LowOf(slots, c, lo), HighOf(slots, c + 1, hi), h - 1;
        page := slots[i].child;
      }
      TidyOrder(page, h, lo, hi, 1);
      LeafEntries(page);
      es := page.entries;
    }

    /** The root after a page grew or was split. */
    method SetRoot(up: Up, ghost es: seq<Entry>)
      requires UpOk(up, depth, None, None, es) && depth >= 1 && Sane(policy)
      modifies this`root, this`depth
      ensures root.Some? && Tidy(root.value, depth, None, None, 1) && Entries(root.value) == es
      ensures TreePages.Roomy(policy) && TreePages.UpFits(up, policy) ==> PagesFit()
    {
      NewTopFits(up, policy);
      match up
      case One(t) => root := Some(t);
      case Two(l, key, r) =>
        SlotsForOk(None, up, depth, None, None, es);
        root := Some(Branch([Slot(None, l), Slot(Some(key), r)]));
        depth := depth + 1;
    }

    /** mdb_put; with noOverwrite an existing key is an error. */
    method Put(key: int, data: int, noOverwrite: bool) returns (ok: bool)
      requires Valid()
      modifies this
      ensures Valid() && ok == !(noOverwrite && key in old(Contents()))
      ensures Contents() == if ok then old(Contents())[key := data] else old(Contents())
      ensures TreePages.Roomy(policy) && old(PagesFit()) ==> PagesFit()
    {
      ListSorted();
      var before := Get(key);
      if noOverwrite && before.Some? {
        return false;
      }
      hide ToMap, PutIn, BTree.CutFrom, Sorted, Tidy, UpOk, Insert, Sane, Entries, In, Has, TreePages.AllFit, TreePages.UpFits, TreePages.Roomy;
      ghost var list := List();
      PutFacts(list, key, data);
      if root.None? {
        NewRoot(key, data);
        LeafEntries(Leaf([Entry(key, data)]));
        NewRootFits(key, data, policy);
        root, depth := Some(Leaf([Entry(key, data)])), 1;
      } else {
        InsertKeeps(root.value, key, data, policy, depth);
        SetRoot(Insert(root.value, key, data, policy), PutIn(list, key, data));
      }
      if before.None? {
        entries := entries + 1;
      }
      return true;
    }

    /** mdb_del. */
    method Delete(key: int) returns (found: bool)
      requires Valid()
      modifies this
      ensures Valid() && found == (key in old(Contents()))
      ensures Contents() == old(Contents()) - {key}
      ensures TreePages.Roomy(policy) && old(PagesFit()) ==> PagesFit()
    {
      ListSorted();
      var before := Get(key);
      hide ToMap, PutIn, BTree.CutFrom, Sorted, Tidy, UpOk, BTreeUpdate.Delete, Sane, Entries, In, Has, TreePages.AllFit, TreePages.UpFits, TreePages.Roomy;
      ghost var list := List();
      PutFacts(list, key, 0);
      if before.None? {
        return false;
      }
      DeleteKeeps(root.value, key, policy, depth);
      var down := BTreeUpdate.Delete(root.value, key, policy);
      if down.shrunk {
        RebalanceRoot(down.up.tree, BTree.CutFrom(list, key));
      } else {
        SetRoot(down.up, BTree.CutFrom(list, key));
      }
      entries := entries - 1;
      return true;
    }

    /** mdb_rebalance at the root: an empty leaf is given up and a branch with one child collapses. */
    method RebalanceRoot(t: Tree, ghost es: seq<Entry>)
      requires Tidy(t, depth, None, None, 0) && Entries(t) == es && depth >= 1
      modifies this`root, this`depth
      ensures match root
              case None => depth == 0 && es == []
              case Some(r) => Tidy(r, depth, None, None, 1) && Entries(r) == es
      ensures TreePages.UpFits(One(t), policy) ==> PagesFit()
    {
      TreePages.OneFits(t, policy);
      match t
      case Leaf(list) =>
        if list == [] {
          root, depth := None, 0;
        } else {
          root := Some(t);
        }
      case Branch(slots) =>
        if |slots| == 1 {
          assert slots == [slots[0]];
          OneSlot(slots[0]);
          root := Some(slots[0].child);
          depth := depth - 1;
        } else {
          root := Some(t);
        }
    }
  }

  lemma NoBounds(key: int)
    ensures In(key, None, None)
  {
  }

  lemma LeafEntries(t: Tree)
    requires t.Leaf?
    ensures Entries(t) == t.entries
  {
  }

  lemma NewRoot(key: int, data: int)
    ensures Tidy(Leaf([Entry(key, data)]), 1, None, None, 1)
    ensures PutIn([], key, data) == [Entry(key, data)]
  {
  }

  lemma TidyHeight(t: Tree, h: nat)
    requires Tidy(t, h, None, None, 1)
    ensures h >= 1
  {
  }

  lemma NewRootFits(key: int, data: int, p: Policy)
    ensures TreePages.Roomy(p) ==> TreePages.AllFit(Leaf([Entry(key, data)]), p)
  {
    hide TreePages.BranchRoom;
  }

  /** The page above two halves holds their two nodes. */
  lemma NewTopFits(up: Up, p: Policy)
    ensures up.One? && TreePages.UpFits(up, p) ==> TreePages.AllFit(up.tree, p)
    ensures up.Two? && TreePages.Roomy(p) && TreePages.UpFits(up, p) ==>
              TreePages.AllFit(Branch([Slot(None, up.left), Slot(Some(up.key), up.right)]), p)
  {
    if up.Two? && TreePages.Roomy(p) && TreePages.UpFits(up, p) {
      hide TreePages.LeafRoom, TreePages.AllFit;
      TreePages.BranchFits([Slot(None, up.left), Slot(Some(up.key), up.right)], p);
    }
  }

  lemma InsertKeeps(t: Tree, key: int, data: int, p: Policy, depth: nat)
    requires Sane(p) && Tidy(t, depth, None, None, 1)
    ensures depth >= 1 && UpOk(Insert(t, key, data, p), depth, None, None, PutIn(Entries(t), key, data))
    ensures TreePages.Roomy(p) && TreePages.AllFit(t, p) ==> TreePages.UpFits(Insert(t, key, data, p), p)
  {
    TidyHeight(t, depth);
    NoBounds(key);
    hide *;
    InsertOk(t, key, data, p, depth, None, None);
    if TreePages.Roomy(p) && TreePages.AllFit(t, p) {
      TreePages.InsertFits(t, key, data, p, depth, None, None);
    }
  }

  lemma DeleteKeeps(t: Tree, key: int, p: Policy, depth: nat)
    requires Sane(p) && Tidy(t, depth, None, None, 1)
    ensures depth >= 1 && DownOk(BTreeUpdate.Delete(t, key, p), depth, None, None, BTree.CutFrom(Entries(t), key))
    ensures TreePages.Roomy(p) && TreePages.AllFit(t, p) ==> TreePages.UpFits(BTreeUpdate.Delete(t, key, p).up, p)
  {
    TidyHeight(t, depth);
    NoBounds(key);
    hide *;
    DeleteOk(t, key, p, depth, None, None);
    if TreePages.Roomy(p) && TreePages.AllFit(t, p) {
      TreePages.DeleteFits(t, key, p, depth, None, None);
    }
  }
}
