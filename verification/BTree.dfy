/** LMDB's B+tree, pages being sequences of nodes. Page sizes enter only through a policy: which
    contents fit a page, where an overfull page is split, and which pages are full enough. */
module BTree {
  datatype Option<T> = None | Some(value: T)

  /** Keys in the database's order, and the data stored under them. */
  datatype Entry = Entry(key: int, data: int)

  /** A branch slot: the first of a page has no key. */
  datatype Slot = Slot(key: Option<int>, child: Tree)

  datatype Tree = Leaf(entries: seq<Entry>) | Branch(slots: seq<Slot>)

  function Entries(t: Tree): seq<Entry>
    decreases t, 1
  {
    match t
    case Leaf(entries) => entries
    case Branch(slots) => All(slots)
  }

  function Under(s: Slot): seq<Entry>
    decreases s, 0
  {
    Entries(s.child)
  }

  function All(slots: seq<Slot>): seq<Entry>
    decreases slots, 0
  {
    if slots == [] then [] else Under(slots[0]) + All(slots[1..])
  }

  predicate Sorted(es: seq<Entry>) {
    forall i, j :: 0 <= i < j < |es| ==> es[i].key < es[j].key
  }

  /** Bounds: from `lo` on and below `hi`, None being no bound. */
  predicate In(k: int, lo: Option<int>, hi: Option<int>) {
    (lo.Some? ==> lo.value <= k) && (hi.Some? ==> k < hi.value)
  }

  predicate AllIn(es: seq<Entry>, lo: Option<int>, hi: Option<int>) {
    forall i :: 0 <= i < |es| ==> In(es[i].key, lo, hi)
  }

  /** A tree of height h with its keys within the bounds. With min = 1 no leaf is empty and every branch
      has two children; with min = 0 the top page alone may have one less. */
  predicate Tidy(t: Tree, h: nat, lo: Option<int>, hi: Option<int>, min: nat)
    decreases h, 0
  {
    match t
    case Leaf(entries) => h == 1 && Sorted(entries) && AllIn(entries, lo, hi) && |entries| >= min
    case Branch(slots) => h >= 2 && |slots| >= 1 + min && slots[0].key == None && Slots(slots, h - 1, lo, hi)
  }

  /** Consecutive slots: each key bounds its child from below and the one before from above. */
  predicate Slots(slots: seq<Slot>, h: nat, lo: Option<int>, hi: Option<int>)
    decreases h, |slots|
  {
    && slots != []
    && if |slots| == 1 then Tidy(slots[0].child, h, lo, hi, 1)
       else slots[1].key.Some? && Tidy(slots[0].child, h, lo, slots[1].key, 1) && Slots(slots[1..], h, slots[1].key, hi)
  }

  // ------------------------------------------------------------ slot segments

  lemma {:induction false} AllConcat(a: seq<Slot>, b: seq<Slot>)
    ensures All(a + b) == All(a) + All(b)
  {
    if a == [] {
      assert a + b == b;
    } else {
      AllConcat(a[1..], b);
      assert (a + b)[1..] == a[1..] + b;
    }
  }

  lemma {:induction false} SlotsJoin(a: seq<Slot>, b: seq<Slot>, h: nat, lo: Option<int>, hi: Option<int>)
    requires a != [] && b != [] && b[0].key.Some?
    requires Slots(a, h, lo, b[0].key) && Slots(b, h, b[0].key, hi)
    ensures Slots(a + b, h, lo, hi)
    decreases |a|
  {
    hide Tidy;
    if |a| == 1 {
      assert (a + b)[1..] == b;
    } else {
      SlotsJoin(a[1..], b, h, a[1].key, hi);
      assert (a + b)[1..] == a[1..] + b;
    }
  }

  lemma {:induction false} SlotsCut(a: seq<Slot>, b: seq<Slot>, h: nat, lo: Option<int>, hi: Option<int>)
    requires a != [] && b != [] && Slots(a + b, h, lo, hi)
    ensures b[0].key.Some? && Slots(a, h, lo, b[0].key) && Slots(b, h, b[0].key, hi)
    decreases |a|
  {
    hide Tidy;
    if |a| == 1 {
      assert (a + b)[1..] == b;
    } else {
      assert (a + b)[1..] == a[1..] + b;
      SlotsCut(a[1..], b, h, a[1].key, hi);
    }
  }

  function LowOf(slots: seq<Slot>, i: nat, lo: Option<int>): Option<int>
    requires i < |slots|
  {
    if i == 0 then lo else slots[i].key
  }

  function HighOf(slots: seq<Slot>, j: nat, hi: Option<int>): Option<int>
    requires j <= |slots|
  {
    if j == |slots| then hi else slots[j].key
  }

  /** The slots from i to j between their own bounds. */
  lemma Segment(slots: seq<Slot>, i: nat, j: nat, h: nat, lo: Option<int>, hi: Option<int>)
    requires Slots(slots, h, lo, hi) && i < j <= |slots|
    ensures Slots(slots[i..j], h, LowOf(slots, i, lo), HighOf(slots, j, hi))
  {
    hide Slots;
    var rest := slots[i..];
    if i > 0 {
      assert slots == slots[..i] + rest;
      SlotsCut(slots[..i], rest, h, lo, hi);
    } else {
      assert rest == slots;
    }
    if j < |slots| {
      assert rest == slots[i..j] + slots[j..];
      SlotsCut(slots[i..j], slots[j..], h, LowOf(slots, i, lo), hi);
    } else {
      assert slots[i..j] == rest;
    }
  }

  function Replace(slots: seq<Slot>, i: nat, j: nat, mid: seq<Slot>): seq<Slot>
    requires i <= j <= |slots|
  {
    slots[..i] + mid + slots[j..]
  }

  /** Other slots in their place, between the same bounds. */
  lemma SegmentReplaced(slots: seq<Slot>, i: nat, j: nat, mid: seq<Slot>, h: nat, lo: Option<int>, hi: Option<int>)
    requires Slots(slots, h, lo, hi) && i < j <= |slots| && mid != [] && mid[0].key == slots[i].key
    requires Slots(mid, h, LowOf(slots, i, lo), HighOf(slots, j, hi))
    ensures Slots(Replace(slots, i, j, mid), h, lo, hi) && Replace(slots, i, j, mid)[0].key == slots[0].key
    ensures All(Replace(slots, i, j, mid)) == All(slots[..i]) + All(mid) + All(slots[j..])
  {
    AllReplaced(slots, i, j, mid);
    hide Slots, All;
    if j < |slots| {
      assert slots == slots[..j] + slots[j..];
      SlotsCut(slots[..j], slots[j..], h, lo, hi);
      SlotsJoin(mid, slots[j..], h, LowOf(slots, i, lo), hi);
    }
    if i > 0 {
      assert slots == slots[..i] + slots[i..];
      SlotsCut(slots[..i], slots[i..], h, lo, hi);
      assert (mid + slots[j..])[0] == mid[0];
      assert j == |slots| ==> mid + slots[j..] == mid;
      SlotsJoin(slots[..i], mid + slots[j..], h, lo, hi);
      assert slots[..i] + (mid + slots[j..]) == Replace(slots, i, j, mid);
    } else {
      assert mid + slots[j..] == Replace(slots, i, j, mid);
      assert j == |slots| ==> mid + slots[j..] == mid;
    }
  }

  lemma AllReplaced(slots: seq<Slot>, i: nat, j: nat, mid: seq<Slot>)
    requires i <= j <= |slots|
    ensures All(Replace(slots, i, j, mid)) == All(slots[..i]) + All(mid) + All(slots[j..])
  {
    hide All;
    AllConcat(slots[..i] + mid, slots[j..]);
    AllConcat(slots[..i], mid);
  }

  lemma SegmentAll(slots: seq<Slot>, i: nat, j: nat)
    requires i <= j <= |slots|
    ensures All(slots) == All(slots[..i]) + All(slots[i..j]) + All(slots[j..])
  {
    hide All;
    var a, b, c := slots[..i], slots[i..j], slots[j..];
    ThreeParts(slots, i, j);
    AllConcat(a + b, c);
    AllConcat(a, b);
  }

  lemma ThreeParts(slots: seq<Slot>, i: nat, j: nat)
    requires i <= j <= |slots|
    ensures slots == slots[..i] + slots[i..j] + slots[j..]
  {
  }

  lemma OneSlot(s: Slot)
    ensures All([s]) == Entries(s.child)
  {
    assert [s][1..] == [];
  }

  lemma TwoSlots(s: Slot, t: Slot)
    ensures All([s, t]) == Entries(s.child) + Entries(t.child)
  {
    assert [s, t][1..] == [t];
    OneSlot(t);
  }

  // ------------------------------------------------------------------- order

  /** A tidy tree's entries are in order and within its bounds. */
  lemma {:induction false} TidyOrder(t: Tree, h: nat, lo: Option<int>, hi: Option<int>, min: nat)
    requires Tidy(t, h, lo, hi, min)
    ensures Sorted(Entries(t)) && AllIn(Entries(t), lo, hi) && (min > 0 ==> Entries(t) != [])
    decreases h, 0
  {
    if t.Branch? {
      SlotsOrder(t.slots, h - 1, lo, hi);
    }
  }

  lemma {:induction false} SlotsOrder(slots: seq<Slot>, h: nat, lo: Option<int>, hi: Option<int>)
    requires Slots(slots, h, lo, hi)
    ensures Sorted(All(slots)) && AllIn(All(slots), lo, hi) && All(slots) != []
    decreases h, |slots|
  {
    if |slots| == 1 {
      TidyOrder(slots[0].child, h, lo, hi, 1);
      assert slots == [slots[0]];
      OneSlot(slots[0]);
    } else {
      var key := slots[1].key;
      TidyOrder(slots[0].child, h, lo, key, 1);
      SlotsOrder(slots[1..], h, key, hi);
      hide Tidy, Slots;
      SortedConcat(Entries(slots[0].child), All(slots[1..]), lo, key.value, hi);
    }
  }

  lemma SortedConcat(a: seq<Entry>, b: seq<Entry>, lo: Option<int>, key: int, hi: Option<int>)
    requires Sorted(a) && Sorted(b) && AllIn(a, lo, Some(key)) && AllIn(b, Some(key), hi) && a != [] && b != []
    ensures Sorted(a + b) && AllIn(a + b, lo, hi) && In(key, lo, hi)
  {
    assert In(a[0].key, lo, Some(key)) && In(b[0].key, Some(key), hi);
  }

  // ------------------------------------------------------------ sorted lists

  /** Where a key is, or belongs, in a sorted list. */
  function Index(es: seq<Entry>, k: int): (i: nat)
    ensures i <= |es| && (forall j :: 0 <= j < i ==> es[j].key < k) && (i < |es| ==> es[i].key >= k)
  {
    if es == [] || es[0].key >= k then 0 else 1 + Index(es[1..], k)
  }

  predicate Has(es: seq<Entry>, k: int) {
    var i := Index(es, k);
    i < |es| && es[i].key == k
  }

  function Lookup(es: seq<Entry>, k: int): Option<int> {
    if Has(es, k) then Some(es[Index(es, k)].data) else None
  }

  /** What follows a key's place in a list: the entries after it. */
  function After(es: seq<Entry>, k: int): (i: nat)
    ensures i <= |es|
  {
    if Has(es, k) then Index(es, k) + 1 else Index(es, k)
  }

  function PutIn(es: seq<Entry>, k: int, v: int): seq<Entry> {
    es[..Index(es, k)] + [Entry(k, v)] + es[After(es, k)..]
  }

  function CutFrom(es: seq<Entry>, k: int): seq<Entry> {
    es[..Index(es, k)] + es[After(es, k)..]
  }

  lemma {:induction false} IndexIs(es: seq<Entry>, k: int, i: nat)
    requires i <= |es| && (forall j :: 0 <= j < i ==> es[j].key < k) && (i < |es| ==> es[i].key >= k)
    ensures Index(es, k) == i
  {
  }

  predicate Below(es: seq<Entry>, k: int) {
    forall j :: 0 <= j < |es| ==> es[j].key < k
  }

  predicate Above(es: seq<Entry>, k: int) {
    forall j :: 0 <= j < |es| ==> es[j].key > k
  }

  /** The rest of a sorted list takes no part in what happens to one stretch of its keys. */
  lemma StretchIndex(a: seq<Entry>, es: seq<Entry>, b: seq<Entry>, k: int)
    requires Below(a, k) && Above(b, k)
    ensures Index(a + es + b, k) == |a| + Index(es, k) && Has(a + es + b, k) == Has(es, k)
    ensures Lookup(a + es + b, k) == Lookup(es, k) && After(a + es + b, k) == |a| + After(es, k)
  {
    hide Index;
    IndexIs(a + es + b, k, |a| + Index(es, k));
  }

  lemma StretchPut(a: seq<Entry>, es: seq<Entry>, b: seq<Entry>, k: int, v: int)
    requires Below(a, k) && Above(b, k)
    ensures PutIn(a + es + b, k, v) == a + PutIn(es, k, v) + b
    ensures CutFrom(a + es + b, k) == a + CutFrom(es, k) + b
  {
    StretchIndex(a, es, b, k);
    hide Index, Has, Below, Above;
    var i, j := Index(es, k), After(es, k);
    hide After;
    MidSplit(a, es, b, i);
    MidSplit(a, es, b, j);
    Regroup(a, es[..i], [Entry(k, v)], es[j..], b);
  }

  lemma MidSplit(a: seq<Entry>, es: seq<Entry>, b: seq<Entry>, i: nat)
    requires i <= |es|
    ensures (a + es + b)[..|a| + i] == a + es[..i] && (a + es + b)[|a| + i..] == es[i..] + b
  {
  }

  lemma Regroup(a: seq<Entry>, p: seq<Entry>, e: seq<Entry>, q: seq<Entry>, b: seq<Entry>)
    ensures (a + p) + e + (q + b) == a + (p + e + q) + b && (a + p) + (q + b) == a + (p + q) + b
  {
  }

  lemma PutOrder(es: seq<Entry>, k: int, v: int)
    requires Sorted(es)
    ensures Sorted(PutIn(es, k, v)) && Sorted(CutFrom(es, k))
    ensures |PutIn(es, k, v)| == |es| + (if Has(es, k) then 0 else 1) && |CutFrom(es, k)| == |es| - (if Has(es, k) then 1 else 0)
  {
    hide Index;
  }

  lemma PutSorted(es: seq<Entry>, k: int, v: int, lo: Option<int>, hi: Option<int>)
    requires Sorted(es) && AllIn(es, lo, hi) && In(k, lo, hi)
    ensures Sorted(PutIn(es, k, v)) && AllIn(PutIn(es, k, v), lo, hi)
    ensures Sorted(CutFrom(es, k)) && AllIn(CutFrom(es, k), lo, hi)
  {
    hide Index, In, AllIn, Has, After, Sorted;
    PutOrder(es, k, v);
    var a, b := es[..Index(es, k)], es[After(es, k)..];
    SliceIn(es, Index(es, k), lo, hi);
    SliceIn(es, After(es, k), lo, hi);
    JoinIn(a, [Entry(k, v)], b, lo, hi);
    JoinIn(a, [], b, lo, hi);
    assert a + [] == a;
  }

  lemma SliceIn(es: seq<Entry>, i: nat, lo: Option<int>, hi: Option<int>)
    requires i <= |es|
    ensures AllIn(es, lo, hi) ==> AllIn(es[..i], lo, hi) && AllIn(es[i..], lo, hi)
    ensures Sorted(es) ==> Sorted(es[..i]) && Sorted(es[i..])
  {
  }

  lemma JoinIn(a: seq<Entry>, b: seq<Entry>, c: seq<Entry>, lo: Option<int>, hi: Option<int>)
    requires AllIn(a, lo, hi) && AllIn(c, lo, hi) && forall i :: 0 <= i < |b| ==> In(b[i].key, lo, hi)
    ensures AllIn(a + b + c, lo, hi)
  {
  }

  /** What a lookup finds after a put or a delete. */
  lemma PutLookup(es: seq<Entry>, k: int, v: int, x: int)
    requires Sorted(es)
    ensures Lookup(PutIn(es, k, v), x) == if x == k then Some(v) else Lookup(es, x)
  {
    hide Index;
    var j := Index(es, x);
    IndexIs(PutIn(es, k, v), x, if x <= k || Has(es, k) then j else j + 1);
  }

  lemma CutLookup(es: seq<Entry>, k: int, x: int)
    requires Sorted(es)
    ensures Lookup(CutFrom(es, k), x) == if x == k then None else Lookup(es, x)
  {
    hide Index;
    var j := Index(es, x);
    IndexIs(CutFrom(es, k), x, if x <= k || !Has(es, k) then j else j - 1);
  }

  // ------------------------------------------------------------------ search

  /** The child to follow: the last whose key is not above k, the first having none. */
  function Pick(slots: seq<Slot>, i: nat, k: int): (c: nat)
    requires i < |slots|
    ensures c <= i
  {
    if i == 0 || (slots[i].key.Some? && slots[i].key.value <= k) then i else Pick(slots, i - 1, k)
  }

  /** The picked child's bounds hold the key. */
  lemma {:induction false} PickBounds(slots: seq<Slot>, i: nat, k: int, h: nat, lo: Option<int>, hi: Option<int>)
    requires Slots(slots, h, lo, hi) && i < |slots| && In(k, lo, HighOf(slots, i + 1, hi))
    ensures var c := Pick(slots, i, k); In(k, LowOf(slots, c, lo), HighOf(slots, c + 1, hi))
  {
    if i > 0 {
      Segment(slots, i, i + 1, h, lo, hi);
      SlotsCutKey(slots, i, h, lo, hi);
      if k < slots[i].key.value {
        PickBounds(slots, i - 1, k, h, lo, hi);
      }
    }
  }

  lemma SlotsCutKey(slots: seq<Slot>, i: nat, h: nat, lo: Option<int>, hi: Option<int>)
    requires Slots(slots, h, lo, hi) && 0 < i < |slots|
    ensures slots[i].key.Some?
  {
    assert slots == slots[..i] + slots[i..];
    SlotsCut(slots[..i], slots[i..], h, lo, hi);
  }

  /** The entries before and after the picked child are below and above the key. */
  lemma AroundChild(slots: seq<Slot>, c: nat, k: int, h: nat, lo: Option<int>, hi: Option<int>)
    requires Slots(slots, h, lo, hi) && c < |slots| && In(k, LowOf(slots, c, lo), HighOf(slots, c + 1, hi))
    ensures Tidy(slots[c].child, h, LowOf(slots, c, lo), HighOf(slots, c + 1, hi), 1)
    ensures Below(All(slots[..c]), k) && Above(All(slots[c + 1..]), k)
    ensures All(slots) == All(slots[..c]) + Entries(slots[c].child) + All(slots[c + 1..])
  {
    Segment(slots, c, c + 1, h, lo, hi);
    SegmentAll(slots, c, c + 1);
    assert slots[c..c + 1] == [slots[c]];
    OneSlot(slots[c]);
    hide Tidy, All;
    if c > 0 {
      Segment(slots, 0, c, h, lo, hi);
      SlotsCutKey(slots, c, h, lo, hi);
      assert slots[0..c] == slots[..c];
      SlotsOrder(slots[..c], h, lo, slots[c].key);
    } else {
      NoSlots(slots[..c]);
    }
    if c + 1 < |slots| {
      Segment(slots, c + 1, |slots|, h, lo, hi);
      SlotsCutKey(slots, c + 1, h, lo, hi);
      assert slots[c + 1..|slots|] == slots[c + 1..];
      SlotsOrder(slots[c + 1..], h, slots[c + 1].key, hi);
    } else {
      NoSlots(slots[c + 1..]);
    }
  }

  lemma NoSlots(slots: seq<Slot>)
    requires slots == []
    ensures All(slots) == []
  {
  }

  /** mdb_node_search: the smallest node not below the key, by halving; slot 0 of a branch is passed over. */
  method NodeSearch(keys: seq<int>, leaf: bool, key: int) returns (i: nat, exact: bool)
    requires forall a, b :: (if leaf then 0 else 1) <= a < b < |keys| ==> keys[a] < keys[b]
    requires leaf || |keys| > 1
    ensures i <= |keys| && (leaf || i > 0)
    ensures forall a :: (if leaf then 0 else 1) <= a < i ==> keys[a] < key
    ensures i < |keys| ==> keys[i] >= key && (exact <==> keys[i] == key)
    ensures i == |keys| ==> !exact
  {
    var low, high := if leaf then 0 else 1, |keys| - 1;
    i := 0;
    var rc := 0;
    while low <= high
      invariant (if leaf then 0 else 1) <= low <= high + 1 <= |keys|
      invariant forall a :: (if leaf then 0 else 1) <= a < low ==> keys[a] < key
      invariant forall a :: high < a < |keys| ==> keys[a] > key
      invariant low <= high || rc > 0 || (rc < 0 && i == low) || |keys| == 0
      invariant low > high && rc > 0 ==> i + 1 == low
      invariant rc == 0 ==> low <= high || |keys| == 0
      invariant |keys| == 0 ==> rc == 0 && i == 0
      invariant leaf || i > 0 || (low == 1 && high == |keys| - 1)
      decreases high - low
    {
      i := (low + high) / 2;
      rc := if key < keys[i] then -1 else if key > keys[i] then 1 else 0;
      if rc == 0 {
        break;
      }
      if rc > 0 {
        low := i + 1;
      } else {
        high := i - 1;
      }
    }
    if rc > 0 {
      i := i + 1;
    }
    exact := rc == 0 && |keys| > 0;
  }
}
