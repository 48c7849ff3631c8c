/** Where mdb_page_split cuts an overfull page, outside MDB_APPEND, and that nodes of bounded size leave
    enough of them on both sides. */
module PageSplit {
  import opened BTree
  import opened BTreeUpdate

  function Total(sizes: seq<nat>): nat {
    if sizes == [] then 0 else Total(sizes[..|sizes| - 1]) + sizes[|sizes| - 1]
  }

  /** The search upwards from node i below k, `psize` being the nodes before: it stops at the node that no
      longer fits, or at the last one. */
  function Upwards(all: seq<nat>, i: nat, k: nat, psize: nat, pmax: nat): nat
    requires i < k <= |all|
    decreases k - i
  {
    if psize + all[i] > pmax || i == k - 1 then i else Upwards(all, i + 1, k, psize + all[i], pmax)
  }

  /** The search downwards from node i above k. */
  function Downwards(all: seq<nat>, i: nat, k: int, psize: nat, pmax: nat): nat
    requires -1 <= k < i < |all|
    decreases i - k
  {
    if psize + all[i] > pmax || i == k + 1 then i + 1 else Downwards(all, i - 1, k, psize + all[i], pmax)
  }

  /** The first node of the right page; `all` are the even sizes of the page's nodes with the new one at
      `newindx`. */
  function SplitIndex(all: seq<nat>, newindx: nat, leaf: bool, pmax: nat): nat
    requires all != []
  {
    var nkeys := |all| - 1;
    var half := (nkeys + 1) / 2;
    var nsize := if newindx < |all| then all[newindx] else 0;
    if nkeys < 32 || nsize > pmax / 16 || newindx >= nkeys then
      if newindx <= half || newindx >= nkeys then
        var k := if newindx >= nkeys then nkeys else half + 1 + if leaf then 1 else 0;
        if 0 < k <= |all| then Upwards(all, 0, k, 0, pmax) else half
      else Downwards(all, nkeys, half - 1, 0, pmax)
    else half
  }

  /** The loops of mdb_page_split that find the split point. */
  method FindSplit(all: seq<nat>, newindx: nat, leaf: bool, pmax: nat) returns (split: nat)
    requires newindx < |all| && 3 <= |all|
    ensures split == SplitIndex(all, newindx, leaf, pmax)
  {
    var nkeys := |all| - 1;
    split := (nkeys + 1) / 2;
    if nkeys < 32 || all[newindx] > pmax / 16 || newindx >= nkeys {
      var psize: nat := 0;
      if newindx <= split || newindx >= nkeys {
        var i, k := 0, if newindx >= nkeys then nkeys else split + 1 + if leaf then 1 else 0;
        while i != k
          invariant 0 <= i < k <= |all|
          invariant Upwards(all, i, k, psize, pmax) == SplitIndex(all, newindx, leaf, pmax)
          decreases k - i
        {
          psize := psize + all[i];
          if psize > pmax || i == k - 1 {
            return i;
          }
          i := i + 1;
        }
      } else {
        var i, k := nkeys, split - 1;
        while i != k
          invariant 0 <= k < i < |all|
          invariant Downwards(all, i, k, psize, pmax) == SplitIndex(all, newindx, leaf, pmax)
          decreases i - k
        {
          psize := psize + all[i];
          if psize > pmax || i == k + 1 {
            return i + 1;
          }
          i := i - 1;
        }
      }
    }
  }

  // ------------------------------------------------------------------- its range

  lemma {:induction false} UpwardsRange(all: seq<nat>, i: nat, k: nat, psize: nat, pmax: nat)
    requires i < k <= |all|
    ensures i <= Upwards(all, i, k, psize, pmax) < k
    ensures i + 1 < k && psize + all[i] <= pmax ==> Upwards(all, i, k, psize, pmax) > i
    decreases k - i
  {
    if !(psize + all[i] > pmax || i == k - 1) {
      UpwardsRange(all, i + 1, k, psize + all[i], pmax);
    }
  }

  lemma {:induction false} DownwardsRange(all: seq<nat>, i: nat, k: int, psize: nat, pmax: nat)
    requires -1 <= k < i < |all|
    ensures k + 2 <= Downwards(all, i, k, psize, pmax) <= i + 1
    ensures k + 1 < i && psize + all[i] <= pmax ==> Downwards(all, i, k, psize, pmax) < i + 1
    decreases i - k
  {
    if !(psize + all[i] > pmax || i == k + 1) {
      DownwardsRange(all, i - 1, k, psize + all[i], pmax);
    }
  }

  lemma {:induction false} TotalAtMost(sizes: seq<nat>, each: nat)
    requires forall i :: 0 <= i < |sizes| ==> sizes[i] <= each
    ensures Total(sizes) <= |sizes| * each
  {
    if sizes != [] {
      var n := |sizes| - 1;
      assert forall i :: 0 <= i < n ==> sizes[..n][i] == sizes[i];
      TotalAtMost(sizes[..n], each);
      assert (n + 1) * each == n * each + each;
    }
  }

  lemma TimesAtMost(a: nat, b: nat, each: nat)
    requires a <= b
    ensures a * each <= b * each
  {
  }

  lemma EnoughNodes(sizes: seq<nat>, n: nat, pmax: nat)
    requires 0 < n && Total(sizes) > pmax && forall i :: 0 <= i < |sizes| ==> sizes[i] <= pmax / n
    ensures |sizes| > n
  {
    TotalAtMost(sizes, pmax / n);
    var q, r := pmax / n, pmax % n;
    assert pmax == n * q + r;
    if |sizes| <= n {
      TimesAtMost(|sizes|, n, q);
    }
  }

  /** An overfull leaf none of whose nodes takes more than half a page is split into two that have nodes. */
  lemma LeafSplits(all: seq<nat>, newindx: nat, pmax: nat)
    requires Total(all) > pmax && forall i :: 0 <= i < |all| ==> all[i] <= pmax / 2
    ensures |all| >= 3 && 1 <= SplitIndex(all, newindx, true, pmax) < |all|
  {
    EnoughNodes(all, 2, pmax);
    var nkeys, half := |all| - 1, |all| / 2;
    var k := if newindx >= nkeys then nkeys else half + 2;
    if 0 < k <= |all| {
      UpwardsRange(all, 0, k, 0, pmax);
    }
    DownwardsRange(all, nkeys, half - 1, 0, pmax);
  }

  /** An overfull branch page none of whose nodes takes more than a third of a page is split into two that
      have two children each. */
  lemma BranchSplits(all: seq<nat>, newindx: nat, pmax: nat)
    requires Total(all) > pmax && forall i :: 0 <= i < |all| ==> all[i] <= pmax / 3
    ensures |all| >= 4 && 2 <= SplitIndex(all, newindx, false, pmax) <= |all| - 2
  {
    EnoughNodes(all, 3, pmax);
    var nkeys, half := |all| - 1, |all| / 2;
    var k := if newindx >= nkeys then nkeys else half + 1;
    UpwardsRange(all, 0, k, 0, pmax);
    UpwardsRange(all, 1, k, all[0], pmax);
    if half < newindx < nkeys {
      DownwardsRange(all, nkeys, half - 1, 0, pmax);
      DownwardsRange(all, nkeys - 1, half - 1, all[nkeys], pmax);
    }
  }

  // ------------------------------------------------------------------- both pages fit

  lemma {:induction false} TotalConcat(a: seq<nat>, b: seq<nat>)
    ensures Total(a + b) == Total(a) + Total(b)
  {
    if b == [] {
      assert a + b == a;
    } else {
      var n := |b| - 1;
      TotalConcat(a, b[..n]);
      assert (a + b)[..|a + b| - 1] == a + b[..n];
    }
  }

  lemma TotalCut(all: seq<nat>, i: nat)
    requires i <= |all|
    ensures Total(all) == Total(all[..i]) + Total(all[i..])
  {
    TotalConcat(all[..i], all[i..]);
    assert all[..i] + all[i..] == all;
  }

  lemma TotalNext(all: seq<nat>, i: nat)
    requires i < |all|
    ensures Total(all[..i + 1]) == Total(all[..i]) + all[i] && Total(all[i..]) == all[i] + Total(all[i + 1..])
  {
    assert all[..i + 1][..i] == all[..i];
    TotalCut(all, i);
    TotalCut(all, i + 1);
  }

  lemma {:induction false} TotalAtLeast(sizes: seq<nat>, each: nat)
    requires forall i :: 0 <= i < |sizes| ==> each <= sizes[i]
    ensures |sizes| * each <= Total(sizes)
  {
    if sizes != [] {
      var n := |sizes| - 1;
      TotalAtLeast(sizes[..n], each);
      assert (n + 1) * each == n * each + each;
    }
  }

  /** Where the search upwards stops: the nodes before fit, and the next one does not or the search is at its end. */
  lemma {:induction false} UpwardsStops(all: seq<nat>, i: nat, k: nat, pmax: nat)
    requires i < k <= |all| && Total(all[..i]) <= pmax
    ensures var s := Upwards(all, i, k, Total(all[..i]), pmax);
            i <= s < k && Total(all[..s]) <= pmax && (s == k - 1 || Total(all[..s + 1]) > pmax)
    decreases k - i
  {
    TotalNext(all, i);
    hide Total;
    if !(Total(all[..i]) + all[i] > pmax || i == k - 1) {
      UpwardsStops(all, i + 1, k, pmax);
    }
  }

  lemma {:induction false} DownwardsStops(all: seq<nat>, i: nat, k: int, pmax: nat)
    requires -1 <= k < i < |all| && Total(all[i + 1..]) <= pmax
    ensures var s := Downwards(all, i, k, Total(all[i + 1..]), pmax);
            k + 2 <= s <= i + 1 && Total(all[s..]) <= pmax && (s == k + 2 || Total(all[s - 1..]) > pmax)
    decreases i - k
  {
    TotalNext(all, i);
    hide Total;
    if !(Total(all[i + 1..]) + all[i] > pmax || i == k + 1) {
      DownwardsStops(all, i - 1, k, pmax);
    }
  }

  /** What of the page's old contents is on each side of a split. */
  lemma OldSides(all: seq<nat>, newindx: nat, s: nat)
    requires newindx < |all| && s <= |all|
    ensures Total(all) == Total(all[..s]) + Total(all[s..])
    ensures newindx < s ==> all[newindx] <= Total(all[..s])
    ensures newindx >= s ==> all[newindx] <= Total(all[s..])
  {
    TotalCut(all, s);
    if newindx < s {
      TotalCut(all[..s], newindx);
      TotalNext(all[..s], newindx);
    } else {
      TotalCut(all[s..], newindx - s);
      TotalNext(all[s..], newindx - s);
    }
  }

  /** Whether the sizes are looked at, or the page is just halved. */
  predicate Searched(all: seq<nat>, newindx: nat, pmax: nat)
    requires newindx < |all|
  {
    |all| <= 32 || all[newindx] > pmax / 16 || newindx == |all| - 1
  }

  /** Both pages hold their nodes; the first node of a right branch page needs no key and takes `bare` bytes. */
  predicate BothFit(all: seq<nat>, s: nat, leaf: bool, bare: nat, pmax: nat) {
    0 < s < |all| && Total(all[..s]) <= pmax && (if leaf then 0 else bare) + Total(all[if leaf then s else s + 1..]) <= pmax
  }

  /** A page that held its nodes until a new one was put in is split into two that hold theirs, if the sizes are
      looked at. */
  lemma SplitFits(all: seq<nat>, newindx: nat, leaf: bool, bare: nat, pmax: nat)
    requires newindx < |all| && Total(all) > pmax && Total(all) <= pmax + all[newindx]
    requires forall i :: 0 <= i < |all| ==> bare <= all[i] <= pmax / (if leaf then 2 else 3)
    requires Searched(all, newindx, pmax)
    ensures BothFit(all, SplitIndex(all, newindx, leaf, pmax), leaf, bare, pmax)
  {
    hide Total, SplitIndex, Searched, BothFit;
    var s := SplitIndex(all, newindx, leaf, pmax);
    SplitInside(all, newindx, leaf, pmax);
    SearchIs(all, newindx, leaf, pmax);
    if newindx <= |all| / 2 || newindx >= |all| - 1 {
      UpwardsFits(all, newindx, leaf, bare, pmax, s, if newindx >= |all| - 1 then |all| - 1 else |all| / 2 + 1 + if leaf then 1 else 0);
    } else {
      DownwardsFits(all, newindx, leaf, bare, pmax, s);
    }
  }

  lemma SplitInside(all: seq<nat>, newindx: nat, leaf: bool, pmax: nat)
    requires Total(all) > pmax && forall i :: 0 <= i < |all| ==> all[i] <= pmax / (if leaf then 2 else 3)
    ensures |all| >= 3 && 1 <= SplitIndex(all, newindx, leaf, pmax) < |all|
  {
    hide SplitIndex;
    if leaf {
      LeafSplits(all, newindx, pmax);
    } else {
      BranchSplits(all, newindx, pmax);
    }
  }

  lemma SearchIs(all: seq<nat>, newindx: nat, leaf: bool, pmax: nat)
    requires newindx < |all| && 3 <= |all| && Searched(all, newindx, pmax)
    ensures var s := SplitIndex(all, newindx, leaf, pmax);
            if newindx <= |all| / 2 || newindx >= |all| - 1 then
              var k := if newindx >= |all| - 1 then |all| - 1 else |all| / 2 + 1 + if leaf then 1 else 0;
              s < k <= |all| && Total(all[..s]) <= pmax && (s == k - 1 || Total(all[..s + 1]) > pmax)
            else |all| / 2 + 1 <= s <= |all| && Total(all[s..]) <= pmax && (s == |all| / 2 + 1 || Total(all[s - 1..]) > pmax)
  {
    hide Upwards, Downwards;
    assert Total([]) == 0;
    hide Total;
    var nkeys, half := |all| - 1, |all| / 2;
    if newindx <= half || newindx >= nkeys {
      assert all[..0] == [];
      UpwardsStops(all, 0, if newindx >= nkeys then nkeys else half + 1 + if leaf then 1 else 0, pmax);
    } else {
      assert all[nkeys + 1..] == [];
      DownwardsStops(all, nkeys, half - 1, pmax);
    }
  }

  lemma DownwardsFits(all: seq<nat>, newindx: nat, leaf: bool, bare: nat, pmax: nat, s: nat)
    requires newindx < |all| && Total(all) <= pmax + all[newindx] && |all| / 2 + 1 <= s < |all| && |all| / 2 < newindx
    requires forall i :: 0 <= i < |all| ==> bare <= all[i] <= pmax / (if leaf then 2 else 3)
    requires Total(all[s..]) <= pmax && (s == |all| / 2 + 1 || Total(all[s - 1..]) > pmax)
    ensures BothFit(all, s, leaf, bare, pmax)
  {
    hide Total;
    OldSides(all, newindx, s);
    TotalNext(all, s);
    TotalNext(all, s - 1);
  }

  lemma UpwardsFits(all: seq<nat>, newindx: nat, leaf: bool, bare: nat, pmax: nat, s: nat, k: nat)
    requires newindx < |all| && Total(all) <= pmax + all[newindx] && 0 < s < k <= |all| && 3 <= |all|
    requires forall i :: 0 <= i < |all| ==> bare <= all[i] <= pmax / (if leaf then 2 else 3)
    requires Total(all[..s]) <= pmax && (s == k - 1 || Total(all[..s + 1]) > pmax)
    requires k == if newindx >= |all| - 1 then |all| - 1 else |all| / 2 + 1 + if leaf then 1 else 0
    requires newindx <= |all| / 2 || newindx >= |all| - 1
    ensures BothFit(all, s, leaf, bare, pmax)
  {
    OldSides(all, newindx, s);
    TotalNext(all, s);
    if newindx >= |all| - 1 && s == k - 1 {
      assert s == |all| - 2;
      TotalNext(all, s + 1);
      assert all[s + 2..] == [];
    } else if s == k - 1 && newindx >= s {
      assert newindx == s && !leaf;
      TotalNext(all, 0);
      OldSides(all[..s], 0, 0);
      assert all[..s][0..] == all[..s] && all[..s][0] == all[0];
    }
  }

  /** A page that is just halved: its halves fit if and only if what the new node lacks on the page is no more than
      what goes to the other half; on the right half of a branch page the first key is saved. */
  lemma HalvesFitIff(all: seq<nat>, newindx: nat, leaf: bool, bare: nat, pmax: nat)
    requires newindx < |all| && Total(all) > pmax && !Searched(all, newindx, pmax)
    ensures var half, missing := |all| / 2, Total(all) - pmax;
            BothFit(all, SplitIndex(all, newindx, leaf, pmax), leaf, bare, pmax) <==>
              missing <= Total(all[half..]) && missing <= Total(all[..half]) + if leaf then 0 else all[half] - bare
  {
    HalfIs(all, newindx, leaf, pmax);
    hide Total, SplitIndex, Searched;
    TotalCut(all, |all| / 2);
    TotalNext(all, |all| / 2);
  }

  /** It is so if the new node is at most sixteen times as large as the smallest one. */
  lemma HalvesFit(all: seq<nat>, newindx: nat, leaf: bool, bare: nat, pmax: nat, least: nat)
    requires newindx < |all| && Total(all) > pmax && Total(all) <= pmax + all[newindx] && !Searched(all, newindx, pmax)
    requires forall i :: 0 <= i < |all| ==> bare <= all[i] && least <= all[i] <= pmax / (if leaf then 2 else 3)
    requires all[newindx] <= 16 * least
    ensures BothFit(all, SplitIndex(all, newindx, leaf, pmax), leaf, bare, pmax)
  {
    HalfIs(all, newindx, leaf, pmax);
    hide Total, SplitIndex, Searched, BothFit;
    var half := |all| / 2;
    OldSides(all, newindx, half);
    TotalNext(all, half);
    LargeHalves(all, half, least);
    SidesFit(all, half, leaf, bare, pmax);
  }

  lemma SidesFit(all: seq<nat>, s: nat, leaf: bool, bare: nat, pmax: nat)
    requires 0 < s < |all| && bare <= all[s] && Total(all[..s]) <= pmax && Total(all[s..]) <= pmax
    ensures BothFit(all, s, leaf, bare, pmax)
  {
    TotalNext(all, s);
  }

  lemma LargeHalves(all: seq<nat>, half: nat, least: nat)
    requires 16 <= half && half + 16 <= |all| && forall i :: 0 <= i < |all| ==> least <= all[i]
    ensures 16 * least <= Total(all[..half]) && 16 * least <= Total(all[half..])
  {
    hide Total;
    SixteenAtLeast(all[..half], least);
    SixteenAtLeast(all[half..], least);
  }

  lemma HalfIs(all: seq<nat>, newindx: nat, leaf: bool, pmax: nat)
    requires newindx < |all| && !Searched(all, newindx, pmax)
    ensures SplitIndex(all, newindx, leaf, pmax) == |all| / 2 && |all| > 32
  {
  }

  lemma SixteenAtLeast(sizes: seq<nat>, least: nat)
    requires 16 <= |sizes| && forall i :: 0 <= i < |sizes| ==> least <= sizes[i]
    ensures 16 * least <= Total(sizes)
  {
    TotalAtLeast(sizes, least);
    TimesAtMost(16, |sizes|, least);
  }

  lemma {:induction false} TotalSame(n: nat, each: nat)
    ensures Total(seq(n, _ => each)) == n * each
  {
    if n > 0 {
      TotalSame(n - 1, each);
      assert seq(n, _ => each)[..n - 1] == seq(n - 1, _ => each);
    }
  }

  /** A full page of 4080 bytes with 17 small nodes before 16 large ones: a new node of 254 bytes among these is
      too small for the sizes to be looked at, and too large for the right half. */
  lemma HalfTooFull()
    ensures var page := seq(17, _ => 12) + (seq(3, _ => 242) + (seq(12, _ => 242) + [246]));
            var all := seq(17, _ => 12) + (seq(3, _ => 242) + ([254] + (seq(12, _ => 242) + [246])));
            Total(page) == 4080 && SplitIndex(all, 20, true, 4080) == 17 && Total(all[17..]) == 4130
  {
    var small, few, many := seq(17, _ => 12), seq(3, _ => 242), seq(12, _ => 242);
    var all := small + (few + ([254] + (many + [246])));
    TotalSame(17, 12);
    TotalSame(3, 242);
    TotalSame(12, 242);
    assert [246][..0] == [] && [254][..0] == [];
    assert Total([246]) == 246 && Total([254]) == 254;
    assert |all| == 34 && all[20] == 254;
    HalfIs(all, 20, true, 4080);
    assert all[17..] == few + ([254] + (many + [246]));
    hide Total, SplitIndex;
    TotalConcat(many, [246]);
    TotalConcat([254], many + [246]);
    TotalConcat(few, [254] + (many + [246]));
    TotalConcat(few, many + [246]);
    TotalConcat(small, few + (many + [246]));
  }

  // ------------------------------------------------------------- a page by its nodes

  function EntrySizes(es: seq<Entry>, size: Entry -> nat): (sizes: seq<nat>)
    ensures |sizes| == |es|
  {
    seq(|es|, i requires 0 <= i < |es| => size(es[i]))
  }

  /** A node of a branch page takes what its key takes. */
  function SlotSizes(slots: seq<Slot>, size: Option<int> -> nat): (sizes: seq<nat>)
    ensures |sizes| == |slots|
  {
    seq<nat>(|slots|, i requires 0 <= i < |slots| => size(slots[i].key))
  }

  /** PAGEFILL, in tenths of a percent. */
  function PageFill(total: nat, pmax: nat): nat
    requires 0 < pmax
  {
    1000 * total / pmax
  }

  /** Pages that hold `pmax` bytes of nodes, split where mdb_page_split does, and are full enough where
      mdb_rebalance finds them so. */
  function Sized(entrySize: Entry -> nat, keySize: Option<int> -> nat, pmax: nat): Policy
    requires 0 < pmax
  {
    Policy(
      (es: seq<Entry>) => Total(EntrySizes(es, entrySize)) <= pmax,
      (slots: seq<Slot>) => Total(SlotSizes(slots, keySize)) <= pmax,
      (es: seq<Entry>, at: nat) => if es == [] then 0 else SplitIndex(EntrySizes(es, entrySize), at, true, pmax),
      (slots: seq<Slot>, at: nat) => if slots == [] then 0 else SplitIndex(SlotSizes(slots, keySize), at, false, pmax),
      (es: seq<Entry>) => PageFill(Total(EntrySizes(es, entrySize)), pmax) >= 250,
      (slots: seq<Slot>) => PageFill(Total(SlotSizes(slots, keySize)), pmax) >= 1)
  }

  /** A leaf node takes at most half a page, as me_nodemax ensures, and a branch node at most a quarter, as the
      limit on keys does. */
  ghost predicate SmallNodes(entrySize: Entry -> nat, keySize: Option<int> -> nat, pmax: nat) {
    && 0 < pmax && (forall e :: entrySize(e) <= pmax / 2) && (forall key :: keySize(None) <= keySize(key) <= pmax / 4)
  }

  /** Such pages are what the tree's proofs ask for. */
  lemma SizedIsSane(entrySize: Entry -> nat, keySize: Option<int> -> nat, pmax: nat)
    requires SmallNodes(entrySize, keySize, pmax)
    ensures Sane(Sized(entrySize, keySize, pmax))
  {
    var p := Sized(entrySize, keySize, pmax);
    forall es: seq<Entry>, at: nat | !p.leafFits(es)
      ensures 1 <= p.leafSplit(es, at) < |es|
    {
      LeafSplits(EntrySizes(es, entrySize), at, pmax);
    }
    forall slots: seq<Slot>, at: nat | !p.branchFits(slots)
      ensures 2 <= p.branchSplit(slots, at) <= |slots| - 2
    {
      forall i | 0 <= i < |slots|
        ensures SlotSizes(slots, keySize)[i] <= pmax / 3
      {
        assert SlotSizes(slots, keySize)[i] == keySize(slots[i].key);
      }
      BranchSplits(SlotSizes(slots, keySize), at, pmax);
    }
  }
}
