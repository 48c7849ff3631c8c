/** Pages of bytes, as LMDB has them, have the room that the tree's proofs ask for. */
module TreeRoom {
  import opened BTree
  import opened BTreeUpdate
  import opened PageSplit
  import opened TreePages

  /** No node is sixteen times as large as another that is smaller than a 256th of the page: only then may a page
      be halved without a look at the sizes (PageSplit.HalvesFit and HalfTooFull). */
  ghost predicate EvenNodes(entrySize: Entry -> nat, keySize: Option<int> -> nat, pmax: nat, least: nat) {
    && (forall e: Entry :: least <= entrySize(e) && (entrySize(e) <= 16 * least || pmax / 16 <= 16 * least))
    && (forall key: Option<int> :: keySize(key) <= 16 * keySize(None) || pmax / 16 <= 16 * keySize(None))
  }

  // -------------------------------------------------------------------- sums

  lemma EntriesCut(es: seq<Entry>, i: nat, size: Entry -> nat)
    requires i <= |es|
    ensures EntrySizes(es[..i], size) == EntrySizes(es, size)[..i] && EntrySizes(es[i..], size) == EntrySizes(es, size)[i..]
    ensures Total(EntrySizes(es, size)) == Total(EntrySizes(es[..i], size)) + Total(EntrySizes(es[i..], size))
  {
    TotalCut(EntrySizes(es, size), i);
  }

  lemma EntriesJoin(a: seq<Entry>, b: seq<Entry>, size: Entry -> nat)
    ensures Total(EntrySizes(a + b, size)) == Total(EntrySizes(a, size)) + Total(EntrySizes(b, size))
  {
    assert EntrySizes(a + b, size) == EntrySizes(a, size) + EntrySizes(b, size);
    TotalConcat(EntrySizes(a, size), EntrySizes(b, size));
  }

  lemma OneEntry(e: Entry, size: Entry -> nat)
    ensures Total(EntrySizes([e], size)) == size(e) && Total(EntrySizes([], size)) == 0
  {
    assert EntrySizes([e], size)[..0] == [];
  }

  lemma EntriesWithout(es: seq<Entry>, i: nat, size: Entry -> nat)
    requires i < |es|
    ensures Total(EntrySizes(Without(es, i), size)) + size(es[i]) == Total(EntrySizes(es, size))
  {
    hide Total, EntrySizes;
    EntriesJoin(es[..i], es[i + 1..], size);
    EntriesJoin(es[..i], [es[i]], size);
    EntriesJoin(es[..i] + [es[i]], es[i + 1..], size);
    OneEntry(es[i], size);
    assert es[..i] + [es[i]] + es[i + 1..] == es;
  }

  lemma SlotsJoinSizes(a: seq<Slot>, b: seq<Slot>, size: Option<int> -> nat)
    ensures Total(SlotSizes(a + b, size)) == Total(SlotSizes(a, size)) + Total(SlotSizes(b, size))
  {
    assert SlotSizes(a + b, size) == SlotSizes(a, size) + SlotSizes(b, size);
    TotalConcat(SlotSizes(a, size), SlotSizes(b, size));
  }

  lemma OneSlotSize(s: Slot, size: Option<int> -> nat)
    ensures Total(SlotSizes([s], size)) == size(s.key) && Total(SlotSizes([], size)) == 0
  {
    assert SlotSizes([s], size)[..0] == [];
  }

  lemma SlotsWithout(slots: seq<Slot>, i: nat, size: Option<int> -> nat)
    requires i < |slots|
    ensures Total(SlotSizes(Without(slots, i), size)) + size(slots[i].key) == Total(SlotSizes(slots, size))
  {
    hide Total, SlotSizes;
    SlotsJoinSizes(slots[..i], slots[i + 1..], size);
    SlotsJoinSizes(slots[..i], [slots[i]], size);
    SlotsJoinSizes(slots[..i] + [slots[i]], slots[i + 1..], size);
    OneSlotSize(slots[i], size);
    assert slots[..i] + [slots[i]] + slots[i + 1..] == slots;
  }

  /** The first slot and the rest. */
  lemma FirstAndRest(slots: seq<Slot>, size: Option<int> -> nat)
    requires slots != []
    ensures Total(SlotSizes(slots, size)) == size(slots[0].key) + Total(SlotSizes(slots[1..], size))
  {
    SlotsJoinSizes([slots[0]], slots[1..], size);
    OneSlotSize(slots[0], size);
    assert [slots[0]] + slots[1..] == slots;
  }

  lemma JoinedSize(a: seq<Slot>, b: seq<Slot>, key: int, size: Option<int> -> nat)
    requires b != []
    ensures Total(SlotSizes(Joined(a, b, key), size)) == Total(SlotSizes(a, size)) + size(Some(key)) + Total(SlotSizes(b[1..], size))
  {
    hide Total, SlotSizes;
    var keyed := [b[0].(key := Some(key))] + b[1..];
    SlotsJoinSizes(a, keyed, size);
    FirstAndRest(keyed, size);
    assert keyed[1..] == b[1..];
  }

  // -------------------------------------------------------------------- thin pages

  lemma FillBelow(total: nat, pmax: nat, part: nat)
    requires 0 < pmax && PageFill(total, pmax) < part
    ensures 1000 * total < part * pmax
  {
    var q, r := 1000 * total / pmax, 1000 * total % pmax;
    assert 1000 * total == q * pmax + r;
    TimesAtMost(q + 1, part, pmax);
    assert (q + 1) * pmax == q * pmax + pmax;
  }

  /** A leaf is mended when it is less than a quarter full or empty, a branch page when it is less than a thousandth
      full or has one child. */
  lemma ThinIs(es: seq<Entry>, slots: seq<Slot>, entrySize: Entry -> nat, keySize: Option<int> -> nat, pmax: nat)
    requires 0 < pmax
    ensures var p := Sized(entrySize, keySize, pmax);
            && (ThinLeaf(es, p, 0) <==> 4 * Total(EntrySizes(es, entrySize)) < pmax || es == [])
            && (ThinBranch(slots, p, 0) <==> 1000 * Total(SlotSizes(slots, keySize)) < pmax || |slots| < 2)
  {
    FillIs(Total(EntrySizes(es, entrySize)), pmax, 250);
    FillIs(Total(SlotSizes(slots, keySize)), pmax, 1);
  }

  lemma FillIs(total: nat, pmax: nat, part: nat)
    requires 0 < pmax
    ensures PageFill(total, pmax) < part <==> 1000 * total < part * pmax
  {
    if PageFill(total, pmax) < part {
      FillBelow(total, pmax, part);
    } else {
      var q, r := 1000 * total / pmax, 1000 * total % pmax;
      assert 1000 * total == q * pmax + r;
      TimesAtMost(part, q, pmax);
    }
  }

  lemma ThinLeafSize(es: seq<Entry>, entrySize: Entry -> nat, keySize: Option<int> -> nat, pmax: nat, more: nat)
    requires SmallNodes(entrySize, keySize, pmax) && more <= 1 && ThinLeaf(es, Sized(entrySize, keySize, pmax), more)
    ensures 4 * Total(EntrySizes(es, entrySize)) < pmax || (|es| <= more && Total(EntrySizes(es, entrySize)) <= more * (pmax / 2))
  {
    if |es| < 1 + more {
      if es == [] {
        OneEntry(Entry(0, 0), entrySize);
      } else {
        OneEntry(es[0], entrySize);
        assert es == [es[0]];
      }
    } else {
      FillBelow(Total(EntrySizes(es, entrySize)), pmax, 250);
    }
  }

  lemma {:induction false} SlotsAtMost(slots: seq<Slot>, entrySize: Entry -> nat, keySize: Option<int> -> nat, pmax: nat)
    requires SmallNodes(entrySize, keySize, pmax)
    ensures Total(SlotSizes(slots, keySize)) <= |slots| * (pmax / 4)
  {
    var sizes := SlotSizes(slots, keySize);
    forall i | 0 <= i < |sizes|
      ensures sizes[i] <= pmax / 4
    {
      assert sizes[i] == keySize(slots[i].key);
    }
    TotalAtMost(sizes, pmax / 4);
  }

  lemma ThinBranchSize(slots: seq<Slot>, entrySize: Entry -> nat, keySize: Option<int> -> nat, pmax: nat, more: nat)
    requires SmallNodes(entrySize, keySize, pmax) && more <= 1 && ThinBranch(slots, Sized(entrySize, keySize, pmax), more)
    ensures 1000 * Total(SlotSizes(slots, keySize)) < pmax || (|slots| <= 1 + more && Total(SlotSizes(slots, keySize)) <= (1 + more) * (pmax / 4))
  {
    if |slots| < 2 + more {
      SlotsAtMost(slots, entrySize, keySize, pmax);
      TimesAtMost(|slots|, 1 + more, pmax / 4);
    } else {
      FillBelow(Total(SlotSizes(slots, keySize)), pmax, 1);
    }
  }

  // -------------------------------------------------------------------- leaves

  lemma LeafSplitFits(es: seq<Entry>, at: nat, entrySize: Entry -> nat, keySize: Option<int> -> nat, pmax: nat, least: nat)
    requires SmallNodes(entrySize, keySize, pmax) && EvenNodes(entrySize, keySize, pmax, least) && at < |es|
    requires var p := Sized(entrySize, keySize, pmax); !p.leafFits(es) && p.leafFits(Without(es, at))
    ensures var p := Sized(entrySize, keySize, pmax);
            var s := p.leafSplit(es, at); 0 < s < |es| && p.leafFits(es[..s]) && p.leafFits(es[s..])
  {
    var all := EntrySizes(es, entrySize);
    EntriesWithout(es, at, entrySize);
    assert forall i :: 0 <= i < |all| ==> all[i] == entrySize(es[i]);
    hide Total, EntrySizes, SplitIndex;
    if Searched(all, at, pmax) {
      SplitFits(all, at, true, 0, pmax);
    } else {
      HalvesFit(all, at, true, 0, pmax, least);
    }
    var s := SplitIndex(all, at, true, pmax);
    EntriesCut(es, s, entrySize);
  }

  lemma SizedLeafRoom(entrySize: Entry -> nat, keySize: Option<int> -> nat, pmax: nat, least: nat)
    requires SmallNodes(entrySize, keySize, pmax) && EvenNodes(entrySize, keySize, pmax, least)
    ensures LeafRoom(Sized(entrySize, keySize, pmax))
  {
    var p := Sized(entrySize, keySize, pmax);
    hide Total, EntrySizes, SplitIndex, PageFill;
    forall e: Entry
      ensures p.leafFits([e])
    {
      OneEntry(e, entrySize);
    }
    forall es: seq<Entry>, i: nat | i < |es| && p.leafFits(es)
      ensures p.leafFits(Without(es, i))
    {
      EntriesWithout(es, i, entrySize);
    }
    forall es: seq<Entry>, at: nat | at < |es| && !p.leafFits(es) && p.leafFits(Without(es, at))
      ensures var s := p.leafSplit(es, at); 0 < s < |es| && p.leafFits(es[..s]) && p.leafFits(es[s..])
    {
      LeafSplitFits(es, at, entrySize, keySize, pmax, least);
    }
    forall es: seq<Entry>, e: Entry | p.leafFits(es) && ThinLeaf(es, p, 0)
      ensures p.leafFits(es + [e]) && p.leafFits([e] + es)
    {
      ThinLeafSize(es, entrySize, keySize, pmax, 0);
      OneEntry(e, entrySize);
      EntriesJoin(es, [e], entrySize);
      EntriesJoin([e], es, entrySize);
    }
    forall a: seq<Entry>, b: seq<Entry> | p.leafFits(a) && p.leafFits(b) && ThinLeaf(a, p, 0) && ThinLeaf(b, p, 1)
      ensures p.leafFits(a + b) && p.leafFits(b + a)
    {
      ThinLeafSize(a, entrySize, keySize, pmax, 0);
      ThinLeafSize(b, entrySize, keySize, pmax, 1);
      EntriesJoin(a, b, entrySize);
      EntriesJoin(b, a, entrySize);
    }
  }

  // -------------------------------------------------------------------- branch pages

  lemma SlotSizeIs(slots: seq<Slot>, size: Option<int> -> nat, bare: nat, most: nat)
    requires forall key :: bare <= size(key) <= most
    ensures forall i :: 0 <= i < |slots| ==> SlotSizes(slots, size)[i] == size(slots[i].key) && bare <= SlotSizes(slots, size)[i] <= most
  {
  }

  lemma SlotsCutSizes(slots: seq<Slot>, i: nat, size: Option<int> -> nat)
    requires i <= |slots|
    ensures SlotSizes(slots[..i], size) == SlotSizes(slots, size)[..i] && SlotSizes(slots[i..], size) == SlotSizes(slots, size)[i..]
  {
  }

  lemma WithoutKeySize(slots: seq<Slot>, size: Option<int> -> nat)
    requires slots != []
    ensures Total(SlotSizes(WithoutKey(slots), size)) == size(None) + Total(SlotSizes(slots[1..], size))
  {
    hide Total, SlotSizes;
    FirstAndRest(WithoutKey(slots), size);
    assert WithoutKey(slots)[1..] == slots[1..];
  }

  lemma BranchSplitFits(slots: seq<Slot>, at: nat, entrySize: Entry -> nat, keySize: Option<int> -> nat, pmax: nat, least: nat)
    requires SmallNodes(entrySize, keySize, pmax) && EvenNodes(entrySize, keySize, pmax, least) && at < |slots|
    requires var p := Sized(entrySize, keySize, pmax); !p.branchFits(slots) && p.branchFits(Without(slots, at))
    ensures var p := Sized(entrySize, keySize, pmax);
            var s := p.branchSplit(slots, at); 0 < s < |slots| && p.branchFits(slots[..s]) && p.branchFits(WithoutKey(slots[s..]))
  {
    var all, bare := SlotSizes(slots, keySize), keySize(None);
    SlotsWithout(slots, at, keySize);
    SlotSizeIs(slots, keySize, bare, pmax / 4);
    hide Total, SlotSizes, SplitIndex;
    if Searched(all, at, pmax) {
      SplitFits(all, at, false, bare, pmax);
    } else {
      HalvesFit(all, at, false, bare, pmax, bare);
    }
    var s := SplitIndex(all, at, false, pmax);
    SlotsCutSizes(slots, s, keySize);
    SlotsCutSizes(slots, s + 1, keySize);
    WithoutKeySize(slots[s..], keySize);
    assert slots[s..][1..] == slots[s + 1..];
  }

  lemma SameKeysSize(a: seq<Slot>, b: seq<Slot>, size: Option<int> -> nat)
    requires Keys(a) == Keys(b)
    ensures SlotSizes(a, size) == SlotSizes(b, size)
  {
    assert |a| == |b|;
    assert forall i :: 0 <= i < |a| ==> Keys(a)[i] == a[i].key && Keys(b)[i] == b[i].key;
    assert forall i :: 0 <= i < |a| ==> a[i].key == b[i].key;
    assert SlotSizes(a, size) == SlotSizes(b, size);
  }

  lemma AddedSlot(slots: seq<Slot>, s: Slot, entrySize: Entry -> nat, keySize: Option<int> -> nat, pmax: nat)
    requires SmallNodes(entrySize, keySize, pmax) && ThinBranch(slots, Sized(entrySize, keySize, pmax), 0)
    ensures var p := Sized(entrySize, keySize, pmax);
            p.branchFits(slots + [s]) && forall key :: slots != [] && s.key == None ==> p.branchFits(Joined([s], slots, key))
  {
    ThinBranchSize(slots, entrySize, keySize, pmax, 0);
    hide Total, SlotSizes, PageFill;
    SlotsJoinSizes(slots, [s], keySize);
    OneSlotSize(s, keySize);
    forall key | slots != [] && s.key == None
      ensures Total(SlotSizes(Joined([s], slots, key), keySize)) <= pmax
    {
      JoinedSize([s], slots, key, keySize);
      FirstAndRest(slots, keySize);
    }
  }

  /** What a thin page keeps when its first slot is not counted. */
  lemma RestSize(b: seq<Slot>, entrySize: Entry -> nat, keySize: Option<int> -> nat, pmax: nat, more: nat)
    requires SmallNodes(entrySize, keySize, pmax) && b != [] && more <= 1 && ThinBranch(b, Sized(entrySize, keySize, pmax), more)
    ensures 1000 * Total(SlotSizes(b[1..], keySize)) < pmax || Total(SlotSizes(b[1..], keySize)) <= more * (pmax / 4)
  {
    ThinBranchSize(b, entrySize, keySize, pmax, more);
    FirstAndRest(b, keySize);
    if |b| <= 1 + more {
      SlotsAtMost(b[1..], entrySize, keySize, pmax);
      TimesAtMost(|b[1..]|, more, pmax / 4);
    }
  }

  lemma JoinedSlots(a: seq<Slot>, b: seq<Slot>, key: int, entrySize: Entry -> nat, keySize: Option<int> -> nat, pmax: nat, more: nat)
    requires SmallNodes(entrySize, keySize, pmax) && b != [] && more <= 1
    requires var p := Sized(entrySize, keySize, pmax); ThinBranch(a, p, more) && ThinBranch(b, p, 1 - more)
    ensures Sized(entrySize, keySize, pmax).branchFits(Joined(a, b, key))
  {
    ThinBranchSize(a, entrySize, keySize, pmax, more);
    RestSize(b, entrySize, keySize, pmax, 1 - more);
    hide Total, SlotSizes, PageFill, ThinBranch;
    JoinedSize(a, b, key, keySize);
    var q := pmax / 4;
    assert (if more == 0 then (1 + more) * q == q && (1 - more) * q == q else (1 + more) * q == 2 * q && (1 - more) * q == 0);
  }

  lemma KeysDecide(a: seq<Slot>, b: seq<Slot>, entrySize: Entry -> nat, keySize: Option<int> -> nat, pmax: nat)
    requires 0 < pmax && Keys(a) == Keys(b)
    ensures var p := Sized(entrySize, keySize, pmax); p.branchFits(a) == p.branchFits(b) && p.branchFull(a) == p.branchFull(b)
  {
    hide Total, SlotSizes, PageFill;
    SameKeysSize(a, b, keySize);
  }

  lemma TwoSlotsFit(a: Slot, b: Slot, entrySize: Entry -> nat, keySize: Option<int> -> nat, pmax: nat)
    requires SmallNodes(entrySize, keySize, pmax)
    ensures Sized(entrySize, keySize, pmax).branchFits([a, b])
  {
    hide Total, SlotSizes;
    SlotsJoinSizes([a], [b], keySize);
    OneSlotSize(a, keySize);
    OneSlotSize(b, keySize);
    assert [a] + [b] == [a, b];
  }

  lemma LessFits(slots: seq<Slot>, entrySize: Entry -> nat, keySize: Option<int> -> nat, pmax: nat)
    requires SmallNodes(entrySize, keySize, pmax) && Sized(entrySize, keySize, pmax).branchFits(slots)
    ensures forall i: nat :: i < |slots| ==> Sized(entrySize, keySize, pmax).branchFits(Without(slots, i))
    ensures slots != [] ==> Sized(entrySize, keySize, pmax).branchFits(WithoutKey(slots))
  {
    hide Total, SlotSizes, Without;
    forall i: nat | i < |slots|
      ensures Total(SlotSizes(Without(slots, i), keySize)) <= pmax
    {
      SlotsWithout(slots, i, keySize);
    }
    if slots != [] {
      WithoutKeySize(slots, keySize);
      FirstAndRest(slots, keySize);
    }
  }

  lemma SizedBranchRoom(entrySize: Entry -> nat, keySize: Option<int> -> nat, pmax: nat, least: nat)
    requires SmallNodes(entrySize, keySize, pmax) && EvenNodes(entrySize, keySize, pmax, least)
    ensures BranchRoom(Sized(entrySize, keySize, pmax))
  {
    var p := Sized(entrySize, keySize, pmax);
    hide Total, SlotSizes, SplitIndex, PageFill, Sized, Joined, Without, WithoutKey, ThinBranch, Keys;
    forall a: seq<Slot>, b: seq<Slot> | Keys(a) == Keys(b)
      ensures p.branchFits(a) == p.branchFits(b) && p.branchFull(a) == p.branchFull(b)
    {
      KeysDecide(a, b, entrySize, keySize, pmax);
    }
    forall a: Slot, b: Slot | a.key == None
      ensures p.branchFits([a, b])
    {
      TwoSlotsFit(a, b, entrySize, keySize, pmax);
    }
    forall slots: seq<Slot> | p.branchFits(slots)
      ensures forall i: nat :: i < |slots| ==> p.branchFits(Without(slots, i))
      ensures slots != [] ==> p.branchFits(WithoutKey(slots))
    {
      LessFits(slots, entrySize, keySize, pmax);
    }
    forall slots: seq<Slot>, at: nat | at < |slots| && !p.branchFits(slots) && p.branchFits(Without(slots, at))
      ensures var s := p.branchSplit(slots, at); 0 < s < |slots| && p.branchFits(slots[..s]) && p.branchFits(WithoutKey(slots[s..]))
    {
      BranchSplitFits(slots, at, entrySize, keySize, pmax, least);
    }
    forall slots: seq<Slot>, s: Slot | p.branchFits(slots) && ThinBranch(slots, p, 0)
      ensures p.branchFits(slots + [s])
    {
      AddedSlot(slots, s, entrySize, keySize, pmax);
    }
    forall slots: seq<Slot>, s: Slot, key: int | slots != [] && p.branchFits(slots) && ThinBranch(slots, p, 0) && s.key == None
      ensures p.branchFits(Joined([s], slots, key))
    {
      AddedSlot(slots, s, entrySize, keySize, pmax);
    }
    forall a: seq<Slot>, b: seq<Slot>, key: int |
      p.branchFits(a) && p.branchFits(b) && b != [] && ((ThinBranch(a, p, 0) && ThinBranch(b, p, 1)) || (ThinBranch(a, p, 1) && ThinBranch(b, p, 0)))
      ensures p.branchFits(Joined(a, b, key))
    {
      JoinedSlots(a, b, key, entrySize, keySize, pmax, if ThinBranch(a, p, 0) && ThinBranch(b, p, 1) then 0 else 1);
    }
  }

  /** Pages of bytes have the room: a leaf's node takes at most half a page, a branch page's at most a quarter,
      and where the sizes are not looked at, no node is far larger than another. */
  lemma SizedIsRoomy(entrySize: Entry -> nat, keySize: Option<int> -> nat, pmax: nat, least: nat)
    requires SmallNodes(entrySize, keySize, pmax) && EvenNodes(entrySize, keySize, pmax, least)
    ensures Roomy(Sized(entrySize, keySize, pmax))
  {
    hide LeafRoom, BranchRoom;
    SizedLeafRoom(entrySize, keySize, pmax, least);
    SizedBranchRoom(entrySize, keySize, pmax, least);
  }
}
