/** LMDB's ID lists: counted arrays of page numbers in descending order, slot 0 holding the
    count. Sorting, merging, searching and cutting out runs of pages, in place. */
module IdLists {
  /** Descending at position k: nothing before k is smaller than anything from k on. A range is
      sorted when this holds at every position inside it. */
  ghost predicate Cut(s: seq<nat>, lo: nat, k: int, hi: nat)
    requires hi <= |s|
  {
    forall x, y :: lo <= x < k <= y < hi ==> s[x] >= s[y]
  }

  ghost predicate Descending(s: seq<nat>) {
    forall x, y :: 0 <= x < y < |s| ==> s[x] >= s[y]
  }

  function Swapped(s: seq<nat>, i: nat, j: nat): seq<nat>
    requires i < |s| && j < |s|
  {
    s[i := s[j]][j := s[i]]
  }

  method Swap(ids: array<nat>, i: nat, j: nat)
    requires i < ids.Length && j < ids.Length
    modifies ids
    ensures ids[..] == Swapped(old(ids[..]), i, j)
  {
    var tmp := ids[i];
    ids[i] := ids[j];
    ids[j] := tmp;
  }

  lemma SwappedIsPermutation(s: seq<nat>, i: nat, j: nat)
    requires i < |s| && j < |s|
    ensures multiset(Swapped(s, i, j)) == multiset(s)
  {
  }

  lemma SwappedKeepsCut(s: seq<nat>, i: nat, j: nat, lo: nat, k: int, hi: nat)
    requires i < |s| && j < |s| && hi <= |s| && Cut(s, lo, k, hi)
    requires lo <= i < hi && lo <= j < hi && (i < k <==> j < k)
    ensures Cut(Swapped(s, i, j), lo, k, hi)
  {
  }

  /** `t` is `s` with the elements in [l, ir] permuted, where `s` is cut at both ends of [l, ir]: the
      cuts outside the segment are kept. */
  ghost predicate Rearranged(s: seq<nat>, t: seq<nat>, l: nat, ir: int) {
    && |t| == |s|
    && multiset(t) == multiset(s)
    && (forall x :: 0 <= x < |s| && !(l <= x <= ir) ==> t[x] == s[x])
    && (forall k: int, hi: nat :: hi <= |s| && ir < hi && (k <= l || ir < k) && Cut(s, 1, k, hi) ==> Cut(t, 1, k, hi))
  }

  lemma RearrangedBySwap(s: seq<nat>, t: seq<nat>, l: nat, ir: int, i: nat, j: nat)
    requires Rearranged(s, t, l, ir) && 1 <= l <= i <= ir < |s| && l <= j <= ir
    ensures Rearranged(s, Swapped(t, i, j), l, ir)
  {
    var u := Swapped(t, i, j);
    SwappedIsPermutation(t, i, j);
    forall k: int, hi: nat | hi <= |s| && ir < hi && (k <= l || ir < k) && Cut(s, 1, k, hi) ensures Cut(u, 1, k, hi) {
      SwappedKeepsCut(t, i, j, 1, k, hi);
    }
  }

  const SMALL: nat := 8
  const STACK_SIZE: nat := 64

  /** The insertion sort of a small segment. The scan only tests i >= 1; it stops at the segment's
      start because everything before the segment is at least as large. */
  method InsertionSort(ids: array<nat>, l: int, ir: int, ghost n: nat)
    requires 1 <= l && ir <= n < ids.Length
    requires Cut(ids[..], 1, l, n + 1)
    modifies ids
    ensures Rearranged(old(ids[..]), ids[..], l, ir)
    ensures forall x, y :: l <= x < y <= ir ==> ids[x] >= ids[y]
  {
    var j := l + 1;
    ghost var start := ids[..];
    while j <= ir
      invariant l + 1 <= j && Rearranged(start, ids[..], l, ir)
      invariant ir < j ==> j == l + 1 || j == ir + 1
      invariant forall x, y :: l <= x < y < j && y <= ir ==> ids[x] >= ids[y]
    {
      Insert(ids, l, j, ir, n, start);
      j := j + 1;
    }
  }

  method Insert(ids: array<nat>, l: int, j: int, ir: int, ghost n: nat, ghost start: seq<nat>)
    requires 1 <= l < j <= ir <= n < ids.Length
    requires |start| == ids.Length && Cut(start, 1, l, n + 1) && Rearranged(start, ids[..], l, ir)
    requires forall x, y :: l <= x < y < j ==> ids[x] >= ids[y]
    modifies ids
    ensures Rearranged(start, ids[..], l, ir)
    ensures forall x, y :: l <= x < y <= j ==> ids[x] >= ids[y]
  {
    hide Rearranged, Cut;
    var a := ids[j];
    var i := j - 1;
    assert ids[..][j := a] == ids[..];
    while i >= 1
      invariant l - 1 <= i < j
      invariant Rearranged(start, ids[..][i + 1 := a], l, ir)
      invariant forall x, y :: l <= x < y <= j && x != i + 1 && y != i + 1 ==> ids[x] >= ids[y]
      invariant forall y :: i + 1 < y <= j ==> a > ids[y]
    {
      ghost var v := ids[..][i + 1 := a];
      if i < l {
        SegmentStart(start, v, l, ir, n);
      }
      if ids[i] >= a {
        break;
      }
      RearrangedBySwap(start, v, l, ir, i, i + 1);
      ids[i + 1] := ids[i];
      assert ids[..][i := a] == Swapped(v, i, i + 1);
      i := i - 1;
    }
    ids[i + 1] := a;
    assert ids[..] == ids[..][i + 1 := a];
  }

  lemma SegmentStart(s: seq<nat>, v: seq<nat>, l: nat, ir: int, n: nat)
    requires 1 < l <= ir <= n && n + 1 <= |s| && Cut(s, 1, l, n + 1) && Rearranged(s, v, l, ir)
    ensures |v| == |s| && v[l - 1] >= v[l]
  {
    assert Cut(v, 1, l, n + 1);
  }

  /** Everything in [l, ir] before k is at least as large as everything from k on. */
  ghost predicate CutInside(s: seq<nat>, l: nat, k: int, ir: int) {
    ir < |s| && forall x, y :: l <= x < k <= y <= ir ==> s[x] >= s[y]
  }

  /** The median of the left, centre and right elements goes to l + 1, a larger one to l and a
      smaller one to ir: they stop the unguarded scans. */
  method MedianOfThree(ids: array<nat>, l: nat, ir: nat)
    requires 1 <= l && l + 8 <= ir < ids.Length
    modifies ids
    ensures Rearranged(old(ids[..]), ids[..], l, ir)
    ensures ids[l] >= ids[l + 1] >= ids[ir]
  {
    ghost var start := ids[..];
    hide Rearranged;
    assert Rearranged(start, ids[..], l, ir) by { RearrangedSame(start, l, ir); }
    var k := (l + ir) / 2;
    SwapInside(ids, k, l + 1, l, ir, start);
    LargerFirst(ids, l, ir, l, ir, start);
    LargerFirst(ids, l + 1, ir, l, ir, start);
    LargerFirst(ids, l, l + 1, l, ir, start);
  }

  /** Swap two elements of the segment if the first is smaller. */
  method LargerFirst(ids: array<nat>, x: nat, y: nat, ghost l: nat, ghost ir: nat, ghost start: seq<nat>)
    requires 1 <= l <= x < y <= ir < ids.Length && Rearranged(start, ids[..], l, ir)
    modifies ids
    ensures Rearranged(start, ids[..], l, ir)
    ensures ids[x] == (if old(ids[x]) < old(ids[y]) then old(ids[y]) else old(ids[x]))
    ensures ids[y] == (if old(ids[x]) < old(ids[y]) then old(ids[x]) else old(ids[y]))
    ensures forall z :: 0 <= z < ids.Length && z != x && z != y ==> ids[z] == old(ids[z])
  {
    if ids[x] < ids[y] {
      SwapInside(ids, x, y, l, ir, start);
    }
  }

  method SwapInside(ids: array<nat>, x: nat, y: nat, ghost l: nat, ghost ir: nat, ghost start: seq<nat>)
    requires 1 <= l <= x <= ir < ids.Length && l <= y <= ir && Rearranged(start, ids[..], l, ir)
    modifies ids
    ensures Rearranged(start, ids[..], l, ir)
    ensures ids[x] == old(ids[y]) && ids[y] == old(ids[x])
    ensures forall z :: 0 <= z < ids.Length && z != x && z != y ==> ids[z] == old(ids[z])
  {
    RearrangedBySwap(start, ids[..], l, ir, x, y);
    ghost var t := ids[..];
    Swap(ids, x, y);
    assert forall z :: 0 <= z < ids.Length ==> ids[z] == Swapped(t, x, y)[z];
  }

  lemma RearrangedSame(s: seq<nat>, l: nat, ir: int)
    ensures Rearranged(s, s, l, ir)
  {
  }

  /** One partitioning: the scans stay inside the segment, and every position from j to i is a cut. */
  method Partition(ids: array<nat>, l: nat, ir: nat) returns (i: nat, j: nat)
    requires 1 <= l && l + 8 <= ir < ids.Length
    modifies ids
    ensures Rearranged(old(ids[..]), ids[..], l, ir)
    ensures l + 1 <= j < i <= ir
    ensures forall k :: j <= k <= i ==> CutInside(ids[..], l, k, ir)
  {
    ghost var start := ids[..];
    MedianOfThree(ids, l, ir);
    hide Rearranged;
    i := l + 1;
    j := ir;
    var a := ids[l + 1];
    while true
      invariant l + 1 <= i <= j <= ir && (i == j ==> l + 1 < i && j < ir)
      invariant ids[l + 1] == a && ids[l] >= a >= ids[ir]
      invariant forall x :: l <= x <= i ==> ids[x] >= a
      invariant forall x :: j <= x <= ir ==> ids[x] <= a
      invariant Rearranged(start, ids[..], l, ir)
      decreases ir - i
    {
      i, j := Scans(ids, l, ir, i, j, a);
      if j < i {
        break;
      }
      SwapInside(ids, i, j, l, ir, start);
    }
    PlacePivot(ids, a, j, l, ir, start);
    assert forall x :: l <= x < i ==> ids[x] >= a;
    assert forall x :: j <= x <= ir ==> ids[x] <= a;
  }

  method PlacePivot(ids: array<nat>, a: nat, j: nat, l: nat, ghost ir: nat, ghost start: seq<nat>)
    requires 1 <= l < j <= ir < ids.Length == |start| && Rearranged(start, ids[..], l, ir) && ids[l + 1] == a
    modifies ids
    ensures Rearranged(start, ids[..], l, ir)
    ensures ids[l + 1] == old(ids[j]) && ids[j] == a
    ensures forall z :: 0 <= z < ids.Length && z != l + 1 && z != j ==> ids[z] == old(ids[z])
  {
    hide Rearranged;
    RearrangedBySwap(start, ids[..], l, ir, l + 1, j);
    ghost var t := ids[..];
    ids[l + 1] := ids[j];
    ids[j] := a;
    assert ids[..] == Swapped(t, l + 1, j);
  }

  /** The two inner loops, which test no bounds: from the left past larger elements, from the
      right past smaller ones. */
  method Scans(ids: array<nat>, l: nat, ir: nat, i0: nat, j0: nat, a: nat) returns (i: nat, j: nat)
    requires 1 <= l < i0 <= j0 <= ir < ids.Length && (i0 == j0 ==> l + 1 < i0 && j0 < ir)
    requires ids[l + 1] == a
    requires forall x :: l <= x <= i0 ==> ids[x] >= a
    requires forall x :: j0 <= x <= ir ==> ids[x] <= a
    ensures i0 < i <= ir && l + 1 <= j < j0
    ensures forall x :: l <= x < i ==> ids[x] >= a
    ensures forall x :: j < x <= ir ==> ids[x] <= a
    ensures ids[i] <= a <= ids[j]
  {
    i, j := i0 + 1, j0 - 1;
    while ids[i] > a
      invariant i0 < i <= ir && (i0 < j0 ==> i <= j0) && (i0 == j0 ==> i == i0 + 1)
      invariant forall x :: l <= x < i ==> ids[x] >= a
      decreases ir - i
    {
      i := i + 1;
    }
    while ids[j] < a
      invariant l + 1 <= j < j0
      invariant forall x :: j < x <= ir ==> ids[x] <= a
      decreases j
    {
      j := j - 1;
    }
  }

  // ------------------------------------------------------- the whole sort

  datatype Segment = Segment(l: int, ir: int) {
    function Size(): nat {
      if ir < l then 0 else ir - l + 1
    }

    predicate Before(other: Segment) {
      ir < other.l
    }

    predicate Apart(other: Segment) {
      Before(other) || other.Before(this)
    }
  }

  function Power2(n: nat): nat {
    if n == 0 then 1 else 2 * Power2(n - 1)
  }

  function TotalSize(stack: seq<Segment>): nat {
    if stack == [] then 0 else TotalSize(stack[..|stack| - 1]) + stack[|stack| - 1].Size()
  }

  /** No position strictly inside a segment that still has to be sorted is k. */
  ghost predicate Outside(stack: seq<Segment>, k: int) {
    forall t :: 0 <= t < |stack| ==> !(stack[t].l < k <= stack[t].ir)
  }

  /** Every position outside the segments still to be sorted is a cut. */
  ghost predicate CutOutside(s: seq<nat>, n: nat, stack: seq<Segment>, current: Segment)
    requires n < |s|
  {
    forall k: int :: 1 <= k <= n + 1 && Outside(stack, k) && !(current.l < k <= current.ir) ==> Cut(s, 1, k, n + 1)
  }

  ghost predicate Fits(segment: Segment, n: nat, depth: nat) {
    && 1 <= segment.l && segment.ir <= n
    && segment.Size() * Power2(depth) <= n
  }

  /** The segments are disjoint and shrink by half with each level of the stack. */
  ghost predicate Segments(n: nat, stack: seq<Segment>, current: Segment) {
    && (forall t :: 0 <= t < |stack| ==> Fits(stack[t], n, t) && stack[t].Size() > 0 && stack[t].Apart(current))
    && (forall t, u :: 0 <= t < u < |stack| ==> stack[t].Apart(stack[u]))
    && Fits(current, n, |stack|)
  }

  /** What istack holds for the stack of segments. */
  ghost predicate OnStack(istack: seq<int>, stack: seq<Segment>) {
    && |istack| == STACK_SIZE && 2 * |stack| < STACK_SIZE
    && forall t :: 0 <= t < |stack| ==> istack[2 * t + 1] == stack[t].l && istack[2 * t + 2] == stack[t].ir
  }

  lemma {:induction false} Power2Grows(m: nat, n: nat)
    requires m <= n
    ensures 0 < Power2(m) <= Power2(n)
    decreases n
  {
    if m < n {
      Power2Grows(m, n - 1);
    } else if n > 0 {
      Power2Grows(n - 1, n - 1);
    }
  }

  lemma Power2Of28()
    ensures Power2(28) == 0x1000_0000
  {
    assert Power2(7) == 128;
    assert Power2(14) == 128 * 128;
    assert Power2(21) == 128 * 128 * 128;
  }

  /** A segment that is split has 9 elements, so for every int-sized list the stack never holds
      more than 28 pairs. */
  lemma StackDepth(size: nat, depth: nat, n: nat)
    requires 9 <= size && size * Power2(depth) <= n < 0x8000_0000
    ensures depth < 28
  {
    if depth >= 28 {
      Power2Grows(28, depth);
      Power2Of28();
      MulGe(size, 9, Power2(depth));
      assert false;
    }
  }

  lemma MulGe(a: nat, b: nat, c: nat)
    requires a >= b
    ensures a * c >= b * c
  {
  }

  lemma {:induction false} SmallerHalf(size: nat, half: nat, depth: nat, n: nat)
    requires size * Power2(depth) <= n && 2 * half <= size
    ensures half * Power2(depth + 1) <= n
  {
    assert half * Power2(depth + 1) == (2 * half) * Power2(depth);
    MulGe(size, 2 * half, Power2(depth));
  }

  /** Sorting or splitting the current segment keeps every cut outside it. */
  lemma RearrangedKeepsCuts(s: seq<nat>, t: seq<nat>, n: nat, stack: seq<Segment>, current: Segment)
    requires n < |s| && CutOutside(s, n, stack, current) && 1 <= current.l && current.ir <= n
    requires Rearranged(s, t, current.l, current.ir)
    ensures CutOutside(t, n, stack, current)
  {
    forall k: int | 1 <= k <= n + 1 && Outside(stack, k) && !(current.l < k <= current.ir)
      ensures Cut(t, 1, k, n + 1)
    {
      assert Cut(s, 1, k, n + 1);
    }
  }

  lemma EndsAreCuts(s: seq<nat>, n: nat, stack: seq<Segment>, current: Segment)
    requires n < |s| && CutOutside(s, n, stack, current) && Segments(n, stack, current) && current.Size() > 0
    ensures Cut(s, 1, current.l, n + 1) && Cut(s, 1, current.ir + 1, n + 1)
  {
    forall t | 0 <= t < |stack|
      ensures !(stack[t].l < current.l <= stack[t].ir) && !(stack[t].l < current.ir + 1 <= stack[t].ir)
    {
      assert stack[t].Apart(current);
    }
    assert Outside(stack, current.l) && Outside(stack, current.ir + 1);
  }

  /** A position inside the segment is a cut of the whole list if it is one inside. */
  lemma CutFromInside(s: seq<nat>, n: nat, l: nat, k: int, ir: nat)
    requires 1 <= l < k <= ir <= n < |s| && CutInside(s, l, k, ir)
    requires Cut(s, 1, l, n + 1) && Cut(s, 1, ir + 1, n + 1)
    ensures Cut(s, 1, k, n + 1)
  {
  }

  lemma OutsidePushed(stack: seq<Segment>, segment: Segment, k: int)
    ensures Outside(stack + [segment], k) <==> Outside(stack, k) && !(segment.l < k <= segment.ir)
  {
    var more := stack + [segment];
    if Outside(more, k) {
      assert !(more[|stack|].l < k <= more[|stack|].ir);
      forall t | 0 <= t < |stack| ensures !(stack[t].l < k <= stack[t].ir) {
        assert more[t] == stack[t];
      }
    }
  }

  lemma SplitCuts(s: seq<nat>, n: nat, stack: seq<Segment>, l: nat, ir: nat, i: nat, j: nat, pushed: Segment, kept: Segment)
    requires n < |s| && CutOutside(s, n, stack, Segment(l, ir)) && Segments(n, stack, Segment(l, ir))
    requires 1 <= l && l + 1 <= j < i <= ir <= n
    requires forall k :: j <= k <= i ==> CutInside(s, l, k, ir)
    requires (pushed == Segment(i, ir) && kept == Segment(l, j - 1)) || (pushed == Segment(l, j - 1) && kept == Segment(i, ir))
    ensures CutOutside(s, n, stack + [pushed], kept)
  {
    EndsAreCuts(s, n, stack, Segment(l, ir));
    forall k: int | 1 <= k <= n + 1 && Outside(stack + [pushed], k) && !(kept.l < k <= kept.ir)
      ensures Cut(s, 1, k, n + 1)
    {
      OutsidePushed(stack, pushed, k);
      if l < k <= ir {
        assert CutInside(s, l, k, ir);
        CutFromInside(s, n, l, k, ir);
      }
    }
  }

  lemma SortedCuts(s: seq<nat>, n: nat, stack: seq<Segment>, current: Segment, k: int)
    requires n < |s| && CutOutside(s, n, stack, current) && Segments(n, stack, current)
    requires forall x, y :: current.l <= x < y <= current.ir ==> s[x] >= s[y]
    requires 1 <= k <= n + 1 && Outside(stack, k)
    ensures Cut(s, 1, k, n + 1)
  {
    if current.l < k <= current.ir {
      EndsAreCuts(s, n, stack, current);
      CutFromInside(s, n, current.l, k, current.ir);
    }
  }

  lemma PopCuts(s: seq<nat>, n: nat, stack: seq<Segment>, current: Segment)
    requires n < |s| && CutOutside(s, n, stack, current) && Segments(n, stack, current) && stack != []
    requires forall x, y :: current.l <= x < y <= current.ir ==> s[x] >= s[y]
    ensures CutOutside(s, n, stack[..|stack| - 1], stack[|stack| - 1])
  {
    var rest, top := stack[..|stack| - 1], stack[|stack| - 1];
    assert stack == rest + [top];
    forall k: int | 1 <= k <= n + 1 && Outside(rest, k) && !(top.l < k <= top.ir)
      ensures Cut(s, 1, k, n + 1)
    {
      OutsidePushed(rest, top, k);
      SortedCuts(s, n, stack, current, k);
    }
  }

  lemma AllCuts(s: seq<nat>, n: nat, current: Segment)
    requires n < |s| && CutOutside(s, n, [], current) && Segments(n, [], current)
    requires forall x, y :: current.l <= x < y <= current.ir ==> s[x] >= s[y]
    ensures Descending(s[1..n + 1])
  {
    forall x, y | 1 <= x < y <= n ensures s[x] >= s[y] {
      SortedCuts(s, n, [], current, y);
      assert Cut(s, 1, y, n + 1);
    }
  }

  lemma SegmentsPush(n: nat, stack: seq<Segment>, current: Segment, pushed: Segment, kept: Segment)
    requires Segments(n, stack, current) && pushed.Apart(kept)
    requires current.l <= pushed.l && pushed.ir <= current.ir && 0 < pushed.Size()
    requires current.l <= kept.l && kept.ir <= current.ir && 2 * kept.Size() <= current.Size()
    ensures Segments(n, stack + [pushed], kept)
  {
    SmallerHalf(current.Size(), kept.Size(), |stack|, n);
    MulGe(current.Size(), pushed.Size(), Power2(|stack|));
    forall t | 0 <= t < |stack| ensures stack[t].Apart(pushed) && stack[t].Apart(kept) {
      assert stack[t].Apart(current) && stack[t].Size() > 0;
    }
  }

  lemma SegmentsPop(n: nat, stack: seq<Segment>, current: Segment)
    requires Segments(n, stack, current) && stack != []
    ensures Segments(n, stack[..|stack| - 1], stack[|stack| - 1])
  {
  }

  /** What the sort's loop keeps. */
  ghost predicate Sorting(
    s: seq<nat>, istack: seq<int>, start: seq<nat>, n: nat, stack: seq<Segment>, l: int, ir: int, jstack: int)
  {
    && n < |s| == |start| && n < 0x8000_0000
    && jstack == 2 * |stack| && OnStack(istack, stack)
    && Segments(n, stack, Segment(l, ir)) && CutOutside(s, n, stack, Segment(l, ir))
    && 1 <= l && ir <= n && (l <= ir || (n == 0 && l == 1))
    && Rearranged(start, s, 1, n)
  }

  /** mdb_midl_sort: the list becomes a descending permutation of itself. */
  method Sort(ids: array<nat>)
    requires 0 < ids.Length && ids[0] < ids.Length && ids[0] < 0x8000_0000
    modifies ids
    ensures ids[0] == old(ids[0])
    ensures Descending(ids[1..ids[0] + 1])
    ensures multiset(ids[1..ids[0] + 1]) == multiset(old(ids[1..ids[0] + 1]))
    ensures ids[ids[0] + 1..] == old(ids[ids[0] + 1..])
  {
    ghost var start := ids[..];
    ghost var n: nat := ids[0];
    ghost var stack: seq<Segment> := [];
    var istack := new int[STACK_SIZE];
    var ir: int, l: int, jstack: int := ids[0], 1, 0;
    RearrangedSame(start, 1, n);
    while true
      invariant n < ids.Length && istack.Length == STACK_SIZE
      invariant Sorting(ids[..], istack[..], start, n, stack, l, ir, jstack)
      decreases TotalSize(stack) + Segment(l, ir).Size(), |stack|
    {
      hide Sorting;
      if ir - l < SMALL {
        SortSmall(ids, istack[..], start, n, stack, l, ir, jstack);
        if jstack == 0 {
          break;
        }
        SortingPops(ids[..], istack[..], start, n, stack, l, ir, jstack);
        ir := istack[jstack];
        jstack := jstack - 1;
        l := istack[jstack];
        jstack := jstack - 1;
        stack := stack[..|stack| - 1];
      } else {
        l, ir, jstack, stack := SplitSegment(ids, istack, start, n, stack, l, ir, jstack);
      }
    }
    SortedPart(start, ids[..], n);
    AllCuts(ids[..], n, Segment(l, ir));
  }

  method SortSmall(ids: array<nat>, ghost istack: seq<int>, ghost start: seq<nat>, ghost n: nat, ghost stack: seq<Segment>,
                   l: int, ir: int, ghost jstack: int)
    requires n < ids.Length && Sorting(ids[..], istack, start, n, stack, l, ir, jstack)
    modifies ids
    ensures Sorting(ids[..], istack, start, n, stack, l, ir, jstack)
    ensures forall x, y :: l <= x < y <= ir ==> 0 <= x && y < ids.Length && ids[x] >= ids[y]
  {
    hide Rearranged, Segments, CutOutside, Cut, OnStack;
    ghost var before := ids[..];
    ghost var current := Segment(l, ir);
    StartIsCut(before, n, stack, current);
    InsertionSort(ids, l, ir, n);
    RearrangedKeepsCuts(before, ids[..], n, stack, current);
    RearrangedWider(start, before, ids[..], l, ir, n);
  }

  lemma SortingPops(
    s: seq<nat>, istack: seq<int>, start: seq<nat>, n: nat, stack: seq<Segment>, l: int, ir: int, jstack: int)
    requires Sorting(s, istack, start, n, stack, l, ir, jstack) && jstack != 0
    requires forall x, y :: l <= x < y <= ir ==> 0 <= x && y < |s| && s[x] >= s[y]
    ensures 0 < jstack - 1 && jstack < |istack|
    ensures var rest := stack[..|stack| - 1];
            && Sorting(s, istack, start, n, rest, istack[jstack - 1], istack[jstack], jstack - 2)
            && TotalSize(rest) + Segment(istack[jstack - 1], istack[jstack]).Size() == TotalSize(stack)
  {
    hide Rearranged, CutOutside, Cut;
    PopCuts(s, n, stack, Segment(l, ir));
    SegmentsPop(n, stack, Segment(l, ir));
    PopStack(istack, n, stack);
  }

  /** Partition the segment, keep the larger part for later and go on with the smaller one. */
  method SplitSegment(ids: array<nat>, istack: array<int>, ghost start: seq<nat>, ghost n: nat, ghost stack: seq<Segment>,
                      l0: int, ir0: int, jstack0: int)
    returns (l: int, ir: int, jstack: int, ghost stack': seq<Segment>)
    requires n < ids.Length && Sorting(ids[..], istack[..], start, n, stack, l0, ir0, jstack0)
    requires SMALL <= ir0 - l0
    modifies ids, istack
    ensures Sorting(ids[..], istack[..], start, n, stack', l, ir, jstack)
    ensures TotalSize(stack') + Segment(l, ir).Size() < TotalSize(stack) + Segment(l0, ir0).Size()
  {
    hide Rearranged, Segments, CutOutside, CutInside, Cut, OnStack, TotalSize;
    ghost var before, onStack := ids[..], istack[..];
    ghost var current := Segment(l0, ir0);
    var i, j := Partition(ids, l0, ir0);
    RearrangedKeepsCuts(before, ids[..], n, stack, current);
    RearrangedWider(start, before, ids[..], l0, ir0, n);
    DepthOf(istack[..], n, stack, current);
    l, ir := l0, ir0;
    jstack := jstack0 + 2;
    ghost var low, high := Segment(l, j - 1), Segment(i, ir);
    if ir - i + 1 >= j - l {
      istack[jstack] := ir;
      istack[jstack - 1] := i;
      SplitCuts(ids[..], n, stack, l, ir, i, j, high, low);
      SegmentsPush(n, stack, current, high, low);
      PushStack(onStack, istack[..], stack, high);
      stack' := stack + [high];
      ir := j - 1;
    } else {
      istack[jstack] := j - 1;
      istack[jstack - 1] := l;
      SplitCuts(ids[..], n, stack, l, ir, i, j, low, high);
      SegmentsPush(n, stack, current, low, high);
      PushStack(onStack, istack[..], stack, low);
      stack' := stack + [low];
      l := i;
    }
  }

  lemma StartIsCut(s: seq<nat>, n: nat, stack: seq<Segment>, current: Segment)
    requires n < |s| && CutOutside(s, n, stack, current) && Segments(n, stack, current)
    requires current.l <= current.ir || (n == 0 && current.l == 1)
    ensures Cut(s, 1, current.l, n + 1)
  {
    if current.l <= current.ir {
      EndsAreCuts(s, n, stack, current);
    }
  }

  lemma DepthOf(istack: seq<int>, n: nat, stack: seq<Segment>, current: Segment)
    requires Segments(n, stack, current) && 9 <= current.Size() && n < 0x8000_0000 && OnStack(istack, stack)
    ensures |stack| < 28 && |istack| == STACK_SIZE
  {
    StackDepth(current.Size(), |stack|, n);
  }

  lemma RearrangedWider(s: seq<nat>, t: seq<nat>, u: seq<nat>, l: int, ir: int, n: nat)
    requires Rearranged(s, t, 1, n) && 1 <= l && ir <= n < |s| && Rearranged(t, u, l, ir)
    ensures Rearranged(s, u, 1, n)
  {
    forall k: int, hi: nat | hi <= |s| && n < hi && (k <= 1 || n < k) && Cut(s, 1, k, hi) ensures Cut(u, 1, k, hi) {
      assert Cut(t, 1, k, hi);
    }
  }

  lemma PopStack(istack: seq<int>, n: nat, stack: seq<Segment>)
    requires OnStack(istack, stack) && stack != []
    ensures 2 * |stack| < |istack|
    ensures istack[2 * |stack|] == stack[|stack| - 1].ir && istack[2 * |stack| - 1] == stack[|stack| - 1].l
    ensures OnStack(istack, stack[..|stack| - 1])
    ensures TotalSize(stack) == TotalSize(stack[..|stack| - 1]) + stack[|stack| - 1].Size()
  {
    var t := |stack| - 1;
    assert istack[2 * t + 1] == stack[t].l;
  }

  lemma PushStack(before: seq<int>, istack: seq<int>, stack: seq<Segment>, segment: Segment)
    requires OnStack(before, stack) && |stack| < 28
    requires istack == before[2 * |stack| + 2 := segment.ir][2 * |stack| + 1 := segment.l]
    ensures OnStack(istack, stack + [segment])
    ensures TotalSize(stack + [segment]) == TotalSize(stack) + segment.Size()
  {
    assert (stack + [segment])[..|stack|] == stack;
    forall t | 0 <= t < |stack| + 1
      ensures istack[2 * t + 1] == (stack + [segment])[t].l && istack[2 * t + 2] == (stack + [segment])[t].ir
    {
      if t < |stack| {
        assert before[2 * t + 1] == stack[t].l;
      }
    }
  }

  lemma SortedPart(s: seq<nat>, t: seq<nat>, n: nat)
    requires n < |s| && Rearranged(s, t, 1, n)
    ensures t[0] == s[0] && t[n + 1..] == s[n + 1..]
    ensures multiset(t[1..n + 1]) == multiset(s[1..n + 1])
  {
    Cancel([s[0]], s[1..n + 1], t[1..n + 1], s[n + 1..], s, t);
  }

  lemma Cancel(a: seq<nat>, b: seq<nat>, b': seq<nat>, c: seq<nat>, s: seq<nat>, t: seq<nat>)
    requires s == a + b + c && t == a + b' + c && multiset(s) == multiset(t)
    ensures multiset(b) == multiset(b')
  {
    assert multiset(s) == multiset(a) + multiset(b) + multiset(c);
    assert multiset(t) == multiset(a) + multiset(b') + multiset(c);
    assert multiset(b) == multiset(s) - multiset(a) - multiset(c);
    assert multiset(b') == multiset(t) - multiset(a) - multiset(c);
  }
}
