/** LMDB's ID lists, continued: binary search, merging in place, and how mdb_page_alloc finds and
    cuts out a run of consecutive free pages. */
module IdListOps {
  import opened IdLists

  /** (MDB_ID)-1, which no page has as its number. */
  const MAX_ID: nat := 0xFFFF_FFFF_FFFF_FFFF

  ghost predicate StrictlyDescending(s: seq<nat>) {
    forall x, y :: 0 <= x < y < |s| ==> s[x] > s[y]
  }

  /** mdb_midl_search: the position of `id`, or of the first smaller element. */
  method Search(ids: array<nat>, id: nat) returns (cursor: nat)
    requires 0 < ids.Length && ids[0] < ids.Length && Descending(ids[1..ids[0] + 1])
    ensures 1 <= cursor <= ids[0] + 1
    ensures id in ids[1..ids[0] + 1] <==> cursor <= ids[0] && ids[cursor] == id
    ensures id !in ids[1..ids[0] + 1] ==>
              && (forall x :: 1 <= x < cursor ==> ids[x] > id)
              && (forall x :: cursor <= x <= ids[0] ==> ids[x] < id)
  {
    ghost var s := ids[1..ids[0] + 1];
    assert forall x :: 1 <= x <= ids[0] ==> ids[x] == s[x - 1];
    var base: nat, n: nat := 0, ids[0];
    var val := 0;
    cursor := 1;
    while 0 < n
      invariant 0 <= base <= base + n <= ids[0]
      invariant forall x :: 1 <= x <= base ==> ids[x] > id
      invariant forall x :: base + n < x <= ids[0] ==> ids[x] < id
      invariant val == 0 ==> cursor == 1 && base == 0 && n == ids[0]
      invariant val < 0 ==> cursor == base + n + 1
      invariant val > 0 ==> cursor == base && 1 <= base
      invariant val != 0 ==> 1 <= cursor <= ids[0]
    {
      var pivot := n / 2;
      cursor := base + pivot + 1;
      val := if ids[cursor] < id then -1 else if ids[cursor] > id then 1 else 0;
      if val < 0 {
        n := pivot;
      } else if val > 0 {
        base := cursor;
        n := n - (pivot + 1);
      } else {
        return cursor;
      }
    }
    if val > 0 {
      cursor := cursor + 1;
    }
  }

  /** mdb_midl_xmerge: `merge` into `idl`, from the tail, in place. The delimiter in idl[0] alone
      stops the scan when every element of `idl` has moved. */
  method XMerge(idl: array<nat>, merge: array<nat>)
    requires idl != merge && 0 < idl.Length && 0 < merge.Length
    requires merge[0] < merge.Length && idl[0] + merge[0] < idl.Length
    requires Descending(idl[1..idl[0] + 1]) && Descending(merge[1..merge[0] + 1])
    requires forall x :: 1 <= x <= merge[0] ==> merge[x] <= MAX_ID
    modifies idl
    ensures idl[0] == old(idl[0]) + merge[0]
    ensures Descending(idl[1..idl[0] + 1])
    ensures multiset(idl[1..idl[0] + 1]) == multiset(old(idl[1..idl[0] + 1])) + multiset(merge[1..merge[0] + 1])
    ensures idl[idl[0] + 1..] == old(idl[idl[0] + merge[0] + 1..])
  {
    hide Merging;
    ghost var a, b := idl[1..idl[0] + 1], merge[1..merge[0] + 1];
    ghost var beyond := idl[idl[0] + merge[0] + 1..];
    var i: nat, j: nat := merge[0], idl[0];
    var k := i + j;
    var total := k;
    idl[0] := MAX_ID;
    var oldId: nat := idl[j];
    ghost var tail: seq<nat> := [];
    MergeStarts(idl[..], a, b, total);
    while i != 0
      invariant Merging(idl[..], a, b, tail, i, j, total)
      invariant k == i + j <= total && oldId == idl[j] && i <= |b| && j <= total
      invariant idl[total + 1..] == beyond
    {
      var mergeId := merge[i];
      assert mergeId == b[i - 1];
      i := i - 1;
      while oldId < mergeId
        invariant Merging(idl[..], a, b, tail, i + 1, j, total)
        invariant k == i + 1 + j <= total && oldId == idl[j]
        invariant mergeId == b[i] <= MAX_ID
        invariant idl[total + 1..] == beyond
        decreases j
      {
        TakeOld(idl[..], a, b, tail, i + 1, j, total);
        ghost var s := idl[..];
        idl[k] := oldId;
        assert idl[..] == s[k := oldId] && idl[total + 1..] == s[total + 1..];
        tail := [oldId] + tail;
        k := k - 1;
        j := j - 1;
        oldId := idl[j];
      }
      TakeNew(idl[..], a, b, tail, i + 1, j, total);
      ghost var s := idl[..];
      idl[k] := mergeId;
      assert idl[..] == s[k := mergeId] && idl[total + 1..] == s[total + 1..];
      tail := [mergeId] + tail;
      k := k - 1;
    }
    ghost var before := idl[..];
    idl[0] := total;
    Merged(before, a, b, tail, j, total);
    assert idl[1..total + 1] == before[1..total + 1];
  }

  /** The merge of a and b is half done: a[..j] and b[..i] are left, `tail` is what they are
      followed by. */
  ghost predicate Merging(s: seq<nat>, a: seq<nat>, b: seq<nat>, tail: seq<nat>, i: nat, j: nat, total: nat) {
    Placed(s, a, b, tail, i, j, total) && Ordered(a, b, tail, i, j) && Kept(a, b, tail, i, j)
  }

  ghost predicate Placed(s: seq<nat>, a: seq<nat>, b: seq<nat>, tail: seq<nat>, i: nat, j: nat, total: nat) {
    && i <= |b| && j <= |a| && |a| + |b| == total < |s| && |tail| == total - i - j
    && s[0] == MAX_ID
    && (forall x :: 1 <= x <= j ==> s[x] == a[x - 1])
    && (forall x :: 0 <= x < |tail| ==> s[i + j + 1 + x] == tail[x])
  }

  ghost predicate Ordered(a: seq<nat>, b: seq<nat>, tail: seq<nat>, i: nat, j: nat) {
    && i <= |b| && j <= |a|
    && Descending(a) && Descending(b) && Descending(tail)
    && (tail != [] && 0 < j ==> a[j - 1] >= tail[0])
    && (tail != [] && 0 < i ==> b[i - 1] >= tail[0])
  }

  ghost predicate Kept(a: seq<nat>, b: seq<nat>, tail: seq<nat>, i: nat, j: nat) {
    && i <= |b| && j <= |a|
    && multiset(a[..j]) + multiset(b[..i]) + multiset(tail) == multiset(a) + multiset(b)
  }

  lemma KeptOld(a: seq<nat>, b: seq<nat>, tail: seq<nat>, i: nat, j: nat)
    requires Kept(a, b, tail, i, j) && 0 < j
    ensures Kept(a, b, [a[j - 1]] + tail, i, j - 1)
  {
    assert a[..j] == a[..j - 1] + [a[j - 1]];
    assert multiset([a[j - 1]] + tail) == multiset{a[j - 1]} + multiset(tail);
  }

  lemma KeptNew(a: seq<nat>, b: seq<nat>, tail: seq<nat>, i: nat, j: nat)
    requires Kept(a, b, tail, i, j) && 0 < i
    ensures Kept(a, b, [b[i - 1]] + tail, i - 1, j)
  {
    assert b[..i] == b[..i - 1] + [b[i - 1]];
    assert multiset([b[i - 1]] + tail) == multiset{b[i - 1]} + multiset(tail);
  }

  lemma TakeOld(s: seq<nat>, a: seq<nat>, b: seq<nat>, tail: seq<nat>, i: nat, j: nat, total: nat)
    requires Merging(s, a, b, tail, i, j, total) && 0 < i && s[j] < b[i - 1] <= MAX_ID
    ensures 0 < j && i + j <= total && Merging(s[i + j := s[j]], a, b, [s[j]] + tail, i, j - 1, total)
  {
    hide Kept;
    assert 0 < j && s[j] == a[j - 1];
    KeptOld(a, b, tail, i, j);
  }

  lemma TakeNew(s: seq<nat>, a: seq<nat>, b: seq<nat>, tail: seq<nat>, i: nat, j: nat, total: nat)
    requires Merging(s, a, b, tail, i, j, total) && 0 < i && b[i - 1] <= s[j]
    ensures i + j <= total && Merging(s[i + j := b[i - 1]], a, b, [b[i - 1]] + tail, i - 1, j, total)
  {
    hide Kept;
    assert 0 < j ==> s[j] == a[j - 1];
    KeptNew(a, b, tail, i, j);
  }

  lemma Merged(s: seq<nat>, a: seq<nat>, b: seq<nat>, tail: seq<nat>, j: nat, total: nat)
    requires Merging(s, a, b, tail, 0, j, total)
    ensures Descending(s[1..total + 1]) && multiset(s[1..total + 1]) == multiset(a) + multiset(b)
  {
    assert s[1..total + 1] == a[..j] + tail;
    assert b[..0] == [];
  }

  lemma MergeStarts(s: seq<nat>, a: seq<nat>, b: seq<nat>, total: nat)
    requires |a| + |b| == total < |s| && Descending(a) && Descending(b) && s[0] == MAX_ID && s[1..|a| + 1] == a
    ensures Merging(s, a, b, [], |b|, |a|, total)
  {
    assert a[..|a|] == a && b[..|b|] == b;
    forall x | 1 <= x <= |a| ensures s[x] == a[x - 1] {
      assert s[1..|a| + 1][x - 1] == s[x];
    }
  }

  // -------------------------------------------- runs of consecutive pages

  /** The pages p, p + 1, ... p + num - 1 are next to each other in the list, the last at i. */
  ghost predicate NoRun(s: seq<nat>, from: nat, num: nat) {
    forall x: nat :: from <= x ==> !RunAt(s, x, num)
  }

  ghost predicate RunAt(s: seq<nat>, i: nat, num: nat) {
    && num <= i < |s|
    && forall x :: i - num < x <= i ==> s[x] == s[i] + (i - x)
  }

  /** In a list without duplicates the endpoint test `mop[i-n2] == pgno+n2` means that all pages
      between are there. */
  lemma {:induction false} EndpointsSuffice(s: seq<nat>, i: nat, num: nat)
    requires 0 < num <= i < |s| && s != [] && StrictlyDescending(s[1..])
    ensures s[i - (num - 1)] == s[i] + (num - 1) <==> RunAt(s, i, num)
  {
    assert forall x :: 1 <= x < |s| ==> s[x] == s[1..][x - 1];
    if s[i - (num - 1)] == s[i] + (num - 1) {
      forall x | i - num < x <= i ensures s[x] == s[i] + (i - x) {
        StepsAtLeast(s, x, i);
        StepsAtLeast(s, i - (num - 1), x);
      }
    }
  }

  lemma {:induction false} StepsAtLeast(s: seq<nat>, x: nat, y: nat)
    requires 1 <= x <= y < |s| && forall u, v :: 1 <= u < v < |s| ==> s[u] > s[v]
    ensures s[x] >= s[y] + (y - x)
    decreases y
  {
    if x < y {
      StepsAtLeast(s, x, y - 1);
    }
  }

  /** The scan of mdb_page_alloc from the tail: 0 if there is no run of `num` pages, else the index of
      the run's last element, the lowest run. */
  method FindRun(mop: array<nat>, num: nat) returns (i: nat)
    requires 0 < num && 0 < mop.Length && mop[0] < mop.Length
    requires StrictlyDescending(mop[1..mop[0] + 1])
    ensures i != 0 ==> RunAt(mop[..mop[0] + 1], i, num) && NoRun(mop[..mop[0] + 1], i + 1, num)
    ensures i == 0 ==> NoRun(mop[..mop[0] + 1], 0, num)
  {
    var n2 := num - 1;
    ghost var s := mop[..mop[0] + 1];
    assert s[1..] == mop[1..mop[0] + 1];
    if mop[0] <= n2 {
      return 0;
    }
    i := mop[0];
    while i > n2
      invariant n2 <= i <= mop[0]
      invariant NoRun(s, i + 1, num)
    {
      EndpointsSuffice(s, i, num);
      if mop[i - n2] == mop[i] + n2 {
        return i;
      }
      i := i - 1;
    }
    return 0;
  }

  /** "Move any stragglers down": exactly the run leaves the list, the rest keeps its order. */
  method TakeRun(mop: array<nat>, i0: nat, num: nat)
    requires 0 < num <= i0 && 0 < mop.Length && mop[0] < mop.Length && i0 <= mop[0]
    modifies mop
    ensures mop[0] == old(mop[0]) - num
    ensures mop[1..mop[0] + 1] == old(mop[1..i0 - num + 1] + mop[i0 + 1..mop[0] + 1])
  {
    ghost var s := mop[..];
    var mopLen := mop[0] - num;
    mop[0] := mopLen;
    var i: nat, j: nat := i0, i0 - num;
    while j < mopLen
      invariant i == j + num && i0 - num <= j <= mopLen && mop[0] == mopLen
      invariant forall x {:trigger mop[x]} :: 1 <= x <= i0 - num ==> mop[x] == s[x]
      invariant forall x {:trigger mop[x]} :: i0 - num < x <= j ==> mop[x] == s[x + num]
      invariant forall x {:trigger mop[x]} :: j < x < mop.Length ==> mop[x] == s[x]
    {
      j := j + 1;
      i := i + 1;
      mop[j] := mop[i];
    }
    RestMoved(s, mop[..], i0, num, mopLen);
  }

  lemma RestMoved(s: seq<nat>, t: seq<nat>, i0: nat, num: nat, n: nat)
    requires 0 < num <= i0 <= n + num < |s| == |t|
    requires forall x :: 1 <= x <= i0 - num ==> t[x] == s[x]
    requires forall x :: i0 - num < x <= n ==> t[x] == s[x + num]
    ensures t[1..n + 1] == s[1..i0 - num + 1] + s[i0 + 1..n + num + 1]
  {
    var kept := s[1..i0 - num + 1] + s[i0 + 1..n + num + 1];
    assert |kept| == n;
    assert forall x :: 0 <= x < n ==> kept[x] == t[1..n + 1][x];
  }

  /** Taking a run out keeps the list strictly descending and removes exactly the run's pages. */
  lemma RunRemoved(s: seq<nat>, t: seq<nat>, i: nat, num: nat)
    requires s != [] && StrictlyDescending(s[1..]) && RunAt(s, i, num) && 0 < num
    requires t == s[1..i - num + 1] + s[i + 1..]
    ensures StrictlyDescending(t)
    ensures forall p :: p in t <==> p in s[1..] && !(s[i] <= p < s[i] + num)
  {
    var u, k := s[1..], i - num;
    assert t == u[..k] + u[i..];
    forall x | k <= x < i ensures s[i] <= u[x] < s[i] + num {
      assert u[x] == s[x + 1];
    }
    assert u[k] == s[k + 1] == s[i] + num - 1 && u[i - 1] == s[i];
    PartsKept(u, t, k, i, s[i], num);
  }

  lemma PartsKept(u: seq<nat>, t: seq<nat>, k: nat, i: nat, low: nat, num: nat)
    requires k < i <= |u| && StrictlyDescending(u) && t == u[..k] + u[i..]
    requires forall x :: k <= x < i ==> low <= u[x] < low + num
    requires u[k] == low + num - 1 && u[i - 1] == low
    ensures forall p :: p in t <==> p in u && !(low <= p < low + num)
  {
    forall p | p in u && !(low <= p < low + num) ensures p in t {
      var x :| 0 <= x < |u| && u[x] == p;
      if x < k {
        assert t[x] == p;
      } else {
        assert t[x - (i - k)] == p;
      }
    }
    forall p | p in t ensures p in u && !(low <= p < low + num) {
      var x :| 0 <= x < |t| && t[x] == p;
      if x < k {
        assert u[x] == p;
      } else {
        assert u[x + (i - k)] == p;
      }
    }
  }

  // ------------------------------------------------------- the dirty list

  /** A page number and where the page is kept in memory. */
  datatype Id2 = Id2(mid: nat, mptr: nat)

  const UM_MAX: nat := 0x2_0000 - 1

  ghost predicate Ascending(s: seq<Id2>) {
    forall x, y :: 0 <= x < y < |s| ==> s[x].mid < s[y].mid
  }

  /** mdb_mid2l_search: the position of `id`, or of the first larger element. */
  method SearchId2(ids: array<Id2>, id: nat) returns (cursor: nat)
    requires 0 < ids.Length && ids[0].mid < ids.Length && Ascending(ids[1..ids[0].mid + 1])
    ensures 1 <= cursor <= ids[0].mid + 1
    ensures forall x :: 1 <= x < cursor ==> ids[x].mid < id
    ensures forall x :: cursor < x <= ids[0].mid ==> ids[x].mid > id
    ensures cursor <= ids[0].mid ==> ids[cursor].mid >= id
  {
    ghost var s := ids[1..ids[0].mid + 1];
    assert forall x :: 1 <= x <= ids[0].mid ==> ids[x] == s[x - 1];
    var base: nat, n: nat := 0, ids[0].mid;
    var val := 0;
    cursor := 1;
    while 0 < n
      invariant 0 <= base <= base + n <= ids[0].mid
      invariant forall x :: 1 <= x <= base ==> ids[x].mid < id
      invariant forall x :: base + n < x <= ids[0].mid ==> ids[x].mid > id
      invariant val == 0 ==> cursor == 1 && base == 0 && n == ids[0].mid
      invariant val < 0 ==> cursor == base + n + 1
      invariant val > 0 ==> cursor == base && 1 <= base
      invariant val != 0 ==> 1 <= cursor <= ids[0].mid
    {
      var pivot := n / 2;
      cursor := base + pivot + 1;
      val := if id < ids[cursor].mid then -1 else if id > ids[cursor].mid then 1 else 0;
      if val < 0 {
        n := pivot;
      } else if val > 0 {
        base := cursor;
        n := n - (pivot + 1);
      } else {
        return cursor;
      }
    }
    if val > 0 {
      cursor := cursor + 1;
    }
  }

  /** mdb_mid2l_insert: 0 when inserted, -1 for a page that is there already, -2 when full. */
  method InsertId2(ids: array<Id2>, id: Id2) returns (rc: int)
    requires UM_MAX < ids.Length && ids[0].mid <= UM_MAX && Ascending(ids[1..ids[0].mid + 1])
    modifies ids
    ensures rc == (if exists x :: 1 <= x <= old(ids[0].mid) && old(ids[x]).mid == id.mid then -1
                   else if old(ids[0].mid) == UM_MAX then -2 else 0)
    ensures rc != 0 ==> ids[..] == old(ids[..])
    ensures rc == 0 ==>
              && ids[0].mid == old(ids[0].mid) + 1
              && Ascending(ids[1..ids[0].mid + 1])
              && multiset(ids[1..ids[0].mid + 1]) == multiset(old(ids[1..ids[0].mid + 1])) + multiset{id}
  {
    hide Ascending;
    var x := SearchId2(ids, id.mid);
    ghost var s := ids[..];
    ghost var n := ids[0].mid;
    if x <= ids[0].mid && ids[x].mid == id.mid {
      return -1;
    }
    assert forall y :: 1 <= y <= n ==> s[y].mid != id.mid;
    if ids[0].mid >= UM_MAX {
      return -2;
    }
    ShiftIn(ids, x, id);
    ShiftedIn(s, ids[..], n, x, id);
    return 0;
  }

  lemma ShiftedIn(s: seq<Id2>, t: seq<Id2>, n: nat, x: nat, id: Id2)
    requires n + 1 < |s| == |t| && 1 <= x <= n + 1 && Ascending(s[1..n + 1])
    requires forall y :: 1 <= y < x ==> s[y].mid < id.mid && t[y] == s[y]
    requires forall y :: x <= y <= n ==> id.mid < s[y].mid
    requires t[x] == id && forall y :: x < y <= n + 1 ==> t[y] == s[y - 1]
    ensures Ascending(t[1..n + 2]) && multiset(t[1..n + 2]) == multiset(s[1..n + 1]) + multiset{id}
  {
    var a, b := s[1..n + 1], t[1..n + 2];
    forall y | x - 1 <= y < |a| ensures b[y + 1] == a[y] && id.mid < a[y].mid {
      assert a[y] == s[y + 1] && b[y + 1] == t[y + 2];
    }
    Inserted(a, b, x - 1, id);
  }

  method ShiftIn(ids: array<Id2>, x: nat, id: Id2)
    requires 0 < ids.Length && 1 <= x <= ids[0].mid + 1 < ids.Length
    modifies ids
    ensures ids[0] == old(ids[0]).(mid := old(ids[0]).mid + 1)
    ensures forall y :: 1 <= y < x ==> ids[y] == old(ids[y])
    ensures ids[x] == id
    ensures forall y :: x < y <= ids[0].mid ==> ids[y] == old(ids[y - 1])
  {
    ghost var n := ids[0].mid;
    ids[0] := ids[0].(mid := ids[0].mid + 1);
    var i := ids[0].mid;
    while i > x
      invariant x <= i <= n + 1 && ids[0] == old(ids[0]).(mid := n + 1)
      invariant forall y :: 1 <= y <= i && y <= n ==> ids[y] == old(ids[y])
      invariant forall y :: i < y <= n + 1 ==> ids[y] == old(ids[y - 1])
    {
      ids[i] := ids[i - 1];
      i := i - 1;
    }
    ids[x] := id;
  }

  lemma Inserted(s: seq<Id2>, t: seq<Id2>, x: nat, id: Id2)
    requires x <= |s| && |t| == |s| + 1 && Ascending(s)
    requires forall y :: 0 <= y < x ==> t[y] == s[y] && s[y].mid < id.mid
    requires t[x] == id
    requires forall y :: x <= y < |s| ==> t[y + 1] == s[y] && id.mid < s[y].mid
    ensures Ascending(t) && multiset(t) == multiset(s) + multiset{id}
  {
    forall y, z | 0 <= y < z < |t| ensures t[y].mid < t[z].mid {
      assert y < x ==> t[y] == s[y];
      assert x < z ==> t[z] == s[z - 1];
      assert x < y ==> t[y] == s[y - 1];
    }
    assert t == s[..x] + [id] + s[x..];
    assert s == s[..x] + s[x..];
    assert multiset(s) == multiset(s[..x]) + multiset(s[x..]);
    assert multiset(t) == multiset(s[..x]) + multiset([id]) + multiset(s[x..]);
  }
}
