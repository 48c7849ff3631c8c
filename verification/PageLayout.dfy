/** The byte layout of an LMDB page: node pointers growing up after the header, nodes growing down from
    the end of the page. */
module PageLayout {
  import opened Words

  const PAGE_HEADER := 16
  const NODE_SIZE := 8
  const INDX_SIZE := 2
  const PGNO_SIZE := 8
  const F_BIGDATA: nat := 1

  function Even(n: nat): (e: nat)
    ensures n <= e <= n + 1 && e % 2 == 0
  {
    n + n % 2
  }

  function Word(lo: u8, hi: u8): nat {
    lo as nat + 0x100 * (hi as nat)
  }

  /** mn_ksize, mn_flags and the data size of a node header. */
  function KeySize(head: seq<u8>): nat
    requires |head| == NODE_SIZE
  {
    Word(head[6], head[7])
  }

  function Flags(head: seq<u8>): nat
    requires |head| == NODE_SIZE
  {
    Word(head[4], head[5])
  }

  function DataSize(head: seq<u8>): nat
    requires |head| == NODE_SIZE
  {
    Word(head[0], head[1]) + 0x1_0000 * Word(head[2], head[3])
  }

  /** The bytes of a node: header, key, and on a leaf the data or the number of its overflow page. */
  function NodeLength(head: seq<u8>, leaf: bool): (n: nat)
    requires |head| == NODE_SIZE
    ensures n >= NODE_SIZE
  {
    NODE_SIZE + KeySize(head) + if !leaf then 0 else if Flags(head) % 2 == F_BIGDATA then PGNO_SIZE else DataSize(head)
  }

  /** The length of the node at p, and the even number of bytes it takes. */
  function LengthAt(mem: seq<u8>, p: nat, leaf: bool): (n: nat)
    requires p + NODE_SIZE <= |mem|
    ensures n >= NODE_SIZE
  {
    NodeLength(mem[p..p + NODE_SIZE], leaf)
  }

  function SizeAt(mem: seq<u8>, p: nat, leaf: bool): (n: nat)
    requires p + NODE_SIZE <= |mem|
    ensures n >= NODE_SIZE && n >= LengthAt(mem, p, leaf)
  {
    Even(LengthAt(mem, p, leaf))
  }

  /** The stretch of a page that a node takes. */
  datatype Extent = Extent(start: nat, size: nat)

  function Sum(es: seq<Extent>): nat {
    if es == [] then 0 else es[0].size + Sum(es[1..])
  }

  predicate Apart(a: Extent, b: Extent) {
    a.start + a.size <= b.start || b.start + b.size <= a.start
  }

  predicate Within(e: Extent, lo: nat, hi: nat) {
    lo <= e.start && e.start + e.size <= hi && e.size > 0
  }

  /** The extents lie between lo and hi, apart from each other, and together take all of it. */
  predicate Tiling(es: seq<Extent>, lo: nat, hi: nat) {
    && (forall i :: 0 <= i < |es| ==> Within(es[i], lo, hi))
    && (forall i, j :: 0 <= i < j < |es| ==> Apart(es[i], es[j]))
    && lo + Sum(es) == hi
  }

  predicate Placed(mem: seq<u8>, ptrs: seq<nat>) {
    forall i :: 0 <= i < |ptrs| ==> ptrs[i] + NODE_SIZE <= |mem|
  }

  function Extents(mem: seq<u8>, ptrs: seq<nat>, leaf: bool): (es: seq<Extent>)
    requires Placed(mem, ptrs)
    ensures |es| == |ptrs|
  {
    seq(|ptrs|, i requires 0 <= i < |ptrs| => Extent(ptrs[i], SizeAt(mem, ptrs[i], leaf)))
  }

  /** The nodes tile the page from `upper` to its end. */
  predicate Tiled(mem: seq<u8>, ptrs: seq<nat>, leaf: bool, upper: nat) {
    Placed(mem, ptrs) && Tiling(Extents(mem, ptrs, leaf), upper, |mem|)
  }

  /** A node's bytes, without the one that rounds it up. */
  function NodeAt(mem: seq<u8>, p: nat, leaf: bool): seq<u8>
    requires p + NODE_SIZE <= |mem|
  {
    if p + LengthAt(mem, p, leaf) <= |mem| then mem[p..p + LengthAt(mem, p, leaf)] else []
  }

  /** The page's nodes in the order of its pointers. */
  function Nodes(mem: seq<u8>, ptrs: seq<nat>, leaf: bool): (nodes: seq<seq<u8>>)
    requires Placed(mem, ptrs)
    ensures |nodes| == |ptrs|
  {
    seq(|ptrs|, i requires 0 <= i < |ptrs| => NodeAt(mem, ptrs[i], leaf))
  }

  // ----------------------------------------------------------------- extents

  function Inserted<T>(s: seq<T>, i: nat, x: T): seq<T>
    requires i <= |s|
  {
    s[..i] + [x] + s[i..]
  }

  function Removed<T>(s: seq<T>, i: nat): seq<T>
    requires i < |s|
  {
    s[..i] + s[i + 1..]
  }

  lemma {:induction false} SumInserted(es: seq<Extent>, i: nat, e: Extent)
    requires i <= |es|
    ensures Sum(Inserted(es, i, e)) == Sum(es) + e.size
  {
    if i == 0 {
      assert Inserted(es, 0, e)[1..] == es;
    } else {
      SumInserted(es[1..], i - 1, e);
      assert Inserted(es, i, e)[1..] == Inserted(es[1..], i - 1, e);
    }
  }

  lemma {:induction false} SumSame(es: seq<Extent>, es': seq<Extent>)
    requires |es| == |es'| && forall j :: 0 <= j < |es| ==> es[j].size == es'[j].size
    ensures Sum(es) == Sum(es')
  {
    if es != [] {
      SumSame(es[1..], es'[1..]);
    }
  }

  lemma RemovedInserted<T>(s: seq<T>, i: nat)
    requires i < |s|
    ensures Inserted(Removed(s, i), i, s[i]) == s
    ensures forall j :: 0 <= j < |s| - 1 ==> Removed(s, i)[j] == s[if j < i then j else j + 1]
  {
  }

  /** An extent just below the others. */
  lemma TilingInsert(es: seq<Extent>, lo: nat, hi: nat, i: nat, e: Extent)
    requires Tiling(es, lo, hi) && i <= |es| && e.start + e.size == lo <= hi && e.size > 0
    ensures Tiling(Inserted(es, i, e), e.start, hi)
  {
    hide Sum;
    SumInserted(es, i, e);
    var more := Inserted(es, i, e);
    assert forall j :: 0 <= j < |more| ==> more[j] == if j < i then es[j] else if j == i then e else es[j - 1];
    forall j, k | 0 <= j < k < |more|
      ensures Apart(more[j], more[k])
    {
      if j != i && k != i {
        assert Apart(es[if j < i then j else j - 1], es[if k < i then k else k - 1]);
      } else {
        assert Within(es[if j == i then k - 1 else j], lo, hi);
      }
    }
    forall j | 0 <= j < |more|
      ensures Within(more[j], e.start, hi)
    {
      if j != i {
        assert Within(es[if j < i then j else j - 1], lo, hi);
      }
    }
  }

  /** Where an extent is after the one at p took `delta` bytes less and what lies below it moved up;
      `delta` is negative when it grows. */
  function Shift(e: Extent, p: nat, delta: int): int {
    if e.start < p then e.start + delta else e.start
  }

  /** Without one extent, the lower ones moved up by its size. */
  lemma TilingDelete(es: seq<Extent>, es': seq<Extent>, lo: nat, hi: nat, i: nat)
    requires Tiling(es, lo, hi) && i < |es| && |es'| == |es| - 1
    requires forall j :: 0 <= j < |es'| ==> var e := Removed(es, i)[j]; es'[j].start == Shift(e, es[i].start, es[i].size) && es'[j].size == e.size
    ensures Tiling(es', lo + es[i].size, hi)
  {
    hide Sum;
    var less := Removed(es, i);
    RemovedInserted(es, i);
    SumInserted(less, i, es[i]);
    SumSame(less, es');
    forall j | 0 <= j < |less|
      ensures Within(less[j], lo, hi) && Apart(less[j], es[i])
    {
      var k := if j < i then j else j + 1;
      assert Within(es[k], lo, hi) && (if j < i then Apart(es[j], es[i]) else Apart(es[i], es[j + 1]));
    }
    forall j, k | 0 <= j < k < |less|
      ensures Apart(es'[j], es'[k])
    {
      assert Apart(es[if j < i then j else j + 1], es[if k < i then k else k + 1]);
      assert Apart(less[j], es[i]) && Apart(less[k], es[i]) && Within(es[i], lo, hi);
      assert Within(less[j], lo, hi) && Within(less[k], lo, hi);
    }
    forall j | 0 <= j < |less|
      ensures Within(es'[j], lo + es[i].size, hi)
    {
      assert Apart(less[j], es[i]) && Within(es[i], lo, hi) && Within(less[j], lo, hi);
    }
  }

  /** With one extent resized, its start and the lower ones moved down by what it grew. */
  lemma TilingResize(es: seq<Extent>, es': seq<Extent>, lo: nat, hi: nat, i: nat, grow: int)
    requires Tiling(es, lo, hi) && i < |es| && |es'| == |es| && grow <= lo && es[i].size + grow > 0
    requires forall j :: 0 <= j < |es| ==>
               && es'[j].start == (if es[j].start <= es[i].start then es[j].start - grow else es[j].start)
               && es'[j].size == es[j].size + (if j == i then grow else 0)
    ensures Tiling(es', lo - grow, hi)
  {
    hide Sum;
    var less, less' := Removed(es, i), Removed(es', i);
    RemovedInserted(es, i);
    RemovedInserted(es', i);
    SumInserted(less, i, es[i]);
    SumInserted(less', i, es'[i]);
    SumSame(less, less');
    forall j | 0 <= j < |es|
      ensures Within(es'[j], lo - grow, hi)
    {
      assert Within(es[j], lo, hi) && Within(es[i], lo, hi);
      assert j < i ==> Apart(es[j], es[i]);
      assert j > i ==> Apart(es[i], es[j]);
    }
    forall j, k | 0 <= j < k < |es|
      ensures Apart(es'[j], es'[k])
    {
      assert Apart(es[j], es[k]);
      assert j < i ==> Apart(es[j], es[i]);
      assert j > i ==> Apart(es[i], es[j]);
      assert k < i ==> Apart(es[k], es[i]);
      assert k > i ==> Apart(es[i], es[k]);
    }
  }

  // ------------------------------------------------------------------ memory

  /** The n bytes at p are found at q of the other memory. */
  predicate SameBytes(mem: seq<u8>, p: nat, mem': seq<u8>, q: nat, n: nat) {
    p + n <= |mem| && q + n <= |mem'| && mem[p..p + n] == mem'[q..q + n]
  }

  /** A node is the same wherever its bytes are. */
  lemma NodeMoved(mem: seq<u8>, p: nat, mem': seq<u8>, q: nat, leaf: bool)
    requires p + NODE_SIZE <= |mem| && SameBytes(mem, p, mem', q, SizeAt(mem, p, leaf))
    ensures q + NODE_SIZE <= |mem'| && SizeAt(mem', q, leaf) == SizeAt(mem, p, leaf) && NodeAt(mem', q, leaf) == NodeAt(mem, p, leaf)
  {
    hide NodeLength;
    var n, l := SizeAt(mem, p, leaf), LengthAt(mem, p, leaf);
    Prefix(mem, p, n, NODE_SIZE);
    Prefix(mem', q, n, NODE_SIZE);
    Prefix(mem, p, n, l);
    Prefix(mem', q, n, l);
  }

  lemma Prefix(mem: seq<u8>, p: nat, n: nat, k: nat)
    requires p + n <= |mem| && k <= n
    ensures mem[p..p + n][..k] == mem[p..p + k]
  {
  }

  predicate SameFrom(mem: seq<u8>, mem': seq<u8>, from: nat) {
    |mem| == |mem'| && from <= |mem| && mem[from..] == mem'[from..]
  }

  lemma SameFromBytes(mem: seq<u8>, mem': seq<u8>, from: nat, p: nat, n: nat)
    requires SameFrom(mem, mem', from) && from <= p && p + n <= |mem|
    ensures SameBytes(mem, p, mem', p, n)
  {
    assert mem[from..][p - from..p - from + n] == mem[p..p + n];
    assert mem'[from..][p - from..p - from + n] == mem'[p..p + n];
  }

  /** The same node at p and, in the other memory, at q. */
  predicate SameNode(mem: seq<u8>, p: nat, mem': seq<u8>, q: nat, leaf: bool)
    requires p + NODE_SIZE <= |mem|
  {
    && q + NODE_SIZE <= |mem'| && SizeAt(mem', q, leaf) == SizeAt(mem, p, leaf) && NodeAt(mem', q, leaf) == NodeAt(mem, p, leaf)
  }

  lemma ExtentIs(mem: seq<u8>, ptrs: seq<nat>, leaf: bool, upper: nat, i: nat)
    requires Tiled(mem, ptrs, leaf, upper) && i < |ptrs|
    ensures upper <= ptrs[i] && ptrs[i] + NODE_SIZE <= |mem| && ptrs[i] + SizeAt(mem, ptrs[i], leaf) <= |mem|
  {
    assert Within(Extents(mem, ptrs, leaf)[i], upper, |mem|);
  }

  lemma ExtentsApart(mem: seq<u8>, ptrs: seq<nat>, leaf: bool, upper: nat, i: nat, j: nat)
    requires Tiled(mem, ptrs, leaf, upper) && i < |ptrs| && j < |ptrs| && i != j
    ensures ptrs[i] + NODE_SIZE <= |mem| && ptrs[j] + NODE_SIZE <= |mem|
    ensures ptrs[i] + SizeAt(mem, ptrs[i], leaf) <= ptrs[j] || ptrs[j] + SizeAt(mem, ptrs[j], leaf) <= ptrs[i]
  {
    var es := Extents(mem, ptrs, leaf);
    assert if i < j then Apart(es[i], es[j]) else Apart(es[j], es[i]);
  }

  lemma AddedOther(mem: seq<u8>, mem': seq<u8>, ptrs: seq<nat>, leaf: bool, upper: nat, j: nat)
    requires Tiled(mem, ptrs, leaf, upper) && SameFrom(mem, mem', upper) && j < |ptrs|
    ensures SameNode(mem, ptrs[j], mem', ptrs[j], leaf)
  {
    ExtentIs(mem, ptrs, leaf, upper, j);
    hide Tiled, SizeAt;
    SameFromBytes(mem, mem', upper, ptrs[j], SizeAt(mem, ptrs[j], leaf));
    NodeMoved(mem, ptrs[j], mem', ptrs[j], leaf);
  }

  /** Writing a node just below the others adds it to the page. */
  lemma AddTiles(mem: seq<u8>, mem': seq<u8>, ptrs: seq<nat>, leaf: bool, upper: nat, i: nat, ofs: nat)
    requires Tiled(mem, ptrs, leaf, upper) && SameFrom(mem, mem', upper) && i <= |ptrs|
    requires ofs + NODE_SIZE <= |mem| && ofs + SizeAt(mem', ofs, leaf) == upper
    ensures Tiled(mem', Inserted(ptrs, i, ofs), leaf, ofs)
    ensures Nodes(mem', Inserted(ptrs, i, ofs), leaf) == Inserted(Nodes(mem, ptrs, leaf), i, NodeAt(mem', ofs, leaf))
  {
    hide SizeAt, LengthAt, NodeAt, Tiling;
    var more, e := Inserted(ptrs, i, ofs), Extent(ofs, SizeAt(mem', ofs, leaf));
    forall j | 0 <= j < |ptrs|
      ensures SameNode(mem, ptrs[j], mem', ptrs[j], leaf)
    {
      AddedOther(mem, mem', ptrs, leaf, upper, j);
    }
    assert forall j :: 0 <= j < |more| ==> more[j] == if j < i then ptrs[j] else if j == i then ofs else ptrs[j - 1];
    TilingInsert(Extents(mem, ptrs, leaf), upper, |mem|, i, e);
    assert Extents(mem', more, leaf) == Inserted(Extents(mem, ptrs, leaf), i, e);
    assert Nodes(mem', more, leaf) == Inserted(Nodes(mem, ptrs, leaf), i, NodeAt(mem', ofs, leaf));
  }

  /** Memory after the bytes from `upper` up to p moved up by sz. */
  predicate MovedUp(mem: seq<u8>, mem': seq<u8>, upper: nat, p: nat, sz: nat) {
    && |mem| == |mem'| && upper <= p && p + sz <= |mem|
    && mem'[upper + sz..p + sz] == mem[upper..p] && SameFrom(mem, mem', p + sz)
  }

  lemma SliceOf(a: seq<u8>, lo: nat, hi: nat, p: nat, n: nat)
    requires lo <= p && p + n <= hi <= |a|
    ensures a[lo..hi][p - lo..p - lo + n] == a[p..p + n]
  {
    var s, k := a[lo..hi], p - lo;
    var t, u := s[k..k + n], a[p..p + n];
    forall x | 0 <= x < n
      ensures t[x] == u[x]
    {
      assert s[k + x] == a[lo + (k + x)];
    }
    assert t == u;
  }

  /** A node other than the deleted one. */
  lemma DeletedOther(mem: seq<u8>, mem': seq<u8>, p: nat, q: nat, n: nat, upper: nat, sz: nat)
    requires MovedUp(mem, mem', upper, p, sz) && upper <= q && q + n <= |mem| && (q + n <= p || p + sz <= q) && n > 0
    ensures SameBytes(mem, q, mem', if q < p then q + sz else q, n)
  {
    if q < p {
      SliceOf(mem, upper, p, q, n);
      SliceOf(mem', upper + sz, p + sz, q + sz, n);
    } else {
      SameFromBytes(mem, mem', p + sz, q, n);
    }
  }

  /** Where the pointer q goes when the node of size sz at p is deleted. */
  function Moved(q: nat, p: nat, sz: nat): nat {
    if q < p then q + sz else q
  }

  lemma DeletedNode(mem: seq<u8>, mem': seq<u8>, ptrs: seq<nat>, leaf: bool, upper: nat, i: nat, k: nat)
    requires Tiled(mem, ptrs, leaf, upper) && i < |ptrs| && k < |ptrs| && k != i
    requires MovedUp(mem, mem', upper, ptrs[i], SizeAt(mem, ptrs[i], leaf))
    ensures SameNode(mem, ptrs[k], mem', Moved(ptrs[k], ptrs[i], SizeAt(mem, ptrs[i], leaf)), leaf)
  {
    var sz := SizeAt(mem, ptrs[i], leaf);
    ExtentIs(mem, ptrs, leaf, upper, k);
    ExtentsApart(mem, ptrs, leaf, upper, i, k);
    hide Tiled, SizeAt, MovedUp;
    DeletedOther(mem, mem', ptrs[i], ptrs[k], SizeAt(mem, ptrs[k], leaf), upper, sz);
    NodeMoved(mem, ptrs[k], mem', Moved(ptrs[k], ptrs[i], sz), leaf);
  }

  /** Moving what lies below a node over it, and adjusting the pointers, deletes it from the page. */
  lemma DeleteTiles(mem: seq<u8>, mem': seq<u8>, ptrs: seq<nat>, ptrs': seq<nat>, leaf: bool, upper: nat, i: nat)
    requires Tiled(mem, ptrs, leaf, upper) && i < |ptrs| && |ptrs'| == |ptrs| - 1
    requires MovedUp(mem, mem', upper, ptrs[i], SizeAt(mem, ptrs[i], leaf))
    requires forall j :: 0 <= j < |ptrs'| ==> ptrs'[j] == Kept(ptrs, i, SizeAt(mem, ptrs[i], leaf), j)
    ensures Tiled(mem', ptrs', leaf, upper + SizeAt(mem, ptrs[i], leaf))
    ensures Nodes(mem', ptrs', leaf) == Removed(Nodes(mem, ptrs, leaf), i)
  {
    hide SizeAt, LengthAt, NodeAt, Tiling, MovedUp;
    var p, sz, less := ptrs[i], SizeAt(mem, ptrs[i], leaf), Removed(ptrs, i);
    var es := Extents(mem, ptrs, leaf);
    RemovedInserted(ptrs, i);
    forall j | 0 <= j < |less|
      ensures less[j] + NODE_SIZE <= |mem| && SameNode(mem, less[j], mem', ptrs'[j], leaf)
    {
      DeletedNode(mem, mem', ptrs, leaf, upper, i, if j < i then j else j + 1);
    }
    assert |mem'| == |mem| by {
      SameLength(mem, mem', upper, p, sz);
    }
    RemovedInserted(es, i);
    TilingDelete(es, Extents(mem', ptrs', leaf), upper, |mem|, i);
    RemovedInserted(Nodes(mem, ptrs, leaf), i);
    assert Nodes(mem', ptrs', leaf) == Removed(Nodes(mem, ptrs, leaf), i);
  }

  lemma SameLength(mem: seq<u8>, mem': seq<u8>, upper: nat, p: nat, sz: nat)
    requires MovedUp(mem, mem', upper, p, sz)
    ensures |mem'| == |mem|
  {
  }

  // -------------------------------------------------------------- resizing

  /** Memory after the bytes from `upper` up to p + 8 moved down by `grow` (up, if negative), the key
      size of the node there was set and its key written; `rest` is where the node ended. */
  predicate Rekeyed(mem: seq<u8>, mem': seq<u8>, upper: nat, p: nat, grow: int, key: seq<u8>, rest: nat)
    requires p + NODE_SIZE <= |mem|
  {
    && |mem| == |mem'| && 0 <= upper - grow && upper <= p && p - grow + NODE_SIZE + |key| <= rest <= |mem| && |key| < 0x1_0000
    && mem'[upper - grow..p - grow] == mem[upper..p]
    && mem'[p - grow..p - grow + NODE_SIZE] == WithKeySize(mem[p..p + NODE_SIZE], |key|)
    && mem'[p - grow + NODE_SIZE..p - grow + NODE_SIZE + |key|] == key
    && SameFrom(mem, mem', rest)
  }

  /** A node header with its key size set. */
  function WithKeySize(head: seq<u8>, ksize: nat): (h: seq<u8>)
    requires |head| == NODE_SIZE && ksize < 0x1_0000
    ensures |h| == NODE_SIZE && KeySize(h) == ksize && h[..6] == head[..6]
  {
    head[..6] + [ksize % 0x100, ksize / 0x100]
  }

  function Rekey(q: nat, p: nat, grow: int): int {
    if q <= p then q - grow else q
  }

  lemma BranchNodeAt(mem: seq<u8>, p: nat, head: seq<u8>, key: seq<u8>)
    requires |head| == NODE_SIZE && KeySize(head) == |key| && p + NODE_SIZE + |key| <= |mem|
    requires mem[p..p + NODE_SIZE] == head && mem[p + NODE_SIZE..p + NODE_SIZE + |key|] == key
    ensures LengthAt(mem, p, false) == NODE_SIZE + |key| && NodeAt(mem, p, false) == head + key
  {
    hide KeySize;
    Join(mem, p, NODE_SIZE, |key|);
  }

  /** The node whose key is replaced, on a branch page. */
  lemma RekeyedSelf(mem: seq<u8>, mem': seq<u8>, upper: nat, p: nat, grow: int, key: seq<u8>)
    requires p + NODE_SIZE <= |mem| && SizeAt(mem, p, false) + grow == Even(NODE_SIZE + |key|)
    requires p + SizeAt(mem, p, false) <= |mem| && Rekeyed(mem, mem', upper, p, grow, key, p + SizeAt(mem, p, false))
    ensures p - grow >= 0 && p - grow + NODE_SIZE <= |mem'|
    ensures SizeAt(mem', p - grow, false) == SizeAt(mem, p, false) + grow
    ensures NodeAt(mem', p - grow, false) == WithKeySize(mem[p..p + NODE_SIZE], |key|) + key
  {
    var q, head := p - grow, WithKeySize(mem[p..p + NODE_SIZE], |key|);
    hide WithKeySize, Even, LengthAt, NodeAt, SameFrom;
    BranchNodeAt(mem', q, head, key);
  }

  lemma Join(a: seq<u8>, p: nat, n: nat, m: nat)
    requires p + n + m <= |a|
    ensures a[p..p + n + m] == a[p..p + n] + a[p + n..p + n + m]
  {
  }

  /** The bytes of another node are those at its new place. */
  lemma RekeyedBytes(mem: seq<u8>, mem': seq<u8>, upper: nat, p: nat, grow: int, key: seq<u8>, rest: nat, q: nat, n: nat)
    requires p + NODE_SIZE <= |mem| && Rekeyed(mem, mem', upper, p, grow, key, rest)
    requires upper <= q && q + n <= |mem| && (if q <= p then q + n <= p else rest <= q)
    ensures Rekey(q, p, grow) >= 0 && SameBytes(mem, q, mem', Rekey(q, p, grow), n)
  {
    hide WithKeySize;
    if q <= p {
      hide SameFrom;
      SliceOf(mem, upper, p, q, n);
      SliceOf(mem', upper - grow, p - grow, q - grow, n);
    } else {
      SameFromBytes(mem, mem', rest, q, n);
    }
  }

  lemma RekeyedOther(mem: seq<u8>, mem': seq<u8>, ptrs: seq<nat>, upper: nat, i: nat, k: nat, grow: int, key: seq<u8>)
    requires Tiled(mem, ptrs, false, upper) && i < |ptrs| && k < |ptrs| && k != i
    requires ptrs[i] + NODE_SIZE <= |mem| && Rekeyed(mem, mem', upper, ptrs[i], grow, key, ptrs[i] + SizeAt(mem, ptrs[i], false))
    ensures Rekey(ptrs[k], ptrs[i], grow) >= 0 && ptrs[k] + NODE_SIZE <= |mem|
    ensures SameNode(mem, ptrs[k], mem', Rekey(ptrs[k], ptrs[i], grow), false)
  {
    var p, q, n := ptrs[i], ptrs[k], SizeAt(mem, ptrs[k], false);
    ExtentIs(mem, ptrs, false, upper, k);
    ExtentsApart(mem, ptrs, false, upper, i, k);
    hide Tiled, SizeAt, Rekeyed, Rekey, SameBytes;
    RekeyedBytes(mem, mem', upper, p, grow, key, p + SizeAt(mem, p, false), q, n);
    NodeMoved(mem, q, mem', Rekey(q, p, grow), false);
  }

  /** Nodes that stay as they are but for node i, which becomes `node` and grows. */
  lemma ResizeTiles(mem: seq<u8>, mem': seq<u8>, ptrs: seq<nat>, ptrs': seq<nat>, upper: nat, i: nat, grow: int, node: seq<u8>)
    requires Tiled(mem, ptrs, false, upper) && i < |ptrs| == |ptrs'| && |mem| == |mem'| && grow <= upper
    requires ptrs[i] + NODE_SIZE <= |mem| && SizeAt(mem, ptrs[i], false) + grow > 0
    requires forall j :: 0 <= j < |ptrs| ==>
               && ptrs'[j] == Rekey(ptrs[j], ptrs[i], grow) && ptrs'[j] + NODE_SIZE <= |mem'| && ptrs[j] + NODE_SIZE <= |mem|
               && SizeAt(mem', ptrs'[j], false) == SizeAt(mem, ptrs[j], false) + (if j == i then grow else 0)
               && NodeAt(mem', ptrs'[j], false) == if j == i then node else NodeAt(mem, ptrs[j], false)
    ensures Tiled(mem', ptrs', false, upper - grow)
    ensures Nodes(mem', ptrs', false) == Nodes(mem, ptrs, false)[i := node]
  {
    hide SizeAt, NodeAt, Tiling;
    TilingResize(Extents(mem, ptrs, false), Extents(mem', ptrs', false), upper, |mem|, i, grow);
    assert Nodes(mem', ptrs', false) == Nodes(mem, ptrs, false)[i := node];
  }

  /** Replacing the key of a branch node replaces that node and no other. */
  lemma RekeyTiles(mem: seq<u8>, mem': seq<u8>, ptrs: seq<nat>, ptrs': seq<nat>, upper: nat, i: nat, grow: int, key: seq<u8>)
    requires Tiled(mem, ptrs, false, upper) && i < |ptrs| == |ptrs'|
    requires ptrs[i] + NODE_SIZE <= |mem| && SizeAt(mem, ptrs[i], false) + grow == Even(NODE_SIZE + |key|) && grow <= upper
    requires Rekeyed(mem, mem', upper, ptrs[i], grow, key, ptrs[i] + SizeAt(mem, ptrs[i], false))
    requires forall j :: 0 <= j < |ptrs'| ==> ptrs'[j] == Rekey(ptrs[j], ptrs[i], grow)
    ensures Tiled(mem', ptrs', false, upper - grow)
    ensures Nodes(mem', ptrs', false) == Nodes(mem, ptrs, false)[i := WithKeySize(mem[ptrs[i]..ptrs[i] + NODE_SIZE], |key|) + key]
  {
    ExtentIs(mem, ptrs, false, upper, i);
    RekeyedSelf(mem, mem', upper, ptrs[i], grow, key);
    hide SizeAt, LengthAt, NodeAt, Tiled, Rekeyed, WithKeySize;
    forall j | 0 <= j < |ptrs|
      ensures ptrs'[j] + NODE_SIZE <= |mem'| && ptrs[j] + NODE_SIZE <= |mem|
      ensures SizeAt(mem', ptrs'[j], false) == SizeAt(mem, ptrs[j], false) + (if j == i then grow else 0)
      ensures NodeAt(mem', ptrs'[j], false) == if j == i then WithKeySize(mem[ptrs[i]..ptrs[i] + NODE_SIZE], |key|) + key else NodeAt(mem, ptrs[j], false)
    {
      if j != i {
        RekeyedOther(mem, mem', ptrs, upper, i, j, grow, key);
      }
    }
    RekeyedLength(mem, mem', upper, ptrs[i], grow, key, ptrs[i] + SizeAt(mem, ptrs[i], false));
    ResizeTiles(mem, mem', ptrs, ptrs', upper, i, grow, WithKeySize(mem[ptrs[i]..ptrs[i] + NODE_SIZE], |key|) + key);
  }

  lemma RekeyedLength(mem: seq<u8>, mem': seq<u8>, upper: nat, p: nat, grow: int, key: seq<u8>, rest: nat)
    requires p + NODE_SIZE <= |mem| && Rekeyed(mem, mem', upper, p, grow, key, rest)
    ensures |mem'| == |mem|
  {
  }

  // -------------------------------------------------------------------- page

  predicate Overflows(key: seq<u8>, data: seq<u8>, flags: nat, nodemax: nat) {
    flags % 2 != F_BIGDATA && NODE_SIZE + |key| + |data| > nodemax
  }

  /** The node of a key and its data, or of the overflow page that holds the data. */
  function LeafNode(key: seq<u8>, data: seq<u8>, flags: nat, nodemax: nat, ofp: seq<u8>): seq<u8>
    requires |key| < 0x1_0000 && |data| < 0x1_0000_0000 && flags < 0x1_0000
  {
    var big := Overflows(key, data, flags, nodemax);
    Head(Sized(|data|, if big then flags + F_BIGDATA else flags), |key|) + key + if big then ofp else data
  }

  /** SETDSZ, and the flags. */
  function Sized(dsize: nat, flags: nat): (words: (nat, nat, nat))
    requires dsize < 0x1_0000_0000 && flags < 0x1_0000
    ensures words.0 < 0x1_0000 && words.1 < 0x1_0000 && words.2 == flags && words.0 + 0x1_0000 * words.1 == dsize
  {
    (dsize % 0x1_0000, dsize / 0x1_0000, flags)
  }

  lemma LeafLength(key: seq<u8>, data: seq<u8>, flags: nat, nodemax: nat, ofp: seq<u8>)
    requires |key| < 0x1_0000 && |data| < 0x1_0000_0000 && flags < 0x1_0000
    requires |ofp| == PGNO_SIZE && (flags % 2 == F_BIGDATA ==> |data| == PGNO_SIZE)
    ensures var big := Overflows(key, data, flags, nodemax);
      NodeLength(Head(Sized(|data|, if big then flags + F_BIGDATA else flags), |key|), true) == NODE_SIZE + |key| + |if big then ofp else data| == |LeafNode(key, data, flags, nodemax, ofp)|
  {
    hide Head, Sized, KeySize, Flags, DataSize;
  }

  lemma NodesWhole(mem: seq<u8>, ptrs: seq<nat>, leaf: bool, upper: nat)
    requires Tiled(mem, ptrs, leaf, upper)
    ensures forall i :: 0 <= i < |ptrs| ==> |Nodes(mem, ptrs, leaf)[i]| >= NODE_SIZE
  {
    hide SizeAt, LengthAt;
    forall i | 0 <= i < |ptrs|
      ensures |Nodes(mem, ptrs, leaf)[i]| >= NODE_SIZE
    {
      ExtentIs(mem, ptrs, leaf, upper, i);
    }
  }

  /** The header of a new node: three words that hold the data size and flags or a page number. */
  function Head(words: (nat, nat, nat), ksize: nat): (h: seq<u8>)
    requires words.0 < 0x1_0000 && words.1 < 0x1_0000 && words.2 < 0x1_0000 && ksize < 0x1_0000
    ensures |h| == NODE_SIZE && KeySize(h) == ksize && Flags(h) == words.2 && DataSize(h) == words.0 + 0x1_0000 * words.1
  {
    [words.0 % 0x100, words.0 / 0x100, words.1 % 0x100, words.1 / 0x100,
     words.2 % 0x100, words.2 / 0x100, ksize % 0x100, ksize / 0x100]
  }

  /** The order of the header's bytes: mn_lo, mn_hi, mn_flags, mn_ksize, each with the low byte first. */
  lemma HeadIs()
    ensures Head((0x0201, 0x0403, 0x0605), 0x0807) == [1, 2, 3, 4, 5, 6, 7, 8]
    ensures Sized(0x04030201, 0x0605) == (0x0201, 0x0403, 0x0605)
  {
    assert 0x0201 / 0x100 == 2 && 0x0403 / 0x100 == 4 && 0x0605 / 0x100 == 6 && 0x0807 / 0x100 == 8;
    assert 0x04030201 / 0x1_0000 == 0x0403;
  }

  // --------------------------------------------------------- pointers in memory

  /** mp_ptrs[i]. */
  function Ptr(mem: seq<u8>, i: nat): (p: nat)
    requires PAGE_HEADER + INDX_SIZE * (i + 1) <= |mem|
    ensures p < 0x1_0000
  {
    Word(mem[PAGE_HEADER + INDX_SIZE * i], mem[PAGE_HEADER + INDX_SIZE * i + 1])
  }

  function Ptrs(mem: seq<u8>, n: nat): (ptrs: seq<nat>)
    requires PAGE_HEADER + INDX_SIZE * n <= |mem|
    ensures |ptrs| == n
  {
    seq(n, i requires 0 <= i < n => Ptr(mem, i))
  }

  function WithPtr(mem: seq<u8>, i: nat, p: nat): (m: seq<u8>)
    requires PAGE_HEADER + INDX_SIZE * (i + 1) <= |mem| && p < 0x1_0000
    ensures |m| == |mem|
  {
    mem[PAGE_HEADER + INDX_SIZE * i := p % 0x100][PAGE_HEADER + INDX_SIZE * i + 1 := p / 0x100]
  }

  lemma WithPtrIs(mem: seq<u8>, i: nat, p: nat, n: nat)
    requires i < n && PAGE_HEADER + INDX_SIZE * n <= |mem| && p < 0x1_0000
    ensures forall k :: 0 <= k < n ==> Ptr(WithPtr(mem, i, p), k) == if k == i then p else Ptr(mem, k)
    ensures SameFrom(mem, WithPtr(mem, i, p), PAGE_HEADER + INDX_SIZE * n)
  {
    var from := PAGE_HEADER + INDX_SIZE * n;
    assert mem[from..] == WithPtr(mem, i, p)[from..];
  }

  lemma PtrsFewer(mem: seq<u8>, m: nat, n: nat)
    requires m <= n && PAGE_HEADER + INDX_SIZE * n <= |mem|
    ensures forall k :: 0 <= k < m ==> Ptrs(mem, m)[k] == Ptrs(mem, n)[k]
  {
  }

  lemma GapInPointers(mem: seq<u8>, was: seq<nat>, indx: nat, sz: nat)
    requires indx < |was| && PAGE_HEADER + INDX_SIZE * |was| <= |mem|
    requires forall k :: 0 <= k < |was| - 1 ==> Ptrs(mem, |was|)[k] == Kept(was, indx, sz, k)
    ensures forall k :: 0 <= k < |was| - 1 ==> Ptrs(mem, |was| - 1)[k] == Kept(was, indx, sz, k)
  {
    hide Kept;
    PtrsFewer(mem, |was| - 1, |was|);
  }

  lemma PtrsAre(mem: seq<u8>, n: nat, list: seq<nat>)
    requires PAGE_HEADER + INDX_SIZE * n <= |mem| && |list| == n && forall k :: 0 <= k < n ==> Ptr(mem, k) == list[k]
    ensures Ptrs(mem, n) == list
  {
  }

  lemma InsertedAt(s: seq<nat>, i: nat, x: nat)
    requires i <= |s|
    ensures |Inserted(s, i, x)| == |s| + 1
    ensures forall k :: 0 <= k <= |s| ==> Inserted(s, i, x)[k] == if k < i then s[k] else if k == i then x else s[k - 1]
  {
  }

  lemma PtrsSame(mem: seq<u8>, mem': seq<u8>, n: nat)
    requires PAGE_HEADER + INDX_SIZE * n <= |mem| == |mem'|
    requires mem[..PAGE_HEADER + INDX_SIZE * n] == mem'[..PAGE_HEADER + INDX_SIZE * n]
    ensures Ptrs(mem, n) == Ptrs(mem', n)
  {
    var low := PAGE_HEADER + INDX_SIZE * n;
    forall i | 0 <= i < n
      ensures Ptr(mem, i) == Ptr(mem', i)
    {
      var x := PAGE_HEADER + INDX_SIZE * i;
      assert mem[x] == mem[..low][x] == mem'[x] && mem[x + 1] == mem[..low][x + 1] == mem'[x + 1];
    }
  }

  /** The pointers while those from i on are moved up one slot. */
  predicate Opening(was: seq<nat>, start: seq<u8>, mem: seq<u8>, i: nat) {
    && PAGE_HEADER + INDX_SIZE * (|was| + 1) <= |mem| && i <= |was|
    && SameFrom(start, mem, PAGE_HEADER + INDX_SIZE * (|was| + 1))
    && (forall k :: 0 <= k < i ==> Ptr(mem, k) == was[k])
    && (forall k :: i < k <= |was| ==> Ptr(mem, k) == was[k - 1])
  }

  lemma OpenOne(was: seq<nat>, start: seq<u8>, mem: seq<u8>, i: nat)
    requires Opening(was, start, mem, i) && i > 0 && PAGE_HEADER + INDX_SIZE * (i + 1) <= |mem|
    ensures Opening(was, start, WithPtr(mem, i, Ptr(mem, i - 1)), i - 1)
  {
    hide WithPtr, Ptr;
    WithPtrIs(mem, i, Ptr(mem, i - 1), |was| + 1);
  }

  lemma FillOpening(was: seq<nat>, start: seq<u8>, mem: seq<u8>, i: nat, ofs: nat)
    requires Opening(was, start, mem, i) && PAGE_HEADER + INDX_SIZE * (i + 1) <= |mem| && ofs < 0x1_0000
    ensures var m := WithPtr(mem, i, ofs);
      Ptrs(m, |was| + 1) == Inserted(was, i, ofs) && SameFrom(start, m, PAGE_HEADER + INDX_SIZE * (|was| + 1))
  {
    hide WithPtr, Ptr;
    WithPtrIs(mem, i, ofs, |was| + 1);
    InsertedAt(was, i, ofs);
    forall k | 0 <= k <= |was|
      ensures Ptr(WithPtr(mem, i, ofs), k) == Inserted(was, i, ofs)[k]
    {
      assert Inserted(was, i, ofs)[k] == if k < i then was[k] else if k == i then ofs else was[k - 1];
      assert Ptr(WithPtr(mem, i, ofs), k) == if k == i then ofs else Ptr(mem, k);
    }
    PtrsAre(WithPtr(mem, i, ofs), |was| + 1, Inserted(was, i, ofs));
  }

  /** The pointers while the gap at indx is closed: those before i are in their new slots, those from i on where they were. */
  predicate Closing(was: seq<nat>, start: seq<u8>, mem: seq<u8>, indx: nat, sz: nat, i: nat)
    requires indx < |was|
  {
    && PAGE_HEADER + INDX_SIZE * |was| <= |mem| && i <= |was|
    && SameFrom(start, mem, PAGE_HEADER + INDX_SIZE * |was|)
    && (forall k :: 0 <= k < Written(i, indx) ==> Ptr(mem, k) == Kept(was, indx, sz, k))
    && (forall k :: i <= k < |was| ==> Ptr(mem, k) == was[k])
  }

  function Written(i: nat, indx: nat): nat {
    if i <= indx then i else i - 1
  }

  /** The k-th pointer that is left. */
  function Kept(was: seq<nat>, indx: nat, sz: nat, k: nat): nat
    requires indx < |was| && k < |was| - 1
  {
    Moved(was[if k < indx then k else k + 1], was[indx], sz)
  }

  lemma OpeningStarts(mem: seq<u8>, n: nat)
    requires PAGE_HEADER + INDX_SIZE * (n + 1) <= |mem|
    ensures Opening(Ptrs(mem, n), mem, mem, n)
  {
  }

  lemma ClosingStarts(mem: seq<u8>, n: nat, indx: nat, sz: nat)
    requires PAGE_HEADER + INDX_SIZE * n <= |mem| && indx < n
    ensures Closing(Ptrs(mem, n), mem, mem, indx, sz, 0) && Ptrs(mem, n)[indx] == Ptr(mem, indx) && Written(0, indx) == 0
  {
  }

  lemma PointerIs(was: seq<nat>, start: seq<u8>, mem: seq<u8>, indx: nat, sz: nat, i: nat)
    requires indx < |was| && Closing(was, start, mem, indx, sz, i) && i < |was|
    ensures Ptr(mem, i) == was[i] < 0x1_0000
  {
  }

  lemma SkipOne(was: seq<nat>, start: seq<u8>, mem: seq<u8>, indx: nat, sz: nat)
    requires indx < |was| && Closing(was, start, mem, indx, sz, indx)
    ensures Closing(was, start, mem, indx, sz, indx + 1) && Written(indx + 1, indx) == Written(indx, indx)
  {
  }

  lemma Closed(was: seq<nat>, start: seq<u8>, mem: seq<u8>, indx: nat, sz: nat)
    requires indx < |was| && Closing(was, start, mem, indx, sz, |was|)
    ensures PAGE_HEADER + INDX_SIZE * |was| <= |mem| && SameFrom(start, mem, PAGE_HEADER + INDX_SIZE * |was|)
    ensures forall k :: 0 <= k < |was| - 1 ==> Ptrs(mem, |was|)[k] == Kept(was, indx, sz, k)
  {
  }

  lemma CloseOne(was: seq<nat>, start: seq<u8>, mem: seq<u8>, indx: nat, sz: nat, i: nat)
    requires indx < |was| && Closing(was, start, mem, indx, sz, i) && i < |was| && i != indx && Moved(was[i], was[indx], sz) < 0x1_0000
    ensures PAGE_HEADER + INDX_SIZE * (Written(i, indx) + 1) <= |mem| && Ptr(mem, i) == was[i] && Written(i + 1, indx) == Written(i, indx) + 1
    ensures Closing(was, start, WithPtr(mem, Written(i, indx), Moved(was[i], was[indx], sz)), indx, sz, i + 1)
  {
    hide WithPtr, Ptr, Moved;
    WithPtrIs(mem, Written(i, indx), Moved(was[i], was[indx], sz), |was|);
  }

  /** An MDB_page without LEAF2: its memory, with mp_lower and mp_upper. */
  class Page {
    const leaf: bool
    var mem: array<u8>
    var lower: nat
    var upper: nat

    function NumKeys(): nat
      reads this
    {
      if lower < PAGE_HEADER then 0 else (lower - PAGE_HEADER) / INDX_SIZE
    }

    ghost predicate Valid()
      reads this, mem
    {
      && lower == PAGE_HEADER + INDX_SIZE * NumKeys() <= upper <= mem.Length <= 0x1_0000
      && Tiled(mem[..], Pointers(), leaf, upper)
    }

    function Pointers(): (ptrs: seq<nat>)
      reads this, mem
      requires PAGE_HEADER + INDX_SIZE * NumKeys() <= mem.Length
      ensures |ptrs| == NumKeys()
    {
      Ptrs(mem[..], NumKeys())
    }

    ghost function Content(): (nodes: seq<seq<u8>>)
      reads this, mem
      requires Valid()
      ensures |nodes| == NumKeys() && forall i :: 0 <= i < |nodes| ==> |nodes[i]| >= NODE_SIZE
    {
      NodesWhole(mem[..], Pointers(), leaf, upper);
      Nodes(mem[..], Pointers(), leaf)
    }

    function SizeLeft(): int
      reads this
    {
      upper - lower
    }

    /** The free space, the pointers and the nodes make up the page. */
    lemma SpaceAccounted()
      requires Valid()
      ensures PAGE_HEADER + INDX_SIZE * |Content()| + SizeLeft() + Sum(Extents(mem[..], Pointers(), leaf)) == mem.Length
    {
    }

    constructor (size: nat, leaf: bool)
      requires PAGE_HEADER <= size <= 0x1_0000
      ensures Valid() && fresh(mem) && Content() == [] && mem.Length == size && this.leaf == leaf
    {
      this.leaf := leaf;
      mem := new u8[size];
      lower, upper := PAGE_HEADER, size;
    }

    method SetPtr(i: nat, p: nat)
      requires PAGE_HEADER + INDX_SIZE * (i + 1) <= mem.Length && p < 0x1_0000
      modifies mem
      ensures mem[..] == WithPtr(old(mem[..]), i, p)
    {
      mem[PAGE_HEADER + INDX_SIZE * i] := p % 0x100;
      mem[PAGE_HEADER + INDX_SIZE * i + 1] := p / 0x100;
    }

    /** mdb_node_add on a leaf: data too long for a node goes to the overflow page numbered by `ofp`,
        and data that came as F_BIGDATA is such a number. */
    method AddLeaf(indx: nat, key: seq<u8>, data: seq<u8>, flags: nat, nodemax: nat, ofp: seq<u8>) returns (ok: bool)
      requires Valid() && leaf && indx <= NumKeys() && |key| < 0x1_0000 && |data| < 0x1_0000_0000 && flags < 0x1_0000
      requires |ofp| == PGNO_SIZE && (flags % 2 == F_BIGDATA ==> |data| == PGNO_SIZE)
      modifies this`lower, this`upper, mem
      ensures Valid()
      ensures ok == (Even(|LeafNode(key, data, flags, nodemax, ofp)|) + INDX_SIZE <= old(SizeLeft()))
      ensures Content() == if ok then Inserted(old(Content()), indx, LeafNode(key, data, flags, nodemax, ofp)) else old(Content())
    {
      hide Tiled, Nodes, Inserted, Head, Sized, NodeLength;
      var big := Overflows(key, data, flags, nodemax);
      var words := Sized(|data|, if big then flags + F_BIGDATA else flags);
      LeafLength(key, data, flags, nodemax, ofp);
      ok := NodeAdd(indx, words, key, if big then ofp else data);
    }

    /** The part of mdb_node_add that leaf and branch pages share: false if the page is full. */
    method NodeAdd(indx: nat, words: (nat, nat, nat), key: seq<u8>, body: seq<u8>) returns (ok: bool)
      requires Valid() && indx <= NumKeys() && |key| < 0x1_0000
      requires words.0 < 0x1_0000 && words.1 < 0x1_0000 && words.2 < 0x1_0000
      requires NodeLength(Head(words, |key|), leaf) == NODE_SIZE + |key| + |body|
      modifies this`lower, this`upper, mem
      ensures Valid()
      ensures ok == (Even(NODE_SIZE + |key| + |body|) + INDX_SIZE <= old(SizeLeft()))
      ensures Content() == if ok then Inserted(old(Content()), indx, Head(words, |key|) + key + body) else old(Content())
    {
      hide Tiled, Nodes, Inserted, Head, NodeLength, LengthAt, SizeAt, NodeAt, Ptrs, Even, SameFrom;
      var room := SizeLeft() - INDX_SIZE;
      var nodeSize := Even(NODE_SIZE + |key| + |body|);
      if nodeSize > room {
        return false;
      }
      ghost var before, pointers := mem[..], Pointers();
      var node := Head(words, |key|) + key + body;
      InsertPointer(indx, upper - nodeSize);
      ghost var pointed := mem[..];
      upper := upper - nodeSize;
      lower := lower + INDX_SIZE;
      Write(upper, node);
      BelowKept(pointed, mem[..], upper, lower);
      PtrsSame(pointed, mem[..], NumKeys());
      Added(before, pointed, mem[..], pointers, leaf, upper, nodeSize, indx, words, key, body, lower);
      return true;
    }

    /** The loop that moves the higher pointers up one slot. */
    method InsertPointer(indx: nat, ofs: nat)
      requires indx <= NumKeys() && PAGE_HEADER + INDX_SIZE * (NumKeys() + 1) <= mem.Length && ofs < 0x1_0000
      modifies mem
      ensures Ptrs(mem[..], NumKeys() + 1) == Inserted(old(Pointers()), indx, ofs)
      ensures SameFrom(old(mem[..]), mem[..], PAGE_HEADER + INDX_SIZE * (NumKeys() + 1))
    {
      ghost var start, was := mem[..], Pointers();
      var i := NumKeys();
      hide WithPtr, Inserted, Ptr, SameFrom, Opening, Ptrs;
      OpeningStarts(start, i);
      while i > indx
        invariant indx <= i <= |was| && Opening(was, start, mem[..], i)
      {
        OpenOne(was, start, mem[..], i);
        SetPtr(i, Ptr(mem[..], i - 1));
        i := i - 1;
      }
      FillOpening(was, start, mem[..], indx, ofs);
      SetPtr(indx, ofs);
    }

    /** mdb_node_del. */
    method NodeDel(indx: nat)
      requires Valid() && indx < NumKeys()
      modifies this`lower, this`upper, mem
      ensures Valid() && NumKeys() == old(NumKeys()) - 1
      ensures Content() == Removed(old(Content()), indx)
    {
      hide Tiled, Nodes, Removed, NodeLength, LengthAt, SizeAt, NodeAt, MovedUp, Moved, Even;
      ghost var before, pointers, low, n := mem[..], Pointers(), upper, NumKeys();
      var ptr := Ptr(mem[..], indx);
      ExtentIs(before, pointers, leaf, upper, indx);
      var head := mem[ptr..ptr + NODE_SIZE];
      var sz := Even(NodeLength(head, leaf));
      HeadSize(before, ptr, leaf, head);
      CloseGap(indx, sz);
      lower := lower - INDX_SIZE;
      upper := upper + sz;
      assert NumKeys() == n - 1;
      GapInPointers(mem[..], pointers, indx, sz);
      DeleteTiles(before, mem[..], pointers, Pointers(), leaf, low, indx);
    }

    /** The removal of a node's pointer and the move of what lies below the node over it. */
    method CloseGap(indx: nat, sz: nat)
      requires indx < NumKeys() && lower == PAGE_HEADER + INDX_SIZE * NumKeys() <= upper <= mem.Length <= 0x1_0000
      requires upper <= Pointers()[indx] && Pointers()[indx] + sz <= mem.Length
      modifies mem
      ensures var was := old(Pointers());
              forall k :: 0 <= k < NumKeys() - 1 ==> Pointers()[k] == Kept(was, indx, sz, k)
      ensures MovedUp(old(mem[..]), mem[..], upper, old(Pointers())[indx], sz)
    {
      ghost var before := mem[..];
      var ptr := Ptr(mem[..], indx);
      RemovePointer(indx, sz);
      ghost var pointed, pointers := mem[..], Pointers();
      Memmove(upper + sz, upper, ptr - upper);
      BelowKept(pointed, mem[..], upper + sz, lower);
      PtrsSame(pointed, mem[..], NumKeys());
      assert Pointers() == pointers;
      hide Ptrs;
      GapClosed(before, pointed, mem[..], lower, upper, ptr, sz);
    }

    /** The loop that closes the gap in the pointers and moves up those below the deleted node. */
    method RemovePointer(indx: nat, sz: nat)
      requires indx < NumKeys() && PAGE_HEADER + INDX_SIZE * NumKeys() <= mem.Length && Pointers()[indx] + sz <= 0x1_0000
      modifies mem
      ensures var was := old(Pointers());
              forall k :: 0 <= k < NumKeys() - 1 ==> Pointers()[k] == Kept(was, indx, sz, k)
      ensures SameFrom(old(mem[..]), mem[..], PAGE_HEADER + INDX_SIZE * NumKeys())
    {
      ghost var start, was := mem[..], Pointers();
      var numkeys := NumKeys();
      var ptr := Ptr(mem[..], indx);
      var i, j := 0, 0;
      hide WithPtr, Ptr, SameFrom, Closing, Ptrs, Written, Kept;
      ClosingStarts(start, numkeys, indx, sz);
      while i < numkeys
        invariant 0 <= i <= numkeys && j == Written(i, indx) && Closing(was, start, mem[..], indx, sz, i)
      {
        if i != indx {
          ClosePointer(i, j, ptr, sz, was, start, indx);
          j := j + 1;
        } else {
          SkipOne(was, start, mem[..], indx, sz);
        }
        i := i + 1;
      }
      Closed(was, start, mem[..], indx, sz);
    }

    /** The body of that loop for another node. */
    method ClosePointer(i: nat, j: nat, ptr: nat, sz: nat, ghost was: seq<nat>, ghost start: seq<u8>, ghost indx: nat)
      requires indx < |was| && Closing(was, start, mem[..], indx, sz, i) && i < |was| && i != indx
      requires j == Written(i, indx) && ptr == was[indx] && ptr + sz <= 0x1_0000 && PAGE_HEADER + INDX_SIZE * |was| <= mem.Length
      modifies mem
      ensures Closing(was, start, mem[..], indx, sz, i + 1) && Written(i + 1, indx) == j + 1
    {
      PointerIs(was, start, mem[..], indx, sz, i);
      hide WithPtr, Ptr, SameFrom, Closing, Written;
      CloseOne(was, start, mem[..], indx, sz, i);
      var p := Ptr(mem[..], i);
      SetPtr(j, if p < ptr then p + sz else p);
    }

    /** mdb_update_key on a branch page: false if the longer key does not fit, and the node is split
        instead. */
    method UpdateKey(indx: nat, key: seq<u8>) returns (ok: bool)
      requires Valid() && !leaf && indx < NumKeys() && |key| < 0x1_0000
      modifies this`upper, mem
      ensures Valid() && NumKeys() == old(NumKeys())
      ensures ok == (Even(NODE_SIZE + |key|) - Even(|old(Content())[indx]|) <= old(SizeLeft()))
      ensures Content() == if ok then old(Content())[indx := WithKeySize(old(Content())[indx][..NODE_SIZE], |key|) + key] else old(Content())
    {
      hide Tiled, Nodes, LengthAt, SizeAt, NodeAt, WithKeySize, Even, KeySize;
      var ptr := Ptr(mem[..], indx);
      ExtentIs(mem[..], Pointers(), leaf, upper, indx);
      var head := mem[ptr..ptr + NODE_SIZE];
      HeadSize(mem[..], ptr, false, head);
      BranchNode(mem[..], Pointers(), upper, indx);
      EvenKey(|key|);
      EvenKey(KeySize(head));
      var delta := Even(|key|) - Even(KeySize(head));
      if delta > 0 && SizeLeft() < delta {
        return false;
      }
      ChangeKey(indx, delta, key);
      return true;
    }

    /** The rest of mdb_update_key, when the key fits. */
    method ChangeKey(indx: nat, delta: int, key: seq<u8>)
      requires Valid() && !leaf && indx < NumKeys() && |key| < 0x1_0000 && delta <= SizeLeft()
      requires Pointers()[indx] + NODE_SIZE <= mem.Length && SizeAt(mem[..], Pointers()[indx], false) + delta == Even(NODE_SIZE + |key|)
      modifies this`upper, mem
      ensures Valid()
      ensures Content() == old(Content())[indx := WithKeySize(old(mem[Pointers()[indx]..Pointers()[indx] + NODE_SIZE]), |key|) + key]
    {
      hide Tiled, Nodes, LengthAt, SizeAt, NodeAt, Rekeyed, WithKeySize;
      ghost var before, pointers, low, n := mem[..], Pointers(), upper, NumKeys();
      forall k | 0 <= k < n
        ensures low <= pointers[k]
      {
        ExtentIs(before, pointers, leaf, low, k);
      }
      ExtentIs(before, pointers, leaf, low, indx);
      var ptr := Ptr(mem[..], indx);
      ReplaceKey(ptr, delta, key, ptr + SizeAt(before, ptr, false));
      RekeyTiles(before, mem[..], pointers, Pointers(), low, indx, delta, key);
    }

    /** The shift and the writing of the new key; `rest` is the end of the node. */
    method ReplaceKey(ptr: nat, delta: int, key: seq<u8>, ghost rest: nat)
      requires lower == PAGE_HEADER + INDX_SIZE * NumKeys() <= upper <= ptr && ptr + NODE_SIZE <= rest <= mem.Length <= 0x1_0000
      requires ptr - delta + NODE_SIZE + |key| <= rest && lower <= upper - delta && |key| < 0x1_0000
      requires forall k :: 0 <= k < NumKeys() ==> upper <= Pointers()[k]
      modifies this`upper, mem
      ensures upper == old(upper) - delta
      ensures forall k :: 0 <= k < NumKeys() ==> Pointers()[k] == Rekey(old(Pointers())[k], ptr, delta)
      ensures Rekeyed(old(mem[..]), mem[..], old(upper), ptr, delta, key, rest)
    {
      hide Tiled, WithKeySize, Ptrs;
      ghost var before, low := mem[..], upper;
      ShiftNode(ptr, delta);
      ghost var shifted := mem[..];
      WriteKey(ptr - delta, key);
      PrefixBytes(shifted, mem[..], ptr - delta);
      BelowKept(shifted, mem[..], ptr - delta, lower);
      PtrsSame(shifted, mem[..], NumKeys());
      RekeyedIs(before, shifted, mem[..], low, ptr, delta, key, rest);
    }

    /** The move of a node's header and all below it by what its key grows. */
    method ShiftNode(ptr: nat, delta: int)
      requires lower == PAGE_HEADER + INDX_SIZE * NumKeys() <= upper <= ptr && ptr + NODE_SIZE <= mem.Length <= 0x1_0000
      requires ptr - delta + NODE_SIZE <= mem.Length && lower <= upper - delta
      requires forall k :: 0 <= k < NumKeys() ==> upper <= Pointers()[k]
      modifies this`upper, mem
      ensures upper == old(upper) - delta
      ensures forall k :: 0 <= k < NumKeys() ==> Pointers()[k] == Rekey(old(Pointers())[k], ptr, delta)
      ensures mem[upper..ptr - delta + NODE_SIZE] == old(mem[upper..ptr + NODE_SIZE]) && mem[ptr - delta + NODE_SIZE..] == old(mem[ptr - delta + NODE_SIZE..])
    {
      hide Ptrs, SameFrom;
      if delta != 0 {
        ghost var before := mem[..];
        ShiftPointers(ptr, delta);
        ghost var pointed := mem[..];
        Memmove(upper - delta, upper, ptr - upper + NODE_SIZE);
        Shifted(before, pointed, mem[..], NumKeys(), upper, ptr, delta);
        upper := upper - delta;
      }
    }

    method WriteKey(ptr: nat, key: seq<u8>)
      requires |key| < 0x1_0000 && ptr + NODE_SIZE + |key| <= mem.Length
      modifies mem
      ensures mem[..ptr] == old(mem[..ptr]) && mem[ptr..ptr + NODE_SIZE] == WithKeySize(old(mem[ptr..ptr + NODE_SIZE]), |key|)
      ensures mem[ptr + NODE_SIZE..ptr + NODE_SIZE + |key|] == key && mem[ptr + NODE_SIZE + |key|..] == old(mem[ptr + NODE_SIZE + |key|..])
    {
      ghost var before := mem[..];
      Write(ptr + 6, [|key| % 0x100, |key| / 0x100]);
      ghost var between := mem[..];
      Write(ptr + NODE_SIZE, key);
      KeyWritten(before, between, mem[..], ptr, |key|);
    }

    /** The loop that shifts the pointers up to the node whose key changes. */
    method ShiftPointers(ptr: nat, delta: int)
      requires PAGE_HEADER + INDX_SIZE * NumKeys() <= mem.Length && ptr - delta < 0x1_0000
      requires forall k :: 0 <= k < NumKeys() ==> Pointers()[k] <= ptr ==> delta <= Pointers()[k]
      modifies mem
      ensures forall k :: 0 <= k < NumKeys() ==> Pointers()[k] == Rekey(old(Pointers())[k], ptr, delta)
      ensures SameFrom(old(mem[..]), mem[..], PAGE_HEADER + INDX_SIZE * NumKeys())
    {
      ghost var was := Pointers();
      var i, numkeys := 0, NumKeys();
      while i < numkeys
        invariant 0 <= i <= numkeys && SameFrom(old(mem[..]), mem[..], PAGE_HEADER + INDX_SIZE * numkeys)
        invariant forall k :: 0 <= k < numkeys ==> Ptr(mem[..], k) == if k < i then Rekey(was[k], ptr, delta) else was[k]
      {
        if Ptr(mem[..], i) <= ptr {
          WithPtrIs(mem[..], i, Ptr(mem[..], i) - delta, numkeys);
          SetPtr(i, Ptr(mem[..], i) - delta);
        }
        i := i + 1;
      }
    }

    /** memmove within the page. */
    method Memmove(to: nat, from: nat, n: nat)
      requires to + n <= mem.Length && from + n <= mem.Length
      modifies mem
      ensures mem[..to] == old(mem[..to]) && mem[to..to + n] == old(mem[from..from + n]) && mem[to + n..] == old(mem[to + n..])
    {
      forall k | 0 <= k < n {
        mem[to + k] := mem[from + k];
      }
    }

    /** memcpy into the page. */
    method Write(p: nat, bytes: seq<u8>)
      requires p + |bytes| <= mem.Length
      modifies mem
      ensures mem[..p] == old(mem[..p]) && mem[p..p + |bytes|] == bytes && mem[p + |bytes|..] == old(mem[p + |bytes|..])
    {
      var i := 0;
      while i < |bytes|
        invariant 0 <= i <= |bytes|
        invariant mem[..p] == old(mem[..p]) && mem[p..p + i] == bytes[..i] && mem[p + |bytes|..] == old(mem[p + |bytes|..])
      {
        mem[p + i] := bytes[i];
        i := i + 1;
      }
    }
  }

  lemma PrefixBytes(mem: seq<u8>, mem': seq<u8>, n: nat)
    requires n <= |mem| == |mem'| && mem[..n] == mem'[..n]
    ensures SameBytes(mem, 0, mem', 0, n)
  {
  }

  lemma SubBytes(mem: seq<u8>, p: nat, mem': seq<u8>, q: nat, n: nat, d: nat, m: nat)
    requires SameBytes(mem, p, mem', q, n) && d + m <= n
    ensures SameBytes(mem, p + d, mem', q + d, m)
  {
    SliceOf(mem, p, p + n, p + d, m);
    SliceOf(mem', q, q + n, q + d, m);
  }

  lemma RekeyedIs(mem: seq<u8>, mem1: seq<u8>, mem2: seq<u8>, upper: nat, p: nat, delta: int, key: seq<u8>, rest: nat)
    requires |mem| == |mem1| == |mem2| && |key| < 0x1_0000 && 0 <= upper - delta && upper <= p && p + NODE_SIZE <= |mem| && p - delta + NODE_SIZE + |key| <= rest <= |mem|
    requires SameBytes(mem, upper, mem1, upper - delta, p + NODE_SIZE - upper) && SameFrom(mem, mem1, p - delta + NODE_SIZE)
    requires SameBytes(mem1, 0, mem2, 0, p - delta) && SameFrom(mem1, mem2, p - delta + NODE_SIZE + |key|)
    requires mem2[p - delta..p - delta + NODE_SIZE] == WithKeySize(mem1[p - delta..p - delta + NODE_SIZE], |key|)
    requires mem2[p - delta + NODE_SIZE..p - delta + NODE_SIZE + |key|] == key
    ensures Rekeyed(mem, mem2, upper, p, delta, key, rest)
  {
    hide WithKeySize;
    var q := p - delta;
    assert mem1[q..q + NODE_SIZE] == mem[p..p + NODE_SIZE] by {
      SubBytes(mem, upper, mem1, upper - delta, p + NODE_SIZE - upper, p - upper, NODE_SIZE);
    }
    assert mem1[upper - delta..q] == mem[upper..p] by {
      SubBytes(mem, upper, mem1, upper - delta, p + NODE_SIZE - upper, 0, p - upper);
    }
    assert mem2[upper - delta..q] == mem1[upper - delta..q] by {
      SubBytes(mem1, 0, mem2, 0, q, upper - delta, p - upper);
    }
    assert SameFrom(mem, mem2, rest) by {
      AboveKept(mem1, mem2, q + NODE_SIZE + |key|, rest);
      AboveKept(mem, mem1, q + NODE_SIZE, rest);
    }
  }

  lemma KeyWritten(mem: seq<u8>, mem1: seq<u8>, mem2: seq<u8>, p: nat, ksize: nat)
    requires |mem| == |mem1| == |mem2| && p + NODE_SIZE + ksize <= |mem| && ksize < 0x1_0000
    requires mem1[..p + 6] == mem[..p + 6] && mem1[p + 6..p + NODE_SIZE] == [ksize % 0x100, ksize / 0x100] && mem1[p + NODE_SIZE..] == mem[p + NODE_SIZE..]
    requires mem2[..p + NODE_SIZE] == mem1[..p + NODE_SIZE] && mem2[p + NODE_SIZE + ksize..] == mem1[p + NODE_SIZE + ksize..]
    ensures mem2[..p] == mem[..p] && mem2[p..p + NODE_SIZE] == WithKeySize(mem[p..p + NODE_SIZE], ksize)
    ensures mem2[p + NODE_SIZE + ksize..] == mem[p + NODE_SIZE + ksize..]
  {
    assert SameFrom(mem, mem1, p + NODE_SIZE + ksize) by {
      AboveKept(mem, mem1, p + NODE_SIZE, p + NODE_SIZE + ksize);
    }
    PrefixBytes(mem, mem1, p + 6);
    PrefixBytes(mem1, mem2, p + NODE_SIZE);
    assert mem2[..p] == mem[..p] by {
      SubBytes(mem, 0, mem1, 0, p + 6, 0, p);
      SubBytes(mem1, 0, mem2, 0, p + NODE_SIZE, 0, p);
    }
    assert mem2[p..p + NODE_SIZE] == mem1[p..p + NODE_SIZE] by {
      SubBytes(mem1, 0, mem2, 0, p + NODE_SIZE, p, NODE_SIZE);
    }
    HeadRewritten(mem, mem1, p, ksize);
  }

  lemma HeadRewritten(mem: seq<u8>, mem': seq<u8>, p: nat, ksize: nat)
    requires p + NODE_SIZE <= |mem| == |mem'| && ksize < 0x1_0000
    requires SameBytes(mem, 0, mem', 0, p + 6) && mem'[p + 6..p + NODE_SIZE] == [ksize % 0x100, ksize / 0x100]
    ensures mem'[p..p + NODE_SIZE] == WithKeySize(mem[p..p + NODE_SIZE], ksize)
  {
    SubBytes(mem, 0, mem', 0, p + 6, p, 6);
    Prefix(mem, p, NODE_SIZE, 6);
    assert mem'[p..p + NODE_SIZE] == mem'[p..p + 6] + mem'[p + 6..p + NODE_SIZE];
  }

  lemma EvenKey(n: nat)
    ensures Even(NODE_SIZE + n) == NODE_SIZE + Even(n)
  {
  }

  lemma HeadSize(mem: seq<u8>, p: nat, leaf: bool, head: seq<u8>)
    requires p + NODE_SIZE <= |mem| && head == mem[p..p + NODE_SIZE]
    ensures SizeAt(mem, p, leaf) == Even(NodeLength(head, leaf))
  {
  }

  /** A branch node is its header and its key. */
  lemma BranchNode(mem: seq<u8>, ptrs: seq<nat>, upper: nat, i: nat)
    requires Tiled(mem, ptrs, false, upper) && i < |ptrs|
    ensures ptrs[i] + NODE_SIZE <= |mem|
    ensures var head, node := mem[ptrs[i]..ptrs[i] + NODE_SIZE], Nodes(mem, ptrs, false)[i]; |node| == NODE_SIZE + KeySize(head) && node[..NODE_SIZE] == head
  {
    ExtentIs(mem, ptrs, false, upper, i);
  }

  lemma BelowKept(mem: seq<u8>, mem': seq<u8>, a: nat, to: nat)
    requires to <= a <= |mem| == |mem'| && mem[..a] == mem'[..a]
    ensures mem[..to] == mem'[..to]
  {
    assert mem[..to] == mem[..a][..to] && mem'[..to] == mem'[..a][..to];
  }

  lemma SameFromBoth(mem: seq<u8>, mem1: seq<u8>, mem2: seq<u8>, a: nat, from: nat)
    requires SameFrom(mem, mem1, a) && a <= from && SameFrom(mem1, mem2, from)
    ensures SameFrom(mem, mem2, from)
  {
    AboveKept(mem, mem1, a, from);
  }

  /** After the pointers were changed and the bytes up to the node's header moved. */
  lemma Shifted(before: seq<u8>, pointed: seq<u8>, moved: seq<u8>, n: nat, upper: nat, ptr: nat, delta: int)
    requires var lower := PAGE_HEADER + INDX_SIZE * n;
             SameFrom(before, pointed, lower) && lower <= upper <= ptr && lower <= upper - delta
    requires |pointed| == |moved| && ptr + NODE_SIZE <= |pointed| && ptr - delta + NODE_SIZE <= |pointed|
    requires moved[..upper - delta] == pointed[..upper - delta]
    requires moved[upper - delta..ptr - delta + NODE_SIZE] == pointed[upper..ptr + NODE_SIZE]
    requires moved[ptr - delta + NODE_SIZE..] == pointed[ptr - delta + NODE_SIZE..]
    ensures Ptrs(moved, n) == Ptrs(pointed, n)
    ensures moved[upper - delta..ptr - delta + NODE_SIZE] == before[upper..ptr + NODE_SIZE]
    ensures moved[ptr - delta + NODE_SIZE..] == before[ptr - delta + NODE_SIZE..]
  {
    var lower := PAGE_HEADER + INDX_SIZE * n;
    BelowKept(pointed, moved, upper - delta, lower);
    PtrsSame(pointed, moved, n);
    SameFromSlice(before, pointed, lower, upper, ptr + NODE_SIZE);
    AboveKept(before, pointed, lower, ptr - delta + NODE_SIZE);
  }

  lemma SameFromSlice(mem: seq<u8>, mem': seq<u8>, from: nat, a: nat, b: nat)
    requires SameFrom(mem, mem', from) && from <= a <= b <= |mem|
    ensures mem[a..b] == mem'[a..b]
  {
    SameFromBytes(mem, mem', from, a, b - a);
  }

  lemma GapClosed(mem: seq<u8>, mem1: seq<u8>, mem2: seq<u8>, lower: nat, upper: nat, p: nat, sz: nat)
    requires SameFrom(mem, mem1, lower) && lower <= upper <= p && p + sz <= |mem| == |mem2|
    requires mem2[upper + sz..p + sz] == mem1[upper..p] && mem2[p + sz..] == mem1[p + sz..]
    ensures MovedUp(mem, mem2, upper, p, sz)
  {
    SameFromSlice(mem, mem1, lower, upper, p);
    AboveKept(mem, mem1, lower, p + sz);
  }

  lemma AboveKept(mem: seq<u8>, mem': seq<u8>, a: nat, from: nat)
    requires a <= from <= |mem| == |mem'| && mem[a..] == mem'[a..]
    ensures SameFrom(mem, mem', from)
  {
    assert mem[from..] == mem[a..][from - a..] && mem'[from..] == mem'[a..][from - a..];
  }

  /** The node of `words`, `key` and `body` written below the others, after the pointers up to `lower`. */
  lemma Added(mem: seq<u8>, mem1: seq<u8>, mem2: seq<u8>, ptrs: seq<nat>, leaf: bool, ofs: nat, size: nat, indx: nat, words: (nat, nat, nat), key: seq<u8>, body: seq<u8>, lower: nat)
    requires words.0 < 0x1_0000 && words.1 < 0x1_0000 && words.2 < 0x1_0000 && |key| < 0x1_0000 && indx <= |ptrs|
    requires NodeLength(Head(words, |key|), leaf) == NODE_SIZE + |key| + |body| && size == Even(NODE_SIZE + |key| + |body|)
    requires Tiled(mem, ptrs, leaf, ofs + size) && SameFrom(mem, mem1, lower) && lower <= ofs && |mem2| == |mem|
    requires ofs + NODE_SIZE + |key| + |body| <= |mem| && mem2[ofs..ofs + NODE_SIZE + |key| + |body|] == Head(words, |key|) + key + body
    requires |mem1| == |mem| && mem2[ofs + NODE_SIZE + |key| + |body|..] == mem1[ofs + NODE_SIZE + |key| + |body|..] && ofs + size <= |mem|
    ensures Tiled(mem2, Inserted(ptrs, indx, ofs), leaf, ofs)
    ensures Nodes(mem2, Inserted(ptrs, indx, ofs), leaf) == Inserted(Nodes(mem, ptrs, leaf), indx, Head(words, |key|) + key + body)
  {
    hide Tiled, Nodes, Inserted, Head, NodeLength, LengthAt, SizeAt, NodeAt, Even;
    HeadAt(mem2, ofs, Head(words, |key|), key, body, leaf);
    AboveKept(mem1, mem2, ofs + NODE_SIZE + |key| + |body|, ofs + size);
    SameFromBoth(mem, mem1, mem2, lower, ofs + size);
    SizeIs(mem2, ofs, leaf);
    AddTiles(mem, mem2, ptrs, leaf, ofs + size, indx, ofs);
  }

  lemma SizeIs(mem: seq<u8>, p: nat, leaf: bool)
    requires p + NODE_SIZE <= |mem|
    ensures SizeAt(mem, p, leaf) == Even(LengthAt(mem, p, leaf))
  {
  }

  /** A header, a key and a body at p are a node there. */
  lemma HeadAt(mem: seq<u8>, p: nat, head: seq<u8>, key: seq<u8>, body: seq<u8>, leaf: bool)
    requires |head| == NODE_SIZE && NodeLength(head, leaf) == NODE_SIZE + |key| + |body|
    requires p + NODE_SIZE + |key| + |body| <= |mem| && mem[p..p + NODE_SIZE + |key| + |body|] == head + key + body
    ensures LengthAt(mem, p, leaf) == NODE_SIZE + |key| + |body| && NodeAt(mem, p, leaf) == head + key + body
  {
    hide NodeLength;
    Prefix(mem, p, NODE_SIZE + |key| + |body|, NODE_SIZE);
    assert (head + key + body)[..NODE_SIZE] == head;
  }
}
