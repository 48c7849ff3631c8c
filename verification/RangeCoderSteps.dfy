/** What the range coder's loops keep from one context, node or byte to the next. */
module RangeCoderSteps {
  import opened Words
  import opened RangeInterval
  import opened PpmModel
  import opened PpmDecoder
  import opened SymbolPool
  import opened PoolModel

  // ------------------------------------------------- steps of PatchContexts

  /** The contexts longer than `s` are patched; the symbol `parent`, if any, waits for the one
      that `s` has for `v`. */
  ghost predicate PatchAt(
    pool: Pool, names: Names, m: Model, s: Context, c: nat, at: Context, v: u8, parent: int, predicted: nat, recent: Context)
  {
    && c < |names| && names[c] == s && m.Ok() && SuffixOf(at, s)
    && |names| + |s| - |at| <= POOL_SIZE
    && (parent == -1 || 0 < parent < |names|)
    && Represents(pool, names, m, if parent < 0 then {} else {parent as nat})
    && (if parent == -1 then s == recent
        else Awaits(names, parent, s, v) && predicted < |names| && names[predicted] == recent + [v])
  }

  lemma PatchNot(
    pool: Pool, names: Names, m: Model, s: Context, c: nat, c': nat, at: Context, v: u8, parent: int)
    requires c < |names| && c' < |names| && names[c] == s && names[c'] == at && c != c' && SuffixOf(at, s)
    requires |names| + |s| - |at| <= POOL_SIZE
    requires Represents(pool, names, m, if parent < 0 then {} else {parent as nat})
    ensures s != at && s != [] && SuffixOf(at, s[1..]) && |names| < POOL_SIZE && |names| == m.next
  {
    assert names[c] != names[c'] by {
      if c < c' { assert names[c] != names[c']; } else { assert names[c'] != names[c]; }
    }
    ShorterSuffix(at, s);
  }

  lemma LearnInNext(m: Model, s: Context, v: u8, next: nat)
    requires next == m.next + if m.Count(s, v) == 0 then 1 else 0
    ensures m.Put(s, Counted(s, m.Get(s), v)).(next := next).Put(s, Learned(s, m.Get(s), v)) == LearnIn(m, s, v)
  {
  }

  lemma PatchNext(
    pool: Pool, names0: Names, names: Names, m: Model, s: Context, c: nat, at: Context, v: u8, parent: int, symbol: nat,
    predicted: nat, recent: Context)
    requires m.Ok() && s != [] && s != at && SuffixOf(at, s) && c < |names0| && names0[c] == s && c != 0
    requires |names0| + |s| - |at| <= POOL_SIZE && names == NamesAfter(names0, s, m.Get(s).counts, v)
    requires Represents(pool, names, LearnIn(m, s, v), Waiting(s, m.Get(s), v, symbol))
    requires symbol < |names| && names[symbol] == s + [v] && (m.Count(s, v) == 0 ==> symbol == |names0|)
    requires predicted < |names| && names[predicted] == recent + [v]
    ensures PatchAt(pool, names, LearnIn(m, s, v), s[1..], pool[c].parent, at, v, symbol, predicted, recent)
    ensures LearnAbove(m, s, at, v) == LearnAbove(LearnIn(m, s, v), s[1..], at, v)
  {
    hide LearnIn, SuffixOf, Represents, Waiting, NamesAfter, Model.Ok;
    var pending := Waiting(s, m.Get(s), v, symbol);
    NamesAfterHolds(names0, names, s, m.Get(s).counts, v, c);
    WaitingOne(s, m, v, symbol, c, |names0|);
    ParentKnown(pool, names, LearnIn(m, s, v), pending, c);
    LearnInOk(m, s, v);
    ShorterSuffix(at, s);
    SuffixLength(at, s[1..]);
    TailOfAppend(s, v);
    MorePending(pool, names, LearnIn(m, s, v), pending, {symbol});
  }

  lemma TailOfAppend(s: Context, v: u8)
    requires s != []
    ensures (s + [v])[1..] == s[1..] + [v]
  {
  }

  lemma SuffixLength(at: Context, s: Context)
    requires SuffixOf(at, s)
    ensures |at| <= |s|
  {
  }

  lemma WaitingOne(s: Context, m: Model, v: u8, symbol: nat, c: nat, n: nat)
    requires c < n && (m.Count(s, v) == 0 ==> symbol == n)
    ensures c !in Waiting(s, m.Get(s), v, symbol) && Waiting(s, m.Get(s), v, symbol) <= {symbol}
  {
  }

  lemma NamesAfterHolds(names0: Names, names: Names, s: Context, counts: Counts, v: u8, c: nat)
    requires names == NamesAfter(names0, s, counts, v) && c < |names0|
    ensures |names0| <= |names| <= |names0| + 1 && names[c] == names0[c] && (counts[v] != 0 ==> names == names0)
  {
  }

  lemma ParentKnown(pool: Pool, names: Names, m: Model, pending: set<nat>, c: nat)
    requires Represents(pool, names, m, pending) && 0 < c < |names| && c !in pending
    ensures names[0] == [] && ParentAt(pool, names, c)
  {
    hide AllContexts, AllKnown, AllNamed, Closed, Distinct;
  }

  lemma PatchDone(
    pool: Pool, names: Names, m: Model, s: Context, c: nat, at: Context, v: u8, parent: int, predicted: nat, recent: Context)
    requires PatchAt(pool, names, m, s, c, at, v, parent, predicted, recent)
    requires names[c] == at
    ensures LearnAbove(m, s, at, v) == m && |names| == m.next
  {
  }

  lemma WholeSuffix(s: Context)
    ensures SuffixOf(s, s)
  {
  }

  lemma ParentOf(pool: Pool, names: Names, m: Model, c: nat)
    requires Represents(pool, names, m, {}) && 0 < c < |names|
    ensures names[c] != [] && pool[c].parent < |names| && names[pool[c].parent] == names[c][1..]
  {
    assert ParentAt(pool, names, c);
  }

  /** What one context made of the code word. */
  datatype Outcome = GotByte | GoOn | GotEnd | GotLost

  lemma EncodeStart(pool: Pool, n: nat, c: nat, v: u8, d: u8, minimum: u8)
    requires Closed(pool, n) && c < n < POOL_SIZE && minimum <= 1 && pool[c].symbols != 0
    ensures c + pool[c].symbols < n && v * minimum == Weight(v, minimum) < BOTTOM
    ensures Encode(pool, n, c, v, d, minimum) == Descend(pool, n, c + pool[c].symbols, v, d, Weight(v, minimum), minimum)
  {
    WeightIs(v, minimum);
    assert ClosedAt(pool, c, n);
  }

  lemma BelowNothing(counts: Counts)
    ensures Below(counts, 0) == 0
  {
  }

  /** `n * minimum`, the minimum being 0 or 1. */
  function Weight(n: nat, minimum: nat): nat {
    if minimum == 1 then n else 0
  }

  lemma WeightIs(n: nat, minimum: nat)
    requires minimum <= 1
    ensures n * minimum == Weight(n, minimum)
  {
  }

  lemma AddFits(a: nat, b: nat)
    requires a + b < BOTTOM
    ensures Add16(a, b) == a + b
  {
  }

  lemma AddFitsLess(a: nat, b: nat, c: nat)
    requires c <= a + b < BOTTOM + c && c < BOTTOM
    ensures Add16(a, b + 0x1_0000 - c) == a + b - c
  {
  }

  /** `after` and `before` of ENET_CONTEXT_DECODE. */
  method Span(under: u16, nodeUnder: u16, value: u8, nodeCount: u8, minimum: u8) returns (after: u16, before: u16)
    requires minimum <= 1 && under + nodeUnder + Weight(value + 1, minimum) < BOTTOM
    ensures after == under + nodeUnder + Weight(value + 1, minimum)
    ensures before == nodeCount + minimum
  {
    WeightIs(value + 1, minimum);
    after := under + nodeUnder + (value + 1) * minimum;
    before := nodeCount + minimum;
  }

  /** The byte and the sum below it for a symbol created to the right of a node. */
  method RightOf(code: u16, after: u16, nodeValue: u8, minimum: u8) returns (value: u8, under: u16)
    requires minimum == 1 && after <= code && nodeValue + 1 + (code - after) < 0x100
    ensures value == nodeValue + 1 + (code - after) && under == code
  {
    value := nodeValue + 1 + (code - after) / minimum;
    under := code - (code - after) % minimum;
  }

  method LeftOf(code: u16, start: u16, nodeValue: u8, minimum: u8) returns (value: u8, under: u16)
    requires minimum == 1 && code < start && start - code <= nodeValue
    ensures value == nodeValue - (start - code) && under == code
  {
    value := nodeValue - 1 - (start - code - 1) / minimum;
    under := code - (start - code - 1) % minimum;
  }

  /** What the decoder's walk for `v` computes at the node `i`. */
  lemma AtNode(
    pool: Pool, names: Names, s: Context, counts: Counts, i: nat, lo: nat, hi: nat, minimum: nat, code: nat, v: u8)
    requires |names| <= POOL_SIZE && lo <= v < hi <= 256 && minimum <= 1
    requires Subtree(pool, names, s, counts, i, lo, hi)
    requires Below(counts, 256) + 256 * minimum < BOTTOM
    requires Below(counts, v) + Weight(v, minimum) <= code < Below(counts, v + 1) + Weight(v + 1, minimum)
    ensures var x := pool[i];
            var after := Below(counts, lo) + x.under + Weight(x.value + 1, minimum);
            var start := after - (x.count + minimum);
            && after < BOTTOM && 0 <= start
            && (after <= code <==> x.value < v)
            && (code < start <==> v < x.value)
            && start == Below(counts, lo) + x.under - x.count + Weight(x.value, minimum)
            && Below(counts, lo) + x.under == Below(counts, x.value + 1)
            && (x.value <= v ==> Weight(v, minimum) + Below(counts, x.value + 1) < BOTTOM)
            && (x.value < v && x.right != 0 ==> Subtree(pool, names, s, counts, i + x.right, x.value + 1, hi))
            && (v < x.value && x.left != 0 ==> Subtree(pool, names, s, counts, i + x.left, lo, x.value))
            && (x.value < v && x.right == 0 ==>
                  minimum == 1 && code == after + (v - x.value - 1) == Weight(v, minimum) + Below(counts, x.value + 1))
            && (v < x.value && x.left == 0 ==>
                  minimum == 1 && code == Below(counts, lo) + Weight(v, minimum) == start - (x.value - v))
  {
    var x := pool[i];
    WeightIs(v, minimum);
    WeightIs(v + 1, minimum);
    WeightIs(x.value, minimum);
    WeightIs(x.value + 1, minimum);
    NodeBounds(counts, lo, x.value, hi, minimum);
    NodeBounds(counts, lo, v, hi, minimum);
    SlotOrder(counts, minimum, code, v, x.value);
    if x.value < v {
      BelowMonotone(counts, x.value + 1, v);
      if x.right == 0 {
        OnlyMinimum(counts, minimum, code, v, x.value + 1);
      }
    } else if v < x.value && x.left == 0 {
      OnlyMinimum(counts, minimum, code, v, lo);
      BelowZeros(counts, lo, x.value);
    }
  }

  lemma NodeBounds(counts: Counts, lo: nat, v: nat, hi: nat, minimum: nat)
    requires lo <= v < hi <= 256 && minimum <= 1
    ensures Below(counts, lo) <= Below(counts, v) <= Below(counts, v + 1) <= Below(counts, 256)
    ensures Below(counts, v + 1) == Below(counts, v) + counts[v]
    ensures (v + 1) * minimum == v * minimum + minimum <= 256 * minimum
  {
    BelowMonotone(counts, lo, v);
    BelowMonotone(counts, v + 1, 256);
  }

  /** Comparing a code point with a symbol's slot compares the bytes. */
  lemma SlotOrder(counts: Counts, minimum: nat, code: nat, v: u8, w: u8)
    requires minimum <= 1
    requires Below(counts, v) + v * minimum <= code < Below(counts, v + 1) + (v + 1) * minimum
    ensures code < Below(counts, w) + w * minimum <==> v < w
    ensures Below(counts, w + 1) + (w + 1) * minimum <= code <==> w < v
  {
    if v < w {
      BelowMonotone(counts, v + 1, w);
    } else if w < v {
      BelowMonotone(counts, w + 1, v);
    }
  }

  /** A byte without a count is found by its minimum weight alone. */
  lemma OnlyMinimum(counts: Counts, minimum: nat, code: nat, v: u8, lo: nat)
    requires minimum <= 1 && lo <= v && forall w :: lo <= w <= v ==> counts[w] == 0
    requires Below(counts, v) + v * minimum <= code < Below(counts, v + 1) + (v + 1) * minimum
    ensures minimum == 1 && code == Below(counts, lo) + v
  {
    BelowZeros(counts, lo, v);
  }

  /** Between two bytes: the pool represents the model and `predicted` is the longest context. */
  ghost predicate CoderAt(pool: Pool, names: Names, m: Model, predicted: nat, order: nat, next: nat) {
    && Represents(pool, names, m, {})
    && predicted < |names| == next && names[predicted] == m.recent && order == |m.recent|
  }

  /** The decoder's variables in the middle of a byte: the contexts from `predicted` down to `subcontext` are
      done, and `size` bytes are written. */
  datatype Position = Position(predicted: u16, order: nat, next: nat, subcontext: nat, low: u32, range: u32, code: u32, pos: nat, size: nat)

  ghost predicate AtPosition(pool: Pool, names: Names, m: Model, at: Position) {
    && m.Rested() && CoderAt(pool, names, m, at.predicted, at.order, at.next) && Interval(at.low, at.range).Ready()
    && at.subcontext < |names| && SuffixOf(names[at.subcontext], m.recent)
  }

  lemma LearnedRepresents(pool: Pool, names: Names, m: Model, recent: Context)
    requires Represents(pool, names, m, {})
    ensures Represents(pool, names, m.(recent := recent), {})
  {
    var m' := m.(recent := recent);
    forall i | 0 <= i < |names| ensures ContextHolds(pool, names, m', i) {
      assert ContextHolds(pool, names, m, i);
    }
    forall i | 1 <= i < |names| ensures KnownAt(names, m', i) {
      assert KnownAt(names, m, i);
    }
  }

  /** The bytes of the input buffers, one after the other. */
  /** The first buffer from `from` on that has no bytes, or the number of buffers. */
  function FirstEmpty(buffers: seq<seq<u8>>, from: nat): (k: nat)
    ensures from <= |buffers| ==> from <= k <= |buffers|
    ensures forall i :: from <= i < k && i < |buffers| ==> buffers[i] != []
    ensures from <= k < |buffers| ==> buffers[k] == []
    decreases |buffers| - from
  {
    if from >= |buffers| then |buffers| else if buffers[from] == [] then from else FirstEmpty(buffers, from + 1)
  }

  ghost function Flatten(buffers: seq<seq<u8>>): seq<u8> {
    if buffers == [] then [] else buffers[0] + Flatten(buffers[1..])
  }

  lemma FirstSlots(iv: Interval, m: Model, rest: seq<u8>)
    requires iv.Ready() && m.Rested() && rest != [] && AllValid(Slots(m, rest))
    ensures var own := SlotsFrom(m, m.recent, rest[0]);
            var next := Slots(Advance(m, rest[0]), rest[1..]);
            && AllValid(own) && AllValid(next)
            && Emit(iv, Slots(m, rest)) == Sent(iv, own) + Emit(After(iv, own), next)
  {
    SlotsFromValid(m, m.recent, rest[0]);
    AdvanceOk(m, rest[0]);
    SlotsValid(Advance(m, rest[0]), rest[1..]);
    EmitConcat(iv, SlotsFrom(m, m.recent, rest[0]), Slots(Advance(m, rest[0]), rest[1..]));
  }

  lemma EmitNothing(iv: Interval)
    requires iv.Ready()
    ensures Emit(iv, []) == Flush(iv.low)
  {
  }

  /** Somewhere on the way down: the contexts longer than `s` have learned `v`, `c` is the symbol
      of `s`, and the symbol `parent`, if any, waits for the one that `s` has for `v`. */
  ghost predicate AtContext(
    pool: Pool, names: Names, m: Model, v: u8, l: Model, s: Context, c: nat, parent: int, predicted: nat)
  {
    && c < |names| < POOL_SIZE && names[c] == s
    && l.Ok() && |names| + |s| <= m.next + |m.recent|
    && (parent == -1 || 0 < parent < |names|)
    && Represents(pool, names, l, if parent < 0 then {} else {parent as nat})
    && LearnFrom(l, s, v) == LearnFrom(m, m.recent, v)
    && (if parent == -1 then s == m.recent
        else Awaits(names, parent, s, v) && predicted < |names| && names[predicted] == m.recent + [v])
  }

  ghost predicate Awaits(names: Names, parent: nat, s: Context, v: u8)
    requires parent < |names|
  {
    names[parent] != [] && names[parent][1..] == s + [v]
  }

  lemma NextContext(
    pool: Pool, names: Names, m: Model, v: u8, l: Model, s: Context, c: nat, symbol: nat, predicted: nat)
    requires m.Rested() && l.Ok() && l.Count(s, v) == 0 && s != []
    requires 0 < |names| && |names| - 1 + |s| <= m.next + |m.recent|
    requires c < |names| - 1 && names[c] == s && symbol == |names| - 1 > 0 && names[symbol] == s + [v]
    requires Represents(pool, names, LearnIn(l, s, v), {symbol})
    requires LearnFrom(l, s, v) == LearnFrom(m, m.recent, v)
    requires predicted < |names| && names[predicted] == m.recent + [v]
    ensures c != 0 && AtContext(pool, names, m, v, LearnIn(l, s, v), s[1..], pool[c].parent, symbol, predicted)
  {
    hide LearnIn, AllContexts, AllKnown, ContextHolds, AllNamed;
    LearnInOk(l, s, v);
    assert ParentAt(pool, names, c);
    assert (s + [v])[1..] == s[1..] + [v];
  }

  /** `done` of `slots` is coded and in the output after `prefix`, `todo` is not. */
  ghost predicate Coding(
    iv: Interval, slots: seq<Slot>, done: seq<Slot>, todo: seq<Slot>, now: Interval, prefix: seq<u8>, out: seq<u8>)
  {
    && iv.Ready() && AllValid(slots) && AllValid(done) && AllValid(todo)
    && slots == done + todo
    && now == After(iv, done)
    && out == prefix + Sent(iv, done)
  }

  lemma CodingStart(iv: Interval, slots: seq<Slot>, prefix: seq<u8>)
    requires iv.Ready() && AllValid(slots)
    ensures Coding(iv, slots, [], slots, iv, prefix, prefix)
  {
  }

  lemma CodingStep(
    iv: Interval, slots: seq<Slot>, done: seq<Slot>, own: seq<Slot>, rest: seq<Slot>, now: Interval, prefix: seq<u8>, out: seq<u8>)
    requires Coding(iv, slots, done, own + rest, now, prefix, out) && AllValid(own) && AllValid(rest)
    ensures Coding(iv, slots, done + own, rest, After(now, own), prefix, out + Sent(now, own))
    ensures |out| + |Sent(now, own)| <= |prefix| + |Sent(iv, slots)|
  {
    hide Sent, After, Normalize;
    SentSplit(iv, slots, done, own, rest);
    assert out + Sent(now, own) == prefix + Sent(iv, done + own);
    assert slots == (done + own) + rest;
  }

  lemma SlotsFromParts(m: Model, s: Context, v: u8)
    requires m.Ok()
    ensures var own := OwnSlots(s, m.Get(s), v);
            && AllValid(own) && AllValid(SlotsFrom(m, s, v)) && |own| <= |SlotsFrom(m, s, v)|
            && SlotsFrom(m, s, v) == own + SlotsFrom(m, s, v)[|own|..]
            && (s == [] || m.Count(s, v) > 0 ==> SlotsFrom(m, s, v) == own)
            && (s != [] && m.Count(s, v) == 0 ==> SlotsFrom(m, s, v) == own + SlotsFrom(m, s[1..], v))
  {
    SlotsFromValid(m, s, v);
  }

  /** The output for `done + own + rest`, of which `own` is coded next. */
  lemma SentSplit(iv: Interval, slots: seq<Slot>, done: seq<Slot>, own: seq<Slot>, rest: seq<Slot>)
    requires iv.Ready() && AllValid(slots) && AllValid(done) && AllValid(own) && AllValid(rest)
    requires slots == done + (own + rest)
    ensures AllValid(done + own)
    ensures Sent(iv, done + own) == Sent(iv, done) + Sent(After(iv, done), own)
    ensures After(iv, done + own) == After(After(iv, done), own)
    ensures |Sent(iv, done + own)| <= |Sent(iv, slots)|
  {
    hide Sent, After, Normalize;
    SentConcat(iv, done, own);
    assert slots == (done + own) + rest;
    SentConcat(iv, done + own, rest);
  }

  lemma SentOne(iv: Interval, slot: Slot)
    requires iv.Ready() && slot.Valid()
    ensures Sent(iv, [slot]) == Normalize(iv.Narrow(slot)).0
    ensures After(iv, [slot]) == Normalize(iv.Narrow(slot)).1
  {
    assert [slot][1..] == [];
    var (sent, next) := Normalize(iv.Narrow(slot));
    assert Sent(next, []) == [];
  }
}
