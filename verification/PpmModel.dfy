/** The adaptive order-2 model of ENet's compressor, on values: one frequency table per
    context, a context being the string of bytes that leads to it. This is the reference
    that the pool of symbols in RangeCoder is proved to represent. */
module PpmModel {
  import opened Words
  import opened RangeInterval

  const SYMBOL_DELTA: nat := 3
  const SUBCONTEXT_ORDER: nat := 2
  const SUBCONTEXT_SYMBOL_DELTA: nat := 2
  const SUBCONTEXT_ESCAPE_DELTA: nat := 5
  const POOL_SIZE: nat := 4096

  type Context = seq<u8>

  /** Every byte has the weight `Minimum` in the root context and none elsewhere. */
  function Minimum(s: Context): nat {
    if s == [] then 1 else 0
  }

  function Delta(s: Context): nat {
    if s == [] then SYMBOL_DELTA else SUBCONTEXT_SYMBOL_DELTA
  }

  /** The largest count a symbol may have before its table is rescaled. */
  function CountLimit(s: Context): nat {
    0xFF - 2 * Delta(s) + Minimum(s)
  }

  // ------------------------------------------------------- frequency tables

  /** How often each byte counts: a byte that was never seen counts 0. */
  type Counts = c: seq<nat> | |c| == 256 witness seq(256, i => 0)

  function Zeros(): Counts {
    seq(256, i => 0)
  }

  /** The sum of the counts of the bytes below `v`. */
  function Below(counts: Counts, v: nat): (r: nat)
    requires v <= 256
  {
    if v == 0 then 0 else Below(counts, v - 1) + counts[v - 1]
  }

  /** Every count rounded up to half. */
  function Halve(counts: Counts): Counts {
    seq(256, i requires 0 <= i < 256 => counts[i] - counts[i] / 2)
  }

  datatype Table = Table(counts: Counts, escapes: nat, total: nat)

  function NewTable(s: Context): Table {
    if s == [] then Table(Zeros(), 1, 1 + 256) else Table(Zeros(), 0, 0)
  }

  function Rescaled(s: Context, t: Table): Table {
    var counts := Halve(t.counts);
    var escapes := t.escapes - t.escapes / 2;
    Table(counts, escapes, Below(counts, 256) + escapes + 256 * Minimum(s))
  }

  /** The symbol's count goes up ... */
  function Counted(s: Context, t: Table, v: u8): Table {
    t.(counts := t.counts[v := t.counts[v] + Delta(s)])
  }

  /** ... and then the context's own numbers do. `count` is the weight the symbol had before. */
  function Grown(s: Context, t: Table, count: nat): Table {
    var escape := if count == 0 then SUBCONTEXT_ESCAPE_DELTA else 0;
    t.(escapes := t.escapes + escape, total := t.total + escape + Delta(s))
  }

  function Settled(s: Context, t: Table, count: nat): Table {
    var grown := Grown(s, t, count);
    if count > CountLimit(s) || grown.total > BOTTOM - 0x100 then Rescaled(s, grown) else grown
  }

  function Learned(s: Context, t: Table, v: u8): Table {
    Settled(s, Counted(s, t, v), t.counts[v] + Minimum(s))
  }

  /** The stored total is the sum of its parts, every count leaves room for one more
      update in 8 bits, and a context with symbols can also be escaped. */
  ghost predicate TableOk(s: Context, t: Table) {
    && (forall v: nat :: v < 256 ==> t.counts[v] <= 0xFF - Delta(s))
    && t.total == t.escapes + Below(t.counts, 256) + 256 * Minimum(s)
    && t.total <= BOTTOM - 0x100
    && (s == [] || 0 < Below(t.counts, 256) ==> 0 < t.escapes)
    && (s != [] && 0 < t.escapes ==> 0 < Below(t.counts, 256))
  }

  lemma {:induction false} BelowMonotone(counts: Counts, lo: nat, hi: nat)
    requires lo <= hi <= 256
    ensures Below(counts, lo) <= Below(counts, hi)
    decreases hi
  {
    if lo < hi {
      BelowMonotone(counts, lo, hi - 1);
    }
  }

  lemma {:induction false} BelowUpdate(counts: Counts, v: u8, c: nat, k: nat)
    requires k <= 256
    ensures Below(counts[v := c], k) == Below(counts, k) + if v < k then c - counts[v] else 0
    decreases k
  {
    if k > 0 {
      BelowUpdate(counts, v, c, k - 1);
    }
  }

  lemma {:induction false} BelowZeros(counts: Counts, lo: nat, hi: nat)
    requires lo <= hi <= 256
    requires forall v: nat :: lo <= v < hi ==> counts[v] == 0
    ensures Below(counts, lo) == Below(counts, hi)
    decreases hi
  {
    if lo < hi {
      BelowZeros(counts, lo, hi - 1);
    }
  }

  lemma {:induction false} BelowHalve(counts: Counts, k: nat)
    requires k <= 256
    ensures 2 * Below(Halve(counts), k) <= Below(counts, k) + k
    ensures Below(counts, k) <= 2 * Below(Halve(counts), k)
    decreases k
  {
    if k > 0 {
      BelowHalve(counts, k - 1);
    }
  }

  lemma NewTableOk(s: Context)
    ensures TableOk(s, NewTable(s))
  {
    BelowZeros(NewTable(s).counts, 0, 256);
  }

  lemma {:induction false} CountedSum(s: Context, t: Table, v: u8)
    requires TableOk(s, t)
    ensures Below(Counted(s, t, v).counts, 256) == Below(t.counts, 256) + Delta(s)
    ensures t.counts[v] <= Below(t.counts, 256)
  {
    BelowUpdate(t.counts, v, t.counts[v] + Delta(s), 256);
    BelowMonotone(t.counts, v + 1, 256);
  }

  lemma {:induction false} RescaledOk(s: Context, t: Table)
    requires forall v: nat :: v < 256 ==> t.counts[v] <= 0xFF
    requires t.total == t.escapes + Below(t.counts, 256) + 256 * Minimum(s)
    requires t.total < BOTTOM && 0 < t.escapes && 0 < Below(t.counts, 256)
    ensures TableOk(s, Rescaled(s, t))
  {
    BelowHalve(t.counts, 256);
  }

  /** Before a rescale nothing exceeds 8 or 16 bits. */
  lemma {:induction false} GrownFits(s: Context, t: Table, v: u8)
    requires TableOk(s, t)
    ensures t.counts[v] + Delta(s) < 0x100
    ensures var grown := Grown(s, Counted(s, t, v), t.counts[v] + Minimum(s));
            && grown.total < BOTTOM
            && grown.total == grown.escapes + Below(grown.counts, 256) + 256 * Minimum(s)
            && TableOk(s, Rescaled(s, grown))
  {
    CountedSum(s, t, v);
    RescaledOk(s, Grown(s, Counted(s, t, v), t.counts[v] + Minimum(s)));
  }

  /** Learning keeps every table consistent. */
  lemma {:induction false} LearnedOk(s: Context, t: Table, v: u8)
    requires TableOk(s, t)
    ensures TableOk(s, Learned(s, t, v))
  {
    CountedSum(s, t, v);
    GrownFits(s, t, v);
  }

  // ------------------------------------------------------------- the model

  /** All contexts, the last bytes coded, and how many symbols of the pool are in use. */
  datatype Model = Model(tables: map<Context, Table>, recent: Context, next: nat) {
    function Get(s: Context): Table {
      if s in tables then tables[s] else NewTable(s)
    }

    function Put(s: Context, t: Table): Model {
      this.(tables := tables[s := t])
    }

    function Count(s: Context, v: u8): nat {
      Get(s).counts[v]
    }

    ghost predicate Ok() {
      && (forall s :: s in tables ==> TableOk(s, tables[s]))
      && |recent| <= SUBCONTEXT_ORDER
      && 1 <= next
    }

    /** Between two input bytes there is room for the symbols of one more byte. */
    ghost predicate Rested() {
      Ok() && next < POOL_SIZE - SUBCONTEXT_ORDER
    }
  }

  const NewModel := Model(map[], [], 1)

  /** One context learns `v`; a byte it has not seen takes a symbol from the pool. */
  function LearnIn(m: Model, s: Context, v: u8): Model {
    var t := m.Get(s);
    m.Put(s, Learned(s, t, v)).(next := m.next + if t.counts[v] == 0 then 1 else 0)
  }

  /** The contexts from `s` down learn `v`, up to the first that already knew it. */
  function LearnFrom(m: Model, s: Context, v: u8): Model
    decreases |s|
  {
    var learned := LearnIn(m, s, v);
    if s == [] || m.Count(s, v) > 0 then learned else LearnFrom(learned, s[1..], v)
  }

  function Suffix(recent: Context, v: u8): Context {
    var longer := recent + [v];
    if |longer| <= SUBCONTEXT_ORDER then longer else longer[1..]
  }

  /** A pool with no room for the symbols of one more byte starts again from nothing. */
  function Advance(m: Model, v: u8): Model {
    var learned := LearnFrom(m, m.recent, v);
    if learned.next >= POOL_SIZE - SUBCONTEXT_ORDER then NewModel
    else learned.(recent := Suffix(m.recent, v))
  }

  function SlotOf(s: Context, t: Table, v: u8): Slot {
    Slot(t.escapes + Below(t.counts, v) + v * Minimum(s), t.counts[v] + Minimum(s), t.total)
  }

  function EscapeSlot(t: Table): Slot {
    Slot(0, t.escapes, t.total)
  }

  predicate CanEscape(t: Table) {
    0 < t.escapes < t.total
  }

  /** What one context codes for `v`: its slot, or an escape if it does not know it. */
  function OwnSlots(s: Context, t: Table, v: u8): seq<Slot> {
    if s == [] || t.counts[v] > 0 then [SlotOf(s, t, v)]
    else if CanEscape(t) then [EscapeSlot(t)] else []
  }

  /** The slots coded for `v`: an escape from each context that does not know it, then its own. */
  function SlotsFrom(m: Model, s: Context, v: u8): seq<Slot>
    decreases |s|
  {
    var own := OwnSlots(s, m.Get(s), v);
    if s == [] || m.Count(s, v) > 0 then own else own + SlotsFrom(m, s[1..], v)
  }

  function Slots(m: Model, msg: seq<u8>): seq<Slot>
    decreases |msg|
  {
    if msg == [] then []
    else SlotsFrom(m, m.recent, msg[0]) + Slots(Advance(m, msg[0]), msg[1..])
  }

  const Everything := Interval(0, WORD - 1)

  /** The compressed form of a message. */
  function Encoding(msg: seq<u8>): seq<u8> {
    SlotsValid(NewModel, msg);
    Emit(Everything, Slots(NewModel, msg))
  }

  lemma EncodingIs(msg: seq<u8>)
    ensures AllValid(Slots(NewModel, msg))
    ensures Encoding(msg) == Emit(Interval(0, WORD - 1), Slots(NewModel, msg))
  {
    SlotsValid(NewModel, msg);
  }

  lemma GetOk(m: Model, s: Context)
    requires m.Ok()
    ensures TableOk(s, m.Get(s))
  {
    NewTableOk(s);
  }

  lemma LearnInOk(m: Model, s: Context, v: u8)
    requires m.Ok()
    ensures LearnIn(m, s, v).Ok()
  {
    GetOk(m, s);
    LearnedOk(s, m.Get(s), v);
  }

  lemma {:induction false} LearnFromOk(m: Model, s: Context, v: u8)
    requires m.Ok()
    ensures var l := LearnFrom(m, s, v);
            l.Ok() && l.recent == m.recent && m.next <= l.next <= m.next + |s| + 1
    decreases |s|
  {
    LearnInOk(m, s, v);
    if s != [] && m.Count(s, v) == 0 {
      LearnFromOk(LearnIn(m, s, v), s[1..], v);
    }
  }

  lemma AdvanceOk(m: Model, v: u8)
    requires m.Rested()
    ensures Advance(m, v).Rested()
    ensures LearnFrom(m, m.recent, v).next <= POOL_SIZE
  {
    LearnFromOk(m, m.recent, v);
  }

  lemma SlotOfValid(s: Context, t: Table, v: u8)
    requires TableOk(s, t) && (s == [] || t.counts[v] > 0)
    ensures SlotOf(s, t, v).Valid()
    ensures 0 < t.escapes <= SlotOf(s, t, v).under
    ensures s != [] ==> CanEscape(t)
  {
    BelowMonotone(t.counts, v + 1, 256);
    BelowMonotone(t.counts, 0, v);
  }

  lemma {:induction false} SlotsFromValid(m: Model, s: Context, v: u8)
    requires m.Ok()
    ensures AllValid(SlotsFrom(m, s, v)) && SlotsFrom(m, s, v) != []
    decreases |s|
  {
    GetOk(m, s);
    if s == [] || m.Count(s, v) > 0 {
      SlotOfValid(s, m.Get(s), v);
    } else {
      SlotsFromValid(m, s[1..], v);
    }
  }

  lemma {:induction false} SlotsValid(m: Model, msg: seq<u8>)
    requires m.Rested()
    ensures AllValid(Slots(m, msg))
    decreases |msg|
  {
    if msg != [] {
      SlotsFromValid(m, m.recent, msg[0]);
      AdvanceOk(m, msg[0]);
      SlotsValid(Advance(m, msg[0]), msg[1..]);
    }
  }

  /** A context's slots do not depend on what longer contexts have learned. */
  lemma {:induction false} SlotsFromLocal(m: Model, l: Model, s: Context, v: u8)
    requires forall r: Context :: |r| <= |s| ==> l.Get(r) == m.Get(r)
    ensures SlotsFrom(l, s, v) == SlotsFrom(m, s, v)
    decreases |s|
  {
    if s != [] {
      SlotsFromLocal(m, l, s[1..], v);
    }
  }

  lemma SlotsAfterLearning(m: Model, s: Context, v: u8)
    requires s != []
    ensures SlotsFrom(LearnIn(m, s, v), s[1..], v) == SlotsFrom(m, s[1..], v)
  {
    SlotsFromLocal(m, LearnIn(m, s, v), s[1..], v);
  }

  // ------------------------------------- learning in the decoder's order

  /** The contexts from `s` down to `at` learn `v`. */
  function LearnThrough(m: Model, s: Context, at: Context, v: u8): Model
    decreases |s|
  {
    var learned := LearnIn(m, s, v);
    if s == at || s == [] then learned else LearnThrough(learned, s[1..], at, v)
  }

  /** The contexts from `s` down to `at`, without `at`, learn `v`. */
  function LearnAbove(m: Model, s: Context, at: Context, v: u8): Model
    decreases |s|
  {
    if s == at || s == [] then m else LearnAbove(LearnIn(m, s, v), s[1..], at, v)
  }

  /** The first context from `s` down that knows `v`, or the root. */
  function FirstKnowing(m: Model, s: Context, v: u8): Context
    decreases |s|
  {
    if s == [] || m.Count(s, v) > 0 then s else FirstKnowing(m, s[1..], v)
  }

  ghost predicate SuffixOf(at: Context, s: Context) {
    |at| <= |s| && at == s[|s| - |at|..]
  }

  lemma ShorterSuffix(at: Context, s: Context)
    requires SuffixOf(at, s)
    ensures at != [] ==> SuffixOf(at[1..], s)
    ensures at != s ==> s != [] && SuffixOf(at, s[1..])
  {
  }

  lemma LearnCommutes(m: Model, s: Context, r: Context, v: u8)
    requires s != r
    ensures LearnIn(LearnIn(m, s, v), r, v) == LearnIn(LearnIn(m, r, v), s, v)
  {
    var a, b := LearnIn(LearnIn(m, s, v), r, v), LearnIn(LearnIn(m, r, v), s, v);
    assert a.tables == m.tables[s := Learned(s, m.Get(s), v)][r := Learned(r, m.Get(r), v)];
    assert b.tables == m.tables[r := Learned(r, m.Get(r), v)][s := Learned(s, m.Get(s), v)];
    assert a.tables == b.tables;
  }

  /** The context where the byte was found may learn it first, the longer ones afterwards. */
  lemma {:induction false} FoundFirst(m: Model, s: Context, at: Context, v: u8)
    requires SuffixOf(at, s)
    ensures LearnAbove(LearnIn(m, at, v), s, at, v) == LearnThrough(m, s, at, v)
    decreases |s|
  {
    if s != at {
      assert SuffixOf(at, s[1..]);
      LearnCommutes(m, at, s, v);
      FoundFirst(LearnIn(m, s, v), s[1..], at, v);
    }
  }

  lemma {:induction false} FirstKnowingIsSuffix(m: Model, s: Context, v: u8)
    ensures SuffixOf(FirstKnowing(m, s, v), s)
    decreases |s|
  {
    if s != [] && m.Count(s, v) == 0 {
      FirstKnowingIsSuffix(m, s[1..], v);
    }
  }

  lemma {:induction false} LearnThroughFirst(m: Model, s: Context, v: u8)
    ensures LearnThrough(m, s, FirstKnowing(m, s, v), v) == LearnFrom(m, s, v)
    decreases |s|
  {
    if s != [] && m.Count(s, v) == 0 {
      FirstKnowingIsSuffix(m, s[1..], v);
      FirstKnowingLocal(m, LearnIn(m, s, v), s[1..], v);
      LearnThroughFirst(LearnIn(m, s, v), s[1..], v);
    }
  }

  lemma {:induction false} FirstKnowingLocal(m: Model, l: Model, s: Context, v: u8)
    requires forall r: Context :: |r| <= |s| ==> l.Get(r) == m.Get(r)
    ensures FirstKnowing(l, s, v) == FirstKnowing(m, s, v)
    decreases |s|
  {
    if s != [] {
      FirstKnowingLocal(m, l, s[1..], v);
    }
  }

  /** As Advance, for a byte that the decoder found in the context `at`. */
  function AdvanceAt(m: Model, v: u8, at: Context): Model {
    var learned := LearnThrough(m, m.recent, at, v);
    if learned.next >= POOL_SIZE - SUBCONTEXT_ORDER then NewModel
    else learned.(recent := Suffix(m.recent, v))
  }

  lemma {:induction false} LearnThroughOk(m: Model, s: Context, at: Context, v: u8)
    requires m.Ok()
    ensures var l := LearnThrough(m, s, at, v);
            l.Ok() && l.recent == m.recent && m.next <= l.next <= m.next + |s| + 1
    decreases |s|
  {
    LearnInOk(m, s, v);
    if s != at && s != [] {
      LearnThroughOk(LearnIn(m, s, v), s[1..], at, v);
    }
  }

  lemma AdvanceAtOk(m: Model, v: u8, at: Context)
    requires m.Rested()
    ensures AdvanceAt(m, v, at).Rested()
    ensures LearnThrough(m, m.recent, at, v).next <= POOL_SIZE
  {
    LearnThroughOk(m, m.recent, at, v);
  }

  lemma AdvanceAtFirst(m: Model, v: u8)
    ensures AdvanceAt(m, v, FirstKnowing(m, m.recent, v)) == Advance(m, v)
  {
    LearnThroughFirst(m, m.recent, v);
  }
}
