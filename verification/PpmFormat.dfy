/** The numbers of ENet's model as they are on the wire: what encoder and decoder must agree on with any other
    build, beyond undoing each other. */
module PpmFormat {
  import opened Words
  import opened RangeInterval
  import opened PpmModel

  function Occurrences(bytes: seq<u8>, v: u8): nat {
    if bytes == [] then 0 else Occurrences(bytes[..|bytes| - 1], v) + if bytes[|bytes| - 1] == v then 1 else 0
  }

  /** How many bytes below k occur at all. */
  function Different(bytes: seq<u8>, k: nat): (n: nat)
    requires k <= 256
    ensures n <= k
  {
    if k == 0 then 0 else Different(bytes, k - 1) + if Occurrences(bytes, k - 1) > 0 then 1 else 0
  }

  /** The table of a context that was followed by these bytes. */
  function TableAfter(s: Context, bytes: seq<u8>): Table {
    if bytes == [] then NewTable(s) else Learned(s, TableAfter(s, bytes[..|bytes| - 1]), bytes[|bytes| - 1])
  }

  lemma {:induction false} DifferentMore(bytes: seq<u8>, v: u8, k: nat)
    requires k <= 256
    ensures Different(bytes + [v], k) == Different(bytes, k) + if v < k && Occurrences(bytes, v) == 0 then 1 else 0
  {
    if k > 0 {
      DifferentMore(bytes, v, k - 1);
      assert (bytes + [v])[..|bytes|] == bytes;
    }
  }

  lemma {:induction false} BelowAtMost(counts: Counts, each: nat, k: nat)
    requires k <= 256 && forall v: nat :: v < 256 ==> counts[v] <= each
    ensures Below(counts, k) <= k * each
  {
    if k > 0 {
      BelowAtMost(counts, each, k - 1);
      assert k * each == (k - 1) * each + each;
    }
  }

  /** When a context is rescaled, and what becomes of the byte that was learned. */
  lemma RescaledWhen(s: Context, t: Table, v: u8)
    requires TableOk(s, t)
    ensures var step, extra := if s == [] then 3 else 2, if s != [] && t.counts[v] == 0 then 5 else 0;
            var t' := Learned(s, t, v);
            if t.counts[v] <= (if s == [] then 249 else 251) && t.total + step + extra <= 65280
            then t' == Table(t.counts[v := t.counts[v] + step], t.escapes + extra, t.total + step + extra)
            else t'.counts[v] == (t.counts[v] + step + 1) / 2 && t'.escapes == (t.escapes + extra + 1) / 2
                 && forall w: nat :: w < 256 && w != v ==> t'.counts[w] == (t.counts[w] + 1) / 2
  {
    hide Below;
  }

  /** Until a byte has followed a context 85 times nothing is rescaled: each byte counts 3 times its occurrences
      in the root and twice elsewhere, the escape 1 in the root and elsewhere 5 for each different byte. */
  lemma {:induction false} CountsAre(s: Context, bytes: seq<u8>)
    requires forall v: nat :: v < 256 ==> Occurrences(bytes, v) <= 84
    ensures var t := TableAfter(s, bytes);
            && TableOk(s, t)
            && (forall v: nat :: v < 256 ==> t.counts[v] == (if s == [] then 3 else 2) * Occurrences(bytes, v))
            && t.escapes == (if s == [] then 1 else 5 * Different(bytes, 256))
            && t.total == if s == [] then 257 + 3 * |bytes| else 2 * |bytes| + 5 * Different(bytes, 256)
  {
    hide Below;
    if bytes == [] {
      NewTableOk(s);
      NoneDifferent(256);
    } else {
      var rest, v := bytes[..|bytes| - 1], bytes[|bytes| - 1];
      assert bytes == rest + [v];
      forall w: nat | w < 256
        ensures Occurrences(rest, w) <= 84
      {
        assert Occurrences(rest, w) <= Occurrences(bytes, w);
      }
      CountsAre(s, rest);
      var t := TableAfter(s, rest);
      DifferentMore(rest, v, 256);
      BelowAtMost(t.counts, if s == [] then 252 else 168, 256);
      LearnedOk(s, t, v);
      assert Occurrences(bytes, v) == Occurrences(rest, v) + 1;
      RescaledWhen(s, t, v);
      hide Learned;
      assert TableAfter(s, bytes) == Learned(s, t, v);
    }
  }

  lemma {:induction false} NoneDifferent(k: nat)
    requires k <= 256
    ensures Different([], k) == 0
  {
    if k > 0 {
      NoneDifferent(k - 1);
    }
  }

  // ------------------------------------------------------------- a known answer

  lemma NarrowIs(iv: Interval, slot: Slot)
    requires iv.Ready() && slot.Valid()
    ensures var n, step := iv.Narrow(slot), iv.range / slot.total;
            n.low == iv.low + slot.under * step && n.range == slot.count * step
  {
    SlotInside(iv.range, slot);
    hide Times, Quotient;
  }

  lemma EmitOne(iv: Interval, slots: seq<Slot>, n: Interval)
    requires iv.Ready() && AllValid(slots) && slots != [] && n == iv.Narrow(slots[0]) && n.Settled()
    ensures n.Ready() && AllValid(slots[1..]) && Emit(iv, slots) == Emit(n, slots[1..])
  {
    hide Times, Quotient;
    NormalizeUnfold(n);
  }

  /** The first byte is coded in the empty root, the second after an empty context of order 1. */
  lemma SlotsOfTwo(v: u8)
    ensures Slots(NewModel, [v, v]) == [Slot(1 + v, 1, 257), Slot(1 + v, 4, 260)]
  {
    var m := NewModel;
    BelowZeros(Zeros(), 0, v);
    BelowNothing(Zeros());
    assert SlotsFrom(m, [], v) == [Slot(1 + v, 1, 257)];
    var t := Table(Zeros()[v := 3], 1, 260);
    assert NewTable([]).counts == Zeros();
    NewTableOk([]);
    RescaledWhen([], NewTable([]), v);
    var m' := Advance(m, v);
    assert m'.recent == [v] && m'.Get([]) == t && m'.Get([v]) == NewTable([v]);
    BelowUpdate(Zeros(), v, 3, v);
    assert SlotsFrom(m', [v], v) == [] + SlotsFrom(m', [], v);
    assert SlotsFrom(m', [], v) == [Slot(1 + v, 4, 260)];
    assert [v, v][1..] == [v] && [v][1..] == [];
    assert Slots(m', [v]) == SlotsFrom(m', [v], v) + Slots(Advance(m', v), []);
  }

  lemma BelowNothing(counts: Counts)
    ensures Below(counts, 0) == 0
  {
  }

  lemma FlushOne(low: nat, top: nat, rest: nat)
    requires 0 < low < WORD && low == top * TOP + rest && rest < TOP
    ensures Flush(low) == [top] + Flush(rest * 0x100)
  {
    FlushShift(low);
    assert low / TOP == top && low % TOP == rest;
  }

  /** The two bytes "aa" are sent as 61 FE 7F 46. */
  lemma EncodingOfTwo()
    ensures Encoding([0x61, 0x61]) == [0x61, 0xFE, 0x7F, 0x46]
  {
    hide Slots, Emit, Normalize, Flush, Encoding, Times, Quotient, Interval.Narrow;
    var slots := [Slot(0x62, 1, 257), Slot(0x62, 4, 260)];
    EncodingIs([0x61, 0x61]);
    SlotsOfTwo(0x61);
    var iv := Interval(0, WORD - 1);
    NarrowIs(iv, slots[0]);
    var iv1 := Interval(0x619E619E, 0xFF00FF);
    assert iv.Narrow(slots[0]) == iv1;
    EmitOne(iv, slots, iv1);
    NarrowIs(iv1, slots[1]);
    var iv2 := Interval(0x61FE7F46, 0x3EC50);
    assert iv1.Narrow(slots[1]) == iv2;
    EmitOne(iv1, slots[1..], iv2);
    FlushOne(0x61FE7F46, 0x61, 0xFE7F46);
    FlushOne(0xFE7F4600, 0xFE, 0x7F4600);
    FlushOne(0x7F460000, 0x7F, 0x460000);
    FlushOne(0x46000000, 0x46, 0);
    EndOfFlush();
    EmitFlushes(iv2);
    assert slots[1..][1..] == [];
  }

  lemma EndOfFlush()
    ensures Flush(0) == []
  {
  }

  lemma EmitFlushes(iv: Interval)
    requires iv.Ready()
    ensures Emit(iv, []) == Flush(iv.low)
  {
  }
}
