/** The slot-level loops of ENet's range coder: narrowing, sending and reading bytes. */
module SlotCoder {
  import opened Words
  import opened RangeInterval

  /** The lowest `bits` bits of a ^ b. */
  function Xor(a: nat, b: nat, bits: nat): nat {
    if bits == 0 then 0 else 2 * Xor(a / 2, b / 2, bits - 1) + (a + b) % 2
  }

  function Shifted(a: nat, bits: nat): nat {
    if bits == 0 then a else Shifted(a / 2, bits - 1)
  }

  function Power2(bits: nat): (p: nat)
    ensures p > 0
  {
    if bits == 0 then 1 else 2 * Power2(bits - 1)
  }

  lemma {:induction false} ShiftedIs(a: nat, bits: nat)
    ensures Shifted(a, bits) * Power2(bits) <= a < (Shifted(a, bits) + 1) * Power2(bits)
  {
    if bits > 0 {
      ShiftedIs(a / 2, bits - 1);
      var s, p := Shifted(a / 2, bits - 1), Power2(bits - 1);
      TwiceTimes(s, p);
      TwiceTimes(s + 1, p);
    }
  }

  lemma TwiceTimes(s: nat, p: nat)
    ensures s * (2 * p) == 2 * (s * p)
  {
  }

  lemma {:induction false} XorShifted(a: nat, b: nat, n: nat, bits: nat)
    requires bits <= n
    ensures Shifted(Xor(a, b, n), bits) == Xor(Shifted(a, bits), Shifted(b, bits), n - bits)
  {
    if bits > 0 {
      XorShifted(a / 2, b / 2, n - 1, bits - 1);
    }
  }

  lemma {:induction false} XorZero(a: nat, b: nat, bits: nat)
    requires a < Power2(bits) && b < Power2(bits)
    ensures Xor(a, b, bits) == 0 <==> a == b
  {
    if bits > 0 {
      SameHalves(a, b);
      XorZero(a / 2, b / 2, bits - 1);
    }
  }

  lemma SameHalves(a: nat, b: nat)
    ensures a == b <==> a / 2 == b / 2 && (a + b) % 2 == 0
  {
    var x, y, r, s := a / 2, b / 2, a % 2, b % 2;
    assert a == 2 * x + r && b == 2 * y + s;
    TwiceMore(x + y, r + s);
  }

  lemma TwiceMore(x: nat, y: nat)
    ensures (2 * x + y) % 2 == y % 2
  {
  }

  lemma {:induction false} ShiftedBelow(a: nat, bits: nat, n: nat)
    requires bits <= n && a < Power2(n)
    ensures Shifted(a, bits) < Power2(n - bits)
  {
    if bits > 0 {
      ShiftedBelow(a / 2, bits - 1, n - 1);
    }
  }

  lemma TopIsPower()
    ensures Power2(24) == TOP && Power2(32) == WORD && Power2(8) == 0x100
  {
    assert Power2(8) == 0x100;
    assert Power2(16) == 0x1_0000;
    assert Power2(24) == TOP;
  }

  lemma QuotientFrom(a: nat, s: nat)
    requires s * TOP <= a < (s + 1) * TOP
    ensures a / TOP == s
  {
  }

  /** The test of the normalising loop, `(low ^ (low + range)) >= TOP` on 32-bit words, is the one that
      Interval.Straddles makes. */
  lemma TopBytesDiffer(low: u32, range: u32)
    ensures Xor(low, (low + range) % WORD, 32) >= TOP <==> Interval(low, range).Straddles()
  {
    hide Xor, Shifted, Power2;
    var high: u32 := (low + range) % WORD;
    var x := Xor(low, high, 32);
    TopIsPower();
    ShiftedIs(x, 24);
    ShiftedIs(low, 24);
    ShiftedIs(high, 24);
    XorShifted(low, high, 32, 24);
    ShiftedBelow(low, 24, 32);
    ShiftedBelow(high, 24, 32);
    XorZero(Shifted(low, 24), Shifted(high, 24), 8);
    QuotientFrom(low, Shifted(low, 24));
    QuotientFrom(high, Shifted(high, 24));
  }

  /** The test that ends the normalising loop, and the clipping when it does not. */
  method ClipRange(low: u32, range: u32) returns (settled: bool, newRange: u32)
    ensures settled == Interval(low, range).Settled()
    ensures Interval(low, newRange) == if settled then Interval(low, range) else Interval(low, range).Clip()
  {
    newRange := range;
    TopBytesDiffer(low, range);
    if Xor(low, (low + range) % WORD, 32) >= TOP {
      if range >= BOTTOM {
        return true, range;
      }
      newRange := (WORD - low) % BOTTOM;
    }
    return false, newRange;
  }

  /** ENET_RANGE_CODER_ENCODE: `ok` is false when the output is full. */
  method EncodeSlot(low: u32, range: u32, slot: Slot, outData: array<u8>, size: nat)
    returns (ok: bool, newLow: u32, newRange: u32, newSize: nat)
    requires Interval(low, range).Ready() && slot.Valid() && size <= outData.Length
    modifies outData
    ensures var (sent, next) := Normalize(Interval(low, range).Narrow(slot));
            if ok then
              && newSize == size + |sent| <= outData.Length
              && outData[..newSize] == old(outData[..size]) + sent
              && Interval(newLow, newRange) == next
            else outData.Length < size + |sent|
  {
    var step: u32 := range / slot.total;
    SlotInside(range, slot);
    newLow := low + slot.under * step;
    newRange := slot.count * step;
    assert Interval(newLow, newRange) == Interval(low, range).Narrow(slot);
    ok, newLow, newRange, newSize := SendTopBytes(newLow, newRange, outData, size);
  }

  /** The loop of ENET_RANGE_CODER_ENCODE. */
  method SendTopBytes(low: u32, range: u32, outData: array<u8>, size: nat)
    returns (ok: bool, newLow: u32, newRange: u32, newSize: nat)
    requires Interval(low, range).Valid() && size <= outData.Length
    modifies outData
    ensures var (sent, next) := Normalize(Interval(low, range));
            if ok then
              && newSize == size + |sent| <= outData.Length
              && outData[..newSize] == old(outData[..size]) + sent
              && Interval(newLow, newRange) == next
            else outData.Length < size + |sent|
  {
    hide Normalize, Interval.Settled, Interval.Clip;
    newLow, newRange, newSize := low, range, size;
    ghost var (sent, next) := Normalize(Interval(low, range));
    while true
      invariant size <= newSize <= outData.Length
      invariant Interval(newLow, newRange).Valid()
      invariant outData[..newSize] + Normalize(Interval(newLow, newRange)).0 == old(outData[..size]) + sent
      invariant Normalize(Interval(newLow, newRange)).1 == next
      decreases Steps(Interval(newLow, newRange)).0, Steps(Interval(newLow, newRange)).1
    {
      ghost var iv := Interval(newLow, newRange);
      NormalizeUnfold(iv);
      var settled;
      settled, newRange := ClipRange(newLow, newRange);
      if settled {
        break;
      }
      if newSize >= outData.Length {
        return false, newLow, newRange, newSize;
      }
      outData[newSize] := newLow / TOP;
      newSize := newSize + 1;
      assert outData[..newSize] == outData[..newSize - 1] + [iv.low / TOP];
      newRange := ShiftWord(newRange);
      newLow := ShiftWord(newLow);
      assert Interval(newLow, newRange) == iv.Clip().Shift();
    }
    return true, newLow, newRange, newSize;
  }

  /** ENET_RANGE_CODER_FLUSH. */
  method FlushLow(low: u32, outData: array<u8>, size: nat) returns (ok: bool, newSize: nat)
    requires size <= outData.Length
    modifies outData
    ensures if ok then
              newSize == size + |Flush(low)| <= outData.Length && outData[..newSize] == old(outData[..size]) + Flush(low)
            else outData.Length < size + |Flush(low)|
  {
    var rest: u32 := low;
    newSize := size;
    while rest != 0
      invariant size <= newSize <= outData.Length
      invariant outData[..newSize] + Flush(rest) == old(outData[..size]) + Flush(low)
      decreases FlushSteps(rest)
    {
      FlushShift(rest);
      if newSize >= outData.Length {
        assert |Flush(rest)| > 0;
        return false, newSize;
      }
      outData[newSize] := rest / TOP;
      newSize := newSize + 1;
      rest := ShiftWord(rest);
    }
    return true, newSize;
  }

  /** ENET_RANGE_CODER_READ: the range becomes one step, and the quotient is how many steps
      the code word lies above the low end. */
  method ReadCode(low: u32, range: u32, code: u32, total: nat) returns (step: u32, quotient: nat)
    requires BOTTOM <= range && 0 < total < BOTTOM
    ensures step == range / total == Quotient(range, total) && 0 < step
    ensures quotient == Quotient((code - low) % WORD, Quotient(range, total))
  {
    step := range / total;
    assert step > 0 by { SlotInside(range, Slot(0, 1, total)); }
    QuotientIs(range, total);
    quotient := (code - low) % WORD / step;
    QuotientIs((code - low) % WORD, step);
  }

  /** ENET_RANGE_CODER_DECODE, after ENET_RANGE_CODER_READ. The slot lies in the total, and the interval in
      the words, as long as an encoder can have sent the stream. */
  method DecodeSlot(input: seq<u8>, low: u32, step: u32, code: u32, pos: nat, slot: Slot, ghost range: u32)
    returns (newLow: u32, newRange: u32, newCode: u32, newPos: nat)
    requires pos <= |input| && 0 < slot.count <= slot.total < BOTTOM <= range && step == Quotient(range, slot.total)
    ensures newPos <= |input| && BOTTOM <= newRange
    ensures slot.Valid() && Interval(low, range).Ready() ==>
              Decoder(Interval(newLow, newRange), newCode, input[newPos..])
              == Consume(Decoder(Interval(low, range), code, input[pos..]), slot)
  {
    SlotInside(range, slot.(under := 0));
    newLow := (low + slot.under * step) % WORD;
    newRange := slot.count * step;
    if slot.Valid() && Interval(low, range).Ready() {
      NarrowIs(low, range, slot);
    }
    hide Times, Quotient;
    newLow, newRange, newCode, newPos := ReadBytes(input, newLow, newRange, code, pos);
  }

  lemma NarrowIs(low: u32, range: u32, slot: Slot)
    requires slot.Valid() && Interval(low, range).Ready()
    ensures var step := Quotient(range, slot.total);
            Interval(low, range).Narrow(slot) == Interval((low + slot.under * step) % WORD, slot.count * step)
  {
    hide Times, Quotient;
    SlotInside(range, slot);
    var n := Interval(low, range).Narrow(slot);
    assert n.low < WORD;
  }

  /** One byte more at the bottom of the code word, or a zero when the input is used up. */
  method NextByte(input: seq<u8>, code: u32, pos: nat) returns (newCode: u32, newPos: nat)
    requires pos <= |input|
    ensures newPos <= |input| && input[newPos..] == Drop(input[pos..], 1)
    ensures newCode == ShiftWord(code) + ByteAt(input[pos..], 0)
  {
    newCode, newPos := ShiftWord(code), pos;
    LowByteFree(code);
    if newPos < |input| {
      newCode := newCode + input[newPos];
      newPos := newPos + 1;
    }
  }

  /** The loop of ENET_RANGE_CODER_DECODE. */
  method ReadBytes(input: seq<u8>, low: u32, range: u32, code: u32, pos: nat)
    returns (newLow: u32, newRange: u32, newCode: u32, newPos: nat)
    requires pos <= |input| && 0 < range
    ensures newPos <= |input| && BOTTOM <= newRange
    ensures Interval(low, range).Valid() ==>
              Decoder(Interval(newLow, newRange), newCode, input[newPos..])
              == NormalizeDecoder(Decoder(Interval(low, range), code, input[pos..]))
  {
    newLow, newRange, newCode, newPos := low, range, code, pos;
    ghost var valid := Interval(low, range).Valid();
    ghost var goal := if valid then NormalizeDecoder(Decoder(Interval(low, range), code, input[pos..])) else Decoder(Interval(0, 1), 0, []);
    while true
      invariant newPos <= |input| && 0 < newRange
      invariant valid ==> Interval(newLow, newRange).Valid() && NormalizeDecoder(Decoder(Interval(newLow, newRange), newCode, input[newPos..])) == goal
      decreases LooseSteps(Interval(newLow, newRange)).0, LooseSteps(Interval(newLow, newRange)).1, LooseSteps(Interval(newLow, newRange)).2
    {
      ghost var iv := Interval(newLow, newRange);
      ghost var d := Decoder(iv, newCode, input[newPos..]);
      var settled;
      settled, newRange := ClipRange(newLow, newRange);
      if settled {
        break;
      }
      RoundEnds(iv);
      if valid {
        NormalizeOnce(d);
      }
      newCode, newPos := NextByte(input, newCode, newPos);
      newRange := ShiftWord(newRange);
      newLow := ShiftWord(newLow);
      assert Decoder(Interval(newLow, newRange), newCode, input[newPos..]) == d.(iv := iv.Clip()).Shift();
    }
  }

  /** What every round of the loop makes less, whatever interval it starts from. */
  function LooseSteps(iv: Interval): (bool, bool, int) {
    (!iv.Valid(), Steps(iv).0 || !iv.Valid(), if iv.Valid() then Steps(iv).1 else iv.range)
  }

  lemma RoundEnds(iv: Interval)
    requires iv.low < WORD && 0 < iv.range < WORD && !iv.Settled()
    ensures var s := iv.Clip().Shift();
            && 0 < s.range && (iv.Valid() ==> s.Valid())
            && (LooseSteps(s).0 ==> LooseSteps(iv).0)
            && (LooseSteps(s).0 == LooseSteps(iv).0 ==>
                  (LooseSteps(s).1 ==> LooseSteps(iv).1)
                  && (LooseSteps(s).1 == LooseSteps(iv).1 ==> 0 <= LooseSteps(s).2 < LooseSteps(iv).2))
  {
    if iv.Valid() {
      ShiftKeepsValid(iv);
    } else {
      ShiftOfLoose(iv);
    }
  }

  /** ENET_RANGE_CODER_SEED: the first four bytes, or zeros for those that are missing. */
  method SeedCode(input: seq<u8>) returns (code: u32, pos: nat)
    ensures code == Window(input) && pos <= |input| && input[pos..] == Drop(input, 4)
  {
    code, pos := 0, 0;
    if pos < |input| { code, pos := code + (input[pos] as nat) * TOP, pos + 1; }
    if pos < |input| { code, pos := code + (input[pos] as nat) * 0x1_0000, pos + 1; }
    if pos < |input| { code, pos := code + (input[pos] as nat) * 0x100, pos + 1; }
    if pos < |input| { code, pos := code + input[pos], pos + 1; }
  }
}
