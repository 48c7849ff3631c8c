/** The carry-less 32-bit range coder at the bottom of ENet's compressor.

    The encoder keeps an interval [low, low + range) of 32-bit code words. Coding a
    symbol narrows the interval to the symbol's slot; the normalising loop then sends
    out leading bytes. There is no carry propagation: when the interval is short and
    straddles a byte boundary it is clipped at that boundary instead. */
module RangeInterval {
  import opened Words

  const TOP: nat := 0x100_0000
  const BOTTOM: nat := 0x1_0000

  /** Product and quotient by repeated addition and subtraction. They are a * b and a / b
      (TimesIs, QuotientIs); the definitions use these so that the proofs meet nonlinear
      arithmetic only where a lemma asks for it. */
  function Times(a: nat, b: nat): nat {
    if a == 0 then 0 else Times(a - 1, b) + b
  }

  function Quotient(a: nat, b: nat): nat {
    if b == 0 || a < b then 0 else 1 + Quotient(a - b, b)
  }

  lemma {:induction false} TimesIs(a: nat, b: nat)
    ensures Times(a, b) == a * b
  {
    if a > 0 {
      TimesIs(a - 1, b);
    }
  }

  lemma {:induction false} QuotientIs(a: nat, b: nat)
    requires 0 < b
    ensures Quotient(a, b) == a / b
    decreases a
  {
    if a >= b {
      QuotientIs(a - b, b);
      DivStep(a, b);
    }
  }

  lemma DivStep(a: nat, b: nat)
    requires 0 < b <= a
    ensures a / b == (a - b) / b + 1
  {
    var q := (a - b) / b;
    assert a - b == q * b + (a - b) % b;
    assert a == (q + 1) * b + (a - b) % b;
    DivUnique(a, b, q + 1, (a - b) % b);
  }

  lemma DivUnique(a: nat, b: nat, q: nat, r: nat)
    requires 0 < b && a == q * b + r && r < b
    ensures a / b == q
  {
    var q', r' := a / b, a % b;
    assert q' * b + r' == q * b + r;
    MulGap(q, q', b);
    MulGap(q', q, b);
  }

  lemma MulGap(x: nat, y: nat, b: nat)
    ensures x < y ==> x * b + b <= y * b
  {
    if x < y { MulLe(x + 1, y, b); }
  }

  /** What a context says about one symbol: `count` of `total` code points, `under` of them below. */
  datatype Slot = Slot(under: nat, count: nat, total: nat) {
    predicate Valid() {
      0 < count && under + count <= total < BOTTOM
    }
  }

  /** `word <<= 8` on 32 bits. */
  function ShiftWord(word: nat): u32 {
    word * 0x100 % WORD
  }

  datatype Interval = Interval(low: nat, range: nat) {
    predicate Valid() {
      && 0 < range
      && low + range <= WORD
      && (low + range == WORD ==> TOP <= low)
    }

    predicate Ready() {
      Valid() && BOTTOM <= range
    }

    /** `(low ^ (low + range)) >= TOP` in 32-bit arithmetic: the top bytes differ. */
    predicate Straddles() {
      low / TOP != (low + range) % WORD / TOP
    }

    predicate Settled() {
      Straddles() && BOTTOM <= range
    }

    /** `range = -low & (BOTTOM - 1)` when a short interval straddles a byte boundary. */
    function Clip(): Interval {
      var minusLow: int := WORD - low;
      if Straddles() then Interval(low, minusLow % BOTTOM) else this
    }

    function Shift(): Interval {
      Interval(ShiftWord(low), ShiftWord(range))
    }

    function Narrow(slot: Slot): (n: Interval)
      requires Ready() && slot.Valid()
      ensures n.Valid() && low <= n.low && n.low + n.range <= low + range
    {
      var step := Quotient(range, slot.total);
      SlotInside(range, slot);
      Interval(low + Times(slot.under, step), Times(slot.count, step))
    }
  }

  /** Once clipped, the interval's upper end stays at 2^32, so clipping happens to it once. */
  function Steps(iv: Interval): (bool, int) {
    (iv.low + iv.range != WORD, WORD - iv.range)
  }

  lemma SlotInside(range: nat, slot: Slot)
    requires BOTTOM <= range && slot.Valid()
    ensures var step := Quotient(range, slot.total);
            && 0 < step == range / slot.total
            && Times(slot.under, step) == slot.under * step
            && 0 < Times(slot.count, step) == slot.count * step
            && Times(slot.under, step) + Times(slot.count, step) <= range
  {
    hide Times, Quotient;
    var step := range / slot.total;
    QuotientIs(range, slot.total);
    TimesIs(slot.under, step);
    TimesIs(slot.count, step);
    MulLe(slot.under + slot.count, slot.total, step);
    assert slot.under * step + slot.count * step == (slot.under + slot.count) * step;
    MulLe(1, slot.count, step);
  }

  lemma MulLe(a: int, b: int, c: nat)
    requires a <= b
    ensures a * c <= b * c
  {
  }

  lemma {:induction false} ClipShrinks(iv: Interval)
    requires iv.Valid() && !iv.Settled()
    ensures var c := iv.Clip();
            && c.Valid() && c.low == iv.low && c.range <= iv.range
            && iv.low % TOP + c.range <= TOP
            && (iv.Straddles() ==> c.low % TOP + c.range == TOP)
  {
    var k, r := iv.low / TOP, iv.low % TOP;
    if iv.Straddles() {
      assert TOP - r <= iv.range < BOTTOM by {
        if iv.low + iv.range < WORD { assert (iv.low + iv.range) % WORD == iv.low + iv.range; }
      }
      Remainder((0xFF - k) * 0x100, TOP - r);
    } else {
      assert iv.low + iv.range < WORD;
      assert (iv.low + iv.range) % WORD == iv.low + iv.range;
    }
  }

  lemma Remainder(m: int, x: nat)
    requires x < BOTTOM
    ensures (m * BOTTOM + x) % BOTTOM == x
  {
  }

  lemma ShiftIs(word: nat)
    requires word < WORD
    ensures ShiftWord(word) == word % TOP * 0x100
  {
    var k, r := word / TOP, word % TOP;
    assert word * 0x100 == k * WORD + r * 0x100;
    WordRemainder(k, r * 0x100);
  }

  lemma WordRemainder(k: nat, x: nat)
    requires x < WORD
    ensures (k * WORD + x) % WORD == x
  {
  }

  lemma {:induction false} ShiftKeepsValid(iv: Interval)
    requires iv.Valid() && !iv.Settled()
    ensures var c := iv.Clip(); var s := c.Shift();
            && s.Valid()
            && s.low == iv.low % TOP * 0x100
            && s.range == c.range * 0x100
            && (Steps(iv).0 == Steps(s).0 ==> Steps(s).1 < Steps(iv).1)
            && (Steps(s).0 ==> Steps(iv).0)
  {
    ClipShrinks(iv);
    var c := iv.Clip();
    ShiftIs(iv.low);
    ShiftIs(c.range);
    hide ShiftWord;
    assert c.range < TOP;
  }

  /** An interval that reaches over the end of the words, as a stream that no encoder sent can make it: a
      round of the loop makes it an ordinary one, or a shorter one. */
  lemma ShiftOfLoose(iv: Interval)
    requires iv.low < WORD && 0 < iv.range < WORD && !iv.Valid() && !iv.Settled()
    ensures var s := iv.Clip().Shift();
            s.low < WORD && 0 < s.range < WORD && (s.Valid() || s.range < iv.range)
  {
    var low, range := iv.low, iv.range;
    ShiftIs(low);
    if iv.Straddles() {
      assert (WORD - low) % BOTTOM == WORD - low;
      ShiftIs(WORD - low);
      assert low % TOP == TOP - (WORD - low);
    } else {
      LooseEnd(low, range);
      ShiftIs(range);
    }
  }

  /** Without crossing a top byte such an interval is all but less than 2^24 words. */
  lemma LooseEnd(low: nat, range: nat)
    requires low < WORD && 0 < range < WORD && WORD <= low + range && low / TOP == (low + range) % WORD / TOP
    ensures 0 < WORD - range <= low % TOP && range % TOP == TOP - (WORD - range)
  {
    var e := WORD - range;
    assert (low + range) % WORD == low - e;
    var k, r := low / TOP, low % TOP;
    assert low - e == k * TOP + (low - e) % TOP;
    assert e <= r;
    assert range == 0xFF * TOP + (TOP - e);
  }

  /** The normalising loop: the bytes it sends and the interval it leaves. */
  function Normalize(iv: Interval): (r: (seq<u8>, Interval))
    requires iv.Valid()
    ensures r.1.Ready()
    decreases Steps(iv).0, Steps(iv).1
  {
    if iv.Settled() then ([], iv)
    else
      ShiftKeepsValid(iv);
      var rest := Normalize(iv.Clip().Shift());
      ([iv.low / TOP] + rest.0, rest.1)
  }

  lemma NormalizeUnfold(iv: Interval)
    requires iv.Valid()
    ensures if iv.Settled() then Normalize(iv) == ([], iv)
            else
              var s := iv.Clip().Shift();
              && s.Valid() && Normalize(iv) == ([iv.low / TOP] + Normalize(s).0, Normalize(s).1)
              && (Steps(iv).0 == Steps(s).0 ==> Steps(s).1 < Steps(iv).1)
              && (Steps(s).0 ==> Steps(iv).0)
  {
    if !iv.Settled() {
      ShiftKeepsValid(iv);
    }
  }

  /** The bytes of `low` from the top, without the trailing zeros. */
  function Flush(low: nat): (r: seq<u8>)
    requires low < WORD
    ensures |r| <= FlushSteps(low)
    decreases FlushSteps(low)
  {
    if low == 0 then [] else
      FlushShift(low);
      [low / TOP] + Flush(low * 0x100 % WORD)
  }

  /** How many bytes of `low` there are up to its last non-zero one. */
  function FlushSteps(low: nat): (n: nat)
    ensures n <= 4
  {
    if low == 0 then 0 else if low % TOP == 0 then 1 else if low % 0x1_0000 == 0 then 2 else if low % 0x100 == 0 then 3 else 4
  }

  lemma FlushShift(low: nat)
    requires 0 < low < WORD
    ensures low * 0x100 % WORD == low % TOP * 0x100
    ensures FlushSteps(low * 0x100 % WORD) < FlushSteps(low)
  {
    ShiftIs(low);
    var r := low % TOP;
    assert low * 0x100 % WORD == ShiftWord(low) == r * 0x100;
    FewerSteps(low, r);
  }

  lemma FewerSteps(low: nat, r: nat)
    requires 0 < low < WORD && r == low % TOP
    ensures FlushSteps(r * 0x100) < FlushSteps(low)
  {
    var k, a, b, c := low / TOP, r / 0x1_0000, r % 0x1_0000 / 0x100, r % 0x100;
    assert low == k * TOP + a * 0x1_0000 + b * 0x100 + c;
    BytesOf(k, a, b, c);
    BytesOf(a, b, c, 0);
    assert r * 0x100 == a * TOP + b * 0x1_0000 + c * 0x100;
  }

  lemma BytesOf(k: nat, a: nat, b: nat, c: nat)
    requires a < 0x100 && b < 0x100 && c < 0x100
    ensures var word := k * TOP + a * 0x1_0000 + b * 0x100 + c;
      && (word == 0 <==> k == a == b == c == 0)
      && word % TOP == a * 0x1_0000 + b * 0x100 + c && word % 0x1_0000 == b * 0x100 + c && word % 0x100 == c
  {
    var word := k * TOP + a * 0x1_0000 + b * 0x100 + c;
    assert word == (k * 0x100 + a) * 0x1_0000 + (b * 0x100 + c);
    assert word == (k * 0x1_0000 + a * 0x100 + b) * 0x100 + c;
  }

  ghost predicate AllValid(slots: seq<Slot>) {
    forall i :: 0 <= i < |slots| ==> slots[i].Valid()
  }

  /** Everything the encoder sends from `iv` on when it codes `slots` and then flushes. */
  function Emit(iv: Interval, slots: seq<Slot>): seq<u8>
    requires iv.Ready() && AllValid(slots)
    decreases |slots|
  {
    if slots == [] then Flush(iv.low)
    else
      var (sent, next) := Normalize(iv.Narrow(slots[0]));
      sent + Emit(next, slots[1..])
  }

  // ---------------------------------------------------------------- the decoder

  function ByteAt(s: seq<u8>, i: nat): u8 {
    if i < |s| then s[i] else 0
  }

  function Drop(s: seq<u8>, n: nat): seq<u8> {
    if n <= |s| then s[n..] else []
  }

  /** The 32-bit code word at the head of a stream that is followed by zeros. */
  function Window(s: seq<u8>): nat {
    ByteAt(s, 0) * TOP + ByteAt(s, 1) * 0x1_0000 + ByteAt(s, 2) * 0x100 + ByteAt(s, 3)
  }

  /** decodeLow and decodeRange, decodeCode, and the input not read yet. */
  datatype Decoder = Decoder(iv: Interval, code: nat, input: seq<u8>) {
    predicate Valid() {
      iv.Valid() && code < WORD
    }

    predicate Ready() {
      Valid() && iv.Ready()
    }

    function Shift(): Decoder {
      Decoder(iv.Shift(), ShiftWord(code) + ByteAt(input, 0), Drop(input, 1))
    }

    /** The quotient the decoder compares with cumulative counts, before it is cut to 16 bits. */
    function Read(total: nat): nat
      requires 0 < total <= iv.range
    {
      Quotient((code - iv.low) % WORD, Quotient(iv.range, total))
    }
  }

  function NormalizeDecoder(d: Decoder): (r: Decoder)
    requires d.Valid()
    ensures r.Ready() && r.iv == Normalize(d.iv).1
    decreases Steps(d.iv).0, Steps(d.iv).1
  {
    if d.iv.Settled() then d
    else
      ShiftKeepsValid(d.iv);
      LowByteFree(d.code);
      NormalizeDecoder(d.(iv := d.iv.Clip()).Shift())
  }

  lemma LowByteFree(code: nat)
    requires code < WORD
    ensures ShiftWord(code) + 0xFF < WORD
  {
    assert code * 0x100 == code / TOP * WORD + code % TOP * 0x100;
  }

  lemma NormalizeOnce(d: Decoder)
    requires d.Valid() && !d.iv.Settled()
    ensures var s := d.(iv := d.iv.Clip()).Shift();
            && s.Valid() && NormalizeDecoder(d) == NormalizeDecoder(s)
            && (Steps(d.iv).0 == Steps(s.iv).0 ==> Steps(s.iv).1 < Steps(d.iv).1)
            && (Steps(s.iv).0 ==> Steps(d.iv).0)
  {
    ShiftKeepsValid(d.iv);
    LowByteFree(d.code);
  }

  function Consume(d: Decoder, slot: Slot): (r: Decoder)
    requires d.Ready() && slot.Valid()
    ensures r.Ready() && r.iv == Normalize(d.iv.Narrow(slot)).1
  {
    NormalizeDecoder(d.(iv := d.iv.Narrow(slot)))
  }

  /** A decoder whose interval is `iv` and that has `stream` ahead of it. */
  function DecoderAt(iv: Interval, stream: seq<u8>): Decoder {
    Decoder(iv, Window(stream), Drop(stream, 4))
  }

  lemma {:induction false} WindowBounds(s: seq<u8>)
    ensures Window(s) < WORD
    ensures Window(s) == ByteAt(s, 0) * TOP + Window(Drop(s, 1)) / 0x100
    ensures Window(Drop(s, 1)) == Window(s) * 0x100 % WORD + ByteAt(s, 4)
  {
    forall i | 0 <= i < 4
      ensures ByteAt(Drop(s, 1), i) == ByteAt(s, i + 1)
    {
    }
    var b0: nat, b1: nat, b2: nat, b3: nat, b4: nat := ByteAt(s, 0), ByteAt(s, 1), ByteAt(s, 2), ByteAt(s, 3), ByteAt(s, 4);
    assert ByteAt(Drop(s, 1), 0) == b1 && ByteAt(Drop(s, 1), 1) == b2;
    assert ByteAt(Drop(s, 1), 2) == b3 && ByteAt(Drop(s, 1), 3) == b4;
    assert Window(s) * 0x100 == b0 * WORD + (b1 * TOP + b2 * 0x1_0000 + b3 * 0x100);
    assert Window(s) * 0x100 % WORD == b1 * TOP + b2 * 0x1_0000 + b3 * 0x100;
  }

  /** A code word inside the interval after normalising comes from one inside it before. */
  lemma {:induction false} NormalizeNests(iv: Interval, stream: seq<u8>)
    requires iv.Valid()
    requires var n := Normalize(iv).1; n.low <= Window(stream) < n.low + n.range
    ensures iv.low <= Window(Normalize(iv).0 + stream) < iv.low + iv.range
    decreases Steps(iv).0, Steps(iv).1
  {
    var sent := Normalize(iv).0;
    if iv.Settled() {
      assert sent + stream == stream;
    } else {
      ShiftKeepsValid(iv);
      ClipShrinks(iv);
      var c := iv.Clip();
      var next := c.Shift();
      NormalizeNests(next, stream);
      var tail := Normalize(next).0 + stream;
      var whole := sent + stream;
      assert whole == [iv.low / TOP] + tail;
      assert Drop(whole, 1) == tail;
      WindowBounds(whole);
      assert iv.low % TOP <= Window(tail) / 0x100 < iv.low % TOP + c.range;
    }
  }

  /** The flushed code word lies in every interval the encoder passed through. */
  lemma {:induction false} CodeInEveryInterval(iv: Interval, slots: seq<Slot>)
    requires iv.Ready() && AllValid(slots)
    ensures iv.low <= Window(Emit(iv, slots)) < iv.low + iv.range
    decreases |slots|
  {
    if slots == [] {
      FlushWindow(iv.low);
    } else {
      var narrowed := iv.Narrow(slots[0]);
      var (sent, next) := Normalize(narrowed);
      CodeInEveryInterval(next, slots[1..]);
      NormalizeNests(narrowed, Emit(next, slots[1..]));
    }
  }

  lemma {:induction false} FlushWindow(low: nat)
    requires low < WORD
    ensures Window(Flush(low)) == low
    decreases FlushSteps(low)
  {
    if low != 0 {
      FlushShift(low);
      var next := low * 0x100 % WORD;
      assert next == low % TOP * 0x100;
      FlushWindow(next);
      WindowBounds(Flush(low));
      assert Drop(Flush(low), 1) == Flush(next);
    }
  }

  lemma {:induction false} NormalizeInStep(iv: Interval, stream: seq<u8>)
    requires iv.Valid()
    requires Window(Normalize(iv).0 + stream) < WORD
    ensures NormalizeDecoder(DecoderAt(iv, Normalize(iv).0 + stream)) == DecoderAt(Normalize(iv).1, stream)
    decreases Steps(iv).0, Steps(iv).1
  {
    var sent := Normalize(iv).0;
    var whole := sent + stream;
    if iv.Settled() {
      assert whole == stream;
    } else {
      ShiftKeepsValid(iv);
      var next := iv.Clip().Shift();
      var tail := Normalize(next).0 + stream;
      assert whole == [iv.low / TOP] + tail;
      assert Drop(whole, 1) == tail;
      WindowBounds(whole);
      WindowBounds(tail);
      assert ByteAt(Drop(whole, 4), 0) == ByteAt(whole, 4);
      assert Drop(Drop(whole, 4), 1) == Drop(tail, 4);
      assert DecoderAt(iv, whole).(iv := iv.Clip()).Shift() == DecoderAt(next, tail);
      NormalizeInStep(next, stream);
    }
  }

  /** The coded symbol's slot is where the decoder's quotient falls. */
  lemma {:induction false} ReadInSlot(iv: Interval, slot: Slot, code: nat)
    requires iv.Ready() && slot.Valid() && code < WORD
    requires var n := iv.Narrow(slot); n.low <= code < n.low + n.range
    ensures slot.under <= Quotient((code - iv.low) % WORD, Quotient(iv.range, slot.total)) < slot.under + slot.count
  {
    var step := iv.range / slot.total;
    SlotInside(iv.range, slot);
    var offset := code - iv.low;
    assert offset % WORD == offset;
    QuotientInSlot(offset, step, slot.under, slot.count);
    QuotientIs(offset, step);
  }

  /** One decoding step undoes one encoding step: the quotient falls in the coded slot, and
      consuming that slot leaves the decoder where the encoder's remaining output starts. */
  lemma {:induction false} DecodeStep(iv: Interval, slots: seq<Slot>)
    requires iv.Ready() && AllValid(slots) && slots != []
    ensures var d := DecoderAt(iv, Emit(iv, slots));
            var next := Normalize(iv.Narrow(slots[0])).1;
            && d.Ready()
            && slots[0].under <= d.Read(slots[0].total) < slots[0].under + slots[0].count
            && Consume(d, slots[0]) == DecoderAt(next, Emit(next, slots[1..]))
  {
    var slot := slots[0];
    var narrowed := iv.Narrow(slot);
    var (sent, next) := Normalize(narrowed);
    var rest := Emit(next, slots[1..]);
    CodeInEveryInterval(next, slots[1..]);
    NormalizeNests(narrowed, rest);
    WindowBounds(sent + rest);
    assert Emit(iv, slots) == sent + rest;
    ReadInSlot(iv, slot, Window(sent + rest));
    NormalizeInStep(narrowed, rest);
    assert DecoderAt(iv, sent + rest).(iv := narrowed) == DecoderAt(narrowed, sent + rest);
  }

  lemma {:induction false} QuotientInSlot(offset: int, step: nat, under: nat, count: nat)
    requires 0 < count * step && under * step <= offset < under * step + count * step
    ensures step != 0 && under <= offset / step < under + count
  {
    var q := offset / step;
    assert offset == q * step + offset % step;
    assert q < under ==> (q + 1) * step <= under * step by {
      if q < under { MulLe(q + 1, under, step); }
    }
    assert under + count <= q ==> (under + count) * step <= q * step by {
      if under + count <= q { MulLe(under + count, q, step); }
    }
    assert (under + count) * step == under * step + count * step;
  }

  /** The decoder has read all of what the encoder flushed. */
  ghost predicate AtEnd(d: Decoder) {
    d.Ready() && d.code == d.iv.low && d.input == []
  }

  lemma {:induction false} FlushIsEnd(iv: Interval)
    requires iv.Ready()
    ensures AtEnd(DecoderAt(iv, Flush(iv.low)))
  {
    FlushWindow(iv.low);
  }

  /** At the end of the stream every context decodes its escape, for ever. */
  lemma {:induction false} EndDecodesEscape(d: Decoder, slot: Slot)
    requires AtEnd(d) && slot.Valid() && slot.under == 0
    ensures d.Read(slot.total) == 0
    ensures AtEnd(Consume(d, slot))
  {
    EndNormalizes(d.(iv := d.iv.Narrow(slot)));
  }

  lemma {:induction false} EndNormalizes(d: Decoder)
    requires d.Valid() && d.code == d.iv.low && d.input == []
    ensures AtEnd(NormalizeDecoder(d))
    decreases Steps(d.iv).0, Steps(d.iv).1
  {
    if !d.iv.Settled() {
      ShiftKeepsValid(d.iv);
      EndNormalizes(d.(iv := d.iv.Clip()).Shift());
    }
  }

  // ------------------------------------------------- output piece by piece

  /** What the encoder sends while it codes `slots`, before it flushes. */
  function Sent(iv: Interval, slots: seq<Slot>): seq<u8>
    requires iv.Ready() && AllValid(slots)
    decreases |slots|
  {
    if slots == [] then []
    else
      var (sent, next) := Normalize(iv.Narrow(slots[0]));
      sent + Sent(next, slots[1..])
  }

  function After(iv: Interval, slots: seq<Slot>): (r: Interval)
    requires iv.Ready() && AllValid(slots)
    ensures r.Ready()
    decreases |slots|
  {
    if slots == [] then iv else After(Normalize(iv.Narrow(slots[0])).1, slots[1..])
  }

  /** Coding one slot and then the rest. */
  lemma StepOfOne(iv: Interval, slots: seq<Slot>)
    requires iv.Ready() && AllValid(slots) && slots != []
    ensures var (sent, next) := Normalize(iv.Narrow(slots[0]));
      && next.Ready() && AllValid(slots[1..])
      && Emit(iv, slots) == sent + Emit(next, slots[1..])
      && Sent(iv, slots) == sent + Sent(next, slots[1..])
      && After(iv, slots) == After(next, slots[1..])
  {
    hide Normalize, Interval.Narrow;
  }

  lemma NoSteps(iv: Interval)
    requires iv.Ready()
    ensures Sent(iv, []) == [] && After(iv, []) == iv
  {
  }

  lemma ConcatValid(a: seq<Slot>, b: seq<Slot>)
    requires AllValid(a) && AllValid(b)
    ensures AllValid(a + b)
    ensures a == [] ==> a + b == b
    ensures a != [] ==> (a + b)[0] == a[0] && (a + b)[1..] == a[1..] + b
  {
  }

  lemma {:induction false} EmitConcat(iv: Interval, a: seq<Slot>, b: seq<Slot>)
    requires iv.Ready() && AllValid(a) && AllValid(b)
    ensures AllValid(a + b)
    ensures Emit(iv, a + b) == Sent(iv, a) + Emit(After(iv, a), b)
    decreases |a|
  {
    ConcatValid(a, b);
    NoSteps(iv);
    hide Normalize, Interval.Narrow, Emit, Sent, After, AllValid;
    if a != [] {
      StepOfOne(iv, a);
      StepOfOne(iv, a + b);
      EmitConcat(Normalize(iv.Narrow(a[0])).1, a[1..], b);
    }
  }

  lemma {:induction false} SentConcat(iv: Interval, a: seq<Slot>, b: seq<Slot>)
    requires iv.Ready() && AllValid(a) && AllValid(b)
    ensures AllValid(a + b)
    ensures Sent(iv, a + b) == Sent(iv, a) + Sent(After(iv, a), b)
    ensures After(iv, a + b) == After(After(iv, a), b)
    decreases |a|
  {
    ConcatValid(a, b);
    NoSteps(iv);
    hide Normalize, Interval.Narrow, Emit, Sent, After, AllValid;
    if a != [] {
      StepOfOne(iv, a);
      StepOfOne(iv, a + b);
      SentConcat(Normalize(iv.Narrow(a[0])).1, a[1..], b);
    }
  }
}
