/** Decoding on values, and the round trip: the decoder sees only the compressed bytes, finds
    each symbol by its place in the current interval and updates the same model. */
module PpmDecoder {
  import opened Words
  import opened RangeInterval
  import opened PpmModel

  /** The byte whose slot, of width count + minimum, holds `code`. */
  function Locate(counts: Counts, minimum: nat, code: nat, v: u8): (r: u8)
    requires code < Below(counts, v + 1) + (v + 1) * minimum
    ensures r <= v
    ensures Below(counts, r) + r * minimum <= code < Below(counts, r + 1) + (r + 1) * minimum
  {
    if v == 0 || Below(counts, v) + v * minimum <= code then v else Locate(counts, minimum, code, v - 1)
  }

  lemma {:induction false} LocateUnique(counts: Counts, minimum: nat, code: nat, v: u8, w: u8)
    requires minimum <= 1
    requires Below(counts, v) + v * minimum <= code < Below(counts, v + 1) + (v + 1) * minimum
    requires Below(counts, w) + w * minimum <= code < Below(counts, w + 1) + (w + 1) * minimum
    ensures v == w
  {
    if v < w {
      BelowMonotone(counts, v + 1, w);
    } else if w < v {
      BelowMonotone(counts, w + 1, v);
    }
  }

  /** What one context makes of the code word: the byte, an escape to the next context, the end
      of the message, or a code word outside the interval, which no message has. */
  datatype Step = Here(value: u8, decoder: Decoder) | Escape(decoder: Decoder) | NoMore | Lost

  function FindIn(m: Model, s: Context, d: Decoder): (f: Step)
    requires m.Ok() && d.Ready()
    ensures f.Here? || f.Escape? ==> f.decoder.Ready()
    ensures s == [] ==> !f.Escape?
  {
    GetOk(m, s);
    var t := m.Get(s);
    if s != [] && !CanEscape(t) then Escape(d)
    else
      var code := d.Read(t.total);
      if t.total <= code then Lost
      else if code < t.escapes then
        if s == [] then NoMore else Escape(Consume(d, EscapeSlot(t)))
      else
        var v := Locate(t.counts, Minimum(s), code - t.escapes, 255);
        SlotOfValid(s, t, v);
        Here(v, Consume(d, SlotOf(s, t, v)))
  }

  datatype Finding = Found(value: u8, at: Context, decoder: Decoder) | End | Strayed

  function FindFrom(m: Model, s: Context, d: Decoder): (f: Finding)
    requires m.Ok() && d.Ready()
    ensures f.Found? ==> f.decoder.Ready()
    decreases |s|
  {
    match FindIn(m, s, d)
    case Here(v, next) => Found(v, s, next)
    case Escape(next) => FindFrom(m, s[1..], next)
    case NoMore => End
    case Lost => Strayed
  }

  lemma {:induction false} FindStep(m: Model, s: Context, d: Decoder)
    requires m.Ok() && d.Ready()
    ensures var f := FindIn(m, s, d);
            && (f.Here? ==> FindFrom(m, s, d) == Found(f.value, s, f.decoder))
            && (f.Escape? ==> FindFrom(m, s, d) == FindFrom(m, s[1..], f.decoder))
            && (f.NoMore? ==> FindFrom(m, s, d) == End)
            && (f.Lost? ==> FindFrom(m, s, d) == Strayed)
  {
  }

  /** `Failed` is a message longer than the output limit. */
  datatype Message = Decoded(bytes: seq<u8>) | Failed | Malformed

  function Prepend(v: u8, rest: Message): Message {
    if rest.Decoded? then Decoded([v] + rest.bytes) else rest
  }

  function DecodeFrom(m: Model, d: Decoder, room: nat): Message
    requires m.Rested() && d.Ready()
    decreases room
  {
    match FindFrom(m, m.recent, d)
    case End => Decoded([])
    case Strayed => Malformed
    case Found(v, at, next) =>
      AdvanceAtOk(m, v, at);
      if room == 0 then Failed else Prepend(v, DecodeFrom(AdvanceAt(m, v, at), next, room - 1))
  }

  function Decoding(input: seq<u8>, limit: nat): Message {
    WindowBounds(input);
    DecodeFrom(NewModel, DecoderAt(Everything, input), limit)
  }

  lemma {:induction false} DecodeOnce(m: Model, d: Decoder, room: nat)
    requires m.Rested() && d.Ready()
    ensures FindFrom(m, m.recent, d).End? ==> DecodeFrom(m, d, room) == Decoded([])
    ensures FindFrom(m, m.recent, d).Strayed? ==> DecodeFrom(m, d, room) == Malformed
    ensures var f := FindFrom(m, m.recent, d);
            f.Found? ==>
              && AdvanceAt(m, f.value, f.at).Rested()
              && LearnThrough(m, m.recent, f.at, f.value).next <= POOL_SIZE
              && DecodeFrom(m, d, room) == if room == 0 then Failed
                                           else Prepend(f.value, DecodeFrom(AdvanceAt(m, f.value, f.at), f.decoder, room - 1))
  {
    var f := FindFrom(m, m.recent, d);
    if f.Found? {
      AdvanceAtOk(m, f.value, f.at);
    }
  }

  lemma DecodingIs(input: seq<u8>, limit: nat)
    ensures Window(input) < WORD
    ensures Decoding(input, limit) == DecodeFrom(NewModel, Decoder(Interval(0, WORD - 1), Window(input), Drop(input, 4)), limit)
  {
    WindowBounds(input);
  }

  lemma ReadOutside(d: Decoder)
    requires d.Ready() && d.Read(1 + 256) >= 1 + 256
    ensures FindIn(NewModel, [], d) == Lost
  {
    hide Quotient, Decoder.Read, Below;
    assert NewModel.Get([]).total == 1 + 256;
  }

  lemma ReadIs(d: Decoder, total: nat)
    requires 0 < total <= d.iv.range && 0 < d.iv.range / total
    ensures d.Read(total) == (d.code - d.iv.low) % WORD / (d.iv.range / total)
  {
    QuotientIs(d.iv.range, total);
    QuotientIs((d.code - d.iv.low) % WORD, d.iv.range / total);
  }

  /** No encoder makes four bytes 0xFF: the first quotient is 257, and the root's slots are below it. */
  lemma OnesGoAstray(limit: nat)
    ensures Decoding([0xFF, 0xFF, 0xFF, 0xFF], limit) == Malformed
  {
    hide FindIn, Decoder.Read, FindFrom, DecodeFrom, Decoding;
    var input := [0xFF, 0xFF, 0xFF, 0xFF];
    DecodingIs(input, limit);
    assert Window(input) == WORD - 1;
    var d := Decoder(Interval(0, WORD - 1), WORD - 1, Drop(input, 4));
    ReadIs(d, 1 + 256);
    ReadOutside(d);
    assert NewModel.recent == [];
    FindStep(NewModel, [], d);
    DecodeOnce(NewModel, d, limit);
  }

  function PrependAll(bytes: seq<u8>, rest: Message): Message {
    if rest.Decoded? then Decoded(bytes + rest.bytes) else rest
  }

  lemma PrependMore(bytes: seq<u8>, v: u8, rest: Message)
    ensures PrependAll(bytes + [v], rest) == PrependAll(bytes, Prepend(v, rest))
  {
    if rest.Decoded? {
      assert (bytes + [v]) + rest.bytes == bytes + ([v] + rest.bytes);
    }
  }

  // -------------------------------------------------------- the round trip

  /** A decoder at the start of what the encoder sends for `slots`. */
  function DecoderFor(iv: Interval, slots: seq<Slot>): (d: Decoder)
    requires iv.Ready() && AllValid(slots)
    ensures d.Ready()
  {
    WindowBounds(Emit(iv, slots));
    DecoderAt(iv, Emit(iv, slots))
  }

  lemma {:induction false} FindByCode(m: Model, s: Context, v: u8, d: Decoder)
    requires m.Ok() && d.Ready()
    requires s == [] || m.Count(s, v) > 0
    requires var own := SlotOf(s, m.Get(s), v);
             own.Valid() && own.under <= d.Read(own.total) < own.under + own.count
    ensures FindIn(m, s, d) == Here(v, Consume(d, SlotOf(s, m.Get(s), v)))
  {
    GetOk(m, s);
    var t := m.Get(s);
    SlotOfValid(s, t, v);
    var code := d.Read(t.total) - t.escapes;
    assert Below(t.counts, v + 1) == Below(t.counts, v) + t.counts[v];
    BelowMonotone(t.counts, v + 1, 256);
    LocateUnique(t.counts, Minimum(s), code, Locate(t.counts, Minimum(s), code, 255), v);
  }

  lemma {:induction false} FindOwn(m: Model, s: Context, v: u8, iv: Interval, rest: seq<Slot>)
    requires m.Ok() && iv.Ready() && AllValid(rest)
    requires s == [] || m.Count(s, v) > 0
    ensures var own := SlotOf(s, m.Get(s), v);
            && own.Valid()
            && FindIn(m, s, DecoderFor(iv, [own] + rest)) == Here(v, DecoderFor(Normalize(iv.Narrow(own)).1, rest))
  {
    hide FindIn;
    GetOk(m, s);
    SlotOfValid(s, m.Get(s), v);
    var slots := [SlotOf(s, m.Get(s), v)] + rest;
    DecodeStep(iv, slots);
    assert slots[1..] == rest;
    FindByCode(m, s, v, DecoderFor(iv, slots));
  }

  lemma {:induction false} FindEscapes(m: Model, s: Context, iv: Interval, rest: seq<Slot>)
    requires m.Ok() && iv.Ready() && AllValid(rest)
    requires s != [] && CanEscape(m.Get(s))
    ensures var escape := EscapeSlot(m.Get(s));
            && escape.Valid()
            && FindIn(m, s, DecoderFor(iv, [escape] + rest)) == Escape(DecoderFor(Normalize(iv.Narrow(escape)).1, rest))
  {
    GetOk(m, s);
    var slots := [EscapeSlot(m.Get(s))] + rest;
    DecodeStep(iv, slots);
    assert slots[1..] == rest;
  }

  lemma {:induction false} AfterStep(iv: Interval, slot: Slot, rest: seq<Slot>)
    requires iv.Ready() && slot.Valid() && AllValid(rest)
    ensures After(iv, [slot] + rest) == After(Normalize(iv.Narrow(slot)).1, rest)
  {
    assert ([slot] + rest)[1..] == rest;
  }

  /** Decoding one byte undoes coding it: the same byte is found through the same escapes. */
  lemma {:induction false} FindUndoes(m: Model, s: Context, v: u8, iv: Interval, rest: seq<Slot>)
    requires m.Ok() && iv.Ready() && AllValid(rest)
    requires AllValid(SlotsFrom(m, s, v))
    ensures var own := SlotsFrom(m, s, v);
            FindFrom(m, s, DecoderFor(iv, own + rest)) == Found(v, FirstKnowing(m, s, v), DecoderFor(After(iv, own), rest))
    decreases |s|
  {
    hide FindIn, Normalize;
    GetOk(m, s);
    var t := m.Get(s);
    var own := SlotsFrom(m, s, v);
    if s == [] || t.counts[v] > 0 {
      FindOwn(m, s, v, iv, rest);
      AfterStep(iv, SlotOf(s, t, v), []);
      assert own == [SlotOf(s, t, v)] + [];
    } else {
      SlotsFromValid(m, s[1..], v);
      var below := SlotsFrom(m, s[1..], v);
      if CanEscape(t) {
        var slot := EscapeSlot(t);
        assert own + rest == [slot] + (below + rest);
        FindEscapes(m, s, iv, below + rest);
        AfterStep(iv, slot, below);
        FindUndoes(m, s[1..], v, Normalize(iv.Narrow(slot)).1, rest);
      } else {
        assert own == below;
        NoEscape(m, s, DecoderFor(iv, own + rest));
        FindUndoes(m, s[1..], v, iv, rest);
      }
    }
  }

  lemma NoEscape(m: Model, s: Context, d: Decoder)
    requires m.Ok() && d.Ready() && s != [] && !CanEscape(m.Get(s))
    ensures FindIn(m, s, d) == Escape(d)
  {
  }

  lemma {:induction false} FindEnds(m: Model, s: Context, d: Decoder)
    requires m.Ok() && AtEnd(d)
    ensures FindFrom(m, s, d) == End
    decreases |s|
  {
    GetOk(m, s);
    var t := m.Get(s);
    if s != [] && !CanEscape(t) {
      FindEnds(m, s[1..], d);
    } else {
      EndDecodesEscape(d, EscapeSlot(t));
      if s != [] {
        FindEnds(m, s[1..], Consume(d, EscapeSlot(t)));
      }
    }
  }

  /** The decoder is where the encoder's output for `msg` starts. */
  ghost predicate InStep(m: Model, msg: seq<u8>, d: Decoder) {
    exists iv: Interval :: iv.Ready() && AllValid(Slots(m, msg)) && d == DecoderFor(iv, Slots(m, msg))
  }

  lemma {:induction false} DecodeFirst(m: Model, msg: seq<u8>, d: Decoder) returns (next: Model, at: Context, d': Decoder)
    requires m.Rested() && msg != [] && InStep(m, msg, d)
    ensures d.Ready() && FindFrom(m, m.recent, d) == Found(msg[0], at, d')
    ensures next == AdvanceAt(m, msg[0], at) && next.Rested() && InStep(next, msg[1..], d')
  {
    hide FindFrom, AdvanceAt;
    var iv: Interval :| iv.Ready() && AllValid(Slots(m, msg)) && d == DecoderFor(iv, Slots(m, msg));
    AdvanceOk(m, msg[0]);
    SlotsFromValid(m, m.recent, msg[0]);
    next := Advance(m, msg[0]);
    at := FirstKnowing(m, m.recent, msg[0]);
    AdvanceAtFirst(m, msg[0]);
    var rest := Slots(next, msg[1..]);
    var after := After(iv, SlotsFrom(m, m.recent, msg[0]));
    SlotsValid(next, msg[1..]);
    FindUndoes(m, m.recent, msg[0], iv, rest);
    d' := DecoderFor(after, rest);
  }

  lemma {:induction false} DecodeLast(m: Model, d: Decoder)
    requires m.Rested() && InStep(m, [], d)
    ensures d.Ready() && FindFrom(m, m.recent, d) == End
  {
    var iv: Interval :| iv.Ready() && AllValid(Slots(m, [])) && d == DecoderFor(iv, Slots(m, []));
    FlushIsEnd(iv);
    FindEnds(m, m.recent, d);
  }

  lemma {:induction false} DecodeUndoes(m: Model, msg: seq<u8>, d: Decoder, room: nat)
    requires m.Rested() && InStep(m, msg, d)
    ensures d.Ready() && DecodeFrom(m, d, room) == if |msg| <= room then Decoded(msg) else Failed
    decreases |msg|
  {
    hide AdvanceAt, FindFrom;
    if msg == [] {
      DecodeLast(m, d);
    } else {
      var next, at, d' := DecodeFirst(m, msg, d);
      if room > 0 {
        DecodeUndoes(next, msg[1..], d', room - 1);
        assert msg == [msg[0]] + msg[1..];
      }
    }
  }

  /** Decompressing what compressing a message gave returns the message, whatever the
      contexts, rescales and pool resets it went through; when the output limit is smaller
      than the message, it fails and never cuts the message short. */
  lemma RoundTrip(msg: seq<u8>, limit: nat)
    ensures Decoding(Encoding(msg), limit) == if |msg| <= limit then Decoded(msg) else Failed
  {
    SlotsValid(NewModel, msg);
    assert InStep(NewModel, msg, DecoderFor(Everything, Slots(NewModel, msg)));
    DecodeUndoes(NewModel, msg, DecoderFor(Everything, Slots(NewModel, msg)), limit);
  }

  /** Only the empty message compresses to nothing, so a result of 0 bytes means failure. */
  lemma {:induction false} EncodingNotEmpty(msg: seq<u8>)
    ensures Encoding(msg) == [] <==> msg == []
  {
    SlotsValid(NewModel, msg);
    if msg != [] {
      var slots := Slots(NewModel, msg);
      SlotsFromValid(NewModel, [], msg[0]);
      assert slots[0] == SlotOf([], NewTable([]), msg[0]);
      var narrowed := Everything.Narrow(slots[0]);
      SlotOfValid([], NewTable([]), msg[0]) by { NewTableOk([]); }
      var (sent, next) := Normalize(narrowed);
      CodeInEveryInterval(next, slots[1..]);
      NormalizeNests(narrowed, Emit(next, slots[1..]));
      assert narrowed.low > 0 by {
        var step := Quotient(Everything.range, slots[0].total);
        SlotInside(Everything.range, slots[0]);
        MulLe(1, slots[0].under, step);
      }
    }
  }
}
