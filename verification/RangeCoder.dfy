/** ENet's range coder in the form of its source: loops that update the coder's words and
    the fixed pool of symbols in place. */
module RangeCoderModule {
  import opened Words
  import opened RangeInterval
  import opened PpmModel
  import opened PpmDecoder
  import opened SymbolPool
  import opened PoolModel
  import opened SlotCoder
  import opened RangeCoderSteps

  class RangeCoder {
    const symbols: array<Symbol>

    predicate Valid() {
      symbols.Length == POOL_SIZE
    }

    constructor ()
      ensures Valid() && fresh(symbols)
    {
      symbols := new Symbol[POOL_SIZE];
    }

    // ---------------------------------------------------- one context's tree

    /** ENET_CONTEXT_ENCODE. */
    method ContextEncode(c: nat, v: u8, update: u8, minimum: u8, nextSymbol: nat)
      returns (symbol: u16, under: u16, count: u16, next: nat)
      requires Valid() && Closed(symbols[..], nextSymbol) && c < nextSymbol < POOL_SIZE && minimum <= 1
      modifies symbols
      ensures Visit(symbols[..], symbol, under, count, next) == Encode(old(symbols[..]), nextSymbol, c, v, update, minimum)
    {
      under := v * minimum;
      count := minimum;
      next := nextSymbol;
      assert ClosedAt(symbols[..], c, next);
      if symbols[c].symbols == 0 {
        symbol := next;
        symbols[next] := NewSymbol(v, update);
        next := next + 1;
        symbols[c] := symbols[c].(symbols := symbol - c);
        return;
      }
      var node: nat := c + symbols[c].symbols;
      symbol := node;
      while true
        invariant node < nextSymbol == next && Closed(symbols[..], nextSymbol)
        invariant Descend(symbols[..], nextSymbol, node, v, update, under, count)
                  == Encode(old(symbols[..]), nextSymbol, c, v, update, minimum)
        decreases nextSymbol - node
      {
        hide Descend;
        DescendStep(symbols[..], nextSymbol, node, v, update, under, count);
        if v < symbols[node].value {
          AddUnder(node, update);
          if symbols[node].left != 0 {
            node := node + symbols[node].left;
            continue;
          }
          symbol, next := CreateLeft(node, v, update, next);
        } else if v > symbols[node].value {
          under := Add16(under, symbols[node].under);
          if symbols[node].right != 0 {
            node := node + symbols[node].right;
            continue;
          }
          symbol, next := CreateRight(node, v, update, next);
        } else {
          count := Add16(count, symbols[node].count);
          under := Add16(under, symbols[node].under + 0x1_0000 - symbols[node].count);
          AddUnder(node, update);
          AddCount(node, update);
          symbol := node;
        }
        break;
      }
    }

    method AddUnder(node: nat, update: u8)
      requires Valid() && node < POOL_SIZE
      modifies symbols
      ensures var x := old(symbols[node]);
              symbols[..] == old(symbols[..])[node := x.(under := Add16(x.under, update))]
    {
      symbols[node] := symbols[node].(under := Add16(symbols[node].under, update));
    }

    method AddCount(node: nat, update: u8)
      requires Valid() && node < POOL_SIZE
      modifies symbols
      ensures var x := old(symbols[node]);
              symbols[..] == old(symbols[..])[node := x.(count := Add8(x.count, update))]
    {
      symbols[node] := symbols[node].(count := Add8(symbols[node].count, update));
    }

    method CreateLeft(node: nat, value: u8, update: u8, nextSymbol: nat) returns (symbol: u16, next: nat)
      requires Valid() && node < nextSymbol < POOL_SIZE
      modifies symbols
      ensures symbol == nextSymbol && next == nextSymbol + 1
      ensures symbols[..] == WithNew(old(symbols[..]), nextSymbol, value, update)[node := old(symbols[node]).(left := nextSymbol - node)]
    {
      symbol, next := nextSymbol, nextSymbol + 1;
      symbols[symbol] := NewSymbol(value, update);
      symbols[node] := symbols[node].(left := symbol - node);
    }

    method CreateRight(node: nat, value: u8, update: u8, nextSymbol: nat) returns (symbol: u16, next: nat)
      requires Valid() && node < nextSymbol < POOL_SIZE
      modifies symbols
      ensures symbol == nextSymbol && next == nextSymbol + 1
      ensures symbols[..] == WithNew(old(symbols[..]), nextSymbol, value, update)[node := old(symbols[node]).(right := nextSymbol - node)]
    {
      symbol, next := nextSymbol, nextSymbol + 1;
      symbols[symbol] := NewSymbol(value, update);
      symbols[node] := symbols[node].(right := symbol - node);
    }

    /** enet_symbol_rescale: down the right links in a loop, into the left parts by recursion. */
    method RescaleSymbols(i: nat, ghost n: nat) returns (total: u16)
      requires Valid() && Closed(symbols[..], n) && i < n
      modifies symbols
      ensures (symbols[..], total) == HalveTree(old(symbols[..]), n, i)
      decreases n - i, 1
    {
      total := 0;
      var symbol := i;
      ghost var goal := HalveTree(symbols[..], n, i);
      while true
        invariant i <= symbol < n && Closed(symbols[..], n)
        invariant var r := HalveTree(symbols[..], n, symbol); r.0 == goal.0 && Add16(total, r.1) == goal.1
        decreases n - symbol
      {
        ghost var pool := symbols[..];
        ghost var before := total;
        assert ClosedAt(pool, symbol, n);
        RescaleNode(symbol, n);
        ghost var q := HalveNode(pool, n, symbol);
        SameLinksClosed(pool, q, n);
        assert Linked(pool[symbol], q[symbol]);
        total := Add16(total, symbols[symbol].under);
        if symbols[symbol].right == 0 {
          break;
        }
        Add16Associative(before, q[symbol].under, HalveTree(q, n, symbol + q[symbol].right).1);
        symbol := symbol + symbols[symbol].right;
      }
    }

    method RescaleNode(symbol: nat, ghost n: nat)
      requires Valid() && Closed(symbols[..], n) && symbol < n
      modifies symbols
      ensures symbols[..] == HalveNode(old(symbols[..]), n, symbol)
      decreases n - symbol, 0
    {
      ghost var pool := symbols[..];
      var count := symbols[symbol].count - symbols[symbol].count / 2;
      symbols[symbol] := symbols[symbol].(count := count, under := count);
      ghost var p := pool[symbol := Halved(pool[symbol])];
      assert symbols[..] == p;
      SameLinksClosed(pool, p, n);
      assert ClosedAt(p, symbol, n);
      if symbols[symbol].left != 0 {
        var left := RescaleSymbols(symbol + symbols[symbol].left, n);
        symbols[symbol] := symbols[symbol].(under := Add16(symbols[symbol].under, left));
      }
    }

    /** The end of a context's update: its escapes and total grow, and a context that reached
        the limits is rescaled (ENET_CONTEXT_RESCALE). */
    method SettleContext(c: nat, count: u16, ghost names: Names, ghost m: Model, ghost pending: set<nat>, ghost t: Table, ghost v: u8)
      requires Valid() && c < |names| && Represents(symbols[..], names, m, pending)
      requires TableOk(names[c], t) && m.Get(names[c]) == Counted(names[c], t, v)
      requires count == t.counts[v] + Minimum(names[c])
      modifies symbols
      ensures Represents(symbols[..], names, m.Put(names[c], Learned(names[c], t, v)), pending)
    {
      hide Represents, Halve;
      ghost var s := names[c];
      ghost var pool := symbols[..];
      var delta := if c == 0 then SYMBOL_DELTA else SUBCONTEXT_SYMBOL_DELTA;
      var minimum := if c == 0 then 1 else 0;
      RootIsFirst(pool, names, m, pending, c);
      GrownFits(s, t, v);
      var escapes, total := symbols[c].escapes, symbols[c].total;
      if count <= 0 {
        escapes := escapes + SUBCONTEXT_ESCAPE_DELTA;
        total := total + SUBCONTEXT_ESCAPE_DELTA;
      }
      total := total + delta;
      symbols[c] := symbols[c].(escapes := escapes, total := total);
      assert symbols[..] == pool[c := pool[c].(escapes := escapes, total := total)];
      NumbersRepresent(pool, names, m, pending, c, escapes, total);
      ghost var grown := Grown(s, Counted(s, t, v), count);
      ghost var m1 := m.Put(s, grown);
      assert m1 == m.Put(s, m.Get(s).(escapes := escapes, total := total));
      if count > 0xFF - 2 * delta + minimum || total > BOTTOM - 0x100 {
        Rescale(c, minimum, names, m1, pending);
        assert m.Put(s, Learned(s, t, v)) == m1.Put(s, Rescaled(s, grown));
      }
    }

    /** ENET_CONTEXT_RESCALE. */
    method Rescale(c: nat, minimum: nat, ghost names: Names, ghost m: Model, ghost pending: set<nat>)
      requires Valid() && c < |names| && Represents(symbols[..], names, m, pending)
      requires minimum == Minimum(names[c])
      requires Below(m.Get(names[c]).counts, 256) < BOTTOM
      requires Rescaled(names[c], m.Get(names[c])).total < BOTTOM
      modifies symbols
      ensures Represents(symbols[..], names, m.Put(names[c], Rescaled(names[c], m.Get(names[c]))), pending)
    {
      hide Below, HalveTree, Halve, Subtree, AllKnown, AllParents, AllNamed, Distinct;
      ghost var s := names[c];
      ghost var pool := symbols[..];
      assert ContextHolds(pool, names, m, c) && ClosedAt(pool, c, |names|);
      HalveRepresents(pool, names, m, pending, c);
      var total: nat := 0;
      if symbols[c].symbols != 0 {
        total := RescaleSymbols(c + symbols[c].symbols, |names|);
      }
      ghost var m1 := m.Put(s, m.Get(s).(counts := Halve(m.Get(s).counts)));
      ghost var pool1 := symbols[..];
      assert Represents(pool1, names, m1, pending);
      assert ContextHolds(pool1, names, m1, c);
      var escapes := symbols[c].escapes - symbols[c].escapes / 2;
      total := total + escapes + 256 * minimum;
      symbols[c] := symbols[c].(escapes := escapes, total := total);
      assert symbols[..] == pool1[c := pool1[c].(escapes := escapes, total := total)];
      NumbersRepresent(pool1, names, m1, pending, c, escapes, total);
      assert m1.Put(s, m1.Get(s).(escapes := escapes, total := total)) == m.Put(s, Rescaled(s, m.Get(s)));
    }

    // ------------------------------------------------------------ compressing

    /** Count `v` up in the context `c` and link the symbol: the symbol of the longer context
        that waits for it, `parent`, gets it as its parent. Where the C has
        `parent = & predicted`, `parent` is -1 and the symbol is the new prediction. */
    method CountAndLink(c: nat, v: u8, nextSymbol: nat, parent: int, predicted: u16, ghost names: Names, ghost m: Model)
      returns (symbol: u16, under: u16, count: u16, next: nat, newPredicted: u16, ghost names': Names)
      requires Valid() && c < |names| == nextSymbol < POOL_SIZE
      requires TableOk(names[c], m.Get(names[c]))
      requires Represents(symbols[..], names, m, if parent < 0 then {} else {parent as nat})
      requires 0 < parent ==> parent < |names| && names[parent] != [] && names[parent][1..] == names[c] + [v]
      requires parent == -1 || 0 < parent
      modifies symbols
      ensures var s := names[c];
              var t := m.Get(s);
              && under == v * Minimum(s) + Below(t.counts, v)
              && count == t.counts[v] + Minimum(s)
              && names' == NamesAfter(names, s, t.counts, v) && next == |names'|
              && symbol < next && names'[symbol] == s + [v]
              && (t.counts[v] == 0 ==> symbol == |names|)
              && newPredicted == (if parent < 0 then symbol else predicted)
              && Represents(symbols[..], names', m.Put(s, Counted(s, t, v)).(next := next), Waiting(s, t, v, symbol))
    {
      ghost var s := names[c];
      ghost var t := m.Get(s);
      GrownFits(s, t, v);
      assert (c == 0) == (s == []);
      var update := if c == 0 then SYMBOL_DELTA else SUBCONTEXT_SYMBOL_DELTA;
      var minimum := if c == 0 then 1 else 0;
      ghost var pending := if parent < 0 then {} else {parent as nat};
      EncodeRepresents(symbols[..], names, m, pending, c, v);
      symbol, under, count, next := ContextEncode(c, v, update, minimum, nextSymbol);
      names' := NamesAfter(names, s, t.counts, v);
      ghost var m1 := m.Put(s, Counted(s, t, v)).(next := next);
      ghost var pool1 := symbols[..];
      ghost var pending1 := pending + Waiting(s, t, v, symbol);
      ghost var pending2 := Waiting(s, t, v, symbol);
      assert Represents(pool1, names', m1, pending1);
      newPredicted := predicted;
      if parent < 0 {
        newPredicted := symbol;
        assert pending1 == pending2;
      } else {
        symbols[parent] := symbols[parent].(parent := symbol);
        LinkRepresents(pool1, names', m1, pending1, parent, symbol);
        assert symbols[..] == pool1[parent := pool1[parent].(parent := symbol)];
        assert pending1 - {parent as nat} == pending2;
      }
    }

    /** One context's share of coding `v`: count and link it, send the slot or the escape,
        settle the context. */
    method EncodeIn(
      c: nat, v: u8, nextSymbol: nat, parent: int, predicted: u16, low: u32, range: u32, outData: array<u8>, size: nat,
      ghost names: Names, ghost m: Model)
      returns (ok: bool, known: bool, next: nat, newParent: nat, newPredicted: u16,
               newLow: u32, newRange: u32, newSize: nat, ghost names': Names)
      requires Valid() && c < |names| == nextSymbol < POOL_SIZE && m.Ok()
      requires Represents(symbols[..], names, m, if parent < 0 then {} else {parent as nat})
      requires 0 < parent ==> parent < |names| && names[parent] != [] && names[parent][1..] == names[c] + [v]
      requires parent == -1 || 0 < parent
      requires Interval(low, range).Ready() && size <= outData.Length
      modifies symbols, outData
      ensures var s := names[c];
              var t := m.Get(s);
              var slots := OwnSlots(s, t, v);
              && AllValid(slots)
              && var sent := Sent(Interval(low, range), slots);
              if !ok then outData.Length < size + |sent|
              else
                && known == (s == [] || t.counts[v] > 0)
                && next == |names'| && names' == NamesAfter(names, s, t.counts, v)
                && newParent < next && names'[newParent] == s + [v]
                && (t.counts[v] == 0 ==> newParent == |names|)
                && newPredicted == (if parent < 0 then newParent else predicted)
                && Represents(symbols[..], names', LearnIn(m, s, v), Waiting(s, t, v, newParent))
                && newSize == size + |sent| <= outData.Length
                && outData[..newSize] == old(outData[..size]) + sent
                && Interval(newLow, newRange) == After(Interval(low, range), slots)
    {
      hide Sent, After, Normalize, Represents;
      ghost var s := names[c];
      ghost var t := m.Get(s);
      GetOk(m, s);
      RootIsFirst(symbols[..], names, m, if parent < 0 then {} else {parent as nat}, c);
      var symbol, under, count;
      symbol, under, count, next, newPredicted, names' := CountAndLink(c, v, nextSymbol, parent, predicted, names, m);
      ghost var m1 := m.Put(s, Counted(s, t, v)).(next := next);
      RootIsFirst(symbols[..], names', m1, Waiting(s, t, v, symbol), c);
      newParent := symbol;
      known := count > 0;
      ok, newLow, newRange, newSize := SendContext(c, count, under, low, range, outData, size, s, t, v);
      if ok {
        SettleContext(c, count, names', m1, Waiting(s, t, v, symbol), t, v);
        assert m1.Put(s, Learned(s, t, v)) == LearnIn(m, s, v);
      }
    }

    /** The slot of a byte the context knows, or the escape of a context that has one. */
    method SendContext(
      c: nat, count: u16, under: u16, low: u32, range: u32, outData: array<u8>, size: nat, ghost s: Context, ghost t: Table, ghost v: u8)
      returns (ok: bool, newLow: u32, newRange: u32, newSize: nat)
      requires Valid() && c < POOL_SIZE && TableOk(s, t)
      requires symbols[c].escapes == t.escapes && symbols[c].total == t.total
      requires count == t.counts[v] + Minimum(s) && under == v * Minimum(s) + Below(t.counts, v)
      requires Interval(low, range).Ready() && size <= outData.Length
      modifies outData
      ensures var slots := OwnSlots(s, t, v);
              && AllValid(slots)
              && var sent := Sent(Interval(low, range), slots);
              if !ok then outData.Length < size + |sent|
              else
                && newSize == size + |sent| <= outData.Length
                && outData[..newSize] == old(outData[..size]) + sent
                && Interval(newLow, newRange) == After(Interval(low, range), slots)
    {
      ghost var iv := Interval(low, range);
      ok, newLow, newRange, newSize := true, low, range, size;
      if count > 0 {
        SlotOfValid(s, t, v);
        var slot := Slot(symbols[c].escapes + under, count, symbols[c].total);
        assert slot == SlotOf(s, t, v);
        SentOne(iv, slot);
        ok, newLow, newRange, newSize := EncodeSlot(low, range, slot, outData, size);
      } else if 0 < symbols[c].escapes < symbols[c].total {
        var slot := Slot(0, symbols[c].escapes, symbols[c].total);
        assert slot == EscapeSlot(t);
        SentOne(iv, slot);
        ok, newLow, newRange, newSize := EncodeSlot(low, range, slot, outData, size);
      }
    }

    /** All contexts' share of coding `v`, from the predicted context down to the first that knows
        it or the root: the body of the compressor's loop up to `nextInput`. */
    method EncodeByte(v: u8, predicted: u16, nextSymbol: nat, low: u32, range: u32, outData: array<u8>, size: nat,
                      ghost names: Names, ghost m: Model)
      returns (ok: bool, newPredicted: u16, next: nat, newLow: u32, newRange: u32, newSize: nat, ghost names': Names)
      requires Valid() && m.Rested() && Represents(symbols[..], names, m, {})
      requires predicted < |names| == nextSymbol && names[predicted] == m.recent
      requires Interval(low, range).Ready() && size <= outData.Length
      modifies symbols, outData
      ensures var slots := SlotsFrom(m, m.recent, v);
              && AllValid(slots)
              && var sent := Sent(Interval(low, range), slots);
              if !ok then outData.Length < size + |sent|
              else
                && next == |names'| && Represents(symbols[..], names', LearnFrom(m, m.recent, v), {})
                && newPredicted < next && names'[newPredicted] == m.recent + [v]
                && newSize == size + |sent| <= outData.Length
                && outData[..newSize] == old(outData[..size]) + sent
                && Interval(newLow, newRange) == After(Interval(low, range), slots)
    {
      hide Sent, After, Normalize, SlotsFrom, OwnSlots, LearnIn, Represents;
      ghost var iv := Interval(low, range);
      ghost var slots := SlotsFrom(m, m.recent, v);
      ghost var prefix := outData[..size];
      SlotsFromValid(m, m.recent, v);
      newPredicted, next, newLow, newRange, newSize, names' := predicted, nextSymbol, low, range, size, names;
      var subcontext: nat := predicted;
      var parent: int := -1;
      var known;
      ghost var s, l, done := m.recent, m, [];
      RootIsFirst(symbols[..], names, m, {}, predicted);
      CodingStart(iv, slots, prefix);
      while subcontext != 0
        invariant next == |names'| && newSize <= outData.Length
        invariant AtContext(symbols[..], names', m, v, l, s, subcontext, parent, newPredicted)
        invariant Coding(iv, slots, done, SlotsFrom(l, s, v), Interval(newLow, newRange), prefix, outData[..newSize])
        decreases |s|
      {
        ghost var own := OwnSlots(s, l.Get(s), v);
        SlotsFromParts(l, s, v);
        RootIsFirst(symbols[..], names', l, if parent < 0 then {} else {parent as nat}, subcontext);
        ghost var now, out := Interval(newLow, newRange), outData[..newSize];
        ok, known, next, parent, newPredicted, newLow, newRange, newSize, names' :=
          EncodeIn(subcontext, v, next, parent, newPredicted, newLow, newRange, outData, newSize, names', l);
        CodingStep(iv, slots, done, own, SlotsFrom(l, s, v)[|own|..], now, prefix, out);
        if !ok || known {
          return;
        }
        NextContext(symbols[..], names', m, v, l, s, subcontext, parent, newPredicted);
        SlotsAfterLearning(l, s, v);
        subcontext := symbols[subcontext].parent;
        l, s, done := LearnIn(l, s, v), s[1..], done + own;
      }
      RootIsFirst(symbols[..], names', l, if parent < 0 then {} else {parent as nat}, 0);
      SlotsFromParts(l, s, v);
      ghost var own := OwnSlots(s, l.Get(s), v);
      ghost var now, out := Interval(newLow, newRange), outData[..newSize];
      ok, known, next, parent, newPredicted, newLow, newRange, newSize, names' :=
        EncodeIn(0, v, next, parent, newPredicted, newLow, newRange, outData, newSize, names', l);
      CodingStep(iv, slots, done, own, [], now, prefix, out);
    }
  
    /** The end of an iteration: the prediction becomes the longest context of order at most two
        and a pool without room for another byte starts anew (ENET_RANGE_CODER_FREE_SYMBOLS). */
    method NextInput(predicted: u16, order: nat, nextSymbol: nat, ghost names: Names, ghost m: Model, ghost v: u8, ghost at: Context)
      returns (newPredicted: u16, newOrder: nat, next: nat, ghost names': Names)
      requires Valid() && m.Rested() && order == |m.recent|
      requires nextSymbol == |names| && Represents(symbols[..], names, LearnThrough(m, m.recent, at, v), {})
      requires predicted < |names| && names[predicted] == m.recent + [v]
      modifies symbols
      ensures CoderAt(symbols[..], names', AdvanceAt(m, v, at), newPredicted, newOrder, next)
    {
      hide LearnThrough;
      ghost var l := LearnThrough(m, m.recent, at, v);
      AdvanceAtOk(m, v, at);
      RootIsFirst(symbols[..], names, l, {}, predicted);
      newPredicted, newOrder, next, names' := predicted, order, nextSymbol, names;
      if order >= SUBCONTEXT_ORDER {
        assert ParentAt(symbols[..], names, predicted);
        newPredicted := symbols[predicted].parent;
      } else {
        newOrder := order + 1;
      }
      LearnedRepresents(symbols[..], names, l, Suffix(m.recent, v));
      if next >= POOL_SIZE - SUBCONTEXT_ORDER {
        newPredicted, newOrder, next, names' := StartPool();
      }
    }

    /** The root context alone in the pool. */
    method StartPool() returns (predicted: u16, order: nat, next: nat, ghost names: Names)
      requires Valid()
      modifies symbols
      ensures CoderAt(symbols[..], names, NewModel, predicted, order, next)
    {
      symbols[0] := NewSymbol(0, 0).(escapes := 1, total := 1 + 256);
      predicted, order, next, names := 0, 0, 1, [[]];
      NewPoolRepresents(symbols[..]);
    }

    /** enet_range_coder_compress: 0 when the output does not fit, else the size of the message's
        encoding. `outside`: the source read the first byte of an empty buffer, as it does when it
        gets to one after the first. */
    method Compress(inBuffers: seq<seq<u8>>, inLimit: nat, outData: array<u8>) returns (size: nat, outside: bool)
      requires Valid()
      modifies symbols, outData
      ensures size <= outData.Length && (outside ==> size == 0)
      ensures var all := FirstEmpty(inBuffers, 1);
              var encoding := Encoding(Flatten(inBuffers[..all]));
              if inLimit == 0 || |inBuffers| == 0 then size == 0 && !outside
              else if |encoding| > outData.Length then size == 0 && (outside ==> all < |inBuffers|)
              else if all < |inBuffers| then outside
              else !outside && size == |encoding| && outData[..size] == encoding
    {
      hide Sent, After, Normalize, Emit, Advance, AdvanceAt, LearnFrom, LearnThrough, Represents, Flush, SlotsFrom, Encoding;
      outside := false;
      if |inBuffers| == 0 || inLimit == 0 {
        return 0, false;
      }
      ghost var all := FirstEmpty(inBuffers, 1);
      ghost var msg := Flatten(inBuffers[..all]);
      FlattenNext(inBuffers, 0, all);
      assert inBuffers[..all] == inBuffers[0..all];
      EncodingIs(msg);
      var predicted, order, next;
      ghost var names, m := [[]], NewModel;
      predicted, order, next, names := StartPool();
      var inData, pos, inBuffer := inBuffers[0], 0, 1;
      var low: u32, range: u32 := 0, WORD - 1;
      size := 0;
      ghost var rest := msg;
      while true
        invariant 1 <= inBuffer <= all <= |inBuffers| && pos <= |inData| && !outside
        invariant rest == inData[pos..] + Flatten(inBuffers[inBuffer..all])
        invariant m.Rested() && CoderAt(symbols[..], names, m, predicted, order, next)
        invariant AllValid(Slots(m, rest)) && Interval(low, range).Ready() && size <= outData.Length
        invariant outData[..size] + Emit(Interval(low, range), Slots(m, rest)) == Encoding(msg)
        decreases |rest|
      {
        if pos >= |inData| {
          if inBuffer >= |inBuffers| {
            break;
          }
          if inBuffers[inBuffer] == [] {
            return 0, true;
          }
          FlattenNext(inBuffers, inBuffer, all);
          inData, pos, inBuffer := inBuffers[inBuffer], 0, inBuffer + 1;
        }
        var value := inData[pos];
        pos := pos + 1;
        NextOfRest(rest, inData, pos - 1, Flatten(inBuffers[inBuffer..all]));
        ghost var iv := Interval(low, range);
        FirstSlots(iv, m, rest);
        AdvanceOk(m, value);
        var ok;
        ok, predicted, next, low, range, size, names :=
          EncodeByte(value, predicted, next, low, range, outData, size, names, m);
        if !ok {
          return 0, false;
        }
        ghost var at := FirstKnowing(m, m.recent, value);
        LearnThroughFirst(m, m.recent, value);
        AdvanceAtFirst(m, value);
        predicted, order, next, names := NextInput(predicted, order, next, names, m, value, at);
        m, rest := Advance(m, value), rest[1..];
      }
      assert rest == [];
      EmitNothing(Interval(low, range));
      var fits;
      fits, size := FlushLow(low, outData, size);
      if !fits {
        return 0, false;
      }
    }
  
    lemma FlattenNext(buffers: seq<seq<u8>>, k: nat, all: nat)
      requires k < all <= |buffers|
      ensures Flatten(buffers[k..all]) == buffers[k] + Flatten(buffers[k + 1..all])
    {
      assert buffers[k..all] == [buffers[k]] + buffers[k + 1..all];
    }

    lemma NextOfRest(rest: seq<u8>, data: seq<u8>, pos: nat, more: seq<u8>)
      requires pos < |data| && rest == data[pos..] + more
      ensures rest != [] && rest[0] == data[pos] && rest[1..] == data[pos + 1..] + more
    {
    }

    // ---------------------------------------------------------- decompressing

    /** ENET_CONTEXT_DECODE: the walk by code point instead of by byte. It makes the same changes
        as the encoder's walk for the byte it finds. With minimum 0 the places where the source
        returns 0 because no symbol fits are never reached. */
    method ContextDecode(c: nat, code: u16, update: u8, minimum: u8, nextSymbol: nat, ghost names: Names, ghost t: Table)
      returns (symbol: u16, value: u8, under: u16, count: u16, next: nat)
      requires Valid() && c < |names| == nextSymbol < POOL_SIZE && Closed(symbols[..], nextSymbol)
      requires minimum <= 1 && ContextAt(symbols[..], names, c, t)
      requires Below(t.counts, 256) + 256 * minimum + update < BOTTOM
      requires code < Below(t.counts, 256) + 256 * minimum
      modifies symbols
      ensures value == Locate(t.counts, minimum, code, 255)
      ensures Visit(symbols[..], symbol, under, count, next) == Encode(old(symbols[..]), nextSymbol, c, value, update, minimum)
    {
      ghost var counts := t.counts;
      ghost var pool0 := symbols[..];
      ghost var v: nat := Locate(counts, minimum, code, 255);
      ghost var base := Weight(v, minimum);
      ghost var goal := Encode(pool0, nextSymbol, c, v, update, minimum);
      WeightIs(v, minimum);
      WeightIs(v + 1, minimum);
      under := 0;
      count := minimum;
      next := nextSymbol;
      assert ClosedAt(pool0, c, next);
      if symbols[c].symbols == 0 {
        OnlyMinimum(counts, minimum, code, v, 0);
        value := code / minimum;
        under := code - code % minimum;
        symbol := next;
        symbols[next] := NewSymbol(value, update);
        next := next + 1;
        symbols[c] := symbols[c].(symbols := symbol - c);
        return;
      }
      symbol, value, under, count, next := DecodeWalk(c, code, update, minimum, nextSymbol, names, t, v);
    }

    /** The loop of ENET_CONTEXT_DECODE. */
    method DecodeWalk(c: nat, code: u16, update: u8, minimum: u8, nextSymbol: nat, ghost names: Names, ghost t: Table, ghost v: u8)
      returns (symbol: u16, value: u8, under: u16, count: u16, next: nat)
      requires Valid() && c < |names| == nextSymbol < POOL_SIZE && Closed(symbols[..], nextSymbol)
      requires minimum <= 1 && ContextAt(symbols[..], names, c, t) && symbols[c].symbols != 0
      requires Below(t.counts, 256) + 256 * minimum + update < BOTTOM
      requires Below(t.counts, v) + Weight(v, minimum) <= code < Below(t.counts, v + 1) + Weight(v + 1, minimum)
      modifies symbols
      ensures value == v
      ensures Visit(symbols[..], symbol, under, count, next) == Encode(old(symbols[..]), nextSymbol, c, v, update, minimum)
    {
      hide Below, Subtree, Child, Weight, Descend, Encode, Closed, NewSymbol, InRange, Add16;
      ghost var counts := t.counts;
      ghost var pool0 := symbols[..];
      ghost var base := Weight(v, minimum);
      ghost var goal := Encode(pool0, nextSymbol, c, v, update, minimum);
      under := 0;
      count := minimum;
      next := nextSymbol;
      EncodeStart(pool0, nextSymbol, c, v, update, minimum);
      BelowNothing(counts);
      var node: nat := c + symbols[c].symbols;
      symbol, value := node, 0;
      ghost var lo: nat, hi: nat := 0, 256;
      while true
        invariant node < nextSymbol == next && Closed(symbols[..], nextSymbol)
        invariant lo <= v < hi <= 256 && Subtree(pool0, names, names[c], counts, node, lo, hi)
        invariant under == Below(counts, lo) && count == minimum
        invariant forall j :: node <= j < POOL_SIZE ==> symbols[j] == pool0[j]
        invariant base + under < BOTTOM
        invariant Descend(symbols[..], nextSymbol, node, v, update, base + under, minimum) == goal
        decreases nextSymbol - node
      {
        DescendStep(symbols[..], nextSymbol, node, v, update, base + under, minimum);
        ghost var x := symbols[node];
        AtNode(pool0, names, names[c], counts, node, lo, hi, minimum, code, v);
        var after, before := Span(under, symbols[node].under, symbols[node].value, symbols[node].count, minimum);
        if code >= after && symbols[node].right != 0 {
          AddFits(base + under, x.under);
          under := under + symbols[node].under;
          lo := x.value + 1;
          node := node + symbols[node].right;
        } else if code < after - before && symbols[node].left != 0 {
          AddUnder(node, update);
          hi := x.value;
          node := node + symbols[node].left;
        } else {
          if v == x.value {
            AddFitsLess(base + under, x.under, x.count);
          }
          symbol, value, under, count, next := DecodeLast(node, code, update, minimum, nextSymbol, under, after, before, base, v);
          break;
        }
      }
    }

    /** The last round of the loop: the node is the byte's symbol, or gets it as a new child. */
    method DecodeLast(
      node: nat, code: u16, update: u8, minimum: u8, nextSymbol: nat, sum: u16, after: u16, before: u16, ghost base: nat, ghost v: u8)
      returns (symbol: u16, value: u8, under: u16, count: u16, next: nat)
      requires Valid() && node < nextSymbol < POOL_SIZE && Closed(symbols[..], nextSymbol) && base + sum < BOTTOM && minimum <= 1
      requires before <= after && (after <= code <==> symbols[node].value < v) && (code < after - before <==> v < symbols[node].value)
      requires symbols[node].value < v ==>
                 && symbols[node].right == 0 && minimum == 1 && base + sum + symbols[node].under < BOTTOM
                 && code == after + (v - symbols[node].value - 1) == base + sum + symbols[node].under
      requires v < symbols[node].value ==>
                 && symbols[node].left == 0 && minimum == 1 && code == base + sum == after - before - (symbols[node].value - v)
      requires v == symbols[node].value ==>
                 Add16(base + sum, symbols[node].under + 0x1_0000 - symbols[node].count) == after - before
      modifies symbols
      ensures value == v
      ensures Visit(symbols[..], symbol, under, count, next) == Descend(old(symbols[..]), nextSymbol, node, v, update, base + sum, minimum)
    {
      hide Descend, Closed, NewSymbol;
      DescendStep(symbols[..], nextSymbol, node, v, update, base + sum, minimum);
      count := minimum;
      next := nextSymbol;
      if code >= after {
        value, under := RightOf(code, after, symbols[node].value, minimum);
        symbol, next := CreateRight(node, value, update, next);
      } else if code < after - before {
        AddUnder(node, update);
        value, under := LeftOf(code, after - before, symbols[node].value, minimum);
        symbol, next := CreateLeft(node, value, update, next);
      } else {
        value := symbols[node].value;
        count := Add16(count, symbols[node].count);
        under := after - before;
        AddUnder(node, update);
        AddCount(node, update);
        symbol := node;
      }
    }

    /** One context's part of decoding a byte: skip it, decode its escape, or find the byte, count
        it up in this context and settle the context. */
    method DecodeIn(
      c: nat, nextSymbol: nat, input: seq<u8>, low: u32, range: u32, code: u32, pos: nat, ghost names: Names, ghost m: Model)
      returns (tried: Outcome, value: u8, bottom: u16, next: nat,
               newLow: u32, newRange: u32, newCode: u32, newPos: nat, ghost names': Names)
      requires Valid() && c < |names| == nextSymbol < POOL_SIZE && m.Ok() && Represents(symbols[..], names, m, {})
      requires Interval(low, range).Ready() && pos <= |input|
      modifies symbols
      ensures newPos <= |input|
      ensures var s := names[c];
              var d := Decoder(Interval(low, range), code, input[pos..]);
              var d' := Decoder(Interval(newLow, newRange), newCode, input[newPos..]);
              match FindIn(m, s, d)
              case Here(v, after) =>
                && tried == GotByte && value == v && d' == after
                && next == |names'| && names' == NamesAfter(names, s, m.Get(s).counts, v)
                && (s != [] ==> names' == names)
                && bottom < next && names'[bottom] == s + [v]
                && Represents(symbols[..], names', LearnIn(m, s, v), {})
              case Escape(after) => tried == GoOn && d' == after && symbols[..] == old(symbols[..]) && next == nextSymbol && names' == names
              case NoMore => tried == GotEnd
              case Lost =>
                && tried == GotLost && symbols[..] == old(symbols[..])
                && (newLow, newRange, newCode, newPos) == (low, range, code, pos)
    {
      hide Normalize, NormalizeDecoder, Represents, Learned, Consume, Below, Quotient, Times;
      ghost var s := names[c];
      ghost var t := m.Get(s);
      ghost var d := Decoder(Interval(low, range), code, input[pos..]);
      GetOk(m, s);
      RootIsFirst(symbols[..], names, m, {}, c);
      value, bottom, next, names' := 0, 0, nextSymbol, names;
      newLow, newRange, newCode, newPos := low, range, code, pos;
      var escapes, total := symbols[c].escapes, symbols[c].total;
      if c != 0 && (escapes <= 0 || escapes >= total) {
        return GoOn, value, bottom, next, newLow, newRange, newCode, newPos, names';
      }
      var step, quotient := ReadCode(low, range, code, total);
      assert quotient == d.Read(total);
      if quotient >= total {
        return GotLost, value, bottom, next, newLow, newRange, newCode, newPos, names';
      }
      if quotient < escapes {
        assert EscapeSlot(t).Valid();
        newLow, newRange, newCode, newPos := DecodeSlot(input, low, step, code, pos, Slot(0, escapes, total), range);
        tried := if c == 0 then GotEnd else GoOn;
        return;
      }
      var under, count;
      value, bottom, under, count, next, names' := FindSymbol(c, quotient - escapes, nextSymbol, names, m);
      SlotOfValid(s, t, value);
      newLow, newRange, newCode, newPos := DecodeSlot(input, low, step, code, pos, Slot(escapes + under, count, total), range);
      ghost var m1 := m.Put(s, Counted(s, t, value)).(next := next);
      SettleContext(c, count, names', m1, {}, t, value);
      assert m1.Put(s, Learned(s, t, value)) == LearnIn(m, s, value);
      tried := GotByte;
    }

    method FindSymbol(c: nat, code: nat, nextSymbol: nat, ghost names: Names, ghost m: Model)
      returns (value: u8, symbol: u16, under: u16, count: u16, next: nat, ghost names': Names)
      requires Valid() && c < |names| == nextSymbol < POOL_SIZE && Represents(symbols[..], names, m, {})
      requires TableOk(names[c], m.Get(names[c]))
      requires code < Below(m.Get(names[c]).counts, 256) + 256 * Minimum(names[c])
      modifies symbols
      ensures var s := names[c];
              var t := m.Get(s);
              && value == Locate(t.counts, Minimum(s), code, 255)
              && (s != [] ==> t.counts[value] > 0)
              && under == value * Minimum(s) + Below(t.counts, value)
              && count == t.counts[value] + Minimum(s)
              && names' == NamesAfter(names, s, t.counts, value) && next == |names'|
              && symbol < next && names'[symbol] == s + [value]
              && Represents(symbols[..], names', m.Put(s, Counted(s, t, value)).(next := next), {})
    {
      ghost var s := names[c];
      ghost var t := m.Get(s);
      RootIsFirst(symbols[..], names, m, {}, c);
      var update := if c == 0 then SYMBOL_DELTA else SUBCONTEXT_SYMBOL_DELTA;
      var minimum := if c == 0 then 1 else 0;
      ghost var v := Locate(t.counts, Minimum(s), code, 255);
      GrownFits(s, t, v);
      EncodeRepresents(symbols[..], names, m, {}, c, v);
      symbol, value, under, count, next := ContextDecode(c, code, update, minimum, nextSymbol, names, t);
      names' := NamesAfter(names, s, t.counts, v);
      assert Waiting(s, t, v, symbol) == {};
    }
  
    /** The decoder's loop up to `patchContexts`: the byte and the context it was found in, which
        has learned it. */
    method FindByte(predicted: u16, nextSymbol: nat, input: seq<u8>, low: u32, range: u32, code: u32, pos: nat,
                    ghost names: Names, ghost m: Model)
      returns (tried: Outcome, subcontext: nat, value: u8, bottom: u16, next: nat,
               newLow: u32, newRange: u32, newCode: u32, newPos: nat, ghost names': Names)
      requires Valid() && m.Rested() && Represents(symbols[..], names, m, {})
      requires predicted < |names| == nextSymbol && names[predicted] == m.recent
      requires Interval(low, range).Ready() && pos <= |input|
      modifies symbols
      ensures newPos <= |input|
      ensures match FindFrom(m, m.recent, Decoder(Interval(low, range), code, input[pos..]))
              case Found(v, at, after) =>
                && tried == GotByte && value == v && SuffixOf(at, m.recent)
                && after == Decoder(Interval(newLow, newRange), newCode, input[newPos..])
                && next == |names'| <= |names| + 1 && names <= names'
                && subcontext < |names| && names[subcontext] == at
                && bottom < next && names'[bottom] == at + [v]
                && Represents(symbols[..], names', LearnIn(m, at, v), {})
                && (at != [] ==> names' == names)
              case End => tried == GotEnd
              case Strayed =>
                && tried == GotLost && symbols[..] == old(symbols[..]) && Interval(newLow, newRange).Ready()
                && subcontext < |names| && SuffixOf(names[subcontext], m.recent)
    {
      hide FindIn, FindFrom, Represents, LearnIn, SuffixOf;
      subcontext := predicted;
      tried, value, bottom, next, names' := GoOn, 0, 0, nextSymbol, names;
      newLow, newRange, newCode, newPos := low, range, code, pos;
      ghost var s := m.recent;
      ghost var goal := FindFrom(m, m.recent, Decoder(Interval(low, range), code, input[pos..]));
      RootIsFirst(symbols[..], names, m, {}, predicted);
      assert SuffixOf(s, m.recent) by { WholeSuffix(s); }
      while subcontext != 0
        invariant subcontext < |names| && names[subcontext] == s && SuffixOf(s, m.recent)
        invariant newPos <= |input| && Interval(newLow, newRange).Ready()
        invariant FindFrom(m, s, Decoder(Interval(newLow, newRange), newCode, input[newPos..])) == goal
        invariant symbols[..] == old(symbols[..])
        decreases |s|
      {
        RootIsFirst(symbols[..], names, m, {}, subcontext);
        FindStep(m, s, Decoder(Interval(newLow, newRange), newCode, input[newPos..]));
        tried, value, bottom, next, newLow, newRange, newCode, newPos, names' :=
          DecodeIn(subcontext, nextSymbol, input, newLow, newRange, newCode, newPos, names, m);
        if tried != GoOn {
          return;
        }
        ParentOf(symbols[..], names, m, subcontext);
        ShorterSuffix(s, m.recent);
        subcontext := symbols[subcontext].parent;
        s := s[1..];
      }
      RootIsFirst(symbols[..], names, m, {}, 0);
      FindStep(m, s, Decoder(Interval(newLow, newRange), newCode, input[newPos..]));
      tried, value, bottom, next, newLow, newRange, newCode, newPos, names' :=
        DecodeIn(0, nextSymbol, input, newLow, newRange, newCode, newPos, names, m);
    }

    /** `patchContexts`: the contexts longer than the one the byte was found in learn it too, and the
        suffix links of their symbols are set, down to the found symbol `bottom`. */
    method PatchContexts(predicted: u16, subcontext: nat, value: u8, bottom: u16, nextSymbol: nat,
                         ghost names: Names, ghost l: Model, ghost recent: Context)
      returns (newPredicted: u16, next: nat, ghost names': Names)
      requires Valid() && l.Ok() && Represents(symbols[..], names, l, {}) && nextSymbol == |names|
      requires predicted < |names| && names[predicted] == recent
      requires subcontext < |names| && SuffixOf(names[subcontext], recent)
      requires bottom < |names| && names[bottom] == names[subcontext] + [value]
      requires |names| + |recent| - |names[subcontext]| <= POOL_SIZE
      modifies symbols
      ensures next == |names'| && Represents(symbols[..], names', LearnAbove(l, recent, names[subcontext], value), {})
      ensures newPredicted < next && names'[newPredicted] == recent + [value]
    {
      hide Represents, LearnIn, Learned, SuffixOf, LearnAbove;
      ghost var at := names[subcontext];
      ghost var goal := LearnAbove(l, recent, at, value);
      newPredicted, next, names' := predicted, nextSymbol, names;
      var patch: nat := predicted;
      var parent: int := -1;
      ghost var s, m := recent, l;
      while patch != subcontext
        invariant next == |names'| && names <= names' && newPredicted < next
        invariant PatchAt(symbols[..], names', m, s, patch, at, value, parent, newPredicted, recent)
        invariant LearnAbove(m, s, at, value) == goal
        decreases |s|
      {
        PatchNot(symbols[..], names', m, s, patch, subcontext, at, value, parent);
        GetOk(m, s);
        ghost var t := m.Get(s);
        ghost var names0 := names';
        var symbol, under, count;
        symbol, under, count, next, newPredicted, names' :=
          CountAndLink(patch, value, next, parent, newPredicted, names', m);
        ghost var m1 := m.Put(s, Counted(s, t, value)).(next := next);
        SettleContext(patch, count, names', m1, Waiting(s, t, value, symbol), t, value);
        LearnInNext(m, s, value, next);
        PatchNext(symbols[..], names0, names', m, s, patch, at, value, parent, symbol, newPredicted, recent);
        parent := symbol;
        patch := symbols[patch].parent;
        m, s := LearnIn(m, s, value), s[1..];
      }
      PatchDone(symbols[..], names', m, s, patch, at, value, parent, newPredicted, recent);
      if parent < 0 {
        newPredicted := bottom;
      } else {
        ghost var pool := symbols[..];
        symbols[parent] := symbols[parent].(parent := bottom);
        LinkRepresents(pool, names', m, {parent as nat}, parent, bottom);
        assert {parent as nat} - {parent as nat} == {};
        assert symbols[..] == pool[parent := pool[parent].(parent := bottom)];
      }
    }

    /** enet_range_coder_decompress, as far as the stream can come from an encoder. `Failed` is the source's
        result 0 for a message longer than the output. Where the code word leaves the interval of a byte's
        slots the result is `Malformed`, and `at` is where the source goes on. */
    method Follow(input: seq<u8>, outData: array<u8>) returns (result: Message, size: nat, at: Position, ghost names: Names, ghost m: Model)
      requires Valid()
      modifies symbols, outData
      ensures result == Decoding(input, outData.Length)
      ensures result.Decoded? ==> size <= outData.Length && outData[..size] == result.bytes
      ensures !result.Decoded? ==> size == 0
      ensures result.Malformed? ==> AtPosition(symbols[..], names, m, at) && at.pos <= |input| && at.size <= outData.Length
    {
      hide Represents, LearnAbove, LearnThrough, AdvanceAt, FindFrom, DecodeFrom;
      at := Position(0, 0, 0, 0, 0, 0, 0, 0, 0);
      names, m := [[]], NewModel;
      if input == [] {
        EncodingNotEmpty([]);
        RoundTrip([], outData.Length);
        return Decoded([]), 0, at, names, m;
      }
      var predicted, order, next;
      predicted, order, next, names := StartPool();
      var low: u32, range: u32 := 0, WORD - 1;
      var code: u32, pos: nat := SeedCode(input);
      size := 0;
      ghost var goal := Decoding(input, outData.Length);
      DecodingIs(input, outData.Length);
      while true
        invariant m.Rested() && CoderAt(symbols[..], names, m, predicted, order, next)
        invariant Interval(low, range).Ready() && pos <= |input| && size <= outData.Length
        invariant goal == PrependAll(outData[..size],
                    DecodeFrom(m, Decoder(Interval(low, range), code, input[pos..]), outData.Length - size))
        decreases outData.Length - size
      {
        ghost var room := outData.Length - size;
        ghost var d := Decoder(Interval(low, range), code, input[pos..]);
        DecodeOnce(m, d, room);
        RootIsFirst(symbols[..], names, m, {}, predicted);
        ghost var names0 := names;
        var tried, subcontext, value, bottom, nextSymbol;
        tried, subcontext, value, bottom, nextSymbol, low, range, code, pos, names :=
          FindByte(predicted, next, input, low, range, code, pos, names, m);
        if tried == GotLost {
          at := Position(predicted, order, next, subcontext, low, range, code, pos, size);
          return Malformed, 0, at, names0, m;
        }
        if tried != GotByte {
          break;
        }
        ghost var found := names0[subcontext];
        LearnInOk(m, found, value);
        FoundFirst(m, m.recent, found, value);
        predicted, next, names := PatchContexts(predicted, subcontext, value, bottom, nextSymbol, names, LearnIn(m, found, value), m.recent);
        if size >= outData.Length {
          return Failed, 0, at, names, m;
        }
        outData[size] := value;
        size := size + 1;
        assert outData[..size] == outData[..size - 1] + [value];
        PrependMore(outData[..size - 1], value, DecodeFrom(AdvanceAt(m, value, found), Decoder(Interval(low, range), code, input[pos..]), outData.Length - size));
        predicted, order, next, names := NextInput(predicted, order, next, names, m, value, found);
        m := AdvanceAt(m, value, found);
      }
      result := Decoded(outData[..size]);
    }
  }
}
