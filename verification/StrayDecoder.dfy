/** enet_range_coder_decompress for every stream. RangeCoder follows it as far as the stream can come from an
    encoder; here it goes on from where the code word has left the interval. The bytes it then writes mean
    nothing, but it ends, divides by no 0, and stays inside the pool and the output. */
module StrayDecoder {
  import opened Words
  import opened RangeInterval
  import opened PpmModel
  import opened PpmDecoder
  import opened SymbolPool
  import opened PoolModel
  import opened SlotCoder
  import opened RangeCoderSteps
  import opened RangeCoderModule
  import opened StrayPool
  import opened StrayContexts
  import opened StraySteps
  import opened StrayStart

  // ------------------------------------------------------------------ one context

  /** The update of a context's own numbers. */
  method Settle(coder: RangeCoder, c: nat, count: u16, ghost n: nat, ghost places: seq<Place>, ghost sym: nat)
    requires coder.Valid() && ButOne(coder.symbols[..], n, places, c) && Due(coder.symbols[..], n, c, sym)
    requires sym < POOL_SIZE && count + DeltaAt(c) == coder.symbols[sym].count + MinimumAt(c)
    modifies coder.symbols
    ensures Sound(coder.symbols[..], n, places) && SameParents(old(coder.symbols[..]), coder.symbols[..], n)
  {
    hide ButOne, Sum, TreeOf, Sound, Renumbered, Due, Closed;
    var symbols := coder.symbols;
    ghost var p := symbols[..];
    var delta, minimum := DeltaAt(c), MinimumAt(c);
    DueFits(p, n, places, c, sym, count);
    var escapes, total := symbols[c].escapes, symbols[c].total;
    if count <= 0 {
      escapes := escapes + SUBCONTEXT_ESCAPE_DELTA;
      total := total + SUBCONTEXT_ESCAPE_DELTA;
    }
    total := total + delta;
    symbols[c] := symbols[c].(escapes := escapes, total := total);
    RenumberedAre(p, symbols[..], c, escapes, total, n);
    if count > 0xFF - 2 * delta + minimum || total > BOTTOM - 0x100 {
      RenumberedKeeps(p, n, places, c, escapes, total);
      RenumberedTree(p, n, c, escapes, total);
      Rescale(coder, c, minimum, n, places);
    } else {
      NumbersSettle(p, n, places, c, escapes, total);
    }
  }

  ghost predicate SameParents(p: Pool, q: Pool, n: nat) {
    forall j :: 0 <= j < n && j < POOL_SIZE ==> q[j].parent == p[j].parent
  }

  lemma RenumberedAre(p: Pool, q: Pool, c: nat, escapes: u16, total: u16, n: nat)
    requires c < POOL_SIZE && q == p[c := p[c].(escapes := escapes, total := total)]
    ensures q == Renumbered(p, c, escapes, total) && SameParents(p, q, n)
  {
  }

  lemma DueFits(p: Pool, n: nat, places: seq<Place>, c: nat, sym: nat, count: nat)
    requires ButOne(p, n, places, c) && Due(p, n, c, sym) && sym < POOL_SIZE && count + DeltaAt(c) == p[sym].count + MinimumAt(c)
    ensures Closed(p, n) && c < n <= POOL_SIZE && p[c].escapes <= p[c].total + DeltaAt(c) && p[c].total <= BOTTOM - 0x100 && (c == 0 ==> 0 < p[c].escapes)
    ensures p[c].total + DeltaAt(c) == p[c].escapes + Sum(p, TreeOf(p, n, c), n) + 256 * MinimumAt(c)
    ensures count <= 0xFF - 2 * DeltaAt(c) + MinimumAt(c) ==> forall j :: j in TreeOf(p, n, c) ==> p[j].count <= 0xFF - DeltaAt(c)
  {
    hide Sum, TreeOf;
  }

  /** ENET_CONTEXT_RESCALE. */
  method Rescale(coder: RangeCoder, c: nat, minimum: nat, ghost n: nat, ghost places: seq<Place>)
    requires coder.Valid() && ButOne(coder.symbols[..], n, places, c) && minimum == MinimumAt(c)
    requires coder.symbols[c].escapes + Sum(coder.symbols[..], TreeOf(coder.symbols[..], n, c), n) + 256 * minimum < BOTTOM
    requires c == 0 ==> 0 < coder.symbols[c].escapes
    modifies coder.symbols
    ensures Sound(coder.symbols[..], n, places) && SameParents(old(coder.symbols[..]), coder.symbols[..], n)
  {
    hide Sum, Sound, Renumbered, Closed, Halving, HalveTree;
    var symbols := coder.symbols;
    ghost var p := symbols[..];
    ClosedIs(p, n, c);
    var total: nat := 0;
    if symbols[c].symbols != 0 {
      HalveTreeIs(p, n, c, symbols[c].symbols);
      total := coder.RescaleSymbols(c + symbols[c].symbols, n);
    }
    ghost var q := symbols[..];
    HalvedOwn(p, q, n, c, total);
    HalvedSettle(p, q, n, places, c, p[c].escapes, total);
    var escapes := symbols[c].escapes - symbols[c].escapes / 2;
    total := total + escapes + 256 * minimum;
    symbols[c] := symbols[c].(escapes := escapes, total := total);
    RenumberedAre(q, symbols[..], c, escapes, total, n);
  }

  lemma HalvedOwn(p: Pool, q: Pool, n: nat, c: nat, total: nat)
    requires Closed(p, n) && c < n
    requires if p[c].symbols == 0 then q == p && total == 0 else Halving(p, q, TreeOf(p, n, c), n, total)
    ensures q[c].escapes == p[c].escapes && SameParents(p, q, n)
  {
    if p[c].symbols != 0 {
      assert forall j :: 0 <= j < n ==> Linked(p[j], q[j]);
    }
  }

  // ------------------------------------------------------------------ decoding in a context

  /** ENET_CONTEXT_ROOT_DECODE and, in other contexts, ENET_CONTEXT_TRY_DECODE: `found` is false where that
      returns 0. The code is any 16-bit number, and what is computed from it is cut to the words it is stored in. */
  method Walk(coder: RangeCoder, c: nat, code: u16, nextSymbol: nat, ghost places: seq<Place>)
    returns (found: bool, symbol: u16, value: u8, under: u16, count: u16, next: nat, ghost how: How)
    requires coder.Valid() && Sound(coder.symbols[..], nextSymbol, places) && c < nextSymbol < POOL_SIZE
    modifies coder.symbols
    ensures found ==>
              && CountedUp(old(coder.symbols[..]), coder.symbols[..], nextSymbol, next, c, symbol, DeltaAt(c), how)
              && symbol < POOL_SIZE && count + DeltaAt(c) == coder.symbols[symbol].count + MinimumAt(c) && 0 < count
              && count <= old(coder.symbols[c].total) - old(coder.symbols[c].escapes)
    ensures (!found ==> c != 0) && (found && c != 0 ==> next == nextSymbol)
  {
    var symbols := coder.symbols;
    ghost var p := symbols[..];
    var update, minimum := DeltaAt(c), MinimumAt(c);
    found, symbol, value, under, count, next, how := true, 0, 0, 0, minimum, nextSymbol, First;
    SoundContext(p, nextSymbol, places, c);
    hide Sound, Sum, TreeOf, CountedUp, Summed;
    if symbols[c].symbols == 0 {
      if c != 0 {
        return false, 0, 0, 0, 0, next, First;
      }
      value := code % 0x100;
      under := code;
      symbol, next := next, next + 1;
      symbols[symbol] := NewSymbol(value, update);
      symbols[c] := symbols[c].(symbols := symbol - c);
      StartsTree(p, symbols[..], nextSymbol, c, value, update);
      return;
    }
    TreeRoot(p, nextSymbol, c);
    ClosedIs(p, nextSymbol, c);
    var node: nat := c + symbols[c].symbols;
    while true
      invariant node in TreeOf(p, nextSymbol, c) && ButSums(p, symbols[..], nextSymbol)
      decreases nextSymbol - node
    {
      TreeKids(p, nextSymbol, c, node);
      SymbolFits(p, nextSymbol, places, c, node);
      ghost var q := symbols[..];
      assert q[node] == p[node].(under := q[node].under);
      var after := (under + symbols[node].under + (symbols[node].value + 1) * minimum) % 0x1_0000;
      var before := symbols[node].count + minimum;
      if code >= after && symbols[node].right != 0 {
        under := Add16(under, symbols[node].under);
        node := node + symbols[node].right;
      } else if code < after - before && symbols[node].left != 0 {
        coder.AddUnder(node, update);
        node := node + symbols[node].left;
      } else {
        found, symbol, value, under, count, next, how := Stop(coder, p, c, node, code, nextSymbol, after, before);
        return;
      }
    }
  }

  /** The last round of the loop. */
  method Stop(coder: RangeCoder, ghost p: Pool, c: nat, node: nat, code: u16, nextSymbol: nat, after: u16, before: u16)
    returns (found: bool, symbol: u16, value: u8, under: u16, count: u16, next: nat, ghost how: How)
    requires coder.Valid() && Closed(p, nextSymbol) && c < nextSymbol < POOL_SIZE
    requires node in TreeOf(p, nextSymbol, c) && ButSums(p, coder.symbols[..], nextSymbol)
    requires p[node].count + DeltaAt(c) <= 0xFF && 0 < p[node].count
    requires code >= after ==> coder.symbols[node].right == 0
    requires code < after - before ==> coder.symbols[node].left == 0
    modifies coder.symbols
    ensures found ==>
              && CountedUp(p, coder.symbols[..], nextSymbol, next, c, symbol, DeltaAt(c), how)
              && symbol < POOL_SIZE && count + DeltaAt(c) == coder.symbols[symbol].count + MinimumAt(c) && 0 < count
              && count <= p[node].count + MinimumAt(c)
    ensures (!found ==> c != 0) && (found && c != 0 ==> next == nextSymbol)
  {
    hide TreeOf, CountedUp, Closed;
    var symbols := coder.symbols;
    ghost var q := symbols[..];
    assert q[node] == p[node].(under := q[node].under);
    var update, minimum := DeltaAt(c), MinimumAt(c);
    found, symbol, value, under, count, next, how := true, 0, 0, code, minimum, nextSymbol, NewChild(node);
    if (code >= after || code < after - before) && c != 0 {
      return false, 0, 0, 0, 0, next, First;
    }
    if code >= after {
      value := (symbols[node].value + 1 + (code - after)) % 0x100;
      symbol, next := coder.CreateRight(node, value, update, next);
      EndsBelow(p, q, symbols[..], nextSymbol, c, node, value, update);
    } else if code < after - before {
      coder.AddUnder(node, update);
      value := (symbols[node].value - 1 - (after - before - code - 1)) % 0x100;
      symbol, next := coder.CreateLeft(node, value, update, next);
      EndsBelow(p, q, symbols[..], nextSymbol, c, node, value, update);
    } else {
      value := symbols[node].value;
      count := count + symbols[node].count;
      under := (after - before) % 0x1_0000;
      coder.AddUnder(node, update);
      coder.AddCount(node, update);
      symbol := node;
      EndsAt(p, q, symbols[..], nextSymbol, c, node, update);
      how := Existing;
    }
  }

  lemma SoundContext(p: Pool, n: nat, places: seq<Place>, c: nat)
    requires Sound(p, n, places) && c < n
    ensures Closed(p, n) && n == |places| && n <= POOL_SIZE && places[0].order == 0
    ensures p[c].escapes + 256 * MinimumAt(c) <= p[c].total && (c == 0 ==> 0 < p[c].escapes)
    ensures Room(p, n, c, DeltaAt(c))
  {
    assert ContextSound(p, n, places, c);
  }

  lemma SymbolFits(p: Pool, n: nat, places: seq<Place>, c: nat, i: nat)
    requires Sound(p, n, places) && c < n && i in TreeOf(p, n, c)
    ensures 0 < p[i].count && p[i].count + DeltaAt(c) <= 0xFF && p[c].escapes + p[i].count + 256 * MinimumAt(c) <= p[c].total
  {
    assert ContextSound(p, n, places, c);
    SumAtLeast(p, TreeOf(p, n, c), n, i);
  }

  /** One context's part of decoding a byte. GotLost is the source's result 0 for a code that no symbol has. */
  method Try(coder: RangeCoder, c: nat, nextSymbol: nat, input: seq<u8>, low: u32, range: u32, code: u32, pos: nat, ghost places: seq<Place>)
    returns (tried: Outcome, value: u8, bottom: u16, next: nat, newLow: u32, newRange: u32, newCode: u32, newPos: nat, ghost places': seq<Place>)
    requires coder.Valid() && Sound(coder.symbols[..], nextSymbol, places) && c < nextSymbol < POOL_SIZE
    requires BOTTOM <= range && pos <= |input|
    modifies coder.symbols
    ensures BOTTOM <= newRange && newPos <= |input|
    ensures tried == GoOn ==> c != 0 && coder.symbols[..] == old(coder.symbols[..])
    ensures tried == GotByte ==>
              && Sound(coder.symbols[..], next, places') && nextSymbol <= next <= nextSymbol + (if c == 0 then 1 else 0)
              && places <= places' && SameParents(old(coder.symbols[..]), coder.symbols[..], nextSymbol)
              && bottom < next == |places'| && places'[bottom].order == places[c].order + 1
  {
    var symbols := coder.symbols;
    ghost var p := symbols[..];
    SoundContext(p, nextSymbol, places, c);
    hide Sound, TreeOf, CountedUp, Quotient;
    value, bottom, next, places' := 0, 0, nextSymbol, places;
    newLow, newRange, newCode, newPos := low, range, code, pos;
    var escapes, total := symbols[c].escapes, symbols[c].total;
    if c != 0 && (escapes <= 0 || escapes >= total) {
      tried := GoOn;
      return;
    }
    var step, quotient := ReadCode(low, range, code, total);
    var code16: u16 := quotient % 0x1_0000;
    if code16 < escapes {
      newLow, newRange, newCode, newPos := DecodeSlot(input, low, step, code, pos, Slot(0, escapes, total), range);
      tried := if c == 0 then GotEnd else GoOn;
      return;
    }
    var found, under, count;
    ghost var how;
    found, bottom, value, under, count, next, how := Walk(coder, c, code16 - escapes, nextSymbol, places);
    if !found {
      tried := GotLost;
      return;
    }
    newLow, newRange, newCode, newPos := DecodeSlot(input, low, step, code, pos, Slot(escapes as nat + under as nat, count, total), range);
    places' := PlacesAfter(places, c, nextSymbol, next);
    CountedSound(p, symbols[..], nextSymbol, next, places, c, bottom, how);
    CountedPlace(p, symbols[..], nextSymbol, next, places, c, bottom, DeltaAt(c), how);
    ghost var q := symbols[..];
    Settle(coder, c, count, next, places', bottom);
    tried := GotByte;
  }

  lemma CountedPlace(p: Pool, q: Pool, n: nat, next: nat, places: seq<Place>, c: nat, sym: nat, d: nat, how: How)
    requires Sound(p, n, places) && c < n && CountedUp(p, q, n, next, c, sym, d, how)
    ensures n <= next <= n + 1 && sym < next == |PlacesAfter(places, c, n, next)| && SameParents(p, q, n)
    ensures PlacesAfter(places, c, n, next)[sym].order == places[c].order + 1
  {
    assert ContextSound(p, n, places, c);
    assert forall j :: 0 <= j < n ==> CountedSymbol(p[j], q[j], how);
  }

  // ------------------------------------------------------------------------ one byte

  /** The suffix links lead from a to b. */
  ghost predicate Leads(p: Pool, n: nat, places: seq<Place>, a: nat, b: nat)
    requires Led(p, n, places) && a < n && b < n
    decreases places[a].order
  {
    a == b || (0 < a && Leads(p, n, places, p[a].parent, b))
  }

  /** Links of symbols of a higher order do not matter. */
  lemma {:induction false} LeadsStill(p: Pool, n: nat, places: seq<Place>, q: Pool, n': nat, places': seq<Place>, a: nat, b: nat)
    requires Led(p, n, places) && Led(q, n', places') && places <= places' && a < n && b < n && Leads(p, n, places, a, b)
    requires forall j :: 0 <= j < n && places[j].order <= places[a].order ==> q[j].parent == p[j].parent
    ensures Leads(q, n', places', a, b)
    decreases places[a].order
  {
    if a != b {
      LeadsStill(p, n, places, q, n', places', p[a].parent, b);
    }
  }

  lemma {:induction false} LeadsOver(p: Pool, n: nat, places: seq<Place>, a: nat, b: nat)
    requires Led(p, n, places) && a < n && 0 < b < n && Leads(p, n, places, a, b)
    ensures Leads(p, n, places, a, p[b].parent)
    decreases places[a].order
  {
    if a != b {
      LeadsOver(p, n, places, p[a].parent, b);
    }
  }

  lemma {:induction false} LeadsLower(p: Pool, n: nat, places: seq<Place>, a: nat, b: nat)
    requires Led(p, n, places) && a < n && b < n && Leads(p, n, places, a, b)
    ensures places[b].order <= places[a].order && (a != b ==> 0 < a && places[b].order < places[a].order)
    decreases places[a].order
  {
    if a != b {
      LeadsLower(p, n, places, p[a].parent, b);
    }
  }

  /** The decoder's loop up to `patchContexts`, from any of the contexts on. */
  method Search(coder: RangeCoder, predicted: nat, from: nat, nextSymbol: nat, input: seq<u8>, low: u32, range: u32, code: u32, pos: nat, ghost places: seq<Place>)
    returns (tried: Outcome, subcontext: nat, value: u8, bottom: u16, next: nat, newLow: u32, newRange: u32, newCode: u32, newPos: nat, ghost places': seq<Place>)
    requires coder.Valid() && Sound(coder.symbols[..], nextSymbol, places) && nextSymbol < POOL_SIZE && predicted < nextSymbol && from < nextSymbol
    requires Leads(coder.symbols[..], nextSymbol, places, predicted, from) && BOTTOM <= range && pos <= |input|
    modifies coder.symbols
    ensures BOTTOM <= newRange && newPos <= |input|
    ensures tried == GotByte ==>
              && Sound(coder.symbols[..], next, places') && nextSymbol <= next <= nextSymbol + 1 && places <= places'
              && subcontext < nextSymbol && Leads(coder.symbols[..], next, places', predicted, subcontext)
              && bottom < next == |places'| && places'[bottom].order == places[subcontext].order + 1
  {
    var symbols := coder.symbols;
    ghost var p := symbols[..];
    hide Sound, Leads;
    subcontext := from;
    tried, value, bottom, next, places' := GoOn, 0, 0, nextSymbol, places;
    newLow, newRange, newCode, newPos := low, range, code, pos;
    SoundIsLed(p, nextSymbol, places);
    while subcontext != 0
      invariant subcontext < nextSymbol && symbols[..] == p && Leads(p, nextSymbol, places, predicted, subcontext)
      invariant BOTTOM <= newRange && newPos <= |input|
      decreases places[subcontext].order
    {
      tried, value, bottom, next, newLow, newRange, newCode, newPos, places' :=
        Try(coder, subcontext, nextSymbol, input, newLow, newRange, newCode, newPos, places);
      if tried != GoOn {
        if tried == GotByte {
          SoundIsLed(symbols[..], next, places');
          LeadsStill(p, nextSymbol, places, symbols[..], next, places', predicted, subcontext);
        }
        return;
      }
      LeadsOver(p, nextSymbol, places, predicted, subcontext);
      subcontext := symbols[subcontext].parent;
    }
    tried, value, bottom, next, newLow, newRange, newCode, newPos, places' :=
      Try(coder, 0, nextSymbol, input, newLow, newRange, newCode, newPos, places);
    if tried == GotByte {
      SoundIsLed(symbols[..], next, places');
      LeadsStill(p, nextSymbol, places, symbols[..], next, places', predicted, subcontext);
    }
  }

  lemma SoundIsLed(p: Pool, n: nat, places: seq<Place>)
    requires Sound(p, n, places)
    ensures Led(p, n, places)
  {
  }

  /** `patchContexts`: the byte is counted up in the contexts that the search has left behind, and their
      symbols are linked, down to the found one. */
  method Patch(coder: RangeCoder, predicted: nat, subcontext: nat, value: u8, bottom: u16, nextSymbol: nat, ghost places: seq<Place>)
    returns (newPredicted: nat, next: nat, ghost places': seq<Place>)
    requires coder.Valid() && Sound(coder.symbols[..], nextSymbol, places) && predicted < nextSymbol && subcontext < nextSymbol
    requires Leads(coder.symbols[..], nextSymbol, places, predicted, subcontext)
    requires bottom < nextSymbol && places[bottom].order == places[subcontext].order + 1
    requires nextSymbol + places[predicted].order <= POOL_SIZE
    modifies coder.symbols
    ensures Sound(coder.symbols[..], next, places') && newPredicted < next && places'[newPredicted].order == places[predicted].order + 1
  {
    var symbols := coder.symbols;
    hide Sound, Leads;
    newPredicted, next, places' := predicted, nextSymbol, places;
    var patch: nat, parent: int := predicted, -1;
    SoundIsLed(symbols[..], next, places');
    while patch != subcontext
      invariant Sound(symbols[..], next, places') && Led(symbols[..], next, places') && places <= places'
      invariant patch < next && Leads(symbols[..], next, places', patch, subcontext)
      invariant next + places'[patch].order <= POOL_SIZE
      invariant if parent < 0 then patch == predicted
                else 0 < parent < next && places'[patch].order + 1 < places'[parent].order
                     && newPredicted < next && places'[newPredicted].order == places[predicted].order + 1
      decreases places'[patch].order
    {
      ghost var p, n, before := symbols[..], next, places';
      LeadsLower(p, n, before, patch, subcontext);
      LeadsOn(p, n, before, patch, subcontext);
      var symbol;
      symbol, next, places' := PatchOne(coder, patch, value, parent, next, places');
      if parent < 0 {
        newPredicted := symbol;
      }
      SoundIsLed(symbols[..], next, places');
      LeadsStill(p, n, before, symbols[..], next, places', p[patch].parent, subcontext);
      parent := symbol;
      patch := symbols[patch].parent;
    }
    if parent < 0 {
      newPredicted := bottom;
    } else {
      LinkSound(symbols[..], next, places', parent, bottom);
      symbols[parent] := symbols[parent].(parent := bottom);
    }
  }

  lemma LeadsOn(p: Pool, n: nat, places: seq<Place>, a: nat, b: nat)
    requires Led(p, n, places) && a < n && b < n && a != b && Leads(p, n, places, a, b)
    ensures 0 < a && Leads(p, n, places, p[a].parent, b)
  {
  }

  /** One context's part of it. */
  method PatchOne(coder: RangeCoder, patch: nat, value: u8, parent: int, nextSymbol: nat, ghost places: seq<Place>)
    returns (symbol: u16, next: nat, ghost places': seq<Place>)
    requires coder.Valid() && Sound(coder.symbols[..], nextSymbol, places) && 0 < patch < nextSymbol == |places| && nextSymbol < POOL_SIZE
    requires parent < 0 || (0 < parent < nextSymbol && places[patch].order + 1 < places[parent].order)
    modifies coder.symbols
    ensures Sound(coder.symbols[..], next, places') && nextSymbol <= next <= nextSymbol + 1 && places <= places'
    ensures 0 < symbol < next == |places'| && places'[symbol].order == places[patch].order + 1
    ensures forall j :: 0 <= j < nextSymbol && j != parent ==> coder.symbols[j].parent == old(coder.symbols[j].parent)
  {
    var symbols := coder.symbols;
    ghost var p := symbols[..];
    SoundContext(p, nextSymbol, places, patch);
    hide Sound, TreeOf, CountedUp, Encode, ButOne, Due, Room, Led, WithParent;
    ghost var how := EncodeCounted(p, nextSymbol, patch, value, SUBCONTEXT_SYMBOL_DELTA, 0);
    var under, count;
    symbol, under, count, next := coder.ContextEncode(patch, value, SUBCONTEXT_SYMBOL_DELTA, 0, nextSymbol);
    places' := PlacesAfter(places, patch, nextSymbol, next);
    ghost var q := symbols[..];
    CountedSound(p, q, nextSymbol, next, places, patch, symbol, how);
    CountedPlace(p, q, nextSymbol, next, places, patch, symbol, DeltaAt(patch), how);
    if parent >= 0 {
      LinkButOne(q, next, places', patch, symbol, parent, symbol);
      symbols[parent] := symbols[parent].(parent := symbol);
    }
    ghost var r := symbols[..];
    Settle(coder, patch, count, next, places', symbol);
  }

  // ------------------------------------------------------------------------ all bytes

  /** The end of an iteration: the next prediction, and a new pool when this one is full. */
  method NextInput(coder: RangeCoder, predicted: nat, order: nat, nextSymbol: nat, ghost places: seq<Place>)
    returns (newPredicted: nat, newOrder: nat, next: nat, ghost places': seq<Place>)
    requires coder.Valid() && Sound(coder.symbols[..], nextSymbol, places) && predicted < nextSymbol && 0 < places[predicted].order <= order + 1
    requires order <= SUBCONTEXT_ORDER
    modifies coder.symbols
    ensures Between(coder.symbols[..], next, places', newPredicted, newOrder)
  {
    hide Sound;
    SoundIsLed(coder.symbols[..], nextSymbol, places);
    newPredicted, newOrder, next, places' := predicted, order, nextSymbol, places;
    if order >= SUBCONTEXT_ORDER {
      newPredicted := coder.symbols[predicted].parent;
      OrderOfParent(coder.symbols[..], nextSymbol, places, predicted);
    } else {
      newOrder := order + 1;
    }
    if next >= POOL_SIZE - SUBCONTEXT_ORDER {
      ghost var names;
      newPredicted, newOrder, next, names := coder.StartPool();
      NewModelRested();
      CoderIsBetween(coder.symbols[..], names, NewModel, newPredicted, newOrder, next);
      places' := PlacesOf(names);
    }
  }

  lemma OrderOfParent(p: Pool, n: nat, places: seq<Place>, a: nat)
    requires Led(p, n, places) && a < n && 0 < places[a].order
    ensures p[a].parent < n && places[p[a].parent].order < places[a].order
  {
  }

  /** Between two bytes: the predicted context is of the current order at most, and there is room for the
      symbols of another byte. */
  ghost predicate Between(p: Pool, n: nat, places: seq<Place>, predicted: nat, order: nat) {
    && Sound(p, n, places) && predicted < n == |places| && n < POOL_SIZE - SUBCONTEXT_ORDER
    && places[predicted].order <= order <= SUBCONTEXT_ORDER
  }

  lemma NewModelRested()
    ensures NewModel.Rested()
  {
  }

  lemma CoderIsBetween(p: Pool, names: Names, m: Model, predicted: nat, order: nat, next: nat)
    requires m.Rested() && CoderAt(p, names, m, predicted, order, next)
    ensures Between(p, next, PlacesOf(names), predicted, order)
  {
    RepresentsSound(p, names, m);
  }

  /** The contexts of the suffixes are where the suffix links lead. */
  lemma {:induction false} SuffixLeads(p: Pool, names: Names, m: Model, a: nat, b: nat)
    requires Represents(p, names, m, {}) && a < |names| && b < |names| && SuffixOf(names[b], names[a])
    requires Led(p, |names|, PlacesOf(names))
    ensures Leads(p, |names|, PlacesOf(names), a, b)
    decreases |names[a]|
  {
    hide AllContexts, AllKnown, AllNamed;
    if names[a] == names[b] {
      SameName(names, a, b);
    } else {
      ShorterSuffix(names[b], names[a]);
      ParentOf(p, names, m, a);
      SuffixLeads(p, names, m, p[a].parent, b);
    }
  }

  /** The decoder's loop from the middle of a byte on. */
  method Continue(coder: RangeCoder, at: Position, input: seq<u8>, outData: array<u8>, ghost places0: seq<Place>) returns (size: nat)
    requires coder.Valid() && Between(coder.symbols[..], at.next, places0, at.predicted, at.order)
    requires at.subcontext < at.next && Leads(coder.symbols[..], at.next, places0, at.predicted, at.subcontext)
    requires BOTTOM <= at.range && at.pos <= |input| && at.size <= outData.Length
    modifies coder.symbols, outData
    ensures size <= outData.Length
  {
    hide Sound, Leads;
    var predicted: nat, order, next, from := at.predicted, at.order, at.next, at.subcontext;
    var low: u32, range: u32, code: u32, pos: nat := at.low, at.range, at.code, at.pos;
    size := at.size;
    ghost var places := places0;
    SoundIsLed(coder.symbols[..], next, places);
    while true
      invariant Between(coder.symbols[..], next, places, predicted, order) && from < next
      invariant Led(coder.symbols[..], next, places) && Leads(coder.symbols[..], next, places, predicted, from)
      invariant BOTTOM <= range && pos <= |input| && size <= outData.Length
      decreases outData.Length - size
    {
      var tried, subcontext, value, bottom;
      ghost var before := places;
      tried, subcontext, value, bottom, next, low, range, code, pos, places :=
        Search(coder, predicted, from, next, input, low, range, code, pos, places);
      if tried == GotLost {
        return 0;
      }
      if tried != GotByte {
        break;
      }
      predicted, next, places := Patch(coder, predicted, subcontext, value, bottom, next, places);
      if size >= outData.Length {
        return 0;
      }
      outData[size] := value;
      size := size + 1;
      predicted, order, next, places := NextInput(coder, predicted, order, next, places);
      from := predicted;
      LeadsHere(coder.symbols[..], next, places, predicted);
    }
  }

  lemma LeadsHere(p: Pool, n: nat, places: seq<Place>, a: nat)
    requires Sound(p, n, places) && a < n
    ensures Led(p, n, places) && Leads(p, n, places, a, a)
  {
  }

  /** enet_range_coder_decompress. */
  method Decompress(coder: RangeCoder, input: seq<u8>, outData: array<u8>) returns (size: nat)
    requires coder.Valid()
    modifies coder.symbols, outData
    ensures size <= outData.Length
    ensures var result := Decoding(input, outData.Length);
            && (result.Decoded? ==> size == |result.bytes| && outData[..size] == result.bytes)
            && (result.Failed? ==> size == 0)
  {
    var result, at;
    ghost var names, m;
    result, size, at, names, m := coder.Follow(input, outData);
    if result.Malformed? {
      RepresentsSound(coder.symbols[..], names, m);
      CoderIsBetween(coder.symbols[..], names, m, at.predicted, at.order, at.next);
      SuffixLeads(coder.symbols[..], names, m, at.predicted, at.subcontext);
      size := Continue(coder, at, input, outData, PlacesOf(names));
    }
  }
}
