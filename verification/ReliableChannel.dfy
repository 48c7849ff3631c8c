/** One reliable ENet channel end to end: a sender that gates new windows, a network that loses,
    duplicates, delays and reorders datagrams, and the receiver. */
module ReliableChannel {
  import opened SequenceWindows
  import opened Fragments
  import opened ReliableReceiver

  // ------------------------------------------------------- numbering messages

  predicate Sendable(m: Message) {
    0 < m.room && FragmentCount(m) <= MAXIMUM_FRAGMENT_COUNT
  }

  /** How many commands, and so how many numbers, a message takes. */
  function Size(m: Message): (n: nat)
    requires Sendable(m)
    ensures n >= 1 && (!Fits(m) ==> n == |Cut(m)|)
  {
    if Fits(m) then 1 else
      CutTiles(m.data, m.room, 0);
      |Cut(m)|
  }

  predicate AllSendable(q: seq<Message>) {
    forall i :: 0 <= i < |q| ==> Sendable(q[i])
  }

  /** The number of the first command of message i. Numbers start at 1. */
  function Start(q: seq<Message>, i: nat): (n: nat)
    requires AllSendable(q) && i <= |q|
    ensures n >= 1
  {
    if i == 0 then 1 else Start(q, i - 1) + Size(q[i - 1])
  }

  lemma {:induction false} StartGrows(q: seq<Message>, i: nat, j: nat)
    requires AllSendable(q) && i < j <= |q|
    ensures Start(q, i) + Size(q[i]) <= Start(q, j)
    decreases j
  {
    if i < j - 1 {
      StartGrows(q, i, j - 1);
    }
  }

  lemma {:induction false} StartOfMore(q: seq<Message>, m: Message, i: nat)
    requires AllSendable(q) && Sendable(m) && i <= |q|
    ensures Start(q + [m], i) == Start(q, i)
  {
    if i > 0 {
      StartOfMore(q, m, i - 1);
    }
  }

  /** What the wire carries for command k of message i. */
  function CommandOf(q: seq<Message>, i: nat, k: nat): Command
    requires AllSendable(q) && i < |q| && k < Size(q[i])
  {
    var m := q[i];
    var number := Wire(Start(q, i) + k);
    if Fits(m) then Plain(number, m.data)
    else Piece(number, Wire(Start(q, i)), Size(m), k, |m.data|, Cut(m)[k])
  }

  // ---------------------------------------------------------- receiver state

  /** The number of the last command delivered. */
  function Done(q: seq<Message>, r: Receiver): (c: nat)
    requires AllSendable(q) && |r.dispatched| <= |q|
  {
    Start(q, |r.dispatched|) - 1
  }

  /** A queued command holds part of message i, with the right bytes. */
  predicate Matches(q: seq<Message>, i: nat, entry: Incoming)
    requires AllSendable(q) && i < |q|
  {
    var m := q[i];
    && entry.number == Wire(Start(q, i))
    && if Fits(m) then entry == Incoming(entry.number, 0, [], 0, m.data)
       else && entry.fragmentCount == |entry.have| == Size(m) && entry.remaining == Missing(entry.have)
            && InPlace(Cut(m), entry.have, m.data, entry.data)
  }

  predicate Increasing(ids: seq<nat>) {
    forall p1, p2 :: 0 <= p1 < p2 < |ids| ==> ids[p1] < ids[p2]
  }

  predicate Ahead(q: seq<Message>, r: Receiver, i: nat)
    requires AllSendable(q) && |r.dispatched| <= |q|
  {
    |r.dispatched| <= i < |q| && Window(Start(q, i)) <= Window(Done(q, r)) + 6
  }

  predicate Delivered(q: seq<Message>, r: Receiver) {
    |r.dispatched| <= |q| && forall i :: 0 <= i < |r.dispatched| ==> r.dispatched[i] == q[i].data
  }

  /** `ids` names, for each queued command, the message it is part of. */
  predicate Buffers(q: seq<Message>, r: Receiver, ids: seq<nat>) {
    && AllSendable(q) && Delivered(q, r)
    && r.current == Wire(Done(q, r))
    && |ids| == |r.incoming| && Increasing(ids)
    && forall p :: 0 <= p < |ids| ==> Ahead(q, r, ids[p]) && Matches(q, ids[p], r.incoming[p])
  }

  predicate HasPiece(m: Message, entry: Incoming, k: nat) {
    Fits(m) || (k < |entry.have| && entry.have[k])
  }

  /** Command k of message i has been delivered or is in the queue. */
  predicate Held(q: seq<Message>, r: Receiver, ids: seq<nat>, i: nat, k: nat)
    requires Buffers(q, r, ids) && i < |q| && k < Size(q[i])
  {
    i < |r.dispatched| || exists p :: 0 <= p < |ids| && ids[p] == i && HasPiece(q[i], r.incoming[p], k)
  }

  lemma AheadNear(q: seq<Message>, r: Receiver, i: nat)
    requires AllSendable(q) && |r.dispatched| <= |q| && Ahead(q, r, i)
    ensures Done(q, r) < Start(q, i) < Done(q, r) + NUMBERS
  {
    if |r.dispatched| < i {
      StartGrows(q, |r.dispatched|, i);
    }
  }

  lemma BuffersWellFormed(q: seq<Message>, r: Receiver, ids: seq<nat>)
    requires Buffers(q, r, ids)
    ensures WellFormed(r.incoming)
  {
    forall k | 0 <= k < |r.incoming|
      ensures |r.incoming[k].have| == r.incoming[k].fragmentCount && r.incoming[k].remaining == Missing(r.incoming[k].have)
    {
      assert Matches(q, ids[k], r.incoming[k]);
    }
  }

  predicate AllAfter(ids: seq<nat>, at: nat, i: nat) {
    forall p :: at <= p < |ids| ==> i < ids[p]
  }

  /** Message i belongs at position `at` of the queue. */
  predicate Splits(ids: seq<nat>, at: nat, i: nat) {
    at <= |ids| && (forall p :: 0 <= p < at ==> ids[p] < i) && AllAfter(ids, at, i)
  }

  lemma SplitsHere(ids: seq<nat>, m: nat, i: nat)
    requires Increasing(ids) && m <= |ids| && AllAfter(ids, m, i)
    ensures m == 0 || ids[m - 1] < i ==> Splits(ids, m, i)
    ensures m > 0 && i < ids[m - 1] ==> AllAfter(ids, m - 1, i)
  {
  }

  /** The queue is searched by wire numbers; this is what the search finds. */
  lemma {:induction false} SearchFinds(q: seq<Message>, r: Receiver, ids: seq<nat>, m: nat, i: nat)
    requires Buffers(q, r, ids) && m <= |ids| && Ahead(q, r, i)
    requires AllAfter(ids, m, i)
    ensures var place := FindPlace(r.incoming[..m], r.current, Wire(Start(q, i)));
            if place.Found? then ids[place.at] == i
            else Splits(ids, place.at, i)
  {
    if m > 0 {
      hide Matches, Wire, Start, Size, Window, Sendable, Done, Splits, AllAfter, Increasing;
      SplitsHere(ids, m, i);
      var list := r.incoming[..m];
      assert list[..m - 1] == r.incoming[..m - 1];
      var j := ids[m - 1];
      assert Ahead(q, r, j) && Matches(q, j, r.incoming[m - 1]);
      MatchesNumber(q, j, r.incoming[m - 1]);
      AheadNear(q, r, i);
      AheadNear(q, r, j);
      WireOrder(Start(q, i), Start(q, j), Done(q, r));
      WireOrder(Start(q, j), Start(q, i), Done(q, r));
      if i < j {
        StartGrows(q, i, j);
        SearchFinds(q, r, ids, m - 1, i);
      } else if j < i {
        StartGrows(q, j, i);
      }
    }
  }

  predicate HoldsMore(q: seq<Message>, r: Receiver, ids: seq<nat>, r': Receiver, ids': seq<nat>)
    requires Buffers(q, r, ids) && Buffers(q, r', ids')
  {
    forall i, k :: 0 <= i < |q| && 0 <= k < Size(q[i]) && Held(q, r, ids, i, k) ==> Held(q, r', ids', i, k)
  }

  /** Nothing is held that was not, but for command k of message i. */
  predicate HoldsOnly(q: seq<Message>, r: Receiver, ids: seq<nat>, r': Receiver, ids': seq<nat>, i: nat, k: nat)
    requires Buffers(q, r, ids) && Buffers(q, r', ids')
  {
    forall j, l :: 0 <= j < |q| && 0 <= l < Size(q[j]) && Held(q, r', ids', j, l) ==> Held(q, r, ids, j, l) || (j == i && l == k)
  }

  // ------------------------------------------------ what each operation keeps

  lemma FrontId(q: seq<Message>, r: Receiver, ids: seq<nat>)
    requires Buffers(q, r, ids) && FrontReady(r)
    ensures |ids| > 0 && ids[0] == |r.dispatched| < |q| && Matches(q, ids[0], r.incoming[0])
  {
    hide Matches, Wire, Delivered;
    var i, d, c := ids[0], |r.dispatched|, Done(q, r);
    assert Ahead(q, r, i) && Matches(q, i, r.incoming[0]);
    MatchesNumber(q, i, r.incoming[0]);
    AheadNear(q, r, i);
    WireSum(c, 1);
    WireOrder(Start(q, i), c + 1, c);
    if d < i {
      StartGrows(q, d, i);
    }
  }

  lemma MatchesNumber(q: seq<Message>, i: nat, entry: Incoming)
    requires AllSendable(q) && i < |q| && Matches(q, i, entry)
    ensures entry.number == Wire(Start(q, i))
  {
  }

  /** A command dispatched from the front is the next message, with all its bytes. */
  lemma {:induction false} FrontIsNext(q: seq<Message>, r: Receiver, ids: seq<nat>)
    requires Buffers(q, r, ids) && FrontReady(r)
    ensures |ids| > 0 && ids[0] == |r.dispatched| < |q| && r.incoming[0].data == q[ids[0]].data
    ensures LastNumber(r.incoming[0]) == Wire(Start(q, ids[0] + 1) - 1)
  {
    FrontId(q, r, ids);
    hide Buffers, Matches, LastNumber, Wire, Start;
    CompleteEntry(q, ids[0], r.incoming[0]);
  }

  lemma {:induction false} CompleteEntry(q: seq<Message>, i: nat, entry: Incoming)
    requires AllSendable(q) && i < |q| && Matches(q, i, entry) && entry.remaining == 0
    ensures entry.data == q[i].data && LastNumber(entry) == Wire(Start(q, i + 1) - 1)
  {
    hide Wire, InPlace, Tiles, Missing, Cut;
    WireSum(Start(q, i), Size(q[i]) - 1);
    if !Fits(q[i]) {
      CutTiles(q[i].data, q[i].room, 0);
      CutIsAll(q[i]);
      CompleteIsEqual(Cut(q[i]), entry.have, q[i].data, entry.data);
    }
  }

  lemma CutIsAll(m: Message)
    requires Sendable(m)
    ensures Cut(m) == CutFrom(m.data, m.room, 0)
  {
  }

  lemma FrontKeeps(q: seq<Message>, r: Receiver, ids: seq<nat>)
    requires Buffers(q, r, ids) && FrontReady(r)
    ensures |ids| > 0 && Buffers(q, DispatchFront(r), ids[1..])
    ensures Done(q, r) <= Done(q, DispatchFront(r))
    ensures HoldsMore(q, r, ids, DispatchFront(r), ids[1..]) && HoldsMore(q, DispatchFront(r), ids[1..], r, ids)
  {
    hide Matches, HasPiece;
    FrontIsNext(q, r, ids);
    FrontId(q, r, ids);
    var f := DispatchFront(r);
    forall p | 0 <= p < |ids| - 1
      ensures Ahead(q, f, ids[1..][p]) && Matches(q, ids[1..][p], f.incoming[p])
    {
      assert Ahead(q, r, ids[p + 1]) && Matches(q, ids[p + 1], r.incoming[p + 1]);
    }
    forall i, k | 0 <= i < |q| && 0 <= k < Size(q[i]) && Held(q, r, ids, i, k)
      ensures Held(q, f, ids[1..], i, k)
    {
      if i >= |r.dispatched| {
        var p :| 0 <= p < |ids| && ids[p] == i && HasPiece(q[i], r.incoming[p], k);
        if p > 0 {
          assert ids[1..][p - 1] == i;
        }
      }
    }
    forall i, k | 0 <= i < |q| && 0 <= k < Size(q[i]) && Held(q, f, ids[1..], i, k)
      ensures Held(q, r, ids, i, k)
    {
      if i == |r.dispatched| {
        CompleteHas(q, i, r.incoming[0], k);
        assert ids[0] == i;
      } else if i > |r.dispatched| {
        var p :| 0 <= p < |ids| - 1 && ids[1..][p] == i && HasPiece(q[i], f.incoming[p], k);
        assert ids[p + 1] == i && r.incoming[p + 1] == f.incoming[p];
      }
    }
  }

  lemma CompleteHas(q: seq<Message>, i: nat, entry: Incoming, k: nat)
    requires AllSendable(q) && i < |q| && Matches(q, i, entry) && entry.remaining == 0 && k < Size(q[i])
    ensures HasPiece(q[i], entry, k)
  {
    hide InPlace;
    if !Fits(q[i]) {
      MissingNone(entry.have);
    }
  }

  lemma {:induction false} DispatchKeeps(q: seq<Message>, r: Receiver, ids: seq<nat>) returns (ids': seq<nat>)
    requires Buffers(q, r, ids)
    ensures Buffers(q, Dispatch(r), ids') && Done(q, r) <= Done(q, Dispatch(r))
    ensures HoldsMore(q, r, ids, Dispatch(r), ids') && HoldsMore(q, Dispatch(r), ids', r, ids)
    ensures |ids'| <= |ids| && ids' == ids[|ids| - |ids'|..]
    decreases |r.incoming|
  {
    hide Buffers, Held, FrontReady, DispatchFront;
    if FrontReady(r) {
      FrontKeeps(q, r, ids);
      FrontShrinks(r);
      ids' := DispatchKeeps(q, DispatchFront(r), ids[1..]);
    } else {
      ids' := ids;
    }
  }

  lemma FrontShrinks(r: Receiver)
    requires FrontReady(r)
    ensures |DispatchFront(r).incoming| < |r.incoming|
  {
  }

  function InsertId(ids: seq<nat>, at: nat, i: nat): seq<nat>
    requires at <= |ids|
  {
    ids[..at] + [i] + ids[at..]
  }

  lemma InsertKeeps(q: seq<Message>, r: Receiver, ids: seq<nat>, at: nat, i: nat, entry: Incoming)
    requires Buffers(q, r, ids) && at <= |ids| && Ahead(q, r, i) && Matches(q, i, entry)
    requires Splits(ids, at, i)
    ensures Buffers(q, Insert(r, at, entry), InsertId(ids, at, i))
    ensures HoldsMore(q, r, ids, Insert(r, at, entry), InsertId(ids, at, i))
    ensures HoldsPieces(q, r, ids, Insert(r, at, entry), InsertId(ids, at, i), i, entry)
  {
    hide Matches, HasPiece;
    var r', ids' := Insert(r, at, entry), InsertId(ids, at, i);
    forall p | 0 <= p < |ids'|
      ensures Ahead(q, r', ids'[p]) && Matches(q, ids'[p], r'.incoming[p])
    {
      if p != at {
        var p0 := if p < at then p else p - 1;
        assert ids'[p] == ids[p0] && r'.incoming[p] == r.incoming[p0];
        assert Ahead(q, r, ids[p0]);
      }
    }
    assert Buffers(q, r', ids');
    InsertHolds(q, r, ids, at, i, entry);
  }

  /** What is newly held is in a new queued command for message i. */
  predicate HoldsPieces(q: seq<Message>, r: Receiver, ids: seq<nat>, r': Receiver, ids': seq<nat>, i: nat, entry: Incoming)
    requires Buffers(q, r, ids) && Buffers(q, r', ids') && i < |q|
  {
    forall j, l :: 0 <= j < |q| && 0 <= l < Size(q[j]) && Held(q, r', ids', j, l) ==>
      Held(q, r, ids, j, l) || (j == i && HasPiece(q[i], entry, l))
  }

  lemma InsertHolds(q: seq<Message>, r: Receiver, ids: seq<nat>, at: nat, i: nat, entry: Incoming)
    requires Buffers(q, r, ids) && at <= |ids| && i < |q| && Buffers(q, Insert(r, at, entry), InsertId(ids, at, i))
    ensures HoldsMore(q, r, ids, Insert(r, at, entry), InsertId(ids, at, i))
    ensures HoldsPieces(q, r, ids, Insert(r, at, entry), InsertId(ids, at, i), i, entry)
  {
    hide Buffers, HasPiece;
    BuffersLength(q, r, ids);
    var r', ids' := Insert(r, at, entry), InsertId(ids, at, i);
    forall j, k | 0 <= j < |q| && 0 <= k < Size(q[j]) && Held(q, r, ids, j, k)
      ensures Held(q, r', ids', j, k)
    {
      if j >= |r.dispatched| {
        var p :| 0 <= p < |ids| && ids[p] == j && HasPiece(q[j], r.incoming[p], k);
        var p1 := if p < at then p else p + 1;
        assert ids'[p1] == j && r'.incoming[p1] == r.incoming[p];
      }
    }
    forall j, k | 0 <= j < |q| && 0 <= k < Size(q[j]) && Held(q, r', ids', j, k)
      ensures Held(q, r, ids, j, k) || (j == i && HasPiece(q[i], entry, k))
    {
      if j >= |r.dispatched| {
        var p1 :| 0 <= p1 < |ids'| && ids'[p1] == j && HasPiece(q[j], r'.incoming[p1], k);
        if p1 != at {
          var p := if p1 < at then p1 else p1 - 1;
          assert ids[p] == j && r.incoming[p] == r'.incoming[p1];
        }
      }
    }
  }

  lemma BuffersLength(q: seq<Message>, r: Receiver, ids: seq<nat>)
    requires Buffers(q, r, ids)
    ensures AllSendable(q) && |ids| == |r.incoming|
  {
  }

  lemma MatchesFragment(q: seq<Message>, i: nat, entry: Incoming, k: nat)
    requires AllSendable(q) && i < |q| && !Fits(q[i]) && Matches(q, i, entry) && k < Size(q[i]) && !entry.have[k]
    ensures var f := Cut(q[i])[k];
            f.offset + |f.bytes| <= |entry.data| && entry.remaining > 0 && Matches(q, i, WithFragment(entry, k, f))
  {
    hide Tiles, InPlace;
    var m := q[i];
    CutTiles(m.data, m.room, 0);
    MissingOneLess(entry.have, k);
    PatchKeeps(Cut(m), entry.have, m.data, entry.data, k);
  }

  lemma SlotFits(q: seq<Message>, r: Receiver, ids: seq<nat>, p: nat, k: nat)
    requires Buffers(q, r, ids) && p < |ids| && !Fits(q[ids[p]]) && k < Size(q[ids[p]])
    ensures p < |r.incoming| && k < |r.incoming[p].have| && WellFormed(r.incoming)
    ensures var f := Cut(q[ids[p]])[k]; f.offset + |f.bytes| <= |r.incoming[p].data|
  {
    hide Tiles;
    var m := q[ids[p]];
    assert Matches(q, ids[p], r.incoming[p]);
    CutTiles(m.data, m.room, 0);
    TileAt(Cut(m), m.data, 0, k);
    BuffersWellFormed(q, r, ids);
  }

  lemma ReplaceKeeps(q: seq<Message>, r: Receiver, ids: seq<nat>, p: nat, k: nat)
    requires Buffers(q, r, ids) && p < |ids| && !Fits(q[ids[p]]) && k < Size(q[ids[p]])
    requires p < |r.incoming| && k < |r.incoming[p].have| && !r.incoming[p].have[k]
    ensures var entry, f := r.incoming[p], Cut(q[ids[p]])[k];
            && f.offset + |f.bytes| <= |entry.data| && entry.remaining > 0
            && var s := r.(incoming := r.incoming[p := WithFragment(entry, k, f)]);
               && Buffers(q, s, ids) && HoldsMore(q, r, ids, s, ids) && Held(q, s, ids, ids[p], k)
               && HoldsOnly(q, r, ids, s, ids, ids[p], k)
  {
    hide Matches, Size, Cut;
    var entry, f := r.incoming[p], Cut(q[ids[p]])[k];
    assert Ahead(q, r, ids[p]) && Matches(q, ids[p], entry);
    MatchesFragment(q, ids[p], entry, k);
    var s := r.(incoming := r.incoming[p := WithFragment(entry, k, f)]);
    forall p' | 0 <= p' < |ids|
      ensures Ahead(q, s, ids[p']) && Matches(q, ids[p'], s.incoming[p'])
    {
      assert Ahead(q, r, ids[p']) && Matches(q, ids[p'], r.incoming[p']);
    }
    assert Buffers(q, s, ids);
    ReplaceHolds(q, r, ids, p, k, WithFragment(entry, k, f));
    assert HasPiece(q[ids[p]], s.incoming[p], k);
  }

  lemma ReplaceHolds(q: seq<Message>, r: Receiver, ids: seq<nat>, p: nat, k0: nat, entry: Incoming)
    requires Buffers(q, r, ids) && p < |r.incoming| && Buffers(q, r.(incoming := r.incoming[p := entry]), ids)
    requires k0 < |r.incoming[p].have| && entry.have == r.incoming[p].have[k0 := true]
    ensures HoldsMore(q, r, ids, r.(incoming := r.incoming[p := entry]), ids)
    ensures p < |ids| && HoldsOnly(q, r, ids, r.(incoming := r.incoming[p := entry]), ids, ids[p], k0)
  {
    hide Buffers;
    BuffersLength(q, r, ids);
    var s := r.(incoming := r.incoming[p := entry]);
    forall i, k | 0 <= i < |q| && 0 <= k < Size(q[i]) && Held(q, r, ids, i, k)
      ensures Held(q, s, ids, i, k)
    {
      if i >= |r.dispatched| {
        var p' :| 0 <= p' < |ids| && ids[p'] == i && HasPiece(q[i], r.incoming[p'], k);
        assert HasPiece(q[i], s.incoming[p'], k);
      }
    }
    forall i, k | 0 <= i < |q| && 0 <= k < Size(q[i]) && Held(q, s, ids, i, k)
      ensures Held(q, r, ids, i, k) || (i == ids[p] && k == k0)
    {
      if i >= |r.dispatched| {
        var p' :| 0 <= p' < |ids| && ids[p'] == i && HasPiece(q[i], s.incoming[p'], k);
        assert HasPiece(q[i], r.incoming[p'], k) || (p' == p && k == k0);
      }
    }
  }

  lemma StoreKeeps(q: seq<Message>, r: Receiver, ids: seq<nat>, p: nat, k: nat) returns (ids': seq<nat>)
    requires Buffers(q, r, ids) && p < |ids| && !Fits(q[ids[p]]) && k < Size(q[ids[p]])
    ensures p < |r.incoming| && k < |r.incoming[p].have| && WellFormed(r.incoming)
    ensures var f := Cut(q[ids[p]])[k];
            && f.offset + |f.bytes| <= |r.incoming[p].data|
            && var s := Store(r, p, k, f);
               && Buffers(q, s, ids') && Done(q, r) <= Done(q, s)
               && HoldsMore(q, r, ids, s, ids') && Held(q, s, ids', ids[p], k) && HoldsOnly(q, r, ids, s, ids', ids[p], k)
  {
    SlotFits(q, r, ids, p, k);
    var entry, f := r.incoming[p], Cut(q[ids[p]])[k];
    if entry.have[k] {
      ids' := ids;
      assert HasPiece(q[ids[p]], entry, k);
    } else {
      hide Buffers, Held, Cut, Fits, Size;
      ReplaceKeeps(q, r, ids, p, k);
      var stored := WithFragment(entry, k, f);
      var s := r.(incoming := r.incoming[p := stored]);
      ids' := ids;
      if stored.remaining == 0 {
        ids' := DispatchKeeps(q, s, ids);
      }
    }
  }

  // ------------------------------------------------------- handling a command

  /** What is assumed of a command's arrival: a repeated one is at most nine windows late, counted from
      the first command of its message, and the sender is at most seven windows ahead. */
  predicate Arrives(q: seq<Message>, r: Receiver, i: nat, k: nat)
    requires AllSendable(q) && |r.dispatched| <= |q| && i < |q|
  {
    && (i < |r.dispatched| ==> Window(Done(q, r)) <= Window(Start(q, i)) + 9)
    && Window(Start(q, i) + k) <= Window(Done(q, r)) + 7
  }

  /** The window test lets through exactly the new commands of the next seven windows, and of the
      others only delivered ones are acknowledged. */
  lemma WindowTest(q: seq<Message>, r: Receiver, i: nat, k: nat)
    requires AllSendable(q) && |r.dispatched| <= |q| && r.current == Wire(Done(q, r))
    requires i < |q| && k < Size(q[i]) && Arrives(q, r, i, k)
    ensures Accepts(Wire(Start(q, i)), r.current) && Wire(Start(q, i)) != r.current <==> Ahead(q, r, i)
    ensures !Ahead(q, r, i) && Acknowledges(Wire(Start(q, i) + k), r.current) ==> i < |r.dispatched|
  {
    hide Wire, Window, Accepts, Acknowledges, Start;
    var n, c, d := Start(q, i), Done(q, r), |r.dispatched|;
    if i < d {
      StartGrows(q, i, d);
      WindowGrows(n, c);
      if n < c {
        LateIsDiscarded(n, c);
      }
    } else {
      if d < i {
        StartGrows(q, d, i);
      }
      WindowGrows(n, n + k);
      AheadIsSorted(n, c);
      AheadIsSorted(n + k, c);
      if Ahead(q, r, i) {
        AheadNear(q, r, i);
        WireNotSame(n, c);
      }
    }
  }

  lemma WireNotSame(n: nat, c: nat)
    requires c < n < c + NUMBERS
    ensures Wire(n) != Wire(c)
  {
  }

  lemma CutIsMany(m: Message)
    requires Sendable(m) && !Fits(m)
    ensures Size(m) >= 2
  {
    assert |CutFrom(m.data, m.room, m.room)| >= 1;
  }

  /** Handling one command keeps the queue in order and loses nothing; what is acknowledged is held. */
  lemma PlainKeeps(q: seq<Message>, r: Receiver, ids: seq<nat>, i: nat, waiting: bool) returns (ids': seq<nat>)
    requires Buffers(q, r, ids) && i < |q| && Fits(q[i]) && Arrives(q, r, i, 0)
    ensures var c := CommandOf(q, i, 0);
            var h := HandlePlain(r, c.number, c.data, waiting);
            && Buffers(q, h.receiver, ids') && Done(q, r) <= Done(q, h.receiver)
            && HoldsMore(q, r, ids, h.receiver, ids') && HoldsOnly(q, r, ids, h.receiver, ids', i, 0)
            && (Acked(h, c) || (h.ok && Ahead(q, r, i)) ==> Held(q, h.receiver, ids', i, 0))
  {
    WindowTest(q, r, i, 0);
    var number := Wire(Start(q, i));
    ids' := ids;
    if Ahead(q, r, i) {
      var place := FindPlace(r.incoming, r.current, number);
      assert r.incoming[..|ids|] == r.incoming;
      SearchFinds(q, r, ids, |ids|, i);
      if place.Found? {
        assert HasPiece(q[i], r.incoming[place.at], 0);
      } else if !waiting {
        var entry := Incoming(number, 0, [], 0, q[i].data);
        hide Buffers, Held, FindPlace;
        BuffersLength(q, r, ids);
        var s := Insert(r, place.at, entry);
        InsertKeeps(q, r, ids, place.at, i, entry);
        InsertedIsHeld(q, r, ids, place.at, i, entry, 0);
        ids' := DispatchKeeps(q, s, InsertId(ids, place.at, i));
      }
    }
  }

  lemma InsertedIsHeld(q: seq<Message>, r: Receiver, ids: seq<nat>, at: nat, i: nat, entry: Incoming, k: nat)
    requires at <= |r.incoming| && at <= |ids| && |r.incoming| == |ids| && i < |q|
    requires Buffers(q, Insert(r, at, entry), InsertId(ids, at, i)) && k < Size(q[i]) && HasPiece(q[i], entry, k)
    ensures Held(q, Insert(r, at, entry), InsertId(ids, at, i), i, k)
  {
    var s, ids' := Insert(r, at, entry), InsertId(ids, at, i);
    assert ids'[at] == i && s.incoming[at] == entry;
  }

  lemma EmptyMatches(q: seq<Message>, i: nat)
    requires AllSendable(q) && i < |q| && !Fits(q[i])
    ensures Matches(q, i, Empty(Wire(Start(q, i)), Size(q[i]), |q[i].data|))
  {
    MissingAll(Empty(Wire(Start(q, i)), Size(q[i]), |q[i].data|).have);
  }

  /** Inserting an incomplete command and dispatching leaves it where its message is. */
  lemma EmptyInserted(q: seq<Message>, r: Receiver, ids: seq<nat>, at: nat, i: nat) returns (ids': seq<nat>, at': nat)
    requires Buffers(q, r, ids) && at <= |ids| && Ahead(q, r, i) && !Fits(q[i])
    requires Splits(ids, at, i)
    ensures at <= |r.incoming| && WellFormed(r.incoming)
    ensures var entry := Empty(Wire(Start(q, i)), Size(q[i]), |q[i].data|);
            var s := Insert(r, at, entry);
            var d := Dispatch(s);
            && Buffers(q, d, ids') && Done(q, r) <= Done(q, d) && HoldsMore(q, r, ids, d, ids') && HoldsMore(q, d, ids', r, ids)
            && at' == at - (|s.incoming| - |d.incoming|) && at' < |ids'| && ids'[at'] == i
  {
    BuffersWellFormed(q, r, ids);
    hide Buffers, Held, Dispatch, Start;
    BuffersLength(q, r, ids);
    EmptyMatches(q, i);
    var entry := Empty(Wire(Start(q, i)), Size(q[i]), |q[i].data|);
    var s := Insert(r, at, entry);
    InsertKeeps(q, r, ids, at, i, entry);
    EmptyIsWellFormed(entry.number, entry.fragmentCount, |q[i].data|);
    InsertedStays(r, at, entry);
    ids' := DispatchKeeps(q, s, InsertId(ids, at, i));
    BuffersLength(q, s, InsertId(ids, at, i));
    BuffersLength(q, Dispatch(s), ids');
    at' := at - (|s.incoming| - |Dispatch(s).incoming|);
  }

  lemma PieceKeeps(q: seq<Message>, r: Receiver, ids: seq<nat>, i: nat, k: nat, waiting: bool, maximum: nat)
    returns (ids': seq<nat>)
    requires Buffers(q, r, ids) && WellFormed(r.incoming)
    requires i < |q| && !Fits(q[i]) && k < Size(q[i]) && Arrives(q, r, i, k)
    ensures var c := CommandOf(q, i, k);
            var h := HandlePiece(r, c, waiting, maximum);
            && Buffers(q, h.receiver, ids') && Done(q, r) <= Done(q, h.receiver)
            && HoldsMore(q, r, ids, h.receiver, ids') && HoldsOnly(q, r, ids, h.receiver, ids', i, k)
            && (Acked(h, c) || (h.ok && Ahead(q, r, i)) ==> Held(q, h.receiver, ids', i, k))
  {
    hide Dispatch, FindPlace, Store, Wire, Accepts, Acknowledges, Start, Cut, Size, Matches;
    WindowTest(q, r, i, k);
    CutIsMany(q[i]);
    var c := CommandOf(q, i, k);
    ids' := ids;
    var h := HandlePiece(r, c, waiting, maximum);
    if Ahead(q, r, i) {
      assert r.incoming[..|ids|] == r.incoming;
      SearchFinds(q, r, ids, |ids|, i);
      var place := FindPlace(r.incoming, r.current, c.start);
      if h.ok {
        if place.Found? {
          ids' := StoreKeeps(q, r, ids, place.at, k);
        } else {
          var ids1, at := EmptyInserted(q, r, ids, place.at, i);
          var d := Dispatch(Insert(r, place.at, Empty(c.start, c.count, c.total)));
          ids' := StoreKeeps(q, d, ids1, at, k);
          hide Buffers, Held;
        }
      } else {
        hide Buffers, Held;
      }
    } else {
      NotCurrent(q, r, ids);
      DeliveredIsHeld(q, r, ids, i, k);
      hide Buffers, Held;
      PieceTurnedAway(q, r, i, k, waiting, maximum);
    }
  }

  lemma NotCurrent(q: seq<Message>, r: Receiver, ids: seq<nat>)
    requires Buffers(q, r, ids)
    ensures forall p :: 0 <= p < |r.incoming| ==> r.incoming[p].number != r.current
  {
    forall p | 0 <= p < |r.incoming|
      ensures r.incoming[p].number != r.current
    {
      assert Ahead(q, r, ids[p]) && Matches(q, ids[p], r.incoming[p]);
      AheadNear(q, r, ids[p]);
      WireNotSame(Start(q, ids[p]), Done(q, r));
    }
  }

  lemma DeliveredIsHeld(q: seq<Message>, r: Receiver, ids: seq<nat>, i: nat, k: nat)
    requires Buffers(q, r, ids) && i < |q| && k < Size(q[i])
    ensures i < |r.dispatched| ==> Held(q, r, ids, i, k)
  {
  }

  /** A fragment of a message that is not among the next ones changes nothing. */
  lemma PieceTurnedAway(q: seq<Message>, r: Receiver, i: nat, k: nat, waiting: bool, maximum: nat)
    requires AllSendable(q) && i < |q| && !Fits(q[i]) && k < Size(q[i]) && WellFormed(r.incoming)
    requires !(Accepts(Wire(Start(q, i)), r.current) && Wire(Start(q, i)) != r.current)
    requires forall p :: 0 <= p < |r.incoming| ==> r.incoming[p].number != r.current
    ensures HandlePiece(r, CommandOf(q, i, k), waiting, maximum).receiver == r
  {
    hide Dispatch, FindPlace, Store, Accepts, Cut;
  }

  lemma HandleKeeps(q: seq<Message>, r: Receiver, ids: seq<nat>, i: nat, k: nat, waiting: bool, maximum: nat)
    returns (ids': seq<nat>)
    requires Buffers(q, r, ids) && WellFormed(r.incoming)
    requires i < |q| && k < Size(q[i]) && Arrives(q, r, i, k)
    ensures var c := CommandOf(q, i, k);
            var h := Handle(r, c, waiting, maximum);
            && Buffers(q, h.receiver, ids') && Done(q, r) <= Done(q, h.receiver)
            && HoldsMore(q, r, ids, h.receiver, ids') && HoldsOnly(q, r, ids, h.receiver, ids', i, k)
            && (Acked(h, c) || (h.ok && Ahead(q, r, i)) ==> Held(q, h.receiver, ids', i, k))
  {
    hide Buffers, Held, HandlePiece, HandlePlain;
    if Fits(q[i]) {
      if |q[i].data| > maximum {
        ids' := ids;
      } else {
        ids' := PlainKeeps(q, r, ids, i, waiting);
      }
    } else {
      ids' := PieceKeeps(q, r, ids, i, k, waiting, maximum);
    }
  }

  /** A command of the next messages is refused only for the packets that wait or its size. */
  lemma HandleOk(q: seq<Message>, r: Receiver, ids: seq<nat>, i: nat, k: nat)
    requires Buffers(q, r, ids) && WellFormed(r.incoming) && Ahead(q, r, i) && k < Size(q[i])
    ensures Handle(r, CommandOf(q, i, k), false, |q[i].data|).ok
  {
    AheadIsAccepted(q, r, i);
    if !Fits(q[i]) {
      CutIsMany(q[i]);
      PieceFits(q[i], k);
      hide FindPlace, Accepts, Dispatch, Store, Wire, Cut, Start, Size;
      var c := CommandOf(q, i, k);
      var place := FindPlace(r.incoming, r.current, c.start);
      assert r.incoming[..|ids|] == r.incoming;
      SearchFinds(q, r, ids, |ids|, i);
      if place.Found? {
        assert Matches(q, ids[place.at], r.incoming[place.at]);
      }
    }
  }

  lemma AheadIsAccepted(q: seq<Message>, r: Receiver, i: nat)
    requires AllSendable(q) && |r.dispatched| <= |q| && r.current == Wire(Done(q, r)) && Ahead(q, r, i)
    ensures Accepts(Wire(Start(q, i)), r.current) && Wire(Start(q, i)) != r.current
  {
    AheadNear(q, r, i);
    hide Wire, Accepts;
    AheadIsSorted(Start(q, i), Done(q, r));
    WireNotSame(Start(q, i), Done(q, r));
  }

  /** A fragment passes the checks of its lengths. */
  lemma PieceFits(m: Message, k: nat)
    requires Sendable(m) && !Fits(m) && k < Size(m)
    ensures var f := Cut(m)[k];
            0 < |f.bytes| && f.offset + |f.bytes| <= |m.data| && Size(m) <= |m.data| && Size(m) <= MAXIMUM_FRAGMENT_COUNT
  {
    CutTiles(m.data, m.room, 0);
    TileAt(Cut(m), m.data, 0, k);
    CutLength(m.data, m.room, 0);
    CountAtMost(Cut(m), m.data, 0);
  }

  /** A repeated command of a delivered message changes nothing, and is acknowledged. */
  lemma RepeatedIsAcked(q: seq<Message>, r: Receiver, ids: seq<nat>, i: nat, k: nat)
    requires Buffers(q, r, ids) && WellFormed(r.incoming) && i < |r.dispatched| && k < Size(q[i])
    requires Window(Done(q, r)) <= Window(Start(q, i)) + 7
    ensures var c := CommandOf(q, i, k);
            var h := Handle(r, c, false, |q[i].data|);
            h.receiver == r && h.ok && Acknowledges(c.number, r.current)
  {
    hide Wire, Acknowledges, Window, Accepts, Start, Size, Done, Buffers, Handle, Cut, WellFormed;
    BuffersCurrentNumber(q, r, ids);
    DeliveredBefore(q, r, i);
    var n, c := Start(q, i), Done(q, r);
    DeliveredNumbers(n, Size(q[i]), k, c);
    if !Fits(q[i]) {
      CutIsMany(q[i]);
      PieceFits(q[i], k);
    }
    TurnedAway(r, CommandOf(q, i, k), |q[i].data|);
  }

  lemma DeliveredBefore(q: seq<Message>, r: Receiver, i: nat)
    requires AllSendable(q) && i < |r.dispatched| <= |q|
    ensures Start(q, i) + Size(q[i]) <= Done(q, r) + 1 && (Fits(q[i]) ==> Size(q[i]) == 1)
  {
    StartGrows(q, i, |r.dispatched|);
  }

  /** The numbers from n on of a delivered message, c being the last one delivered. */
  lemma DeliveredNumbers(n: nat, size: nat, k: nat, c: nat)
    requires n + size <= c + 1 && k < size && Window(c) <= Window(n) + 7
    ensures Acknowledges(Wire(n + k), Wire(c))
    ensures Accepts(Wire(n), Wire(c)) ==> n == c
  {
    hide Wire, Acknowledges, Window, Accepts;
    WindowGrows(n, n + k);
    WindowGrows(n, c);
    DeliveredNumber(n + k, c);
    if n < c {
      LateIsDiscarded(n, c);
    }
  }

  lemma BuffersCurrentNumber(q: seq<Message>, r: Receiver, ids: seq<nat>)
    requires Buffers(q, r, ids)
    ensures AllSendable(q) && |r.dispatched| <= |q| && r.current == Wire(Done(q, r))
  {
  }

  /** A command outside the accepted windows, or a plain one with the current number, changes nothing. */
  lemma TurnedAway(r: Receiver, c: Command, maximum: nat)
    requires WellFormed(r.incoming)
    requires c.Plain? ==> |c.data| <= maximum && (!Accepts(c.number, r.current) || c.number == r.current)
    requires c.Piece? ==> 0 < |c.fragment.bytes| <= maximum && !Accepts(c.start, r.current)
    ensures Handle(r, c, false, maximum) == Handled(r, true)
  {
    hide Accepts, FindPlace, Dispatch, Store;
  }

  lemma DeliveredNumber(n: nat, c: nat)
    requires n <= c && Window(c) <= Window(n) + 7
    ensures Acknowledges(Wire(n), Wire(c)) && c < n + NUMBERS
  {
    WindowGrows(c, n);
    if n < c {
      hide Wire;
      OffsetBehind(n, c);
    }
  }

  /** Handling leaves no command at the front that could have been dispatched. */
  lemma HandleDispatches(r: Receiver, c: Command, waiting: bool, maximum: nat)
    requires WellFormed(r.incoming) && !FrontReady(r)
    ensures !FrontReady(Handle(r, c, waiting, maximum).receiver)
  {
    hide FindPlace, Accepts, Dispatch, FrontReady, Store;
    if c.Piece? && HandlePiece(r, c, waiting, maximum).ok && Accepts(c.start, r.current) {
      var place := FindPlace(r.incoming, r.current, c.start);
      if place.Found? {
        StoreDispatches(r, place.at, c.index, c.fragment);
      } else {
        var entry := Empty(c.start, c.count, c.total);
        EmptyIsWellFormed(c.start, c.count, c.total);
        InsertedStays(r, place.at, entry);
        var d := Dispatch(Insert(r, place.at, entry));
        StoreDispatches(d, place.at - (|r.incoming| + 1 - |d.incoming|), c.index, c.fragment);
      }
    }
  }

  lemma StoreDispatches(r: Receiver, at: nat, index: nat, f: Fragment)
    requires !FrontReady(r) && WellFormed(r.incoming) && at < |r.incoming| && index < |r.incoming[at].have|
    requires f.offset + |f.bytes| <= |r.incoming[at].data|
    ensures !FrontReady(Store(r, at, index, f))
  {
    if !r.incoming[at].have[index] {
      MissingOneLess(r.incoming[at].have, index);
    }
  }

  // ---------------------------------------------------------- a longer queue

  lemma MoreKeeps(q: seq<Message>, m: Message, r: Receiver, ids: seq<nat>)
    requires Buffers(q, r, ids) && Sendable(m)
    ensures Buffers(q + [m], r, ids) && Done(q + [m], r) == Done(q, r)
    ensures forall i :: 0 <= i <= |q| ==> Start(q + [m], i) == Start(q, i)
    ensures forall i, k :: 0 <= i < |q| && 0 <= k < Size(q[i]) ==>
              Held(q, r, ids, i, k) == Held(q + [m], r, ids, i, k)
  {
    hide Size, Cut, Start, InPlace, Missing;
    var more := q + [m];
    forall i | 0 <= i <= |q|
      ensures Start(more, i) == Start(q, i)
    {
      StartOfMore(q, m, i);
    }
    forall p | 0 <= p < |ids|
      ensures Ahead(more, r, ids[p]) && Matches(more, ids[p], r.incoming[p])
    {
      assert Ahead(q, r, ids[p]) && Matches(q, ids[p], r.incoming[p]);
      assert more[ids[p]] == q[ids[p]];
    }
  }

  /** A message all of whose commands are held, and whose turn it is, stands ready at the front. */
  lemma AllHeldIsReady(q: seq<Message>, r: Receiver, ids: seq<nat>)
    requires Buffers(q, r, ids) && |r.dispatched| < |q|
    requires forall k :: 0 <= k < Size(q[|r.dispatched|]) ==> Held(q, r, ids, |r.dispatched|, k)
    ensures FrontReady(r)
  {
    var d := |r.dispatched|;
    assert Held(q, r, ids, d, 0);
    var p :| 0 <= p < |ids| && ids[p] == d && HasPiece(q[d], r.incoming[p], 0);
    assert Ahead(q, r, ids[0]);
    var entry := r.incoming[0];
    assert Matches(q, d, entry);
    WireSum(Done(q, r), 1);
    if !Fits(q[d]) {
      forall k | 0 <= k < |entry.have|
        ensures entry.have[k]
      {
        assert Held(q, r, ids, d, k);
      }
      MissingNone(entry.have);
    }
  }
}
