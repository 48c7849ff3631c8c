/** The receiving side of one reliable ENet channel: the ordered queue of commands that arrived early,
    and the dispatch of those whose turn has come. */
module ReliableReceiver {
  import opened Words
  import opened SequenceWindows
  import opened Fragments

  /** A queued command. A plain one has no fragments. */
  datatype Incoming = Incoming(number: nat, fragmentCount: nat, have: seq<bool>, remaining: nat, data: seq<u8>)

  /** Send-reliable and send-fragment commands as they arrive. */
  datatype Command =
    | Plain(number: nat, data: seq<u8>)
    | Piece(number: nat, start: nat, count: nat, index: nat, total: nat, fragment: Fragment)

  /** incomingReliableSequenceNumber, incomingReliableCommands, and the packets handed on so far. */
  datatype Receiver = Receiver(current: nat, incoming: seq<Incoming>, dispatched: seq<seq<u8>>)

  predicate WellFormed(list: seq<Incoming>) {
    forall k :: 0 <= k < |list| ==> |list[k].have| == list[k].fragmentCount && list[k].remaining == Missing(list[k].have)
  }

  // -------------------------------------------------------------- searching

  datatype Place = Found(at: nat) | InsertAt(at: nat)

  /** The search from the back of the queue for a number or for the place where it belongs. */
  function FindPlace(list: seq<Incoming>, current: nat, number: nat): (p: Place)
    ensures p.Found? ==> p.at < |list| && list[p.at].number == number
    ensures p.at <= |list|
  {
    if list == [] then InsertAt(0)
    else
      var last := list[|list| - 1].number;
      if number >= current && last < current then FindPlace(list[..|list| - 1], current, number)
      else if number < current && last >= current then InsertAt(|list|)
      else if last < number then InsertAt(|list|)
      else if last == number then Found(|list| - 1)
      else FindPlace(list[..|list| - 1], current, number)
  }

  // ------------------------------------------------------------- dispatching

  /** The command at the front is complete and is the next one. */
  predicate FrontReady(r: Receiver) {
    |r.incoming| > 0 && r.incoming[0].remaining == 0 && r.incoming[0].number == (r.current + 1) % NUMBERS
  }

  /** The last number that a command stands for. */
  function LastNumber(entry: Incoming): nat {
    if entry.fragmentCount > 0 then (entry.number + entry.fragmentCount - 1) % NUMBERS else entry.number
  }

  function DispatchFront(r: Receiver): Receiver
    requires FrontReady(r)
  {
    Receiver(LastNumber(r.incoming[0]), r.incoming[1..], r.dispatched + [r.incoming[0].data])
  }

  /** enet_peer_dispatch_incoming_reliable_commands. */
  function Dispatch(r: Receiver): (d: Receiver)
    ensures !FrontReady(d)
    decreases |r.incoming|
  {
    if FrontReady(r) then Dispatch(DispatchFront(r)) else r
  }

  // ---------------------------------------------------------------- queueing

  function Insert(r: Receiver, at: nat, entry: Incoming): Receiver
    requires at <= |r.incoming|
  {
    r.(incoming := r.incoming[..at] + [entry] + r.incoming[at..])
  }

  datatype Handled = Handled(receiver: Receiver, ok: bool)

  /** enet_protocol_handle_send_reliable, for a packet within the size limit; `waiting` says that the
      packets waiting for the application have reached their limit. */
  function HandlePlain(r: Receiver, number: nat, data: seq<u8>, waiting: bool): Handled {
    if !Accepts(number, r.current) || number == r.current then Handled(r, true)
    else
      var place := FindPlace(r.incoming, r.current, number);
      if place.Found? then Handled(r, true)
      else if waiting then Handled(r, false)
      else Handled(Dispatch(Insert(r, place.at, Incoming(number, 0, [], 0, data))), true)
  }

  /** A queued command with a fragment it did not have. */
  function WithFragment(entry: Incoming, index: nat, f: Fragment): Incoming
    requires index < |entry.have| && entry.remaining > 0 && f.offset + |f.bytes| <= |entry.data|
  {
    entry.(have := entry.have[index := true], remaining := entry.remaining - 1, data := Patch(entry.data, f.offset, f.bytes))
  }

  /** A fragment stored in the queued command at `at`. */
  function Store(r: Receiver, at: nat, index: nat, f: Fragment): Receiver
    requires at < |r.incoming| && index < |r.incoming[at].have| && f.offset + |f.bytes| <= |r.incoming[at].data|
    requires WellFormed(r.incoming)
  {
    var entry := r.incoming[at];
    if entry.have[index] then r
    else
      MissingOneLess(entry.have, index);
      var stored := WithFragment(entry, index, f);
      var s := r.(incoming := r.incoming[at := stored]);
      if stored.remaining == 0 then Dispatch(s) else s
  }

  /** A new, empty command for the fragments of a packet. */
  function Empty(start: nat, count: nat, total: nat): Incoming {
    Incoming(start, count, seq(count, _ => false), count, seq(total, _ => 0))
  }

  /** enet_protocol_handle_send_fragment. */
  function HandlePiece(r: Receiver, c: Command, waiting: bool, maximum: nat): Handled
    requires c.Piece? && WellFormed(r.incoming)
  {
    var length := |c.fragment.bytes|;
    if length == 0 || length > maximum then Handled(r, false)
    else if !Accepts(c.start, r.current) then Handled(r, true)
    else if c.count > MAXIMUM_FRAGMENT_COUNT || c.index >= c.count || c.total > maximum || c.total < c.count
            || c.fragment.offset >= c.total || length > c.total - c.fragment.offset then Handled(r, false)
    else
      var place := FindPlace(r.incoming, r.current, c.start);
      if place.Found? then
        var entry := r.incoming[place.at];
        if entry.fragmentCount == 0 || c.total != |entry.data| || c.count != entry.fragmentCount then Handled(r, false)
        else Handled(Store(r, place.at, c.index, c.fragment), true)
      else if c.start == r.current || waiting then Handled(r, false)
      else
        var queued := Insert(r, place.at, Empty(c.start, c.count, c.total));
        var d := Dispatch(queued);
        EmptyIsWellFormed(c.start, c.count, c.total);
        InsertedStays(r, place.at, Empty(c.start, c.count, c.total));
        Handled(Store(d, place.at - (|queued.incoming| - |d.incoming|), c.index, c.fragment), true)
  }

  function Handle(r: Receiver, c: Command, waiting: bool, maximum: nat): Handled
    requires WellFormed(r.incoming)
  {
    if c.Plain? then
      if |c.data| > maximum then Handled(r, false) else HandlePlain(r, c.number, c.data, waiting)
    else HandlePiece(r, c, waiting, maximum)
  }

  /** Whether a handled command is acknowledged: judged after it was handled. */
  predicate Acked(h: Handled, c: Command) {
    h.ok && Acknowledges(c.number, h.receiver.current)
  }

  // ------------------------------------------------------------------ lemmas

  /** Dispatching takes commands off the front and stops before an incomplete one. */
  lemma {:induction false} DispatchDrops(r: Receiver, k: nat)
    requires k < |r.incoming| && r.incoming[k].remaining > 0
    ensures var d := Dispatch(r);
            var j := |r.incoming| - |d.incoming|;
            0 <= j <= k && d.incoming == r.incoming[j..]
    decreases |r.incoming|
  {
    if FrontReady(r) {
      var f := DispatchFront(r);
      assert f.incoming[k - 1] == r.incoming[k];
      DispatchDrops(f, k - 1);
    }
  }

  lemma InsertedStays(r: Receiver, at: nat, entry: Incoming)
    requires at <= |r.incoming| && entry.remaining > 0 && WellFormed(r.incoming) && WellFormed([entry])
    ensures var queued := Insert(r, at, entry);
            var d := Dispatch(queued);
            var j := |queued.incoming| - |d.incoming|;
            0 <= j <= at && WellFormed(d.incoming) && d.incoming[at - j] == entry
  {
    var queued := Insert(r, at, entry);
    assert WellFormed(queued.incoming) by {
      assert [entry][0] == entry;
    }
    DispatchDrops(queued, at);
  }

  lemma EmptyIsWellFormed(start: nat, count: nat, total: nat)
    ensures WellFormed([Empty(start, count, total)])
  {
    MissingAll(Empty(start, count, total).have);
  }

  // ----------------------------------------------------------------- channel

  function Datas(list: seq<Incoming>): seq<seq<u8>> {
    if list == [] then [] else Datas(list[..|list| - 1]) + [list[|list| - 1].data]
  }

  datatype Queueing = Discarded | Refused | Queued(at: nat)

  /** ENetChannel's incoming half, with the packets it has handed to the peer. */
  class Channel {
    var current: nat
    var incoming: seq<Incoming>
    var dispatched: seq<seq<u8>>

    function View(): Receiver
      reads this
    {
      Receiver(current, incoming, dispatched)
    }

    constructor ()
      ensures View() == Receiver(0, [], [])
    {
      current, incoming, dispatched := 0, [], [];
    }

    method Search(number: nat) returns (at: nat, found: bool)
      ensures FindPlace(incoming, current, number) == if found then Found(at) else InsertAt(at)
    {
      var k := |incoming|;
      assert incoming[..k] == incoming;
      while k > 0
        invariant k <= |incoming|
        invariant FindPlace(incoming, current, number) == FindPlace(incoming[..k], current, number)
      {
        assert incoming[..k][..k - 1] == incoming[..k - 1];
        var last := incoming[k - 1].number;
        if number >= current {
          if last < current {
            k := k - 1;
            continue;
          }
        } else if last >= current {
          break;
        }
        if last <= number {
          if last < number {
            break;
          }
          return k - 1, true;
        }
        k := k - 1;
      }
      return k, false;
    }

    /** enet_peer_dispatch_incoming_reliable_commands: the ready commands are walked over and then moved
        to the dispatched list together. */
    method DispatchReliable()
      modifies this
      ensures View() == Dispatch(old(View()))
    {
      var k := 0;
      assert incoming[0..] == incoming && dispatched + Datas(incoming[..0]) == dispatched;
      while k < |incoming|
        invariant 0 <= k <= |incoming| && incoming == old(incoming) && dispatched == old(dispatched)
        invariant Dispatch(old(View())) == Dispatch(Receiver(current, incoming[k..], dispatched + Datas(incoming[..k])))
      {
        if incoming[k].remaining > 0 || incoming[k].number != (current + 1) % NUMBERS {
          break;
        }
        ghost var before := Receiver(current, incoming[k..], dispatched + Datas(incoming[..k]));
        current := incoming[k].number;
        if incoming[k].fragmentCount > 0 {
          current := (current + incoming[k].fragmentCount - 1) % NUMBERS;
        }
        assert incoming[..k + 1][..k] == incoming[..k];
        assert DispatchFront(before) == Receiver(current, incoming[k + 1..], dispatched + Datas(incoming[..k + 1]));
        k := k + 1;
      }
      if k == 0 {
        return;
      }
      dispatched := dispatched + Datas(incoming[..k]);
      incoming := incoming[k..];
    }

    /** enet_peer_queue_incoming_command, for a reliable command. */
    method QueueIncoming(number: nat, fragmentCount: nat, data: seq<u8>, waiting: bool) returns (q: Queueing)
      requires WellFormed(incoming)
      modifies this
      ensures var place := FindPlace(old(incoming), old(current), number);
              var entry := Incoming(number, fragmentCount, seq(fragmentCount, _ => false), fragmentCount, data);
              if !Accepts(number, old(current)) || number == old(current) || place.Found? then
                q == (if fragmentCount > 0 then Refused else Discarded) && View() == old(View())
              else if waiting then q == Refused && View() == old(View())
              else q.Queued? && View() == Dispatch(Insert(old(View()), place.at, entry))
                   && (fragmentCount > 0 ==>
                         && q.at < |incoming| && incoming[q.at] == entry && WellFormed(incoming)
                         && q.at == place.at - (|old(incoming)| + 1 - |incoming|))
    {
      if !Accepts(number, current) || number == current {
        return if fragmentCount > 0 then Refused else Discarded;
      }
      var at, found := Search(number);
      if found {
        return if fragmentCount > 0 then Refused else Discarded;
      }
      if waiting {
        return Refused;
      }
      var entry := Incoming(number, fragmentCount, seq(fragmentCount, _ => false), fragmentCount, data);
      if fragmentCount > 0 {
        MissingAll(entry.have);
        InsertedStays(View(), at, entry);
      }
      var size := |incoming|;
      incoming := incoming[..at] + [entry] + incoming[at..];
      DispatchReliable();
      return Queued(if fragmentCount > 0 then at - (size + 1 - |incoming|) else 0);
    }

    method HandleSendReliable(number: nat, data: seq<u8>, waiting: bool, maximum: nat) returns (ok: bool)
      requires WellFormed(incoming)
      modifies this
      ensures Handled(View(), ok) == Handle(old(View()), Plain(number, data), waiting, maximum)
    {
      if |data| > maximum {
        return false;
      }
      var q := QueueIncoming(number, 0, data, waiting);
      assert seq(0, _ => false) == [];
      return q != Refused;
    }

    method HandleSendFragment(c: Command, waiting: bool, maximum: nat) returns (ok: bool)
      requires c.Piece? && WellFormed(incoming)
      modifies this
      ensures Handled(View(), ok) == Handle(old(View()), c, waiting, maximum)
    {
      hide FindPlace, Dispatch;
      var length := |c.fragment.bytes|;
      if length <= 0 || length > maximum {
        return false;
      }
      if !Accepts(c.start, current) {
        return true;
      }
      if c.count > MAXIMUM_FRAGMENT_COUNT || c.index >= c.count || c.total > maximum || c.total < c.count
         || c.fragment.offset >= c.total || length > c.total - c.fragment.offset {
        return false;
      }
      var at, found := Search(c.start);
      if found {
        var entry := incoming[at];
        if entry.fragmentCount == 0 || c.total != |entry.data| || c.count != entry.fragmentCount {
          return false;
        }
      } else {
        var q := QueueIncoming(c.start, c.count, seq(c.total, _ => 0), waiting);
        if q == Refused {
          return false;
        }
        at := q.at;
      }
      StoreFragment(at, c.index, c.fragment);
      return true;
    }

    method StoreFragment(at: nat, index: nat, f: Fragment)
      requires WellFormed(incoming) && at < |incoming| && index < |incoming[at].have|
      requires f.offset + |f.bytes| <= |incoming[at].data|
      modifies this
      ensures View() == Store(old(View()), at, index, f)
    {
      var entry := incoming[at];
      if !entry.have[index] {
        MissingOneLess(entry.have, index);
        entry := entry.(remaining := entry.remaining - 1, have := entry.have[index := true]);
        entry := entry.(data := Patch(entry.data, f.offset, f.bytes));
        incoming := incoming[at := entry];
        if entry.remaining <= 0 {
          DispatchReliable();
        }
      }
    }

    /** One command of a datagram: handled, and acknowledged or not. */
    method Receive(c: Command, waiting: bool, maximum: nat) returns (acknowledged: bool)
      requires WellFormed(incoming)
      modifies this
      ensures var h := Handle(old(View()), c, waiting, maximum);
              View() == h.receiver && acknowledged == Acked(h, c)
    {
      var ok;
      if c.Plain? {
        ok := HandleSendReliable(c.number, c.data, waiting, maximum);
      } else {
        ok := HandleSendFragment(c, waiting, maximum);
      }
      return ok && Acknowledges(c.number, current);
    }
  }
}
