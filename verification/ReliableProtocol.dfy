/** The reliable channel as a protocol: every run of sender, receiver and network. */
module ReliableProtocol {
  import opened SequenceWindows
  import opened Fragments
  import opened ReliableReceiver
  import opened ReliableChannel
  import opened ReliableSender

  /** `sent` is the newest number sent, `unacked` the numbers sent and not yet acknowledged. */
  datatype Sender = Sender(sent: nat, unacked: set<nat>, windows: Windows)

  /** `queue` is everything the application sent so far; `acks` the numbers the receiver acknowledged.
      The network is not a variable: any number sent may arrive at any time, any number of times. */
  datatype System = System(queue: seq<Message>, sender: Sender, receiver: Receiver, acks: set<nat>)

  predicate MaySend(s: Sender)
    requires Sixteen(s.windows)
  {
    (s.sent + 1) % WINDOW_SIZE != 0 || !Blocked(s.windows, Wire(s.sent + 1) / WINDOW_SIZE)
  }

  function SendNext(s: Sender): Sender
    requires Sixteen(s.windows)
  {
    var n := s.sent + 1;
    Sender(n, s.unacked + {n}, CountUp(s.windows, Wire(n) / WINDOW_SIZE))
  }

  /** The command removed when its number is acknowledged. */
  function Release(s: Sender, m: nat): Sender
    requires Sixteen(s.windows)
  {
    s.(unacked := s.unacked - {m}, windows := CountDown(s.windows, Wire(m) / WINDOW_SIZE))
  }

  // ------------------------------------------------------------------- steps

  datatype Step =
    | Enqueue(message: Message)
    | Transmit
    | Deliver(i: nat, k: nat, waiting: bool, maximum: nat)
    | Acknowledge(n: nat, m: nat)
    | AcknowledgeNothing(n: nat)

  predicate Shaped(s: System) {
    && AllSendable(s.queue) && Sixteen(s.sender.windows)
    && |s.receiver.dispatched| <= |s.queue| && WellFormed(s.receiver.incoming)
  }

  /** A repeated command of a delivered message is at most nine windows late. */
  predicate Timely(s: System, i: nat)
    requires Shaped(s) && i < |s.queue|
  {
    i < |s.receiver.dispatched| ==> Window(Done(s.queue, s.receiver)) <= Window(Start(s.queue, i)) + 9
  }

  predicate NextStep(s: System, s': System, step: Step)
    requires Shaped(s)
  {
    match step
    case Enqueue(m) => Sendable(m) && s' == s.(queue := s.queue + [m])
    case Transmit =>
      && s.sender.sent + 1 < Start(s.queue, |s.queue|) && MaySend(s.sender)
      && s' == s.(sender := SendNext(s.sender))
    case Deliver(i, k, waiting, maximum) =>
      && i < |s.queue| && k < Size(s.queue[i])
      && var n := Start(s.queue, i) + k;
         && n <= s.sender.sent && Timely(s, i)
         && var c := CommandOf(s.queue, i, k);
            var h := Handle(s.receiver, c, waiting, maximum);
            s' == s.(receiver := h.receiver, acks := if Acked(h, c) then s.acks + {n} else s.acks)
    case Acknowledge(n, m) =>
      && n in s.acks && Window(s.sender.sent) < Window(n) + WINDOWS
      && m in s.sender.unacked && Wire(m) == Wire(n)
      && s' == s.(sender := Release(s.sender, m))
    case AcknowledgeNothing(n) =>
      n in s.acks && (forall m :: m in s.sender.unacked ==> Wire(m) != Wire(n)) && s' == s
  }

  predicate Init(s: System) {
    && s.queue == [] && s.receiver == Receiver(0, [], []) && s.acks == {}
    && s.sender == Sender(0, {}, NoWindows())
  }

  ghost predicate Next(s: System, s': System) {
    Shaped(s) && exists step :: NextStep(s, s', step)
  }

  ghost predicate Run(states: seq<System>) {
    |states| > 0 && Init(states[0]) && forall t :: 0 <= t < |states| - 1 ==> Next(states[t], states[t + 1])
  }

  // --------------------------------------------------------------- invariant

  function InWindow(unacked: set<nat>, w: nat): set<nat> {
    set m | m in unacked && Window(m) % WINDOWS == w
  }

  predicate Counted(s: Sender) {
    && Sixteen(s.windows)
    && forall w :: 0 <= w < WINDOWS ==> s.windows.counts[w] == |InWindow(s.unacked, w)| && s.windows.used[w] == (s.windows.counts[w] > 0)
  }

  /** Unacknowledged commands are in the newest seven windows. */
  predicate Recent(s: Sender) {
    forall m :: m in s.unacked ==> 1 <= m <= s.sent && Window(s.sent) <= Window(m) + 6
  }

  predicate SenderInv(s: System) {
    && Counted(s.sender) && Recent(s.sender)
    && forall n :: 1 <= n <= s.sender.sent && n !in s.sender.unacked ==> n in s.acks
  }

  predicate AckInv(s: System, ids: seq<nat>)
    requires Buffers(s.queue, s.receiver, ids)
  {
    && (forall n :: n in s.acks ==> 1 <= n <= s.sender.sent && Window(n) <= Window(Done(s.queue, s.receiver)) + 6)
    && forall i, k :: 0 <= i < |s.queue| && 0 <= k < Size(s.queue[i]) && Start(s.queue, i) + k in s.acks ==>
         Held(s.queue, s.receiver, ids, i, k)
  }

  /** What is held or delivered was sent. */
  predicate SentInv(s: System, ids: seq<nat>)
    requires Buffers(s.queue, s.receiver, ids)
  {
    forall i, k :: 0 <= i < |s.queue| && 0 <= k < Size(s.queue[i]) && Held(s.queue, s.receiver, ids, i, k) ==>
      Start(s.queue, i) + k <= s.sender.sent
  }

  predicate InvWith(s: System, ids: seq<nat>) {
    && Buffers(s.queue, s.receiver, ids) && !FrontReady(s.receiver)
    && SenderInv(s) && AckInv(s, ids) && SentInv(s, ids)
    && s.sender.sent < Start(s.queue, |s.queue|)
    && Window(s.sender.sent) <= Window(Done(s.queue, s.receiver)) + 7
  }

  ghost predicate Inv(s: System) {
    exists ids :: InvWith(s, ids)
  }

  lemma InitInv(s: System)
    requires Init(s)
    ensures InvWith(s, [])
  {
    forall w | 0 <= w < WINDOWS
      ensures |InWindow(s.sender.unacked, w)| == 0
    {
      assert InWindow(s.sender.unacked, w) == {};
    }
  }

  // ------------------------------------------------------------------ sender

  /** When all of a window is unacknowledged, its counter shows it. */
  lemma FullWindow(s: Sender, w: nat)
    requires Counted(s) && forall n :: w * WINDOW_SIZE <= n < (w + 1) * WINDOW_SIZE ==> n in s.unacked
    ensures s.windows.counts[w % WINDOWS] >= WINDOW_SIZE
  {
    var all := Range(w * WINDOW_SIZE, WINDOW_SIZE);
    forall n | n in all
      ensures n in InWindow(s.unacked, w % WINDOWS)
    {
      assert Window(n) == w;
    }
    SubsetSize(all, InWindow(s.unacked, w % WINDOWS));
  }

  function Range(from: nat, size: nat): (r: set<nat>)
    ensures |r| == size && forall n :: n in r <==> from <= n < from + size
  {
    if size == 0 then {} else Range(from, size - 1) + {from + size - 1}
  }

  lemma {:induction false} SubsetSize(a: set<nat>, b: set<nat>)
    requires a <= b
    ensures |a| <= |b|
  {
    if a != {} {
      var x :| x in a;
      SubsetSize(a - {x}, b - {x});
    }
  }

  /** The gate keeps the unacknowledged commands within seven windows. */
  lemma SendKeepsRecent(s: Sender)
    requires Counted(s) && Recent(s) && MaySend(s)
    ensures Recent(SendNext(s))
  {
    var n := s.sent + 1;
    if n % WINDOW_SIZE == 0 {
      NewWindow(s.sent);
      forall m | m in s.unacked
        ensures Window(n) <= Window(m) + 6
      {
        if Window(n) == Window(m) + 7 {
          NotSeventh(s, m);
        }
      }
    } else {
      SameWindow(s.sent);
    }
  }

  lemma NotSeventh(s: Sender, m: nat)
    requires Counted(s) && m in s.unacked && Window(s.sent + 1) == Window(m) + 7
    ensures Blocked(s.windows, Wire(s.sent + 1) / WINDOW_SIZE)
  {
    hide Wire, Window;
    assert m in InWindow(s.unacked, Window(m) % WINDOWS);
    WireParts(s.sent + 1);
    assert s.windows.used[Window(m) % WINDOWS];
  }

  lemma NewWindow(n: nat)
    requires (n + 1) % WINDOW_SIZE == 0
    ensures Window(n + 1) == Window(n) + 1 && n + 1 == Window(n + 1) * WINDOW_SIZE
  {
  }

  lemma SameWindow(n: nat)
    requires (n + 1) % WINDOW_SIZE != 0
    ensures Window(n + 1) == Window(n)
  {
  }

  lemma InWindowMore(unacked: set<nat>, n: nat, w: nat)
    requires n !in unacked
    ensures |InWindow(unacked + {n}, w)| == |InWindow(unacked, w)| + if Window(n) % WINDOWS == w then 1 else 0
  {
    var was := InWindow(unacked, w);
    assert InWindow(unacked + {n}, w) == if Window(n) % WINDOWS == w then was + {n} else was;
  }

  lemma SendKeepsCounted(s: Sender)
    requires Counted(s) && Recent(s)
    ensures Counted(SendNext(s))
  {
    hide InWindow, Window, Wire;
    var n := s.sent + 1;
    WireParts(n);
    var next := SendNext(s);
    forall w | 0 <= w < WINDOWS
      ensures next.windows.counts[w] == |InWindow(next.unacked, w)| && next.windows.used[w] == (next.windows.counts[w] > 0)
    {
      InWindowMore(s.unacked, n, w);
    }
  }

  lemma ReleaseKeepsCounted(s: Sender, m: nat)
    requires Counted(s) && m in s.unacked
    ensures Counted(Release(s, m))
  {
    hide InWindow, Window, Wire;
    WireParts(m);
    var next := Release(s, m);
    assert next.unacked + {m} == s.unacked;
    forall w | 0 <= w < WINDOWS
      ensures next.windows.counts[w] == |InWindow(next.unacked, w)| && next.windows.used[w] == (next.windows.counts[w] > 0)
    {
      InWindowMore(next.unacked, m, w);
    }
  }

  /** An acknowledgement that is not sixteen windows late releases the command it was made for. */
  lemma AckIsExact(s: Sender, n: nat, m: nat)
    requires Recent(s) && 1 <= n <= s.sent && Window(s.sent) < Window(n) + WINDOWS
    requires m in s.unacked && Wire(m) == Wire(n)
    ensures m == n
  {
    hide Wire, Window;
    WindowGrows(m, s.sent);
    WindowGrows(n, s.sent);
    SameWire(m, n);
  }

  /** The sender enters a window only after one of its predecessor was acknowledged, so it stays within
      seven windows of the receiver. */
  lemma SendStaysNear(s: System, ids: seq<nat>)
    requires InvWith(s, ids) && MaySend(s.sender)
    ensures Window(s.sender.sent + 1) <= Window(Done(s.queue, s.receiver)) + 7
  {
    hide Window, Wire, Buffers, Held, Blocked, Counted, Recent, FrontReady;
    var n := s.sender.sent + 1;
    if n % WINDOW_SIZE == 0 {
      NewWindow(s.sender.sent);
      if Window(s.sender.sent) > 0 {
        var a := PredecessorAcked(s);
      }
    } else {
      SameWindow(s.sender.sent);
    }
  }

  lemma PredecessorAcked(s: System) returns (a: nat)
    requires SenderInv(s) && MaySend(s.sender) && (s.sender.sent + 1) % WINDOW_SIZE == 0 && Window(s.sender.sent) > 0
    ensures a in s.acks && Window(a) == Window(s.sender.sent)
  {
    hide Counted, Recent, Wire;
    var n, w := s.sender.sent + 1, Window(s.sender.sent);
    NewWindow(s.sender.sent);
    WireParts(n);
    assert (Wire(n) / WINDOW_SIZE + WINDOWS - 1) % WINDOWS == w % WINDOWS;
    if forall b :: w * WINDOW_SIZE <= b < (w + 1) * WINDOW_SIZE ==> b in s.sender.unacked {
      FullWindow(s.sender, w);
    }
    a :| w * WINDOW_SIZE <= a < (w + 1) * WINDOW_SIZE && a !in s.sender.unacked;
  }

  // ------------------------------------------------------------------- steps

  lemma EnqueueKeeps(s: System, m: Message, ids: seq<nat>)
    requires InvWith(s, ids) && Sendable(m)
    ensures InvWith(s.(queue := s.queue + [m]), ids)
  {
    hide Buffers, Held, Start, Counted, Recent;
    var s' := s.(queue := s.queue + [m]);
    BuffersLength(s.queue, s.receiver, ids);
    MoreKeeps(s.queue, m, s.receiver, ids);
    assert Start(s'.queue, |s'.queue|) > Start(s'.queue, |s.queue|) by {
      StartGrows(s'.queue, |s.queue|, |s'.queue|);
    }
    forall k | 0 <= k < Size(m) && Held(s'.queue, s.receiver, ids, |s.queue|, k)
      ensures false
    {
      NoneHeld(s.queue, m, s.receiver, ids, k);
    }
  }

  lemma NoneHeld(q: seq<Message>, m: Message, r: Receiver, ids: seq<nat>, k: nat)
    requires Buffers(q, r, ids) && Buffers(q + [m], r, ids) && k < Size((q + [m])[|q|])
    ensures !Held(q + [m], r, ids, |q|, k)
  {
    forall p | 0 <= p < |ids|
      ensures ids[p] != |q|
    {
      assert Ahead(q, r, ids[p]);
    }
  }

  lemma TransmitKeeps(s: System, ids: seq<nat>)
    requires InvWith(s, ids) && MaySend(s.sender) && s.sender.sent + 1 < Start(s.queue, |s.queue|)
    ensures InvWith(s.(sender := SendNext(s.sender)), ids)
  {
    hide Buffers, Held, Start, Counted, Window;
    SendKeepsRecent(s.sender);
    SendKeepsCounted(s.sender);
    SendStaysNear(s, ids);
  }

  /** What handling a command does to the receiver, the sender being at most seven windows ahead. */
  lemma {:induction false} Received(q: seq<Message>, r: Receiver, ids: seq<nat>, i: nat, k: nat, waiting: bool, maximum: nat)
    returns (ids': seq<nat>)
    requires Buffers(q, r, ids) && WellFormed(r.incoming) && !FrontReady(r)
    requires i < |q| && k < Size(q[i]) && Arrives(q, r, i, k)
    ensures var c := CommandOf(q, i, k);
            var h := Handle(r, c, waiting, maximum);
            && Buffers(q, h.receiver, ids') && !FrontReady(h.receiver)
            && Done(q, r) <= Done(q, h.receiver) && Window(Done(q, r)) <= Window(Done(q, h.receiver))
            && HoldsMore(q, r, ids, h.receiver, ids') && HoldsOnly(q, r, ids, h.receiver, ids', i, k)
            && (h.ok && Ahead(q, r, i) ==> Held(q, h.receiver, ids', i, k))
            && (Acked(h, c) ==> && Held(q, h.receiver, ids', i, k)
                                && Window(Start(q, i) + k) <= Window(Done(q, h.receiver)) + 6)
  {
    BuffersCurrent(q, r, ids);
    hide CommandOf, Buffers, Held, Start, Size, Done, FrontReady, Window, Wire, Acknowledges, HoldsMore, HoldsOnly, Handle, Ahead;
    var c := CommandOf(q, i, k);
    CommandNumber(q, i, k);
    ids' := HandleKeeps(q, r, ids, i, k, waiting, maximum);
    HandleDispatches(r, c, waiting, maximum);
    var h := Handle(r, c, waiting, maximum);
    hide Arrives, CommandOf, HoldsMore;
    BuffersCurrent(q, h.receiver, ids');
    WindowGrows(Done(q, r), Done(q, h.receiver));
    if Acked(h, c) {
      AckedNear(q, h.receiver, Start(q, i) + k);
    }
  }

  lemma {:induction false} DeliverKeeps(s: System, s': System, ids: seq<nat>, i: nat, k: nat, waiting: bool, maximum: nat)
    returns (ids': seq<nat>)
    requires InvWith(s, ids) && Shaped(s) && NextStep(s, s', Deliver(i, k, waiting, maximum))
    ensures InvWith(s', ids') && s'.queue == s.queue && HoldsMore(s.queue, s.receiver, ids, s'.receiver, ids')
    ensures Done(s.queue, s.receiver) <= Done(s.queue, s'.receiver) && Window(Done(s.queue, s.receiver)) <= Window(Done(s.queue, s'.receiver))
    ensures Ahead(s.queue, s.receiver, i) && Handle(s.receiver, CommandOf(s.queue, i, k), waiting, maximum).ok ==>
              Held(s.queue, s'.receiver, ids', i, k)
  {
    hide CommandOf, Buffers, Held, Start, Size, Done, FrontReady, Window, AckInv, SentInv, SenderInv, HoldsMore, HoldsOnly, Handle, Acked, Ahead;
    WindowGrows(Start(s.queue, i) + k, s.sender.sent);
    ids' := Received(s.queue, s.receiver, ids, i, k, waiting, maximum);
    BuffersCurrent(s.queue, s'.receiver, ids');
    SenderInvMore(s, s');
    DeliverAcks(s, s', ids, ids', i, k);
    DeliverSent(s, s', ids, ids', i, k);
  }

  lemma DeliverSent(s: System, s': System, ids: seq<nat>, ids': seq<nat>, i: nat, k: nat)
    requires Buffers(s.queue, s.receiver, ids) && SentInv(s, ids) && i < |s.queue| && k < Size(s.queue[i])
    requires s'.queue == s.queue && s'.sender == s.sender && Buffers(s.queue, s'.receiver, ids')
    requires HoldsOnly(s.queue, s.receiver, ids, s'.receiver, ids', i, k) && Start(s.queue, i) + k <= s.sender.sent
    ensures SentInv(s', ids')
  {
    hide Buffers, Held, Start, Size;
    BuffersLength(s.queue, s.receiver, ids);
  }

  lemma CommandNumber(q: seq<Message>, i: nat, k: nat)
    requires AllSendable(q) && i < |q| && k < Size(q[i])
    ensures CommandOf(q, i, k).number == Wire(Start(q, i) + k)
  {
    hide Start, Wire, Cut;
  }

  lemma BuffersCurrent(q: seq<Message>, r: Receiver, ids: seq<nat>)
    requires Buffers(q, r, ids)
    ensures AllSendable(q) && |r.dispatched| <= |q| && r.current == Wire(Done(q, r)) && WellFormed(r.incoming)
  {
    BuffersWellFormed(q, r, ids);
  }

  lemma SenderInvMore(s: System, s': System)
    requires SenderInv(s) && s'.sender == s.sender && s.acks <= s'.acks
    ensures SenderInv(s')
  {
    hide Counted, Recent;
  }

  lemma AckedNear(q: seq<Message>, r: Receiver, n: nat)
    requires AllSendable(q) && |r.dispatched| <= |q| && r.current == Wire(Done(q, r))
    requires Acknowledges(Wire(n), r.current) && Window(n) <= Window(Done(q, r)) + 7
    ensures Window(n) <= Window(Done(q, r)) + 6
  {
    hide Wire, Acknowledges;
    var c := Done(q, r);
    if c <= n {
      AheadIsSorted(n, c);
    }
  }

  lemma NumberIsUnique(q: seq<Message>, i: nat, k: nat, j: nat, l: nat)
    requires AllSendable(q) && i < |q| && k < Size(q[i]) && j < |q| && l < Size(q[j])
    requires Start(q, i) + k == Start(q, j) + l
    ensures i == j && k == l
  {
    if i < j {
      StartGrows(q, i, j);
    } else if j < i {
      StartGrows(q, j, i);
    }
  }

  lemma DeliverAcks(s: System, s': System, ids: seq<nat>, ids': seq<nat>, i: nat, k: nat)
    requires Buffers(s.queue, s.receiver, ids) && AckInv(s, ids) && i < |s.queue| && k < Size(s.queue[i])
    requires s'.queue == s.queue && s'.sender == s.sender && Buffers(s.queue, s'.receiver, ids')
    requires HoldsMore(s.queue, s.receiver, ids, s'.receiver, ids')
    requires Window(Done(s.queue, s.receiver)) <= Window(Done(s.queue, s'.receiver))
    requires s'.acks == s.acks || s'.acks == s.acks + {Start(s.queue, i) + k}
    requires Start(s.queue, i) + k in s'.acks - s.acks ==>
               && Start(s.queue, i) + k <= s.sender.sent
               && Window(Start(s.queue, i) + k) <= Window(Done(s.queue, s'.receiver)) + 6
               && Held(s.queue, s'.receiver, ids', i, k)
    ensures AckInv(s', ids')
  {
    hide Buffers, Held, Window, Start, Size, Done;
    var q := s.queue;
    BuffersLength(q, s.receiver, ids);
    forall j, l | 0 <= j < |q| && 0 <= l < Size(q[j]) && Start(q, j) + l in s'.acks
      ensures Held(q, s'.receiver, ids', j, l)
    {
      if Start(q, j) + l in s.acks {
        assert Held(q, s.receiver, ids, j, l);
      } else {
        NumberIsUnique(q, i, k, j, l);
      }
    }
  }

  lemma AcknowledgeKeeps(s: System, s': System, ids: seq<nat>, n: nat, m: nat)
    requires InvWith(s, ids) && Shaped(s) && NextStep(s, s', Acknowledge(n, m))
    ensures InvWith(s', ids) && m == n
  {
    hide Buffers, Held, Counted, Wire, Window;
    AckIsExact(s.sender, n, m);
    ReleaseKeepsCounted(s.sender, m);
  }

  lemma InvShaped(s: System, ids: seq<nat>)
    requires InvWith(s, ids)
    ensures Shaped(s)
  {
    BuffersWellFormed(s.queue, s.receiver, ids);
  }

  lemma NextInv(s: System, s': System)
    requires Inv(s) && Next(s, s')
    ensures Inv(s')
  {
    var ids :| InvWith(s, ids);
    var step :| NextStep(s, s', step);
    hide InvWith, Shaped, MaySend, Start, Size;
    match step
    case Enqueue(m) =>
      EnqueueKeeps(s, m, ids);
    case Transmit =>
      TransmitKeeps(s, ids);
    case Deliver(i, k, waiting, maximum) =>
      var ids' := DeliverKeeps(s, s', ids, i, k, waiting, maximum);
    case Acknowledge(n, m) =>
      AcknowledgeKeeps(s, s', ids, n, m);
    case AcknowledgeNothing(n) =>
  }

  lemma {:induction false} RunInv(states: seq<System>, t: nat)
    requires Run(states) && t < |states|
    ensures Inv(states[t])
  {
    hide Init, Next, Inv;
    if t == 0 {
      StartInv(states[0]);
    } else {
      RunInv(states, t - 1);
      assert Next(states[t - 1], states[t - 1 + 1]);
      NextInv(states[t - 1], states[t]);
    }
  }

  lemma StartInv(s: System)
    requires Init(s)
    ensures Inv(s)
  {
    InitInv(s);
  }

  // ------------------------------------------------------------ main results

  /** In every run, what the receiver has handed on is a prefix of what was sent: each message once, in
      order, with all its bytes. */
  lemma DeliveredInOrder(states: seq<System>, t: nat)
    requires Run(states) && t < |states|
    ensures var s := states[t];
            && |s.receiver.dispatched| <= |s.queue|
            && forall i :: 0 <= i < |s.receiver.dispatched| ==> s.receiver.dispatched[i] == s.queue[i].data
  {
    RunInv(states, t);
    var ids :| InvWith(states[t], ids);
    assert Delivered(states[t].queue, states[t].receiver);
  }

  /** In every run, a command that was acknowledged belongs to a delivered message or lies in the queue. */
  lemma AcknowledgedIsHeld(states: seq<System>, t: nat, i: nat, k: nat)
    requires Run(states) && t < |states| && Shaped(states[t])
    requires i < |states[t].queue| && k < Size(states[t].queue[i]) && Start(states[t].queue, i) + k in states[t].acks
    ensures var s := states[t];
            || i < |s.receiver.dispatched|
            || exists p :: 0 <= p < |s.receiver.incoming|
                           && Matches(s.queue, i, s.receiver.incoming[p]) && HasPiece(s.queue[i], s.receiver.incoming[p], k)
  {
    hide Matches, SenderInv, Run, Start, Size;
    RunInv(states, t);
    var s := states[t];
    var ids :| InvWith(s, ids);
    assert Held(s.queue, s.receiver, ids, i, k);
    if i >= |s.receiver.dispatched| {
      var p :| 0 <= p < |ids| && ids[p] == i && HasPiece(s.queue[i], s.receiver.incoming[p], k);
      assert Matches(s.queue, i, s.receiver.incoming[p]);
    }
  }

  /** In every run the sender is at most seven windows ahead of the last delivered command, and what it
      has not heard of is in its newest seven windows. */
  lemma SenderStaysNear(states: seq<System>, t: nat)
    requires Run(states) && t < |states|
    ensures var s := states[t];
            && Shaped(s) && Window(s.sender.sent) <= Window(Done(s.queue, s.receiver)) + 7
            && forall m :: m in s.sender.unacked ==> Window(s.sender.sent) <= Window(m) + 6
  {
    RunInv(states, t);
    var ids :| InvWith(states[t], ids);
    InvShaped(states[t], ids);
  }

  /** In every run, once everything is sent and nothing is unacknowledged, everything is delivered. */
  lemma AllAcknowledgedIsDelivered(states: seq<System>, t: nat)
    requires Run(states) && t < |states| && Shaped(states[t])
    requires states[t].sender.unacked == {} && states[t].sender.sent + 1 == Start(states[t].queue, |states[t].queue|)
    ensures |states[t].receiver.dispatched| == |states[t].queue|
  {
    RunInv(states, t);
    var s := states[t];
    var ids :| InvWith(s, ids);
    var q, d := s.queue, |s.receiver.dispatched|;
    if d < |q| {
      var k := FirstIsMissing(s, ids);
      StartGrows(q, d, |q|);
    }
  }

  /** Of the next message some command is not acknowledged, as it would have been delivered otherwise. */
  lemma FirstIsMissing(s: System, ids: seq<nat>) returns (k: nat)
    requires InvWith(s, ids) && |s.receiver.dispatched| < |s.queue|
    ensures k < Size(s.queue[|s.receiver.dispatched|]) && Start(s.queue, |s.receiver.dispatched|) + k !in s.acks
  {
    hide Held, Buffers, FrontReady, SenderInv, Start;
    var q, r, d := s.queue, s.receiver, |s.receiver.dispatched|;
    BuffersLength(q, r, ids);
    if forall k :: 0 <= k < Size(q[d]) ==> Held(q, r, ids, d, k) {
      AllHeldIsReady(q, r, ids);
    }
    k :| 0 <= k < Size(q[d]) && !Held(q, r, ids, d, k);
  }
}
