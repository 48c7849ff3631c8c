/** Which messages the reliable channel can deliver at all: exactly those before the first message whose
    numbers reach over more windows than the gate and the acknowledgements let through. */
module ReliableDelivery {
  import opened Words
  import opened SequenceWindows
  import opened Fragments
  import opened ReliableReceiver
  import opened ReliableChannel
  import opened ReliableSender
  import opened ReliableProtocol

  /** The last number of message i is more than seven windows after the number before its first. */
  predicate TooLong(q: seq<Message>, i: nat)
    requires AllSendable(q) && i < |q|
  {
    Window(Start(q, i) + Size(q[i]) - 1) > Window(Start(q, i) - 1) + 7
  }

  /** The sender can test it before it queues the message: `number` is its newest number. */
  lemma TooLongIs(q: seq<Message>, i: nat, number: nat)
    requires AllSendable(q) && i < |q| && number == Wire(Start(q, i) - 1)
    ensures TooLong(q, i) <==> number % WINDOW_SIZE + Size(q[i]) >= FREE_WINDOWS * WINDOW_SIZE
  {
    hide Start, Size, Window, Wire;
    EightWindows(Start(q, i) - 1, Size(q[i]));
  }

  lemma EightWindows(a: nat, size: nat)
    ensures Window(a + size) > Window(a) + 7 <==> Wire(a) % WINDOW_SIZE + size >= FREE_WINDOWS * WINDOW_SIZE
  {
    WireParts(a);
  }

  lemma TooLongSame(q: seq<Message>, m: Message, i: nat)
    requires AllSendable(q) && Sendable(m) && i < |q|
    ensures TooLong(q + [m], i) == TooLong(q, i)
  {
    StartOfMore(q, m, i);
  }

  // ------------------------------------------------------ what is never delivered

  lemma DoneIsSent(s: System, ids: seq<nat>)
    requires InvWith(s, ids)
    ensures AllSendable(s.queue) && |s.receiver.dispatched| <= |s.queue| && Done(s.queue, s.receiver) <= s.sender.sent
  {
    hide Size, Wire;
    var d := |s.receiver.dispatched|;
    if d > 0 {
      assert Held(s.queue, s.receiver, ids, d - 1, Size(s.queue[d - 1]) - 1);
    }
  }

  /** In every run nothing is delivered or held that was not sent. */
  lemma NothingBeforeSent(states: seq<System>, t: nat)
    requires Run(states) && t < |states|
    ensures var s := states[t];
            && AllSendable(s.queue) && |s.receiver.dispatched| <= |s.queue| && Done(s.queue, s.receiver) <= s.sender.sent
            && forall p :: 0 <= p < |s.receiver.incoming| ==>
                 exists i :: 0 <= i < |s.queue| && Matches(s.queue, i, s.receiver.incoming[p])
                             && forall k :: 0 <= k < Size(s.queue[i]) && HasPiece(s.queue[i], s.receiver.incoming[p], k) ==>
                                  Start(s.queue, i) + k <= s.sender.sent
  {
    RunInv(states, t);
    var s := states[t];
    var ids :| InvWith(s, ids);
    DoneIsSent(s, ids);
    hide InvWith, Matches, HasPiece, Start, Size, Done, Run, AllSendable;
    forall p | 0 <= p < |s.receiver.incoming|
      ensures exists i :: 0 <= i < |s.queue| && Matches(s.queue, i, s.receiver.incoming[p])
                          && forall k :: 0 <= k < Size(s.queue[i]) && HasPiece(s.queue[i], s.receiver.incoming[p], k) ==>
                               Start(s.queue, i) + k <= s.sender.sent
    {
      HeldIsSent(s, ids, p);
    }
  }

  lemma HeldIsSent(s: System, ids: seq<nat>, p: nat)
    requires InvWith(s, ids) && p < |s.receiver.incoming|
    ensures |ids| == |s.receiver.incoming| && AllSendable(s.queue) && ids[p] < |s.queue| && Matches(s.queue, ids[p], s.receiver.incoming[p])
    ensures forall k :: 0 <= k < Size(s.queue[ids[p]]) && HasPiece(s.queue[ids[p]], s.receiver.incoming[p], k) ==>
              Start(s.queue, ids[p]) + k <= s.sender.sent
  {
    hide Matches, HasPiece, Start, Size, Done, FrontReady;
    var i := ids[p];
    assert Ahead(s.queue, s.receiver, i) && Matches(s.queue, i, s.receiver.incoming[p]);
    forall k | 0 <= k < Size(s.queue[i]) && HasPiece(s.queue[i], s.receiver.incoming[p], k)
      ensures Start(s.queue, i) + k <= s.sender.sent
    {
      assert Held(s.queue, s.receiver, ids, i, k);
    }
  }

  /** A step that delivered such a message would have received a number that could not be sent. */
  lemma LongStays(s: System, s': System, i: nat)
    requires Inv(s) && Inv(s') && s'.queue == s.queue && s'.sender == s.sender
    requires Shaped(s) && Shaped(s') && i < |s.queue| && TooLong(s.queue, i) && |s.receiver.dispatched| <= i
    ensures |s'.receiver.dispatched| <= i
  {
    hide InvWith, Start, Size, Window, Shaped;
    var q, d := s.queue, |s.receiver.dispatched|;
    var ids :| InvWith(s, ids);
    var ids' :| InvWith(s', ids');
    SentIsNear(s, ids);
    LastIsSent(s', ids', i);
    if d < i {
      StartGrows(q, d, i);
    }
    WindowGrows(Start(q, d) - 1, Start(q, i) - 1);
    WindowGrows(Start(q, i) + Size(q[i]) - 1, s.sender.sent);
  }

  lemma SentIsNear(s: System, ids: seq<nat>)
    requires InvWith(s, ids) && |s.receiver.dispatched| < |s.queue|
    ensures AllSendable(s.queue) && Window(s.sender.sent) <= Window(Start(s.queue, |s.receiver.dispatched|) - 1) + 7
  {
    hide Window, Start, Held;
  }

  lemma LastIsSent(s: System, ids: seq<nat>, i: nat)
    requires InvWith(s, ids) && i < |s.queue|
    ensures AllSendable(s.queue) && (|s.receiver.dispatched| > i ==> Start(s.queue, i) + Size(s.queue[i]) - 1 <= s.sender.sent)
  {
    hide Start, Size, Window, FrontReady;
    if |s.receiver.dispatched| > i {
      assert Held(s.queue, s.receiver, ids, i, Size(s.queue[i]) - 1);
    }
  }

  lemma LongStep(s: System, s': System, i: nat)
    requires Inv(s) && Next(s, s') && Inv(s') && Shaped(s') && i < |s'.queue| && TooLong(s'.queue, i)
    requires i < |s.queue| && TooLong(s.queue, i) ==> |s.receiver.dispatched| <= i
    ensures |s'.receiver.dispatched| <= i
  {
    hide Inv, TooLong, CommandOf, Handle, MaySend, Timely;
    var step :| NextStep(s, s', step);
    match step
    case Enqueue(m) =>
      if i < |s.queue| {
        TooLongSame(s.queue, m, i);
      }
    case Transmit =>
    case Deliver(j, k, waiting, maximum) =>
      LongStays(s, s', i);
    case Acknowledge(n, m) =>
    case AcknowledgeNothing(n) =>
  }

  lemma StateShaped(states: seq<System>, t: nat)
    requires Run(states) && t < |states|
    ensures Inv(states[t]) && Shaped(states[t])
  {
    RunInv(states, t);
    var ids :| InvWith(states[t], ids);
    InvShaped(states[t], ids);
  }

  /** In every run such a message is never delivered, nor anything after it. */
  lemma {:induction false} NeverDelivered(states: seq<System>, t: nat, i: nat)
    requires Run(states) && t < |states| && Shaped(states[t]) && i < |states[t].queue| && TooLong(states[t].queue, i)
    ensures |states[t].receiver.dispatched| <= i
  {
    hide TooLong, Next, Inv, WellFormed;
    if t > 0 {
      StateShaped(states, t - 1);
      StateShaped(states, t);
      if i < |states[t - 1].queue| && TooLong(states[t - 1].queue, i) {
        NeverDelivered(states, t - 1, i);
      }
      assert Next(states[t - 1], states[t - 1 + 1]);
      LongStep(states[t - 1], states[t], i);
    }
  }

  // ------------------------------------------------------------ what is not blocked

  /** When every sent command that may be acknowledged was, the next command of the message that is to be
      delivered may be sent, unless the message is too long. */
  lemma Unblocked(s: System, ids: seq<nat>)
    requires InvWith(s, ids) && |s.receiver.dispatched| < |s.queue| && !TooLong(s.queue, |s.receiver.dispatched|)
    requires s.sender.sent + 1 < Start(s.queue, |s.receiver.dispatched| + 1)
    requires forall n :: n in s.sender.unacked ==> Window(n) > Window(Done(s.queue, s.receiver)) + 6
    ensures MaySend(s.sender)
  {
    BuffersCurrent(s.queue, s.receiver, ids);
    hide Buffers, Held, Size, Window, Wire, FrontReady;
    var n, c := s.sender.sent + 1, Done(s.queue, s.receiver);
    WindowGrows(n, Start(s.queue, |s.receiver.dispatched|) + Size(s.queue[|s.receiver.dispatched|]) - 1);
    if n % WINDOW_SIZE == 0 {
      NewWindow(s.sender.sent);
      forall m | m in s.sender.unacked
        ensures false
      {
        WindowGrows(m, s.sender.sent);
      }
      NothingBlocks(s.sender, Wire(n) / WINDOW_SIZE);
    }
  }

  lemma NothingBlocks(s: Sender, w: nat)
    requires Counted(s) && s.unacked == {} && w < WINDOWS
    ensures !Blocked(s.windows, w)
  {
    forall v | 0 <= v < WINDOWS
      ensures s.windows.counts[v] == 0
    {
      assert InWindow(s.unacked, v) == {};
    }
  }

  // ------------------------------------------------------------------- continuations

  /** States one after another, from any state on. */
  ghost predicate Path(states: seq<System>) {
    |states| > 0 && forall t :: 0 <= t < |states| - 1 ==> Next(states[t], states[t + 1])
  }

  ghost predicate Leads(states: seq<System>, s: System, s': System) {
    Path(states) && states[0] == s && states[|states| - 1] == s'
  }

  function Join(a: seq<System>, b: seq<System>): seq<System>
    requires a != []
  {
    a[..|a| - 1] + b
  }

  lemma JoinLeads(a: seq<System>, b: seq<System>, s: System, m: System, s': System)
    requires Leads(a, s, m) && Leads(b, m, s')
    ensures Leads(Join(a, b), s, s')
  {
    var c, n := Join(a, b), |a| - 1;
    hide Next;
    forall t | 0 <= t < |c| - 1
      ensures Next(c[t], c[t + 1])
    {
      if t < n {
        assert Next(a[t], a[t + 1]);
        assert c[t] == a[t] && c[t + 1] == a[t + 1];
      } else {
        assert Next(b[t - n], b[t - n + 1]);
        assert c[t] == b[t - n] && c[t + 1] == b[t - n + 1];
      }
    }
  }

  lemma StepLeads(s: System, s': System, step: Step)
    requires Shaped(s) && NextStep(s, s', step)
    ensures Leads([s, s'], s, s')
  {
    hide Shaped, NextStep;
    assert Next(s, s');
  }

  lemma StayLeads(s: System)
    ensures Leads([s], s, s)
  {
  }

  /** The first k commands of message i are sent and held, the earlier messages delivered, and what is not
      acknowledged may not be yet. */
  predicate Sending(s: System, ids: seq<nat>, q: seq<Message>, i: nat, k: nat) {
    && InvWith(s, ids) && s.queue == q && |s.receiver.dispatched| == i < |q| && k <= Size(q[i])
    && s.sender.sent == Start(q, i) - 1 + k
    && (forall l :: 0 <= l < k ==> Held(q, s.receiver, ids, i, l))
    && forall n :: n in s.sender.unacked ==> Window(n) > Window(Start(q, i) - 1) + 6
  }

  /** Message i, the newest, was delivered, and only its own commands are not acknowledged. */
  predicate Flushing(s: System, ids: seq<nat>, q: seq<Message>, i: nat) {
    && InvWith(s, ids) && s.queue == q && |s.receiver.dispatched| == i + 1 <= |q|
    && s.sender.sent == Start(q, i + 1) - 1
    && forall n :: n in s.sender.unacked ==> n >= Start(q, i)
  }

  /** Everything sent was delivered and acknowledged. */
  predicate Clean(s: System, ids: seq<nat>, q: seq<Message>, i: nat) {
    && InvWith(s, ids) && s.queue == q && |s.receiver.dispatched| == i <= |q|
    && s.sender.sent == Start(q, i) - 1 && s.sender.unacked == {}
  }

  /** A message with the number n, at most sent, among the queue's. */
  lemma AckStep(s: System, ids: seq<nat>, n: nat) returns (s': System)
    requires InvWith(s, ids) && n in s.acks && n in s.sender.unacked && Window(s.sender.sent) <= Window(n) + 6
    ensures s' == s.(sender := Release(s.sender, n)) && InvWith(s', ids) && Leads([s, s'], s, s')
  {
    s' := s.(sender := Release(s.sender, n));
    InvShaped(s, ids);
    hide InvWith, Shaped, Release, Wire, Window;
    assert NextStep(s, s', Acknowledge(n, n));
    AcknowledgeKeeps(s, s', ids, n, n);
    StepLeads(s, s', Acknowledge(n, n));
  }

  lemma TransmitStep(s: System, ids: seq<nat>) returns (s': System)
    requires InvWith(s, ids) && MaySend(s.sender) && s.sender.sent + 1 < Start(s.queue, |s.queue|)
    ensures s' == s.(sender := SendNext(s.sender)) && InvWith(s', ids) && Leads([s, s'], s, s')
  {
    s' := s.(sender := SendNext(s.sender));
    InvShaped(s, ids);
    TransmitKeeps(s, ids);
    hide InvWith, Shaped, SendNext, MaySend;
    StepLeads(s, s', Transmit);
  }

  /** Command k of message i arrives, with nothing waiting and no limit on its size. */
  function Arrived(s: System, i: nat, k: nat): System
    requires Shaped(s) && i < |s.queue| && k < Size(s.queue[i])
  {
    var c := CommandOf(s.queue, i, k);
    var h := Handle(s.receiver, c, false, |s.queue[i].data|);
    s.(receiver := h.receiver, acks := if Acked(h, c) then s.acks + {Start(s.queue, i) + k} else s.acks)
  }

  lemma DeliverStep(s: System, ids: seq<nat>, i: nat, k: nat) returns (ids': seq<nat>)
    requires InvWith(s, ids) && Shaped(s) && i < |s.queue| && k < Size(s.queue[i])
    requires Start(s.queue, i) + k <= s.sender.sent && Timely(s, i)
    ensures var s' := Arrived(s, i, k);
            && InvWith(s', ids') && Leads([s, s'], s, s') && s'.queue == s.queue && s'.sender == s.sender && s.acks <= s'.acks
            && HoldsMore(s.queue, s.receiver, ids, s'.receiver, ids')
            && Done(s.queue, s.receiver) <= Done(s.queue, s'.receiver)
            && Window(Done(s.queue, s.receiver)) <= Window(Done(s.queue, s'.receiver))
            && (Ahead(s.queue, s.receiver, i) ==> Held(s.queue, s'.receiver, ids', i, k))
  {
    var q, s' := s.queue, Arrived(s, i, k);
    hide Handle, CommandOf, Start, Size, Window, Wire, Buffers, Held, FrontReady, SenderInv, AckInv, SentInv, HoldsMore, Ahead, Acknowledges, WellFormed;
    ArrivedIsNext(s, i, k);
    StepLeads(s, s', Deliver(i, k, false, |q[i].data|));
    ids' := DeliverKeeps(s, s', ids, i, k, false, |q[i].data|);
    if Ahead(q, s.receiver, i) {
      HandleOk(q, s.receiver, ids, i, k);
    }
  }

  lemma ArrivedIsNext(s: System, i: nat, k: nat)
    requires Shaped(s) && i < |s.queue| && k < Size(s.queue[i]) && Start(s.queue, i) + k <= s.sender.sent && Timely(s, i)
    ensures NextStep(s, Arrived(s, i, k), Deliver(i, k, false, |s.queue[i].data|))
  {
    hide Handle, CommandOf, Start, Size, Window, Wire, Acked;
  }

  /** The newest number is acknowledged if it is in one of the next seven windows. */
  lemma FirstIsAcked(s: System, ids: seq<nat>, i: nat, k: nat)
    requires InvWith(s, ids) && Shaped(s) && i < |s.queue| && k < Size(s.queue[i]) && Ahead(s.queue, s.receiver, i)
    requires Start(s.queue, i) + k == s.sender.sent && Window(s.sender.sent) <= Window(Done(s.queue, s.receiver)) + 6
    ensures s.sender.sent in Arrived(s, i, k).acks
  {
    hide Handle, CommandOf, Start, Size, Window, Wire, Buffers, Held, HoldsMore, Ahead, Acknowledges, WellFormed, InvWith, Arrived, Acked, Leads, Timely, Sixteen;
    var q, s' := s.queue, Arrived(s, i, k);
    InvBuffers(s, ids);
    AheadTimely(s, i);
    ArrivedAcks(s, i, k);
    var ids' := DeliverStep(s, ids, i, k);
    HandleOk(q, s.receiver, ids, i, k);
    InvBuffers(s', ids');
    DoneIsSent(s', ids');
    AheadIsSorted(s.sender.sent, Done(q, s'.receiver));
  }

  lemma AheadTimely(s: System, i: nat)
    requires Shaped(s) && i < |s.queue| && Ahead(s.queue, s.receiver, i)
    ensures Timely(s, i)
  {
  }

  /** A number of a delivered message is acknowledged again, and nothing else changes. */
  lemma RepeatAcked(s: System, ids: seq<nat>, i: nat, k: nat)
    requires InvWith(s, ids) && Shaped(s) && i < |s.receiver.dispatched| && k < Size(s.queue[i])
    requires Window(Done(s.queue, s.receiver)) <= Window(Start(s.queue, i)) + 7
    ensures Timely(s, i) && Arrived(s, i, k) == s.(acks := s.acks + {Start(s.queue, i) + k})
  {
    hide Handle, CommandOf, Start, Size, Window, Wire, Buffers, Acknowledges, WellFormed, InvWith, Acked, Arrived, Sixteen;
    InvBuffers(s, ids);
    ArrivedAcks(s, i, k);
    CommandNumber(s.queue, i, k);
    RepeatedIsAcked(s.queue, s.receiver, ids, i, k);
  }

  lemma InvBuffers(s: System, ids: seq<nat>)
    requires InvWith(s, ids)
    ensures Buffers(s.queue, s.receiver, ids) && WellFormed(s.receiver.incoming)
    ensures AllSendable(s.queue) && |s.receiver.dispatched| <= |s.queue| && s.receiver.current == Wire(Done(s.queue, s.receiver))
  {
    BuffersCurrent(s.queue, s.receiver, ids);
  }

  lemma ArrivedAcks(s: System, i: nat, k: nat)
    requires Shaped(s) && i < |s.queue| && k < Size(s.queue[i])
    ensures var h := Handle(s.receiver, CommandOf(s.queue, i, k), false, |s.queue[i].data|);
            && Arrived(s, i, k).receiver == h.receiver
            && (h.ok && Acknowledges(Wire(Start(s.queue, i) + k), h.receiver.current) ==>
                  Arrived(s, i, k) == s.(receiver := h.receiver, acks := s.acks + {Start(s.queue, i) + k}))
  {
    hide Handle, CommandOf, Start, Size, Wire, Acknowledges, WellFormed, Sixteen;
    CommandNumber(s.queue, i, k);
  }

  // ------------------------------------------------------- delivering one message

  lemma NextIsAhead(q: seq<Message>, r: Receiver)
    requires AllSendable(q) && |r.dispatched| < |q|
    ensures Ahead(q, r, |r.dispatched|)
  {
    hide Start;
    SameOrNext(Done(q, r));
  }

  lemma SameOrNext(n: nat)
    ensures Window(n + 1) <= Window(n) + 1
  {
  }

  /** Of message i, whose first k + 1 commands were sent, no later command is there: it was delivered
      exactly if that is all of it. */
  lemma DeliveredWhenWhole(s: System, ids: seq<nat>, q: seq<Message>, i: nat, k: nat)
    requires InvWith(s, ids) && s.queue == q && i < |q| && i <= |s.receiver.dispatched| && k < Size(q[i])
    requires s.sender.sent == Start(q, i) + k && forall l :: 0 <= l <= k ==> Held(q, s.receiver, ids, i, l)
    ensures |s.receiver.dispatched| == if k + 1 < Size(q[i]) then i else i + 1
  {
    hide Start, Size, Buffers, Held, WellFormed, InvWith;
    InvBuffers(s, ids);
    var d := |s.receiver.dispatched|;
    if d > i {
      DeliveredSent(s, ids, i, Size(q[i]) - 1);
      if d > i + 1 {
        DeliveredSent(s, ids, i + 1, 0);
        StartGrows(q, i, i + 1);
      }
    } else if k + 1 == Size(q[i]) {
      NotAllHeld(s, ids);
    }
  }

  lemma DeliveredSent(s: System, ids: seq<nat>, i: nat, k: nat)
    requires InvWith(s, ids) && i < |s.receiver.dispatched| && i < |s.queue| && k < Size(s.queue[i])
    ensures Start(s.queue, i) + k <= s.sender.sent
  {
    hide Start, Size, Buffers;
    assert Held(s.queue, s.receiver, ids, i, k);
  }

  lemma NotAllHeld(s: System, ids: seq<nat>)
    requires InvWith(s, ids) && |s.receiver.dispatched| < |s.queue|
    ensures Buffers(s.queue, s.receiver, ids)
    ensures exists k :: 0 <= k < Size(s.queue[|s.receiver.dispatched|]) && !Held(s.queue, s.receiver, ids, |s.receiver.dispatched|, k)
  {
    hide Held, Start, Size, Buffers, FrontReady;
    InvBuffers(s, ids);
    var d := |s.receiver.dispatched|;
    if forall k :: 0 <= k < Size(s.queue[d]) ==> Held(s.queue, s.receiver, ids, d, k) {
      AllHeldIsReady(s.queue, s.receiver, ids);
    }
  }

  lemma NextStart(q: seq<Message>, i: nat)
    requires AllSendable(q) && i < |q|
    ensures Start(q, i + 1) == Start(q, i) + Size(q[i])
  {
    hide Size;
  }

  lemma MoreDispatched(q: seq<Message>, r: Receiver, r': Receiver)
    requires AllSendable(q) && |r.dispatched| <= |q| && |r'.dispatched| <= |q| && Done(q, r) <= Done(q, r')
    ensures |r.dispatched| <= |r'.dispatched|
  {
    hide Start;
    if |r'.dispatched| < |r.dispatched| {
      StartGrows(q, |r'.dispatched|, |r.dispatched|);
    }
  }

  lemma OneMoreHeld(q: seq<Message>, r: Receiver, ids: seq<nat>, r': Receiver, ids': seq<nat>, i: nat, k: nat)
    requires Buffers(q, r, ids) && Buffers(q, r', ids') && HoldsMore(q, r, ids, r', ids') && i < |q| && k < Size(q[i])
    requires Held(q, r', ids', i, k) && forall l :: 0 <= l < k ==> Held(q, r, ids, i, l)
    ensures forall l :: 0 <= l <= k ==> Held(q, r', ids', i, l)
  {
    hide Buffers, Held, Size;
  }

  lemma OneSent(s: System, ids: seq<nat>, q: seq<Message>, i: nat, k: nat)
    requires InvWith(s, ids) && s.queue == q && i < |q| && i <= |s.receiver.dispatched| && k < Size(q[i])
    requires s.sender.sent == Start(q, i) + k && forall l :: 0 <= l <= k ==> Held(q, s.receiver, ids, i, l)
    requires forall n :: n in s.sender.unacked ==> Window(n) > Window(Start(q, i) - 1) + 6
    ensures if k + 1 < Size(q[i]) then Sending(s, ids, q, i, k + 1) else Flushing(s, ids, q, i)
  {
    InvBuffers(s, ids);
    DeliveredWhenWhole(s, ids, q, i, k);
    hide InvWith, Held, Buffers, Window, Start, Size;
    NextStart(q, i);
    forall n | n in s.sender.unacked
      ensures n >= Start(q, i)
    {
      WindowGrows(n, Start(q, i) - 1);
    }
  }

  /** The next command is sent, arrives, and is acknowledged if it may be. */
  lemma SendOne(s: System, ids: seq<nat>, q: seq<Message>, i: nat, k: nat) returns (path: seq<System>, s': System, ids': seq<nat>)
    requires Sending(s, ids, q, i, k) && k < Size(q[i]) && !TooLong(q, i)
    ensures Leads(path, s, s')
    ensures if k + 1 < Size(q[i]) then Sending(s', ids', q, i, k + 1) else Flushing(s', ids', q, i)
  {
    hide InvWith, Buffers, MaySend, TooLong, Leads, Arrived, Held, HoldsMore, Start, Size, Window, Timely, Ahead, Wire, WellFormed, Sixteen, CountUp, CountDown, Blocked;
    InvShaped(s, ids);
    InvBuffers(s, ids);
    StartGrows(q, i, |q|);
    NextStart(q, i);
    Unblocked(s, ids);
    var s1 := TransmitStep(s, ids);
    InvShaped(s1, ids);
    NextIsAhead(q, s1.receiver);
    AheadTimely(s1, i);
    var n, s2 := Start(q, i) + k, Arrived(s1, i, k);
    ids' := DeliverStep(s1, ids, i, k);
    path := Join([s, s1], [s1, s2]);
    JoinLeads([s, s1], [s1, s2], s, s1, s2);
    s' := s2;
    if Window(n) <= Window(Done(q, s1.receiver)) + 6 {
      FirstIsAcked(s1, ids, i, k);
      s' := AckStep(s2, ids', n);
      JoinLeads(path, [s2, s'], s, s2, s');
      path := Join(path, [s2, s']);
    }
    InvBuffers(s', ids');
    MoreDispatched(q, s1.receiver, s'.receiver);
    OneMoreHeld(q, s1.receiver, ids, s'.receiver, ids', i, k);
    OneSent(s', ids', q, i, k);
  }

  /** The rest of message i. */
  lemma {:induction false} SendRest(s: System, ids: seq<nat>, q: seq<Message>, i: nat, k: nat)
    returns (path: seq<System>, s': System, ids': seq<nat>)
    requires Sending(s, ids, q, i, k) && k < Size(q[i]) && !TooLong(q, i)
    ensures Leads(path, s, s') && Flushing(s', ids', q, i)
    decreases Size(q[i]) - k
  {
    hide Sending, Flushing, TooLong, Leads, Size;
    SendingShape(s, ids, q, i, k);
    path, s', ids' := SendOne(s, ids, q, i, k);
    if k + 1 < Size(q[i]) {
      var rest, s2, ids2 := SendRest(s', ids', q, i, k + 1);
      JoinLeads(path, rest, s, s', s2);
      LeadsNotEmpty(path, s, s');
      path, s', ids' := Join(path, rest), s2, ids2;
    }
  }

  lemma LeadsNotEmpty(path: seq<System>, s: System, s': System)
    requires Leads(path, s, s')
    ensures path != []
  {
  }

  lemma SendingShape(s: System, ids: seq<nat>, q: seq<Message>, i: nat, k: nat)
    requires Sending(s, ids, q, i, k)
    ensures AllSendable(q) && i < |q| && k <= Size(q[i])
  {
    hide Size;
    InvBuffers(s, ids);
  }

  /** One command of the delivered message arrives again, to be acknowledged. */
  lemma FlushOne(s: System, ids: seq<nat>, q: seq<Message>, i: nat, n: nat) returns (path: seq<System>, s': System, ids': seq<nat>)
    requires Flushing(s, ids, q, i) && !TooLong(q, i) && n in s.sender.unacked
    ensures Leads(path, s, s') && Flushing(s', ids', q, i) && s'.sender.unacked == s.sender.unacked - {n}
  {
    hide InvWith, Buffers, Leads, Arrived, Held, HoldsMore, Start, Size, Window, Timely, Ahead, Wire, WellFormed, Sixteen, CountUp, CountDown;
    InvShaped(s, ids);
    InvBuffers(s, ids);
    UnackedSent(s, ids, n);
    NextStart(q, i);
    var k := n - Start(q, i);
    WindowGrows(Start(q, i) - 1, Start(q, i));
    RepeatAcked(s, ids, i, k);
    var s1 := Arrived(s, i, k);
    ids' := DeliverStep(s, ids, i, k);
    s' := AckStep(s1, ids', n);
    path := Join([s, s1], [s1, s']);
    JoinLeads([s, s1], [s1, s'], s, s1, s');
  }

  lemma UnackedSent(s: System, ids: seq<nat>, n: nat)
    requires InvWith(s, ids) && n in s.sender.unacked
    ensures 1 <= n <= s.sender.sent && Window(s.sender.sent) <= Window(n) + 6
  {
    hide Buffers, Counted, Window;
  }

  lemma {:induction false} FlushAll(s: System, ids: seq<nat>, q: seq<Message>, i: nat) returns (path: seq<System>, s': System, ids': seq<nat>)
    requires Flushing(s, ids, q, i) && !TooLong(q, i)
    ensures Leads(path, s, s') && Clean(s', ids', q, i + 1)
    decreases |s.sender.unacked|
  {
    hide InvWith, TooLong, Leads;
    if s.sender.unacked == {} {
      path, s', ids' := [s], s, ids;
      StayLeads(s);
    } else {
      var n :| n in s.sender.unacked;
      hide Flushing;
      path, s', ids' := FlushOne(s, ids, q, i, n);
      var rest, s2, ids2 := FlushAll(s', ids', q, i);
      JoinLeads(path, rest, s, s', s2);
      LeadsNotEmpty(path, s, s');
      path, s', ids' := Join(path, rest), s2, ids2;
    }
  }

  lemma {:induction false} DeliverOne(s: System, ids: seq<nat>, q: seq<Message>, i: nat) returns (path: seq<System>, s': System, ids': seq<nat>)
    requires Clean(s, ids, q, i) && i < |q| && !TooLong(q, i)
    ensures Leads(path, s, s') && Clean(s', ids', q, i + 1)
  {
    hide InvWith, TooLong, Leads, Size, Held;
    assert Sending(s, ids, q, i, 0);
    hide Sending, Flushing, Clean;
    path, s', ids' := SendRest(s, ids, q, i, 0);
    var rest, s2, ids2 := FlushAll(s', ids', q, i);
    JoinLeads(path, rest, s, s', s2);
    LeadsNotEmpty(path, s, s');
    path, s', ids' := Join(path, rest), s2, ids2;
  }

  /** All messages up to d, one after another. */
  lemma {:induction false} DeliverUpTo(s: System, ids: seq<nat>, q: seq<Message>, i: nat, d: nat)
    returns (path: seq<System>, s': System, ids': seq<nat>)
    requires Clean(s, ids, q, i) && AllSendable(q) && i <= d <= |q| && forall j :: i <= j < d ==> !TooLong(q, j)
    ensures Leads(path, s, s') && Clean(s', ids', q, d)
    decreases d - i
  {
    hide Clean, TooLong, Leads;
    if i == d {
      path, s', ids' := [s], s, ids;
      StayLeads(s);
    } else {
      path, s', ids' := DeliverOne(s, ids, q, i);
      var rest, s2, ids2 := DeliverUpTo(s', ids', q, i + 1, d);
      JoinLeads(path, rest, s, s', s2);
      LeadsNotEmpty(path, s, s');
      path, s', ids' := Join(path, rest), s2, ids2;
    }
  }

  function Started(): System {
    System([], Sender(0, {}, NoWindows()), Receiver(0, [], []), {})
  }

  /** The application sends everything at once. */
  lemma {:induction false} EnqueueAll(q: seq<Message>) returns (path: seq<System>)
    requires AllSendable(q)
    ensures Leads(path, Started(), Started().(queue := q)) && Clean(Started().(queue := q), [], q, 0)
  {
    if q == [] {
      path := [Started()];
      InitInv(Started());
      StayLeads(Started());
    } else {
      var before, m := q[..|q| - 1], q[|q| - 1];
      path := EnqueueAll(before);
      var s, s' := Started().(queue := before), Started().(queue := q);
      assert before + [m] == q;
      InvShaped(s, []);
      hide InvWith, Shaped, Leads;
      assert NextStep(s, s', Enqueue(m));
      StepLeads(s, s', Enqueue(m));
      EnqueueKeeps(s, m, []);
      JoinLeads(path, [s, s'], Started(), s, s');
      LeadsNotEmpty(path, Started(), s);
      path := Join(path, [s, s']);
    }
  }

  // ------------------------------------------------------------------ main result

  /** Some run sends the messages of q and delivers message d. */
  ghost predicate Deliverable(q: seq<Message>, d: nat) {
    exists states: seq<System> :: Run(states) && |states| > 0 && states[|states| - 1].queue == q && |states[|states| - 1].receiver.dispatched| > d
  }

  /** A message can be delivered if and only if neither it nor one before it is too long. */
  lemma DeliverableIff(q: seq<Message>, d: nat)
    requires AllSendable(q) && d < |q|
    ensures Deliverable(q, d) <==> forall j :: 0 <= j <= d ==> !TooLong(q, j)
  {
    hide TooLong, Run;
    if forall j :: 0 <= j <= d ==> !TooLong(q, j) {
      var states := DeliveringRun(q, d);
    }
    if Deliverable(q, d) {
      var states: seq<System> :| Run(states) && |states| > 0 && states[|states| - 1].queue == q && |states[|states| - 1].receiver.dispatched| > d;
      DeliveredNotLong(states, d);
    }
  }

  lemma DeliveringRun(q: seq<Message>, d: nat) returns (states: seq<System>)
    requires AllSendable(q) && d < |q| && forall j :: 0 <= j <= d ==> !TooLong(q, j)
    ensures Run(states) && |states| > 0 && states[|states| - 1].queue == q && |states[|states| - 1].receiver.dispatched| == d + 1
  {
    hide InvWith, TooLong, Next, Join;
    var path := EnqueueAll(q);
    var s := Started().(queue := q);
    var rest, s', ids' := DeliverUpTo(s, [], q, 0, d + 1);
    JoinLeads(path, rest, Started(), s, s');
    states := Join(path, rest);
  }

  lemma DeliveredNotLong(states: seq<System>, d: nat)
    requires Run(states) && |states| > 0 && |states[|states| - 1].receiver.dispatched| > d
    ensures var q := states[|states| - 1].queue; AllSendable(q) && d < |q| && forall j :: 0 <= j <= d ==> !TooLong(q, j)
  {
    hide TooLong, Run;
    StateShaped(states, |states| - 1);
    var q := states[|states| - 1].queue;
    forall j | 0 <= j <= d
      ensures !TooLong(q, j)
    {
      if TooLong(q, j) {
        NeverDelivered(states, |states| - 1, j);
      }
    }
  }

  /** A message sent first on its channel can be delivered if and only if it has less than 32768 fragments. */
  lemma FirstMessage(m: Message)
    requires Sendable(m)
    ensures Deliverable([m], 0) <==> Size(m) < FREE_WINDOWS * WINDOW_SIZE
  {
    hide Deliverable, Size;
    assert Start([m], 0) == 1;
    TooLongIs([m], 0, 0);
    DeliverableIff([m], 0);
  }

  /** The sender accepts a first message of 32768 fragments, which can never be delivered. */
  lemma EightWindowsNeverArrive(data: seq<u8>)
    requires |data| == FREE_WINDOWS * WINDOW_SIZE
    ensures Sendable(Message(data, 1)) && !Deliverable([Message(data, 1)], 0)
  {
    CutLength(data, 1, 0);
    hide Deliverable, Cut;
    FirstMessage(Message(data, 1));
  }
}
