/** The sending peer takes the steps of the protocol's sender: each operation on its lists is an Enqueue, a
    Transmit or an Acknowledge of the channel's system, or leaves that as it is. */
module ReliableRefinement {
  import opened SequenceWindows
  import opened Fragments
  import opened ReliableReceiver
  import opened ReliableChannel
  import opened ReliableSender
  import opened ReliableProtocol

  function NumberOf(c: Outgoing, channel: nat): multiset<nat> {
    if c.channel == channel && c.attempts > 0 then multiset{c.number} else multiset{}
  }

  /** The numbers of a channel's commands that were sent. */
  function Numbers(list: seq<Outgoing>, channel: nat): multiset<nat> {
    if list == [] then multiset{} else Numbers(list[..|list| - 1], channel) + NumberOf(list[|list| - 1], channel)
  }

  lemma {:induction false} NumbersConcat(a: seq<Outgoing>, b: seq<Outgoing>, channel: nat)
    ensures Numbers(a + b, channel) == Numbers(a, channel) + Numbers(b, channel)
  {
    hide Numbers, NumberOf;
    if b == [] {
      NumbersNone(b, channel);
      NothingMore(Numbers(a, channel));
      assert a + b == a;
    } else {
      var c := b[..|b| - 1];
      NumbersConcat(a, c, channel);
      NumbersStep(b, channel);
      NumbersStep(a + b, channel);
      assert (a + b)[..|a + b| - 1] == a + c && (a + b)[|a + b| - 1] == b[|b| - 1];
      BagsAssociate(Numbers(a, channel), Numbers(c, channel), NumberOf(b[|b| - 1], channel));
    }
  }

  lemma NumbersNone(list: seq<Outgoing>, channel: nat)
    requires list == []
    ensures Numbers(list, channel) == multiset{}
  {
  }

  lemma NumbersStep(list: seq<Outgoing>, channel: nat)
    requires list != []
    ensures Numbers(list, channel) == Numbers(list[..|list| - 1], channel) + NumberOf(list[|list| - 1], channel)
  {
  }

  lemma OneNumber(c: Outgoing, channel: nat)
    ensures Numbers([c], channel) == NumberOf(c, channel)
  {
    assert [c][..0] == [];
  }

  lemma BagsAssociate(a: multiset<nat>, b: multiset<nat>, x: multiset<nat>)
    ensures (a + b) + x == a + (b + x)
  {
  }

  lemma BagsCancel(a: multiset<nat>, b: multiset<nat>, x: multiset<nat>)
    requires a + x == b + x
    ensures a == b
  {
    forall n: nat
      ensures a[n] == b[n]
    {
      assert (a + x)[n] == (b + x)[n];
    }
  }

  function Wires(numbers: set<nat>): set<nat> {
    set n | n in numbers :: Wire(n)
  }

  /** The peer's books for a channel say what the sender of the system knows: what is under way, what was sent
      last, and how much is still to be sent. */
  ghost predicate Refines(s: Sending, waiting: seq<Outgoing>, sent: seq<Outgoing>, channel: nat, sys: System) {
    && AllSendable(sys.queue) && s.windows == sys.sender.windows && s.last == Wire(sys.sender.sent)
    && sys.sender.sent + |Unsent(waiting, channel)| + 1 == Start(sys.queue, |sys.queue|)
    && Numbers(sent, channel) + Numbers(waiting, channel) == multiset(Wires(sys.sender.unacked))
  }

  lemma StartRefines(channel: nat, sys: System)
    requires Init(sys)
    ensures Refines(Sending(0, 0, NoWindows()), [], [], channel, sys)
  {
    assert Wires(sys.sender.unacked) == {};
  }

  // ------------------------------------------------------------------- sending

  /** Unacknowledged numbers differ on the wire. */
  lemma WiresApart(s: Sender, m: nat, n: nat)
    requires Recent(s) && m in s.unacked && n in s.unacked && Wire(m) == Wire(n)
    ensures m == n
  {
    AckIsExact(s, n, m);
  }

  lemma WiresOneMore(s: Sender, n: nat)
    requires Recent(s) && n in s.unacked
    ensures multiset(Wires(s.unacked)) == multiset(Wires(s.unacked - {n})) + multiset{Wire(n)}
  {
    hide Wire;
    forall m | m in s.unacked - {n}
      ensures Wire(m) != Wire(n)
    {
      if Wire(m) == Wire(n) {
        WiresApart(s, m, n);
      }
    }
    assert Wires(s.unacked) == Wires(s.unacked - {n}) + {Wire(n)};
  }

  lemma FirstUnsent(waiting: seq<Outgoing>, channel: nat)
    requires waiting != []
    ensures var c := waiting[0];
            && Unsent(waiting, channel) == (if c.channel == channel && c.attempts == 0 then [c] else []) + Unsent(waiting[1..], channel)
            && Numbers(waiting, channel) == NumberOf(c, channel) + Numbers(waiting[1..], channel)
  {
    assert waiting == [waiting[0]] + waiting[1..];
    UnsentConcat([waiting[0]], waiting[1..], channel);
    NumbersConcat([waiting[0]], waiting[1..], channel);
    OneNumber(waiting[0], channel);
  }

  /** What SendFront does with the front of outgoingSendReliableCommands is a Transmit if the command is the
      channel's and was not sent before; otherwise the channel's system stays as it is. */
  lemma SendRefines(s: Sending, waiting: seq<Outgoing>, sent: seq<Outgoing>, channel: nat, sys: System, ids: seq<nat>, c: Outgoing)
    returns (sys': System)
    requires InvWith(sys, ids) && Refines(s, waiting, sent, channel, sys) && Booked(s, channel, sent, waiting)
    requires waiting != [] && c.number == waiting[0].number && c.channel == waiting[0].channel && c.attempts == waiting[0].attempts + 1
    requires waiting[0].number < NUMBERS
    requires waiting[0].attempts < 1 && waiting[0].channel == channel && waiting[0].number % WINDOW_SIZE == 0 ==>
               !Blocked(s.windows, waiting[0].number / WINDOW_SIZE)
    ensures var first := waiting[0].channel == channel && waiting[0].attempts == 0;
            && Refines(if first then SendOne(s, c.number) else s, waiting[1..], sent + [c], channel, sys')
            && if first then Shaped(sys) && NextStep(sys, sys', Transmit) else sys' == sys
  {
    if waiting[0].channel == channel && waiting[0].attempts == 0 {
      sys' := FirstSend(s, waiting, sent, channel, sys, ids, c);
    } else {
      Resend(s, waiting, sent, channel, sys, c);
      sys' := sys;
    }
  }

  lemma Resend(s: Sending, waiting: seq<Outgoing>, sent: seq<Outgoing>, channel: nat, sys: System, c: Outgoing)
    requires Refines(s, waiting, sent, channel, sys) && waiting != []
    requires c.number == waiting[0].number && c.channel == waiting[0].channel && c.attempts == waiting[0].attempts + 1
    requires !(waiting[0].channel == channel && waiting[0].attempts == 0)
    ensures Refines(s, waiting[1..], sent + [c], channel, sys)
  {
    assert NumberOf(c, channel) == NumberOf(waiting[0], channel);
    hide Unsent, Numbers, NumberOf, Wires, Start;
    FirstUnsent(waiting, channel);
    NumbersConcat(sent, [c], channel);
    OneNumber(c, channel);
    BagsMove(Numbers(sent, channel), Numbers(waiting[1..], channel), NumberOf(c, channel));
  }

  lemma FirstSend(s: Sending, waiting: seq<Outgoing>, sent: seq<Outgoing>, channel: nat, sys: System, ids: seq<nat>, c: Outgoing)
    returns (sys': System)
    requires InvWith(sys, ids) && Refines(s, waiting, sent, channel, sys) && Booked(s, channel, sent, waiting)
    requires waiting != [] && waiting[0].channel == channel && waiting[0].attempts == 0
    requires c.number == waiting[0].number && c.channel == channel && c.attempts == 1 && c.number < NUMBERS
    requires c.number % WINDOW_SIZE == 0 ==> !Blocked(s.windows, c.number / WINDOW_SIZE)
    ensures Refines(SendOne(s, c.number), waiting[1..], sent + [c], channel, sys')
    ensures Shaped(sys) && NextStep(sys, sys', Transmit)
  {
    hide Booked, InvWith, Unsent, Numbers, NumberOf, Blocked, Wires, Start, Window, Wire, WellFormed, CountUp;
    InvShaped(sys, ids);
    sys' := sys.(sender := SendNext(sys.sender));
    NextUnsent(s, waiting, sent, channel, sys.sender.sent);
    FirstNumbers(waiting, sent, channel, c);
    NextWindow(sys.sender.sent);
    TransmitIs(sys);
    NewlyUnacked(sys, ids);
  }

  lemma TransmitIs(sys: System)
    requires Shaped(sys) && MaySend(sys.sender) && sys.sender.sent + 1 < Start(sys.queue, |sys.queue|)
    ensures NextStep(sys, sys.(sender := SendNext(sys.sender)), Transmit)
  {
  }

  lemma FirstNumbers(waiting: seq<Outgoing>, sent: seq<Outgoing>, channel: nat, c: Outgoing)
    requires waiting != [] && waiting[0].channel == channel && waiting[0].attempts == 0
    requires c.channel == channel && c.attempts == 1
    ensures Numbers(sent + [c], channel) + Numbers(waiting[1..], channel) ==
            Numbers(sent, channel) + Numbers(waiting, channel) + multiset{c.number}
    ensures |Unsent(waiting, channel)| == |Unsent(waiting[1..], channel)| + 1
  {
    assert NumberOf(c, channel) == multiset{c.number} && NumberOf(waiting[0], channel) == multiset{};
    hide Unsent, Numbers, NumberOf;
    FirstUnsent(waiting, channel);
    NumbersConcat(sent, [c], channel);
    OneNumber(c, channel);
    NothingMore(Numbers(waiting[1..], channel));
    BagsMove(Numbers(sent, channel), Numbers(waiting[1..], channel), multiset{c.number});
  }

  lemma NextUnsent(s: Sending, waiting: seq<Outgoing>, sent: seq<Outgoing>, channel: nat, n: nat)
    requires Booked(s, channel, sent, waiting) && s.last == Wire(n)
    requires waiting != [] && waiting[0].channel == channel && waiting[0].attempts == 0
    ensures waiting[0].number == Wire(n + 1)
  {
    hide WindowBooked, CountIn, Unsent;
    FirstUnsent(waiting, channel);
    assert Unsent(waiting, channel)[0] == waiting[0];
    NextWire(n);
  }

  lemma NextWindow(n: nat)
    ensures (n + 1) % WINDOW_SIZE == Wire(n + 1) % WINDOW_SIZE
  {
    WireParts(n + 1);
  }

  lemma BagsMove(a: multiset<nat>, b: multiset<nat>, x: multiset<nat>)
    ensures a + (x + b) == (a + x) + b && (a + x) + b == (a + b) + x
  {
  }

  lemma NextWire(n: nat)
    ensures Wire(n + 1) == (Wire(n) + 1) % NUMBERS
  {
    WireSum(n, 1);
  }

  lemma NewlyUnacked(sys: System, ids: seq<nat>)
    requires InvWith(sys, ids) && MaySend(sys.sender)
    ensures var next := SendNext(sys.sender);
            multiset(Wires(next.unacked)) == multiset(Wires(sys.sender.unacked)) + multiset{Wire(next.sent)}
  {
    hide Buffers, Held, Window, Wires, Wire;
    SendKeepsRecent(sys.sender);
    var next := SendNext(sys.sender);
    assert next.sent !in sys.sender.unacked;
    assert next.unacked - {next.sent} == sys.sender.unacked;
    WiresOneMore(next, next.sent);
  }

  // -------------------------------------------------------------- acknowledgements

  lemma TakenNumbers(before: seq<Outgoing>, after: seq<Outgoing>, c: Outgoing, channel: nat)
    requires TakenOut(before, after, c) && c.attempts > 0
    ensures Numbers(before, channel) == Numbers(after, channel) + NumberOf(c, channel)
    ensures Unsent(after, channel) == Unsent(before, channel)
  {
    var k :| 0 <= k < |before| && before[k] == c && after == Without(before, k);
    hide Numbers, NumberOf, Unsent, Without, TakenOut;
    UnsentWithout(before, k, channel);
    NumbersWithout(before, k, channel);
  }

  lemma NumbersWithout(list: seq<Outgoing>, k: nat, channel: nat)
    requires k < |list|
    ensures Numbers(list, channel) == Numbers(Without(list, k), channel) + NumberOf(list[k], channel)
  {
    var a, c, b := list[..k], list[k], list[k + 1..];
    assert list == a + [c] + b && Without(list, k) == a + b;
    hide Numbers, NumberOf, Without;
    SplitNumbers(a, c, b, channel);
  }

  lemma UnsentWithout(list: seq<Outgoing>, k: nat, channel: nat)
    requires k < |list| && list[k].attempts > 0
    ensures Unsent(list, channel) == Unsent(Without(list, k), channel)
  {
    hide Unsent, Ids, CountIn, TotalLength;
    WithoutIs(list, k, channel, 0);
  }

  lemma SplitNumbers(a: seq<Outgoing>, c: Outgoing, b: seq<Outgoing>, channel: nat)
    ensures Numbers(a + [c] + b, channel) == Numbers(a + b, channel) + NumberOf(c, channel)
  {
    hide Numbers, NumberOf;
    NumbersConcat(a + [c], b, channel);
    NumbersConcat(a, [c], channel);
    NumbersConcat(a, b, channel);
    OneNumber(c, channel);
    BagsOneMore(Numbers(a, channel), Numbers(b, channel), NumberOf(c, channel));
  }

  lemma {:induction false} InNumbers(list: seq<Outgoing>, channel: nat, number: nat)
    requires number in Numbers(list, channel)
    ensures exists d :: d in list && d.channel == channel && d.attempts > 0 && d.number == number
  {
    var last := list[|list| - 1];
    if !(last.channel == channel && last.attempts > 0 && last.number == number) {
      InNumbers(list[..|list| - 1], channel, number);
    }
  }

  lemma {:induction false} NumberIn(list: seq<Outgoing>, channel: nat, d: Outgoing)
    requires d in list && d.channel == channel && d.attempts > 0
    ensures d.number in Numbers(list, channel)
  {
    if d != list[|list| - 1] {
      NumberIn(list[..|list| - 1], channel, d);
    }
  }

  /** What RemoveSent takes for an acknowledgement of n, not sixteen windows late, is the command that n stands
      for, and the system's Acknowledge; when it finds nothing the system has nothing to acknowledge. */
  lemma AckRefines(s: Sending, waiting: seq<Outgoing>, sent: seq<Outgoing>, waiting': seq<Outgoing>, sent': seq<Outgoing>,
                   channel: nat, sys: System, ids: seq<nat>, n: nat, c: Outgoing) returns (sys': System)
    requires InvWith(sys, ids) && Refines(s, waiting, sent, channel, sys)
    requires n in sys.acks && Window(sys.sender.sent) < Window(n) + WINDOWS
    requires c.attempts > 0 && c.channel == channel && c.number == Wire(n)
    requires (TakenOut(sent, sent', c) && waiting' == waiting) || (sent' == sent && TakenOut(waiting, waiting', c))
    ensures Shaped(sys) && NextStep(sys, sys', Acknowledge(n, n))
    ensures Refines(ReliableSender.Acknowledge(s, c.number), waiting', sent', channel, sys')
  {
    hide InvWith, Unsent, Numbers, TakenOut, Start, Window, Wires, Wire, WellFormed, CountDown;
    InvShaped(sys, ids);
    AckNumbers(waiting, sent, waiting', sent', channel, c);
    AckBags(sys, ids, n, Numbers(sent', channel) + Numbers(waiting', channel));
    sys' := sys.(sender := Release(sys.sender, n));
    ReleaseIs(s, sys, n);
  }

  lemma AckBags(sys: System, ids: seq<nat>, n: nat, bag: multiset<nat>)
    requires InvWith(sys, ids) && n in sys.acks && Window(sys.sender.sent) < Window(n) + WINDOWS
    requires multiset(Wires(sys.sender.unacked)) == bag + multiset{Wire(n)}
    ensures n in sys.sender.unacked && bag == multiset(Wires(sys.sender.unacked - {n}))
  {
    hide InvWith, Window, Wires, Wire;
    assert (bag + multiset{Wire(n)})[Wire(n)] > 0;
    var m := WireOf(sys.sender.unacked, Wire(n));
    RecentOf(sys, ids, m, n);
    WiresOneMore(sys.sender, n);
    BagsCancel(bag, multiset(Wires(sys.sender.unacked - {n})), multiset{Wire(n)});
  }

  lemma AckNumbers(waiting: seq<Outgoing>, sent: seq<Outgoing>, waiting': seq<Outgoing>, sent': seq<Outgoing>, channel: nat, c: Outgoing)
    requires c.attempts > 0 && c.channel == channel
    requires (TakenOut(sent, sent', c) && waiting' == waiting) || (sent' == sent && TakenOut(waiting, waiting', c))
    ensures Numbers(sent, channel) + Numbers(waiting, channel) == Numbers(sent', channel) + Numbers(waiting', channel) + multiset{c.number}
    ensures Unsent(waiting', channel) == Unsent(waiting, channel)
  {
    assert NumberOf(c, channel) == multiset{c.number};
    hide Unsent, Numbers, NumberOf, TakenOut;
    if TakenOut(sent, sent', c) && waiting' == waiting {
      TakenNumbers(sent, sent', c, channel);
    } else {
      TakenNumbers(waiting, waiting', c, channel);
    }
    BagsMove(Numbers(sent', channel), Numbers(waiting', channel), multiset{c.number});
    BagsAssociate(Numbers(sent', channel), Numbers(waiting', channel), multiset{c.number});
  }

  lemma WireOf(numbers: set<nat>, w: nat) returns (m: nat)
    requires w in multiset(Wires(numbers))
    ensures m in numbers && Wire(m) == w
  {
    assert w in Wires(numbers);
    m :| m in numbers && Wire(m) == w;
  }

  lemma RecentOf(sys: System, ids: seq<nat>, m: nat, n: nat)
    requires InvWith(sys, ids) && n in sys.acks && Window(sys.sender.sent) < Window(n) + WINDOWS
    requires m in sys.sender.unacked && Wire(m) == Wire(n)
    ensures Recent(sys.sender) && m == n
  {
    hide Buffers, Held, Window, Wire;
    AckIsExact(sys.sender, n, m);
  }

  lemma ReleaseIs(s: Sending, sys: System, n: nat)
    requires Sixteen(sys.sender.windows) && s.windows == sys.sender.windows
    ensures ReliableSender.Acknowledge(s, Wire(n)).windows == Release(sys.sender, n).windows && ReliableSender.Acknowledge(s, Wire(n)).last == s.last
  {
  }

  lemma NothingToAck(s: Sending, waiting: seq<Outgoing>, sent: seq<Outgoing>, channel: nat, sys: System, ids: seq<nat>, n: nat)
    requires InvWith(sys, ids) && Refines(s, waiting, sent, channel, sys) && n in sys.acks
    requires !exists d :: d in sent + waiting && d.attempts > 0 && d.number == Wire(n) && d.channel == channel
    ensures Shaped(sys) && NextStep(sys, sys, AcknowledgeNothing(n))
  {
    InvShaped(sys, ids);
    hide InvWith, Unsent, Start, Window, Wire;
    forall m | m in sys.sender.unacked
      ensures Wire(m) != Wire(n)
    {
      if Wire(m) == Wire(n) {
        assert Wire(n) in Wires(sys.sender.unacked);
        assert Wire(n) in Numbers(sent, channel) + Numbers(waiting, channel);
        if Wire(n) in Numbers(sent, channel) {
          InNumbers(sent, channel, Wire(n));
        } else {
          InNumbers(waiting, channel, Wire(n));
        }
      }
    }
  }

  // ----------------------------------------------------------- timeouts and queueing

  lemma {:induction false} RetriesNumbers(sent: seq<Outgoing>, now: nat, channel: nat)
    requires AllSent(sent) && forall k :: 0 <= k < |sent| && sent[k].channel == channel ==> sent[k].hasPacket
    ensures Numbers(Fresh(sent, now), channel) + Numbers(Retries(sent, now, true), channel) == Numbers(sent, channel)
    ensures Unsent(Retries(sent, now, true), channel) == []
  {
    if sent != [] {
      var n := |sent| - 1;
      var rest := sent[..n];
      assert forall k :: 0 <= k < n ==> rest[k] == sent[k];
      RetriesNumbers(rest, now, channel);
      RetriesOneMore(sent, now, channel);
    }
  }

  lemma RetriesOneMore(sent: seq<Outgoing>, now: nat, channel: nat)
    requires sent != [] && sent[|sent| - 1].attempts > 0 && (sent[|sent| - 1].channel == channel ==> sent[|sent| - 1].hasPacket)
    requires var rest := sent[..|sent| - 1];
      && Numbers(Fresh(rest, now), channel) + Numbers(Retries(rest, now, true), channel) == Numbers(rest, channel)
      && Unsent(Retries(rest, now, true), channel) == []
    ensures Numbers(Fresh(sent, now), channel) + Numbers(Retries(sent, now, true), channel) == Numbers(sent, channel)
    ensures Unsent(Retries(sent, now, true), channel) == []
  {
    var n := |sent| - 1;
    var rest, last := sent[..n], sent[n];
    var again := last.(timeout := last.timeout * 2);
    hide Expired, Unsent, NumberOf, Fresh, Retries, Numbers;
    OneSentAgain(last, again, channel);
    NothingMore(Numbers(rest, channel));
    OneNumber(last, channel);
    OneNumber(again, channel);
    FreshStep(sent, n, now);
    assert sent[..n + 1] == sent && sent == rest + [last];
    var kept, retries := Fresh(rest, now), Retries(rest, now, true);
    NumbersConcat(rest, [last], channel);
    BagsOneMore(Numbers(kept, channel), Numbers(retries, channel), NumberOf(last, channel));
    if !Expired(last, now) {
      NumbersConcat(kept, [last], channel);
      assert Retries(sent, now, true) == retries + [] == retries;
    } else if last.hasPacket {
      NumbersConcat(retries, [again], channel);
      UnsentConcat(retries, [again], channel);
      assert Fresh(sent, now) == kept + [] == kept;
    } else {
      assert Fresh(sent, now) == kept + [] == kept && Retries(sent, now, true) == retries + [] == retries;
    }
  }

  lemma OneSentAgain(last: Outgoing, c: Outgoing, channel: nat)
    requires c.attempts > 0 && c == last.(timeout := c.timeout) && (c.channel == channel ==> c.hasPacket)
    ensures Unsent([c], channel) == [] && NumberOf(c, channel) == NumberOf(last, channel)
    ensures !c.hasPacket ==> NumberOf(last, channel) == multiset{}
  {
    assert [c][..0] == [];
  }

  lemma BagsOneMore(a: multiset<nat>, b: multiset<nat>, x: multiset<nat>)
    ensures a + (b + x) == (a + b) + x && (a + x) + b == (a + b) + x
  {
  }

  lemma NothingMore(a: multiset<nat>)
    ensures a + multiset{} == a && multiset{} + a == a
  {
  }

  /** What CheckTimeouts does leaves the system as it is. */
  lemma TimeoutRefines(s: Sending, waiting: seq<Outgoing>, sent: seq<Outgoing>, now: nat, channel: nat, sys: System)
    requires Refines(s, waiting, sent, channel, sys)
    requires AllSent(sent) && forall k :: 0 <= k < |sent| && sent[k].channel == channel ==> sent[k].hasPacket
    ensures Refines(s, Retries(sent, now, true) + waiting, Fresh(sent, now), channel, sys)
  {
    RetriesNumbers(sent, now, channel);
    NumbersConcat(Retries(sent, now, true), waiting, channel);
    UnsentConcat(Retries(sent, now, true), waiting, channel);
    assert [] + Unsent(waiting, channel) == Unsent(waiting, channel);
    hide Numbers, Unsent, Fresh, Retries, Wires, Start;
  }

  lemma {:induction false} NewCommands(commands: seq<Outgoing>, to: nat, channel: nat)
    requires forall k :: 0 <= k < |commands| ==> commands[k].channel == to && commands[k].attempts == 0
    ensures Numbers(commands, channel) == multiset{} && Unsent(commands, channel) == if to == channel then commands else []
  {
    if commands != [] {
      var n := |commands| - 1;
      assert forall k :: 0 <= k < n ==> commands[..n][k] == commands[k];
      NewCommands(commands[..n], to, channel);
      assert commands[..n] + [commands[n]] == commands;
    }
  }

  /** What Send appends for a message is the system's Enqueue; a message for another channel changes nothing. */
  lemma QueueRefines(s: Sending, s': Sending, waiting: seq<Outgoing>, sent: seq<Outgoing>, commands: seq<Outgoing>, channel: nat,
                     to: nat, number: nat, m: Message, sys: System, ids: seq<nat>) returns (sys': System)
    requires InvWith(sys, ids) && Refines(s, waiting, sent, channel, sys) && s' == s.(number := s'.number)
    requires Sendable(m) && Carries(commands, to, number, Spans(m))
    ensures Refines(s', waiting + commands, sent, channel, sys')
    ensures if to == channel then Shaped(sys) && NextStep(sys, sys', Enqueue(m)) else sys' == sys
  {
    hide InvWith, Numbers, Unsent, Wires, Start, Carries, Spans, Shaped;
    InvShaped(sys, ids);
    sys' := if to == channel then sys.(queue := sys.queue + [m]) else sys;
    CommandsAdded(waiting, commands, channel, to, number, m);
    if to == channel {
      LongerQueue(sys.queue, m);
      EnqueueStep(sys, m);
    }
  }

  lemma EnqueueStep(sys: System, m: Message)
    requires Shaped(sys) && Sendable(m)
    ensures NextStep(sys, sys.(queue := sys.queue + [m]), Enqueue(m))
  {
  }

  lemma CommandsAdded(waiting: seq<Outgoing>, commands: seq<Outgoing>, channel: nat, to: nat, number: nat, m: Message)
    requires 0 < m.room && Carries(commands, to, number, Spans(m))
    ensures Numbers(waiting + commands, channel) == Numbers(waiting, channel)
    ensures |Unsent(waiting + commands, channel)| == |Unsent(waiting, channel)| + if to == channel then |Spans(m)| else 0
  {
    hide Numbers, Unsent, Spans;
    NewCommands(commands, to, channel);
    NumbersConcat(waiting, commands, channel);
    UnsentConcat(waiting, commands, channel);
    NothingMore(Numbers(waiting, channel));
  }

  lemma LongerQueue(q: seq<Message>, m: Message)
    requires AllSendable(q) && Sendable(m)
    ensures AllSendable(q + [m]) && Start(q + [m], |q + [m]|) == Start(q, |q|) + |Spans(m)|
  {
    hide Cut;
    StartOfMore(q, m, |q|);
    assert (q + [m])[|q|] == m;
  }
}
