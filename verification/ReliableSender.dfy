/** The sending side of ENet's reliable commands: numbering, the window gate, retransmission and
    acknowledgement, with the counters that go with them. */
module ReliableSender {
  import opened SequenceWindows
  import opened Fragments

  // ----------------------------------------------------------------- windows

  /** A channel's reliableWindows and the bits of its usedReliableWindows. */
  datatype Windows = Windows(counts: seq<nat>, used: seq<bool>)

  predicate Sixteen(ws: Windows) {
    |ws.counts| == |ws.used| == WINDOWS
  }

  function NoWindows(): Windows {
    Windows(seq(WINDOWS, _ => 0), seq(WINDOWS, _ => false))
  }

  /** Window v is one of the ten from window w on, counted around. */
  predicate InSpan(v: nat, w: nat)
    requires v < WINDOWS && w < WINDOWS
  {
    (v + WINDOWS - w) % WINDOWS < FREE_WINDOWS + 2
  }

  /** The test before the first command of window w is sent. */
  predicate Blocked(ws: Windows, w: nat)
    requires Sixteen(ws) && w < WINDOWS
  {
    || ws.counts[(w + WINDOWS - 1) % WINDOWS] >= WINDOW_SIZE
    || exists v :: 0 <= v < WINDOWS && ws.used[v] && InSpan(v, w)
  }

  /** The mask that the test applies to usedReliableWindows. */
  function WindowMask(w: bv6): bv32
    requires w < 16
  {
    (0x3FF << w) | (0x3FF >> (16 - w))
  }

  /** Its bits are the windows that InSpan names, with the same arithmetic on words. */
  lemma MaskIsSpan(w: bv6, v: bv6)
    requires w < 16 && v < 16
    ensures (WindowMask(w) >> v) & 1 == 1 <==> (v + 16 - w) % 16 < 10
  {
  }

  /** usedReliableWindows as a word. */
  function Bit(used: bool, v: bv6): bv32
    requires v < 16
  {
    if used then 1 << v else 0
  }

  function UsedWord(used: seq<bool>): bv32
    requires |used| == WINDOWS
  {
    Bit(used[0], 0) | Bit(used[1], 1) | Bit(used[2], 2) | Bit(used[3], 3)
    | Bit(used[4], 4) | Bit(used[5], 5) | Bit(used[6], 6) | Bit(used[7], 7)
    | Bit(used[8], 8) | Bit(used[9], 9) | Bit(used[10], 10) | Bit(used[11], 11)
    | Bit(used[12], 12) | Bit(used[13], 13) | Bit(used[14], 14) | Bit(used[15], 15)
  }

  lemma BitOutside(used: bool, v: nat, w: nat)
    requires v < WINDOWS && w < WINDOWS && !(used && InSpan(v, w))
    ensures Bit(used, v as bv6) & WindowMask(w as bv6) == 0
  {
    MaskIsSpan(w as bv6, v as bv6);
  }

  lemma NoBitInside(used: seq<bool>, w: nat)
    requires |used| == WINDOWS && w < WINDOWS && forall v :: 0 <= v < WINDOWS ==> !(used[v] && InSpan(v, w))
    ensures UsedWord(used) & WindowMask(w as bv6) == 0
  {
    forall v | 0 <= v < WINDOWS
      ensures Bit(used[v], v as bv6) & WindowMask(w as bv6) == 0
    {
      BitOutside(used[v], v, w);
    }
    hide Bit, WindowMask, InSpan;
    assert UsedWord(used) & WindowMask(w as bv6) == 0;
  }

  lemma OneBitInside(used: seq<bool>, v: nat, w: nat)
    requires |used| == WINDOWS && w < WINDOWS && v < WINDOWS && used[v] && InSpan(v, w)
    ensures UsedWord(used) & WindowMask(w as bv6) != 0
  {
  }

  lemma MaskTest(used: seq<bool>, w: nat)
    requires |used| == WINDOWS && w < WINDOWS
    ensures UsedWord(used) & WindowMask(w as bv6) != 0 <==> exists v :: 0 <= v < WINDOWS && used[v] && InSpan(v, w)
  {
    if exists v :: 0 <= v < WINDOWS && used[v] && InSpan(v, w) {
      var v :| 0 <= v < WINDOWS && used[v] && InSpan(v, w);
      OneBitInside(used, v, w);
    } else {
      NoBitInside(used, w);
    }
  }

  /** The gate as the source computes it: one counter, and one mask on the word of used windows. */
  lemma BlockedOnWords(ws: Windows, w: nat)
    requires Sixteen(ws) && w < WINDOWS
    ensures Blocked(ws, w) <==>
            ws.counts[(w + WINDOWS - 1) % WINDOWS] >= WINDOW_SIZE || UsedWord(ws.used) & WindowMask(w as bv6) != 0
  {
    MaskTest(ws.used, w);
    hide UsedWord, WindowMask, InSpan;
  }

  /** The counters after a command of window w is sent for the first time. */
  function CountUp(ws: Windows, w: nat): Windows
    requires Sixteen(ws) && w < WINDOWS
  {
    Windows(ws.counts[w := ws.counts[w] + 1], ws.used[w := true])
  }

  /** The counters after a command of window w is acknowledged. */
  function CountDown(ws: Windows, w: nat): Windows
    requires Sixteen(ws) && w < WINDOWS
  {
    if ws.counts[w] == 0 then ws
    else Windows(ws.counts[w := ws.counts[w] - 1], ws.used[w := ws.used[w] && ws.counts[w] > 1])
  }

  // ---------------------------------------------------------------- commands

  /** A command of channel `channel`, or of the peer itself if the channel is 0xFF. */
  datatype Outgoing = Outgoing(number: nat, channel: nat, hasPacket: bool, offset: nat, length: nat, size: nat,
                               queueTime: nat, attempts: nat, sentTime: nat, timeout: nat)

  const NO_CHANNEL := 0xFF

  /** What identifies a command through its retransmissions. */
  datatype Id = Id(number: nat, channel: nat, offset: nat, length: nat)

  function IdOf(c: Outgoing): Id {
    Id(c.number, c.channel, c.offset, c.length)
  }

  function Ids(list: seq<Outgoing>): multiset<Id> {
    if list == [] then multiset{} else Ids(list[..|list| - 1]) + multiset{IdOf(list[|list| - 1])}
  }

  predicate Counts(c: Outgoing, channel: nat, w: nat) {
    c.channel == channel && c.attempts > 0 && c.number / WINDOW_SIZE == w
  }

  /** How many commands of a channel's window were sent. */
  function CountIn(list: seq<Outgoing>, channel: nat, w: nat): nat {
    if list == [] then 0
    else CountIn(list[..|list| - 1], channel, w) + if Counts(list[|list| - 1], channel, w) then 1 else 0
  }

  function TotalLength(list: seq<Outgoing>): nat {
    if list == [] then 0 else TotalLength(list[..|list| - 1]) + list[|list| - 1].length
  }

  /** The commands of a channel that were not sent yet. */
  function Unsent(list: seq<Outgoing>, channel: nat): seq<Outgoing> {
    if list == [] then []
    else
      var last := list[|list| - 1];
      Unsent(list[..|list| - 1], channel) + if last.channel == channel && last.attempts == 0 then [last] else []
  }

  lemma {:induction false} IdsConcat(a: seq<Outgoing>, b: seq<Outgoing>)
    ensures Ids(a + b) == Ids(a) + Ids(b)
  {
    hide IdOf, Ids;
    if b == [] {
      IdsNone(b);
      assert a + b == a;
    } else {
      var c, x := b[..|b| - 1], multiset{IdOf(b[|b| - 1])};
      IdsConcat(a, c);
      IdsStep(b);
      IdsStep(a + b);
      assert (a + b)[..|a + b| - 1] == a + c && (a + b)[|a + b| - 1] == b[|b| - 1];
      MultisetAssociative(Ids(a), Ids(c), x);
    }
  }

  lemma IdsNone(list: seq<Outgoing>)
    requires list == []
    ensures Ids(list) == multiset{} && forall ids: multiset<Id> :: ids + Ids(list) == ids
  {
  }

  lemma IdsStep(list: seq<Outgoing>)
    requires list != []
    ensures Ids(list) == Ids(list[..|list| - 1]) + multiset{IdOf(list[|list| - 1])}
  {
  }

  /** One id more in any one of three lists. */
  lemma OneMore(s: multiset<Id>, o: multiset<Id>, r: multiset<Id>, x: multiset<Id>)
    ensures (s + x) + o + r == (s + o + r) + x
    ensures s + (o + x) + r == (s + o + r) + x && s + (x + o) + r == (s + o + r) + x
    ensures s + o + (r + x) == (s + o + r) + x && s + o + (x + r) == (s + o + r) + x
  {
  }

  lemma MultisetAssociative(a: multiset<Id>, b: multiset<Id>, c: multiset<Id>)
    ensures (a + b) + c == a + (b + c)
  {
  }

  lemma {:induction false} CountConcat(a: seq<Outgoing>, b: seq<Outgoing>, channel: nat, w: nat)
    ensures CountIn(a + b, channel, w) == CountIn(a, channel, w) + CountIn(b, channel, w)
  {
    if b == [] {
      assert a + b == a;
    } else {
      CountConcat(a, b[..|b| - 1], channel, w);
      assert (a + b)[..|a + b| - 1] == a + b[..|b| - 1];
    }
  }

  lemma {:induction false} LengthConcat(a: seq<Outgoing>, b: seq<Outgoing>)
    ensures TotalLength(a + b) == TotalLength(a) + TotalLength(b)
  {
    if b == [] {
      assert a + b == a;
    } else {
      LengthConcat(a, b[..|b| - 1]);
      assert (a + b)[..|a + b| - 1] == a + b[..|b| - 1];
    }
  }

  lemma {:induction false} UnsentConcat(a: seq<Outgoing>, b: seq<Outgoing>, channel: nat)
    ensures Unsent(a + b, channel) == Unsent(a, channel) + Unsent(b, channel)
  {
    if b == [] {
      assert a + b == a;
    } else {
      UnsentConcat(a, b[..|b| - 1], channel);
      assert (a + b)[..|a + b| - 1] == a + b[..|b| - 1];
    }
  }

  // ------------------------------------------------------------------ channel

  /** The sending half of a channel: the last number given out, the last number sent, and the windows. */
  datatype Sending = Sending(number: nat, last: nat, windows: Windows)

  /** The counters of a channel agree with the commands under way; the unsent ones are numbered on
      from the last one sent, and those under way are in the newest seven windows. */
  predicate Booked(s: Sending, channel: nat, sent: seq<Outgoing>, waiting: seq<Outgoing>) {
    && Sixteen(s.windows) && s.number < NUMBERS && s.last < NUMBERS
    && (forall w :: 0 <= w < WINDOWS ==> WindowBooked(s, w, CountIn(sent, channel, w) + CountIn(waiting, channel, w)))
    && var unsent := Unsent(waiting, channel);
       && s.number == (s.last + |unsent|) % NUMBERS
       && forall k :: 0 <= k < |unsent| ==> unsent[k].number == (s.last + 1 + k) % NUMBERS
  }

  /** One window's counter: it counts `n` commands, its bit tells whether there are any, it cannot
      overflow, and only the newest seven windows have any. */
  predicate WindowBooked(s: Sending, w: nat, n: nat)
    requires Sixteen(s.windows) && w < WINDOWS
  {
    && s.windows.counts[w] == n && s.windows.used[w] == (n > 0)
    && n <= (if w == s.last / WINDOW_SIZE then s.last % WINDOW_SIZE + 1 else WINDOW_SIZE)
    && (n > 0 ==> (s.last / WINDOW_SIZE + WINDOWS - w) % WINDOWS <= 6)
  }

  /** Sending the next command, if the gate lets it, keeps the books. */
  function SendOne(s: Sending, number: nat): Sending
    requires Sixteen(s.windows) && number < NUMBERS
  {
    s.(last := number, windows := CountUp(s.windows, number / WINDOW_SIZE))
  }

  lemma SendKeepsWindow(s: Sending, number: nat, w: nat, n: nat)
    requires Sixteen(s.windows) && s.last < NUMBERS && w < WINDOWS && number == (s.last + 1) % NUMBERS
    requires WindowBooked(s, w, n)
    requires number % WINDOW_SIZE == 0 ==> !Blocked(s.windows, number / WINDOW_SIZE)
    ensures WindowBooked(SendOne(s, number), w, n + if number / WINDOW_SIZE == w then 1 else 0)
  {
    NumberAfter(s.last, number);
    if number % WINDOW_SIZE == 0 {
      if n > 0 {
        assert s.windows.used[w] && !InSpan(w, number / WINDOW_SIZE);
        StaysNear(s.last / WINDOW_SIZE, number / WINDOW_SIZE, w);
      }
      SameDistance(number / WINDOW_SIZE);
    }
    hide Blocked;
  }

  lemma StaysNear(x: nat, y: nat, w: nat)
    requires x < WINDOWS && w < WINDOWS && y == (x + 1) % WINDOWS && (x + WINDOWS - w) % WINDOWS <= 6 && !InSpan(w, y)
    ensures w != y && (y + WINDOWS - w) % WINDOWS <= 6
  {
  }

  lemma SameDistance(w: nat)
    ensures (w + WINDOWS - w) % WINDOWS == 0
  {
  }

  lemma NumberAfter(last: nat, number: nat)
    requires last < NUMBERS && number == (last + 1) % NUMBERS
    ensures if number % WINDOW_SIZE == 0 then number / WINDOW_SIZE == (last / WINDOW_SIZE + 1) % WINDOWS
            else number / WINDOW_SIZE == last / WINDOW_SIZE && number % WINDOW_SIZE == last % WINDOW_SIZE + 1
  {
  }

  // --------------------------------------------------------------------- peer

  /** Commands timed out or not yet sent: those sent before come first. */
  predicate RetriesFirst(list: seq<Outgoing>) {
    forall a, b :: 0 <= a < b < |list| && list[b].attempts > 0 ==> list[a].attempts > 0
  }

  predicate AllSent(list: seq<Outgoing>) {
    forall k :: 0 <= k < |list| ==> list[k].attempts > 0
  }

  /** A command with a packet belongs to one of the channels, any other to none. */
  predicate Proper(c: Outgoing, channelCount: nat) {
    c.number < NUMBERS && if c.hasPacket then c.channel < channelCount else c.channel == NO_CHANNEL && c.length == 0
  }

  predicate AllProper(list: seq<Outgoing>, channelCount: nat) {
    forall k :: 0 <= k < |list| ==> Proper(list[k], channelCount)
  }

  predicate Shape(channelCount: nat, outgoing: seq<Outgoing>, reliable: seq<Outgoing>, sent: seq<Outgoing>) {
    && AllProper(outgoing, channelCount) && AllProper(reliable, channelCount) && AllProper(sent, channelCount)
    && (forall k :: 0 <= k < |outgoing| ==> !outgoing[k].hasPacket)
    && (forall k :: 0 <= k < |reliable| ==> reliable[k].hasPacket)
    && AllSent(sent) && RetriesFirst(outgoing) && RetriesFirst(reliable)
  }

  predicate AllBooked(channels: seq<Sending>, sent: seq<Outgoing>, waiting: seq<Outgoing>) {
    forall i :: 0 <= i < |channels| ==> Booked(channels[i], i, sent, waiting)
  }

  const SEND_RELIABLE_SIZE := 6
  const SEND_FRAGMENT_SIZE := 24
  /** The part of a packet that a command carries. */
  datatype Span = Span(offset: nat, length: nat)

  function Pieces(commands: seq<Outgoing>): seq<Span> {
    seq(|commands|, i requires 0 <= i < |commands| => Span(commands[i].offset, commands[i].length))
  }

  function SpansOf(fragments: seq<Fragment>): seq<Span> {
    seq(|fragments|, i requires 0 <= i < |fragments| => Span(fragments[i].offset, |fragments[i].bytes|))
  }

  function Spans(m: Message): seq<Span>
    requires 0 < m.room
  {
    if Fits(m) then [Span(0, |m.data|)] else SpansOf(Cut(m))
  }

  predicate Unnumbered(commands: seq<Outgoing>, channel: nat) {
    forall k :: 0 <= k < |commands| ==>
      commands[k].number == 0 && commands[k].channel == channel && commands[k].hasPacket && commands[k].attempts == 0
  }

  /** The commands of a packet, numbered on from `number`. */
  predicate Carries(commands: seq<Outgoing>, channel: nat, number: nat, spans: seq<Span>) {
    && |commands| == |spans|
    && forall k :: 0 <= k < |commands| ==>
         && commands[k].channel == channel && commands[k].hasPacket && commands[k].attempts == 0
         && commands[k].number == (number + 1 + k) % NUMBERS
         && Span(commands[k].offset, commands[k].length) == spans[k]
  }

  lemma NoPieces()
    ensures Pieces([]) == []
  {
  }

  lemma PiecesStep(commands: seq<Outgoing>, c: Outgoing)
    ensures Pieces(commands + [c]) == Pieces(commands) + [Span(c.offset, c.length)]
  {
  }

  lemma CutEnds(m: Message)
    requires 0 < m.room
    ensures SpansOf(CutFrom(m.data, m.room, |m.data|)) == []
  {
  }

  lemma CutStep(m: Message, offset: nat)
    requires 0 < m.room && offset < |m.data|
    ensures var length := Min(m.room, |m.data| - offset);
            SpansOf(CutFrom(m.data, m.room, offset)) == [Span(offset, length)] + SpansOf(CutFrom(m.data, m.room, offset + length))
  {
    var length := Min(m.room, |m.data| - offset);
    assert CutFrom(m.data, m.room, offset)[1..] == CutFrom(m.data, m.room, offset + length);
    SpansFirst(CutFrom(m.data, m.room, offset));
    hide SpansOf;
  }

  lemma SpansFirst(fragments: seq<Fragment>)
    requires fragments != []
    ensures SpansOf(fragments) == [Span(fragments[0].offset, |fragments[0].bytes|)] + SpansOf(fragments[1..])
  {
  }

  function Deadline(c: Outgoing): nat {
    c.sentTime + c.timeout
  }

  /** ENET_TIME_DIFFERENCE, for times less than a day apart. */
  function TimeDifference(a: nat, b: nat): nat {
    if a < b then b - a else a - b
  }

  function Pow2(n: nat): nat {
    if n == 0 then 1 else 2 * Pow2(n - 1)
  }

  predicate TooLong(attempts: nat, waited: nat, maximum: nat, minimum: nat, limit: nat)
    requires attempts > 0
  {
    waited >= maximum || (Pow2(attempts - 1) >= limit && waited >= minimum)
  }

  predicate Expired(c: Outgoing, now: nat) {
    TimeDifference(now, c.sentTime) >= c.timeout
  }

  /** earliestTimeout after the commands of the list were looked at: expired ones set it if it is 0 or later
      than they were sent. */
  function Earliest(list: seq<Outgoing>, now: nat, before: nat): nat {
    if list == [] then before
    else
      var e, last := Earliest(list[..|list| - 1], now, before), list[|list| - 1];
      if Expired(last, now) && (e == 0 || last.sentTime < e) then last.sentTime else e
  }

  /** Unless a command was sent at time 0 that is the least of what it was, if it was not 0, and the times at
      which the expired commands were sent. */
  lemma {:induction false} EarliestIsLeast(list: seq<Outgoing>, now: nat, before: nat)
    requires forall k :: 0 <= k < |list| && Expired(list[k], now) ==> list[k].sentTime > 0
    ensures var e := Earliest(list, now, before);
            && (0 < before ==> 0 < e <= before)
            && (forall k :: 0 <= k < |list| && Expired(list[k], now) ==> 0 < e <= list[k].sentTime)
            && (e == before || exists k :: 0 <= k < |list| && Expired(list[k], now) && e == list[k].sentTime)
  {
    hide Expired;
    if list != [] {
      var rest := list[..|list| - 1];
      EarliestIsLeast(rest, now, before);
      var e := Earliest(rest, now, before);
      forall k | 0 <= k < |rest|
        ensures rest[k] == list[k]
      {
      }
      if e != before {
        var k :| 0 <= k < |rest| && Expired(rest[k], now) && e == rest[k].sentTime;
        assert Expired(list[k], now) && e == list[k].sentTime;
      }
    }
  }

  /** The command k of the list has been under way too long: it has expired, and since the earliest such
      command was sent at least `maximum` has passed, or `minimum` with this one sent often enough. */
  predicate GivesUp(list: seq<Outgoing>, k: nat, now: nat, before: nat, maximum: nat, minimum: nat, limit: nat)
    requires k < |list| && list[k].attempts > 0
  {
    var c, e := list[k], Earliest(list[..k + 1], now, before);
    var waited := if now < e then e - now else now - e;
    && (if now < c.sentTime then c.sentTime - now else now - c.sentTime) >= c.timeout
    && e != 0 && (waited >= maximum || (Pow2(c.attempts - 1) >= limit && waited >= minimum))
  }

  /** The commands that stay among the sent ones. */
  function Fresh(list: seq<Outgoing>, now: nat): seq<Outgoing> {
    if list == [] then []
    else
      var last := list[|list| - 1];
      Fresh(list[..|list| - 1], now) + if Expired(last, now) then [] else [last]
  }

  /** The commands to send again, with or without a packet, their timeouts doubled. */
  function Retries(list: seq<Outgoing>, now: nat, hasPacket: bool): seq<Outgoing> {
    if list == [] then []
    else
      var last := list[|list| - 1];
      Retries(list[..|list| - 1], now, hasPacket)
      + if Expired(last, now) && last.hasPacket == hasPacket then [last.(timeout := last.timeout * 2)] else []
  }

  /** Every command goes to one of the three lists, in order: it stays if less than its timeout has passed
      since it was sent, and otherwise comes back with twice the timeout. */
  lemma {:induction false} SortedOut(list: seq<Outgoing>, now: nat, j: nat)
    requires j < |list|
    ensures |Fresh(list, now)| + |Retries(list, now, true)| + |Retries(list, now, false)| == |list|
    ensures var c := list[j];
            var p, x := c.hasPacket, list[..j];
            if (if now < c.sentTime then c.sentTime - now else now - c.sentTime) < c.timeout
            then |Fresh(x, now)| < |Fresh(list, now)| && Fresh(list, now)[|Fresh(x, now)|] == c
            else |Retries(x, now, p)| < |Retries(list, now, p)| && Retries(list, now, p)[|Retries(x, now, p)|] == c.(timeout := 2 * c.timeout)
  {
    var rest := list[..|list| - 1];
    if j < |rest| {
      SortedOut(rest, now, j);
      assert rest[..j] == list[..j];
    } else {
      if rest != [] {
        SortedOut(rest, now, 0);
      }
      assert list[..j] == rest;
    }
  }

  lemma NoneEarlier(now: nat, before: nat)
    ensures Earliest([], now, before) == before
  {
  }

  lemma EarliestStep(list: seq<Outgoing>, k: nat, now: nat, before: nat)
    requires k < |list|
    ensures var e := Earliest(list[..k], now, before);
            Earliest(list[..k + 1], now, before) == if Expired(list[k], now) && (e == 0 || list[k].sentTime < e) then list[k].sentTime else e
  {
    assert list[..k + 1][..k] == list[..k];
  }

  lemma GivesUpIs(list: seq<Outgoing>, k: nat, now: nat, before: nat, maximum: nat, minimum: nat, limit: nat)
    requires k < |list| && list[k].attempts > 0
    ensures var e := Earliest(list[..k + 1], now, before);
            GivesUp(list, k, now, before, maximum, minimum, limit) <==>
              Expired(list[k], now) && e != 0 && TooLong(list[k].attempts, TimeDifference(now, e), maximum, minimum, limit)
  {
    hide Earliest, Pow2;
  }

  /** What a list of commands takes in a datagram. */
  function TotalSize(list: seq<Outgoing>): nat {
    if list == [] then 0 else TotalSize(list[..|list| - 1]) + list[|list| - 1].size + list[|list| - 1].length
  }

  lemma NothingSent()
    ensures TotalSize([]) == 0
  {
  }

  // ---------------------------------------------------------------- batches

  /** How many of the commands carry a packet. */
  function Packets(list: seq<Outgoing>): (n: nat)
    ensures n <= |list|
  {
    if list == [] then 0 else Packets(list[..|list| - 1]) + if list[|list| - 1].hasPacket then 1 else 0
  }

  /** Of the two lists' next commands the one with a packet was queued first. */
  predicate PacketFirst(outgoing: seq<Outgoing>, a: nat, reliable: seq<Outgoing>, b: nat) {
    b < |reliable| && (a < |outgoing| ==> reliable[b].queueTime < outgoing[a].queueTime)
  }

  /** The command c was sent as d. */
  predicate SentAs(c: Outgoing, d: Outgoing, now: nat, firstTimeout: nat) {
    d == c.(attempts := c.attempts + 1, sentTime := now, timeout := if c.timeout == 0 then firstTimeout else c.timeout)
  }

  /** The command d of a batch with `total` packets, sent after a commands without and b with a packet, is the
      next one of its list. It is the one that was queued first, unless the list with packets was held back
      from there on. */
  predicate NextSent(d: Outgoing, a: int, b: nat, total: nat, outgoing: seq<Outgoing>, reliable: seq<Outgoing>, now: nat, firstTimeout: nat, held: bool) {
    0 <= a &&
    if d.hasPacket then PacketFirst(outgoing, a, reliable, b) && SentAs(reliable[b], d, now, firstTimeout)
    else a < |outgoing| && SentAs(outgoing[a], d, now, firstTimeout) && (PacketFirst(outgoing, a, reliable, b) ==> held && b == total)
  }

  predicate InTurn(batch: seq<Outgoing>, j: nat, outgoing: seq<Outgoing>, reliable: seq<Outgoing>, now: nat, firstTimeout: nat, held: bool)
    requires j < |batch|
  {
    var b := Packets(batch[..j]);
    NextSent(batch[j], j - b, b, Packets(batch), outgoing, reliable, now, firstTimeout, held)
  }

  /** The batch is the merge of what was sent of the two lists. */
  predicate Merged(batch: seq<Outgoing>, outgoing: seq<Outgoing>, reliable: seq<Outgoing>, now: nat, firstTimeout: nat, held: bool) {
    forall j :: 0 <= j < |batch| ==> InTurn(batch, j, outgoing, reliable, now, firstTimeout, held)
  }

  /** The first packet that was not sent had its turn while the batch was filled, or when it was done. */
  ghost predicate HadItsTurn(batch: seq<Outgoing>, outgoing: seq<Outgoing>, reliable: seq<Outgoing>) {
    exists j :: 0 <= j <= |batch| && Packets(batch[..j]) == Packets(batch) && PacketFirst(outgoing, j - Packets(batch[..j]), reliable, Packets(batch[..j]))
  }

  lemma {:induction false} PacketsUpTo(batch: seq<Outgoing>, j: nat)
    requires j <= |batch|
    ensures Packets(batch[..j]) <= Packets(batch)
    ensures j < |batch| && batch[j].hasPacket ==> Packets(batch[..j]) < Packets(batch)
  {
    if j < |batch| {
      var rest := batch[..|batch| - 1];
      if j < |rest| {
        PacketsUpTo(rest, j);
        assert rest[..j] == batch[..j];
      }
    } else {
      assert batch[..j] == batch;
    }
  }

  lemma PacketsMore(batch: seq<Outgoing>, d: Outgoing)
    ensures Packets(batch + [d]) == Packets(batch) + if d.hasPacket then 1 else 0
  {
    assert (batch + [d])[..|batch|] == batch;
  }

  /** One command more, the next of its list. */
  lemma MergedMore(batch: seq<Outgoing>, outgoing: seq<Outgoing>, reliable: seq<Outgoing>, now: nat, firstTimeout: nat, held: bool, d: Outgoing)
    requires Merged(batch, outgoing, reliable, now, firstTimeout, held) && (d.hasPacket ==> !held)
    requires NextSent(d, |batch| - Packets(batch), Packets(batch), Packets(batch), outgoing, reliable, now, firstTimeout, held)
    ensures Merged(batch + [d], outgoing, reliable, now, firstTimeout, held)
  {
    hide InTurn, NextSent;
    var more := batch + [d];
    forall j | 0 <= j < |more|
      ensures InTurn(more, j, outgoing, reliable, now, firstTimeout, held)
    {
      if j < |batch| {
        TurnStays(batch, outgoing, reliable, now, firstTimeout, held, d, j);
      } else {
        TurnOfNew(batch, outgoing, reliable, now, firstTimeout, held, d);
      }
    }
  }

  lemma TurnStays(batch: seq<Outgoing>, outgoing: seq<Outgoing>, reliable: seq<Outgoing>, now: nat, firstTimeout: nat, held: bool, d: Outgoing, j: nat)
    requires j < |batch| && InTurn(batch, j, outgoing, reliable, now, firstTimeout, held) && (d.hasPacket ==> !held)
    ensures InTurn(batch + [d], j, outgoing, reliable, now, firstTimeout, held)
  {
    hide NextSent, Packets;
    var more, b := batch + [d], Packets(batch[..j]);
    PacketsMore(batch, d);
    assert more[..j] == batch[..j] && more[j] == batch[j];
    MoreFollow(batch[j], j - b, b, Packets(batch), Packets(more), outgoing, reliable, now, firstTimeout, held);
  }

  lemma TurnOfNew(batch: seq<Outgoing>, outgoing: seq<Outgoing>, reliable: seq<Outgoing>, now: nat, firstTimeout: nat, held: bool, d: Outgoing)
    requires d.hasPacket ==> !held
    requires NextSent(d, |batch| - Packets(batch), Packets(batch), Packets(batch), outgoing, reliable, now, firstTimeout, held)
    ensures InTurn(batch + [d], |batch|, outgoing, reliable, now, firstTimeout, held)
  {
    hide NextSent, Packets;
    var more := batch + [d];
    PacketsMore(batch, d);
    assert more[..|batch|] == batch;
    MoreFollow(d, |batch| - Packets(batch), Packets(batch), Packets(batch), Packets(more), outgoing, reliable, now, firstTimeout, held);
  }

  lemma MoreFollow(d: Outgoing, a: int, b: nat, total: nat, more: nat, outgoing: seq<Outgoing>, reliable: seq<Outgoing>, now: nat, firstTimeout: nat, held: bool)
    requires NextSent(d, a, b, total, outgoing, reliable, now, firstTimeout, held) && (held ==> more == total)
    ensures NextSent(d, a, b, more, outgoing, reliable, now, firstTimeout, held)
  {
  }

  /** Before the list with packets is held back its front has had no turn. */
  lemma NoTurnYet(batch: seq<Outgoing>, outgoing: seq<Outgoing>, reliable: seq<Outgoing>, now: nat, firstTimeout: nat)
    requires Merged(batch, outgoing, reliable, now, firstTimeout, false)
    ensures HadItsTurn(batch, outgoing, reliable) <==> PacketFirst(outgoing, |batch| - Packets(batch), reliable, Packets(batch))
  {
    hide Packets, PacketFirst, SentAs;
    assert batch[..|batch|] == batch;
    forall j | 0 <= j < |batch| && Packets(batch[..j]) == Packets(batch)
      ensures !PacketFirst(outgoing, j - Packets(batch[..j]), reliable, Packets(batch[..j]))
    {
      PacketsUpTo(batch, j);
      assert j < |batch| ==> InTurn(batch, j, outgoing, reliable, now, firstTimeout, false);
    }
    if PacketFirst(outgoing, |batch| - Packets(batch), reliable, Packets(batch)) {
      TurnNow(batch, outgoing, reliable);
    }
  }

  /** A turn is not forgotten while commands without packets follow. */
  lemma TurnKept(batch: seq<Outgoing>, outgoing: seq<Outgoing>, reliable: seq<Outgoing>, d: Outgoing)
    requires HadItsTurn(batch, outgoing, reliable) && !d.hasPacket
    ensures HadItsTurn(batch + [d], outgoing, reliable)
  {
    var more := batch + [d];
    PacketsMore(batch, d);
    var j :| 0 <= j <= |batch| && Packets(batch[..j]) == Packets(batch) && PacketFirst(outgoing, j - Packets(batch[..j]), reliable, Packets(batch[..j]));
    assert more[..j] == batch[..j];
  }

  lemma BatchMore(batch: seq<Outgoing>, outgoing: seq<Outgoing>, reliable: seq<Outgoing>, now: nat, firstTimeout: nat, held: bool, d: Outgoing)
    requires Merged(batch, outgoing, reliable, now, firstTimeout, held) && (held ==> HadItsTurn(batch, outgoing, reliable))
    requires var b := Packets(batch);
             var a := |batch| - b;
             if d.hasPacket then !held && PacketFirst(outgoing, a, reliable, b) && SentAs(reliable[b], d, now, firstTimeout)
             else a < |outgoing| && SentAs(outgoing[a], d, now, firstTimeout) && (PacketFirst(outgoing, a, reliable, b) ==> held)
    ensures Merged(batch + [d], outgoing, reliable, now, firstTimeout, held)
    ensures Packets(batch + [d]) == Packets(batch) + if d.hasPacket then 1 else 0
    ensures held ==> HadItsTurn(batch + [d], outgoing, reliable)
  {
    hide Merged, HadItsTurn, Packets;
    PacketsMore(batch, d);
    MergedMore(batch, outgoing, reliable, now, firstTimeout, held, d);
    if held {
      TurnKept(batch, outgoing, reliable, d);
    }
  }

  lemma NothingMerged(outgoing: seq<Outgoing>, reliable: seq<Outgoing>, now: nat, firstTimeout: nat)
    ensures Packets([]) == 0 && Merged([], outgoing, reliable, now, firstTimeout, false)
  {
  }

  lemma MergedHeld(batch: seq<Outgoing>, outgoing: seq<Outgoing>, reliable: seq<Outgoing>, now: nat, firstTimeout: nat, held: bool)
    requires Merged(batch, outgoing, reliable, now, firstTimeout, false)
    ensures Merged(batch, outgoing, reliable, now, firstTimeout, held)
  {
    hide SentAs, PacketFirst, Packets;
    forall j | 0 <= j < |batch|
      ensures InTurn(batch, j, outgoing, reliable, now, firstTimeout, held)
    {
      assert InTurn(batch, j, outgoing, reliable, now, firstTimeout, false);
    }
  }

  lemma TurnIs(outgoing: seq<Outgoing>, a: nat, reliable: seq<Outgoing>, b: nat)
    requires a <= |outgoing| && b <= |reliable|
    ensures PacketFirst(outgoing, a, reliable, b) <==> PacketFirst(outgoing[a..], 0, reliable[b..], 0)
    ensures PacketFirst(outgoing, a, reliable, b) <==>
              reliable[b..] != [] && (outgoing[a..] == [] || reliable[b..][0].queueTime < outgoing[a..][0].queueTime)
  {
  }

  lemma SentIs(c: Outgoing, d: Outgoing, now: nat, firstTimeout: nat)
    requires d == c.(attempts := c.attempts + 1, sentTime := now, timeout := if c.timeout == 0 then firstTimeout else c.timeout)
    ensures SentAs(c, d, now, firstTimeout)
  {
  }

  /** The turn at the end of the batch so far. */
  lemma TurnNow(batch: seq<Outgoing>, outgoing: seq<Outgoing>, reliable: seq<Outgoing>)
    requires PacketFirst(outgoing, |batch| - Packets(batch), reliable, Packets(batch))
    ensures HadItsTurn(batch, outgoing, reliable)
  {
    assert batch[..|batch|] == batch;
  }

  /** What is left of a list when its first n commands were sent. */
  predicate LeftOf(rest: seq<Outgoing>, list: seq<Outgoing>, n: nat) {
    n <= |list| && rest == list[n..]
  }

  lemma OneMoreSent(sent: seq<Outgoing>, c: Outgoing)
    ensures TotalSize(sent + [c]) == TotalSize(sent) + c.size + c.length
  {
    assert (sent + [c])[..|sent|] == sent;
  }

  lemma ShapeHas(channelCount: nat, outgoing: seq<Outgoing>, reliable: seq<Outgoing>, sent: seq<Outgoing>)
    requires Shape(channelCount, outgoing, reliable, sent)
    ensures reliable != [] ==> reliable[0].channel < channelCount && reliable[0].number < NUMBERS && reliable[0].hasPacket
    ensures outgoing != [] ==> outgoing[0].length == 0 && !outgoing[0].hasPacket
  {
    assert reliable != [] ==> Proper(reliable[0], channelCount);
    assert outgoing != [] ==> Proper(outgoing[0], channelCount);
  }

  lemma BookedHas(channels: seq<Sending>, sent: seq<Outgoing>, waiting: seq<Outgoing>, i: nat)
    requires AllBooked(channels, sent, waiting) && i < |channels|
    ensures Sixteen(channels[i].windows)
  {
  }

  lemma ShapeBack(channelCount: nat, outgoing: seq<Outgoing>, reliable: seq<Outgoing>, sent: seq<Outgoing>, d: Outgoing)
    requires Shape(channelCount, outgoing, reliable, sent) && Proper(d, channelCount) && d.attempts == 0
    ensures if d.hasPacket then Shape(channelCount, outgoing, reliable + [d], sent) else Shape(channelCount, outgoing + [d], reliable, sent)
  {
  }

  lemma ShapeFront(channelCount: nat, outgoing: seq<Outgoing>, reliable: seq<Outgoing>, sent: seq<Outgoing>, withPacket: bool, c: Outgoing)
    requires Shape(channelCount, outgoing, reliable, sent)
    requires var list := if withPacket then reliable else outgoing;
             list != [] && IdOf(c) == IdOf(list[0]) && c.hasPacket == list[0].hasPacket && c.attempts > 0
    ensures c.hasPacket == withPacket && Proper(c, channelCount)
    ensures Shape(channelCount, if withPacket then outgoing else outgoing[1..], if withPacket then reliable[1..] else reliable, sent + [c])
  {
    var list := if withPacket then reliable else outgoing;
    assert Proper(list[0], channelCount);
  }

  /** An ENetPeer's reliable commands; unreliable ones are not kept here. `outgoing` holds the commands
      without a packet, which belong to no channel. */
  class Peer {
    var channels: seq<Sending>
    var number: nat
    var queued: nat
    var outgoing: seq<Outgoing>
    var outgoingReliable: seq<Outgoing>
    var sentReliable: seq<Outgoing>
    var inTransit: nat
    var nextTimeout: nat
    var earliestTimeout: nat

    ghost predicate Valid()
      reads this
    {
      && |channels| <= NO_CHANNEL && number < NUMBERS
      && Shape(|channels|, outgoing, outgoingReliable, sentReliable)
      && AllBooked(channels, sentReliable, outgoingReliable)
      && inTransit == TotalLength(sentReliable)
      && (sentReliable != [] ==> nextTimeout == Deadline(sentReliable[0]))
    }

    /** All reliable commands the peer holds. */
    ghost function Holds(): multiset<Id>
      reads this
    {
      Ids(sentReliable) + Ids(outgoing) + Ids(outgoingReliable)
    }

    constructor (channelCount: nat)
      requires channelCount <= NO_CHANNEL
      ensures Valid() && Holds() == multiset{} && |channels| == channelCount
    {
      channels := seq(channelCount, _ => Sending(0, 0, NoWindows()));
      number, queued, inTransit, nextTimeout, earliestTimeout := 0, 0, 0, 0, 0;
      outgoing, outgoingReliable, sentReliable := [], [], [];
    }

    /** enet_peer_setup_outgoing_command for a reliable command: it gets the next number and goes to the
        end of its list. */
    method Setup(c: Outgoing)
      requires Valid() && c.attempts == 0
      requires Proper(c.(number := 0), |channels|)
      modifies this
      ensures Valid() && sentReliable == old(sentReliable)
      ensures var n := if c.hasPacket then old(channels)[c.channel].number else old(number);
              var d := c.(number := (n + 1) % NUMBERS, queueTime := queued, sentTime := 0, timeout := 0);
              && queued == old(queued) + 1
              && Holds() == old(Holds()) + multiset{IdOf(d)}
              && if c.hasPacket then
                   && outgoingReliable == old(outgoingReliable) + [d] && outgoing == old(outgoing)
                   && channels == old(channels)[c.channel := old(channels)[c.channel].(number := d.number)]
                 else outgoing == old(outgoing) + [d] && outgoingReliable == old(outgoingReliable) && channels == old(channels)
    {
      hide Ids, TotalLength, Shape, AllBooked;
      queued := queued + 1;
      var d;
      if c.channel == NO_CHANNEL {
        number := (number + 1) % NUMBERS;
        d := c.(number := number, queueTime := queued, sentTime := 0, timeout := 0);
        IdsConcat(outgoing, [d]);
        ShapeBack(|channels|, outgoing, outgoingReliable, sentReliable, d);
        outgoing := outgoing + [d];
      } else {
        var channel := channels[c.channel];
        channel := channel.(number := (channel.number + 1) % NUMBERS);
        d := c.(number := channel.number, queueTime := queued, sentTime := 0, timeout := 0);
        IdsConcat(outgoingReliable, [d]);
        ShapeBack(|channels|, outgoing, outgoingReliable, sentReliable, d);
        BooksAfterQueueing(channels, sentReliable, outgoingReliable, d);
        channels := channels[c.channel := channel];
        outgoingReliable := outgoingReliable + [d];
      }
      OneId(d);
    }

    /** enet_peer_send for a reliable packet: one command, or one for each fragment, numbered on. */
    method Send(channel: nat, m: Message, maximum: nat) returns (ok: bool)
      requires Valid() && 0 < m.room
      modifies this
      ensures Valid() && sentReliable == old(sentReliable) && outgoing == old(outgoing)
      ensures ok <==> channel < |old(channels)| && |m.data| <= maximum && (Fits(m) || FragmentCount(m) <= MAXIMUM_FRAGMENT_COUNT)
      ensures !ok ==> outgoingReliable == old(outgoingReliable) && channels == old(channels)
      ensures ok ==>
                && |outgoingReliable| >= |old(outgoingReliable)| && old(outgoingReliable) == outgoingReliable[..|old(outgoingReliable)|]
                && Carries(outgoingReliable[|old(outgoingReliable)|..], channel, old(channels)[channel].number, Spans(m))
    {
      if channel >= |channels| || |m.data| > maximum {
        return false;
      }
      var commands: seq<Outgoing>;
      if |m.data| > m.room {
        var fragmentCount := (|m.data| + m.room - 1) / m.room;
        if fragmentCount > MAXIMUM_FRAGMENT_COUNT {
          return false;
        }
        commands := CutPacket(channel, m);
      } else {
        var c := Outgoing(0, channel, true, 0, |m.data|, SEND_RELIABLE_SIZE, 0, 0, 0, 0);
        commands := [c];
        assert Pieces(commands) == Spans(m);
      }
      QueueAll(commands, channel);
      return true;
    }

    /** The loop that cuts a packet; the length of the last fragment is what is left. */
    static method CutPacket(channel: nat, m: Message) returns (commands: seq<Outgoing>)
      requires 0 < m.room < |m.data|
      ensures Unnumbered(commands, channel) && Pieces(commands) == Spans(m)
    {
      hide CutFrom, Pieces, SpansOf;
      NoPieces();
      commands := [];
      var fragmentLength := m.room;
      var fragmentOffset := 0;
      while fragmentOffset < |m.data|
        invariant 0 < fragmentLength <= m.room && 0 <= fragmentOffset <= |m.data|
        invariant fragmentOffset < |m.data| ==> fragmentLength == m.room
        invariant Unnumbered(commands, channel)
        invariant Pieces(commands) + SpansOf(CutFrom(m.data, m.room, fragmentOffset)) == SpansOf(Cut(m))
        decreases |m.data| - fragmentOffset
      {
        CutStep(m, fragmentOffset);
        if |m.data| - fragmentOffset < fragmentLength {
          fragmentLength := |m.data| - fragmentOffset;
        }
        var c := Outgoing(0, channel, true, fragmentOffset, fragmentLength, SEND_FRAGMENT_SIZE, 0, 0, 0, 0);
        PiecesStep(commands, c);
        commands := commands + [c];
        fragmentOffset := fragmentOffset + fragmentLength;
      }
      CutEnds(m);
    }

    method QueueAll(commands: seq<Outgoing>, channel: nat)
      requires Valid() && channel < |channels| && Unnumbered(commands, channel)
      modifies this
      ensures Valid() && sentReliable == old(sentReliable) && outgoing == old(outgoing)
      ensures |outgoingReliable| == |old(outgoingReliable)| + |commands| && old(outgoingReliable) == outgoingReliable[..|old(outgoingReliable)|]
      ensures Carries(outgoingReliable[|old(outgoingReliable)|..], channel, old(channels)[channel].number, Pieces(commands))
    {
      hide Valid, Holds, Pieces, IdOf;
      var i := 0;
      NoPieces();
      ghost var size, n := |outgoingReliable|, channels[channel].number;
      while i < |commands|
        invariant Valid() && sentReliable == old(sentReliable) && outgoing == old(outgoing)
        invariant 0 <= i <= |commands| && |outgoingReliable| == size + i && outgoingReliable[..size] == old(outgoingReliable)
        invariant channel < |channels| && channels[channel].number == if i == 0 then n else (n + i) % NUMBERS
        invariant Carries(outgoingReliable[size..], channel, n, Pieces(commands[..i]))
      {
        ghost var before := outgoingReliable;
        assert Unnumbered(commands, channel);
        Setup(commands[i]);
        assert outgoingReliable[size..] == before[size..] + [outgoingReliable[size + i]];
        assert commands[..i + 1] == commands[..i] + [commands[i]];
        PiecesStep(commands[..i], commands[i]);
        SumWraps(n, i);
        i := i + 1;
      }
      assert commands[..i] == commands;
    }

    /** One command from the front of a list, put into the datagram and moved behind the sent ones. */
    method SendFront(withPacket: bool, now: nat, firstTimeout: nat) returns (c: Outgoing)
      requires Valid() && 0 < firstTimeout
      requires withPacket ==> outgoingReliable != [] && Open(outgoingReliable[0])
      requires !withPacket ==> outgoing != []
      modifies this
      ensures Valid() && Holds() == old(Holds())
      ensures var front := old(if withPacket then outgoingReliable[0] else outgoing[0]);
              && c == front.(attempts := front.attempts + 1, sentTime := now, timeout := if front.timeout == 0 then firstTimeout else front.timeout)
              && sentReliable == old(sentReliable) + [c]
              && outgoing == old(if withPacket then outgoing else outgoing[1..])
              && outgoingReliable == old(if withPacket then outgoingReliable[1..] else outgoingReliable)
              && inTransit == old(inTransit) + c.length
              && channels == if !withPacket || front.attempts > 0 then old(channels)
                             else old(channels)[c.channel := SendOne(old(channels)[c.channel], c.number)]
    {
      hide Ids, IdOf, TotalLength, Blocked, Shape, AllBooked, SendOne;
      var front := if withPacket then outgoingReliable[0] else outgoing[0];
      c := front.(attempts := front.attempts + 1, timeout := if front.timeout == 0 then firstTimeout else front.timeout, sentTime := now);
      SameId(front, c);
      ShapeFront(|channels|, outgoing, outgoingReliable, sentReliable, withPacket, c);
      SentIds(sentReliable, front, c);
      if withPacket {
        BooksAfterSend(channels, sentReliable, outgoingReliable, c);
        IdsFront(outgoingReliable);
        OneMore(Ids(sentReliable), Ids(outgoing), Ids(outgoingReliable[1..]), multiset{IdOf(front)});
        if front.attempts < 1 {
          channels := channels[c.channel := SendOne(channels[c.channel], c.number)];
        }
        outgoingReliable := outgoingReliable[1..];
      } else {
        BooksAfterControl(channels, sentReliable, outgoingReliable, c);
        IdsFront(outgoing);
        OneMore(Ids(sentReliable), Ids(outgoing[1..]), Ids(outgoingReliable), multiset{IdOf(front)});
        outgoing := outgoing[1..];
      }
      if sentReliable == [] {
        nextTimeout := now + c.timeout;
      }
      sentReliable := sentReliable + [c];
      inTransit := inTransit + c.length;
    }

    /** enet_protocol_check_outgoing_commands for reliable commands: the older of the two lists' fronts is
        sent as long as the gate, the transit limit and the datagram's space allow. It ends when nothing is
        left to send or the next command does not fit the datagram. */
    method CheckOutgoing(now: nat, firstTimeout: nat, transitLimit: nat, slots: nat, space: nat)
      returns (batch: seq<Outgoing>, windowWrap: bool)
      requires Valid() && 0 < firstTimeout
      modifies this
      ensures Valid() && |channels| == |old(channels)| && Holds() == old(Holds())
      ensures sentReliable == old(sentReliable) + batch
      ensures LeftOf(outgoingReliable, old(outgoingReliable), Packets(batch))
      ensures LeftOf(outgoing, old(outgoing), |batch| - Packets(batch))
      ensures Merged(batch, old(outgoing), old(outgoingReliable), now, firstTimeout, Held(transitLimit))
      ensures inTransit <= if old(inTransit) > transitLimit then old(inTransit) else transitLimit
      ensures |batch| <= slots && TotalSize(batch) <= space
      ensures |batch| >= slots || TotalSize(batch + NextUp(transitLimit)) > space || NextUp(transitLimit) == []
      ensures windowWrap <==> AtGate() && HadItsTurn(batch, old(outgoing), old(outgoingReliable))
    {
      hide Valid, Holds, Blocked, TotalSize, Packets, Merged, HadItsTurn, PacketFirst, SentAs;
      ghost var controls, packets := outgoing, outgoingReliable;
      ghost var a, b := 0, 0;
      batch, windowWrap := [], false;
      var left: nat := space;
      var stopped := false;
      NothingSent();
      NothingMerged(outgoing, outgoingReliable, now, firstTimeout);
      while true
        invariant Valid() && |channels| == |old(channels)| && Holds() == old(Holds())
        invariant sentReliable == old(sentReliable) + batch
        invariant b == Packets(batch) && a + b == |batch| && a <= |controls| && b <= |packets|
        invariant outgoing == controls[a..] && outgoingReliable == packets[b..]
        invariant Merged(batch, controls, packets, now, firstTimeout, stopped)
        invariant inTransit <= if old(inTransit) > transitLimit then old(inTransit) else transitLimit
        invariant |batch| <= slots && TotalSize(batch) + left == space
        invariant stopped ==> Held(transitLimit) && HadItsTurn(batch, controls, packets)
        invariant windowWrap <==> stopped && AtGate()
        decreases |outgoing| + |outgoingReliable|, !stopped
      {
        var withPacket := !stopped && outgoingReliable != []
                          && (outgoing == [] || outgoingReliable[0].queueTime < outgoing[0].queueTime);
        if !withPacket && outgoing == [] {
          break;
        }
        TurnIs(controls, a, packets, b);
        if withPacket {
          TurnNow(batch, controls, packets);
          windowWrap, stopped := Gate(transitLimit);
          if stopped {
            MergedHeld(batch, controls, packets, now, firstTimeout, true);
            continue;
          }
        }
        Fronts();
        var c := if withPacket then outgoingReliable[0] else outgoing[0];
        if |batch| >= slots || left < c.size + c.length {
          break;
        }
        ghost var sent := batch;
        c := SendFront(withPacket, now, firstTimeout);
        batch := batch + [c];
        left := left - (c.size + c.length);
        OneMoreSent(sent, c);
        SentIs(if withPacket then packets[b] else controls[a], c, now, firstTimeout);
        BatchMore(sent, controls, packets, now, firstTimeout, stopped, c);
        if withPacket {
          b := b + 1;
        } else {
          a := a + 1;
        }
      }
      TurnIs(controls, a, packets, b);
      if !stopped {
        NoTurnYet(batch, controls, packets, now, firstTimeout);
        MergedHeld(batch, controls, packets, now, firstTimeout, Held(transitLimit));
      }
      ghost var next := NextUp(transitLimit);
      if next != [] {
        OneMoreSent(batch, next[0]);
        assert [next[0]] == next;
      }
    }

    lemma Fronts()
      requires Valid()
      ensures outgoing != [] ==> outgoing[0].length == 0 && !outgoing[0].hasPacket
      ensures outgoingReliable != [] ==> outgoingReliable[0].hasPacket
    {
      ShapeHas(|channels|, outgoing, outgoingReliable, sentReliable);
    }

    /** The tests that hold back the list of commands with a packet. */
    method Gate(transitLimit: nat) returns (windowWrap: bool, stopped: bool)
      requires Valid() && outgoingReliable != []
      ensures windowWrap <==> AtGate()
      ensures stopped <==> Held(transitLimit)
    {
      hide Ids, TotalLength, Blocked, Shape, AllBooked;
      var front := outgoingReliable[0];
      ShapeHas(|channels|, outgoing, outgoingReliable, sentReliable);
      BookedHas(channels, sentReliable, outgoingReliable, front.channel);
      if front.attempts < 1 && front.number % WINDOW_SIZE == 0
         && Blocked(channels[front.channel].windows, front.number / WINDOW_SIZE) {
        return true, true;
      }
      return false, inTransit + front.length > transitLimit;
    }

    /** The gate is closed for the command at the front of the list with packets. */
    predicate AtGate()
      reads this
    {
      outgoingReliable != [] && !Open(outgoingReliable[0])
    }

    /** The list with packets is held back, by the gate or by the data in transit. */
    predicate Held(transitLimit: nat)
      reads this
    {
      outgoingReliable != [] && (AtGate() || inTransit + outgoingReliable[0].length > transitLimit)
    }

    /** The command to be sent next, if there is one. */
    ghost function NextUp(transitLimit: nat): seq<Outgoing>
      reads this
    {
      if outgoingReliable != [] && !Held(transitLimit) && PacketFirst(outgoing, 0, outgoingReliable, 0)
      then outgoingReliable[..1]
      else if outgoing != [] then outgoing[..1] else []
    }

    /** enet_protocol_check_timeouts: the expired commands go back to the fronts of their lists, in order, up to
        the first one that has been under way too long. */
    method CheckTimeouts(now: nat, maximum: nat, minimum: nat, limit: nat) returns (disconnect: bool, ghost done: nat)
      requires Valid()
      modifies this
      ensures Valid() && channels == old(channels) && Holds() == old(Holds()) && AllSent(old(sentReliable))
      ensures disconnect <==> exists k :: 0 <= k < |old(sentReliable)| && GivesUp(old(sentReliable), k, now, old(earliestTimeout), maximum, minimum, limit)
      ensures if disconnect then done < |old(sentReliable)| && GivesUp(old(sentReliable), done, now, old(earliestTimeout), maximum, minimum, limit)
              else done == |old(sentReliable)|
      ensures forall k :: 0 <= k < done ==> !GivesUp(old(sentReliable), k, now, old(earliestTimeout), maximum, minimum, limit)
      ensures earliestTimeout == Earliest(old(sentReliable)[..if disconnect then done + 1 else done], now, old(earliestTimeout))
      ensures sentReliable == Fresh(old(sentReliable)[..done], now) + old(sentReliable)[done..]
      ensures outgoingReliable == Retries(old(sentReliable)[..done], now, true) + old(outgoingReliable)
      ensures outgoing == Retries(old(sentReliable)[..done], now, false) + old(outgoing)
    {
      hide Valid, Holds, Without, Expired, Fresh, Retries, Earliest, GivesUp;
      ghost var all, first := sentReliable, earliestTimeout;
      AllAreSent();
      done := 0;
      var k := 0;
      ghost var packets: seq<Outgoing>, controls: seq<Outgoing> := [], [];
      ghost var reliable, control := outgoingReliable, outgoing;
      var insertReliable, insert := 0, 0;
      NoneExpired(now);
      assert all[..0] == [] && all[0..] == all;
      NoneEarlier(now, first);
      while k < |sentReliable|
        invariant Valid() && channels == old(channels) && Holds() == old(Holds())
        invariant 0 <= k <= |sentReliable| && done <= |all| && sentReliable == Fresh(all[..done], now) + all[done..]
        invariant k == |Fresh(all[..done], now)| && earliestTimeout == Earliest(all[..done], now, first)
        invariant forall j :: 0 <= j < done ==> !GivesUp(all, j, now, first, maximum, minimum, limit)
        invariant packets == Retries(all[..done], now, true) && outgoingReliable == packets + reliable
        invariant controls == Retries(all[..done], now, false) && outgoing == controls + control
        invariant AllSent(packets) && AllSent(controls) && insertReliable == |packets| && insert == |controls|
        decreases |sentReliable| - k
      {
        var c := sentReliable[k];
        assert c == all[done];
        FreshStep(all, done, now);
        EarliestStep(all, done, now, first);
        GivesUpIs(all, done, now, first, maximum, minimum, limit);
        if !Expired(c, now) {
          assert sentReliable == Fresh(all[..done + 1], now) + all[done + 1..];
          k := k + 1;
          done := done + 1;
          continue;
        }
        var tooLong := NoteTimeout(k, now, maximum, minimum, limit);
        if tooLong {
          disconnect := true;
          return;
        }
        Retry(k, insertReliable, insert, packets, reliable, controls, control);
        ghost var d := c.(timeout := c.timeout * 2);
        if c.hasPacket {
          insertReliable := insertReliable + 1;
          packets := packets + [d];
        } else {
          insert := insert + 1;
          controls := controls + [d];
        }
        RetriedAll(all, done, now, sentReliable, k);
        done := done + 1;
      }
      disconnect := false;
    }

    lemma AllAreSent()
      requires Valid()
      ensures AllSent(sentReliable)
    {
    }

    /** Keeps the send time of the oldest expired command; true when it has been under way too long. */
    method NoteTimeout(k: nat, now: nat, maximum: nat, minimum: nat, limit: nat) returns (tooLong: bool)
      requires Valid() && k < |sentReliable|
      modifies this`earliestTimeout
      ensures Valid() && Holds() == old(Holds())
      ensures var sentTime := sentReliable[k].sentTime;
              earliestTimeout == if old(earliestTimeout) == 0 || sentTime < old(earliestTimeout) then sentTime else old(earliestTimeout)
      ensures sentReliable[k].attempts > 0
      ensures tooLong == (earliestTimeout != 0 && TooLong(sentReliable[k].attempts, TimeDifference(now, earliestTimeout), maximum, minimum, limit))
    {
      hide Ids, TotalLength, AllBooked, TooLong;
      var c := sentReliable[k];
      if earliestTimeout == 0 || c.sentTime < earliestTimeout {
        earliestTimeout := c.sentTime;
      }
      ShapeWithoutSent(|channels|, outgoing, outgoingReliable, sentReliable, k);
      return earliestTimeout != 0 && TooLong(c.attempts, TimeDifference(now, earliestTimeout), maximum, minimum, limit);
    }

    /** One expired command taken from the sent ones and put behind those retried before it. */
    method Retry(k: nat, insertReliable: nat, insert: nat, ghost packets: seq<Outgoing>, ghost reliable: seq<Outgoing>,
                 ghost controls: seq<Outgoing>, ghost control: seq<Outgoing>)
      requires Valid() && k < |sentReliable| && AllSent(packets) && AllSent(controls)
      requires outgoingReliable == packets + reliable && outgoing == controls + control
      requires insertReliable == |packets| && insert == |controls|
      modifies this`sentReliable, this`outgoingReliable, this`outgoing, this`inTransit, this`nextTimeout
      ensures Valid() && Holds() == old(Holds()) && sentReliable == Without(old(sentReliable), k)
      ensures var c := old(sentReliable[k]);
              var d := c.(timeout := c.timeout * 2);
              && d.attempts > 0
              && outgoingReliable == (if c.hasPacket then packets + [d] else packets) + reliable
              && outgoing == (if c.hasPacket then controls else controls + [d]) + control
    {
      hide Ids, IdOf, TotalLength, Shape, AllBooked, Expired, Fresh, Retries;
      var c := sentReliable[k];
      var d := c.(timeout := c.timeout * 2);
      RetryMoves(channels, packets, reliable, controls, control, sentReliable, k, d);
      sentReliable := Without(sentReliable, k);
      if c.hasPacket {
        inTransit := inTransit - c.length;
        outgoingReliable := outgoingReliable[..insertReliable] + [d] + outgoingReliable[insertReliable..];
        assert outgoingReliable == packets + [d] + reliable;
      } else {
        outgoing := outgoing[..insert] + [d] + outgoing[insert..];
        assert outgoing == controls + [d] + control;
      }
      if k == 0 && sentReliable != [] {
        nextTimeout := sentReliable[0].sentTime + sentReliable[0].timeout;
      }
    }

    /** enet_protocol_remove_sent_reliable_command: the command an acknowledgement is for, looked up among
        the sent commands and among those waiting to be sent again. */
    method RemoveSent(number: nat, channel: nat) returns (found: bool, c: Outgoing)
      requires Valid() && number < NUMBERS
      modifies this
      ensures Valid() && this.number == old(this.number)
      ensures found <==> exists d :: d in old(UnderWay()) && d.number == number && d.channel == channel
      ensures found ==> c in old(UnderWay()) && c.number == number && c.channel == channel
                        && old(Holds()) == Holds() + multiset{IdOf(c)}
                        && channels == AfterAck(old(channels), c)
                        && OneTaken(old(sentReliable), sentReliable, old(outgoing), outgoing, old(outgoingReliable), outgoingReliable, c)
      ensures !found ==> channels == old(channels) && Holds() == old(Holds()) && sentReliable == old(sentReliable)
                         && outgoing == old(outgoing) && outgoingReliable == old(outgoingReliable)
    {
      hide Ids, IdOf, TotalLength, Blocked, Shape, AllBooked, CountIn, Without, Acknowledge, OneTaken, UnderWayOf;
      ghost var sent0, outgoing0, reliable0 := sentReliable, outgoing, outgoingReliable;
      ShapeSent(|channels|, outgoing, outgoingReliable, sentReliable);
      var k := FindFirst(sentReliable, number, channel);
      if k < |sentReliable| {
        c := sentReliable[k];
        found := true;
        RemoveFromSent(channels, outgoing, outgoingReliable, sentReliable, k);
        OneIsTaken(sent0, outgoing0, reliable0, k);
        sentReliable := Without(sentReliable, k);
        OneMore(Ids(sentReliable), Ids(outgoing), Ids(outgoingReliable), multiset{IdOf(c)});
        inTransit := inTransit - c.length;
      } else {
        k := FindFirst(outgoing, number, channel);
        if k < |outgoing| {
          c := outgoing[k];
          found := true;
          RemoveFromOutgoing(channels, outgoing, outgoingReliable, sentReliable, k);
          OneIsTaken(sent0, outgoing0, reliable0, k);
          outgoing := Without(outgoing, k);
          OneMore(Ids(sentReliable), Ids(outgoing), Ids(outgoingReliable), multiset{IdOf(c)});
        } else {
          k := FindFirst(outgoingReliable, number, channel);
          if k == |outgoingReliable| {
            NoneUnderWay(sentReliable, outgoing, outgoingReliable, number, channel);
            return false, Outgoing(0, 0, false, 0, 0, 0, 0, 0, 0, 0);
          }
          c := outgoingReliable[k];
          found := true;
          RemoveFromWaiting(channels, outgoing, outgoingReliable, sentReliable, k);
          OneIsTaken(sent0, outgoing0, reliable0, k);
          outgoingReliable := Without(outgoingReliable, k);
          OneMore(Ids(sentReliable), Ids(outgoing), Ids(outgoingReliable), multiset{IdOf(c)});
        }
      }
      if channel < |channels| {
        channels := channels[channel := Acknowledge(channels[channel], number)];
      }
      if sentReliable != [] {
        nextTimeout := sentReliable[0].sentTime + sentReliable[0].timeout;
      }
    }

    /** The commands sent and not acknowledged. */
    ghost function UnderWay(): set<Outgoing>
      reads this
    {
      UnderWayOf(sentReliable, outgoing, outgoingReliable)
    }

    /** The search of enet_protocol_find_sent_reliable_command, which ends at the first unsent command. */
    static method FindFirst(list: seq<Outgoing>, number: nat, channel: nat) returns (k: nat)
      requires RetriesFirst(list)
      ensures k <= |list|
      ensures k < |list| ==> list[k].number == number && list[k].channel == channel && list[k].attempts > 0
      ensures k == |list| ==> forall d :: d in list && d.attempts > 0 ==> !(d.number == number && d.channel == channel)
    {
      k := 0;
      while k < |list|
        invariant 0 <= k <= |list|
        invariant forall i :: 0 <= i < k ==> list[i].attempts > 0 && !(list[i].number == number && list[i].channel == channel)
      {
        if list[k].attempts < 1 {
          return |list|;
        }
        if list[k].number == number && list[k].channel == channel {
          return;
        }
        k := k + 1;
      }
    }

    /** The gate before the first command of a window. */
    predicate Open(c: Outgoing)
      reads this
    {
      && c.channel < |channels| && c.number < NUMBERS && Sixteen(channels[c.channel].windows)
      && (c.attempts < 1 && c.number % WINDOW_SIZE == 0 ==> !Blocked(channels[c.channel].windows, c.number / WINDOW_SIZE))
    }
  }

  lemma SameId(c: Outgoing, d: Outgoing)
    ensures IdOf(c) == IdOf(d) <==> c.number == d.number && c.channel == d.channel && c.offset == d.offset && c.length == d.length
  {
  }

  lemma OneId(c: Outgoing)
    ensures Ids([c]) == multiset{IdOf(c)}
  {
    assert [c][..0] == [];
    assert Ids([]) == multiset{};
  }

  lemma OneCount(c: Outgoing, channel: nat, w: nat)
    ensures CountIn([c], channel, w) == if Counts(c, channel, w) then 1 else 0
    ensures Unsent([c], channel) == if c.channel == channel && c.attempts == 0 then [c] else []
    ensures TotalLength([c]) == c.length
  {
    assert [c][..0] == [];
  }

  /** Queueing a new command at the end. */
  lemma QueueKeepsBooks(s: Sending, channel: nat, sent: seq<Outgoing>, waiting: seq<Outgoing>, d: Outgoing)
    requires Booked(s, channel, sent, waiting) && d.attempts == 0
    requires d.channel == channel ==> d.number == (s.number + 1) % NUMBERS
    ensures Booked(if d.channel == channel then s.(number := d.number) else s, channel, sent, waiting + [d])
  {
    hide CountIn, Unsent, WindowBooked;
    var unsent := Unsent(waiting, channel);
    UnsentConcat(waiting, [d], channel);
    forall w | 0 <= w < WINDOWS
      ensures CountIn(waiting + [d], channel, w) == CountIn(waiting, channel, w)
    {
      CountConcat(waiting, [d], channel, w);
      OneCount(d, channel, w);
    }
    OneCount(d, channel, 0);
    SumWraps(s.last, |unsent|);
    QueueKeepsWindows(s, d.number);
  }

  lemma QueueKeepsWindows(s: Sending, number: nat)
    requires Sixteen(s.windows)
    ensures forall w, n :: 0 <= w < WINDOWS && WindowBooked(s, w, n) ==> WindowBooked(s.(number := number), w, n)
  {
  }

  lemma BooksAfterQueueing(channels: seq<Sending>, sent: seq<Outgoing>, waiting: seq<Outgoing>, d: Outgoing)
    requires AllBooked(channels, sent, waiting) && d.attempts == 0 && d.channel < |channels|
    requires d.number == (channels[d.channel].number + 1) % NUMBERS
    ensures AllBooked(channels[d.channel := channels[d.channel].(number := d.number)], sent, waiting + [d])
  {
    hide Booked;
    var updated := channels[d.channel := channels[d.channel].(number := d.number)];
    forall i | 0 <= i < |channels|
      ensures Booked(updated[i], i, sent, waiting + [d])
    {
      QueueKeepsBooks(channels[i], i, sent, waiting, d);
    }
  }

  lemma SumWraps(x: nat, k: nat)
    ensures ((x + k) % NUMBERS + 1) % NUMBERS == (x + 1 + k) % NUMBERS == (x + (k + 1)) % NUMBERS
  {
  }

  lemma IdsFront(list: seq<Outgoing>)
    requires list != []
    ensures Ids(list) == multiset{IdOf(list[0])} + Ids(list[1..])
  {
    assert list == [list[0]] + list[1..];
    IdsConcat([list[0]], list[1..]);
    OneId(list[0]);
  }

  lemma SentIds(sent: seq<Outgoing>, front: Outgoing, c: Outgoing)
    requires IdOf(front) == IdOf(c)
    ensures Ids(sent + [c]) == Ids(sent) + multiset{IdOf(front)}
    ensures TotalLength(sent + [c]) == TotalLength(sent) + c.length
  {
    IdsConcat(sent, [c]);
    OneId(c);
    LengthConcat(sent, [c]);
    OneCount(c, 0, 0);
  }

  /** The books of all channels after the command at the front of the waiting list is sent. */
  lemma BooksAfterSend(channels: seq<Sending>, sent: seq<Outgoing>, waiting: seq<Outgoing>, c: Outgoing)
    requires waiting != [] && c.number < NUMBERS && c.channel < |channels| && c.attempts == waiting[0].attempts + 1
    requires c.channel == waiting[0].channel && c.number == waiting[0].number && Sixteen(channels[c.channel].windows)
    requires AllBooked(channels, sent, waiting)
    requires waiting[0].attempts == 0 && c.number % WINDOW_SIZE == 0 ==>
               !Blocked(channels[c.channel].windows, c.number / WINDOW_SIZE)
    ensures var updated := if waiting[0].attempts > 0 then channels
                           else channels[c.channel := SendOne(channels[c.channel], c.number)];
            AllBooked(updated, sent + [c], waiting[1..])
  {
    hide Booked;
    var updated := if waiting[0].attempts > 0 then channels else channels[c.channel := SendOne(channels[c.channel], c.number)];
    forall i | 0 <= i < |channels|
      ensures Booked(updated[i], i, sent + [c], waiting[1..])
    {
      SendKeepsBooks(channels[i], i, sent, waiting, c);
    }
  }

  lemma FrontCounts(sent: seq<Outgoing>, waiting: seq<Outgoing>, c: Outgoing, channel: nat, w: nat)
    requires waiting != [] && c.channel == waiting[0].channel && c.number == waiting[0].number && c.attempts == waiting[0].attempts + 1
    ensures CountIn(sent + [c], channel, w) + CountIn(waiting[1..], channel, w) ==
            CountIn(sent, channel, w) + CountIn(waiting, channel, w)
            + (if waiting[0].attempts == 0 && c.channel == channel && c.number / WINDOW_SIZE == w then 1 else 0)
    ensures Unsent(waiting, channel) ==
            (if waiting[0].channel == channel && waiting[0].attempts == 0 then [waiting[0]] else []) + Unsent(waiting[1..], channel)
  {
    assert waiting == [waiting[0]] + waiting[1..];
    CountConcat([waiting[0]], waiting[1..], channel, w);
    UnsentConcat([waiting[0]], waiting[1..], channel);
    CountConcat(sent, [c], channel, w);
    OneCount(c, channel, w);
    OneCount(waiting[0], channel, w);
  }

  lemma SendKeepsBooks(s: Sending, channel: nat, sent: seq<Outgoing>, waiting: seq<Outgoing>, c: Outgoing)
    requires waiting != [] && c.number < NUMBERS && c.attempts == waiting[0].attempts + 1
    requires c.channel == waiting[0].channel && c.number == waiting[0].number
    requires Booked(s, channel, sent, waiting)
    requires c.channel == channel && waiting[0].attempts == 0 && c.number % WINDOW_SIZE == 0 ==>
               !Blocked(s.windows, c.number / WINDOW_SIZE)
    ensures Booked(if waiting[0].channel == channel && waiting[0].attempts == 0 then SendOne(s, c.number) else s,
                   channel, sent + [c], waiting[1..])
  {
    hide CountIn, Unsent, WindowBooked, Blocked;
    var first := waiting[0].channel == channel && waiting[0].attempts == 0;
    FrontCounts(sent, waiting, c, channel, 0);
    if first {
      assert Unsent(waiting, channel)[0] == waiting[0];
      forall w | 0 <= w < WINDOWS
        ensures WindowBooked(SendOne(s, c.number), w, CountIn(sent + [c], channel, w) + CountIn(waiting[1..], channel, w))
      {
        FrontCounts(sent, waiting, c, channel, w);
        SendKeepsWindow(s, c.number, w, CountIn(sent, channel, w) + CountIn(waiting, channel, w));
      }
      var rest := Unsent(waiting[1..], channel);
      forall k | 0 <= k < |rest|
        ensures rest[k].number == (c.number + 1 + k) % NUMBERS
      {
        assert rest[k] == Unsent(waiting, channel)[k + 1];
        NextWraps(s.last, k);
      }
      NextWraps(s.last, |rest|);
    } else {
      assert Unsent(waiting, channel) == Unsent(waiting[1..], channel);
      forall w | 0 <= w < WINDOWS
        ensures WindowBooked(s, w, CountIn(sent + [c], channel, w) + CountIn(waiting[1..], channel, w))
      {
        FrontCounts(sent, waiting, c, channel, w);
      }
    }
  }

  lemma NextWraps(x: nat, k: nat)
    ensures ((x + 1) % NUMBERS + k) % NUMBERS == (x + (k + 1)) % NUMBERS
    ensures ((x + 1) % NUMBERS + 1 + k) % NUMBERS == (x + 1 + (k + 1)) % NUMBERS
  {
  }

  /** A command of no channel counts nowhere. */
  lemma BooksAfterControl(channels: seq<Sending>, sent: seq<Outgoing>, waiting: seq<Outgoing>, c: Outgoing)
    requires |channels| <= c.channel && AllBooked(channels, sent, waiting)
    ensures AllBooked(channels, sent + [c], waiting)
  {
    forall i | 0 <= i < |channels|
      ensures Booked(channels[i], i, sent + [c], waiting)
    {
      forall w | 0 <= w < WINDOWS
        ensures CountIn(sent + [c], i, w) == CountIn(sent, i, w)
      {
        CountConcat(sent, [c], i, w);
        OneCount(c, i, w);
      }
    }
  }

  /** A channel after one of its commands under way was acknowledged. */
  function Acknowledge(s: Sending, number: nat): Sending {
    if Sixteen(s.windows) && number < NUMBERS then s.(windows := CountDown(s.windows, number / WINDOW_SIZE)) else s
  }

  lemma ShapeSent(channelCount: nat, outgoing: seq<Outgoing>, reliable: seq<Outgoing>, sent: seq<Outgoing>)
    requires Shape(channelCount, outgoing, reliable, sent)
    ensures RetriesFirst(sent) && RetriesFirst(outgoing) && RetriesFirst(reliable)
  {
  }

  function Without(list: seq<Outgoing>, k: nat): seq<Outgoing>
    requires k < |list|
  {
    list[..k] + list[k + 1..]
  }

  lemma WithoutIs(list: seq<Outgoing>, k: nat, channel: nat, w: nat)
    requires k < |list|
    ensures Ids(list) == Ids(Without(list, k)) + multiset{IdOf(list[k])}
    ensures TotalLength(list) == TotalLength(Without(list, k)) + list[k].length
    ensures CountIn(list, channel, w) == CountIn(Without(list, k), channel, w) + if Counts(list[k], channel, w) then 1 else 0
    ensures list[k].attempts > 0 ==> Unsent(list, channel) == Unsent(Without(list, k), channel)
  {
    hide Counts;
    var a, b, c := list[..k], list[k + 1..], list[k];
    assert list == a + [c] + b;
    IdsConcat(a + [c], b);
    IdsConcat(a, [c]);
    IdsConcat(a, b);
    OneId(c);
    LengthConcat(a + [c], b);
    LengthConcat(a, [c]);
    LengthConcat(a, b);
    CountConcat(a + [c], b, channel, w);
    CountConcat(a, [c], channel, w);
    CountConcat(a, b, channel, w);
    UnsentConcat(a + [c], b, channel);
    UnsentConcat(a, [c], channel);
    UnsentConcat(a, b, channel);
    OneCount(c, channel, w);
    assert Unsent(a, channel) + [] == Unsent(a, channel);
  }

  lemma AckKeepsWindow(s: Sending, c: Outgoing, w: nat, n: nat)
    requires Sixteen(s.windows) && s.last < NUMBERS && w < WINDOWS && c.number < NUMBERS
    requires WindowBooked(s, w, n + if c.number / WINDOW_SIZE == w then 1 else 0)
    ensures WindowBooked(Acknowledge(s, c.number), w, n)
  {
  }

  /** Taking one command that was sent out of the lists. */
  lemma AckKeepsBooks(s: Sending, i: nat, sent: seq<Outgoing>, waiting: seq<Outgoing>, sent': seq<Outgoing>, waiting': seq<Outgoing>, c: Outgoing)
    requires Booked(s, i, sent, waiting) && c.attempts > 0 && c.number < NUMBERS
    requires Unsent(waiting', i) == Unsent(waiting, i)
    requires forall w :: 0 <= w < WINDOWS ==>
               CountIn(sent, i, w) + CountIn(waiting, i, w) ==
               CountIn(sent', i, w) + CountIn(waiting', i, w) + if Counts(c, i, w) then 1 else 0
    ensures Booked(if c.channel == i then Acknowledge(s, c.number) else s, i, sent', waiting')
  {
    hide WindowBooked, CountIn, Unsent, CountDown;
    if c.channel == i {
      AckShape(s, c.number);
      forall w | 0 <= w < WINDOWS
        ensures WindowBooked(Acknowledge(s, c.number), w, CountIn(sent', i, w) + CountIn(waiting', i, w))
      {
        AckKeepsWindow(s, c, w, CountIn(sent', i, w) + CountIn(waiting', i, w));
      }
    } else {
      forall w | 0 <= w < WINDOWS
        ensures WindowBooked(s, w, CountIn(sent', i, w) + CountIn(waiting', i, w))
      {
        assert !Counts(c, i, w);
      }
    }
  }

  lemma AckShape(s: Sending, number: nat)
    requires Sixteen(s.windows) && number < NUMBERS
    ensures Sixteen(Acknowledge(s, number).windows)
    ensures Acknowledge(s, number) == s.(windows := Acknowledge(s, number).windows)
  {
  }

  function UnderWayOf(sent: seq<Outgoing>, outgoing: seq<Outgoing>, reliable: seq<Outgoing>): set<Outgoing> {
    set c | c in sent + outgoing + reliable && c.attempts > 0
  }

  lemma NoneUnderWay(sent: seq<Outgoing>, outgoing: seq<Outgoing>, reliable: seq<Outgoing>, number: nat, channel: nat)
    requires forall d :: d in sent && d.attempts > 0 ==> !(d.number == number && d.channel == channel)
    requires forall d :: d in outgoing && d.attempts > 0 ==> !(d.number == number && d.channel == channel)
    requires forall d :: d in reliable && d.attempts > 0 ==> !(d.number == number && d.channel == channel)
    ensures !exists d :: d in UnderWayOf(sent, outgoing, reliable) && d.number == number && d.channel == channel
  {
  }

  ghost predicate TakenOut(before: seq<Outgoing>, after: seq<Outgoing>, c: Outgoing) {
    exists k :: 0 <= k < |before| && before[k] == c && after == Without(before, k)
  }

  /** The command left one of the three lists. */
  ghost predicate OneTaken(sent: seq<Outgoing>, sent': seq<Outgoing>, outgoing: seq<Outgoing>, outgoing': seq<Outgoing>,
                           reliable: seq<Outgoing>, reliable': seq<Outgoing>, c: Outgoing) {
    || (TakenOut(sent, sent', c) && outgoing' == outgoing && reliable' == reliable)
    || (sent' == sent && TakenOut(outgoing, outgoing', c) && reliable' == reliable)
    || (sent' == sent && outgoing' == outgoing && TakenOut(reliable, reliable', c))
  }

  lemma OneIsTaken(sent: seq<Outgoing>, outgoing: seq<Outgoing>, reliable: seq<Outgoing>, k: nat)
    ensures k < |sent| && sent[k].attempts > 0 ==> sent[k] in UnderWayOf(sent, outgoing, reliable)
    ensures k < |outgoing| && outgoing[k].attempts > 0 ==> outgoing[k] in UnderWayOf(sent, outgoing, reliable)
    ensures k < |reliable| && reliable[k].attempts > 0 ==> reliable[k] in UnderWayOf(sent, outgoing, reliable)
    ensures k < |sent| ==> OneTaken(sent, Without(sent, k), outgoing, outgoing, reliable, reliable, sent[k])
    ensures k < |outgoing| ==> OneTaken(sent, sent, outgoing, Without(outgoing, k), reliable, reliable, outgoing[k])
    ensures k < |reliable| ==> OneTaken(sent, sent, outgoing, outgoing, reliable, Without(reliable, k), reliable[k])
  {
    hide Without;
  }

  /** The channels after a command was taken out of the lists. */
  function AfterAck(channels: seq<Sending>, c: Outgoing): seq<Sending> {
    if c.channel < |channels| then channels[c.channel := Acknowledge(channels[c.channel], c.number)] else channels
  }

  lemma ShapeWithoutSent(channelCount: nat, outgoing: seq<Outgoing>, reliable: seq<Outgoing>, sent: seq<Outgoing>, k: nat)
    requires Shape(channelCount, outgoing, reliable, sent) && k < |sent|
    ensures Shape(channelCount, outgoing, reliable, Without(sent, k))
    ensures sent[k].attempts > 0 && Proper(sent[k], channelCount)
  {
  }

  lemma ShapeWithoutWaiting(channelCount: nat, outgoing: seq<Outgoing>, reliable: seq<Outgoing>, sent: seq<Outgoing>, k: nat)
    requires Shape(channelCount, outgoing, reliable, sent) && k < |reliable|
    ensures Shape(channelCount, outgoing, Without(reliable, k), sent) && Proper(reliable[k], channelCount)
  {
  }

  lemma RemoveFromSent(channels: seq<Sending>, outgoing: seq<Outgoing>, reliable: seq<Outgoing>, sent: seq<Outgoing>, k: nat)
    requires Shape(|channels|, outgoing, reliable, sent) && AllBooked(channels, sent, reliable) && k < |sent|
    ensures Shape(|channels|, outgoing, reliable, Without(sent, k))
    ensures AllBooked(AfterAck(channels, sent[k]), Without(sent, k), reliable)
    ensures Ids(sent) == Ids(Without(sent, k)) + multiset{IdOf(sent[k])}
    ensures TotalLength(sent) == TotalLength(Without(sent, k)) + sent[k].length
  {
    hide Booked, Ids, TotalLength, CountIn, Unsent, Shape, Counts, Without, Acknowledge;
    ShapeWithoutSent(|channels|, outgoing, reliable, sent, k);
    WithoutIs(sent, k, 0, 0);
    var c, channels' := sent[k], AfterAck(channels, sent[k]);
    forall i | 0 <= i < |channels|
      ensures Booked(channels'[i], i, Without(sent, k), reliable)
    {
      forall w | 0 <= w < WINDOWS
        ensures CountIn(sent, i, w) == CountIn(Without(sent, k), i, w) + if Counts(c, i, w) then 1 else 0
      {
        WithoutIs(sent, k, i, w);
      }
      AckKeepsBooks(channels[i], i, sent, reliable, Without(sent, k), reliable, c);
    }
  }

  lemma RemoveFromWaiting(channels: seq<Sending>, outgoing: seq<Outgoing>, reliable: seq<Outgoing>, sent: seq<Outgoing>, k: nat)
    requires Shape(|channels|, outgoing, reliable, sent) && AllBooked(channels, sent, reliable)
    requires k < |reliable| && reliable[k].attempts > 0
    ensures Shape(|channels|, outgoing, Without(reliable, k), sent)
    ensures AllBooked(AfterAck(channels, reliable[k]), sent, Without(reliable, k))
    ensures Ids(reliable) == Ids(Without(reliable, k)) + multiset{IdOf(reliable[k])}
  {
    hide Booked, Ids, TotalLength, CountIn, Unsent, Shape, Counts, Without, Acknowledge;
    ShapeWithoutWaiting(|channels|, outgoing, reliable, sent, k);
    WithoutIs(reliable, k, 0, 0);
    var c, channels' := reliable[k], AfterAck(channels, reliable[k]);
    forall i | 0 <= i < |channels|
      ensures Booked(channels'[i], i, sent, Without(reliable, k))
    {
      forall w | 0 <= w < WINDOWS
        ensures CountIn(reliable, i, w) == CountIn(Without(reliable, k), i, w) + if Counts(c, i, w) then 1 else 0
      {
        WithoutIs(reliable, k, i, w);
      }
      WithoutIs(reliable, k, i, 0);
      AckKeepsBooks(channels[i], i, sent, reliable, sent, Without(reliable, k), c);
    }
  }

  lemma RemoveFromOutgoing(channels: seq<Sending>, outgoing: seq<Outgoing>, reliable: seq<Outgoing>, sent: seq<Outgoing>, k: nat)
    requires Shape(|channels|, outgoing, reliable, sent) && |channels| <= NO_CHANNEL && k < |outgoing|
    ensures Shape(|channels|, Without(outgoing, k), reliable, sent)
    ensures AfterAck(channels, outgoing[k]) == channels
    ensures Ids(outgoing) == Ids(Without(outgoing, k)) + multiset{IdOf(outgoing[k])}
  {
    RemovedFromOutgoing(|channels|, outgoing, reliable, sent, k);
    hide Shape, Ids;
    WithoutIs(outgoing, k, 0, 0);
  }

  lemma RemovedFromOutgoing(channelCount: nat, outgoing: seq<Outgoing>, reliable: seq<Outgoing>, sent: seq<Outgoing>, k: nat)
    requires Shape(channelCount, outgoing, reliable, sent) && channelCount <= NO_CHANNEL && k < |outgoing|
    ensures Shape(channelCount, Without(outgoing, k), reliable, sent)
    ensures outgoing[k].channel == NO_CHANNEL
  {
    assert Proper(outgoing[k], channelCount);
  }

  lemma RetriedAll(all: seq<Outgoing>, done: nat, now: nat, sent: seq<Outgoing>, k: nat)
    requires done < |all| && Expired(all[done], now)
    requires k == |Fresh(all[..done], now)| && sent == Without(Fresh(all[..done], now) + all[done..], k)
    ensures sent == Fresh(all[..done + 1], now) + all[done + 1..]
  {
    hide Expired, Fresh;
    FreshStep(all, done, now);
  }

  lemma NoneExpired(now: nat)
    ensures Fresh([], now) == [] && Retries([], now, true) == [] && Retries([], now, false) == []
  {
  }

  lemma FreshStep(all: seq<Outgoing>, k: nat, now: nat)
    requires k < |all|
    ensures var c := all[k];
            && Fresh(all[..k + 1], now) == Fresh(all[..k], now) + (if Expired(c, now) then [] else [c])
            && forall p: bool ::
                 Retries(all[..k + 1], now, p) ==
                 Retries(all[..k], now, p) + (if Expired(c, now) && c.hasPacket == p then [c.(timeout := c.timeout * 2)] else [])
  {
    hide Expired;
    assert all[..k + 1][..k] == all[..k];
  }

  lemma InsertIs(a: seq<Outgoing>, b: seq<Outgoing>, d: Outgoing, channel: nat, w: nat)
    requires d.attempts > 0
    ensures Ids(a + [d] + b) == Ids(a + b) + multiset{IdOf(d)}
    ensures CountIn(a + [d] + b, channel, w) == CountIn(a + b, channel, w) + if Counts(d, channel, w) then 1 else 0
    ensures Unsent(a + [d] + b, channel) == Unsent(a + b, channel)
  {
    var list, k := a + [d] + b, |a|;
    assert Without(list, k) == a + b && list[k] == d;
    WithoutIs(list, k, channel, w);
  }

  lemma RetryShape(channelCount: nat, packets: seq<Outgoing>, reliable: seq<Outgoing>, controls: seq<Outgoing>, outgoing: seq<Outgoing>,
                   sent: seq<Outgoing>, k: nat, d: Outgoing)
    requires Shape(channelCount, controls + outgoing, packets + reliable, sent) && k < |sent| && AllSent(packets) && AllSent(controls)
    requires d == sent[k].(timeout := d.timeout)
    ensures if d.hasPacket then Shape(channelCount, controls + outgoing, packets + [d] + reliable, Without(sent, k))
            else Shape(channelCount, controls + [d] + outgoing, packets + reliable, Without(sent, k))
  {
    assert Proper(d, channelCount);
    if d.hasPacket {
      RetriesAfter(packets, reliable, d, channelCount);
    } else {
      RetriesAfter(controls, outgoing, d, channelCount);
    }
  }

  lemma RetriesAfter(a: seq<Outgoing>, b: seq<Outgoing>, d: Outgoing, channelCount: nat)
    requires RetriesFirst(a + b) && AllSent(a) && d.attempts > 0
    requires AllProper(a + b, channelCount) && Proper(d, channelCount)
    requires forall k :: 0 <= k < |a + b| ==> (a + b)[k].hasPacket == d.hasPacket
    ensures RetriesFirst(a + [d] + b) && AllProper(a + [d] + b, channelCount)
    ensures forall k :: 0 <= k < |a + [d] + b| ==> (a + [d] + b)[k].hasPacket == d.hasPacket
  {
    hide Proper;
    var list := a + [d] + b;
    forall x | 0 <= x < |list|
      ensures Proper(list[x], channelCount) && list[x].hasPacket == d.hasPacket
    {
      assert list[x] == if x == |a| then d else (a + b)[if x < |a| then x else x - 1];
    }
    forall x, y | 0 <= x < y < |list| && list[y].attempts > 0
      ensures list[x].attempts > 0
    {
      if x > |a| {
        assert list[x] == (a + b)[x - 1] && list[y] == (a + b)[y - 1];
      }
    }
  }

  /** An expired command goes back behind those that expired before it. */
  lemma RetryMoves(channels: seq<Sending>, packets: seq<Outgoing>, reliable: seq<Outgoing>, controls: seq<Outgoing>, outgoing: seq<Outgoing>,
                   sent: seq<Outgoing>, k: nat, d: Outgoing)
    requires Shape(|channels|, controls + outgoing, packets + reliable, sent) && AllBooked(channels, sent, packets + reliable)
    requires |channels| <= NO_CHANNEL && k < |sent| && AllSent(packets) && AllSent(controls)
    requires d == sent[k].(timeout := d.timeout)
    ensures d.attempts > 0
    ensures TotalLength(sent) == TotalLength(Without(sent, k)) + d.length && (!d.hasPacket ==> d.length == 0)
    ensures d.hasPacket ==>
              && Shape(|channels|, controls + outgoing, packets + [d] + reliable, Without(sent, k))
              && AllBooked(channels, Without(sent, k), packets + [d] + reliable)
              && Ids(Without(sent, k)) + Ids(controls + outgoing) + Ids(packets + [d] + reliable) ==
                 Ids(sent) + Ids(controls + outgoing) + Ids(packets + reliable)
    ensures !d.hasPacket ==>
              && Shape(|channels|, controls + [d] + outgoing, packets + reliable, Without(sent, k))
              && AllBooked(channels, Without(sent, k), packets + reliable)
              && Ids(Without(sent, k)) + Ids(controls + [d] + outgoing) + Ids(packets + reliable) ==
                 Ids(sent) + Ids(controls + outgoing) + Ids(packets + reliable)
  {
    hide Booked, Ids, IdOf, TotalLength, CountIn, Unsent, Shape, Counts, Without, RetriesFirst;
    ShapeWithoutSent(|channels|, controls + outgoing, packets + reliable, sent, k);
    RetryShape(|channels|, packets, reliable, controls, outgoing, sent, k, d);
    WithoutIs(sent, k, 0, 0);
    SameId(sent[k], d);
    InsertIs(packets, reliable, d, 0, 0);
    InsertIs(controls, outgoing, d, 0, 0);
    OneMore(Ids(Without(sent, k)), Ids(controls + outgoing), Ids(packets + reliable), multiset{IdOf(d)});
    forall i | 0 <= i < |channels|
      ensures Booked(channels[i], i, Without(sent, k), if d.hasPacket then packets + [d] + reliable else packets + reliable)
    {
      RetryKeepsBooks(channels[i], i, packets, reliable, sent, k, d);
      if !d.hasPacket {
        ControlKeepsBooks(channels[i], i, packets + reliable, sent, k);
      }
    }
  }

  lemma RetryKeepsBooks(s: Sending, i: nat, packets: seq<Outgoing>, reliable: seq<Outgoing>, sent: seq<Outgoing>, k: nat, d: Outgoing)
    requires Booked(s, i, sent, packets + reliable) && k < |sent| && d == sent[k].(timeout := d.timeout) && d.attempts > 0
    ensures Booked(s, i, Without(sent, k), packets + [d] + reliable)
  {
    hide WindowBooked, CountIn, Unsent, Without;
    forall w | 0 <= w < WINDOWS
      ensures CountIn(Without(sent, k), i, w) + CountIn(packets + [d] + reliable, i, w) == CountIn(sent, i, w) + CountIn(packets + reliable, i, w)
    {
      WithoutIs(sent, k, i, w);
      InsertIs(packets, reliable, d, i, w);
    }
    InsertIs(packets, reliable, d, i, 0);
  }

  lemma ControlKeepsBooks(s: Sending, i: nat, waiting: seq<Outgoing>, sent: seq<Outgoing>, k: nat)
    requires Booked(s, i, sent, waiting) && k < |sent| && sent[k].channel != i
    ensures Booked(s, i, Without(sent, k), waiting)
  {
    hide WindowBooked, CountIn, Unsent, Without;
    forall w | 0 <= w < WINDOWS
      ensures CountIn(Without(sent, k), i, w) == CountIn(sent, i, w)
    {
      WithoutIs(sent, k, i, w);
    }
  }
}
