/** ENet's 16-bit reliable sequence numbers, cut into sixteen windows. Commands of a channel are
    counted here from 1 without bound; on the wire only the low sixteen bits of the count travel. */
module SequenceWindows {
  const WINDOWS := 16
  const WINDOW_SIZE := 0x1000
  const FREE_WINDOWS := 8
  const NUMBERS := 0x10000

  function Wire(n: nat): (w: nat)
    ensures w < NUMBERS
  {
    n % NUMBERS
  }

  function Window(n: nat): nat {
    n / WINDOW_SIZE
  }

  /** reliableWindow - currentWindow, as computed from two numbers on the wire. */
  function Offset(number: nat, current: nat): int {
    number / WINDOW_SIZE + (if number < current then WINDOWS else 0) - current / WINDOW_SIZE
  }

  /** The numbers that are queued rather than discarded. */
  predicate Accepts(number: nat, current: nat) {
    0 <= Offset(number, current) < FREE_WINDOWS - 1
  }

  /** The numbers that are acknowledged: all but the two windows after the accepted ones. */
  predicate Acknowledges(number: nat, current: nat) {
    !(FREE_WINDOWS - 1 <= Offset(number, current) <= FREE_WINDOWS)
  }

  lemma WireParts(n: nat)
    ensures n == n / NUMBERS * NUMBERS + Wire(n)
    ensures Window(n) == n / NUMBERS * WINDOWS + Wire(n) / WINDOW_SIZE
    ensures Wire(n) / WINDOW_SIZE == Window(n) % WINDOWS
  {
  }

  lemma SameWire(m: nat, n: nat)
    requires Wire(m) == Wire(n) && Window(m) < Window(n) + WINDOWS && Window(n) < Window(m) + WINDOWS
    ensures m == n
  {
    WireParts(m);
    WireParts(n);
    hide Wire, Window;
    assert m / NUMBERS == n / NUMBERS;
  }

  /** Less than sixteen windows ahead, the distance computed on the wire is the true one. */
  lemma OffsetAhead(n: nat, c: nat)
    requires c <= n && Window(n) < Window(c) + WINDOWS
    ensures Offset(Wire(n), Wire(c)) == Window(n) - Window(c)
  {
    WireParts(n);
    WireParts(c);
  }

  /** A number from d windows back looks 16 - d windows ahead. */
  lemma OffsetBehind(n: nat, c: nat)
    requires n < c < n + NUMBERS
    ensures Offset(Wire(n), Wire(c)) == WINDOWS - (Window(c) - Window(n))
  {
    WireParts(n);
    WireParts(c);
  }

  /** Old numbers are turned away if and only if they are at most nine windows late. */
  lemma LateIsDiscarded(n: nat, c: nat)
    requires n < c < n + NUMBERS
    ensures Accepts(Wire(n), Wire(c)) <==> Window(c) > Window(n) + 9
  {
    OffsetBehind(n, c);
  }

  /** Number 1 is taken for a new one when number 40960 was delivered last. */
  lemma TenWindowsLate()
    ensures Window(10 * WINDOW_SIZE) == Window(1) + 10 && Accepts(Wire(1), Wire(10 * WINDOW_SIZE))
  {
  }

  /** Numbers ahead: the first seven windows are queued, the next two are neither queued nor
      acknowledged. */
  lemma AheadIsSorted(n: nat, c: nat)
    requires c <= n && Window(n) <= Window(c) + FREE_WINDOWS
    ensures Accepts(Wire(n), Wire(c)) <==> Window(n) <= Window(c) + 6
    ensures Acknowledges(Wire(n), Wire(c)) <==> Window(n) <= Window(c) + 6
  {
    OffsetAhead(n, c);
  }

  /** Comparing two numbers that both lie after c by comparing their wire forms with c's. */
  predicate WireBefore(a: nat, b: nat, current: nat) {
    if b >= current then current <= a < b else a >= current || a < b
  }

  lemma WireOrder(a: nat, b: nat, c: nat)
    requires c < a < c + NUMBERS && c < b < c + NUMBERS
    ensures WireBefore(Wire(a), Wire(b), Wire(c)) <==> a < b
    ensures Wire(a) == Wire(b) <==> a == b
  {
    WireSide(a, c);
    WireSide(b, c);
    hide Wire;
  }

  /** A number up to 65535 after c is in c's round of 65536 numbers or in the next. */
  lemma WireSide(a: nat, c: nat)
    requires c < a < c + NUMBERS
    ensures Wire(a) == if Wire(a) >= Wire(c) then Wire(c) + (a - c) else Wire(c) + (a - c) - NUMBERS
  {
    WireParts(a);
    WireParts(c);
  }

  lemma WireSum(n: nat, k: nat)
    ensures (Wire(n) + k) % NUMBERS == Wire(n + k)
  {
    WireParts(n);
  }

  lemma WindowGrows(n: nat, m: nat)
    ensures n <= m ==> Window(n) <= Window(m)
    ensures Window(m) <= Window(n) + 9 ==> m < n + NUMBERS
  {
  }
}
