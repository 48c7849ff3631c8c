/** ENet's bandwidth allocator: how a host shares its outgoing and incoming bandwidth among the
    connected peers. */
module BandwidthThrottle {
  const SCALE := 32
  const U32 := 0x1_0000_0000

  /** The fields of a peer that the allocator reads and writes; an epoch is the time of the round that
      last limited the peer. */
  datatype Peer = Peer(connected: bool, incomingBandwidth: nat, outgoingBandwidth: nat,
                       incomingDataTotal: nat, outgoingDataTotal: nat,
                       packetThrottle: nat, packetThrottleLimit: nat,
                       incomingEpoch: nat, outgoingEpoch: nat)

  /** What a peer can take in the elapsed milliseconds. */
  function PeerBandwidth(p: Peer, elapsed: nat): nat {
    p.incomingBandwidth * elapsed / 1000
  }

  /** Subtraction of 32-bit words. */
  function Sub32(a: nat, b: nat): (r: nat)
    ensures r < U32
  {
    (a - b) % U32
  }

  /** Connected and not limited in this round. */
  predicate Unlimited(p: Peer, now: nat) {
    p.connected && p.outgoingEpoch != now
  }

  predicate Limited(p: Peer, now: nat) {
    p.connected && p.outgoingEpoch == now
  }

  function OpenData(ps: seq<Peer>, now: nat): nat {
    if ps == [] then 0
    else OpenData(ps[..|ps| - 1], now) + if Unlimited(ps[|ps| - 1], now) then ps[|ps| - 1].outgoingDataTotal else 0
  }

  function OpenCount(ps: seq<Peer>, now: nat): nat {
    if ps == [] then 0
    else OpenCount(ps[..|ps| - 1], now) + if Unlimited(ps[|ps| - 1], now) then 1 else 0
  }

  /** The bandwidth given to the limited peers. */
  function Spent(ps: seq<Peer>, now: nat, elapsed: nat): nat {
    if ps == [] then 0
    else Spent(ps[..|ps| - 1], now, elapsed) + if Limited(ps[|ps| - 1], now) then PeerBandwidth(ps[|ps| - 1], elapsed) else 0
  }

  lemma {:induction false} LimitOne(ps: seq<Peer>, i: nat, q: Peer, now: nat, elapsed: nat)
    requires i < |ps| && Unlimited(ps[i], now) && Limited(q, now) && q.incomingBandwidth == ps[i].incomingBandwidth
    ensures OpenData(ps[i := q], now) == OpenData(ps, now) - ps[i].outgoingDataTotal
    ensures OpenCount(ps[i := q], now) == OpenCount(ps, now) - 1
    ensures Spent(ps[i := q], now, elapsed) == Spent(ps, now, elapsed) + PeerBandwidth(q, elapsed)
  {
    hide PeerBandwidth;
    var n := |ps| - 1;
    if i == n {
      assert ps[i := q][..n] == ps[..n];
    } else {
      LimitOne(ps[..n], i, q, now, elapsed);
      assert ps[i := q][..n] == ps[..n][i := q];
    }
    SameBandwidth(ps[i], q, elapsed);
  }

  lemma SameBandwidth(p: Peer, q: Peer, elapsed: nat)
    ensures p.incomingBandwidth == q.incomingBandwidth ==> PeerBandwidth(p, elapsed) == PeerBandwidth(q, elapsed)
  {
  }

  // --------------------------------------------------------------- arithmetic

  /** throttle: the part of the waiting data, in 32nds, that fits the bandwidth. */
  function Level(bandwidth: nat, dataTotal: nat): (t: nat)
    ensures t <= SCALE
  {
    if dataTotal <= bandwidth then SCALE
    else
      QuotientBelow(bandwidth * SCALE, dataTotal, SCALE);
      bandwidth * SCALE / dataTotal
  }

  lemma LevelOfSame(x: nat)
    ensures Level(x, x) == SCALE
  {
  }

  /** No higher level fits. */
  lemma LevelIsLargest(bandwidth: nat, dataTotal: nat)
    ensures var t := Level(bandwidth, dataTotal); t == SCALE || (t + 1) * dataTotal > SCALE * bandwidth
  {
    if dataTotal > bandwidth {
      var q, r := bandwidth * SCALE / dataTotal, bandwidth * SCALE % dataTotal;
      assert bandwidth * SCALE == q * dataTotal + r;
      assert (q + 1) * dataTotal == q * dataTotal + dataTotal;
    }
  }

  lemma LevelOfAll(t: nat, budget: nat, data: nat)
    requires t <= SCALE && data <= budget && (t == SCALE || (t + 1) * data > SCALE * budget)
    ensures t == SCALE
  {
    TimesAtMost(t + 1, SCALE, data);
  }

  lemma TimesAtMost(a: nat, b: nat, c: nat)
    ensures a <= b ==> a * c <= b * c
  {
  }

  lemma QuotientBelow(x: nat, d: nat, bound: nat)
    requires 0 < d && x < bound * d
    ensures x / d < bound
  {
    var q := x / d;
    assert x == q * d + x % d;
    assert q * d == bound * d + (q - bound) * d;
    assert q >= bound ==> (q - bound) * d >= 0;
  }

  /** At the start of a pass the level fits the bandwidth. */
  lemma LevelFits(bandwidth: nat, dataTotal: nat, open: nat)
    requires open <= dataTotal
    ensures Level(bandwidth, dataTotal) * open <= SCALE * bandwidth
  {
    var t := Level(bandwidth, dataTotal);
    assert t * open <= t * dataTotal;
    if dataTotal > bandwidth {
      assert t * dataTotal <= bandwidth * SCALE;
    }
  }

  /** Limiting one peer keeps what is left enough for the others at the same level. */
  lemma LimitFits(t: nat, data: nat, open: nat, bandwidth: nat, taken: nat)
    requires t <= SCALE && data <= open && t * open <= SCALE * bandwidth && t * data / SCALE > taken
    ensures taken < data && taken <= bandwidth && t * (open - data) <= SCALE * (bandwidth - taken)
  {
    assert t * (open - data) == t * open - t * data;
    assert t * data <= SCALE * data;
    assert t * (open - data) >= 0;
  }

  /** The limit of one peer. */
  function Cap(bandwidth: nat, data: nat): (c: nat)
    requires 0 < data
  {
    var c := bandwidth * SCALE / data;
    if c == 0 then 1 else c
  }

  lemma CapBelow(bandwidth: nat, data: nat)
    requires bandwidth < data
    ensures 1 <= Cap(bandwidth, data) <= SCALE
  {
    QuotientBelow(bandwidth * SCALE, data, SCALE);
  }

  /** A limited peer keeps within its bandwidth if and only if it has less than 32 times that waiting,
      rounded up: the limit is never less than 1. */
  lemma CapKeeps(bandwidth: nat, data: nat)
    requires bandwidth < data
    ensures Cap(bandwidth, data) * data / SCALE <= bandwidth <==> data < SCALE * (bandwidth + 1)
  {
    var c := bandwidth * SCALE / data;
    assert c * data <= bandwidth * SCALE;
    if c == 0 {
      assert Cap(bandwidth, data) * data == data;
    } else {
      assert c * data >= data;
    }
  }

  /** The limit is the largest that keeps the peer within its bandwidth, or 1 if none does. */
  lemma CapIsLargest(bandwidth: nat, data: nat)
    requires 0 < data
    ensures var c := Cap(bandwidth, data);
            0 < c && (c + 1) * data > SCALE * bandwidth && (c * data <= SCALE * bandwidth || c == 1)
  {
    var q, r := bandwidth * SCALE / data, bandwidth * SCALE % data;
    assert bandwidth * SCALE == q * data + r;
    assert (q + 1) * data == q * data + data;
    assert q == 0 ==> (Cap(bandwidth, data) + 1) * data == data + data;
  }

  /** With 1000 bytes waiting a peer that can take 1 is let through 31. */
  lemma CapExceeds()
    ensures Cap(1, 1000) * 1000 / SCALE == 31
  {
  }

  // ------------------------------------------------------- outgoing bandwidth

  /** A peer after it was limited in this round. */
  function LimitPeer(p: Peer, now: nat, elapsed: nat): Peer
    requires 0 < p.outgoingDataTotal
  {
    var cap := Cap(PeerBandwidth(p, elapsed), p.outgoingDataTotal);
    p.(packetThrottleLimit := cap, packetThrottle := if p.packetThrottle > cap then cap else p.packetThrottle,
       outgoingEpoch := now, incomingDataTotal := 0, outgoingDataTotal := 0)
  }

  /** A peer that shares what is left. */
  function SharePeer(p: Peer, throttle: nat): Peer {
    p.(packetThrottleLimit := throttle, packetThrottle := if p.packetThrottle > throttle then throttle else p.packetThrottle,
       incomingDataTotal := 0, outgoingDataTotal := 0)
  }

  /** Whether a pass at this level limits the peer. */
  predicate NeedsLimit(p: Peer, throttle: nat, now: nat, elapsed: nat) {
    Unlimited(p, now) && p.incomingBandwidth != 0 && throttle * p.outgoingDataTotal / SCALE > PeerBandwidth(p, elapsed)
  }

  /** What the limit that is set lets through of a peer's waiting data. */
  function Share(before: Peer, after: Peer): nat {
    if before.connected then after.packetThrottleLimit * before.outgoingDataTotal / SCALE else 0
  }

  function Shares(before: seq<Peer>, after: seq<Peer>): nat
    requires |before| == |after|
  {
    if before == [] then 0
    else Shares(before[..|before| - 1], after[..|after| - 1]) + Share(before[|before| - 1], after[|after| - 1])
  }

  /** What the allocator sets aside for a peer: all its own bandwidth if it is limited. */
  function Aside(before: Peer, after: Peer, now: nat, elapsed: nat): nat {
    if Limited(after, now) then PeerBandwidth(before, elapsed) else Share(before, after)
  }

  function SetAside(before: seq<Peer>, after: seq<Peer>, now: nat, elapsed: nat): nat
    requires |before| == |after|
  {
    if before == [] then 0
    else SetAside(before[..|before| - 1], after[..|after| - 1], now, elapsed)
         + Aside(before[|before| - 1], after[|after| - 1], now, elapsed)
  }

  /** The level of the first pass. */
  function FirstLevel(ps: seq<Peer>, now: nat, elapsed: nat, outgoingBandwidth: nat): (t: nat)
    ensures t <= SCALE
  {
    if outgoingBandwidth == 0 then SCALE else Level(outgoingBandwidth * elapsed / 1000, OpenData(ps, now))
  }

  /** What the passes may do to a peer; `top` is the level of the first. */
  predicate Passed(before: Peer, after: Peer, top: nat, now: nat, elapsed: nat) {
    || after == before
    || (&& NeedsLimit(before, top, now, elapsed)
        && PeerBandwidth(before, elapsed) < before.outgoingDataTotal && after == LimitPeer(before, now, elapsed))
  }

  predicate AllPassed(before: seq<Peer>, after: seq<Peer>, top: nat, now: nat, elapsed: nat) {
    |before| == |after| && forall i :: 0 <= i < |before| ==> Passed(before[i], after[i], top, now, elapsed)
  }

  /** No peer is left that a pass at this level would limit. */
  predicate NoneNeeds(ps: seq<Peer>, throttle: nat, now: nat, elapsed: nat) {
    forall i :: 0 <= i < |ps| ==> !NeedsLimit(ps[i], throttle, now, elapsed)
  }

  lemma NeedsLess(p: Peer, throttle: nat, top: nat, now: nat, elapsed: nat)
    requires throttle <= top && NeedsLimit(p, throttle, now, elapsed)
    ensures NeedsLimit(p, top, now, elapsed)
  {
    LessData(throttle, top, p.outgoingDataTotal);
  }

  lemma LessData(t: nat, top: nat, data: nat)
    requires t <= top
    ensures t * data / SCALE <= top * data / SCALE
  {
    assert t * data <= top * data;
  }

  /** With a limit on the host's bandwidth, what is left and what was given make up the budget and the
      data still to share is counted; without one, data and bandwidth stay equal. */
  predicate Balanced(ps: seq<Peer>, now: nat, elapsed: nat, budget: nat, bandwidth: nat, dataTotal: nat, host: bool) {
    if host then OpenData(ps, now) <= dataTotal && Spent(ps, now, elapsed) + bandwidth == budget
    else dataTotal == bandwidth
  }

  /** The state between two peers of a pass: what is left is enough for the unlimited peers. */
  predicate PassInv(ps: seq<Peer>, now: nat, elapsed: nat, budget: nat, throttle: nat, bandwidth: nat, dataTotal: nat, host: bool) {
    && throttle <= SCALE && Balanced(ps, now, elapsed, budget, bandwidth, dataTotal, host)
    && Level(bandwidth, dataTotal) <= throttle
    && if host then throttle * OpenData(ps, now) <= SCALE * bandwidth else throttle == SCALE
  }

  lemma PassStart(ps: seq<Peer>, now: nat, elapsed: nat, budget: nat, bandwidth: nat, dataTotal: nat, host: bool)
    requires Balanced(ps, now, elapsed, budget, bandwidth, dataTotal, host)
    ensures PassInv(ps, now, elapsed, budget, Level(bandwidth, dataTotal), bandwidth, dataTotal, host)
  {
    if host {
      LevelFits(bandwidth, dataTotal, OpenData(ps, now));
    }
  }

  lemma {:induction false} LimitKeeps(ps: seq<Peer>, i: nat, now: nat, elapsed: nat, budget: nat, throttle: nat, bandwidth: nat, dataTotal: nat, host: bool)
    requires i < |ps| && NeedsLimit(ps[i], throttle, now, elapsed) && PassInv(ps, now, elapsed, budget, throttle, bandwidth, dataTotal, host)
    requires bandwidth < U32 && dataTotal < U32
    ensures var taken := PeerBandwidth(ps[i], elapsed);
            && taken < ps[i].outgoingDataTotal
            && (host ==> taken <= bandwidth && taken <= dataTotal)
            && (host ==> Sub32(dataTotal, taken) - Sub32(bandwidth, taken) == dataTotal - bandwidth)
            && PassInv(ps[i := LimitPeer(ps[i], now, elapsed)], now, elapsed, budget, throttle, Sub32(bandwidth, taken), Sub32(dataTotal, taken), host)
    ensures OpenCount(ps[i := LimitPeer(ps[i], now, elapsed)], now) == OpenCount(ps, now) - 1
  {
    hide PeerBandwidth, OpenData, OpenCount, Spent, Cap;
    var taken, data := PeerBandwidth(ps[i], elapsed), ps[i].outgoingDataTotal;
    TakenBelow(throttle, data, taken);
    var q := LimitPeer(ps[i], now, elapsed);
    SameBandwidth(ps[i], q, elapsed);
    LimitOne(ps, i, q, now, elapsed);
    if host {
      LimitFits(throttle, data, OpenData(ps, now), bandwidth, taken);
      DataBelowTotal(ps, i, now);
      LevelFalls(bandwidth, dataTotal, taken);
    }
  }

  /** Setting aside what one peer can take never raises the level. */
  lemma LevelFalls(bandwidth: nat, dataTotal: nat, taken: nat)
    requires taken <= bandwidth && taken < dataTotal
    ensures Level(bandwidth - taken, dataTotal - taken) <= Level(bandwidth, dataTotal)
  {
    if bandwidth < dataTotal {
      var b, d := bandwidth - taken, dataTotal - taken;
      var t := b * SCALE / d;
      assert t * d <= b * SCALE;
      assert t <= SCALE;
      assert t * dataTotal == t * d + t * taken;
      assert t * taken <= SCALE * taken;
      assert t * dataTotal <= bandwidth * SCALE;
      QuotientAtLeast(t, bandwidth * SCALE, dataTotal);
    }
  }

  lemma QuotientAtLeast(t: nat, x: nat, d: nat)
    requires 0 < d && t * d <= x
    ensures t <= x / d
  {
    var q := x / d;
    assert x == q * d + x % d;
    assert q < t ==> (q + 1) * d <= t * d;
  }

  /** The limit that is set is not above the level that the peer exceeded. */
  lemma CapAtMost(taken: nat, data: nat, t: nat)
    requires 0 < data && t * data / SCALE > taken
    ensures Cap(taken, data) <= t
  {
    assert taken * SCALE < t * data;
    QuotientBelow(taken * SCALE, data, t);
    assert t != 0;
  }

  lemma TakenBelow(t: nat, data: nat, taken: nat)
    requires t <= SCALE && t * data / SCALE > taken
    ensures taken < data
  {
    assert t * data <= SCALE * data;
  }

  /** The sums of the source fit 32 bits: every product that is formed does. */
  predicate NoOverflow(ps: seq<Peer>, now: nat, elapsed: nat, outgoingBandwidth: nat) {
    && outgoingBandwidth * elapsed < U32 && OpenData(ps, now) * SCALE < U32
    && forall i :: 0 <= i < |ps| ==> ps[i].incomingBandwidth * elapsed < U32
  }

  /** No peer was limited in this round yet. */
  predicate NoneLimited(ps: seq<Peer>, now: nat) {
    forall i :: 0 <= i < |ps| ==> !Limited(ps[i], now)
  }

  /** The first loop: what all connected peers have waiting. */
  method SumData(peers: array<Peer>, now: nat) returns (dataTotal: nat)
    requires NoneLimited(peers[..], now)
    ensures dataTotal == OpenData(peers[..], now)
  {
    dataTotal := 0;
    for i := 0 to peers.Length
      invariant dataTotal == OpenData(peers[..i], now)
    {
      assert peers[..i + 1][..i] == peers[..i] && !Limited(peers[..][i], now);
      if !peers[i].connected {
        continue;
      }
      dataTotal := dataTotal + peers[i].outgoingDataTotal;
    }
    assert peers[..peers.Length] == peers[..];
  }

  /** The fields of a peer that a limit changes. */
  method WithLimit(peer: Peer, peerBandwidth: nat, now: nat, elapsed: nat) returns (p: Peer)
    requires 0 < peer.outgoingDataTotal && peerBandwidth == PeerBandwidth(peer, elapsed)
    ensures p == LimitPeer(peer, now, elapsed)
  {
    p := peer.(packetThrottleLimit := peerBandwidth * SCALE / peer.outgoingDataTotal);
    if p.packetThrottleLimit == 0 {
      p := p.(packetThrottleLimit := 1);
    }
    if p.packetThrottle > p.packetThrottleLimit {
      p := p.(packetThrottle := p.packetThrottleLimit);
    }
    p := p.(outgoingEpoch := now);
    p := p.(incomingDataTotal := 0, outgoingDataTotal := 0);
  }

  /** One pass over the peers at one level. */
  method Pass(peers: array<Peer>, now: nat, elapsed: nat, throttle: nat, bandwidth0: nat, dataTotal0: nat, remaining0: nat,
              ghost before: seq<Peer>, ghost top: nat, ghost budget: nat, ghost host: bool)
    returns (adjusted: bool, bandwidth: nat, dataTotal: nat, remaining: nat)
    requires PassInv(peers[..], now, elapsed, budget, throttle, bandwidth0, dataTotal0, host) && AllPassed(before, peers[..], top, now, elapsed)
    requires remaining0 == OpenCount(peers[..], now) && bandwidth0 < U32 && dataTotal0 < U32 && throttle <= top <= SCALE
    modifies peers
    ensures PassInv(peers[..], now, elapsed, budget, throttle, bandwidth, dataTotal, host) && AllPassed(before, peers[..], top, now, elapsed)
    ensures remaining == OpenCount(peers[..], now) && bandwidth < U32 && dataTotal < U32
    ensures adjusted ==> remaining < remaining0
    ensures !adjusted ==> bandwidth == bandwidth0 && dataTotal == dataTotal0 && remaining == remaining0 && peers[..] == old(peers[..])
    ensures NoneNeeds(peers[..], throttle, now, elapsed)
    ensures NoneNeeds(old(peers[..]), throttle, now, elapsed) ==> !adjusted
    ensures host ==> dataTotal - bandwidth == dataTotal0 - bandwidth0
  {
    hide PassInv, OpenCount, NeedsLimit, LimitPeer, Sub32;
    adjusted, bandwidth, dataTotal, remaining := false, bandwidth0, dataTotal0, remaining0;
    for i := 0 to peers.Length
      invariant PassInv(peers[..], now, elapsed, budget, throttle, bandwidth, dataTotal, host) && AllPassed(before, peers[..], top, now, elapsed)
      invariant remaining == OpenCount(peers[..], now) && bandwidth < U32 && dataTotal < U32
      invariant remaining <= remaining0 && (adjusted ==> remaining < remaining0)
      invariant !adjusted ==> bandwidth == bandwidth0 && dataTotal == dataTotal0 && remaining == remaining0 && peers[..] == old(peers[..])
      invariant forall k :: 0 <= k < i ==> !NeedsLimit(peers[k], throttle, now, elapsed)
      invariant NoneNeeds(old(peers[..]), throttle, now, elapsed) ==> !adjusted
      invariant host ==> dataTotal - bandwidth == dataTotal0 - bandwidth0
    {
      ghost var ps := peers[..];
      assert ps[i] == peers[i];
      NeedsLimitIs(peers[i], throttle, now, elapsed);
      if !peers[i].connected || peers[i].incomingBandwidth == 0 || peers[i].outgoingEpoch == now {
        continue;
      }
      var peerBandwidth := peers[i].incomingBandwidth * elapsed / 1000;
      if throttle * peers[i].outgoingDataTotal / SCALE <= peerBandwidth {
        continue;
      }
      LimitKeeps(ps, i, now, elapsed, budget, throttle, bandwidth, dataTotal, host);
      LimitPasses(before[i], ps[i], throttle, top, now, elapsed);
      LimitedNeedsNone(ps[i], throttle, now, elapsed);
      var limited := WithLimit(peers[i], peerBandwidth, now, elapsed);
      peers[i] := limited;
      assert peers[..] == ps[i := LimitPeer(ps[i], now, elapsed)];
      adjusted := true;
      remaining := remaining - 1;
      bandwidth := Sub32(bandwidth, peerBandwidth);
      dataTotal := Sub32(dataTotal, peerBandwidth);
    }
  }

  lemma NeedsLimitIs(p: Peer, throttle: nat, now: nat, elapsed: nat)
    ensures NeedsLimit(p, throttle, now, elapsed) <==>
            p.connected && p.incomingBandwidth != 0 && p.outgoingEpoch != now
            && throttle * p.outgoingDataTotal / SCALE > p.incomingBandwidth * elapsed / 1000
  {
  }

  lemma LimitPasses(before: Peer, p: Peer, throttle: nat, top: nat, now: nat, elapsed: nat)
    requires throttle <= top <= SCALE && NeedsLimit(p, throttle, now, elapsed) && Passed(before, p, top, now, elapsed)
    ensures p == before && 0 < p.outgoingDataTotal && Passed(before, LimitPeer(p, now, elapsed), top, now, elapsed)
  {
    NeedsLess(p, throttle, top, now, elapsed);
    TakenBelow(throttle, p.outgoingDataTotal, PeerBandwidth(p, elapsed));
  }

  lemma LimitedNeedsNone(p: Peer, throttle: nat, now: nat, elapsed: nat)
    requires 0 < p.outgoingDataTotal
    ensures !NeedsLimit(LimitPeer(p, now, elapsed), throttle, now, elapsed)
  {
  }

  /** What the last loop does to a peer. */
  function Settled(p: Peer, throttle: nat, now: nat): Peer {
    if Unlimited(p, now) then SharePeer(p, throttle) else p
  }

  /** A peer after the round: limited by itself, or sharing at the common level. */
  predicate Rounded(before: Peer, after: Peer, throttle: nat, now: nat, elapsed: nat) {
    if !before.connected then after == before
    else
      || after == SharePeer(before, throttle)
      || (&& before.incomingBandwidth != 0 && PeerBandwidth(before, elapsed) < before.outgoingDataTotal
          && after == LimitPeer(before, now, elapsed))
  }

  lemma RoundedBounds(before: Peer, after: Peer, throttle: nat, now: nat, elapsed: nat)
    requires Rounded(before, after, throttle, now, elapsed) && throttle <= SCALE && before.connected
    ensures after.packetThrottle == Min(before.packetThrottle, after.packetThrottleLimit) && after.packetThrottleLimit <= SCALE
    ensures after.incomingDataTotal == after.outgoingDataTotal == 0
    ensures !Limited(before, now) && !Limited(after, now) ==> after.packetThrottleLimit == throttle
  {
    if after != SharePeer(before, throttle) {
      CapBelow(PeerBandwidth(before, elapsed), before.outgoingDataTotal);
    }
  }

  lemma {:induction false} NoneSpent(ps: seq<Peer>, now: nat, elapsed: nat)
    requires NoneLimited(ps, now)
    ensures Spent(ps, now, elapsed) == 0
  {
    if ps != [] {
      assert !Limited(ps[|ps| - 1], now);
      assert forall i :: 0 <= i < |ps| - 1 ==> ps[..|ps| - 1][i] == ps[i];
      NoneSpent(ps[..|ps| - 1], now, elapsed);
    }
  }

  lemma {:induction false} OpenDataBelow(ps: seq<Peer>, now: nat)
    requires OpenCount(ps, now) == 0
    ensures forall i :: 0 <= i < |ps| ==> !Unlimited(ps[i], now)
  {
    if ps != [] {
      OpenDataBelow(ps[..|ps| - 1], now);
      assert forall i :: 0 <= i < |ps| - 1 ==> ps[..|ps| - 1][i] == ps[i];
    }
  }

  /** What is set aside for the limited peers and what the others take at the common level. */
  lemma {:induction false} SetAsideFits(before: seq<Peer>, mid: seq<Peer>, after: seq<Peer>, throttle: nat, top: nat, now: nat, elapsed: nat)
    requires NoneLimited(before, now) && AllPassed(before, mid, top, now, elapsed) && |after| == |mid|
    requires forall i :: 0 <= i < |mid| ==> after[i] == Settled(mid[i], throttle, now)
    ensures SCALE * SetAside(before, after, now, elapsed) <= SCALE * Spent(mid, now, elapsed) + throttle * OpenData(mid, now)
  {
    if mid != [] {
      hide PeerBandwidth, LimitPeer, NeedsLimit;
      var n := |mid| - 1;
      forall i | 0 <= i < n
        ensures before[..n][i] == before[i] && Passed(before[i], mid[..n][i], top, now, elapsed) && after[..n][i] == Settled(mid[..n][i], throttle, now)
      {
        assert mid[..n][i] == mid[i];
      }
      SetAsideFits(before[..n], mid[..n], after[..n], throttle, top, now, elapsed);
      AsideFits(before[n], mid[n], throttle, top, now, elapsed);
      TimesSum(throttle, OpenData(mid[..n], now), if Unlimited(mid[n], now) then mid[n].outgoingDataTotal else 0);
    }
  }

  /** No limit is above `top`. */
  predicate AllAtMost(before: seq<Peer>, after: seq<Peer>, top: nat) {
    |before| == |after| && forall i :: 0 <= i < |before| && before[i].connected ==> after[i].packetThrottleLimit <= top
  }

  /** What limits of at most `top` let through is what that level lets through. */
  lemma {:induction false} SharesFit(before: seq<Peer>, after: seq<Peer>, top: nat, now: nat)
    requires NoneLimited(before, now) && AllAtMost(before, after, top)
    ensures SCALE * Shares(before, after) <= top * OpenData(before, now)
  {
    if before != [] {
      var n := |before| - 1;
      forall i | 0 <= i < n
        ensures before[..n][i] == before[i] && after[..n][i] == after[i]
      {
      }
      SharesFit(before[..n], after[..n], top, now);
      assert !Limited(before[n], now);
      ShareFits(before[n], after[n], top);
      TimesSum(top, OpenData(before[..n], now), if Unlimited(before[n], now) then before[n].outgoingDataTotal else 0);
    }
  }

  lemma ShareFits(before: Peer, after: Peer, top: nat)
    requires before.connected ==> after.packetThrottleLimit <= top
    ensures SCALE * Share(before, after) <= top * (if before.connected then before.outgoingDataTotal else 0)
  {
    if before.connected {
      assert after.packetThrottleLimit * before.outgoingDataTotal <= top * before.outgoingDataTotal;
    }
  }

  lemma TimesSum(t: nat, x: nat, y: nat)
    ensures t * (x + y) == t * x + t * y
  {
  }

  lemma AsideFits(before: Peer, mid: Peer, throttle: nat, top: nat, now: nat, elapsed: nat)
    requires !Limited(before, now) && Passed(before, mid, top, now, elapsed)
    ensures SCALE * Aside(before, Settled(mid, throttle, now), now, elapsed) <=
            SCALE * (if Limited(mid, now) then PeerBandwidth(mid, elapsed) else 0)
            + throttle * (if Unlimited(mid, now) then mid.outgoingDataTotal else 0)
  {
    hide PeerBandwidth;
    SameBandwidth(before, mid, elapsed);
  }

  /** enet_host_bandwidth_throttle, outgoing half, once a round is due and some peer is connected. The
      first pass limits exactly the peers that exceed their own bandwidth at its level; the level falls
      by that, so a second pass limits nobody. */
  method ThrottleOutgoing(peers: array<Peer>, now: nat, elapsed: nat, outgoingBandwidth: nat, limitedPeers: nat, connectedPeers: nat)
    returns (throttle: nat, ghost passes: nat)
    requires NoneLimited(peers[..], now) && 0 < connectedPeers == OpenCount(peers[..], now)
    requires NoOverflow(peers[..], now, elapsed, outgoingBandwidth)
    modifies peers
    ensures passes <= 2 && (outgoingBandwidth == 0 ==> throttle == SCALE)
    ensures throttle <= FirstLevel(old(peers[..]), now, elapsed, outgoingBandwidth)
    ensures forall i :: 0 <= i < peers.Length ==> Rounded(old(peers[..])[i], peers[i], throttle, now, elapsed)
    ensures forall i :: 0 <= i < peers.Length ==>
              (Limited(peers[i], now) <==>
                limitedPeers > 0 && NeedsLimit(old(peers[..])[i], FirstLevel(old(peers[..]), now, elapsed, outgoingBandwidth), now, elapsed))
    ensures AllAtMost(old(peers[..]), peers[..], FirstLevel(old(peers[..]), now, elapsed, outgoingBandwidth))
    ensures outgoingBandwidth != 0 ==>
              && Shares(old(peers[..]), peers[..]) <= outgoingBandwidth * elapsed / 1000
              && SetAside(old(peers[..]), peers[..], now, elapsed) <= outgoingBandwidth * elapsed / 1000
    ensures outgoingBandwidth != 0 && (exists i :: 0 <= i < peers.Length && Unlimited(peers[i], now)) ==>
              var spent := Spent(peers[..], now, elapsed);
              throttle == SCALE || (throttle + 1) * (OpenData(old(peers[..]), now) - spent) > SCALE * (outgoingBandwidth * elapsed / 1000 - spent)
    ensures NoneLimited(peers[..], now) && (outgoingBandwidth != 0 ==> OpenData(old(peers[..]), now) <= outgoingBandwidth * elapsed / 1000) ==>
              forall i :: 0 <= i < peers.Length && peers[i].connected ==>
                peers[i].packetThrottleLimit == SCALE && peers[i].packetThrottle == Min(old(peers[..])[i].packetThrottle, SCALE)
  {
    hide OpenCount, LimitPeer, Passed, Shares, SetAside, OpenData, Spent, Level, Rounded, NeedsLimit, NoneNeeds, AllAtMost;
    ghost var before := peers[..];
    var remaining: nat, dataTotal: nat, bandwidth: nat := connectedPeers, U32 - 1, U32 - 1;
    var needsAdjustment := limitedPeers > 0;
    ghost var host, budget := outgoingBandwidth != 0, outgoingBandwidth * elapsed / 1000;
    ghost var top := FirstLevel(before, now, elapsed, outgoingBandwidth);
    if outgoingBandwidth != 0 {
      dataTotal := SumData(peers, now);
      bandwidth := outgoingBandwidth * elapsed / 1000;
    }
    NoneSpent(before, now, elapsed);
    LevelOfSame(U32 - 1);
    AllUnchanged(before, top, now, elapsed);
    throttle, passes := 0, 0;
    while remaining > 0 && needsAdjustment
      invariant Balanced(peers[..], now, elapsed, budget, bandwidth, dataTotal, host) && AllPassed(before, peers[..], top, now, elapsed)
      invariant remaining == OpenCount(peers[..], now) && bandwidth < U32 && dataTotal < U32
      invariant throttle <= top && Level(bandwidth, dataTotal) <= top
      invariant !host && remaining < connectedPeers ==> throttle == SCALE
      invariant if limitedPeers == 0 || passes == 0 then peers[..] == before && needsAdjustment == (limitedPeers > 0) && passes == 0
                else NoneNeeds(peers[..], top, now, elapsed)
      invariant passes == 0 ==> top == Level(bandwidth, dataTotal)
      invariant passes <= 2 && (passes == 2 ==> !needsAdjustment)
      invariant host ==> dataTotal - bandwidth == OpenData(before, now) - budget
      decreases remaining, needsAdjustment
    {
      PassStart(peers[..], now, elapsed, budget, bandwidth, dataTotal, host);
      throttle := Level(bandwidth, dataTotal);
      if passes > 0 {
        NoneNeedsLess(peers[..], throttle, top, now, elapsed);
      }
      needsAdjustment, bandwidth, dataTotal, remaining :=
        Pass(peers, now, elapsed, throttle, bandwidth, dataTotal, remaining, before, top, budget, host);
      passes := passes + 1;
    }
    ghost var mid := peers[..];
    if remaining > 0 {
      throttle := Level(bandwidth, dataTotal);
      PassStart(mid, now, elapsed, budget, bandwidth, dataTotal, host);
      Settle(peers, now, throttle);
    } else {
      OpenDataBelow(mid, now);
      NoOpenData(mid, now);
    }
    ghost var after := peers[..];
    assert forall i :: 0 <= i < |mid| ==> after[i] == Settled(mid[i], throttle, now);
    AllRound(before, mid, after, throttle, top, limitedPeers > 0, now, elapsed);
    SetAsideFits(before, mid, after, throttle, top, now, elapsed);
    SharesFit(before, after, top, now);
    if host {
      LevelFits(budget, OpenData(before, now), OpenData(before, now));
    }
    LevelIsLargest(bandwidth, dataTotal);
    SettledSpend(mid, after, throttle, now, elapsed);
    RoundShares(before, mid, after, throttle, top, host, budget, now, elapsed);
  }

  lemma {:induction false} SettledSpend(mid: seq<Peer>, after: seq<Peer>, throttle: nat, now: nat, elapsed: nat)
    requires |mid| == |after| && forall i :: 0 <= i < |mid| ==> after[i] == Settled(mid[i], throttle, now)
    ensures Spent(after, now, elapsed) == Spent(mid, now, elapsed)
    ensures forall i :: 0 <= i < |mid| && Unlimited(after[i], now) ==> Unlimited(mid[i], now)
  {
    if mid != [] {
      hide PeerBandwidth;
      var n := |mid| - 1;
      forall i | 0 <= i < n
        ensures after[..n][i] == Settled(mid[..n][i], throttle, now)
      {
        assert after[i] == Settled(mid[i], throttle, now);
      }
      SettledSpend(mid[..n], after[..n], throttle, now, elapsed);
      SameBandwidth(mid[n], after[n], elapsed);
    }
  }

  /** If no peer is limited and all data fits, each peer may send all of it. */
  lemma RoundShares(before: seq<Peer>, mid: seq<Peer>, after: seq<Peer>, throttle: nat, top: nat, host: bool, budget: nat, now: nat, elapsed: nat)
    requires NoneLimited(before, now) && |before| == |mid| == |after| && throttle <= top <= SCALE
    requires forall i :: 0 <= i < |before| ==> Rounded(before[i], after[i], throttle, now, elapsed)
    requires host ==> (exists i :: 0 <= i < |after| && Unlimited(after[i], now)) ==>
               throttle == SCALE || (throttle + 1) * (OpenData(before, now) - Spent(after, now, elapsed)) > SCALE * (budget - Spent(after, now, elapsed))
    requires !host ==> throttle == SCALE
    ensures NoneLimited(after, now) && (host ==> OpenData(before, now) <= budget) ==>
              forall i :: 0 <= i < |after| && after[i].connected ==>
                after[i].packetThrottleLimit == SCALE && after[i].packetThrottle == Min(before[i].packetThrottle, SCALE)
  {
    if NoneLimited(after, now) && (host ==> OpenData(before, now) <= budget) {
      hide OpenData, Spent, Rounded;
      NoneSpent(after, now, elapsed);
      forall i | 0 <= i < |after| && after[i].connected
        ensures after[i].packetThrottleLimit == SCALE && after[i].packetThrottle == Min(before[i].packetThrottle, SCALE)
      {
        assert !Limited(after[i], now) && !Limited(before[i], now) && Rounded(before[i], after[i], throttle, now, elapsed);
        if host {
          LevelOfAll(throttle, budget, OpenData(before, now));
        }
        StillConnected(before[i], after[i], throttle, now, elapsed);
        RoundedBounds(before[i], after[i], throttle, now, elapsed);
      }
    }
  }

  lemma StillConnected(before: Peer, after: Peer, throttle: nat, now: nat, elapsed: nat)
    requires Rounded(before, after, throttle, now, elapsed)
    ensures before.connected == after.connected
  {
  }

  /** What the passes and the last loop amount to for each peer. */
  lemma AllRound(before: seq<Peer>, mid: seq<Peer>, after: seq<Peer>, throttle: nat, top: nat, limiting: bool, now: nat, elapsed: nat)
    requires NoneLimited(before, now) && AllPassed(before, mid, top, now, elapsed) && |after| == |mid| && throttle <= top <= SCALE
    requires forall i :: 0 <= i < |mid| ==> after[i] == Settled(mid[i], throttle, now)
    requires if limiting then NoneNeeds(mid, top, now, elapsed) else mid == before
    ensures forall i :: 0 <= i < |before| ==> Rounded(before[i], after[i], throttle, now, elapsed)
    ensures forall i :: 0 <= i < |before| ==> (Limited(after[i], now) <==> limiting && NeedsLimit(before[i], top, now, elapsed))
    ensures AllAtMost(before, after, top)
  {
    hide Passed, Rounded, NeedsLimit, Limited, Settled;
    forall i | 0 <= i < |before|
      ensures Rounded(before[i], after[i], throttle, now, elapsed)
      ensures before[i].connected ==> after[i].packetThrottleLimit <= top
      ensures Limited(after[i], now) <==> limiting && NeedsLimit(before[i], top, now, elapsed)
    {
      assert !Limited(before[i], now) && Passed(before[i], mid[i], top, now, elapsed);
      RoundIs(before[i], mid[i], throttle, top, limiting, now, elapsed);
    }
  }

  lemma NoOpenData(ps: seq<Peer>, now: nat)
    requires forall i :: 0 <= i < |ps| ==> !Unlimited(ps[i], now)
    ensures OpenData(ps, now) == 0
  {
    if ps != [] {
      assert forall i :: 0 <= i < |ps| - 1 ==> ps[..|ps| - 1][i] == ps[i];
      NoOpenData(ps[..|ps| - 1], now);
    }
  }

  lemma AllUnchanged(ps: seq<Peer>, top: nat, now: nat, elapsed: nat)
    ensures AllPassed(ps, ps, top, now, elapsed)
  {
  }

  lemma RoundIs(before: Peer, mid: Peer, throttle: nat, top: nat, limiting: bool, now: nat, elapsed: nat)
    requires !Limited(before, now) && Passed(before, mid, top, now, elapsed) && throttle <= top <= SCALE
    requires if limiting then !NeedsLimit(mid, top, now, elapsed) else mid == before
    ensures var after := Settled(mid, throttle, now);
            && Rounded(before, after, throttle, now, elapsed)
            && (before.connected ==> after.packetThrottleLimit <= top)
            && (Limited(after, now) <==> limiting && NeedsLimit(before, top, now, elapsed))
  {
    hide PeerBandwidth, Cap;
    if mid != before {
      CapAtMost(PeerBandwidth(before, elapsed), before.outgoingDataTotal, top);
    }
  }

  lemma NoneNeedsLess(ps: seq<Peer>, throttle: nat, top: nat, now: nat, elapsed: nat)
    requires throttle <= top && NoneNeeds(ps, top, now, elapsed)
    ensures NoneNeeds(ps, throttle, now, elapsed)
  {
    hide NeedsLimit;
    forall i | 0 <= i < |ps|
      ensures !NeedsLimit(ps[i], throttle, now, elapsed)
    {
      if NeedsLimit(ps[i], throttle, now, elapsed) {
        NeedsLess(ps[i], throttle, top, now, elapsed);
      }
    }
  }

  /** A peer that the first pass limits need not exceed its bandwidth at the final level: a host with 1000
      bytes to send, a peer that can take 480 and another without a limit, 1000 bytes waiting for each. */
  lemma LimitedAtFirstLevelOnly()
    ensures var a, c := Peer(true, 480, 0, 0, 1000, 32, 32, 0, 0), Peer(true, 0, 0, 0, 1000, 32, 32, 0, 0);
            && NeedsLimit(a, FirstLevel([a, c], 7, 1000, 1000), 7, 1000)
            && !NeedsLimit(a, Level(1000 - 480, 2000 - 480), 7, 1000)
  {
    var a, c := Peer(true, 480, 0, 0, 1000, 32, 32, 0, 0), Peer(true, 0, 0, 0, 1000, 32, 32, 0, 0);
    assert [a, c][..1] == [a] && [a][..0] == [];
    assert OpenData([a], 7) == 1000 && OpenData([a, c], 7) == 2000;
  }

  /** The last loop. */
  method Settle(peers: array<Peer>, now: nat, throttle: nat)
    modifies peers
    ensures forall i :: 0 <= i < peers.Length ==> peers[i] == Settled(old(peers[..])[i], throttle, now)
  {
    for i := 0 to peers.Length
      invariant forall k :: 0 <= k < i ==> peers[k] == Settled(old(peers[..])[k], throttle, now)
      invariant forall k :: i <= k < peers.Length ==> peers[k] == old(peers[..])[k]
    {
      if !peers[i].connected || peers[i].outgoingEpoch == now {
        continue;
      }
      var p := peers[i].(packetThrottleLimit := throttle);
      if p.packetThrottle > p.packetThrottleLimit {
        p := p.(packetThrottle := p.packetThrottleLimit);
      }
      peers[i] := p.(incomingDataTotal := 0, outgoingDataTotal := 0);
    }
  }

  lemma {:induction false} DataBelowTotal(ps: seq<Peer>, i: nat, now: nat)
    requires i < |ps| && Unlimited(ps[i], now)
    ensures ps[i].outgoingDataTotal <= OpenData(ps, now)
  {
    var n := |ps| - 1;
    if i < n {
      DataBelowTotal(ps[..n], i, now);
    }
  }

  lemma AtMost(t: nat, x: nat)
    requires t <= SCALE
    ensures t * x <= SCALE * x
  {
  }

  /** No product that a round forms overflows 32 bits. */
  lemma ProductsFit(ps: seq<Peer>, i: nat, now: nat, elapsed: nat, outgoingBandwidth: nat, throttle: nat, bandwidth: nat, dataTotal: nat)
    requires NoOverflow(ps, now, elapsed, outgoingBandwidth) && i < |ps| && Unlimited(ps[i], now)
    requires throttle <= SCALE && dataTotal <= OpenData(ps, now)
    ensures throttle * ps[i].outgoingDataTotal < U32
    ensures PeerBandwidth(ps[i], elapsed) < ps[i].outgoingDataTotal ==> PeerBandwidth(ps[i], elapsed) * SCALE < U32
    ensures bandwidth < dataTotal ==> bandwidth * SCALE < U32
  {
    hide PeerBandwidth, OpenData;
    DataBelowTotal(ps, i, now);
    AtMost(throttle, ps[i].outgoingDataTotal);
  }

  // ------------------------------------------------------- incoming bandwidth

  /** Connected and not yet found to need less than the common limit. */
  predicate Waiting(p: Peer, now: nat) {
    p.connected && p.incomingEpoch != now
  }

  predicate Satisfied(p: Peer, now: nat) {
    p.connected && p.incomingEpoch == now
  }

  function WaitingCount(ps: seq<Peer>, now: nat): nat {
    if ps == [] then 0 else WaitingCount(ps[..|ps| - 1], now) + if Waiting(ps[|ps| - 1], now) then 1 else 0
  }

  function SatisfiedSum(ps: seq<Peer>, now: nat): nat {
    if ps == [] then 0
    else SatisfiedSum(ps[..|ps| - 1], now) + if Satisfied(ps[|ps| - 1], now) then ps[|ps| - 1].outgoingBandwidth else 0
  }

  lemma {:induction false} SatisfyOne(ps: seq<Peer>, i: nat, now: nat)
    requires i < |ps| && Waiting(ps[i], now)
    ensures var ps' := ps[i := ps[i].(incomingEpoch := now)];
            && WaitingCount(ps', now) == WaitingCount(ps, now) - 1
            && SatisfiedSum(ps', now) == SatisfiedSum(ps, now) + ps[i].outgoingBandwidth
  {
    var n, q := |ps| - 1, ps[i].(incomingEpoch := now);
    if i == n {
      assert ps[i := q][..n] == ps[..n];
    } else {
      SatisfyOne(ps[..n], i, now);
      assert ps[i := q][..n] == ps[..n][i := q];
    }
  }

  /** What a peer is told to receive at most; 0 means no limit. */
  function Grant(p: Peer, now: nat, limit: nat): nat {
    if !p.connected then 0 else if p.incomingEpoch == now then p.outgoingBandwidth else limit
  }

  function GrantSum(ps: seq<Peer>, now: nat, limit: nat): nat {
    if ps == [] then 0 else GrantSum(ps[..|ps| - 1], now, limit) + Grant(ps[|ps| - 1], now, limit)
  }

  lemma {:induction false} GrantsAdd(ps: seq<Peer>, now: nat, limit: nat)
    ensures GrantSum(ps, now, limit) == SatisfiedSum(ps, now) + limit * WaitingCount(ps, now)
  {
    if ps != [] {
      GrantsAdd(ps[..|ps| - 1], now, limit);
      TimesSum(limit, WaitingCount(ps[..|ps| - 1], now), if Waiting(ps[|ps| - 1], now) then 1 else 0);
    }
  }

  /** The satisfied peers need less than the limit, and what is left is enough for the others. */
  predicate Filling(ps: seq<Peer>, now: nat, budget: nat, bandwidth: nat, remaining: nat, limit: nat) {
    && remaining == WaitingCount(ps, now) && SatisfiedSum(ps, now) + bandwidth == budget && limit * remaining <= bandwidth
    && forall i :: 0 <= i < |ps| && Satisfied(ps[i], now) ==> ps[i].outgoingBandwidth < limit || ps[i].outgoingBandwidth == 0
  }

  /** The other peers need at least the limit. */
  predicate Filled(ps: seq<Peer>, now: nat, limit: nat) {
    forall i :: 0 <= i < |ps| && Waiting(ps[i], now) ==> ps[i].outgoingBandwidth >= limit && ps[i].outgoingBandwidth > 0
  }

  predicate OnlyEpochs(before: seq<Peer>, after: seq<Peer>, now: nat) {
    |before| == |after| && forall i :: 0 <= i < |before| ==> after[i] == before[i] || after[i] == before[i].(incomingEpoch := now)
  }

  /** One pass at one limit. */
  method LimitPass(peers: array<Peer>, now: nat, bandwidth0: nat, remaining0: nat, limit: nat, ghost before: seq<Peer>, ghost budget: nat)
    returns (adjusted: bool, bandwidth: nat, remaining: nat)
    requires Filling(peers[..], now, budget, bandwidth0, remaining0, limit) && OnlyEpochs(before, peers[..], now)
    modifies peers
    ensures Filling(peers[..], now, budget, bandwidth, remaining, limit) && OnlyEpochs(before, peers[..], now)
    ensures adjusted ==> remaining < remaining0
    ensures !adjusted ==> bandwidth == bandwidth0 && remaining == remaining0 && Filled(peers[..], now, limit)
  {
    hide WaitingCount, SatisfiedSum;
    adjusted, bandwidth, remaining := false, bandwidth0, remaining0;
    for i := 0 to peers.Length
      invariant Filling(peers[..], now, budget, bandwidth, remaining, limit) && OnlyEpochs(before, peers[..], now)
      invariant remaining <= remaining0 && (adjusted ==> remaining < remaining0)
      invariant !adjusted ==> bandwidth == bandwidth0 && remaining == remaining0 && Filled(peers[..i], now, limit)
    {
      ghost var ps := peers[..];
      assert ps[i] == peers[i];
      if !peers[i].connected || peers[i].incomingEpoch == now {
        continue;
      }
      if peers[i].outgoingBandwidth > 0 && peers[i].outgoingBandwidth >= limit {
        continue;
      }
      SatisfyOne(ps, i, now);
      TimesSum(limit, remaining - 1, 1);
      peers[i] := peers[i].(incomingEpoch := now);
      assert peers[..] == ps[i := ps[i].(incomingEpoch := now)];
      adjusted := true;
      remaining := remaining - 1;
      bandwidth := bandwidth - peers[i].outgoingBandwidth;
    }
    assert peers[..peers.Length] == peers[..];
  }

  /** Every connected peer is told a bound; 0 would tell it that there is none. */
  predicate AllBounded(ps: seq<Peer>, now: nat, limit: nat) {
    forall i :: 0 <= i < |ps| && ps[i].connected ==> Grant(ps[i], now, limit) > 0
  }

  predicate AllDeclare(ps: seq<Peer>) {
    forall i :: 0 <= i < |ps| && ps[i].connected ==> ps[i].outgoingBandwidth > 0
  }

  lemma {:induction false} BoundsCount(before: seq<Peer>, after: seq<Peer>, now: nat, limit: nat)
    requires OnlyEpochs(before, after, now) && AllBounded(after, now, limit)
    ensures WaitingCount(before, now) <= GrantSum(after, now, limit)
  {
    if before != [] {
      var n := |before| - 1;
      forall i | 0 <= i < n
        ensures before[..n][i] == before[i] && after[..n][i] == after[i]
      {
      }
      BoundsCount(before[..n], after[..n], now, limit);
      assert after[n].connected ==> Grant(after[n], now, limit) > 0;
    }
  }

  /** All are bounded exactly if all say how much they send and there is a unit for each. */
  lemma BoundedIff(before: seq<Peer>, after: seq<Peer>, now: nat, limit: nat, bandwidth: nat)
    requires OnlyEpochs(before, after, now) && GrantSum(after, now, limit) <= bandwidth
    requires forall i :: 0 <= i < |after| && after[i].connected && after[i].outgoingBandwidth == 0 ==> Grant(after[i], now, limit) == 0
    requires (exists i :: 0 <= i < |after| && after[i].connected) && WaitingCount(before, now) <= bandwidth ==> limit > 0
    ensures AllBounded(after, now, limit) <==> AllDeclare(before) && WaitingCount(before, now) <= bandwidth
  {
    hide WaitingCount, GrantSum;
    if AllBounded(after, now, limit) {
      BoundsCount(before, after, now, limit);
    }
  }

  /** With 1000 units, a peer that does not say how much it sends leaves the host without any bound on it,
      while what the peers are told adds up to 500. */
  lemma UndeclaredIsUnbounded()
    ensures var silent, other := Peer(true, 0, 0, 0, 0, 0, 0, 7, 0), Peer(true, 0, 500, 0, 0, 0, 0, 7, 0);
            GrantSum([silent, other], 7, 1000) == 500 && !AllBounded([silent, other], 7, 1000)
  {
    var silent, other := Peer(true, 0, 0, 0, 0, 0, 0, 7, 0), Peer(true, 0, 500, 0, 0, 0, 0, 7, 0);
    var ps := [silent, other];
    assert ps[..1] == [silent] && [silent][..0] == [];
    assert GrantSum([silent], 7, 1000) == 0;
    assert Grant(ps[0], 7, 1000) == 0 && Grant(ps[1], 7, 1000) == 500;
  }

  /** The incoming half: each connected peer is told the least of what it can send and a common limit,
      which is as large as the bandwidth allows. A peer is told 0, which bounds nothing, if it did not say
      how much it sends or if there is less than a unit for each. */
  method LimitIncoming(peers: array<Peer>, now: nat, incomingBandwidth: nat, connectedPeers: nat) returns (limit: nat, grants: seq<nat>)
    requires forall i :: 0 <= i < peers.Length ==> !Satisfied(peers[i], now)
    requires connectedPeers == WaitingCount(peers[..], now)
    modifies peers
    ensures OnlyEpochs(old(peers[..]), peers[..], now) && |grants| == peers.Length
    ensures forall i :: 0 <= i < peers.Length && peers[i].connected ==>
              grants[i] == (if incomingBandwidth == 0 || peers[i].outgoingBandwidth == 0 then 0 else Min(peers[i].outgoingBandwidth, limit))
    ensures GrantSum(peers[..], now, limit) <= incomingBandwidth
    ensures forall i :: 0 <= i < peers.Length ==> grants[i] == Grant(peers[i], now, limit)
    ensures AllBounded(peers[..], now, limit) <==> AllDeclare(old(peers[..])) && connectedPeers <= incomingBandwidth
    ensures incomingBandwidth != 0 ==>
              && (WaitingCount(peers[..], now) > 0 ==>
                    incomingBandwidth < GrantSum(peers[..], now, limit) + WaitingCount(peers[..], now))
  {
    hide GrantSum, WaitingCount, SatisfiedSum, AllBounded, AllDeclare;
    ghost var before := peers[..];
    NoneSatisfied(before, now);
    limit := 0;
    ghost var bandwidth, remaining := incomingBandwidth, connectedPeers;
    if incomingBandwidth != 0 {
      limit, bandwidth, remaining := CommonLimit(peers, now, incomingBandwidth, connectedPeers);
    }
    if remaining == 0 {
      NoneWaiting(peers[..], now);
    }
    GrantsAdd(peers[..], now, limit);
    if connectedPeers == 0 {
      NoneWaiting(before, now);
    }
    BoundedIff(before, peers[..], now, limit, incomingBandwidth);
    grants := Grants(peers, now, limit);
  }

  /** The loop that raises the common limit until no peer needs less. */
  method CommonLimit(peers: array<Peer>, now: nat, incomingBandwidth: nat, connectedPeers: nat)
    returns (limit: nat, ghost bandwidth: nat, ghost remaining: nat)
    requires SatisfiedSum(peers[..], now) == 0 && forall i :: 0 <= i < peers.Length ==> !Satisfied(peers[i], now)
    requires connectedPeers == WaitingCount(peers[..], now) && 0 < incomingBandwidth
    modifies peers
    ensures Filling(peers[..], now, incomingBandwidth, bandwidth, remaining, limit) && OnlyEpochs(old(peers[..]), peers[..], now)
    ensures remaining > 0 ==> Filled(peers[..], now, limit) && bandwidth < limit * remaining + remaining
    ensures 0 < connectedPeers <= incomingBandwidth ==> limit > 0
  {
    hide WaitingCount, SatisfiedSum;
    ghost var before := peers[..];
    var left, needing := incomingBandwidth, connectedPeers;
    var needsAdjustment := true;
    limit := 0;
    while needing > 0 && needsAdjustment
      invariant Filling(peers[..], now, incomingBandwidth, left, needing, limit) && OnlyEpochs(before, peers[..], now)
      invariant !needsAdjustment ==> needing > 0 && limit == left / needing && Filled(peers[..], now, limit)
      invariant connectedPeers <= incomingBandwidth && limit == 0 ==> needing == connectedPeers && left == incomingBandwidth && needsAdjustment
      decreases needing, needsAdjustment
    {
      NextLimit(left, needing, limit);
      UnitEach(left, needing);
      limit := left / needing;
      needsAdjustment, left, needing := LimitPass(peers, now, left, needing, limit, before, incomingBandwidth);
    }
    if needing > 0 {
      NextLimit(left, needing, limit);
    }
    bandwidth, remaining := left, needing;
  }

  lemma UnitEach(bandwidth: nat, remaining: nat)
    requires 0 < remaining
    ensures remaining <= bandwidth ==> bandwidth / remaining > 0
  {
    assert bandwidth == bandwidth / remaining * remaining + bandwidth % remaining;
  }

  /** What each peer is told. */
  method Grants(peers: array<Peer>, now: nat, limit: nat) returns (grants: seq<nat>)
    ensures |grants| == peers.Length && forall i :: 0 <= i < peers.Length ==> grants[i] == Grant(peers[i], now, limit)
  {
    grants := [];
    for i := 0 to peers.Length
      invariant |grants| == i && forall k :: 0 <= k < i ==> grants[k] == Grant(peers[k], now, limit)
    {
      if !peers[i].connected {
        grants := grants + [0];
      } else if peers[i].incomingEpoch == now {
        grants := grants + [peers[i].outgoingBandwidth];
      } else {
        grants := grants + [limit];
      }
    }
  }

  function Min(x: nat, y: nat): nat {
    if x < y then x else y
  }

  lemma {:induction false} NoneSatisfied(ps: seq<Peer>, now: nat)
    requires forall i :: 0 <= i < |ps| ==> !Satisfied(ps[i], now)
    ensures SatisfiedSum(ps, now) == 0
  {
    if ps != [] {
      assert forall i :: 0 <= i < |ps| - 1 ==> ps[..|ps| - 1][i] == ps[i];
      NoneSatisfied(ps[..|ps| - 1], now);
    }
  }

  lemma {:induction false} NoneWaiting(ps: seq<Peer>, now: nat)
    requires WaitingCount(ps, now) == 0
    ensures forall i :: 0 <= i < |ps| ==> !Waiting(ps[i], now)
  {
    if ps != [] {
      NoneWaiting(ps[..|ps| - 1], now);
      assert forall i :: 0 <= i < |ps| - 1 ==> ps[..|ps| - 1][i] == ps[i];
    }
  }

  lemma NotLess(q: nat, limit: nat, remaining: nat, r: nat)
    requires r < remaining && limit * remaining <= q * remaining + r
    ensures limit <= q
  {
    if q < limit {
      TimesSum(remaining, q, limit - q);
      TimesSum(remaining, 1, limit - q - 1);
    }
  }

  /** The next limit is no lower, and fits. */
  lemma NextLimit(bandwidth: nat, remaining: nat, limit: nat)
    requires 0 < remaining && limit * remaining <= bandwidth
    ensures limit <= bandwidth / remaining && bandwidth / remaining * remaining <= bandwidth
    ensures bandwidth < bandwidth / remaining * remaining + remaining
  {
    var q, r := bandwidth / remaining, bandwidth % remaining;
    assert bandwidth == q * remaining + r;
    NotLess(q, limit, remaining, r);
  }
}
