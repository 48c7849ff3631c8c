/** Cutting a packet into fragments and putting the fragments together again. */
module Fragments {
  import opened Words

  const MAXIMUM_FRAGMENT_COUNT := 1024 * 1024

  datatype Fragment = Fragment(offset: nat, bytes: seq<u8>)

  /** A packet and the number of its bytes that fit one command; a longer packet is cut. */
  datatype Message = Message(data: seq<u8>, room: nat)

  predicate Fits(m: Message) {
    |m.data| <= m.room
  }

  function Min(x: nat, y: nat): nat {
    if x < y then x else y
  }

  /** The loop that cuts a packet, from an offset on. */
  function CutFrom(data: seq<u8>, room: nat, offset: nat): seq<Fragment>
    requires 0 < room
    decreases |data| - offset
  {
    if offset >= |data| then []
    else
      var length := Min(room, |data| - offset);
      [Fragment(offset, data[offset..offset + length])] + CutFrom(data, room, offset + length)
  }

  function Cut(m: Message): seq<Fragment>
    requires 0 < m.room
  {
    CutFrom(m.data, m.room, 0)
  }

  /** fragmentCount, rounded up. */
  function FragmentCount(m: Message): nat
    requires 0 < m.room
  {
    (|m.data| + m.room - 1) / m.room
  }

  /** The fragments tile the packet from `offset` on. */
  predicate Tiles(fragments: seq<Fragment>, data: seq<u8>, offset: nat) {
    if fragments == [] then offset == |data|
    else
      var f := fragments[0];
      && f.offset == offset && f.bytes != [] && offset + |f.bytes| <= |data|
      && f.bytes == data[offset..offset + |f.bytes|]
      && Tiles(fragments[1..], data, offset + |f.bytes|)
  }

  lemma {:induction false} CutTiles(data: seq<u8>, room: nat, offset: nat)
    requires 0 < room && offset <= |data|
    ensures Tiles(CutFrom(data, room, offset), data, offset)
    decreases |data| - offset
  {
    if offset < |data| {
      var length := Min(room, |data| - offset);
      CutTiles(data, room, offset + length);
      assert CutFrom(data, room, offset)[1..] == CutFrom(data, room, offset + length);
    }
  }

  /** Fragment k begins at k times the room and fills the room, but for the last one. */
  lemma {:induction false} CutAt(data: seq<u8>, room: nat, offset: nat, k: nat)
    requires 0 < room && k < |CutFrom(data, room, offset)|
    ensures CutFrom(data, room, offset)[k].offset == offset + k * room < |data|
    ensures |CutFrom(data, room, offset)[k].bytes| == if offset + (k + 1) * room <= |data| then room else |data| - offset - k * room
    decreases k
  {
    if k > 0 {
      assert room <= |data| - offset;
      CutAt(data, room, offset + room, k - 1);
      assert k * room == (k - 1) * room + room && (k + 1) * room == k * room + room;
    }
  }

  lemma {:induction false} CountAtMost(fragments: seq<Fragment>, data: seq<u8>, offset: nat)
    requires Tiles(fragments, data, offset)
    ensures offset + |fragments| <= |data|
  {
    if fragments != [] {
      CountAtMost(fragments[1..], data, offset + |fragments[0].bytes|);
    }
  }

  lemma {:induction false} CutLength(data: seq<u8>, room: nat, offset: nat)
    requires 0 < room && offset <= |data|
    ensures |CutFrom(data, room, offset)| == (|data| - offset + room - 1) / room
    decreases |data| - offset
  {
    var left := |data| - offset;
    if left == 0 {
      SmallQuotient(room - 1, room);
    } else if left <= room {
      CutLength(data, room, |data|);
      SmallQuotient(left - 1, room);
      NextQuotient(left - 1, room);
      SmallQuotient(room - 1, room);
    } else {
      CutLength(data, room, offset + room);
      NextQuotient(left - 1, room);
    }
  }

  lemma SmallQuotient(x: nat, room: nat)
    requires x < room
    ensures x / room == 0
  {
  }

  lemma NextQuotient(x: nat, room: nat)
    requires 0 < room
    ensures (x + room) / room == x / room + 1
  {
    var q := x / room;
    var r := x % room;
    assert x + room == (q + 1) * room + r;
    SameQuotient(x + room, room, q + 1, r);
  }

  lemma SameQuotient(x: nat, room: nat, q: nat, r: nat)
    requires 0 < room && x == q * room + r && r < room
    ensures x / room == q
  {
    var p := x / room;
    var s := x % room;
    assert (p - q) * room == r - s;
    AtLeastOnce(p - q, room);
    AtLeastOnce(q - p, room);
    assert (q - p) * room == s - r;
  }

  lemma AtLeastOnce(d: int, room: nat)
    ensures d >= 1 ==> d * room >= room
  {
    if d >= 1 {
      assert d * room == (d - 1) * room + room;
    }
  }

  /** Each fragment holds the packet's bytes at its offset. */
  lemma {:induction false} TileAt(fragments: seq<Fragment>, data: seq<u8>, offset: nat, k: nat)
    requires Tiles(fragments, data, offset) && k < |fragments|
    ensures var f := fragments[k];
            && offset <= f.offset && f.bytes != [] && f.offset + |f.bytes| <= |data|
            && f.bytes == data[f.offset..f.offset + |f.bytes|]
  {
    if k > 0 {
      TileAt(fragments[1..], data, offset + |fragments[0].bytes|, k - 1);
    }
  }

  /** Every byte of the packet is in a fragment. */
  lemma {:induction false} TileCovers(fragments: seq<Fragment>, data: seq<u8>, offset: nat, x: nat) returns (k: nat)
    requires Tiles(fragments, data, offset) && offset <= x < |data|
    ensures k < |fragments| && Within(fragments[k], x)
  {
    var next := offset + |fragments[0].bytes|;
    if x < next {
      return 0;
    }
    k := TileCovers(fragments[1..], data, next, x);
    return k + 1;
  }

  // ------------------------------------------------------------ reassembly

  /** fragmentsRemaining. */
  function Missing(have: seq<bool>): nat {
    if have == [] then 0 else (if have[0] then 0 else 1) + Missing(have[1..])
  }

  lemma {:induction false} MissingAll(have: seq<bool>)
    requires forall i :: 0 <= i < |have| ==> !have[i]
    ensures Missing(have) == |have|
  {
    if have != [] {
      MissingAll(have[1..]);
    }
  }

  /** Setting a clear bit takes one off the count. */
  lemma {:induction false} MissingOneLess(have: seq<bool>, k: nat)
    requires k < |have| && !have[k]
    ensures Missing(have[k := true]) == Missing(have) - 1
  {
    if k > 0 {
      MissingOneLess(have[1..], k - 1);
      assert have[k := true][1..] == have[1..][k - 1 := true];
    } else {
      assert have[k := true][1..] == have[1..];
    }
  }

  lemma {:induction false} MissingNone(have: seq<bool>)
    ensures Missing(have) == 0 <==> forall i :: 0 <= i < |have| ==> have[i]
  {
    if have != [] {
      MissingNone(have[1..]);
      assert forall i :: 1 <= i < |have| ==> have[i] == have[1..][i - 1];
    }
  }

  predicate Within(f: Fragment, x: nat) {
    f.offset <= x < f.offset + |f.bytes|
  }

  /** The bytes of the fragments at hand are in place. */
  predicate InPlace(fragments: seq<Fragment>, have: seq<bool>, data: seq<u8>, buffer: seq<u8>) {
    && |have| == |fragments| && |buffer| == |data|
    && forall k, x :: 0 <= k < |have| && have[k] && 0 <= x < |data| && Within(fragments[k], x) ==> buffer[x] == data[x]
  }

  /** The copy of one fragment into the packet. */
  function Patch(buffer: seq<u8>, offset: nat, bytes: seq<u8>): seq<u8>
    requires offset + |bytes| <= |buffer|
  {
    buffer[..offset] + bytes + buffer[offset + |bytes|..]
  }

  lemma PatchKeeps(fragments: seq<Fragment>, have: seq<bool>, data: seq<u8>, buffer: seq<u8>, k: nat)
    requires Tiles(fragments, data, 0) && InPlace(fragments, have, data, buffer) && k < |fragments|
    ensures fragments[k].offset + |fragments[k].bytes| <= |buffer|
    ensures InPlace(fragments, have[k := true], data, Patch(buffer, fragments[k].offset, fragments[k].bytes))
  {
    TileAt(fragments, data, 0, k);
    var f := fragments[k];
    var patched := Patch(buffer, f.offset, f.bytes);
    assert forall x :: 0 <= x < |data| ==>
        patched[x] == if f.offset <= x < f.offset + |f.bytes| then f.bytes[x - f.offset] else buffer[x];
  }

  /** When nothing is missing the buffer is the packet. */
  lemma CompleteIsEqual(fragments: seq<Fragment>, have: seq<bool>, data: seq<u8>, buffer: seq<u8>)
    requires Tiles(fragments, data, 0) && InPlace(fragments, have, data, buffer) && Missing(have) == 0
    ensures buffer == data
  {
    MissingNone(have);
    forall x | 0 <= x < |data|
      ensures buffer[x] == data[x]
    {
      var k := TileCovers(fragments, data, 0, x);
    }
  }
}
