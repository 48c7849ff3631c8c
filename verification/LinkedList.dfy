/** ENet's circular doubly linked lists. */
module LinkedList {
  class Node {
    var next: Node
    var previous: Node

    /** enet_list_clear on a new sentinel. */
    constructor ()
      ensures next == this && previous == this
    {
      next := this;
      previous := this;
    }
  }

  ghost predicate Distinct(ring: seq<Node>) {
    forall i, j :: 0 <= i < j < |ring| ==> ring[i] != ring[j]
  }

  ghost predicate Linked(a: Node, b: Node)
    reads a, b
  {
    a.next == b && b.previous == a
  }

  ghost predicate Chain(nodes: seq<Node>)
    reads nodes
  {
    forall i :: 0 < i < |nodes| ==> Linked(nodes[i - 1], nodes[i])
  }

  /** The nodes of a circular list in order, from any one of them on. */
  ghost predicate Ring(ring: seq<Node>)
    reads ring
  {
    |ring| > 0 && Distinct(ring) && Chain(ring) && Linked(ring[|ring| - 1], ring[0])
  }

  /** A ring may be read from any of its nodes on. */
  lemma Turn(a: seq<Node>, b: seq<Node>)
    requires Ring(a + b)
    ensures Ring(b + a)
  {
    if a == [] || b == [] {
      assert b + a == a + b;
    } else {
      var ring, turned := a + b, b + a;
      assert Linked(ring[|a| - 1], ring[|a|]);
      forall i | 0 < i < |turned|
        ensures Linked(turned[i - 1], turned[i])
      {
        if i < |b| {
          assert Linked(ring[|a| + i - 1], ring[|a| + i]);
        } else if i > |b| {
          assert Linked(ring[i - |b| - 1], ring[i - |b|]);
        }
      }
      forall i, j | 0 <= i < j < |turned|
        ensures turned[i] != turned[j]
      {
        assert turned[i] == ring[if i < |b| then |a| + i else i - |b|];
        assert turned[j] == ring[if j < |b| then |a| + j else j - |b|];
      }
    }
  }

  /** The ring read from its node at p on. */
  ghost function From(ring: seq<Node>, p: nat): seq<Node>
    requires p <= |ring|
  {
    ring[p..] + ring[..p]
  }

  lemma TurnTo(ring: seq<Node>, p: nat)
    requires Ring(ring) && p < |ring|
    ensures Ring(From(ring, p))
  {
    assert ring == ring[..p] + ring[p..];
    Turn(ring[..p], ring[p..]);
  }

  /** The list with nodes put before the one at position p; before the sentinel means at its end. */
  ghost function Inserted(ring: seq<Node>, p: nat, nodes: seq<Node>): seq<Node>
    requires p < |ring|
  {
    if p == 0 then ring + nodes else ring[..p] + nodes + ring[p..]
  }

  /** Nodes added at the end of the turned ring are where they belong in the list. */
  lemma TurnInserted(ring: seq<Node>, p: nat, nodes: seq<Node>)
    requires p < |ring| && Ring(From(ring, p) + nodes)
    ensures Ring(Inserted(ring, p, nodes))
  {
    if p == 0 {
      assert From(ring, 0) == ring;
    } else {
      assert From(ring, p) + nodes == ring[p..] + (ring[..p] + nodes);
      Turn(ring[p..], ring[..p] + nodes);
      assert ring[..p] + nodes + ring[p..] == (ring[..p] + nodes) + ring[p..];
    }
  }

  /** enet_list_insert, with the list read from its sentinel on. */
  method Insert(position: Node, data: Node, ghost ring: seq<Node>, ghost p: nat) returns (result: Node)
    requires Ring(ring) && p < |ring| && ring[p] == position && data !in ring
    modifies data, ring
    ensures result == data && Ring(Inserted(ring, p, [data]))
  {
    TurnTo(ring, p);
    result := InsertBefore(position, data, From(ring, p));
    TurnInserted(ring, p, [data]);
  }

  /** enet_list_insert: `ring` is read from `position` on, so the node goes to its end. */
  method InsertBefore(position: Node, data: Node, ghost ring: seq<Node>) returns (result: Node)
    requires Ring(ring) && ring[0] == position && data !in ring
    modifies data, ring
    ensures result == data && Ring(ring + [data])
  {
    data.previous := position.previous;
    data.next := position;
    data.previous.next := data;
    position.previous := data;
    result := data;
    ghost var n := |ring|;
    forall i | 0 < i < n
      ensures Linked(ring[i - 1], ring[i])
    {
      assert old(Linked(ring[i - 1], ring[i]));
    }
  }

  /** enet_list_remove: `rest` is the ring read from the node after `position` on. */
  method Remove(position: Node, ghost rest: seq<Node>) returns (data: Node)
    requires rest != [] && Ring(rest + [position])
    modifies rest + [position]
    ensures data == position && Ring(rest)
  {
    ghost var ring := rest + [position];
    ghost var n := |rest|;
    assert Linked(ring[n - 1], ring[n]);
    position.previous.next := position.next;
    position.next.previous := position.previous;
    data := position;
    forall i | 0 < i < n
      ensures Linked(rest[i - 1], rest[i])
    {
      assert old(Linked(ring[i - 1], ring[i]));
    }
    forall i, j | 0 <= i < j < n
      ensures rest[i] != rest[j]
    {
      assert ring[i] != ring[j];
    }
  }

  /** enet_list_move: the nodes from dataFirst to dataLast leave their list and go before `position`
      in another. The rings are read from the node after dataLast and from `position` on. */
  method Move(position: Node, dataFirst: Node, dataLast: Node, ghost ring: seq<Node>, ghost rest: seq<Node>, ghost moved: seq<Node>)
    returns (first: Node)
    requires Ring(ring) && ring[0] == position
    requires rest != [] && moved != [] && Ring(rest + moved) && moved[0] == dataFirst && moved[|moved| - 1] == dataLast
    requires forall x :: x in ring ==> x !in rest && x !in moved
    modifies ring, rest, moved
    ensures first == dataFirst && Ring(ring + moved) && Ring(rest)
  {
    ghost var n, m, other := |rest|, |moved|, rest + moved;
    PartsDistinct(rest, moved, ring);
    assert Linked(other[n - 1], other[n]);
    dataFirst.previous.next := dataLast.next;
    dataLast.next.previous := dataFirst.previous;
    dataFirst.previous := position.previous;
    dataLast.next := position;
    dataFirst.previous.next := dataFirst;
    position.previous := dataLast;
    first := dataFirst;
    forall i | 0 < i < n
      ensures Linked(rest[i - 1], rest[i])
    {
      assert old(Linked(other[i - 1], other[i]));
    }
    forall i | 0 < i < m
      ensures Linked(moved[i - 1], moved[i])
    {
      assert old(Linked(other[n + i - 1], other[n + i]));
    }
    forall i | 0 < i < |ring|
      ensures Linked(ring[i - 1], ring[i])
    {
      assert old(Linked(ring[i - 1], ring[i]));
    }
    ghost var joined, size := ring + moved, |ring|;
    forall i | 0 < i < |joined|
      ensures Linked(joined[i - 1], joined[i])
    {
      if i < size {
        assert Linked(ring[i - 1], ring[i]);
      } else if i > size {
        assert Linked(moved[i - size - 1], moved[i - size]);
      }
    }
  }

  lemma PartsDistinct(rest: seq<Node>, moved: seq<Node>, ring: seq<Node>)
    requires Distinct(rest + moved) && Distinct(ring) && forall x :: x in ring ==> x !in moved && x !in rest
    ensures Distinct(rest) && Distinct(moved) && Distinct(ring + moved)
    ensures forall i, j :: 0 <= i < |rest| && 0 <= j < |moved| ==> rest[i] != moved[j]
    ensures forall i, j :: 0 <= i < |rest| && 0 <= j < |ring| ==> rest[i] != ring[j]
    ensures forall i, j :: 0 <= i < |ring| && 0 <= j < |moved| ==> ring[i] != moved[j]
  {
    forall i, j | 0 <= i < j < |rest|
      ensures rest[i] != rest[j]
    {
      assert (rest + moved)[i] != (rest + moved)[j];
    }
    forall i, j | 0 <= i < j < |moved|
      ensures moved[i] != moved[j]
    {
      assert (rest + moved)[|rest| + i] != (rest + moved)[|rest| + j];
    }
    forall i, j | 0 <= i < |rest| && 0 <= j < |moved|
      ensures rest[i] != moved[j]
    {
      assert (rest + moved)[i] != (rest + moved)[|rest| + j];
    }
    forall i, j | 0 <= i < |ring| && 0 <= j < |moved|
      ensures ring[i] != moved[j]
    {
      assert ring[i] in ring && moved[j] in moved;
    }
    forall i, j | 0 <= i < |rest| && 0 <= j < |ring|
      ensures rest[i] != ring[j]
    {
      assert ring[j] in ring && rest[i] in rest;
    }
  }

  /** enet_list_size, the ring being read from the sentinel on. */
  method Size(list: Node, ghost ring: seq<Node>) returns (size: nat)
    requires Ring(ring) && ring[0] == list
    ensures size == |ring| - 1
  {
    assert forall k :: 0 < k < |ring| ==> ring[k] != list;
    size := 0;
    assert |ring| > 1 ==> Linked(ring[0], ring[1]);
    var position := list.next;
    while position != list
      invariant size <= |ring| - 1 && position == (ring + [list])[size + 1]
      decreases |ring| - size
    {
      size := size + 1;
      assert size + 1 < |ring| ==> Linked(ring[size], ring[size + 1]);
      position := position.next;
    }
  }
}
