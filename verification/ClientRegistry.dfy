/** The tracker's registry of clients. The network thread keeps it by peer and by client id and
    reports changes through a queue; the server thread keeps its own map from what it takes off
    the queue. */
module ClientRegistry {
  /** A NetServerClient object: `handle` tells objects with the same id and peer apart. */
  datatype Client = Client(handle: nat, id: nat, peer: nat)

  datatype Output =
    | AddClient(client: Client)
    | RemoveClient(client: Client)
    | DataReceived(client: Client, data: seq<int>)

  type Clients = map<nat, Client>

  /** What the server thread does with one item. */
  function Apply(clients: Clients, output: Output): Clients {
    match output
    case AddClient(c) => clients[c.id := c]
    case RemoveClient(c) => clients - {c.id}
    case DataReceived(_, _) => clients
  }

  /** The server's map after all of `log`. */
  function ApplyAll(log: seq<Output>): Clients {
    if log == [] then map[] else Apply(ApplyAll(log[..|log| - 1]), log[|log| - 1])
  }

  predicate Mentions(log: seq<Output>, c: Client) {
    exists k :: 0 <= k < |log| && log[k].client == c
  }

  /** An item that the server can take after `log`: data and removals are for a client it has, an added
      client is new and its id is free. */
  predicate Proper(log: seq<Output>, output: Output) {
    var clients, c := ApplyAll(log), output.client;
    if output.AddClient? then c.id !in clients && !Mentions(log, c)
    else c.id in clients && clients[c.id] == c
  }

  predicate AllProper(log: seq<Output>) {
    forall k :: 0 <= k < |log| ==> Proper(log[..k], log[k])
  }

  lemma ProperStep(log: seq<Output>, output: Output)
    requires AllProper(log) && Proper(log, output)
    ensures AllProper(log + [output]) && ApplyAll(log + [output]) == Apply(ApplyAll(log), output)
  {
    var more := log + [output];
    assert more[..|log|] == log;
    forall k | 0 <= k < |more|
      ensures Proper(more[..k], more[k])
    {
      if k < |log| {
        assert more[..k] == log[..k];
      }
    }
  }

  /** The server's map holds clients under their own ids. */
  lemma {:induction false} UnderOwnId(log: seq<Output>, id: nat)
    requires id in ApplyAll(log)
    ensures ApplyAll(log)[id].id == id
  {
    var last := log[|log| - 1];
    if !(last.AddClient? && last.client.id == id) {
      UnderOwnId(log[..|log| - 1], id);
    }
  }

  /** A client on the map can be removed, and data for it taken. */
  lemma ProperForKnown(log: seq<Output>, id: nat, data: seq<int>)
    requires id in ApplyAll(log)
    ensures Proper(log, RemoveClient(ApplyAll(log)[id])) && Proper(log, DataReceived(ApplyAll(log)[id], data))
    ensures Apply(ApplyAll(log), RemoveClient(ApplyAll(log)[id])) == ApplyAll(log) - {id}
    ensures Apply(ApplyAll(log), DataReceived(ApplyAll(log)[id], data)) == ApplyAll(log)
  {
    UnderOwnId(log, id);
  }

  predicate HandlesBelow(log: seq<Output>, handles: nat) {
    forall k :: 0 <= k < |log| ==> log[k].client.handle < handles
  }

  lemma ProperForNew(log: seq<Output>, c: Client)
    requires c.id !in ApplyAll(log) && HandlesBelow(log, c.handle)
    ensures Proper(log, AddClient(c)) && Apply(ApplyAll(log), AddClient(c)) == ApplyAll(log)[c.id := c]
  {
  }

  lemma HandlesStep(log: seq<Output>, handles: nat, output: Output, more: nat)
    requires HandlesBelow(log, handles) && handles <= more && output.client.handle < more
    ensures HandlesBelow(log + [output], more)
  {
  }

  lemma HandleBelow(log: seq<Output>, handles: nat, id: nat)
    requires HandlesBelow(log, handles) && id in ApplyAll(log)
    ensures ApplyAll(log)[id].handle < handles
  {
    var n := |log| - 1;
    if !(log[n].AddClient? && log[n].client.id == id) {
      assert forall k :: 0 <= k < n ==> log[..n][k] == log[k];
      HandleBelow(log[..n], handles, id);
    }
  }

  /** A client is on the server's map exactly while it was added and not removed. */
  lemma {:induction false} OnMapIffAdded(log: seq<Output>, c: Client)
    requires AllProper(log)
    ensures c.id in ApplyAll(log) && ApplyAll(log)[c.id] == c <==> Open(log, c)
  {
    if log != [] {
      var n := |log| - 1;
      var prefix, last := log[..n], log[n];
      assert AllProper(prefix) by {
        forall k | 0 <= k < n
          ensures Proper(prefix[..k], prefix[k])
        {
          assert prefix[..k] == log[..k];
        }
      }
      assert Proper(prefix, last);
      OnMapIffAdded(prefix, c);
    }
  }

  /** The last addition or removal of the client was an addition. */
  predicate Open(log: seq<Output>, c: Client) {
    if log == [] then false
    else if log[|log| - 1] == AddClient(c) then true
    else log[|log| - 1] != RemoveClient(c) && Open(log[..|log| - 1], c)
  }

  lemma PrefixProper(log: seq<Output>, k: nat)
    requires AllProper(log) && k <= |log|
    ensures AllProper(log[..k])
  {
    forall i | 0 <= i < k
      ensures Proper(log[..k][..i], log[..k][i])
    {
      assert log[..k][..i] == log[..i];
    }
  }

  lemma {:induction false} OpenIsAdded(log: seq<Output>, c: Client)
    requires Open(log, c)
    ensures exists i :: 0 <= i < |log| && log[i] == AddClient(c) && forall j :: i < j < |log| ==> log[j] != RemoveClient(c)
  {
    var n := |log| - 1;
    if log[n] != AddClient(c) {
      OpenIsAdded(log[..n], c);
      var i :| 0 <= i < |log[..n]| && log[..n][i] == AddClient(c) && forall j :: i < j < n ==> log[..n][j] != RemoveClient(c);
      assert log[i] == AddClient(c);
      assert forall j :: i < j < n ==> log[j] == log[..n][j];
    }
  }

  /** A client is added at most once. */
  lemma AddedOnce(log: seq<Output>, i: nat, k: nat)
    requires AllProper(log) && i < k < |log| && log[i].client == log[k].client
    ensures !log[k].AddClient?
  {
    assert log[..k][i].client == log[k].client;
    assert Proper(log[..k], log[k]);
  }

  /** Data for a client, and its removal, come after the client was added, and nothing of the client
      comes after its removal: the server never uses a client that it deleted. */
  lemma UsedWhileAdded(log: seq<Output>, k: nat)
    requires AllProper(log) && k < |log|
    ensures !log[k].AddClient? ==> exists i :: 0 <= i < k && log[i] == AddClient(log[k].client)
    ensures forall j :: 0 <= j < k ==> log[j] != RemoveClient(log[k].client)
  {
    var c, before := log[k].client, log[..k];
    assert Proper(before, log[k]);
    PrefixProper(log, k);
    assert forall j :: 0 <= j < k ==> before[j] == log[j];
    if !log[k].AddClient? {
      OnMapIffAdded(before, c);
      var i := StillAdded(before, c);
      hide Proper, AllProper, Open;
      assert log[i] == AddClient(c);
    }
  }

  lemma StillAdded(log: seq<Output>, c: Client) returns (i: nat)
    requires AllProper(log) && Open(log, c)
    ensures i < |log| && log[i] == AddClient(c)
    ensures forall j :: 0 <= j < |log| ==> log[j] != RemoveClient(c)
  {
    OpenIsAdded(log, c);
    i :| 0 <= i < |log| && log[i] == AddClient(c) && forall j :: i < j < |log| ==> log[j] != RemoveClient(c);
    forall j | 0 <= j < |log|
      ensures log[j] != RemoveClient(c)
    {
      if j < i && log[j] == RemoveClient(c) {
        AddedOnce(log, j, i);
      }
    }
  }

  // ------------------------------------------------------------------ tracker

  /** The two threads' state. `log` is every item ever put on the output queue, of which the server
      thread took the first `taken`; the queue is the rest. */
  class Tracker {
    var byPeer: Clients
    var byId: Clients
    var queue: seq<Output>
    var serverClients: Clients
    var handles: nat
    ghost var log: seq<Output>
    ghost var taken: nat

    ghost predicate Valid()
      reads this
    {
      Consistent() && Inverse(byPeer, byId)
    }

    /** The queue leads from the server's map to the network thread's. */
    ghost predicate Consistent()
      reads this
    {
      && AllProper(log) && HandlesBelow(log, handles)
      && taken <= |log| && queue == log[taken..]
      && serverClients == ApplyAll(log[..taken]) && byId == ApplyAll(log)
    }

    constructor ()
      ensures Valid() && log == []
    {
      byPeer, byId, queue, serverClients, handles := map[], map[], [], map[], 0;
      log, taken := [], 0;
    }

    method Push(output: Output)
      requires AllProper(log) && Proper(log, output) && taken <= |log| && queue == log[taken..]
      modifies this`queue, this`log
      ensures log == old(log) + [output] && queue == log[taken..] && AllProper(log)
      ensures ApplyAll(log) == Apply(ApplyAll(old(log)), output) && log[..taken] == old(log[..taken])
    {
      hide ApplyAll, Apply, AllProper, Proper;
      ProperStep(log, output);
      queue := queue + [output];
      log := log + [output];
    }

    /** A join request with a valid id: a client with the same id is put out first. The queue stays right in
        any case, the two maps stay inverse exactly if the peer has not joined with another id. */
    method Join(peer: nat, id: nat) returns (client: Client)
      requires Valid()
      modifies this
      ensures Consistent() && serverClients == old(serverClients) && taken == old(taken)
      ensures Valid() <==> old(peer in byPeer ==> byPeer[peer].id == id)
      ensures client == Client(old(handles), id, peer) && byId == old(byId)[id := client]
      ensures byPeer == JoinedPeers(old(byPeer), old(byId), client)
      ensures log == old(log) + (if id in old(byId) then [RemoveClient(old(byId)[id])] else []) + [AddClient(client)]
    {
      hide ApplyAll, Apply, AllProper, Proper, Inverse, HandlesBelow;
      client := Client(handles, id, peer);
      JoinKeepsInverse(byPeer, byId, client);
      JoinedIdsIs(byId, client);
      if id in byId {
        Evict(id);
      }
      ProperForNew(log, client);
      HandlesStep(log, handles, AddClient(client), handles + 1);
      handles := handles + 1;
      byPeer := byPeer[peer := client];
      byId := byId[id := client];
      Push(AddClient(client));
    }

    /** Puts out the client with this id. */
    method Evict(id: nat)
      requires Valid() && id in byId
      modifies this
      ensures Valid() && serverClients == old(serverClients) && taken == old(taken) && handles == old(handles)
      ensures byId == old(byId) - {id} && byPeer == old(byPeer) - {old(byId)[id].peer}
      ensures log == old(log) + [RemoveClient(old(byId)[id])]
    {
      hide ApplyAll, Apply, AllProper, Proper, Inverse, HandlesBelow;
      var client := byId[id];
      UnderOwnId(log, id);
      ProperForKnown(log, id, []);
      HandleBelow(log, handles, id);
      HandlesStep(log, handles, RemoveClient(client), handles);
      InverseEvict(byPeer, byId, id);
      byId := byId - {client.id};
      byPeer := byPeer - {client.peer};
      Push(RemoveClient(client));
    }

    /** Data from a peer; it is dropped if the peer has not joined. */
    method Receive(peer: nat, data: seq<int>)
      requires Valid()
      modifies this
      ensures Valid() && serverClients == old(serverClients) && taken == old(taken) && byId == old(byId) && byPeer == old(byPeer)
      ensures log == old(log) + if peer in old(byPeer) then [DataReceived(old(byPeer)[peer], data)] else []
    {
      hide ApplyAll, Apply, AllProper, Proper, Inverse, HandlesBelow;
      if peer in byPeer {
        var client := byPeer[peer];
        InversePeer(byPeer, byId, peer);
        ProperForKnown(log, client.id, data);
        HandleBelow(log, handles, client.id);
        HandlesStep(log, handles, DataReceived(client, data), handles);
        Push(DataReceived(client, data));
      }
    }

    /** A peer's disconnection. */
    method Disconnect(peer: nat)
      requires Valid()
      modifies this
      ensures Valid() && serverClients == old(serverClients) && taken == old(taken) && byPeer == old(byPeer) - {peer}
      ensures log == old(log) + if peer in old(byPeer) then [RemoveClient(old(byPeer)[peer])] else []
    {
      if peer in byPeer {
        var client := byPeer[peer];
        Evict(client.id);
      }
    }

    /** The server thread takes one item. A client is on its map when its data or removal comes. */
    method Update() returns (output: Output)
      requires Valid() && queue != []
      modifies this
      ensures Valid() && log == old(log) && taken == old(taken) + 1 && byId == old(byId) && byPeer == old(byPeer)
      ensures output == old(queue)[0] && queue == old(queue)[1..]
      ensures serverClients == Apply(old(serverClients), output)
      ensures !output.AddClient? ==> output.client.id in old(serverClients) && old(serverClients)[output.client.id] == output.client
    {
      hide Inverse, HandlesBelow, ApplyAll;
      output := queue[0];
      assert Proper(log[..taken], log[taken]);
      TakeStep(log, taken);
      queue := queue[1..];
      taken := taken + 1;
      match output
      case AddClient(client) => serverClients := serverClients[client.id := client];
      case RemoveClient(client) => serverClients := serverClients - {client.id};
      case DataReceived(_, _) =>
    }
  }

  lemma TakeStep(log: seq<Output>, k: nat)
    requires k < |log|
    ensures ApplyAll(log[..k + 1]) == Apply(ApplyAll(log[..k]), log[k])
  {
    assert log[..k + 1][..k] == log[..k];
  }

  /** The peer map and the id map are each other's inverse. */
  predicate Inverse(byPeer: Clients, byId: Clients) {
    && (forall id :: id in byId ==> byId[id].id == id && byId[id].peer in byPeer && byPeer[byId[id].peer] == byId[id])
    && (forall p :: p in byPeer ==> byPeer[p].peer == p && byPeer[p].id in byId && byId[byPeer[p].id] == byPeer[p])
  }

  lemma InversePeer(byPeer: Clients, byId: Clients, peer: nat)
    requires Inverse(byPeer, byId) && peer in byPeer
    ensures byPeer[peer].id in byId && byId[byPeer[peer].id] == byPeer[peer]
  {
  }

  lemma InverseEvict(byPeer: Clients, byId: Clients, id: nat)
    requires Inverse(byPeer, byId) && id in byId
    ensures Inverse(byPeer - {byId[id].peer}, byId - {id})
  {
  }

  /** The maps after a join, the client with the same id being put out first. */
  function JoinedPeers(byPeer: Clients, byId: Clients, client: Client): Clients {
    (if client.id in byId then byPeer - {byId[client.id].peer} else byPeer)[client.peer := client]
  }

  function JoinedIds(byId: Clients, client: Client): Clients {
    (if client.id in byId then byId - {client.id} else byId)[client.id := client]
  }

  /** A join keeps the maps inverse if and only if the peer has not joined with another id. */
  lemma JoinKeepsInverse(byPeer: Clients, byId: Clients, client: Client)
    requires Inverse(byPeer, byId)
    ensures Inverse(JoinedPeers(byPeer, byId, client), JoinedIds(byId, client)) <==>
            (client.peer in byPeer ==> byPeer[client.peer].id == client.id)
  {
    if client.peer in byPeer && byPeer[client.peer].id != client.id {
      var other := byPeer[client.peer];
      assert other.id in JoinedIds(byId, client);
    }
  }

  /** Peer 1 joined as client 7 and joins again as client 8: client 7 stays on the map by ids. */
  lemma SecondIdBreaks()
    ensures var old1, new1 := Client(0, 7, 1), Client(1, 8, 1);
            var byPeer, byId := map[1 := old1], map[7 := old1];
            && Inverse(byPeer, byId)
            && !Inverse(JoinedPeers(byPeer, byId, new1), JoinedIds(byId, new1))
            && JoinedIds(byId, new1) == map[7 := old1, 8 := new1] && JoinedPeers(byPeer, byId, new1) == map[1 := new1]
  {
    var old1, new1 := Client(0, 7, 1), Client(1, 8, 1);
    JoinKeepsInverse(map[1 := old1], map[7 := old1], new1);
  }

  lemma JoinedIdsIs(byId: Clients, client: Client)
    ensures JoinedIds(byId, client) == byId[client.id := client]
  {
  }
}
