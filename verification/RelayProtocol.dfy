/** Requests of clients to hosts through the tracker, and the hosts' chunked replies on their way back:
    every run of clients, tracker and hosts. */
module RelayProtocol {
  import opened Words
  import opened Fragments
  import opened ChunkedReplies

  /** One call of a client, with the callback id it was given. */
  datatype Job = Job(client: nat, callback: nat)

  /** Where a chunk is. Each is delivered at most once; it is lost when the client is gone. */
  datatype Place = AtTracker | ForClient(client: nat) | Got | Lost

  datatype Sent = Sent(reply: Reply, places: seq<Place>)

  /** `calls` are calls on their way to the tracker and `rejects` its error responses; `owner` is the
      tracker's clientsByHostRequestIDs; `atHost` the requests the hosts have not replied to. `issued`
      and `replies` keep what was asked and answered. */
  datatype System = System(clients: map<nat, Client>, connected: set<nat>, calls: set<Job>, rejects: set<Job>,
                           owner: map<nat, nat>, issued: map<nat, Job>, atHost: set<nat>, replies: map<nat, Sent>)

  datatype Step =
    | Connect(c: nat)
    | Disconnect(c: nat, order: seq<nat>)
    | Request(c: nat)
    | Forward(job: Job, r: nat)
    | Reject(job: Job)
    | Rejected(job: Job)
    | Respond(r: nat, payload: seq<u8>)
    | Relay(r: nat, k: nat)
    | Arrive(r: nat, k: nat)

  function Chunks(r: nat, sent: Sent): seq<Chunk> {
    ChunksOf(r, sent.reply.callback, Serialize(sent.reply))
  }

  function Have(places: seq<Place>): (have: seq<bool>)
    ensures |have| == |places|
  {
    seq(|places|, k requires 0 <= k < |places| => places[k] == Got)
  }

  /** disconnect() makes every pending callback with an error. */
  function Flush(c: Client, order: seq<nat>): Client
    decreases |order|
  {
    if order == [] then c else Flush(Call(c, order[0], Failure), order[1..])
  }

  predicate Lists(order: seq<nat>, s: set<nat>) {
    && (forall x :: x in s ==> x in order) && (forall x :: x in order ==> x in s)
    && forall i, j :: 0 <= i < j < |order| ==> order[i] != order[j]
  }

  predicate NextStep(s: System, s': System, step: Step) {
    match step
    case Connect(c) =>
      c !in s.clients && s' == s.(clients := s.clients[c := Client(0, {}, map[], [])], connected := s.connected + {c})
    case Disconnect(c, order) =>
      && c in s.connected && c in s.clients && Lists(order, s.clients[c].callbacks)
      && s' == s.(clients := s.clients[c := Flush(s.clients[c], order)], connected := s.connected - {c})
    case Request(c) =>
      && c in s.connected && c in s.clients && s.clients[c].next < 0x1_0000_0000
      && var client := s.clients[c];
         s' == s.(clients := s.clients[c := client.(next := client.next + 1, callbacks := client.callbacks + {client.next})],
                  calls := s.calls + {Job(c, client.next)})
    case Forward(job, r) =>
      && job in s.calls && r !in s.issued
      && s' == s.(calls := s.calls - {job}, owner := s.owner[r := job.client], issued := s.issued[r := job], atHost := s.atHost + {r})
    case Reject(job) =>
      job in s.calls && s' == s.(calls := s.calls - {job}, rejects := s.rejects + {job})
    case Rejected(job) =>
      && job in s.rejects
      && s' == (if job.client in s.connected && job.client in s.clients && job.callback in s.clients[job.client].callbacks
                then s.(rejects := s.rejects - {job},
                        clients := s.clients[job.client := Call(s.clients[job.client], job.callback, Failure)])
                else s.(rejects := s.rejects - {job}))
    case Respond(r, payload) =>
      && r in s.atHost && r in s.issued
      && var reply := Reply(s.issued[r].callback, payload);
         var places := seq(|Chunks(r, Sent(reply, []))|, _ => AtTracker);
         s' == s.(atHost := s.atHost - {r}, replies := s.replies[r := Sent(reply, places)])
    case Relay(r, k) =>
      && r in s.replies && k < |s.replies[r].places| && s.replies[r].places[k] == AtTracker
      && var place := if r in s.owner && s.owner[r] in s.connected then ForClient(s.owner[r]) else Lost;
         s' == Moved(s, r, k, place)
    case Arrive(r, k) =>
      && r in s.replies && k < |s.replies[r].places| && k < |Chunks(r, s.replies[r])| && s.replies[r].places[k].ForClient?
      && var c := s.replies[r].places[k].client;
         && c in s.connected && c in s.clients
         && var chunk := Chunks(r, s.replies[r])[k];
            && Fitting(s.clients[c], chunk)
            && s' == Moved(s, r, k, Got).(clients := s.clients[c := ReceiveChunk(s.clients[c], chunk)])
  }

  function Moved(s: System, r: nat, k: nat, place: Place): System
    requires r in s.replies && k < |s.replies[r].places|
  {
    var sent := s.replies[r];
    s.(replies := s.replies[r := sent.(places := sent.places[k := place])])
  }

  predicate Init(s: System) {
    s == System(map[], {}, {}, {}, map[], map[], {}, map[])
  }

  ghost predicate Next(s: System, s': System) {
    exists step :: NextStep(s, s', step)
  }

  ghost predicate Run(states: seq<System>) {
    |states| > 0 && Init(states[0]) && forall t :: 0 <= t < |states| - 1 ==> Next(states[t], states[t + 1])
  }

  // --------------------------------------------------------------- invariant

  /** Callback ids given out so far are pending or were called, the latter once. */
  predicate OnceEach(c: Client) {
    && c.next <= 0x1_0000_0000
    && (forall x :: x in c.callbacks ==> x < c.next)
    && (forall i :: 0 <= i < |c.answers| ==> c.answers[i].callback < c.next && c.answers[i].callback !in c.callbacks)
    && forall i, j :: 0 <= i < j < |c.answers| ==> c.answers[i].callback != c.answers[j].callback
  }

  predicate JobKnown(s: System, job: Job) {
    job.client in s.clients && job.callback < s.clients[job.client].next
  }

  predicate Pending(s: System, job: Job) {
    job.client in s.clients && (job.client in s.connected ==> job.callback in s.clients[job.client].callbacks)
  }

  /** Calls, rejections and issued requests are for different jobs, all of which are known and, while
      they are open, pending at a client that is still there. */
  predicate JobsInv(s: System) {
    && (forall job :: job in s.calls + s.rejects ==> JobKnown(s, job) && Pending(s, job))
    && (forall r :: r in s.issued ==> JobKnown(s, s.issued[r]) && s.issued[r] !in s.calls && s.issued[r] !in s.rejects)
    && s.calls !! s.rejects
    && (forall r1, r2 :: r1 in s.issued && r2 in s.issued && s.issued[r1] == s.issued[r2] ==> r1 == r2)
    && s.owner.Keys == s.issued.Keys && (forall r :: r in s.issued ==> s.owner[r] == s.issued[r].client)
    && forall r :: r in s.atHost ==> r in s.issued && r !in s.replies && Pending(s, s.issued[r])
  }

  /** The chunks of one reply: on their way to the client that asked or stored by it. */
  predicate ReplyInv(s: System, r: nat)
    requires r in s.replies && r in s.issued
  {
    var sent, job := s.replies[r], s.issued[r];
    && sent.reply.callback == job.callback && |sent.places| == |Chunks(r, sent)|
    && (forall k :: 0 <= k < |sent.places| && sent.places[k].ForClient? ==> sent.places[k].client == job.client)
    && job.client in s.clients
    && Holds(s.clients[job.client], r, Serialize(sent.reply), Have(sent.places))
    && if Missing(Have(sent.places)) == 0
       then Answered(job.callback, Payload(sent.reply.payload)) in s.clients[job.client].answers
       else Pending(s, job)
  }

  predicate RepliesInv(s: System) {
    forall r :: r in s.replies ==> r in s.issued && ReplyInv(s, r)
  }

  /** A payload handed to a callback is the reply to the request made with it. */
  ghost predicate Genuine(s: System, c: nat, a: Answered) {
    a.answer.Payload? ==>
      exists r :: r in s.replies && r in s.issued && s.issued[r] == Job(c, a.callback) && s.replies[r].reply.payload == a.answer.bytes
  }

  /** A client's downloads are replies to its own requests, and its answers are genuine and one each. */
  ghost predicate ClientOk(s: System, c: nat)
    requires c in s.clients
  {
    && OnceEach(s.clients[c])
    && (forall r :: r in s.clients[c].downloads ==> r in s.replies && r in s.issued && s.issued[r].client == c)
    && forall a :: a in s.clients[c].answers ==> Genuine(s, c, a)
  }

  ghost predicate ClientsInv(s: System) {
    s.connected <= s.clients.Keys && forall c :: c in s.clients ==> ClientOk(s, c)
  }

  ghost predicate Inv(s: System) {
    JobsInv(s) && RepliesInv(s) && ClientsInv(s)
  }

  // ------------------------------------------------------------------ proofs

  lemma {:induction false} FlushIs(c: Client, order: seq<nat>)
    requires OnceEach(c) && Lists(order, c.callbacks)
    ensures var f := Flush(c, order);
            && OnceEach(f) && f.callbacks == {} && f.downloads == c.downloads && f.next == c.next
            && |f.answers| >= |c.answers| && f.answers[..|c.answers|] == c.answers
            && forall i :: |c.answers| <= i < |f.answers| ==> f.answers[i].answer == Failure
    decreases |order|
  {
    if order == [] {
      assert c.callbacks == {};
    } else {
      var d := Call(c, order[0], Failure);
      assert order[0] in c.callbacks;
      CallOnce(c, order[0], Failure);
      RestLists(order, c.callbacks);
      FlushIs(d, order[1..]);
      assert d.answers[..|c.answers|] == c.answers;
    }
  }

  lemma RestLists(order: seq<nat>, s: set<nat>)
    requires order != [] && Lists(order, s)
    ensures Lists(order[1..], s - {order[0]})
  {
    assert forall i :: 1 <= i < |order| ==> order[i] != order[0] && order[i] == order[1..][i - 1];
  }

  lemma CallOnce(c: Client, callback: nat, answer: Answer)
    requires OnceEach(c) && callback in c.callbacks
    ensures OnceEach(Call(c, callback, answer))
  {
  }

  /** What most steps do to a client: it keeps its downloads and what it answered. */
  predicate Grown(before: Client, after: Client) {
    before.downloads == after.downloads && before.next <= after.next && forall a :: a in before.answers ==> a in after.answers
  }

  /** No client is forgotten, and one that is still there keeps its pending callbacks. */
  predicate Grows(s: System, s': System) {
    forall c :: c in s.clients ==>
      && c in s'.clients && Grown(s.clients[c], s'.clients[c])
      && (c in s'.connected ==> c in s.connected && s.clients[c].callbacks <= s'.clients[c].callbacks)
  }

  lemma PendingGrows(s: System, s': System, job: Job)
    requires Grows(s, s')
    ensures JobKnown(s, job) ==> JobKnown(s', job)
    ensures Pending(s, job) ==> Pending(s', job)
  {
  }

  lemma JobsGrow(s: System, s': System)
    requires JobsInv(s) && Grows(s, s') && s' == s.(clients := s'.clients, connected := s'.connected)
    ensures JobsInv(s')
  {
    hide Grows, JobKnown, Pending;
    forall job | job in s.calls + s.rejects
      ensures JobKnown(s', job) && Pending(s', job)
    {
      PendingGrows(s, s', job);
    }
    forall r | r in s.issued
      ensures JobKnown(s', s.issued[r]) && (r in s.atHost ==> Pending(s', s.issued[r]))
    {
      PendingGrows(s, s', s.issued[r]);
    }
  }

  lemma HoldsSame(c: Client, f: Client, r: nat, data: seq<u8>, have: seq<bool>)
    requires Holds(c, r, data, have) && f.downloads == c.downloads
    ensures Holds(f, r, data, have)
  {
  }

  lemma ReplyGrows(s: System, s': System, r: nat)
    requires r in s.replies && r in s.issued && ReplyInv(s, r) && Grows(s, s')
    requires r in s'.replies && s'.replies[r] == s.replies[r] && r in s'.issued && s'.issued[r] == s.issued[r]
    ensures ReplyInv(s', r)
  {
    hide Holds, Have, Chunks, Pending, Serialize;
    var sent, job := s.replies[r], s.issued[r];
    PendingGrows(s, s', job);
    HoldsSame(s.clients[job.client], s'.clients[job.client], r, Serialize(sent.reply), Have(sent.places));
  }

  lemma RepliesGrow(s: System, s': System)
    requires RepliesInv(s) && Grows(s, s') && s'.replies == s.replies
    requires forall r :: r in s.issued ==> r in s'.issued && s'.issued[r] == s.issued[r]
    ensures RepliesInv(s')
  {
    hide Grows, ReplyInv;
    forall r | r in s'.replies
      ensures r in s'.issued && ReplyInv(s', r)
    {
      assert r in s.issued && ReplyInv(s, r);
      ReplyGrows(s, s', r);
    }
  }

  /** Genuine answers stay genuine when no reply or issued request is lost. */
  lemma KeepGenuine(s: System, s': System, c: nat, a: Answered)
    requires forall r :: r in s.issued ==> r in s'.issued && s'.issued[r] == s.issued[r]
    requires forall r :: r in s.replies ==> r in s'.replies && s'.replies[r].reply == s.replies[r].reply
    requires Genuine(s, c, a)
    ensures Genuine(s', c, a)
  {
    if a.answer.Payload? {
      var r :| r in s.replies && r in s.issued && s.issued[r] == Job(c, a.callback) && s.replies[r].reply.payload == a.answer.bytes;
      assert r in s'.replies && r in s'.issued;
    }
  }

  ghost predicate HistoryKept(s: System, s': System) {
    && (forall r :: r in s.issued ==> r in s'.issued && s'.issued[r] == s.issued[r])
    && forall r :: r in s.replies ==> r in s'.replies && s'.replies[r].reply == s.replies[r].reply
  }

  lemma ClientKept(s: System, s': System, c: nat)
    requires c in s.clients && ClientOk(s, c) && HistoryKept(s, s') && c in s'.clients
    requires OnceEach(s'.clients[c]) && s'.clients[c].downloads.Keys <= s.clients[c].downloads.Keys
    requires forall a :: a in s'.clients[c].answers ==> a in s.clients[c].answers || a.answer == Failure
    ensures ClientOk(s', c)
  {
    hide OnceEach, Genuine;
    forall a | a in s'.clients[c].answers
      ensures Genuine(s', c, a)
    {
      if a in s.clients[c].answers {
        assert Genuine(s, c, a);
        KeepGenuine(s, s', c, a);
      } else {
        FailureIsGenuine(s', c, a);
      }
    }
    forall r | r in s'.clients[c].downloads
      ensures r in s'.replies && r in s'.issued && s'.issued[r].client == c
    {
      assert r in s.clients[c].downloads;
    }
  }

  lemma FailureIsGenuine(s: System, c: nat, a: Answered)
    requires a.answer == Failure
    ensures Genuine(s, c, a)
  {
  }

  lemma ClientsKept(s: System, s': System)
    requires ClientsInv(s) && HistoryKept(s, s') && s'.clients == s.clients && s'.connected == s.connected
    ensures ClientsInv(s')
  {
    hide ClientOk, HistoryKept;
    forall c | c in s'.clients
      ensures ClientOk(s', c)
    {
      assert ClientOk(s, c);
      OkOnce(s, c);
      ClientKept(s, s', c);
    }
  }

  lemma OkOnce(s: System, c: nat)
    requires c in s.clients && ClientOk(s, c)
    ensures OnceEach(s.clients[c])
  {
  }

  /** One client changed, the rest of the state is the same. */
  lemma OneClientKept(s: System, s': System, c: nat)
    requires ClientsInv(s) && HistoryKept(s, s') && s'.connected <= s'.clients.Keys
    requires c in s'.clients && s'.clients - {c} == s.clients - {c} && ClientOk(s', c)
    ensures ClientsInv(s')
  {
    hide ClientOk, HistoryKept;
    forall d | d in s'.clients
      ensures ClientOk(s', d)
    {
      if d != c {
        assert d in (s'.clients - {c}) && (s'.clients - {c})[d] == s'.clients[d];
        assert d in (s.clients - {c}) && (s.clients - {c})[d] == s.clients[d];
        assert ClientOk(s, d);
        OkOnce(s, d);
        ClientKept(s, s', d);
      }
    }
  }

  lemma ConnectKeeps(s: System, s': System, c: nat)
    requires Inv(s) && NextStep(s, s', Connect(c))
    ensures Inv(s')
  {
    hide JobsInv, RepliesInv, ClientsInv;
    assert Grows(s, s');
    JobsGrow(s, s');
    RepliesGrow(s, s');
    ClientsConnected(s);
    OneClientKept(s, s', c);
  }

  lemma ClientsConnected(s: System)
    requires ClientsInv(s)
    ensures s.connected <= s.clients.Keys && forall c :: c in s.clients ==> ClientOk(s, c)
  {
  }

  lemma DisconnectKeeps(s: System, s': System, c: nat, order: seq<nat>)
    requires Inv(s) && NextStep(s, s', Disconnect(c, order))
    ensures Inv(s')
  {
    hide JobsInv, RepliesInv, ClientsInv, Flush, OnceEach, ClientOk;
    var client, f := s.clients[c], Flush(s.clients[c], order);
    ClientsConnected(s);
    assert ClientOk(s, c);
    OkOnce(s, c);
    FlushIs(client, order);
    FlushAnswers(client, f);
    assert Grows(s, s');
    JobsGrow(s, s');
    RepliesGrow(s, s');
    ClientKept(s, s', c);
    OneClientKept(s, s', c);
  }

  lemma FlushAnswers(c: Client, f: Client)
    requires |f.answers| >= |c.answers| && f.answers[..|c.answers|] == c.answers
    requires forall i :: |c.answers| <= i < |f.answers| ==> f.answers[i].answer == Failure
    ensures forall a :: a in c.answers ==> a in f.answers
    ensures forall a :: a in f.answers ==> a in c.answers || a.answer == Failure
  {
    forall a | a in c.answers
      ensures a in f.answers
    {
      var i :| 0 <= i < |c.answers| && c.answers[i] == a;
      assert f.answers[..|c.answers|][i] == f.answers[i];
    }
    forall a | a in f.answers
      ensures a in c.answers || a.answer == Failure
    {
      var i :| 0 <= i < |f.answers| && f.answers[i] == a;
      assert i < |c.answers| ==> f.answers[..|c.answers|][i] == f.answers[i];
    }
  }

  lemma RequestKeeps(s: System, s': System, c: nat)
    requires Inv(s) && NextStep(s, s', Request(c))
    ensures Inv(s')
  {
    var job, mid := Job(c, s.clients[c].next), s.(clients := s'.clients);
    NextIsNew(s, c);
    hide JobsInv, RepliesInv, ClientsInv, OnceEach, ClientOk;
    ClientsConnected(s);
    assert ClientOk(s, c);
    OkOnce(s, c);
    RequestOnce(s.clients[c]);
    assert Grows(s, s');
    assert Grows(s, mid);
    JobsGrow(s, mid);
    CallAdded(mid, s', job);
    RepliesGrow(s, s');
    ClientKept(s, s', c);
    OneClientKept(s, s', c);
  }

  lemma RequestOnce(c: Client)
    requires OnceEach(c) && c.next < 0x1_0000_0000
    ensures OnceEach(c.(next := c.next + 1, callbacks := c.callbacks + {c.next}))
  {
  }

  /** No job has the callback id that is next. */
  lemma NextIsNew(s: System, c: nat)
    requires JobsInv(s) && c in s.clients
    ensures var job := Job(c, s.clients[c].next);
            job !in s.calls && job !in s.rejects && forall r :: r in s.issued ==> s.issued[r] != job
  {
    assert !JobKnown(s, Job(c, s.clients[c].next));
  }

  lemma CallAdded(s: System, s': System, job: Job)
    requires JobsInv(s) && s' == s.(calls := s.calls + {job}) && JobKnown(s, job) && Pending(s, job)
    requires job !in s.rejects && forall r :: r in s.issued ==> s.issued[r] != job
    ensures JobsInv(s')
  {
    hide Pending, JobKnown;
    StateSame(s, s');
  }

  lemma StateSame(s: System, s': System)
    requires s'.clients == s.clients && s'.connected == s.connected
    ensures forall job :: Pending(s, job) <==> Pending(s', job)
    ensures forall job :: JobKnown(s, job) <==> JobKnown(s', job)
    ensures Grows(s, s')
  {
  }

  lemma JobForwarded(s: System, s': System, job: Job, r: nat)
    requires JobsInv(s) && job in s.calls && r !in s.issued && r !in s.replies
    requires s' == s.(calls := s.calls - {job}, owner := s.owner[r := job.client], issued := s.issued[r := job], atHost := s.atHost + {r})
    ensures JobsInv(s')
  {
    hide Pending, JobKnown;
    forall j | j in s'.calls + s'.rejects
      ensures JobKnown(s', j) && Pending(s', j)
    {
      assert j in s.calls + s.rejects;
      JobSame(s, s', j);
    }
    assert job in s.calls + s.rejects;
    forall q | q in s'.issued
      ensures JobKnown(s', s'.issued[q]) && (q in s'.atHost ==> Pending(s', s'.issued[q]))
    {
      JobSame(s, s', s'.issued[q]);
    }
  }

  lemma JobSame(s: System, s': System, job: Job)
    requires s'.clients == s.clients && s'.connected == s.connected
    ensures JobKnown(s, job) ==> JobKnown(s', job)
    ensures Pending(s, job) ==> Pending(s', job)
  {
  }

  lemma ForwardKeeps(s: System, s': System, job: Job, r: nat)
    requires Inv(s) && NextStep(s, s', Forward(job, r))
    ensures Inv(s')
  {
    hide JobsInv, ClientsInv, RepliesInv, Grows;
    NotReplied(s, r);
    StateSame(s, s');
    JobForwarded(s, s', job, r);
    RepliesGrow(s, s');
    ClientsKept(s, s');
  }

  lemma NotReplied(s: System, r: nat)
    requires RepliesInv(s) && r !in s.issued
    ensures r !in s.replies
  {
  }

  lemma JobSentBack(s: System, s': System, job: Job)
    requires JobsInv(s) && NextStep(s, s', Reject(job))
    ensures JobsInv(s')
  {
    StateSame(s, s');
    hide Pending, JobKnown, Grows;
    assert forall j :: j in s'.calls + s'.rejects ==> j in s.calls + s.rejects;
  }

  lemma RejectKeeps(s: System, s': System, job: Job)
    requires Inv(s) && NextStep(s, s', Reject(job))
    ensures Inv(s')
  {
    hide JobsInv, ClientsInv, RepliesInv, Grows;
    StateSame(s, s');
    JobSentBack(s, s', job);
    RepliesGrow(s, s');
    ClientsKept(s, s');
  }

  lemma JobRejected(s: System, job: Job)
    requires JobsInv(s) && job in s.rejects
    ensures var s' := s.(rejects := s.rejects - {job});
            JobsInv(s') && JobKnown(s, job) && Pending(s, job)
            && job !in s.calls && forall r :: r in s.issued ==> s.issued[r] != job
  {
    var s' := s.(rejects := s.rejects - {job});
    assert job in s.calls + s.rejects;
    StateSame(s, s');
    hide Pending, JobKnown, Grows;
    assert forall j :: j in s'.calls + s'.rejects ==> j in s.calls + s.rejects;
  }

  /** Making a callback of one client disturbs no other job. */
  lemma JobCalled(s: System, s': System, job: Job, answer: Answer)
    requires JobsInv(s) && job.client in s.clients && job !in s.calls && job !in s.rejects
    requires forall r :: r in s.atHost && r in s.issued ==> s.issued[r] != job
    requires s'.connected == s.connected && s'.calls == s.calls && s'.rejects == s.rejects && s'.owner == s.owner
    requires s'.issued == s.issued && s'.atHost == s.atHost && s'.replies.Keys == s.replies.Keys
    requires s'.clients - {job.client} == s.clients - {job.client} && job.client in s'.clients
    requires s'.clients[job.client].next == s.clients[job.client].next
    requires s.clients[job.client].callbacks - {job.callback} <= s'.clients[job.client].callbacks
    ensures JobsInv(s')
  {
    forall j: Job | j != job
      ensures JobKnown(s, j) ==> JobKnown(s', j)
      ensures Pending(s, j) ==> Pending(s', j)
    {
      OtherJob(s, s', job, j);
    }
    SameJob(s, s', job);
    hide Pending, JobKnown;
  }

  lemma OtherJob(s: System, s': System, job: Job, j: Job)
    requires job.client in s.clients && s'.connected == s.connected && j != job
    requires s'.clients - {job.client} == s.clients - {job.client} && job.client in s'.clients
    requires s'.clients[job.client].next == s.clients[job.client].next
    requires s.clients[job.client].callbacks - {job.callback} <= s'.clients[job.client].callbacks
    ensures JobKnown(s, j) ==> JobKnown(s', j)
    ensures Pending(s, j) ==> Pending(s', j)
  {
    if j.client in s.clients && j.client != job.client {
      assert j.client in (s.clients - {job.client}) && (s.clients - {job.client})[j.client] == s.clients[j.client];
      assert j.client in (s'.clients - {job.client}) && (s'.clients - {job.client})[j.client] == s'.clients[j.client];
    }
  }

  lemma SameJob(s: System, s': System, job: Job)
    requires job.client in s.clients && job.client in s'.clients && s'.clients[job.client].next == s.clients[job.client].next
    ensures JobKnown(s, job) ==> JobKnown(s', job)
  {
  }

  lemma RejectedKeeps(s: System, s': System, job: Job)
    requires Inv(s) && NextStep(s, s', Rejected(job))
    ensures Inv(s')
  {
    hide JobsInv, ClientsInv, RepliesInv, Pending, JobKnown, ClientOk, OnceEach, Grows;
    var mid := s.(rejects := s.rejects - {job});
    JobRejected(s, job);
    StateSame(s, mid);
    RepliesGrow(s, mid);
    ClientsKept(s, mid);
    if s' != mid {
      var c := job.client;
      ClientsConnected(mid);
      assert ClientOk(mid, c);
      OkOnce(mid, c);
      CallOnce(mid.clients[c], job.callback, Failure);
      JobCalled(mid, s', job, Failure);
      RepliesCalled(mid, s', job);
      ClientKept(mid, s', c);
      OneClientKept(mid, s', c);
    }
  }

  /** A failure called for one job disturbs no reply to another. */
  lemma RepliesCalled(s: System, s': System, job: Job)
    requires RepliesInv(s) && job.client in s.clients && forall r :: r in s.issued ==> s.issued[r] != job
    requires s' == s.(clients := s.clients[job.client := Call(s.clients[job.client], job.callback, Failure)])
    ensures RepliesInv(s')
  {
    forall r | r in s'.replies
      ensures r in s'.issued && ReplyInv(s', r)
    {
      assert ReplyInv(s, r);
      ReplyCalled(s, s', job, r);
    }
  }

  lemma ReplyCalled(s: System, s': System, job: Job, r: nat)
    requires r in s.replies && r in s.issued && ReplyInv(s, r) && job.client in s.clients && s.issued[r] != job
    requires s' == s.(clients := s.clients[job.client := Call(s.clients[job.client], job.callback, Failure)])
    ensures ReplyInv(s', r)
  {
    hide Holds, Have, Chunks, Serialize;
    var sent, own := s.replies[r], s.issued[r];
    HoldsSame(s.clients[own.client], s'.clients[own.client], r, Serialize(sent.reply), Have(sent.places));
    OtherJob(s, s', job, own);
  }

  lemma RespondKeeps(s: System, s': System, r: nat, payload: seq<u8>)
    requires Inv(s) && NextStep(s, s', Respond(r, payload))
    ensures Inv(s')
  {
    hide JobsInv, ClientsInv, RepliesInv, ReplyInv, Grows, Chunks, Pending, JobKnown;
    StateSame(s, s');
    JobResponded(s, s', r, payload);
    Responded(s, s', r, payload);
    OneReplyKept(s, s', r);
    ClientsKept(s, s');
  }

  /** One reply changed or added, the others are the same. */
  lemma OneReplyKept(s: System, s': System, r: nat)
    requires RepliesInv(s) && Grows(s, s') && s'.issued == s.issued
    requires r in s'.replies && s'.replies - {r} == s.replies - {r} && r in s'.issued && ReplyInv(s', r)
    ensures RepliesInv(s')
  {
    hide ReplyInv, Grows;
    forall q | q in s'.replies
      ensures q in s'.issued && ReplyInv(s', q)
    {
      if q != r {
        assert q in (s'.replies - {r}) && (s'.replies - {r})[q] == s'.replies[q];
        assert q in (s.replies - {r}) && (s.replies - {r})[q] == s.replies[q];
        assert ReplyInv(s, q);
        ReplyGrows(s, s', q);
      }
    }
  }

  lemma ReplyAt(s: System, r: nat)
    requires RepliesInv(s) && r in s.replies
    ensures r in s.issued && ReplyInv(s, r)
  {
  }

  lemma JobResponded(s: System, s': System, r: nat, payload: seq<u8>)
    requires JobsInv(s) && NextStep(s, s', Respond(r, payload))
    ensures JobsInv(s') && r !in s.replies && Pending(s, s.issued[r]) && JobKnown(s, s.issued[r])
  {
    StateSame(s, s');
    hide Pending, JobKnown, Grows, Serialize;
  }

  /** A new reply: nothing of it has arrived yet. */
  lemma Responded(s: System, s': System, r: nat, payload: seq<u8>)
    requires ClientsInv(s) && NextStep(s, s', Respond(r, payload)) && r !in s.replies && Pending(s, s.issued[r])
    ensures ReplyInv(s', r)
  {
    hide Serialize, OnceEach, Genuine;
    var sent, c := s'.replies[r], s.issued[r].client;
    assert ClientOk(s, c);
    var have := Have(sent.places);
    MissingAll(have);
    CutNotEmpty(Serialize(sent.reply));
  }

  lemma CutNotEmpty(data: seq<u8>)
    requires data != []
    ensures |CutFrom(data, CHUNK_SIZE, 0)| > 0
  {
  }

  lemma RelayKeeps(s: System, s': System, r: nat, k: nat)
    requires Inv(s) && NextStep(s, s', Relay(r, k))
    ensures Inv(s')
  {
    hide JobsInv, ClientsInv, RepliesInv, ReplyInv, Grows;
    StateSame(s, s');
    ReplyAt(s, r);
    Relayed(s, s', r, k);
    JobsMoved(s, s');
    OneReplyKept(s, s', r);
    ClientsKept(s, s');
  }

  lemma JobsMoved(s: System, s': System)
    requires JobsInv(s) && s' == s.(replies := s'.replies) && s'.replies.Keys == s.replies.Keys
    ensures JobsInv(s')
  {
    StateSame(s, s');
    hide Pending, JobKnown, Grows;
  }

  lemma Relayed(s: System, s': System, r: nat, k: nat)
    requires JobsInv(s) && r in s.replies && r in s.issued && ReplyInv(s, r) && NextStep(s, s', Relay(r, k))
    ensures ReplyInv(s', r)
  {
    hide Serialize, Holds, Pending, Missing, Chunks;
    StateSame(s, s');
    assert Have(s'.replies[r].places) == Have(s.replies[r].places);
    SameReply(s.replies[r], s'.replies[r], r);
  }

  lemma SameReply(before: Sent, after: Sent, r: nat)
    requires before.reply == after.reply
    ensures Chunks(r, before) == Chunks(r, after)
  {
  }

  /** A chunk that arrives fits the client's buffer. */
  lemma ArriveFits(s: System, r: nat, k: nat)
    requires r in s.replies && r in s.issued && ReplyInv(s, r) && k < |s.replies[r].places| && s.replies[r].places[k].ForClient?
    ensures s.replies[r].reply.callback < 0x1_0000_0000 ==>
              && k < |Chunks(r, s.replies[r])|
              && Fitting(s.clients[s.issued[r].client], Chunks(r, s.replies[r])[k])
  {
    hide Holds, Serialize, Missing;
    var sent := s.replies[r];
    if sent.reply.callback < 0x1_0000_0000 {
      ChunkArrives(s.clients[s.issued[r].client], r, sent.reply, Have(sent.places), k);
    }
  }

  /** In every run a chunk on its way to a client lies inside the client's buffer when it arrives. */
  lemma ChunksFit(states: seq<System>, t: nat, r: nat, k: nat)
    requires Run(states) && t < |states| && r in states[t].replies
    requires k < |states[t].replies[r].places| && states[t].replies[r].places[k].ForClient?
    ensures var s := states[t];
            && r in s.issued && s.issued[r].client in s.clients && k < |Chunks(r, s.replies[r])|
            && Fitting(s.clients[s.issued[r].client], Chunks(r, s.replies[r])[k])
  {
    RunInv(states, t);
    assert ReplyInv(states[t], r);
    ArriveFits(states[t], r, k);
  }

  /** What a client does with an arriving chunk. */
  lemma Arrived(s: System, s': System, r: nat, k: nat)
    requires JobsInv(s) && r in s.replies && r in s.issued && ReplyInv(s, r) && NextStep(s, s', Arrive(r, k))
    requires s.issued[r].client in s.clients && OnceEach(s.clients[s.issued[r].client])
    ensures var job, sent := s.issued[r], s.replies[r];
            var c, c' := s.clients[job.client], ReceiveChunk(s.clients[job.client], Chunks(r, sent)[k]);
            && s' == Moved(s, r, k, Got).(clients := s.clients[job.client := c'])
            && job.client in s.connected && Fitting(c, Chunks(r, sent)[k])
            && Have(s'.replies[r].places) == Have(sent.places)[k := true]
            && Missing(Have(s'.replies[r].places)) == Missing(Have(sent.places)) - 1
            && Holds(c', r, Serialize(sent.reply), Have(s'.replies[r].places))
            && c'.downloads - {r} == c.downloads - {r} && c'.next == c.next
            && if Missing(Have(sent.places)) == 1
               then job.callback in c.callbacks && c'.callbacks == c.callbacks - {job.callback}
                    && c'.answers == c.answers + [Answered(job.callback, Payload(sent.reply.payload))]
               else c'.callbacks == c.callbacks && c'.answers == c.answers
  {
    hide Holds, Serialize, Missing, ReceiveChunk, Fitting;
    var job, sent := s.issued[r], s.replies[r];
    var have := Have(sent.places);
    assert sent.reply.callback < 0x1_0000_0000 by {
      assert JobKnown(s, job);
    }
    ChunkArrives(s.clients[job.client], r, sent.reply, have, k);
    assert Have(sent.places[k := Got]) == have[k := true];
    MissingOneLess(have, k);
    assert Missing(have) == 1 ==> Pending(s, job);
  }

  lemma HoldsOther(c: Client, c': Client, r: nat, q: nat, data: seq<u8>, have: seq<bool>)
    requires Holds(c, q, data, have) && q != r && c'.downloads - {r} == c.downloads - {r}
    ensures Holds(c', q, data, have)
  {
    assert q in c.downloads <==> q in c.downloads - {r};
    assert q in c'.downloads <==> q in c'.downloads - {r};
    if q in c.downloads {
      assert (c.downloads - {r})[q] == c.downloads[q];
      assert (c'.downloads - {r})[q] == c'.downloads[q];
    }
  }

  /** What an arriving chunk may change: one client's download r, and its callback for that request. */
  predicate ArriveEffect(s: System, s': System, r: nat)
    requires r in s.issued
  {
    var job := s.issued[r];
    && job.client in s.clients && job.client in s'.clients && s'.clients - {job.client} == s.clients - {job.client}
    && s' == s.(clients := s'.clients, replies := s'.replies) && s'.replies.Keys == s.replies.Keys
    && r in s.replies && s'.replies - {r} == s.replies - {r} && s'.replies[r].reply == s.replies[r].reply
    && var c, c' := s.clients[job.client], s'.clients[job.client];
       c'.next == c.next && c'.downloads - {r} == c.downloads - {r} && MayCall(c, c', job.callback, s.replies[r].reply.payload)
  }

  /** The callback is made with the payload, or nothing happens to the callbacks. */
  predicate MayCall(c: Client, c': Client, callback: nat, payload: seq<u8>) {
    || (c'.callbacks == c.callbacks && c'.answers == c.answers)
    || (callback in c.callbacks && c'.callbacks == c.callbacks - {callback}
        && c'.answers == c.answers + [Answered(callback, Payload(payload))])
  }

  lemma JobsArrive(s: System, s': System, r: nat)
    requires JobsInv(s) && r in s.issued && ArriveEffect(s, s', r)
    ensures JobsInv(s')
  {
    hide Pending, JobKnown;
    JobCalled(s, s', s.issued[r], Failure);
  }

  lemma OtherReply(s: System, s': System, r: nat, q: nat)
    requires JobsInv(s) && r in s.issued && ArriveEffect(s, s', r) && q != r && q in s.replies && q in s.issued && ReplyInv(s, q)
    ensures ReplyInv(s', q)
  {
    hide Holds, Have, Chunks, Serialize, Missing, JobKnown;
    var job, own, sent := s.issued[r], s.issued[q], s.replies[q];
    assert q in s'.replies && s'.replies[q] == sent by {
      assert (s'.replies - {r})[q] == s'.replies[q] && (s.replies - {r})[q] == s.replies[q];
    }
    assert own != job;
    OtherJob(s, s', job, own);
    if own.client == job.client {
      HoldsOther(s.clients[own.client], s'.clients[own.client], r, q, Serialize(sent.reply), Have(sent.places));
    } else {
      assert (s'.clients - {job.client})[own.client] == s'.clients[own.client];
      assert (s.clients - {job.client})[own.client] == s.clients[own.client];
    }
  }

  lemma OtherReplies(s: System, s': System, r: nat)
    requires JobsInv(s) && RepliesInv(s) && r in s.issued && ArriveEffect(s, s', r) && ReplyInv(s', r)
    ensures RepliesInv(s')
  {
    hide JobsInv, ReplyInv;
    forall q | q in s'.replies
      ensures q in s'.issued && ReplyInv(s', q)
    {
      assert q in s.replies && ReplyInv(s, q);
      if q != r {
        OtherReply(s, s', r, q);
      }
    }
  }

  lemma ClientArrive(s: System, s': System, r: nat)
    requires ClientsInv(s) && r in s.issued && ArriveEffect(s, s', r)
    ensures ClientsInv(s')
  {
    hide OnceEach, Genuine;
    var job := s.issued[r];
    var c, c' := s.clients[job.client], s'.clients[job.client];
    assert ClientOk(s, job.client);
    ArriveHistory(s, s', r);
    SameKeys(s.clients, s'.clients, job.client);
    forall q | q in c'.downloads
      ensures q in s'.replies && q in s'.issued && s'.issued[q].client == job.client
    {
      if q != r {
        assert q in c'.downloads - {r};
        assert q in c.downloads;
      }
    }
    forall a | a in c'.answers
      ensures Genuine(s', job.client, a)
    {
      if a in c.answers {
        KeepGenuine(s, s', job.client, a);
      } else {
        assert a == Answered(job.callback, Payload(s.replies[r].reply.payload));
        NewIsGenuine(s', r);
      }
    }
    ArriveOnce(c, c', job.callback, s.replies[r].reply.payload);
    OneClientKept(s, s', job.client);
  }

  lemma ArriveHistory(s: System, s': System, r: nat)
    requires r in s.issued && ArriveEffect(s, s', r)
    ensures HistoryKept(s, s')
  {
    forall q | q in s.replies
      ensures q in s'.replies && s'.replies[q].reply == s.replies[q].reply
    {
      if q != r {
        assert (s'.replies - {r})[q] == s'.replies[q] && (s.replies - {r})[q] == s.replies[q];
      }
    }
  }

  lemma SameKeys(m: map<nat, Client>, m': map<nat, Client>, c: nat)
    requires c in m && c in m' && m' - {c} == m - {c}
    ensures m'.Keys == m.Keys
  {
    assert m.Keys == (m - {c}).Keys + {c};
    assert m'.Keys == (m' - {c}).Keys + {c};
  }

  lemma NewIsGenuine(s: System, r: nat)
    requires r in s.replies && r in s.issued
    ensures Genuine(s, s.issued[r].client, Answered(s.issued[r].callback, Payload(s.replies[r].reply.payload)))
  {
  }

  lemma ArriveOnce(c: Client, c': Client, callback: nat, payload: seq<u8>)
    requires OnceEach(c) && c'.next == c.next && MayCall(c, c', callback, payload)
    ensures OnceEach(c')
  {
  }

  lemma ArriveKeeps(s: System, s': System, r: nat, k: nat)
    requires Inv(s) && NextStep(s, s', Arrive(r, k))
    ensures Inv(s')
  {
    hide JobsInv, RepliesInv, ClientsInv, Holds, Missing, Serialize, ReceiveChunk, OnceEach, ReplyInv, ClientOk, Chunks;
    ReplyAt(s, r);
    OwnerIsThere(s, r);
    Arrived(s, s', r, k);
    assert ArriveEffect(s, s', r);
    ReplyArrived(s, s', r);
    JobsArrive(s, s', r);
    OtherReplies(s, s', r);
    ClientArrive(s, s', r);
  }

  lemma OwnerIsThere(s: System, r: nat)
    requires JobsInv(s) && ClientsInv(s) && r in s.issued
    ensures s.issued[r].client in s.clients && OnceEach(s.clients[s.issued[r].client])
  {
    assert JobKnown(s, s.issued[r]);
    assert ClientOk(s, s.issued[r].client);
  }

  lemma ReplyArrived(s: System, s': System, r: nat)
    requires r in s.issued && r in s.replies && ReplyInv(s, r) && ArriveEffect(s, s', r)
    requires var job, sent := s.issued[r], s.replies[r];
             && Holds(s'.clients[job.client], r, Serialize(sent.reply), Have(s'.replies[r].places))
             && Missing(Have(s'.replies[r].places)) == Missing(Have(sent.places)) - 1
             && |s'.replies[r].places| == |sent.places|
             && (forall k :: 0 <= k < |sent.places| ==> s'.replies[r].places[k] == sent.places[k] || s'.replies[r].places[k] == Got)
             && (Missing(Have(sent.places)) == 1 ==>
                   Answered(job.callback, Payload(sent.reply.payload)) in s'.clients[job.client].answers)
             && (Missing(Have(sent.places)) != 1 ==> s'.clients[job.client].callbacks == s.clients[job.client].callbacks)
    ensures ReplyInv(s', r)
  {
    hide Holds, Serialize, Have, Missing;
    SameReply(s.replies[r], s'.replies[r], r);
  }

  lemma NextInv(s: System, s': System)
    requires Inv(s) && Next(s, s')
    ensures Inv(s')
  {
    var step :| NextStep(s, s', step);
    hide Inv, NextStep;
    match step
    case Connect(c) => ConnectKeeps(s, s', c);
    case Disconnect(c, order) => DisconnectKeeps(s, s', c, order);
    case Request(c) => RequestKeeps(s, s', c);
    case Forward(job, r) => ForwardKeeps(s, s', job, r);
    case Reject(job) => RejectKeeps(s, s', job);
    case Rejected(job) => RejectedKeeps(s, s', job);
    case Respond(r, payload) => RespondKeeps(s, s', r, payload);
    case Relay(r, k) => RelayKeeps(s, s', r, k);
    case Arrive(r, k) => ArriveKeeps(s, s', r, k);
  }

  lemma {:induction false} RunInv(states: seq<System>, t: nat)
    requires Run(states) && t < |states|
    ensures Inv(states[t])
  {
    hide Next, Inv;
    if t == 0 {
      StartInv(states[0]);
    } else {
      RunInv(states, t - 1);
      assert Next(states[t - 1], states[t - 1 + 1]);
      NextInv(states[t - 1], states[t]);
    }
  }

  lemma StartInv(s: System)
    requires Init(s)
    ensures Inv(s)
  {
  }

  // ------------------------------------------------------------ main results

  /** In every run, a chunk that the tracker sends on goes to the client that made the request, and
      clients hold only downloads of replies to their own requests. */
  lemma RepliesReachTheirClient(states: seq<System>, t: nat, r: nat)
    requires Run(states) && t < |states| && r in states[t].issued
    ensures var s := states[t];
            && (r in s.replies ==> forall k :: 0 <= k < |s.replies[r].places| && s.replies[r].places[k].ForClient? ==>
                                     s.replies[r].places[k].client == s.issued[r].client)
            && forall c :: c in s.clients && r in s.clients[c].downloads ==> c == s.issued[r].client
  {
    RunInv(states, t);
    var s := states[t];
    if r in s.replies {
      assert ReplyInv(s, r);
    }
    forall c | c in s.clients && r in s.clients[c].downloads
      ensures c == s.issued[r].client
    {
      assert ClientOk(s, c);
    }
  }

  /** In every run, each callback is made at most once, and one made with a payload gets exactly what
      the host answered to the request made with it. */
  lemma AnsweredOnceAndGenuinely(states: seq<System>, t: nat, c: nat, i: nat)
    requires Run(states) && t < |states| && c in states[t].clients && i < |states[t].clients[c].answers|
    ensures var s := states[t];
            var a := s.clients[c].answers[i];
            && (forall j :: 0 <= j < |s.clients[c].answers| && j != i ==> s.clients[c].answers[j].callback != a.callback)
            && (a.answer.Payload? ==>
                  exists r :: r in s.replies && r in s.issued && s.issued[r] == Job(c, a.callback)
                              && s.replies[r].reply.payload == a.answer.bytes)
  {
    RunInv(states, t);
    var s := states[t];
    assert ClientOk(s, c) && OnceEach(s.clients[c]);
    assert s.clients[c].answers[i] in s.clients[c].answers;
    assert Genuine(s, c, s.clients[c].answers[i]);
  }

  /** In every run, the callback is made exactly when the last chunk has arrived: before that it is
      pending while the client is there, after that it was made with the reply. */
  lemma AnsweredAtLastChunk(states: seq<System>, t: nat, r: nat)
    requires Run(states) && t < |states| && r in states[t].replies
    ensures var s := states[t];
            && r in s.issued && s.issued[r].client in s.clients
            && var job := s.issued[r];
               var c := s.clients[job.client];
               if forall k :: 0 <= k < |s.replies[r].places| ==> s.replies[r].places[k] == Got
               then Answered(job.callback, Payload(s.replies[r].reply.payload)) in c.answers
               else job.client in s.connected ==>
                      && job.callback in c.callbacks
                      && forall i :: 0 <= i < |c.answers| ==> c.answers[i].callback != job.callback
  {
    RunInv(states, t);
    var s := states[t];
    assert ReplyInv(s, r);
    var have := Have(s.replies[r].places);
    MissingNone(have);
    assert ClientOk(s, s.issued[r].client) && OnceEach(s.clients[s.issued[r].client]);
    assert (forall k :: 0 <= k < |have| ==> have[k]) <==> (forall k :: 0 <= k < |s.replies[r].places| ==> s.replies[r].places[k] == Got) by {
      assert forall k :: 0 <= k < |have| ==> have[k] == (s.replies[r].places[k] == Got);
    }
  }
}
