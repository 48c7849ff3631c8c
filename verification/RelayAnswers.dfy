/** That every call of a client is answered: until then something is on its way that can still lead to the
    answer, and when the client disconnects nothing is left. */
module RelayAnswers {
  import opened Words
  import opened Fragments
  import opened ChunkedReplies
  import opened RelayProtocol

  predicate AnsweredId(c: Client, x: nat) {
    exists i :: 0 <= i < |c.answers| && c.answers[i].callback == x
  }

  /** Every id given out is pending or was answered. */
  predicate AllAccounted(c: Client) {
    forall x :: 0 <= x < c.next ==> x in c.callbacks || AnsweredId(c, x)
  }

  /** A chunk of the reply is still to come. */
  predicate StillComing(sent: Sent) {
    exists k :: 0 <= k < |sent.places| && (sent.places[k] == AtTracker || sent.places[k].ForClient?)
  }

  /** The reply to the job: asked of a host, or with a chunk still to come. */
  predicate AtReply(s: System, job: Job, r: nat) {
    r in s.issued && s.issued[r] == job && (r in s.atHost || (r in s.replies && StillComing(s.replies[r])))
  }

  ghost predicate OnItsWay(s: System, job: Job) {
    job in s.calls || job in s.rejects || exists r :: AtReply(s, job, r)
  }

  /** A chunk is lost only when its client is gone. */
  predicate LostLate(s: System) {
    forall r, k :: r in s.replies && r in s.issued && 0 <= k < |s.replies[r].places| && s.replies[r].places[k] == Lost ==>
      s.issued[r].client !in s.connected
  }

  ghost predicate ClientServed(s: System, c: nat)
    requires c in s.clients
  {
    && AllAccounted(s.clients[c])
    && if c in s.connected then forall x :: x in s.clients[c].callbacks ==> OnItsWay(s, Job(c, x))
       else s.clients[c].callbacks == {}
  }

  ghost predicate Served(s: System) {
    LostLate(s) && forall c :: c in s.clients ==> ClientServed(s, c)
  }

  // ------------------------------------------------------------------ proofs

  /** A job stays on its way if it is where it was. */
  lemma WayKept(s: System, s': System, job: Job)
    requires OnItsWay(s, job)
    requires job in s.calls ==> job in s'.calls
    requires job in s.rejects ==> job in s'.rejects
    requires forall r :: AtReply(s, job, r) ==> AtReply(s', job, r)
    ensures OnItsWay(s', job)
  {
    if r :| AtReply(s, job, r) {
      assert AtReply(s', job, r);
    }
  }

  lemma AnsweredMore(c: Client, c': Client, x: nat)
    requires AnsweredId(c, x) && |c.answers| <= |c'.answers| && c'.answers[..|c.answers|] == c.answers
    ensures AnsweredId(c', x)
  {
    var i :| 0 <= i < |c.answers| && c.answers[i].callback == x;
    assert c'.answers[i] == c'.answers[..|c.answers|][i];
  }

  lemma CallAnswers(c: Client, callback: nat, answer: Answer)
    requires callback in c.callbacks && AllAccounted(c)
    ensures AllAccounted(Call(c, callback, answer)) && AnsweredId(Call(c, callback, answer), callback)
  {
    var d := Call(c, callback, answer);
    assert d.answers[|c.answers|].callback == callback;
    forall x | 0 <= x < d.next
      ensures x in d.callbacks || AnsweredId(d, x)
    {
      if AnsweredId(c, x) {
        AnsweredMore(c, d, x);
      }
    }
  }

  /** disconnect() answers every pending callback. */
  lemma {:induction false} FlushAnswersAll(c: Client, order: seq<nat>)
    requires AllAccounted(c) && Lists(order, c.callbacks)
    ensures AllAccounted(Flush(c, order)) && Flush(c, order).callbacks == {} && Flush(c, order).next == c.next
    decreases |order|
  {
    hide AllAccounted;
    if order == [] {
      assert c.callbacks == {};
    } else {
      assert order[0] in c.callbacks;
      CallAnswers(c, order[0], Failure);
      RestLists(order, c.callbacks);
      FlushAnswersAll(Call(c, order[0], Failure), order[1..]);
    }
  }

  lemma ServedConnect(s: System, s': System, c: nat)
    requires Inv(s) && Served(s) && NextStep(s, s', Connect(c))
    ensures Served(s')
  {
    forall r | r in s.replies && r in s.issued
      ensures s.issued[r].client != c
    {
      assert JobKnown(s, s.issued[r]);
    }
    forall b | b in s'.clients
      ensures ClientServed(s', b)
    {
      if b != c {
        assert ClientServed(s, b);
        forall x | b in s'.connected && x in s'.clients[b].callbacks
          ensures OnItsWay(s', Job(b, x))
        {
          WayKept(s, s', Job(b, x));
        }
      }
    }
  }

  lemma ServedDisconnect(s: System, s': System, c: nat, order: seq<nat>)
    requires Inv(s) && Served(s) && NextStep(s, s', Disconnect(c, order))
    ensures Served(s')
  {
    FlushAnswersAll(s.clients[c], order);
    forall b | b in s'.clients
      ensures ClientServed(s', b)
    {
      assert ClientServed(s, b);
      if b != c {
        forall x | b in s'.connected && x in s'.clients[b].callbacks
          ensures OnItsWay(s', Job(b, x))
        {
          WayKept(s, s', Job(b, x));
        }
      }
    }
  }

  lemma ServedRequest(s: System, s': System, c: nat)
    requires Inv(s) && Served(s) && NextStep(s, s', Request(c))
    ensures Served(s')
  {
    forall b | b in s'.clients
      ensures ClientServed(s', b)
    {
      assert ClientServed(s, b);
      forall x | 0 <= x < s'.clients[b].next
        ensures x in s'.clients[b].callbacks || AnsweredId(s'.clients[b], x)
      {
        if x < s.clients[b].next && AnsweredId(s.clients[b], x) {
          AnsweredMore(s.clients[b], s'.clients[b], x);
        }
      }
      forall x | b in s'.connected && x in s'.clients[b].callbacks
        ensures OnItsWay(s', Job(b, x))
      {
        if x in s.clients[b].callbacks {
          WayKept(s, s', Job(b, x));
        }
      }
    }
  }

  /** A step that moves jobs but no client. */
  lemma ServedSameClients(s: System, s': System)
    requires Served(s) && s'.clients == s.clients && s'.connected == s.connected && LostLate(s')
    requires forall job :: OnItsWay(s, job) && job.client in s.connected ==> OnItsWay(s', job)
    ensures Served(s')
  {
    forall b | b in s'.clients
      ensures ClientServed(s', b)
    {
      assert ClientServed(s, b);
    }
  }

  lemma ServedForward(s: System, s': System, job: Job, r: nat)
    requires Inv(s) && Served(s) && NextStep(s, s', Forward(job, r))
    ensures Served(s')
  {
    ForwardIs(s, s', job, r);
    hide Inv, NextStep, LostLate, ClientServed;
    forall j | OnItsWay(s, j)
      ensures OnItsWay(s', j)
    {
      if j != job {
        WayKept(s, s', j);
      }
    }
    ServedSameClients(s, s');
  }

  lemma ForwardIs(s: System, s': System, job: Job, r: nat)
    requires Inv(s) && LostLate(s) && NextStep(s, s', Forward(job, r))
    ensures AtReply(s', job, r) && s'.clients == s.clients && s'.connected == s.connected && LostLate(s')
    ensures s'.calls == s.calls - {job} && s'.rejects == s.rejects && forall j, q :: AtReply(s, j, q) ==> AtReply(s', j, q)
  {
    hide Inv, NextStep, StillComing, LostLate;
    ForwardStep(s, s', job, r);
    NotIssued(s, r);
    ForwardLost(s, s', job, r);
  }

  lemma ForwardLost(s: System, s': System, job: Job, r: nat)
    requires LostLate(s) && r !in s.replies && s'.replies == s.replies && s'.issued == s.issued[r := job] && s'.connected == s.connected
    ensures LostLate(s')
  {
  }

  lemma ForwardStep(s: System, s': System, job: Job, r: nat)
    requires NextStep(s, s', Forward(job, r))
    ensures job in s.calls && r !in s.issued
    ensures s' == s.(calls := s.calls - {job}, owner := s.owner[r := job.client], issued := s.issued[r := job], atHost := s.atHost + {r})
  {
  }

  lemma NotIssued(s: System, r: nat)
    requires Inv(s) && r !in s.issued
    ensures r !in s.replies
  {
  }

  lemma ServedReject(s: System, s': System, job: Job)
    requires Inv(s) && Served(s) && NextStep(s, s', Reject(job))
    ensures Served(s')
  {
    forall j | OnItsWay(s, j)
      ensures OnItsWay(s', j)
    {
      if j != job {
        WayKept(s, s', j);
      }
    }
    ServedSameClients(s, s');
  }

  lemma ServedRejected(s: System, s': System, job: Job)
    requires Inv(s) && Served(s) && NextStep(s, s', Rejected(job))
    ensures Served(s')
  {
    assert JobKnown(s, job) && Pending(s, job);
    assert ClientServed(s, job.client);
    if job.client in s.connected {
      CallAnswers(s.clients[job.client], job.callback, Failure);
    }
    forall b | b in s'.clients
      ensures ClientServed(s', b)
    {
      assert ClientServed(s, b);
      forall x | b in s'.connected && x in s'.clients[b].callbacks
        ensures OnItsWay(s', Job(b, x))
      {
        assert Job(b, x) != job;
        WayKept(s, s', Job(b, x));
      }
    }
  }

  lemma ServedRespond(s: System, s': System, r: nat, payload: seq<u8>)
    requires Inv(s) && Served(s) && NextStep(s, s', Respond(r, payload))
    ensures Served(s')
  {
    RespondIs(s, s', r, payload);
    hide Inv, NextStep, LostLate, ClientServed, AtReply;
    forall j | OnItsWay(s, j)
      ensures OnItsWay(s', j)
    {
      WayKept(s, s', j);
    }
    ServedSameClients(s, s');
  }

  lemma RespondIs(s: System, s': System, r: nat, payload: seq<u8>)
    requires Inv(s) && LostLate(s) && NextStep(s, s', Respond(r, payload))
    ensures s'.clients == s.clients && s'.connected == s.connected && s'.calls == s.calls && s'.rejects == s.rejects && LostLate(s')
    ensures forall j, q :: AtReply(s, j, q) ==> AtReply(s', j, q)
  {
    RespondStep(s, s', r, payload);
    assert r !in s.replies;
    hide Inv, NextStep;
    assert s'.replies[r].places[0] == AtTracker;
    assert AtReply(s', s.issued[r], r);
  }

  lemma RespondStep(s: System, s': System, r: nat, payload: seq<u8>)
    requires NextStep(s, s', Respond(r, payload))
    ensures r in s.atHost && r in s.issued && r in s'.replies
    ensures s' == s.(atHost := s.atHost - {r}, replies := s.replies[r := s'.replies[r]])
    ensures s'.replies[r].places != [] && forall k :: 0 <= k < |s'.replies[r].places| ==> s'.replies[r].places[k] == AtTracker
  {
    CutNotEmpty(Serialize(s'.replies[r].reply));
  }

  /** One place of one reply changes. */
  predicate PlaceMoved(s: System, s': System, r: nat, k: nat) {
    && r in s.replies && r in s.issued && k < |s.replies[r].places| && s'.replies.Keys == s.replies.Keys
    && s' == s.(clients := s'.clients, replies := s'.replies)
    && (forall q :: q in s.replies && q != r ==> s'.replies[q] == s.replies[q])
    && |s'.replies[r].places| == |s.replies[r].places|
    && forall j :: 0 <= j < |s.replies[r].places| && j != k ==> s'.replies[r].places[j] == s.replies[r].places[j]
  }

  lemma MovedWay(s: System, s': System, r: nat, k: nat, job: Job)
    requires PlaceMoved(s, s', r, k) && OnItsWay(s, job)
    requires s'.replies[r].places[k].ForClient? || (r !in s.atHost && job != s.issued[r])
    ensures OnItsWay(s', job)
  {
    forall q | AtReply(s, job, q)
      ensures AtReply(s', job, q)
    {
      if q == r && r !in s.atHost {
        assert s'.replies[r].places[k].ForClient?;
      }
    }
    WayKept(s, s', job);
  }

  lemma MovedLost(s: System, s': System, r: nat, k: nat)
    requires PlaceMoved(s, s', r, k) && LostLate(s)
    requires s'.replies[r].places[k] == Lost ==> s.issued[r].client !in s.connected
    ensures LostLate(s')
  {
  }

  lemma OwnerIs(s: System, r: nat)
    requires Inv(s) && r in s.replies
    ensures r in s.issued && r !in s.atHost && r in s.owner && s.owner[r] == s.issued[r].client
  {
  }

  lemma RelayStep(s: System, s': System, r: nat, k: nat)
    requires NextStep(s, s', Relay(r, k))
    ensures r in s.replies && k < |s.replies[r].places|
    ensures s' == Moved(s, r, k, if r in s.owner && s.owner[r] in s.connected then ForClient(s.owner[r]) else Lost)
  {
    hide Moved, Chunks;
  }

  lemma MovedPlace(s: System, r: nat, k: nat, place: Place, clients: map<nat, Client>)
    requires r in s.replies && r in s.issued && k < |s.replies[r].places|
    ensures var s' := Moved(s, r, k, place).(clients := clients);
            PlaceMoved(s, s', r, k) && s'.replies[r].places[k] == place && s'.clients == clients
  {
  }

  lemma RelayIs(s: System, s': System, r: nat, k: nat)
    requires Inv(s) && NextStep(s, s', Relay(r, k))
    ensures PlaceMoved(s, s', r, k) && s'.clients == s.clients && r !in s.atHost
    ensures s'.replies[r].places[k].ForClient? || (s'.replies[r].places[k] == Lost && s.issued[r].client !in s.connected)
  {
    RelayStep(s, s', r, k);
    OwnerIs(s, r);
    hide Inv, NextStep, PlaceMoved;
    var place := if r in s.owner && s.owner[r] in s.connected then ForClient(s.owner[r]) else Lost;
    MovedPlace(s, r, k, place, s.clients);
    assert s' == Moved(s, r, k, place).(clients := s.clients);
  }

  lemma ServedRelay(s: System, s': System, r: nat, k: nat)
    requires Inv(s) && Served(s) && NextStep(s, s', Relay(r, k))
    ensures Served(s')
  {
    RelayIs(s, s', r, k);
    hide Inv, NextStep, OnItsWay, LostLate, ClientServed;
    MovedLost(s, s', r, k);
    forall j | OnItsWay(s, j) && j.client in s.connected
      ensures OnItsWay(s', j)
    {
      MovedWay(s, s', r, k, j);
    }
    ServedSameClients(s, s');
  }

  /** A reply that is not complete at a client that is still there has a chunk to come. */
  lemma NotComplete(s: System, r: nat)
    requires r in s.replies && r in s.issued && s.issued[r].client in s.connected && LostLate(s)
    requires Missing(Have(s.replies[r].places)) != 0
    ensures StillComing(s.replies[r])
  {
    var places := s.replies[r].places;
    MissingNone(Have(places));
    var k :| 0 <= k < |Have(places)| && !Have(places)[k];
    assert places[k] != Got && places[k] != Lost;
  }

  lemma ArriveIs(s: System, s': System, r: nat, k: nat)
    requires Inv(s) && NextStep(s, s', Arrive(r, k))
    ensures PlaceMoved(s, s', r, k) && r in s.issued && r in s.replies && r !in s.atHost && s'.issued == s.issued && s'.connected == s.connected
    ensures r in s'.replies && k < |s'.replies[r].places| && s'.replies[r].places[k] == Got
    ensures var job := s.issued[r];
            && job.client in s.clients && job.client in s.connected && s'.clients.Keys == s.clients.Keys
            && (forall b :: b in s.clients && b != job.client ==> s'.clients[b] == s.clients[b])
            && s'.clients[job.client].next == s.clients[job.client].next
            && MayCall(s.clients[job.client], s'.clients[job.client], job.callback, s.replies[r].reply.payload)
            && (job.callback in s'.clients[job.client].callbacks ==> Missing(Have(s'.replies[r].places)) != 0)
  {
    ArriveFacts(s, s', r, k);
    Arrived(s, s', r, k);
    hide Holds, ReceiveChunk, Fitting, Missing, Serialize, Inv, Have, OnceEach, JobsInv, ReplyInv, Chunks, NextStep, PlaceMoved, Moved;
    var job := s.issued[r];
    MovedPlace(s, r, k, Got, s'.clients);
    assert s' == Moved(s, r, k, Got).(clients := s'.clients);
  }

  lemma ArriveFacts(s: System, s': System, r: nat, k: nat)
    requires Inv(s) && NextStep(s, s', Arrive(r, k))
    ensures JobsInv(s) && r in s.replies && r in s.issued && k < |s.replies[r].places| && ReplyInv(s, r) && r !in s.atHost
    ensures s.issued[r].client in s.clients && OnceEach(s.clients[s.issued[r].client])
  {
    assert r in s.replies && k < |s.replies[r].places| by { hide Inv, Moved, Chunks, ReceiveChunk, Fitting; }
    hide NextStep;
    OwnerIs(s, r);
    assert ReplyInv(s, r);
    assert ClientOk(s, s.issued[r].client);
    OkOnce(s, s.issued[r].client);
  }

  lemma ServedArrive(s: System, s': System, r: nat, k: nat)
    requires Inv(s) && Served(s) && NextStep(s, s', Arrive(r, k))
    ensures Served(s')
  {
    ArriveIs(s, s', r, k);
    hide Missing, Inv, NextStep, Have, LostLate, ClientServed, MayCall, PlaceMoved;
    MovedLost(s, s', r, k);
    forall b | b in s'.clients
      ensures ClientServed(s', b)
    {
      assert ClientServed(s, b);
      ArrivedAt(s, s', r, k, b);
    }
  }

  lemma ArrivedAt(s: System, s': System, r: nat, k: nat, b: nat)
    requires PlaceMoved(s, s', r, k) && r !in s.atHost && LostLate(s') && s'.connected == s.connected && s'.issued == s.issued
    requires b in s.clients && b in s'.clients && ClientServed(s, b)
    requires r in s.issued && r in s.replies && r in s'.replies
    requires if b == s.issued[r].client then
               && b in s.connected && s'.clients[b].next == s.clients[b].next
               && MayCall(s.clients[b], s'.clients[b], s.issued[r].callback, s.replies[r].reply.payload)
               && (s.issued[r].callback in s'.clients[b].callbacks ==> Missing(Have(s'.replies[r].places)) != 0)
             else s'.clients[b] == s.clients[b]
    ensures ClientServed(s', b)
  {
    hide Missing, Have, LostLate, OnItsWay, AllAccounted, PlaceMoved;
    if b == s.issued[r].client {
      ArrivedAccounted(s.clients[b], s'.clients[b], s.issued[r].callback, s.replies[r].reply.payload);
    }
    forall x | b in s'.connected && x in s'.clients[b].callbacks
      ensures OnItsWay(s', Job(b, x))
    {
      StillOnItsWay(s, s', r, k, Job(b, x));
    }
  }

  lemma StillOnItsWay(s: System, s': System, r: nat, k: nat, j: Job)
    requires PlaceMoved(s, s', r, k) && r !in s.atHost && LostLate(s') && j.client in s.connected
    requires j == s.issued[r] ==> Missing(Have(s'.replies[r].places)) != 0
    requires j != s.issued[r] ==> OnItsWay(s, j)
    ensures OnItsWay(s', j)
  {
    if j == s.issued[r] {
      ArrivedWay(s, s', r);
    } else {
      MovedWay(s, s', r, k, j);
    }
  }

  lemma ArrivedWay(s: System, s': System, r: nat)
    requires r in s'.replies && r in s'.issued && s'.issued[r].client in s'.connected && LostLate(s')
    requires Missing(Have(s'.replies[r].places)) != 0
    ensures OnItsWay(s', s'.issued[r])
  {
    NotComplete(s', r);
    assert AtReply(s', s'.issued[r], r);
  }

  lemma ArrivedAccounted(c: Client, c': Client, callback: nat, payload: seq<u8>)
    requires AllAccounted(c) && c'.next == c.next && MayCall(c, c', callback, payload)
    ensures AllAccounted(c')
  {
    if c'.answers == c.answers && c'.callbacks == c.callbacks {
      forall x | 0 <= x < c'.next
        ensures x in c'.callbacks || AnsweredId(c', x)
      {
        if AnsweredId(c, x) {
          AnsweredMore(c, c', x);
        }
      }
    } else {
      CallAnswers(c, callback, Payload(payload));
      var d := Call(c, callback, Payload(payload));
      forall x | 0 <= x < c'.next
        ensures x in c'.callbacks || AnsweredId(c', x)
      {
        if AnsweredId(d, x) {
          AnsweredMore(d, c', x);
        }
      }
    }
  }

  lemma ServedNext(s: System, s': System)
    requires Inv(s) && Served(s) && Next(s, s')
    ensures Served(s')
  {
    var step :| NextStep(s, s', step);
    hide Inv, NextStep, Served;
    match step
    case Connect(c) => ServedConnect(s, s', c);
    case Disconnect(c, order) => ServedDisconnect(s, s', c, order);
    case Request(c) => ServedRequest(s, s', c);
    case Forward(job, r) => ServedForward(s, s', job, r);
    case Reject(job) => ServedReject(s, s', job);
    case Rejected(job) => ServedRejected(s, s', job);
    case Respond(r, payload) => ServedRespond(s, s', r, payload);
    case Relay(r, k) => ServedRelay(s, s', r, k);
    case Arrive(r, k) => ServedArrive(s, s', r, k);
  }

  lemma {:induction false} ServedRun(states: seq<System>, t: nat)
    requires Run(states) && t < |states|
    ensures Served(states[t])
  {
    if t == 0 {
      assert Init(states[0]);
    } else {
      hide Next, Served, Inv;
      ServedRun(states, t - 1);
      RunInv(states, t - 1);
      assert Next(states[t - 1], states[t - 1 + 1]);
      ServedNext(states[t - 1], states[t]);
    }
  }

  // --------------------------------------------------------- main results

  /** In every run each callback id that a client has given out is pending or was called, and not both. */
  lemma CallbacksConserved(states: seq<System>, t: nat, c: nat, x: nat)
    requires Run(states) && t < |states| && c in states[t].clients && x < states[t].clients[c].next
    ensures x in states[t].clients[c].callbacks <==> !AnsweredId(states[t].clients[c], x)
  {
    ServedRun(states, t);
    RunInv(states, t);
    assert ClientServed(states[t], c) && ClientOk(states[t], c);
  }

  /** In every run a pending callback of a connected client has its call, its refusal, its request at a host or a
      chunk of its reply on the way. */
  lemma PendingIsOnItsWay(states: seq<System>, t: nat, c: nat, x: nat)
    requires Run(states) && t < |states| && c in states[t].clients && c in states[t].connected && x in states[t].clients[c].callbacks
    ensures OnItsWay(states[t], Job(c, x))
  {
    ServedRun(states, t);
    assert ClientServed(states[t], c);
  }

  /** In every run a client that has disconnected has made every callback. */
  lemma NothingPendingAfterwards(states: seq<System>, t: nat, c: nat)
    requires Run(states) && t < |states| && c in states[t].clients && c !in states[t].connected
    ensures states[t].clients[c].callbacks == {} && forall x :: 0 <= x < states[t].clients[c].next ==> AnsweredId(states[t].clients[c], x)
  {
    ServedRun(states, t);
    assert ClientServed(states[t], c);
  }

  // ---------------------------------------------------------- continuations

  function Last(states: seq<System>): System
    requires states != []
  {
    states[|states| - 1]
  }

  ghost predicate Extends(states: seq<System>, states': seq<System>) {
    Run(states) && Run(states') && |states| <= |states'| && states'[..|states|] == states
  }

  lemma OneStep(states: seq<System>, s: System, step: Step)
    requires Run(states) && NextStep(Last(states), s, step)
    ensures Extends(states, states + [s]) && Last(states + [s]) == s
  {
    assert Next(Last(states), s);
    hide NextStep, Next;
    var more := states + [s];
    forall t | 0 <= t < |more| - 1
      ensures Next(more[t], more[t + 1])
    {
      if t < |states| - 1 {
        assert Next(states[t], states[t + 1]);
      }
    }
  }

  lemma ExtendsFurther(a: seq<System>, b: seq<System>, c: seq<System>)
    requires Extends(a, b) && Extends(b, c)
    ensures Extends(a, c)
  {
    hide Next;
    assert c[..|a|] == c[..|b|][..|a|];
  }

  lemma ExtendsSelf(states: seq<System>)
    requires Run(states)
    ensures Extends(states, states)
  {
    assert states[..|states|] == states;
  }

  /** The first k chunks of the reply have left the tracker. */
  predicate Relaying(s: System, r: nat, k: nat) {
    && r in s.replies && r in s.issued && r in s.owner && s.owner[r] == s.issued[r].client && s.owner[r] in s.connected
    && k <= |s.replies[r].places|
    && (forall j :: 0 <= j < k ==> s.replies[r].places[j] == ForClient(s.owner[r]))
    && forall j :: k <= j < |s.replies[r].places| ==> s.replies[r].places[j] == AtTracker
  }

  /** The first k chunks of the reply have arrived. */
  predicate Arriving(s: System, r: nat, k: nat) {
    && r in s.replies && r in s.issued && s.issued[r].client in s.connected
    && k <= |s.replies[r].places|
    && (forall j :: 0 <= j < k ==> s.replies[r].places[j] == Got)
    && forall j :: k <= j < |s.replies[r].places| ==> s.replies[r].places[j] == ForClient(s.issued[r].client)
  }

  lemma {:induction false} RelayAll(states: seq<System>, r: nat, k: nat) returns (states': seq<System>)
    requires Run(states) && Relaying(Last(states), r, k)
    ensures Extends(states, states') && Arriving(Last(states'), r, 0)
    ensures var s, s' := Last(states), Last(states');
            s'.issued == s.issued && r in s'.replies && s'.replies[r].reply == s.replies[r].reply
    decreases |Last(states).replies[r].places| - k
  {
    var s := Last(states);
    if k == |s.replies[r].places| {
      ExtendsSelf(states);
      states' := states;
    } else {
      var s' := Moved(s, r, k, ForClient(s.owner[r]));
      assert NextStep(s, s', Relay(r, k));
      hide NextStep, Run;
      OneStep(states, s', Relay(r, k));
      ExtendedRun(states, states + [s']);
      states' := RelayAll(states + [s'], r, k + 1);
      ExtendsFurther(states, states + [s'], states');
    }
  }

  lemma ExtendedRun(a: seq<System>, b: seq<System>)
    requires Extends(a, b)
    ensures Run(b) && b != []
  {
  }

  lemma MayArrive(s: System, r: nat, k: nat)
    requires Inv(s) && Arriving(s, r, k) && k < |s.replies[r].places|
    ensures s.issued[r].client in s.clients && k < |Chunks(r, s.replies[r])|
    ensures Fitting(s.clients[s.issued[r].client], Chunks(r, s.replies[r])[k])
  {
    assert ReplyInv(s, r) && JobKnown(s, s.issued[r]);
    assert ClientOk(s, s.issued[r].client);
    OkOnce(s, s.issued[r].client);
    ArriveFits(s, r, k);
  }

  lemma ArrivesAs(s: System, r: nat, k: nat, c: nat)
    requires r in s.replies && k < |s.replies[r].places| && s.replies[r].places[k] == ForClient(c) && c in s.connected && c in s.clients
    requires k < |Chunks(r, s.replies[r])| && Fitting(s.clients[c], Chunks(r, s.replies[r])[k])
    ensures NextStep(s, Moved(s, r, k, Got).(clients := s.clients[c := ReceiveChunk(s.clients[c], Chunks(r, s.replies[r])[k])]), Arrive(r, k))
  {
    hide ReceiveChunk, Fitting, Chunks, Moved;
  }

  lemma ArrivedMore(s: System, r: nat, k: nat, clients: map<nat, Client>)
    requires Arriving(s, r, k) && k < |s.replies[r].places|
    ensures var s' := Moved(s, r, k, Got).(clients := clients);
            Arriving(s', r, k + 1) && s'.issued == s.issued && s'.replies[r].reply == s.replies[r].reply
            && |s'.replies[r].places| == |s.replies[r].places|
  {
  }

  lemma ArriveStep(s: System, r: nat, k: nat) returns (s': System)
    requires Inv(s) && Arriving(s, r, k) && k < |s.replies[r].places|
    ensures NextStep(s, s', Arrive(r, k)) && Arriving(s', r, k + 1) && s'.issued == s.issued && s'.replies[r].reply == s.replies[r].reply
    ensures |s'.replies[r].places| == |s.replies[r].places|
  {
    MayArrive(s, r, k);
    hide ReceiveChunk, Fitting, Inv, NextStep, Moved, Chunks;
    var c := s.issued[r].client;
    ArrivesAs(s, r, k, c);
    var clients := s.clients[c := ReceiveChunk(s.clients[c], Chunks(r, s.replies[r])[k])];
    ArrivedMore(s, r, k, clients);
    s' := Moved(s, r, k, Got).(clients := clients);
  }

  lemma {:induction false} ArriveAll(states: seq<System>, r: nat, k: nat) returns (states': seq<System>)
    requires Run(states) && Arriving(Last(states), r, k)
    ensures Extends(states, states')
    ensures var s, s' := Last(states), Last(states');
            && s'.issued == s.issued && r in s'.replies && s'.replies[r].reply == s.replies[r].reply
            && forall j :: 0 <= j < |s'.replies[r].places| ==> s'.replies[r].places[j] == Got
    decreases |Last(states).replies[r].places| - k
  {
    var s := Last(states);
    if k == |s.replies[r].places| {
      ExtendsSelf(states);
      states' := states;
    } else {
      RunInv(states, |states| - 1);
      hide NextStep, Run, Inv, Arriving;
      var s' := ArriveStep(s, r, k);
      OneStep(states, s', Arrive(r, k));
      ExtendedRun(states, states + [s']);
      states' := ArriveAll(states + [s'], r, k + 1);
      ExtendsFurther(states, states + [s'], states');
    }
  }

  lemma Forwards(s: System, job: Job, r: nat) returns (s': System)
    requires job in s.calls && r !in s.issued
    ensures NextStep(s, s', Forward(job, r))
    ensures s'.connected == s.connected && r in s'.atHost && r in s'.issued && s'.issued[r] == job && r in s'.owner && s'.owner[r] == job.client
  {
    s' := s.(calls := s.calls - {job}, owner := s.owner[r := job.client], issued := s.issued[r := job], atHost := s.atHost + {r});
  }

  lemma Responds(s: System, r: nat, payload: seq<u8>) returns (s': System)
    requires r in s.atHost && r in s.issued && r in s.owner && s.owner[r] == s.issued[r].client && s.owner[r] in s.connected
    ensures NextStep(s, s', Respond(r, payload)) && Relaying(s', r, 0)
    ensures s'.issued == s.issued && s'.replies[r].reply == Reply(s.issued[r].callback, payload)
  {
    var reply := Reply(s.issued[r].callback, payload);
    var sent := Sent(reply, seq(|Chunks(r, Sent(reply, []))|, _ => AtTracker));
    s' := s.(atHost := s.atHost - {r}, replies := s.replies[r := sent]);
  }

  /** The call gets to a host, which answers it. */
  lemma AskHost(states: seq<System>, job: Job, r: nat, payload: seq<u8>) returns (states': seq<System>)
    requires Run(states) && job in Last(states).calls && job.client in Last(states).connected && r !in Last(states).issued
    ensures Extends(states, states') && Run(states') && Relaying(Last(states'), r, 0)
    ensures var s' := Last(states'); s'.issued[r] == job && s'.replies[r].reply == Reply(job.callback, payload)
  {
    var s := Last(states);
    hide NextStep, Run, Relaying;
    var s1 := Forwards(s, job, r);
    OneStep(states, s1, Forward(job, r));
    ExtendedRun(states, states + [s1]);
    var s2 := Responds(s1, r, payload);
    OneStep(states + [s1], s2, Respond(r, payload));
    states' := states + [s1] + [s2];
    ExtendsFurther(states, states + [s1], states');
    ExtendedRun(states, states');
    assert Last(states') == s2;
    RelayingHas(s2, r);
  }

  lemma RelayingHas(s: System, r: nat)
    requires Relaying(s, r, 0)
    ensures r in s.replies && r in s.issued
  {
  }

  /** Whatever a host answers to a call on its way reaches the client that made it, if it stays connected. */
  lemma AnswerArrives(states: seq<System>, job: Job, r: nat, payload: seq<u8>) returns (states': seq<System>)
    requires Run(states) && job in Last(states).calls && job.client in Last(states).connected && r !in Last(states).issued
    ensures Extends(states, states')
    ensures job.client in Last(states').clients && Answered(job.callback, Payload(payload)) in Last(states').clients[job.client].answers
  {
    hide NextStep, Run, Extends;
    var states2 := AskHost(states, job, r, payload);
    var states3 := RelayAll(states2, r, 0);
    ExtendedRun(states2, states3);
    states' := ArriveAll(states3, r, 0);
    ExtendedRun(states3, states');
    ExtendsFurther(states, states2, states3);
    ExtendsFurther(states, states3, states');
    AnsweredAtLastChunk(states', |states'| - 1, r);
  }

  /** A call that is refused is answered with an error. */
  lemma RefusalArrives(states: seq<System>, job: Job) returns (states': seq<System>)
    requires Run(states) && job in Last(states).calls && job.client in Last(states).connected
    ensures Extends(states, states')
    ensures job.client in Last(states').clients && Answered(job.callback, Failure) in Last(states').clients[job.client].answers
  {
    var s := Last(states);
    RunInv(states, |states| - 1);
    assert JobKnown(s, job) && Pending(s, job);
    var s1 := s.(calls := s.calls - {job}, rejects := s.rejects + {job});
    assert NextStep(s, s1, Reject(job));
    OneStep(states, s1, Reject(job));
    var client := s.clients[job.client];
    var called := client.(callbacks := client.callbacks - {job.callback}, answers := client.answers + [Answered(job.callback, Failure)]);
    var s2 := s1.(rejects := s1.rejects - {job}, clients := s.clients[job.client := called]);
    assert NextStep(s1, s2, Rejected(job));
    OneStep(states + [s1], s2, Rejected(job));
    states' := states + [s1] + [s2];
    hide NextStep, Run;
    ExtendsFurther(states, states + [s1], states');
    assert called.answers[|client.answers|] == Answered(job.callback, Failure);
  }
}
