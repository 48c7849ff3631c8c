/** mdb_freelist_save: the freeDB records its own pages while it changes them. */
module FreelistSave {
  import opened SnapshotProtocol

  /** A freeDB record: an ID list, or room for one that is written last. */
  datatype Record = Listed(pages: set<Page>) | Reserved(room: nat)
  {
    function Pages(): set<Page> {
      if Listed? then pages else {}
    }

    function Room(): nat {
      if Reserved? then room else 0
    }
  }

  type FreeDB = map<Txn, Record>

  function RoomAt(db: FreeDB, k: Txn): nat {
    if k in db then db[k].Room() else 0
  }

  /** The room reserved under the keys from 1 to k. */
  function Rooms(db: FreeDB, k: nat): nat {
    if k == 0 then 0 else Rooms(db, k - 1) + RoomAt(db, k)
  }

  lemma {:induction false} RoomsUpdated(db: FreeDB, db': FreeDB, key: Txn, k: nat)
    requires forall r :: 0 < r <= k && r != key ==> RoomAt(db', r) == RoomAt(db, r)
    ensures Rooms(db', k) == Rooms(db, k) + if 0 < key <= k then RoomAt(db', key) - RoomAt(db, key) else 0
  {
    if k > 0 {
      RoomsUpdated(db, db', key, k - 1);
    }
  }

  lemma {:induction false} RoomsNone(db: FreeDB, k: nat)
    requires forall r :: r in db && r <= k ==> db[r].Room() == 0
    ensures Rooms(db, k) == 0
  {
    if k > 0 {
      RoomsNone(db, k - 1);
    }
  }

  /** The records that mdb_page_alloc has not read. */
  function Unread(db: FreeDB, pglast: Txn, txnid: Txn): map<Txn, set<Page>> {
    map r | r in db && pglast < r < txnid :: db[r].Pages()
  }

  function Lists(db: FreeDB): map<Txn, set<Page>> {
    map r | r in db :: db[r].Pages()
  }

  ghost predicate Moves(w: Writer, w': Writer, oldest: Txn) {
    w.Writing? && exists step :: Move(w, w', step, oldest)
  }

  lemma MovesMore(w: Writer, w': Writer, step: Step, oldest: Txn, bound: Txn)
    requires w.Writing? && Move(w, w', step, oldest) && oldest <= bound
    ensures Move(w, w', step, bound) && Moves(w, w', bound)
  {
    assert Move(w, w', step, bound);
  }

  /** Each change of the history is a step the protocol allows, if it knows of as old a reader. */
  lemma MoveIsNext(s: State, w': Writer, step: Step, oldest: Txn)
    requires s.writer.Writing? && oldest <= s.oldest && Move(s.writer, w', step, oldest)
    ensures Next(s, s.(writer := w'), step)
  {
  }

  ghost predicate History(history: seq<Writer>, oldest: Txn) {
    0 < |history| && forall k :: 0 < k < |history| ==> Moves(history[k - 1], history[k], oldest)
  }

  /** A run of the protocol goes on with the page work of a save. */
  lemma {:induction false} HistoryRuns(states: seq<State>, steps: seq<Step>, history: seq<Writer>, oldest: Txn)
    returns (states': seq<State>, steps': seq<Step>)
    requires Run(states, steps) && History(history, oldest)
    requires states[|states| - 1].writer == history[0] && oldest <= states[|states| - 1].oldest
    ensures Run(states', steps') && |states'| >= |states| && states'[..|states|] == states
    ensures states'[|states'| - 1] == states[|states| - 1].(writer := history[|history| - 1])
  {
    hide Next, Init;
    if |history| == 1 {
      states', steps' := states, steps;
    } else {
      var n := |history| - 1;
      var shorter := history[..n];
      forall k | 0 < k < n
        ensures Moves(shorter[k - 1], shorter[k], oldest)
      {
        assert Moves(history[k - 1], history[k], oldest);
      }
      states', steps' := HistoryRuns(states, steps, shorter, oldest);
      var s := states'[|states'| - 1];
      assert Moves(history[n - 1], history[n], oldest);
      var step :| Move(s.writer, history[n], step, oldest);
      MoveIsNext(s, history[n], step, oldest);
      Extended(states', steps', s.(writer := history[n]), step);
      states', steps' := states' + [s.(writer := history[n])], steps' + [step];
    }
  }

  lemma Extended(states: seq<State>, steps: seq<Step>, s: State, step: Step)
    requires Run(states, steps) && Next(states[|states| - 1], s, step)
    ensures Run(states + [s], steps + [step])
  {
    hide Next, Init;
    var more, moreSteps := states + [s], steps + [step];
    forall k | 0 <= k < |moreSteps|
      ensures Next(more[k], more[k + 1], moreSteps[k])
    {
      if k < |steps| {
        assert Next(states[k], states[k + 1], steps[k]);
      }
    }
  }

  /** A finished save, which began where a run of the protocol stands, is followed there by the commit: the
      meta page it writes accounts for every page exactly once, and the other one still does. */
  lemma SaveCommits(states: seq<State>, steps: seq<Step>, history: seq<Writer>, records: map<Txn, set<Page>>, oldest: Txn)
    returns (states': seq<State>, steps': seq<Step>)
    requires Run(states, steps) && History(history, oldest)
    requires states[|states| - 1].writer == history[0] && oldest <= states[|states| - 1].oldest
    requires history[|history| - 1].Writing? && history[|history| - 1].scan.NoScan? && Saved(history[|history| - 1], records)
    ensures Run(states', steps') && |states'| > |states| && states'[..|states|] == states
    ensures var w, s := history[|history| - 1], states'[|states'| - 1];
            && s.writer == Written(w.txnid) && |s.metas| == 2 && 0 < w.next
            && s.metas[w.txnid % 2] == Snapshot(w.txnid, w.used, records, w.next - 1)
            && Conserved(s.metas[0]) && Conserved(s.metas[1])
  {
    hide Saved, Conserved;
    var before, beforeSteps := HistoryRuns(states, steps, history, oldest);
    var s, w := before[|before| - 1], history[|history| - 1];
    RunInv(before, beforeSteps, |before| - 1);
    assert s.writer == w;
    var s' := s.(metas := s.metas[w.txnid % 2 := Snapshot(w.txnid, w.used, records, w.next - 1)], writer := Written(w.txnid));
    assert Next(s, s', WritesMeta(records));
    Extended(before, beforeSteps, s', WritesMeta(records));
    states', steps' := before + [s'], beforeSteps + [WritesMeta(records)];
    PageConservation(states', steps', |states'| - 1, 0);
    PageConservation(states', steps', |states'| - 1, 1);
  }

  // ------------------------------------------------------- the loop's variables

  /** The local variables of mdb_freelist_save. */
  datatype Progress = Progress(pglast: Txn, headId: Txn, headRoom: nat, totalRoom: nat, freecnt: nat)

  /** The records up to `pglast` are reserved ones from headId up, and none is left of those read before;
      this transaction's record, if written, held its freed pages when there were freecnt. */
  ghost predicate Kept(v: Progress, db: FreeDB, txnid: Txn, pglast: Txn, freed: set<Page>) {
    && v.pglast <= pglast < txnid && (v.pglast < pglast ==> pglast in db)
    && v.headId <= v.pglast && (v.headId == 0 <==> v.pglast == 0)
    && (forall r :: r in db ==> 0 < r <= txnid)
    && (forall r :: r in db && r <= v.pglast ==> v.headId <= r && db[r].Reserved?)
    && Rooms(db, v.pglast) == v.totalRoom && RoomAt(db, v.headId) == v.headRoom
    && (if v.freecnt == 0 then txnid !in db
        else txnid in db && db[txnid].Listed? && |db[txnid].pages| == v.freecnt && db[txnid].pages <= freed)
  }

  lemma KeptAtStart(db: FreeDB, txnid: Txn, pglast: Txn, freed: set<Page>)
    requires pglast < txnid && txnid !in db && (0 < pglast ==> pglast in db) && forall r :: r in db ==> 0 < r <= txnid
    ensures Kept(Progress(0, 0, 0, 0, 0), db, txnid, pglast, freed)
  {
  }

  lemma KeptFacts(v: Progress, db: FreeDB, txnid: Txn, pglast: Txn, freed: set<Page>)
    requires Kept(v, db, txnid, pglast, freed)
    ensures v.freecnt <= |freed| && (v.headId == 0 <==> v.pglast == 0) && (v.headId == 0 ==> v.totalRoom == 0)
    ensures v.headRoom <= v.totalRoom || v.headId == 0
  {
    if 0 < v.headId {
      RoomsAtLeast(db, v.headId, v.pglast);
    }
    if v.freecnt != 0 {
      assert |freed - db[txnid].pages| == |freed| - v.freecnt;
    }
  }

  lemma FreedWhole(v: Progress, db: FreeDB, txnid: Txn, pglast: Txn, freed: set<Page>)
    requires Kept(v, db, txnid, pglast, freed) && v.freecnt >= |freed| && freed != {}
    ensures v.freecnt == |freed| && txnid in db && db[txnid] == Listed(freed)
  {
    KeptFacts(v, db, txnid, pglast, freed);
    SubsetWhole(db[txnid].pages, freed);
  }

  lemma KeptByWork(v: Progress, db: FreeDB, txnid: Txn, pglast: Txn, freed: set<Page>, pglast': Txn, freed': set<Page>)
    requires Kept(v, db, txnid, pglast, freed) && pglast <= pglast' < txnid && freed <= freed'
    requires pglast' == pglast || pglast' in db
    ensures Kept(v, db, txnid, pglast', freed')
  {
  }

  /** Deleting the first record. */
  lemma KeptByDelete(v: Progress, db: FreeDB, txnid: Txn, pglast: Txn, freed: set<Page>, key: Txn)
    requires Kept(v, db, txnid, pglast, freed) && key in db && v.pglast < pglast
    requires forall r :: r in db ==> key <= r
    ensures Kept(Progress(key, key, 0, 0, v.freecnt), db - {key}, txnid, pglast, freed)
  {
    RoomsNone(db - {key}, key);
  }

  /** Writing this transaction's freed pages. */
  lemma KeptByFreed(v: Progress, db: FreeDB, txnid: Txn, pglast: Txn, freed: set<Page>)
    requires Kept(v, db, txnid, pglast, freed)
    ensures freed != {} ==> Kept(v.(freecnt := |freed|), db[txnid := Listed(freed)], txnid, pglast, freed)
  {
    RoomsUpdated(db, db[txnid := Listed(freed)], txnid, v.pglast);
    assert freed != {} ==> |freed| != 0;
  }

  /** Moving on to a new record below the others. */
  lemma KeptByNewHead(v: Progress, db: FreeDB, txnid: Txn, pglast: Txn, freed: set<Page>)
    requires Kept(v, db, txnid, pglast, freed) && 1 < v.headId
    ensures Kept(v.(headId := v.headId - 1, headRoom := 0), db, txnid, pglast, freed)
  {
  }

  /** Writing the record at headId with a new length. */
  lemma KeptByReserve(v: Progress, db: FreeDB, txnid: Txn, pglast: Txn, freed: set<Page>, room: nat)
    requires Kept(v, db, txnid, pglast, freed) && 0 < v.headId
    ensures v.headRoom <= v.totalRoom
    ensures Kept(v.(headRoom := room, totalRoom := v.totalRoom - v.headRoom + room), db[v.headId := Reserved(room)], txnid, pglast, freed)
  {
    var db' := db[v.headId := Reserved(room)];
    RoomsUpdated(db, db', v.headId, v.pglast);
    RoomsAtLeast(db, v.headId, v.pglast);
  }

  lemma {:induction false} RoomsAtLeast(db: FreeDB, key: Txn, k: nat)
    requires 0 < key <= k
    ensures RoomAt(db, key) <= Rooms(db, k)
  {
    if key < k {
      RoomsAtLeast(db, key, k - 1);
    }
  }

  // ------------------------------------------------------ filling the records

  /** The records up to `key` share out the pages of `all` but `rest`, for which the others have room. */
  ghost predicate Filling(was: FreeDB, db: FreeDB, all: set<Page>, rest: set<Page>, key: Txn, pglast: Txn) {
    && key <= pglast && rest <= all && |rest| <= Rooms(db, pglast)
    && db.Keys == was.Keys && (forall r :: r in db && r > key ==> db[r] == was[r])
    && (forall r :: r in db && r <= key ==> db[r].Listed? && db[r].pages <= all - rest)
    && (forall r, q :: r in db && q in db && r < q <= key ==> db[r].Pages() !! db[q].Pages())
    && (forall p :: p in all - rest ==> exists r :: r in db && r <= key && p in db[r].Pages())
  }

  lemma FillingNext(was: FreeDB, db: FreeDB, all: set<Page>, rest: set<Page>, key: Txn, pglast: Txn, next: Txn, part: set<Page>)
    requires Filling(was, db, all, rest, key, pglast) && next in db && key < next <= pglast && db[next].Reserved?
    requires forall r :: r in db && key < r ==> next <= r
    requires part <= rest && |part| == if db[next].room > |rest| then |rest| else db[next].room
    ensures Filling(was, db[next := Listed(part)], all, rest - part, next, pglast)
  {
    var db' := db[next := Listed(part)];
    RoomsUpdated(db, db', next, pglast);
    hide Rooms;
    assert |rest - part| == |rest| - |part|;
    forall r | r in db' && r <= next
      ensures db'[r].Listed? && db'[r].pages <= all - (rest - part)
    {
      if r != next {
        assert r <= key && db[r].pages <= all - rest;
      }
    }
    forall r, q | r in db' && q in db' && r < q <= next
      ensures db'[r].Pages() !! db'[q].Pages()
    {
      assert r <= key && db[r].pages <= all - rest;
      assert q != next ==> q <= key && db[r].Pages() !! db[q].Pages();
    }
    forall p | p in all - (rest - part)
      ensures exists r :: r in db' && r <= next && p in db'[r].Pages()
    {
      var r := FilledFrom(was, db, all, rest, key, pglast, next, part, p);
    }
  }

  lemma FilledFrom(was: FreeDB, db: FreeDB, all: set<Page>, rest: set<Page>, key: Txn, pglast: Txn, next: Txn, part: set<Page>, p: Page) returns (r: Txn)
    requires Filling(was, db, all, rest, key, pglast) && next in db && key < next && p in all - (rest - part)
    ensures r in db && r <= next && p in db[next := Listed(part)][r].Pages()
  {
    hide Rooms;
    if p in part {
      r := next;
    } else {
      assert p in all - rest;
      r :| r in db && r <= key && p in db[r].Pages();
    }
  }

  /** While there are pages to place there is a record left for them. */
  lemma {:induction false} RoomAhead(db: FreeDB, key: Txn, k: nat) returns (r: Txn)
    requires 0 < Rooms(db, k) && forall r :: r in db && r <= key ==> db[r].Listed?
    ensures r in db && key < r <= k
  {
    if RoomAt(db, k) > 0 {
      r := k;
    } else {
      r := RoomAhead(db, key, k - 1);
    }
  }

  /** When every page has its place the freeDB is as the protocol demands. */
  lemma FilledIsSaved(v: Progress, was: FreeDB, db: FreeDB, w: Writer, key: Txn)
    requires w.Writing? && Kept(v, was, w.txnid, w.pglast, w.freed) && v.pglast == w.pglast && v.freecnt == |w.freed|
    requires w.records == Unread(was, w.pglast, w.txnid) && w.loose == {}
    requires Filling(was, db, w.head, {}, key, w.pglast)
    ensures Saved(w, Lists(db))
    ensures Unread(db, w.pglast, w.txnid) == w.records
  {
    FreedInOne(v, was, db, w, key);
    FilledIsComplete(was, db, w.head, key, w.pglast);
    FilledIsApart(v, was, db, w, key);
    FilledKeepsOthers(was, db, w.head, {}, key, w.pglast, w.txnid);
    assert forall r :: r in was ==> 0 < r <= w.txnid;
    assert db.Keys == was.Keys;
    hide Rooms, Filling, Kept, InOne, Record.Pages;
    var records := Lists(db);
    assert forall r :: r in records ==> r in db && records[r] == db[r].Pages();
  }

  lemma FilledKeepsOthers(was: FreeDB, db: FreeDB, all: set<Page>, rest: set<Page>, key: Txn, pglast: Txn, txnid: Txn)
    requires Filling(was, db, all, rest, key, pglast)
    ensures Unread(db, pglast, txnid) == Unread(was, pglast, txnid)
  {
    hide Rooms, Record.Pages;
  }

  lemma FreedInOne(v: Progress, was: FreeDB, db: FreeDB, w: Writer, key: Txn)
    requires w.Writing? && Kept(v, was, w.txnid, w.pglast, w.freed) && v.freecnt == |w.freed|
    requires Filling(was, db, w.head, {}, key, w.pglast)
    ensures InOne(Lists(db), w.txnid, w.freed)
  {
    if v.freecnt == 0 {
      assert w.freed == {};
    } else {
      SubsetWhole(was[w.txnid].pages, w.freed);
    }
  }

  lemma FilledIsComplete(was: FreeDB, db: FreeDB, all: set<Page>, key: Txn, pglast: Txn)
    requires Filling(was, db, all, {}, key, pglast)
    ensures forall p :: p in all ==> exists r :: r in Lists(db) && r <= pglast && p in Lists(db)[r]
  {
    forall p | p in all
      ensures exists r :: r in Lists(db) && r <= pglast && p in Lists(db)[r]
    {
      assert p in all - {};
      var r :| r in db && r <= key && p in db[r].Pages();
      assert p in Lists(db)[r];
    }
  }

  lemma FilledIsApart(v: Progress, was: FreeDB, db: FreeDB, w: Writer, key: Txn)
    requires w.Writing? && Kept(v, was, w.txnid, w.pglast, w.freed) && v.pglast == w.pglast
    requires Filling(was, db, w.head, {}, key, w.pglast)
    ensures forall r, p :: r in db && r <= w.pglast && p in db[r].Pages() ==> p in w.head
    ensures forall r, q :: r in db && q in db && r < q <= w.pglast ==> db[r].Pages() !! db[q].Pages()
  {
  }

  lemma NextUnread(db: FreeDB, pglast: Txn, txnid: Txn, key: Txn)
    requires key in db && pglast < key < txnid && forall r :: r in db && pglast < r ==> key <= r
    ensures Unread(db, key, txnid) == Unread(db, pglast, txnid) - {key}
  {
  }

  lemma SubsetWhole(a: set<Page>, b: set<Page>)
    requires a <= b && |a| == |b|
    ensures a == b
  {
    assert |b - a| == |b| - |a|;
  }

  // ------------------------------------------------------------- the operation

  /** A piece of page work of a freeDB call: mdb_page_alloc reads a record or returns a page, or a page of
      the freeDB is freed. */
  datatype Event = Fetch(oldest: Txn) | Take(p: Page, source: Source) | Drop(p: Page, toHead: bool)

  /** No oldest reader that is asked for or cached is above `bound`. */
  predicate Possible(bound: Txn, work: seq<Event>) {
    forall e :: e in work && e.Fetch? ==> e.oldest <= bound
  }

  /** The write transaction after a piece of page work, if it can be done. */
  ghost function Effect(w: Writer, e: Event): (w': Writer)
    requires w.Writing?
    ensures w'.Writing?
  {
    match e
    case Fetch(oldest) =>
      if exists r :: CanLoad(w, r, oldest) then
        var r :| CanLoad(w, r, oldest);
        WithLoaded(w, r)
      else w
    case Take(p, source) => if CanAlloc(w, p, source) then WithAllocated(w, p, source) else w
    case Drop(p, toHead) =>
      if p !in w.used then w
      else WithFreed(w, p, if toHead && p in w.dirty && w.pglast != 0 then ToHead else ToFreed)
  }

  /** ... after one call's page work ... */
  ghost function Effects(w: Writer, events: seq<Event>): (w': Writer)
    requires w.Writing?
    ensures w'.Writing?
  {
    if events == [] then w else Effect(Effects(w, events[..|events| - 1]), events[|events| - 1])
  }

  /** ... and after that of several calls. */
  ghost function After(w: Writer, calls: seq<seq<Event>>): (w': Writer)
    requires w.Writing?
    ensures w'.Writing?
  {
    if calls == [] then w else Effects(After(w, calls[..|calls| - 1]), calls[|calls| - 1])
  }

  /** Where the loose pages go: first of all to the freed pages, if no record was read ... */
  function Unsettled(w: Writer): (w': Writer)
    requires w.Writing?
    ensures w'.Writing?
  {
    if w.pglast == 0 then WithSettled(w) else w
  }

  /** ... otherwise at last to me_pghead. */
  function Settled(w: Writer): (w': Writer)
    requires w.Writing?
    ensures w'.Writing?
  {
    if w.pglast == 0 then w else WithSettled(w)
  }

  lemma OneMoreCall(w: Writer, calls: seq<seq<Event>>, events: seq<Event>)
    requires w.Writing?
    ensures After(w, calls + [events]) == Effects(After(w, calls), events)
  {
    assert (calls + [events])[..|calls|] == calls;
  }

  lemma OneMoreEffect(w: Writer, events: seq<Event>, e: Event)
    requires w.Writing?
    ensures Effects(w, events + [e]) == Effect(Effects(w, events), e)
  {
    assert (events + [e])[..|events|] == events;
  }

  lemma NoEffect(w: Writer)
    requires w.Writing?
    ensures Effects(w, []) == w && After(w, []) == w
  {
  }

  /** Some calls and those from i to j. */
  function Longer<T>(calls: seq<T>, work: seq<T>, i: nat, j: nat): seq<T>
    requires i <= j <= |work|
  {
    calls + work[i..j]
  }

  lemma LongerBy<T>(calls: seq<T>, work: seq<T>, i: nat, j: nat, k: nat)
    requires i <= j <= k <= |work|
    ensures Longer(calls, work, i, i) == calls && Longer(Longer(calls, work, i, j), work, j, k) == Longer(calls, work, i, k)
    ensures j < |work| ==> Longer(calls, work, i, j) + [work[j]] == Longer(calls, work, i, j + 1)
  {
    assert work[i..j] + work[j..k] == work[i..k];
    if j < |work| {
      assert work[i..j] + [work[j]] == work[i..j + 1];
    }
  }

  lemma CallsTo<T>(calls: seq<T>, k: nat)
    requires k < |calls|
    ensures calls[..k + 1] == calls[..k] + [calls[k]]
  {
  }

  lemma OnlyLoad(w: Writer, r: Txn, oldest: Txn)
    requires w.Writing? && CanLoad(w, r, oldest)
    ensures Effect(w, Fetch(oldest)) == WithLoaded(w, r)
  {
    forall q | CanLoad(w, q, oldest)
      ensures q == r
    {
      OneToLoad(w, r, q, oldest);
    }
  }

  /** The first unread record is the only one that can be read. */
  lemma OneToLoad(w: Writer, r: Txn, q: Txn, oldest: Txn)
    requires w.Writing? && CanLoad(w, r, oldest) && CanLoad(w, q, oldest)
    ensures r == q
  {
  }

  method Least(s: set<nat>) returns (m: nat)
    requires s != {}
    ensures m in s && forall x :: x in s ==> m <= x
  {
    var rest := s;
    m :| m in rest;
    while rest != {}
      invariant m in s && rest <= s
      invariant forall x :: x in s && x !in rest ==> m <= x
    {
      var x :| x in rest;
      if x < m {
        m := x;
      }
      rest := rest - {x};
    }
  }

  /** The n smallest, as they are at the tail of a descending list. */
  method Smallest(s: set<Page>, n: nat) returns (part: set<Page>)
    requires n <= |s|
    ensures part <= s && |part| == n && forall x, y :: x in part && y in s - part ==> x < y
  {
    part := {};
    var rest := s;
    while |part| < n
      invariant part <= s && rest == s - part && |part| <= n
      invariant forall x, y :: x in part && y in rest ==> x < y
      decreases n - |part|
    {
      assert |rest| == |s| - |part|;
      var m := Least(rest);
      part, rest := part + {m}, rest - {m};
    }
  }

  /** The write transaction while its freelist is saved. `used` and `dirty` are the pages of all its trees;
      `history` is what it was before each piece of page work. */
  class Commit {
    const txnid: Txn
    ghost const bound: Txn
    var used: set<Page>
    var dirty: set<Page>
    var head: set<Page>
    var pglast: Txn
    var freed: set<Page>
    var loose: set<Page>
    var next: Page
    var db: FreeDB
    ghost var history: seq<Writer>
    ghost var first: Writer
    ghost var did: seq<seq<Event>>

    constructor (w: Writer, read: FreeDB, ghost oldest: Txn)
      requires w.Writing? && w.scan == NoScan && WriterConserves(w)
      requires forall r :: r in read ==> 0 < r <= w.pglast && read[r].Listed?
      requires (0 < w.pglast ==> w.pglast in read) && oldest < w.txnid
      ensures Valid() && W() == w && history == [w] && bound == oldest
      ensures 0 < pglast ==> pglast in db
      ensures txnid !in db && forall r :: r in db ==> db[r].Listed?
    {
      txnid, used, dirty, head := w.txnid, w.used, w.dirty, w.head;
      pglast, freed, loose, next := w.pglast, w.freed, w.loose, w.next;
      db := map r | r in read.Keys + w.records.Keys :: if r in read then read[r] else Listed(w.records[r]);
      bound := oldest;
      history := [w];
      first, did := w, [];
      new;
      assert Unread(db, pglast, txnid) == w.records;
    }

    ghost function W(): Writer
      reads this
    {
      Writing(txnid, used, dirty, Unread(db, pglast, txnid), head, pglast, freed, loose, next, NoScan)
    }

    ghost predicate Valid()
      reads this
    {
      && History(history, bound) && history[|history| - 1] == W() && bound < txnid
      && WriterConserves(W())
      && pglast < txnid
      && (forall r :: r in db ==> 0 < r <= txnid)
      && (forall r :: r in db && pglast < r < txnid ==> db[r].Listed?)
    }

    /** The write transaction is what the page work of the calls so far made of `first`. */
    ghost predicate Followed()
      reads this
    {
      first.Writing? && W() == After(first, did)
    }

    /** What page work leaves alone. */
    twostate predicate Worked()
      reads this
    {
      && db == old(db) && old(freed) <= freed && old(pglast) <= pglast < txnid
      && (pglast == old(pglast) || pglast in db)
      && (pglast == 0 ==> loose <= old(loose))
      && old(history) <= history
    }

    /** The first record after `above`. */
    method NextKey(above: nat) returns (key: Option<Txn>)
      ensures key.None? ==> forall r :: r in db ==> r <= above
      ensures key.Some? ==> key.value in db && above < key.value && forall r :: r in db && above < r ==> key.value <= r
    {
      var keys := set r | r in db && above < r;
      if keys == {} {
        assert forall r :: r in db && above < r ==> r in keys;
        return None;
      }
      var k := Least(keys);
      assert forall r :: r in db && above < r ==> r in keys;
      return Some(k);
    }

    /** The state changed by one step of the protocol. */
    ghost method Record(step: Step, oldest: Txn)
      requires History(history, bound) && bound < txnid
      requires history[|history| - 1].Writing? && history[|history| - 1].txnid == txnid && WriterConserves(history[|history| - 1])
      requires oldest <= bound
      requires Move(history[|history| - 1], W(), step, oldest)
      modifies this`history
      ensures history == old(history) + [W()] && WriterConserves(W())
      ensures History(history, bound)
    {
      MovesMore(history[|history| - 1], W(), step, oldest, bound);
      MoveKeepsPages(history[|history| - 1], W(), step, oldest);
      history := history + [W()];
    }

    /** No page moves. */
    twostate predicate Quietly()
      reads this
    {
      head == old(head) && pglast == old(pglast) && freed == old(freed) && loose == old(loose)
    }

    /** mdb_page_alloc reads the next record, if it is old enough. */
    method Fetch(oldest: Txn)
      requires Valid() && oldest <= bound
      modifies this
      ensures Valid() && Worked() && W() == Effect(old(W()), Event.Fetch(oldest))
      ensures first == old(first) && did == old(did)
    {
      hide WriterConserves;
      var key := NextKey(pglast);
      if !(key.Some? && key.value < oldest) {
        assert forall r :: !CanLoad(W(), r, oldest);
      } else {
        NextUnread(db, pglast, txnid, key.value);
        assert CanLoad(W(), key.value, oldest);
        OnlyLoad(W(), key.value, oldest);
        head := head + db[key.value].Pages();
        pglast := key.value;
        Record(Loads(key.value), oldest);
      }
    }

    /** mdb_page_alloc returns a page. */
    method Take(p: Page, source: Source)
      requires Valid()
      modifies this
      ensures Valid() && Worked() && W() == Effect(old(W()), Event.Take(p, source))
      ensures first == old(first) && did == old(did)
    {
      hide WriterConserves;
      if CanTake(p, source) {
        match source {
          case FromLoose => loose := loose - {p};
          case FromHead => head := head - {p};
          case FromFile => next := next + 1;
        }
        used, dirty := used + {p}, dirty + {p};
        Record(Allocs(p, source), 0);
      }
    }

    predicate CanTake(p: Page, source: Source)
      reads this
    {
      match source
      case FromLoose => p in loose
      case FromHead => p in head
      case FromFile => p == next
    }

    /** A page of the freeDB is freed. */
    method Drop(p: Page, toHead: bool)
      requires Valid()
      modifies this
      ensures Valid() && Worked() && W() == Effect(old(W()), Event.Drop(p, toHead))
      ensures first == old(first) && did == old(did)
    {
      hide WriterConserves;
      if p in used {
        if toHead && p in dirty && pglast != 0 {
          head := head + {p};
          used, dirty := used - {p}, dirty - {p};
          Record(Frees(p, ToHead), 0);
        } else {
          freed := freed + {p};
          used, dirty := used - {p}, dirty - {p};
          Record(Frees(p, ToFreed), 0);
        }
      }
    }

    method Do(e: Event)
      requires Valid() && (e.Fetch? ==> e.oldest <= bound)
      modifies this
      ensures Valid() && Worked() && W() == Effect(old(W()), e)
      ensures first == old(first) && did == old(did)
    {
      hide *;
      match e {
        case Fetch(oldest) => Fetch(oldest);
        case Take(p, source) => Take(p, source);
        case Drop(p, toHead) => Drop(p, toHead);
      }
    }

    /** All the page work of one call. */
    method Work(events: seq<Event>)
      requires Valid() && Possible(bound, events)
      modifies this
      ensures Valid() && Worked() && (events == [] ==> Quietly())
      ensures W() == Effects(old(W()), events) && first == old(first) && did == old(did) + [events]
    {
      NoEffect(W());
      assert pglast < txnid;
      hide Valid, Effect, Effects;
      for k := 0 to |events|
        invariant Valid() && Worked() && (k == 0 ==> Quietly())
        invariant W() == Effects(old(W()), events[..k]) && first == old(first) && did == old(did)
      {
        CallsTo(events, k);
        Do(events[k]);
        OneMoreEffect(old(W()), events[..k], events[k]);
      }
      assert events[..|events|] == events;
      did := did + [events];
    }

    /** The state changed by the loose pages going to me_pghead, or to the freed pages without one. */
    method SettleLoose()
      requires Valid()
      modifies this`head, this`freed, this`loose, this`history
      ensures Valid() && old(history) <= history && loose == {} && old(freed) <= freed
      ensures if pglast == 0 then head == old(head) else freed == old(freed) && head == old(head) + old(loose)
      ensures W() == WithSettled(old(W()))
    {
      hide WriterConserves;
      if pglast == 0 {
        freed, loose := freed + loose, {};
      } else {
        head, loose := head + loose, {};
      }
      Record(Settles, 0);
    }

    ghost predicate Keeps(v: Progress)
      reads this
    {
      Valid() && Followed() && Kept(v, db, txnid, pglast, freed) && (pglast == 0 ==> head == {} && loose == {})
    }

    /** Deletes the records read from the freeDB and any reserved for me_pghead. */
    method DeleteRead(v: Progress, work: seq<seq<Event>>, k: nat) returns (v': Progress, k': nat, ok: bool)
      requires Keeps(v) && k <= |work| && forall e :: e in work ==> Possible(bound, e)
      modifies this
      ensures Keeps(v') && old(history) <= history && k <= k' <= |work|
      ensures ok ==> v'.pglast == pglast
      ensures !ok ==> k' == |work| && v'.pglast < pglast
      ensures if k' == k then v' == v && db == old(db) else v' == Progress(v'.pglast, v'.pglast, 0, 0, v.freecnt) && v.pglast < pglast
      ensures Quiet(work) ==> Quietly() && |db| + (k' - k) == |old(db)|
      ensures first == old(first) && did == Longer(old(did), work, k, k')
    {
      hide WriterConserves, Longer, After;
      LongerBy(did, work, k, k, k);
      v', k', ok := v, k, true;
      while v'.pglast < pglast
        invariant Keeps(v') && old(history) <= history && k <= k' <= |work|
        invariant if k' == k then v' == v && db == old(db) else v' == Progress(v'.pglast, v'.pglast, 0, 0, v.freecnt) && v.pglast < pglast
        invariant Quiet(work) ==> Quietly() && |db| + (k' - k) == |old(db)|
        invariant first == old(first) && did == Longer(old(did), work, k, k')
        decreases |work| - k'
      {
        if k' == |work| {
          return v', k', false;
        }
        var key := NextKey(0);
        KeptByDelete(v', db, txnid, pglast, freed, key.value);
        v' := Progress(key.value, key.value, 0, 0, v'.freecnt);
        DeleteRecord(key.value);
        QuietAt(work, k');
        LongerBy(old(did), work, k, k', k');
        Continue(v', work[k']);
        k' := k' + 1;
      }
    }

    method DeleteRecord(key: Txn)
      requires Valid() && key <= pglast
      modifies this`db
      ensures Valid() && Followed() == old(Followed()) && db == old(db) - {key} && (key in old(db) ==> |db| + 1 == |old(db)|)
    {
      db := db - {key};
      assert W() == old(W());
    }

    method Continue(v: Progress, events: seq<Event>)
      requires Keeps(v) && Possible(bound, events)
      modifies this
      ensures Keeps(v) && Worked() && (events == [] ==> Quietly())
      ensures first == old(first) && did == old(did) + [events]
    {
      ghost var pglast0, freed0 := pglast, freed;
      OneMoreCall(first, did, events);
      Work(events);
      KeptByWork(v, db, txnid, pglast0, freed0, pglast, freed);
    }

    /** Writes this transaction's freed pages, again while writing them frees more. */
    method WriteFreed(v: Progress, work: seq<seq<Event>>, k: nat) returns (v': Progress, k': nat, ok: bool)
      requires Keeps(v) && k <= |work| && forall e :: e in work ==> Possible(bound, e)
      requires v.freecnt < |freed|
      modifies this
      ensures Keeps(v') && old(history) <= history && k <= k' <= |work|
      ensures ok ==> k < k' && v'.(freecnt := 0) == v.(freecnt := 0)
      ensures ok ==> v'.freecnt == |freed| && txnid in db && db[txnid] == Listed(freed)
      ensures !ok ==> k' == |work|
      ensures Quiet(work) ==> Quietly() && k' <= k + 2 && (!ok ==> k' < k + 2)
      ensures first == old(first) && did == Longer(old(did), work, k, k')
    {
      hide WriterConserves, Longer, After;
      LongerBy(did, work, k, k, k);
      v', k', ok := v, k, true;
      if v.freecnt == 0 {
        if k' == |work| {
          return v', k', false;
        }
        QuietAt(work, k');
        LongerBy(old(did), work, k, k', k');
        Continue(v', work[k']);
        k' := k' + 1;
      }
      while v'.freecnt < |freed|
        invariant Keeps(v') && old(history) <= history && k <= k' <= |work|
        invariant v'.(freecnt := 0) == v.(freecnt := 0) && freed != {} && (v'.freecnt < |freed| || k < k')
        invariant Quiet(work) ==> Quietly() && k' <= k + if v'.freecnt < |freed| then 1 else 2
        invariant first == old(first) && did == Longer(old(did), work, k, k')
        decreases |work| - k'
      {
        if k' == |work| {
          return v', k', false;
        }
        KeptByFreed(v', db, txnid, pglast, freed);
        v' := v'.(freecnt := |freed|);
        PutFreed();
        QuietAt(work, k');
        LongerBy(old(did), work, k, k', k');
        Continue(v', work[k']);
        k' := k' + 1;
      }
      FreedWhole(v', db, txnid, pglast, freed);
    }

    method PutFreed()
      requires Valid()
      modifies this`db
      ensures Valid() && Followed() == old(Followed()) && db == old(db)[txnid := Listed(freed)]
    {
      db := db[txnid := Listed(freed)];
      assert W() == old(W());
    }

    /** Reserves room for me_pghead: grows or shrinks the record at headId, or starts another below it. */
    method Reserve(v: Progress, maxfree: nat, pages: nat, events: seq<Event>) returns (v': Progress)
      requires Keeps(v) && Possible(bound, events) && 0 < v.headId && v.headRoom <= v.totalRoom
      modifies this
      ensures Keeps(v') && old(history) <= history
      ensures v' == Reserved1(v, maxfree, pages) && (events == [] ==> Quietly())
      ensures first == old(first) && did == old(did) + [events]
    {
      hide WriterConserves;
      v' := v;
      if v'.totalRoom < pages && maxfree <= v'.headRoom && 1 < v'.headId {
        KeptByNewHead(v', db, txnid, pglast, freed);
        v' := v'.(headId := v'.headId - 1, headRoom := 0);
      }
      KeptByReserve(v', db, txnid, pglast, freed, 0);
      var others := v'.totalRoom - v'.headRoom;
      var room := NewRoom(pages - others, v'.headId, maxfree);
      KeptByReserve(v', db, txnid, pglast, freed, room);
      v' := v'.(headRoom := room, totalRoom := others + room);
      PutReserved(v'.headId, room);
      Continue(v', events);
    }

    method PutReserved(key: Txn, room: nat)
      requires Valid() && 0 < key <= pglast
      modifies this`db
      ensures Valid() && Followed() == old(Followed()) && db == old(db)[key := Reserved(room)]
    {
      db := db[key := Reserved(room)];
      assert W() == old(W());
    }

    /** Writes the pages of me_pghead into the reserved records. */
    method Fill(ghost v: Progress)
      requires Valid() && Kept(v, db, txnid, pglast, freed) && (pglast == 0 ==> head == {} && loose == {}) && v.pglast == pglast && v.freecnt == |freed| && loose == {} && |head| <= v.totalRoom
      modifies this`db
      ensures Valid() && Saved(W(), Lists(db)) && W() == old(W())
    {
      hide WriterConserves;
      ghost var was := db;
      var rest, key := head, 0;
      while rest != {}
        invariant Filling(was, db, head, rest, key, pglast)
        decreases pglast - key
      {
        ghost var ahead := RoomAhead(db, key, pglast);
        var next := NextKey(key);
        var len := if db[next.value].room > |rest| then |rest| else db[next.value].room;
        var part := Smallest(rest, len);
        FillingNext(was, db, head, rest, key, pglast, next.value, part);
        key := next.value;
        db := db[key := Listed(part)];
        rest := rest - part;
      }
      assert W() == old(W()) by {
        assert Unread(db, pglast, txnid) == Unread(was, pglast, txnid);
      }
      FilledIsSaved(v, was, db, W(), key);
    }

    /** mdb_freelist_save. Each call that changes the freeDB does the next piece of `work`; false if there are
        more calls than that. */
    method Save(maxfree: nat, work: seq<seq<Event>>) returns (done: bool, calls: nat)
      requires Valid() && forall e :: e in work ==> Possible(bound, e)
      requires (0 < pglast ==> pglast in db) && txnid !in db && forall r :: r in db ==> db[r].Listed?
      modifies this
      ensures Valid() && old(history) <= history
      ensures done ==> Saved(W(), Lists(db)) && Conserved(Snapshot(txnid, used, Lists(db), next - 1))
      ensures calls <= |work| && (done ==> W() == Settled(After(Unsettled(old(W())), work[..calls])))
      ensures done || calls == |work|
      ensures Quiet(work) && |work| > |old(db)| + old(pglast) + 3 ==> done
    {
      hide WriterConserves, Kept, Saved, Conserved, History, Possible, Unread, Quiet, InTime, After, Settled, Unsettled;
      if pglast != 0 && work == [] {
        return false, 0;
      }
      if pglast != 0 {
        QuietAt(work, 0);
      }
      calls := if pglast != 0 then 1 else 0;
      Start(work);
      StartsInTime(calls, |work|, |db|, pglast, |freed|, |head| + |loose|, maxfree);
      ghost var v;
      v, calls, done := MakeRoom(maxfree, work, calls);
      if done {
        assert did == work[..calls];
        FillAll(v);
      }
    }

    lemma Facts(v: Progress)
      requires Keeps(v)
      ensures v.freecnt <= |freed| && v.pglast <= pglast && (v.headRoom <= v.totalRoom || v.headId == 0)
      ensures v.headId == 0 && v.pglast == pglast ==> |head| + |loose| == v.totalRoom
    {
      KeptFacts(v, db, txnid, pglast, freed);
    }

    twostate lemma SameLists()
      requires Quietly()
      ensures head == old(head) && pglast == old(pglast) && freed == old(freed) && loose == old(loose)
    {
    }

    /** The loop that deletes the records read, writes the freed pages and reserves room for the others until none
        of that changes the lists any more. */
    method MakeRoom(maxfree: nat, work: seq<seq<Event>>, k0: nat) returns (v: Progress, k: nat, ok: bool)
      requires Keeps(Progress(0, 0, 0, 0, 0)) && k0 <= |work| && forall e :: e in work ==> Possible(bound, e)
      modifies this
      ensures Keeps(v) && old(history) <= history && k0 <= k <= |work| && (ok || k == |work|)
      ensures first == old(first) && did == Longer(old(did), work, k0, k)
      ensures ok ==> v.pglast == pglast && v.freecnt == |freed| && |head| + |loose| <= v.totalRoom
      ensures Quiet(work) && old(InTime(Progress(0, 0, 0, 0, 0), k0, |work|, |db|, pglast, |freed|, |head| + |loose|, maxfree, true)) ==> ok
    {
      hide Keeps, Valid, Quiet, InTime, Reserved1, Possible, Quietly, Longer;
      LongerBy(did, work, k0, k0, k0);
      ghost var prompt := Quiet(work) && InTime(Progress(0, 0, 0, 0, 0), k0, |work|, |db|, pglast, |freed|, |head| + |loose|, maxfree, true);
      var more;
      v, k, more := Progress(0, 0, 0, 0, 0), k0, true;
      while true
        invariant Keeps(v) && old(history) <= history && k0 <= k <= |work|
        invariant first == old(first) && did == Longer(old(did), work, k0, k)
        invariant prompt ==> Quiet(work) && InTime(v, k, |work|, |db|, pglast, |freed|, |head| + |loose|, maxfree, more)
        decreases |work| - k
      {
        label Loop:
        ghost var v0, k1, size0 := v, k, |db|;
        v, k, ok := DeleteRead(v, work, k);
        LongerBy(old(did), work, k0, k1, k);
        Facts(v);
        if prompt {
          SameLists@Loop();
          DeletesInTime(v0, v, k1, k, |work|, size0, |db|, pglast, |freed|, |head| + |loose|, maxfree, more);
        }
        if !ok {
          return v, k, false;
        }
        if v.freecnt < |freed| {
          label Write:
          ghost var v1, k2, size1 := v, k, |db|;
          v, k, ok := WriteFreed(v, work, k);
          LongerBy(old(did), work, k0, k2, k);
          if prompt {
            SameLists@Write();
            WritesInTime(v1, v, k2, k, |work|, size1, |db|, pglast, |freed|, |head| + |loose|, maxfree, more);
          }
          if !ok {
            return v, k, false;
          }
          continue;
        }
        var pages := |head| + |loose|;
        ghost var before := more;
        if pages <= v.totalRoom {
          if v.totalRoom == pages || !more {
            break;
          }
          more := false;
        }
        ReservesInTime(v, k, |work|, |db|, |db|, pglast, |freed|, pages, maxfree, before);
        if k == |work| {
          return v, k, false;
        }
        QuietAt(work, k);
        LongerBy(old(did), work, k0, k, k);
        label Room:
        ghost var v1, size1 := v, |db|;
        v := Reserve(v, maxfree, pages, work[k]);
        if prompt {
          SameLists@Room();
          ReservesInTime(v1, k, |work|, size1, |db|, pglast, |freed|, pages, maxfree, before);
        }
        k := k + 1;
      }
      return v, k, true;
    }

    /** Touches the first page of the freeDB if me_pghead is there, or frees the loose pages. */
    method Start(work: seq<seq<Event>>)
      requires Valid() && (pglast != 0 ==> work != [] && Possible(bound, work[0]))
      requires (0 < pglast ==> pglast in db) && txnid !in db && forall r :: r in db ==> db[r].Listed?
      modifies this
      ensures Keeps(Progress(0, 0, 0, 0, 0)) && old(history) <= history
      ensures db == old(db) && (old(pglast) == 0 || work[0] == [] ==> pglast == old(pglast))
      ensures first == Unsettled(old(W())) && did == if old(pglast) == 0 then [] else work[..1]
    {
      assert pglast == 0 ==> head == {};
      hide WriterConserves, History, Possible, Unread;
      NoEffect(Unsettled(W()));
      if pglast != 0 {
        first, did := W(), [];
        OneMoreCall(first, [], work[0]);
        Work(work[0]);
      } else {
        SettleLoose();
        first, did := W(), [];
      }
      KeptAtStart(db, txnid, pglast, freed);
    }

    /** Returns the loose pages to me_pghead and fills the reserved records. */
    method FillAll(ghost v: Progress)
      requires Keeps(v) && v.pglast == pglast && v.freecnt == |freed| && |head| + |loose| <= v.totalRoom
      modifies this
      ensures Valid() && old(history) <= history && W() == Settled(After(old(first), old(did)))
      ensures Saved(W(), Lists(db)) && Conserved(Snapshot(txnid, used, Lists(db), next - 1))
    {
      hide WriterConserves;
      if pglast != 0 {
        SettleLoose();
      }
      Fill(v);
      CommitConserves(W(), Lists(db));
    }
  }

  /** The length of the record at `headId` when `pages` pages remain for it and those below: what fits on
      one page, or an even share if one page is too small. */
  function NewRoom(pages: int, headId: Txn, maxfree: nat): (room: nat)
    requires 0 < headId
    ensures 0 < pages && (pages <= maxfree || headId == 1) ==> room == pages
    ensures maxfree < pages && 1 < headId ==> room >= pages / headId && room >= maxfree
  {
    if maxfree < pages && 1 < headId then
      var share := pages / headId;
      share + (maxfree - share % (maxfree + 1))
    else if pages < 0 then 0
    else pages
  }

  predicate Quiet(work: seq<seq<Event>>) {
    forall e :: e in work ==> e == []
  }

  lemma QuietAt(work: seq<seq<Event>>, k: nat)
    requires k < |work|
    ensures Quiet(work) ==> work[k] == []
  {
    assert work[k] in work;
  }

  /** What one reservation makes of the account. */
  function Reserved1(v: Progress, maxfree: nat, pages: nat): Progress
    requires 0 < v.headId && v.headRoom <= v.totalRoom
  {
    var down := v.totalRoom < pages && maxfree <= v.headRoom && 1 < v.headId;
    var head := if down then v.headId - 1 else v.headId;
    var others := if down then v.totalRoom else v.totalRoom - v.headRoom;
    var room := NewRoom(pages - others, head, maxfree);
    v.(headId := head, headRoom := room, totalRoom := others + room)
  }

  /** The record at headId is new, or as long as it is made for this many pages. */
  predicate Fitted(v: Progress, maxfree: nat, pages: nat) {
    || (v.headRoom == 0 && v.totalRoom == 0)
    || (0 < v.headId && v.headRoom <= v.totalRoom && v.headRoom == NewRoom(pages - (v.totalRoom - v.headRoom), v.headId, maxfree))
  }

  /** How often room is reserved until there is enough, and once more if there is too much. */
  function StillToReserve(v: Progress, maxfree: nat, pages: nat, more: bool): nat {
    if v.totalRoom == pages then 0
    else if pages < v.totalRoom then if more then 1 else 0
    else v.headId + if maxfree <= v.headRoom && 0 < v.headId then 0 else 1
  }

  /** After k of `total` calls enough are left if no page moves; `size` records, `freed` freed pages and `pages`
      other free ones are there. */
  predicate InTime(v: Progress, k: nat, total: nat, size: nat, pglast: Txn, freed: nat, pages: nat, maxfree: nat, more: bool) {
    && k + (if v.pglast < pglast then size + pglast + 1 else StillToReserve(v, maxfree, pages, more)) + (if v.freecnt < freed then 2 else 0) <= total
    && (v.pglast < pglast || Fitted(v, maxfree, pages))
  }

  lemma StartsInTime(k: nat, total: nat, size: nat, pglast: Txn, freed: nat, pages: nat, maxfree: nat)
    ensures k <= 1 && total > size + pglast + 3 ==> InTime(Progress(0, 0, 0, 0, 0), k, total, size, pglast, freed, pages, maxfree, true)
  {
  }

  lemma DeletesInTime(v: Progress, v': Progress, k: nat, k': nat, total: nat, size: nat, size': nat, pglast: Txn, freed: nat, pages: nat, maxfree: nat, more: bool)
    requires if k' == k then v' == v else v' == Progress(v'.pglast, v'.pglast, 0, 0, v.freecnt) && v.pglast < pglast
    requires k <= k' && v'.pglast <= pglast
    ensures InTime(v, k, total, size, pglast, freed, pages, maxfree, more) && size' + (k' - k) == size ==>
              InTime(v', k', total, size', pglast, freed, pages, maxfree, more) && (v'.pglast < pglast ==> k' < total)
  {
  }

  lemma WritesInTime(v: Progress, v': Progress, k: nat, k': nat, total: nat, size: nat, size': nat, pglast: Txn, freed: nat, pages: nat, maxfree: nat, more: bool)
    requires v.freecnt < freed && v.pglast == pglast
    ensures InTime(v, k, total, size, pglast, freed, pages, maxfree, more) ==>
              k + 2 <= total && (k' <= k + 2 && v' == v.(freecnt := freed) ==> InTime(v', k', total, size', pglast, freed, pages, maxfree, more))
  {
  }

  lemma ReservesInTime(v: Progress, k: nat, total: nat, size: nat, size': nat, pglast: Txn, freed: nat, pages: nat, maxfree: nat, more: bool)
    requires v.pglast == pglast && freed <= v.freecnt && 0 < v.headId && v.headRoom <= v.totalRoom && v.totalRoom != pages
    requires pages < v.totalRoom ==> more
    ensures InTime(v, k, total, size, pglast, freed, pages, maxfree, more) ==>
              k < total && InTime(Reserved1(v, maxfree, pages), k + 1, total, size', pglast, freed, pages, maxfree, more && v.totalRoom < pages)
  {
    if Fitted(v, maxfree, pages) {
      ReservesLess(v, maxfree, pages, more);
    }
    hide Fitted, Reserved1;
  }

  lemma ReservesLess(v: Progress, maxfree: nat, pages: nat, more: bool)
    requires 0 < v.headId && v.headRoom <= v.totalRoom && Fitted(v, maxfree, pages) && v.totalRoom != pages
    ensures var v' := Reserved1(v, maxfree, pages);
            && Fitted(v', maxfree, pages)
            && (v.totalRoom < pages ==> StillToReserve(v', maxfree, pages, more) < StillToReserve(v, maxfree, pages, more))
            && (pages < v.totalRoom ==> v' == v)
  {
    hide NewRoom;
  }
}
