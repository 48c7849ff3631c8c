/** That LMDB gets to the pages of older transactions: what bound a finished scan of the reader table stores, and
    that without readers every old record is loaded and handed out again, the file not growing. */
module SnapshotReuse {
  import opened SnapshotProtocol

  ghost predicate Scanning(s: State) {
    s.writer.Writing? && s.writer.scan.Scan?
  }

  /** From t to k one scan has been under way. */
  ghost predicate SameScan(states: seq<State>, steps: seq<Step>, t: nat, k: nat) {
    && t <= k < |states| && k <= |steps|
    && (forall u :: t <= u <= k ==> Scanning(states[u]))
    && forall u :: t <= u < k ==> steps[u] != ScanStarts
  }

  /** A reader had this value in its slot while the scan that goes on at k was under way. */
  ghost predicate InSlot(states: seq<State>, steps: seq<Step>, k: nat, value: Txn) {
    exists t: nat, i :: SameScan(states, steps, t, k) && i in states[t].readers && states[t].readers[i].Slot() == Some(value)
  }

  lemma SeenBefore(states: seq<State>, steps: seq<Step>, k: nat, value: Txn)
    requires |states| == |steps| + 1 && 0 < k < |states| && InSlot(states, steps, k - 1, value)
    requires Scanning(states[k]) && steps[k - 1] != ScanStarts
    ensures InSlot(states, steps, k, value)
  {
    var t: nat, i :| SameScan(states, steps, t, k - 1) && i in states[t].readers && states[t].readers[i].Slot() == Some(value);
    assert SameScan(states, steps, t, k);
  }

  /** What one step does to the bound of a scan. */
  lemma BoundStep(s: State, s': State, step: Step)
    requires Next(s, s', step) && Scanning(s')
    ensures if step == ScanStarts then s'.writer.scan.oldest == s'.writer.txnid - 1
            else Scanning(s) && s'.writer.txnid == s.writer.txnid
    ensures step != ScanStarts ==>
              || s'.writer.scan.oldest == s.writer.scan.oldest
              || exists i :: i in s.readers && s.readers[i].Slot() == Some(s'.writer.scan.oldest)
  {
    match step
    case ReaderMoves(i) =>
    case Begins =>
    case ScanStarts =>
    case Scans(i) =>
      assert i in s.readers;
    case ScanEnds =>
    case Loads(_) =>
    case Allocs(_, _) =>
    case Frees(_, _) =>
    case Settles =>
    case WritesMeta(records) =>
    case Publishes =>
    case Aborts =>
  }

  /** While a scan is under way its bound is the last transaction, or was in some reader's slot since it began. */
  lemma {:induction false} ScanBound(states: seq<State>, steps: seq<Step>, k: nat)
    requires Run(states, steps) && k < |states| && Scanning(states[k])
    ensures var w := states[k].writer; 0 < w.txnid && (w.scan.oldest == w.txnid - 1 || InSlot(states, steps, k, w.scan.oldest))
  {
    RunInv(states, steps, k);
    assert 0 < states[k].writer.txnid;
    if k > 0 {
      var s, s', step := states[k - 1], states[k], steps[k - 1];
      assert Next(s, s', step);
      hide Next, Run, Inv;
      BoundStep(s, s', step);
      if step != ScanStarts {
        ScanBound(states, steps, k - 1);
        if s'.writer.scan.oldest == s.writer.scan.oldest {
          if InSlot(states, steps, k - 1, s.writer.scan.oldest) {
            SeenBefore(states, steps, k, s.writer.scan.oldest);
          }
        } else {
          var i :| i in s.readers && s.readers[i].Slot() == Some(s'.writer.scan.oldest);
          assert SameScan(states, steps, k - 1, k);
        }
      }
    }
  }

  /** The bound that a finished scan stores is the last transaction, unless a reader had an older one in its slot
      while the slots were looked at: then it is what one of them had. */
  lemma StoredBound(states: seq<State>, steps: seq<Step>, k: nat)
    requires Run(states, steps) && k < |steps| && steps[k] == ScanEnds
    ensures states[k].writer.Writing?
    ensures var oldest := states[k + 1].oldest; oldest + 1 == states[k].writer.txnid || InSlot(states, steps, k, oldest)
  {
    assert Next(states[k], states[k + 1], steps[k]);
    ScanBound(states, steps, k);
  }

  // ------------------------------------------------------------------ continuations

  /** A run goes on from `states` to a state. */
  ghost predicate Extends(states: seq<State>, steps: seq<Step>, states': seq<State>, steps': seq<Step>) {
    && Run(states, steps) && Run(states', steps') && |states| <= |states'|
    && states'[..|states|] == states && steps'[..|steps|] == steps
  }

  function Last(states: seq<State>): State
    requires states != []
  {
    states[|states| - 1]
  }

  lemma OneStep(states: seq<State>, steps: seq<Step>, s: State, step: Step)
    requires Run(states, steps) && Next(Last(states), s, step)
    ensures Extends(states, steps, states + [s], steps + [step])
  {
    hide Next;
    var more, moreSteps := states + [s], steps + [step];
    forall k | 0 <= k < |moreSteps|
      ensures Next(more[k], more[k + 1], moreSteps[k])
    {
      if k < |steps| {
        assert Next(states[k], states[k + 1], steps[k]);
      }
    }
  }

  lemma ExtendsFurther(a: seq<State>, aSteps: seq<Step>, b: seq<State>, bSteps: seq<Step>, c: seq<State>, cSteps: seq<Step>)
    requires Extends(a, aSteps, b, bSteps) && Extends(b, bSteps, c, cSteps)
    ensures Extends(a, aSteps, c, cSteps)
  {
    hide Next, Init;
    assert c[..|a|] == c[..|b|][..|a|] && cSteps[..|aSteps|] == cSteps[..|bSteps|][..|aSteps|];
  }

  lemma ExtendsSelf(states: seq<State>, steps: seq<Step>)
    requires Run(states, steps)
    ensures Extends(states, steps, states, steps)
  {
    assert states[..|states|] == states && steps[..|steps|] == steps;
  }

  /** No reader has a slot that a scan finds. */
  ghost predicate NoReaders(s: State) {
    forall i :: i in s.readers ==> s.readers[i].Slot() == None
  }

  /** The scan looks at all slots and finds nothing. */
  lemma {:induction false} ScanAll(states: seq<State>, steps: seq<Step>, todo: set<nat>) returns (states': seq<State>, steps': seq<Step>)
    requires Run(states, steps)
    requires var s := Last(states); NoReaders(s) && Scanning(s) && s.writer.scan.todo == todo && todo <= s.readers.Keys
    ensures Extends(states, steps, states', steps')
    ensures var s := Last(states); Last(states') == s.(writer := s.writer.(scan := Scan({}, s.writer.scan.oldest)))
    decreases |todo|
  {
    var s := Last(states);
    if todo == {} {
      ExtendsSelf(states, steps);
      states', steps' := states, steps;
    } else {
      var i :| i in todo;
      var s1 := s.(writer := s.writer.(scan := Scan(todo - {i}, s.writer.scan.oldest)));
      assert ScanSlot(s, s1, i);
      assert Next(s, s1, Scans(i));
      hide Run, Next, ScanSlot;
      OneStep(states, steps, s1, Scans(i));
      states', steps' := ScanAll(states + [s1], steps + [Scans(i)], todo - {i});
      ExtendsFurther(states, steps, states + [s1], steps + [Scans(i)], states', steps');
    }
  }

  /** A scan without readers stores the last transaction. */
  lemma FindOldest(states: seq<State>, steps: seq<Step>) returns (states': seq<State>, steps': seq<Step>)
    requires Run(states, steps) && Last(states).writer.Writing? && NoReaders(Last(states))
    ensures Extends(states, steps, states', steps')
    ensures var s := Last(states);
            0 < s.writer.txnid && Last(states') == s.(oldest := s.writer.txnid - 1, writer := s.writer.(scan := NoScan))
  {
    var s := Last(states);
    RunInv(states, steps, |states| - 1);
    var s1 := s.(writer := s.writer.(scan := Scan(s.readers.Keys, s.writer.txnid - 1)));
    assert Next(s, s1, ScanStarts);
    OneStep(states, steps, s1, ScanStarts);
    var states1, steps1 := states + [s1], steps + [ScanStarts];
    var states2, steps2 := ScanAll(states1, steps1, s.readers.Keys);
    var s2 := Last(states2);
    var s3 := s2.(writer := s2.writer.(scan := NoScan), oldest := s2.writer.scan.oldest);
    assert Next(s2, s3, ScanEnds);
    OneStep(states2, steps2, s3, ScanEnds);
    states', steps' := states2 + [s3], steps2 + [ScanEnds];
    hide Run, Next;
    ExtendsFurther(states, steps, states1, steps1, states2, steps2);
    ExtendsFurther(states, steps, states2, steps2, states', steps');
  }

  /** All pages of a set that is in me_pghead are handed out, one after another. */
  lemma {:induction false} AllocAll(states: seq<State>, steps: seq<Step>, pages: set<Page>) returns (states': seq<State>, steps': seq<Step>)
    requires Run(states, steps) && Last(states).writer.Writing? && pages <= Last(states).writer.head
    ensures Extends(states, steps, states', steps')
    ensures forall k :: |steps| <= k < |steps'| ==> steps'[k].Allocs? && steps'[k].source == FromHead
    ensures var s, w := Last(states), Last(states).writer;
            Last(states') == s.(writer := w.(head := w.head - pages, used := w.used + pages, dirty := w.dirty + pages))
    decreases |pages|
  {
    var s, w := Last(states), Last(states).writer;
    if pages == {} {
      ExtendsSelf(states, steps);
      states', steps' := states, steps;
      assert w.head - pages == w.head && w.used + pages == w.used && w.dirty + pages == w.dirty;
    } else {
      var p :| p in pages;
      var s1 := s.(writer := w.(head := w.head - {p}, used := w.used + {p}, dirty := w.dirty + {p}));
      assert Next(s, s1, Allocs(p, FromHead));
      hide Run, Next, Extends;
      OneStep(states, steps, s1, Allocs(p, FromHead));
      states', steps' := AllocAll(states + [s1], steps + [Allocs(p, FromHead)], pages - {p});
      ExtendsFurther(states, steps, states + [s1], steps + [Allocs(p, FromHead)], states', steps');
      StepsKept(states, steps, states + [s1], steps + [Allocs(p, FromHead)], states', steps');
      OneOfThem(w.head, w.used, w.dirty, pages, p);
    }
  }

  lemma OneOfThem(head: set<Page>, used: set<Page>, dirty: set<Page>, pages: set<Page>, p: Page)
    requires p in pages
    ensures head - {p} - (pages - {p}) == head - pages
    ensures used + {p} + (pages - {p}) == used + pages && dirty + {p} + (pages - {p}) == dirty + pages
  {
  }

  lemma StepsKept(a: seq<State>, aSteps: seq<Step>, b: seq<State>, bSteps: seq<Step>, c: seq<State>, cSteps: seq<Step>)
    requires Extends(a, aSteps, b, bSteps) && Extends(b, bSteps, c, cSteps)
    ensures |aSteps| <= |bSteps| <= |cSteps|
    ensures forall k :: 0 <= k < |bSteps| ==> cSteps[k] == bSteps[k]
  {
    hide Next, Init;
    assert forall k :: 0 <= k < |bSteps| ==> cSteps[..|bSteps|][k] == bSteps[k];
  }

  /** While no reader has a slot, the next record that is older than the last transaction can be loaded and each
      of its pages handed out again, without any page from the end of the file. */
  lemma RecordReused(states: seq<State>, steps: seq<Step>, r: Txn) returns (states': seq<State>, steps': seq<Step>)
    requires Run(states, steps) && Last(states).writer.Writing? && NoReaders(Last(states))
    requires var w := Last(states).writer; r in w.records && r + 1 < w.txnid && forall q :: q in w.records ==> r <= q
    ensures Extends(states, steps, states', steps')
    ensures var s, w, w' := Last(states), Last(states).writer, Last(states').writer;
            w'.Writing? && w'.records == w.records - {r} && w'.next == w.next
            && w'.used == w.used + w.records[r] && w'.dirty == w.dirty + w.records[r] && w'.head == w.head
            && w'.freed == w.freed && w'.loose == w.loose
  {
    RunInv(states, steps, |states| - 1);
    var w := Last(states).writer;
    assert WriterConserves(w);
    var states1, steps1 := FindOldest(states, steps);
    var s1, w1 := Last(states1), Last(states1).writer;
    var s2 := s1.(writer := w1.(head := w1.head + w1.records[r], records := w1.records - {r}, pglast := r));
    assert Next(s1, s2, Loads(r));
    OneStep(states1, steps1, s2, Loads(r));
    var states2, steps2 := states1 + [s2], steps1 + [Loads(r)];
    states', steps' := AllocAll(states2, steps2, w.records[r]);
    hide Run, Next;
    ExtendsFurther(states, steps, states1, steps1, states2, steps2);
    ExtendsFurther(states, steps, states2, steps2, states', steps');
    assert w.head + w.records[r] - w.records[r] == w.head;
  }

  lemma ReaderMoveTo(states: seq<State>, steps: seq<Step>, i: nat, r: Reader) returns (states': seq<State>, steps': seq<Step>)
    requires Run(states, steps)
    requires var s := Last(states); ReaderStep(s, s.(readers := s.readers[i := r]), i)
    ensures Extends(states, steps, states', steps')
    ensures Last(states') == Last(states).(readers := Last(states).readers[i := r])
  {
    var s := Last(states);
    var s' := s.(readers := s.readers[i := r]);
    assert Next(s, s', ReaderMoves(i));
    hide Next, ReaderStep;
    OneStep(states, steps, s', ReaderMoves(i));
    states', steps' := states + [s'], steps + [ReaderMoves(i)];
  }

  /** A reader that starts while nobody commits gets the last published transaction. */
  lemma ReaderStarts(states: seq<State>, steps: seq<Step>, i: nat) returns (states': seq<State>, steps': seq<Step>)
    requires Run(states, steps) && (i in Last(states).readers ==> Last(states).readers[i] == Idle)
    ensures Extends(states, steps, states', steps')
    ensures var s := Last(states);
            && |s.metas| == 2 && s.metas[s.published % 2].txnid == s.published
            && Last(states') == s.(readers := s.readers[i := Reading(s.published, s.metas[s.published % 2])])
  {
    var s := Last(states);
    RunInv(states, steps, |states| - 1);
    var states1, steps1 := ReaderMoveTo(states, steps, i, Loaded(None, s.published));
    var states2, steps2 := ReaderMoveTo(states1, steps1, i, Stored(s.published));
    var states3, steps3 := ReaderMoveTo(states2, steps2, i, Passed(s.published));
    states', steps' := ReaderMoveTo(states3, steps3, i, Reading(s.published, s.metas[s.published % 2]));
    hide Run, Next;
    ExtendsFurther(states, steps, states1, steps1, states2, steps2);
    ExtendsFurther(states, steps, states2, steps2, states3, steps3);
    ExtendsFurther(states, steps, states3, steps3, states', steps');
  }

  // ------------------------------------------------------------------ the life of a page

  lemma WriterMoves(states: seq<State>, steps: seq<Step>, w: Writer, step: Step) returns (states': seq<State>, steps': seq<Step>)
    requires Run(states, steps) && Last(states).writer.Writing? && Move(Last(states).writer, w, step, Last(states).oldest)
    ensures Extends(states, steps, states', steps') && steps' == steps + [step]
    ensures Last(states') == Last(states).(writer := w)
  {
    var s := Last(states);
    var s' := s.(writer := w);
    assert PageWork(s, s', step);
    assert Next(s, s', step);
    hide Next, Move, PageWork;
    OneStep(states, steps, s', step);
    states', steps' := states + [s'], steps + [step];
  }

  /** A freeDB that mdb_freelist_save may leave when the loose pages are settled: the free pages that were loaded
      go back to the last record loaded. */
  function SavedAs(w: Writer): map<Txn, set<Page>>
    requires w.Writing?
  {
    var kept := w.records[w.txnid := w.freed];
    if w.head == {} then kept else kept[w.pglast := w.head]
  }

  lemma SavedAsIsSaved(w: Writer)
    requires w.Writing? && WriterConserves(w) && w.loose == {}
    ensures Saved(w, SavedAs(w))
    ensures SavedAs(w)[w.txnid] == w.freed && forall r :: r in w.records ==> r in SavedAs(w) && SavedAs(w)[r] == w.records[r]
  {
    var records := SavedAs(w);
    assert w.head != {} ==> w.pglast in records && records[w.pglast] == w.head;
    forall p | p in w.head + w.loose
      ensures exists r :: r in records && r <= w.pglast && p in records[r]
    {
      assert w.pglast in records && p in records[w.pglast];
    }
  }

  /** The write transaction ends: it is committed, and what it freed is in its record. */
  lemma Commits(states: seq<State>, steps: seq<Step>) returns (states': seq<State>, steps': seq<Step>)
    requires Run(states, steps) && Last(states).writer.Writing? && NoReaders(Last(states))
    ensures Extends(states, steps, states', steps')
    ensures var w, s' := Last(states).writer, Last(states');
            && s'.writer == NoWriter && s'.published == w.txnid && NoReaders(s') && |s'.metas| == 2
            && var records := s'.metas[w.txnid % 2].records;
               && w.txnid in records && w.freed <= records[w.txnid]
               && forall r :: r in w.records ==> r in records && records[r] == w.records[r]
  {
    var states1, steps1 := FindOldest(states, steps);
    var w1 := Last(states1).writer;
    var states2, steps2 := WriterMoves(states1, steps1, WithSettled(w1), Settles);
    RunInv(states2, steps2, |states2| - 1);
    var s2, w := Last(states2), Last(states2).writer;
    var records := SavedAs(w);
    SavedAsIsSaved(w);
    var s3 := s2.(metas := s2.metas[w.txnid % 2 := Snapshot(w.txnid, w.used, records, w.next - 1)], writer := Written(w.txnid));
    assert Next(s2, s3, WritesMeta(records));
    OneStep(states2, steps2, s3, WritesMeta(records));
    var states3, steps3 := states2 + [s3], steps2 + [WritesMeta(records)];
    var s4 := s3.(published := w.txnid, writer := NoWriter);
    assert Next(s3, s4, Publishes);
    OneStep(states3, steps3, s4, Publishes);
    states', steps' := states3 + [s4], steps3 + [Publishes];
    hide Run, Next, Saved, Inv, SavedAs, WriterConserves;
    ExtendsFurther(states, steps, states1, steps1, states2, steps2);
    ExtendsFurther(states, steps, states2, steps2, states3, steps3);
    ExtendsFurther(states, steps, states3, steps3, states', steps');
  }

  /** The next write transaction starts from what was published. */
  lemma Starts(states: seq<State>, steps: seq<Step>) returns (states': seq<State>, steps': seq<Step>)
    requires Run(states, steps) && Last(states).writer == NoWriter && NoReaders(Last(states)) && |Last(states).metas| == 2
    ensures Extends(states, steps, states', steps')
    ensures var s, s' := Last(states), Last(states');
            NoReaders(s') && s'.writer.Writing? && s'.writer.txnid == s.published + 1 && s'.writer.records == s.metas[s.published % 2].records
            && s'.writer.pglast == 0
  {
    var s := Last(states);
    var base := s.metas[s.published % 2];
    var s' := s.(writer := Writing(s.published + 1, base.used, {}, base.records, {}, 0, {}, {}, base.last + 1, NoScan));
    assert Next(s, s', Begins);
    OneStep(states, steps, s', Begins);
    states', steps' := states + [s'], steps + [Begins];
  }

  function UpTo(records: map<Txn, set<Page>>, r: Txn): set<Txn> {
    set q | q in records && q <= r
  }

  /** The least record. */
  lemma {:induction false} Least(records: map<Txn, set<Page>>, r: Txn) returns (q: Txn)
    requires r in records
    ensures q in records && q <= r && forall o :: o in records ==> q <= o
    decreases r
  {
    if o :| o in records && o < r {
      q := Least(records, o);
    } else {
      q := r;
    }
  }

  /** All records up to r are loaded, one after another. */
  lemma {:induction false} LoadUpTo(states: seq<State>, steps: seq<Step>, r: Txn) returns (states': seq<State>, steps': seq<Step>)
    requires Run(states, steps) && Last(states).writer.Writing? && r in Last(states).writer.records && r < Last(states).oldest
    ensures Extends(states, steps, states', steps')
    ensures var s, s' := Last(states), Last(states');
            s'.writer.Writing? && s'.writer.txnid == s.writer.txnid && s.writer.records[r] <= s'.writer.head
    decreases |UpTo(Last(states).writer.records, r)|
  {
    var w := Last(states).writer;
    RunInv(states, steps, |states| - 1);
    assert WriterConserves(w);
    var q := Least(w.records, r);
    var states1, steps1 := WriterMoves(states, steps, WithLoaded(w, q), Loads(q));
    if q == r {
      states', steps' := states1, steps1;
    } else {
      assert q in UpTo(w.records, r) && UpTo(w.records - {q}, r) == UpTo(w.records, r) - {q};
      hide Run, Next, Inv, WriterConserves;
      states', steps' := LoadUpTo(states1, steps1, r);
      ExtendsFurther(states, steps, states1, steps1, states', steps');
    }
  }

  lemma ExtendedRun(a: seq<State>, aSteps: seq<Step>, b: seq<State>, bSteps: seq<Step>)
    requires Extends(a, aSteps, b, bSteps)
    ensures Run(b, bSteps) && |b| == |bSteps| + 1 && |aSteps| <= |bSteps|
  {
  }

  /** One transaction ends and the next one begins. */
  lemma NextTransaction(states: seq<State>, steps: seq<Step>) returns (states': seq<State>, steps': seq<Step>)
    requires Run(states, steps) && Last(states).writer.Writing? && NoReaders(Last(states))
    ensures Extends(states, steps, states', steps') && Run(states', steps') && |states'| == |steps'| + 1
    ensures var w, w' := Last(states).writer, Last(states').writer;
            && NoReaders(Last(states')) && w'.Writing? && w'.txnid == w.txnid + 1
            && w.txnid in w'.records && w.freed <= w'.records[w.txnid]
            && forall r :: r in w.records ==> r in w'.records && w'.records[r] == w.records[r]
  {
    hide Run, Next, Extends, NoReaders;
    var states1, steps1 := Commits(states, steps);
    ExtendedRun(states, steps, states1, steps1);
    states', steps' := Starts(states1, steps1);
    ExtendedRun(states1, steps1, states', steps');
    ExtendsFurther(states, steps, states1, steps1, states', steps');
  }

  /** Without readers every record up to r can be loaded, and a page of r handed out. */
  lemma PageReused(states: seq<State>, steps: seq<Step>, r: Txn, p: Page) returns (states': seq<State>, steps': seq<Step>)
    requires Run(states, steps) && Last(states).writer.Writing? && NoReaders(Last(states))
    requires r in Last(states).writer.records && r + 1 < Last(states).writer.txnid && p in Last(states).writer.records[r]
    ensures Extends(states, steps, states', steps') && |steps| < |steps'| && steps'[|steps'| - 1] == Allocs(p, FromHead)
    ensures Last(states').writer.Writing? && Last(states').writer.txnid == Last(states).writer.txnid && p in Last(states').writer.dirty
  {
    hide Run, Next, Extends, Move, NoReaders;
    var states1, steps1 := FindOldest(states, steps);
    ExtendedRun(states, steps, states1, steps1);
    var states2, steps2 := LoadUpTo(states1, steps1, r);
    ExtendedRun(states1, steps1, states2, steps2);
    var w := Last(states2).writer;
    MoveAllocs(w, p, Last(states2).oldest);
    states', steps' := WriterMoves(states2, steps2, WithAllocated(w, p, FromHead), Allocs(p, FromHead));
    ExtendedRun(states2, steps2, states', steps');
    ExtendsFurther(states, steps, states1, steps1, states2, steps2);
    ExtendsFurther(states, steps, states2, steps2, states', steps');
  }

  /** A page that a transaction frees is handed out again two transactions later, while there are no readers. */
  lemma FreedComesBack(states: seq<State>, steps: seq<Step>, p: Page) returns (states': seq<State>, steps': seq<Step>)
    requires Run(states, steps) && Last(states).writer.Writing? && NoReaders(Last(states)) && p in Last(states).writer.used
    ensures Extends(states, steps, states', steps') && |steps| < |steps'| && steps'[|steps|] == Frees(p, ToFreed)
    ensures steps'[|steps'| - 1] == Allocs(p, FromHead)
    ensures Last(states').writer.Writing? && Last(states').writer.txnid == Last(states).writer.txnid + 2 && p in Last(states').writer.dirty
  {
    var w := Last(states).writer;
    hide Run, Next, Extends, Move, NoReaders;
    MoveFrees(w, p, Last(states).oldest);
    var states1, steps1 := WriterMoves(states, steps, WithFreed(w, p, ToFreed), Frees(p, ToFreed));
    ExtendedRun(states, steps, states1, steps1);
    NobodyReads(Last(states), Last(states1));
    var states2, steps2 := NextTransaction(states1, steps1);
    var states3, steps3 := NextTransaction(states2, steps2);
    states', steps' := PageReused(states3, steps3, w.txnid, p);
    ExtendsFurther(states1, steps1, states2, steps2, states3, steps3);
    ExtendsFurther(states1, steps1, states3, steps3, states', steps');
    StepsKept(states, steps, states1, steps1, states', steps');
    ExtendsFurther(states, steps, states1, steps1, states', steps');
  }

  lemma NobodyReads(s: State, s': State)
    requires NoReaders(s) && s'.readers == s.readers
    ensures NoReaders(s')
  {
  }

  lemma MoveFrees(w: Writer, p: Page, oldest: Txn)
    requires w.Writing? && p in w.used
    ensures Move(w, WithFreed(w, p, ToFreed), Frees(p, ToFreed), oldest)
  {
  }

  lemma MoveAllocs(w: Writer, p: Page, oldest: Txn)
    requires w.Writing? && p in w.head
    ensures Move(w, WithAllocated(w, p, FromHead), Allocs(p, FromHead), oldest)
  {
  }

  /** The file can always grow: by the page after its last one, which no snapshot uses and no record lists; a page
      got in this way and given up in the same transaction can be had again at once. */
  lemma FileGrows(states: seq<State>, steps: seq<Step>) returns (states': seq<State>, steps': seq<Step>)
    requires Run(states, steps) && Last(states).writer.Writing?
    ensures Extends(states, steps, states', steps')
    ensures var s, w, p := Last(states), Last(states).writer, Last(states).writer.next;
            && steps' == steps + [Allocs(p, FromFile), Frees(p, ToLoose), Allocs(p, FromLoose)]
            && Last(states') == s.(writer := w.(used := w.used + {p}, dirty := w.dirty + {p}, next := p + 1))
            && NowhereYet(s, p)
  {
    var s, w, p := Last(states), Last(states).writer, Last(states).writer.next;
    IsNowhereYet(states, steps);
    RunInv(states, steps, |states| - 1);
    hide Run, Next, Extends, Move, NowhereYet;
    var w1 := w.(used := w.used + {p}, dirty := w.dirty + {p}, next := p + 1);
    var w2 := w.(loose := w.loose + {p}, next := p + 1);
    FileMoves(w, s.oldest);
    var states1, steps1 := WriterMoves(states, steps, w1, Allocs(p, FromFile));
    ExtendedRun(states, steps, states1, steps1);
    var states2, steps2 := WriterMoves(states1, steps1, w2, Frees(p, ToLoose));
    ExtendedRun(states1, steps1, states2, steps2);
    states', steps' := WriterMoves(states2, steps2, w1, Allocs(p, FromLoose));
    ExtendsFurther(states, steps, states1, steps1, states2, steps2);
    ExtendsFurther(states, steps, states2, steps2, states', steps');
  }

  /** Nobody has or lists the page, and it is none of the meta pages. */
  ghost predicate NowhereYet(s: State, p: Page) {
    && NUM_METAS <= p && s.writer.Writing?
    && p !in s.writer.used + s.writer.head + s.writer.freed + s.writer.loose && !InRecord(s.writer.records, p)
    && (forall m :: m in s.metas ==> p !in m.used)
    && (forall i :: i in s.readers && s.readers[i].Reading? ==> p !in s.readers[i].copy.used)
  }

  lemma IsNowhereYet(states: seq<State>, steps: seq<Step>)
    requires Run(states, steps) && Last(states).writer.Writing?
    ensures NowhereYet(Last(states), Last(states).writer.next)
  {
    RunInv(states, steps, |states| - 1);
    var s := Last(states);
    forall i | i in s.readers && s.readers[i].Reading?
      ensures s.writer.next !in s.readers[i].copy.used
    {
      assert ReaderOk(s, s.readers[i]);
    }
  }

  lemma FileMoves(w: Writer, oldest: Txn)
    requires w.Writing? && WriterConserves(w)
    ensures var p := w.next;
            var w1, w2 := w.(used := w.used + {p}, dirty := w.dirty + {p}, next := p + 1), w.(loose := w.loose + {p}, next := p + 1);
            Move(w, w1, Allocs(p, FromFile), oldest) && Move(w1, w2, Frees(p, ToLoose), oldest) && Move(w2, w1, Allocs(p, FromLoose), oldest)
  {
    var p := w.next;
    assert p !in w.used && p !in w.loose;
    assert w.used + {p} - {p} == w.used && w.dirty + {p} - {p} == w.dirty && w.loose + {p} - {p} == w.loose;
  }
}
