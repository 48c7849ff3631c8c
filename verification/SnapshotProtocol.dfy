/** LMDB's multi-version protocol: many lock-free readers, one writer at a time, page reuse.

    A state machine over the steps that other threads can see between: a reader loads the
    last transaction id, stores it in its slot, checks it again, copies a meta page; the
    writer scans the slots one by one, takes records of freed pages that are older than the
    oldest reader it knows of, allocates, frees, writes a meta page and then publishes the
    new transaction id. */
module SnapshotProtocol {
  type Txn = nat
  type Page = nat

  const NUM_METAS: nat := 2

  /** A meta page and what it leads to: the pages its trees use, and the freeDB records. */
  datatype Snapshot = Snapshot(txnid: Txn, used: set<Page>, records: map<Txn, set<Page>>, last: Page)

  datatype Option<T> = None | Some(value: T)

  /** Where a reader is in mdb_txn_renew0. `Reading` ends when its slot is cleared. */
  datatype Reader =
    | Idle
    | Loaded(slot: Option<Txn>, seen: Txn)
    | Stored(txnid: Txn)
    | Passed(txnid: Txn)
    | Reading(txnid: Txn, copy: Snapshot)
  {
    /** What mdb_find_oldest finds in the slot. */
    function Slot(): Option<Txn> {
      match this
      case Idle => None
      case Loaded(slot, _) => slot
      case Stored(v) => Some(v)
      case Passed(v) => Some(v)
      case Reading(v, _) => Some(v)
    }

    /** The slot passed the publish-and-recheck loop and has not been cleared. */
    predicate Holds() {
      Passed? || Reading?
    }
  }

  /** `todo` are the slots mdb_find_oldest has not looked at yet. */
  datatype Scan = NoScan | Scan(todo: set<nat>, oldest: Txn)

  /** The write transaction. `head` is me_pghead, `pglast` the last record loaded into it, `freed` is
      mt_free_pgs, `loose` the dirty pages freed again, `dirty` the pages of this transaction. */
  datatype Writer =
    | NoWriter
    | Writing(txnid: Txn, used: set<Page>, dirty: set<Page>, records: map<Txn, set<Page>>,
              head: set<Page>, pglast: Txn, freed: set<Page>, loose: set<Page>, next: Page, scan: Scan)
    | Written(txnid: Txn)

  /** `published` is mti_txnid; `oldest` is me_pgoldest, which survives transactions. */
  datatype State = State(
    published: Txn, metas: seq<Snapshot>, oldest: Txn, readers: map<nat, Reader>, writer: Writer)

  function EmptySnapshot(txnid: Txn): Snapshot {
    Snapshot(txnid, {}, map[], NUM_METAS - 1)
  }

  ghost predicate Init(s: State) {
    s == State(1, [EmptySnapshot(0), EmptySnapshot(1)], 0, map[], NoWriter)
  }

  // --------------------------------------------------------------- readers

  ghost predicate ReaderStep(s: State, t: State, i: nat) {
    && t == s.(readers := s.readers[i := if i in t.readers then t.readers[i] else Idle])
    && i in t.readers
    && var r := if i in s.readers then s.readers[i] else Idle;
    && var r' := t.readers[i];
    match r
    case Idle => r' == Idle || r' == Loaded(None, s.published)
    case Loaded(_, seen) => r' == Stored(seen)
    case Stored(v) => r' == if v == s.published then Passed(v) else Loaded(Some(v), s.published)
    case Passed(v) => |s.metas| == 2 && r' == Reading(v, s.metas[v % 2])
    case Reading(_, _) => r' == Idle
  }

  // ---------------------------------------------------------------- writer

  ghost predicate Begin(s: State, t: State) {
    && s.writer.NoWriter? && |s.metas| == 2
    && var base := s.metas[s.published % 2];
    t == s.(writer := Writing(s.published + 1, base.used, {}, base.records, {}, 0, {}, {}, base.last + 1, NoScan))
  }

  /** mdb_find_oldest looks at the slots one at a time. */
  ghost predicate ScanStart(s: State, t: State) {
    && s.writer.Writing? && 0 < s.writer.txnid
    && t == s.(writer := s.writer.(scan := Scan(s.readers.Keys, s.writer.txnid - 1)))
  }

  ghost predicate ScanSlot(s: State, t: State, i: nat) {
    && s.writer.Writing? && s.writer.scan.Scan? && i in s.writer.scan.todo && i in s.readers
    && var scan := s.writer.scan;
    && var slot := s.readers[i].Slot();
    && var oldest := if slot.Some? && slot.value < scan.oldest then slot.value else scan.oldest;
    t == s.(writer := s.writer.(scan := Scan(scan.todo - {i}, oldest)))
  }

  ghost predicate ScanEnd(s: State, t: State) {
    && s.writer.Writing? && s.writer.scan.Scan? && s.writer.scan.todo == {}
    && t == s.(writer := s.writer.(scan := NoScan), oldest := s.writer.scan.oldest)
  }

  /** mdb_page_alloc takes the next record, if it is older than the oldest reader it knows of. */
  ghost predicate CanLoad(w: Writer, r: Txn, oldest: Txn)
    requires w.Writing?
  {
    && r in w.records && w.pglast < r < oldest
    && (forall q :: q in w.records && q < r ==> q <= w.pglast)
  }

  function WithLoaded(w: Writer, r: Txn): Writer
    requires w.Writing? && r in w.records
  {
    w.(head := w.head + w.records[r], records := w.records - {r}, pglast := r)
  }

  /** Where an allocated page comes from. */
  datatype Source = FromHead | FromLoose | FromFile

  predicate CanAlloc(w: Writer, p: Page, source: Source)
    requires w.Writing?
  {
    match source
    case FromHead => p in w.head
    case FromLoose => p in w.loose
    case FromFile => p == w.next
  }

  function WithAllocated(w: Writer, p: Page, source: Source): Writer
    requires w.Writing?
  {
    var taken := w.(used := w.used + {p}, dirty := w.dirty + {p});
    match source
    case FromHead => taken.(head := w.head - {p})
    case FromLoose => taken.(loose := w.loose - {p})
    case FromFile => taken.(next := w.next + 1)
  }

  /** Where a page goes when it leaves the trees: if it was this transaction's own, to the loose list
      or, if it was an overflow page, back to me_pghead once there is one; otherwise, and always if it
      was the freeDB's own, to the list of pages that older snapshots may still need. */
  datatype Target = ToFreed | ToLoose | ToHead

  predicate CanFree(w: Writer, p: Page, target: Target)
    requires w.Writing?
  {
    && p in w.used
    && (target != ToFreed ==> p in w.dirty)
    && (target == ToHead ==> 0 < w.pglast)
  }

  function WithFreed(w: Writer, p: Page, target: Target): Writer
    requires w.Writing?
  {
    var gone := w.(used := w.used - {p}, dirty := w.dirty - {p});
    match target
    case ToFreed => gone.(freed := w.freed + {p})
    case ToLoose => gone.(loose := w.loose + {p})
    case ToHead => gone.(head := w.head + {p})
  }

  /** mdb_freelist_save moves the loose pages to me_pghead, or to the freed pages if there is none. */
  function WithSettled(w: Writer): Writer
    requires w.Writing?
  {
    if w.pglast == 0 then w.(freed := w.freed + w.loose, loose := {})
    else w.(head := w.head + w.loose, loose := {})
  }

  /** One piece of page work of the write transaction, when the oldest reader it knows of is `oldest`. */
  ghost predicate Move(w: Writer, w': Writer, step: Step, oldest: Txn)
    requires w.Writing?
  {
    match step
    case Loads(r) => CanLoad(w, r, oldest) && w' == WithLoaded(w, r)
    case Allocs(p, source) => CanAlloc(w, p, source) && w' == WithAllocated(w, p, source)
    case Frees(p, target) => CanFree(w, p, target) && w' == WithFreed(w, p, target)
    case Settles => w' == WithSettled(w)
    case _ => false
  }

  ghost predicate PageWork(s: State, t: State, step: Step) {
    s.writer.Writing? && t == s.(writer := t.writer) && Move(s.writer, t.writer, step, s.oldest)
  }

  /** What mdb_freelist_save leaves in the freeDB: the records that were not loaded, one record of
      this transaction's freed pages, and the rest of `head` and the loose pages in records numbered
      up to pglast. */
  ghost predicate Saved(w: Writer, records: map<Txn, set<Page>>)
    requires w.Writing?
  {
    && (forall r :: r in w.records && w.pglast < r < w.txnid ==> r in records && records[r] == w.records[r])
    && (forall r :: r in records && w.pglast < r < w.txnid ==> r in w.records)
    && (forall r :: r in records ==> 0 < r <= w.txnid)
    && InOne(records, w.txnid, w.freed)
    && (forall r, p :: r in records && r <= w.pglast && p in records[r] ==> p in w.head + w.loose)
    && (forall p :: p in w.head + w.loose ==> exists r :: r in records && r <= w.pglast && p in records[r])
    && (forall r, q :: r in records && q in records && r < q <= w.pglast ==> records[r] !! records[q])
  }

  /** The record `t` holds `pages`; there is none when there are no pages. */
  ghost predicate InOne(records: map<Txn, set<Page>>, t: Txn, pages: set<Page>) {
    if t in records then records[t] == pages else pages == {}
  }

  /** mdb_env_write_meta first overwrites the older meta page ... */
  ghost predicate WriteMeta(s: State, t: State, records: map<Txn, set<Page>>) {
    && s.writer.Writing? && s.writer.scan.NoScan? && |s.metas| == 2
    && var w := s.writer;
    && Saved(w, records) && 0 < w.next
    && t == s.(metas := s.metas[w.txnid % 2 := Snapshot(w.txnid, w.used, records, w.next - 1)], writer := Written(w.txnid))
  }

  /** ... and then publishes its number. */
  ghost predicate Publish(s: State, t: State) {
    s.writer.Written? && t == s.(published := s.writer.txnid, writer := NoWriter)
  }

  ghost predicate Abort(s: State, t: State) {
    s.writer.Writing? && t == s.(writer := NoWriter)
  }

  datatype Step =
    | ReaderMoves(i: nat)
    | Begins | ScanStarts | Scans(i: nat) | ScanEnds
    | Loads(r: Txn) | Allocs(p: Page, source: Source) | Frees(p: Page, target: Target) | Settles
    | WritesMeta(records: map<Txn, set<Page>>) | Publishes | Aborts

  ghost predicate Next(s: State, t: State, step: Step) {
    match step
    case ReaderMoves(i) => ReaderStep(s, t, i)
    case Begins => Begin(s, t)
    case ScanStarts => ScanStart(s, t)
    case Scans(i) => ScanSlot(s, t, i)
    case ScanEnds => ScanEnd(s, t)
    case Loads(_) => PageWork(s, t, step)
    case Allocs(_, _) => PageWork(s, t, step)
    case Frees(_, _) => PageWork(s, t, step)
    case Settles => PageWork(s, t, step)
    case WritesMeta(records) => WriteMeta(s, t, records)
    case Publishes => Publish(s, t)
    case Aborts => Abort(s, t)
  }

  ghost predicate Run(states: seq<State>, steps: seq<Step>) {
    && |states| == |steps| + 1
    && Init(states[0])
    && forall k :: 0 <= k < |steps| ==> Next(states[k], states[k + 1], steps[k])
  }

  // ------------------------------------------------------------- invariants

  ghost predicate InRecord(records: map<Txn, set<Page>>, p: Page) {
    exists r :: r in records && p in records[r]
  }

  ghost predicate RecordsApart(records: map<Txn, set<Page>>) {
    forall r, q :: r in records && q in records && r != q ==> records[r] !! records[q]
  }

  /** Every page after the meta pages is used once or listed in one record, never both. */
  ghost predicate Conserved(m: Snapshot) {
    && NUM_METAS <= m.last + 1
    && RecordsApart(m.records)
    && (forall r :: r in m.records ==> m.records[r] !! m.used && 0 < r <= m.txnid)
    && (forall p: Page :: NUM_METAS <= p <= m.last <==> p in m.used || InRecord(m.records, p))
  }

  /** No record as old as the snapshot lists a page the snapshot uses. */
  ghost predicate Clear(m: Snapshot, records: map<Txn, set<Page>>) {
    forall r :: r in records && r <= m.txnid ==> records[r] !! m.used
  }

  /** Every page below `next` is in exactly one place of the write transaction. */
  ghost predicate WriterConserves(w: Writer)
    requires w.Writing?
  {
    && RecordsApart(w.records)
    && (forall r :: r in w.records ==> w.records[r] !! w.used + w.head + w.freed + w.loose && w.pglast < r < w.txnid)
    && w.dirty <= w.used
    && w.used !! w.head && w.used !! w.freed && w.used !! w.loose
    && w.head !! w.freed && w.head !! w.loose && w.freed !! w.loose
    && (w.pglast == 0 ==> w.head == {})
    && w.pglast < w.txnid && NUM_METAS <= w.next
    && (forall p: Page :: NUM_METAS <= p < w.next <==>
          p in w.used || p in w.head || p in w.freed || p in w.loose || InRecord(w.records, p))
  }

  /** What the writer may hand out is in no snapshot that can still be read. */
  ghost predicate Unseen(w: Writer, m: Snapshot)
    requires w.Writing?
  {
    && w.head !! m.used
    && w.loose !! m.used
    && w.dirty !! m.used
    && Clear(m, w.records)
    && (forall p :: p in m.used ==> p < w.next)
  }

  ghost predicate MetasOk(s: State) {
    && |s.metas| == 2
    && s.metas[0].txnid % 2 == 0 && s.metas[1].txnid % 2 == 1
    && Conserved(s.metas[0]) && Conserved(s.metas[1])
    && s.metas[s.published % 2].txnid == s.published
    && (if s.writer.Written? then
          s.writer.txnid == s.published + 1 && s.metas[(s.published + 1) % 2].txnid == s.published + 1
        else 0 < s.published && s.metas[(s.published + 1) % 2].txnid == s.published - 1)
  }

  /** The newest meta page and its freeDB. */
  function Newest(s: State): Snapshot
    requires |s.metas| == 2
  {
    if s.writer.Written? then s.metas[s.writer.txnid % 2] else s.metas[s.published % 2]
  }

  ghost predicate ReaderOk(s: State, r: Reader)
    requires |s.metas| == 2
  {
    && (r.Loaded? ==> r.seen <= s.published)
    && (r.Stored? ==> r.txnid <= s.published)
    && (r.Holds() ==> s.oldest <= r.txnid <= s.published)
    && (r.Reading? ==>
          && r.txnid <= r.copy.txnid <= Newest(s).txnid
          && r.copy.last <= Newest(s).last
          && (forall p :: p in r.copy.used ==> p <= r.copy.last)
          && Clear(r.copy, Newest(s).records)
          && (s.writer.Writing? ==> Unseen(s.writer, r.copy)))
  }

  ghost predicate ScanOk(s: State) {
    s.writer.Writing? && s.writer.scan.Scan? ==>
      && s.writer.scan.oldest <= s.published
      && (forall i :: i in s.writer.scan.todo ==> i in s.readers)
      && (forall i :: i in s.readers && i !in s.writer.scan.todo && s.readers[i].Holds() ==>
            s.writer.scan.oldest <= s.readers[i].txnid)
  }

  ghost predicate Inv(s: State) {
    && MetasOk(s)
    && s.oldest <= s.published
    && (forall i :: i in s.readers ==> ReaderOk(s, s.readers[i]))
    && Clear(s.metas[0], Newest(s).records) && Clear(s.metas[1], Newest(s).records)
    && s.metas[0].last <= Newest(s).last && s.metas[1].last <= Newest(s).last
    && ScanOk(s)
    && (s.writer.Writing? ==>
          && s.writer.txnid == s.published + 1
          && WriterConserves(s.writer)
          && s.metas[s.published % 2].last < s.writer.next
          && Unseen(s.writer, s.metas[0]) && Unseen(s.writer, s.metas[1]))
  }

  // ------------------------------------------------- every step keeps them

  lemma InitInv(s: State)
    requires Init(s)
    ensures Inv(s)
  {
  }

  lemma ReaderStepInv(s: State, t: State, i: nat)
    requires Inv(s) && ReaderStep(s, t, i)
    ensures Inv(t)
  {
    var r := if i in s.readers then s.readers[i] else Idle;
    var r' := t.readers[i];
    assert ReaderOk(s, r);
    assert ReaderOk(t, r') by {
      if r.Passed? {
        var m := s.metas[r.txnid % 2];
        assert m.txnid % 2 == r.txnid % 2;
        assert r.txnid <= m.txnid;
      }
    }
    forall j | j in t.readers ensures ReaderOk(t, t.readers[j]) {
      if j != i {
        assert ReaderOk(s, s.readers[j]);
      }
    }
    if s.writer.Writing? && s.writer.scan.Scan? && r'.Holds() && i !in s.writer.scan.todo {
      assert r.Stored? ==> r.txnid == s.published;
    }
  }

  lemma BeginInv(s: State, t: State)
    requires Inv(s) && Begin(s, t)
    ensures Inv(t)
  {
    var w := t.writer;
    var base := s.metas[s.published % 2];
    forall i | i in t.readers ensures ReaderOk(t, t.readers[i]) {
      assert ReaderOk(s, s.readers[i]);
    }
    assert Newest(s) == base && Newest(t) == base;
    assert WriterConserves(w);
  }

  lemma ScanStartInv(s: State, t: State)
    requires Inv(s) && ScanStart(s, t)
    ensures Inv(t)
  {
    forall i | i in t.readers ensures ReaderOk(t, t.readers[i]) {
      assert ReaderOk(s, s.readers[i]);
    }
  }

  lemma ScanSlotInv(s: State, t: State, i: nat)
    requires Inv(s) && ScanSlot(s, t, i)
    ensures Inv(t)
  {
    forall j | j in t.readers ensures ReaderOk(t, t.readers[j]) {
      assert ReaderOk(s, s.readers[j]);
    }
  }

  lemma ScanEndInv(s: State, t: State)
    requires Inv(s) && ScanEnd(s, t)
    ensures Inv(t)
  {
    forall j | j in t.readers ensures ReaderOk(t, t.readers[j]) {
      assert ReaderOk(s, s.readers[j]);
    }
  }

  lemma {:induction false} LoadKeepsPages(w: Writer, r: Txn, oldest: Txn)
    requires w.Writing? && WriterConserves(w) && CanLoad(w, r, oldest)
    ensures WriterConserves(WithLoaded(w, r))
  {
    var w' := WithLoaded(w, r);
    forall p: Page
      ensures NUM_METAS <= p < w'.next <==>
                p in w'.used || p in w'.head || p in w'.freed || p in w'.loose || InRecord(w'.records, p)
    {
      if InRecord(w.records, p) {
        var q :| q in w.records && p in w.records[q];
        assert q != r ==> q in w'.records && p in w'.records[q];
      }
      if InRecord(w'.records, p) {
        var q :| q in w'.records && p in w'.records[q];
        assert q in w.records && p in w.records[q];
      }
    }
  }

  lemma {:induction false} AllocKeepsPages(w: Writer, p: Page, source: Source)
    requires w.Writing? && WriterConserves(w) && CanAlloc(w, p, source)
    ensures WriterConserves(WithAllocated(w, p, source))
  {
    var w' := WithAllocated(w, p, source);
    assert NUM_METAS <= p <= w.next;
    assert !InRecord(w.records, p);
    forall q: Page
      ensures NUM_METAS <= q < w'.next <==>
                q in w'.used || q in w'.head || q in w'.freed || q in w'.loose || InRecord(w'.records, q)
    {
      assert NUM_METAS <= q < w.next <==>
                q in w.used || q in w.head || q in w.freed || q in w.loose || InRecord(w.records, q);
    }
  }

  lemma {:induction false} FreeKeepsPages(w: Writer, p: Page, target: Target)
    requires w.Writing? && WriterConserves(w) && CanFree(w, p, target)
    ensures WriterConserves(WithFreed(w, p, target))
  {
    var w' := WithFreed(w, p, target);
    forall q: Page
      ensures NUM_METAS <= q < w'.next <==>
                q in w'.used || q in w'.head || q in w'.freed || q in w'.loose || InRecord(w'.records, q)
    {
      assert NUM_METAS <= q < w.next <==>
                q in w.used || q in w.head || q in w.freed || q in w.loose || InRecord(w.records, q);
    }
  }

  lemma {:induction false} SettleKeepsPages(w: Writer)
    requires w.Writing? && WriterConserves(w)
    ensures WriterConserves(WithSettled(w))
  {
    var w' := WithSettled(w);
    forall q: Page
      ensures NUM_METAS <= q < w'.next <==>
                q in w'.used || q in w'.head || q in w'.freed || q in w'.loose || InRecord(w'.records, q)
    {
      assert NUM_METAS <= q < w.next <==>
                q in w.used || q in w.head || q in w.freed || q in w.loose || InRecord(w.records, q);
    }
  }

  /** No page work loses a page or gets one twice. */
  lemma MoveKeepsPages(w: Writer, w': Writer, step: Step, oldest: Txn)
    requires w.Writing? && WriterConserves(w) && Move(w, w', step, oldest)
    ensures w'.Writing? && WriterConserves(w')
  {
    hide WriterConserves;
    match step {
      case Loads(r) => LoadKeepsPages(w, r, oldest);
      case Allocs(p, source) => AllocKeepsPages(w, p, source);
      case Frees(p, target) => FreeKeepsPages(w, p, target);
      case Settles => SettleKeepsPages(w);
    }
  }

  /** No page work offers the writer a page of a snapshot that is at least as old as `oldest`. */
  lemma MoveKeepsUnseen(w: Writer, w': Writer, step: Step, oldest: Txn, m: Snapshot)
    requires w.Writing? && WriterConserves(w) && Move(w, w', step, oldest) && oldest <= m.txnid + 1 && Unseen(w, m)
    ensures w'.Writing? && Unseen(w', m)
  {
  }

  lemma PageWorkInv(s: State, t: State, step: Step)
    requires Inv(s) && PageWork(s, t, step)
    ensures Inv(t)
  {
    var w, w' := s.writer, t.writer;
    MoveKeepsPages(w, w', step, s.oldest);
    assert w'.txnid == w.txnid && w.next <= w'.next && w'.scan == w.scan;
    MoveKeepsUnseen(w, w', step, s.oldest, s.metas[0]);
    MoveKeepsUnseen(w, w', step, s.oldest, s.metas[1]);
    hide Move, WriterConserves, Unseen, Clear, Conserved;
    forall j | j in t.readers
      ensures ReaderOk(t, t.readers[j])
    {
      assert ReaderOk(s, s.readers[j]);
      if s.readers[j].Reading? {
        MoveKeepsUnseen(w, w', step, s.oldest, s.readers[j].copy);
      }
    }
  }

  /** After every commit each page is used once or listed once. */
  lemma CommitConserves(w: Writer, records: map<Txn, set<Page>>)
    requires w.Writing? && WriterConserves(w) && Saved(w, records) && w.pglast < w.txnid
    ensures Conserved(Snapshot(w.txnid, w.used, records, w.next - 1))
  {
    var m := Snapshot(w.txnid, w.used, records, w.next - 1);
    forall r | r in records ensures SavedRecord(w, records, r) {
      SavedRecordHolds(w, records, r);
    }
    forall r, q | r in records && q in records && r != q ensures records[r] !! records[q] {
      assert SavedRecord(w, records, r) && SavedRecord(w, records, q);
    }
    forall p: Page
      ensures NUM_METAS <= p <= m.last <==> p in m.used || InRecord(records, p)
    {
      if InRecord(records, p) {
        var r :| r in records && p in records[r];
        assert SavedRecord(w, records, r);
        if w.pglast < r < w.txnid { assert InRecord(w.records, p); }
      }
      if InRecord(w.records, p) {
        var r :| r in w.records && p in w.records[r];
        assert r in records && p in records[r];
      }
      if p in w.freed {
        assert w.txnid in records && p in records[w.txnid];
      }
      if p in w.head + w.loose {
        var r :| r in records && r <= w.pglast && p in records[r];
      }
    }
  }

  /** What the record `r` of a saved freelist holds. */
  ghost predicate SavedRecord(w: Writer, records: map<Txn, set<Page>>, r: Txn)
    requires w.Writing? && r in records
  {
    if r == w.txnid then records[r] == w.freed
    else if w.pglast < r then r < w.txnid && r in w.records && records[r] == w.records[r]
    else records[r] <= w.head + w.loose
  }

  lemma SavedRecordHolds(w: Writer, records: map<Txn, set<Page>>, r: Txn)
    requires w.Writing? && Saved(w, records) && r in records && w.pglast < w.txnid
    ensures SavedRecord(w, records, r)
  {
  }

  /** The new records list nothing that an older readable snapshot uses. */
  lemma CommitKeepsClear(w: Writer, records: map<Txn, set<Page>>, m: Snapshot)
    requires w.Writing? && WriterConserves(w) && Saved(w, records) && w.pglast < w.txnid
    requires Unseen(w, m) && m.txnid < w.txnid
    ensures Clear(m, records)
  {
    forall r | r in records && r <= m.txnid ensures records[r] !! m.used {
      SavedRecordHolds(w, records, r);
    }
  }

  lemma WriteMetaInv(s: State, t: State, records: map<Txn, set<Page>>)
    requires Inv(s) && WriteMeta(s, t, records)
    ensures Inv(t)
  {
    var w := s.writer;
    CommitConserves(w, records);
    var m := s.metas[s.published % 2];
    CommitKeepsClear(w, records, m);
    assert Newest(t) == Snapshot(w.txnid, w.used, records, w.next - 1);
    forall j | j in t.readers ensures ReaderOk(t, t.readers[j]) {
      assert ReaderOk(s, s.readers[j]);
      if s.readers[j].Reading? {
        CommitKeepsClear(w, records, s.readers[j].copy);
      }
    }
  }

  lemma PublishInv(s: State, t: State)
    requires Inv(s) && Publish(s, t)
    ensures Inv(t)
  {
    assert Newest(t) == Newest(s);
    forall j | j in t.readers ensures ReaderOk(t, t.readers[j]) {
      assert ReaderOk(s, s.readers[j]);
    }
  }

  lemma AbortInv(s: State, t: State)
    requires Inv(s) && Abort(s, t)
    ensures Inv(t)
  {
    assert Newest(t) == Newest(s);
    forall j | j in t.readers ensures ReaderOk(t, t.readers[j]) {
      assert ReaderOk(s, s.readers[j]);
    }
  }

  lemma NextInv(s: State, t: State, step: Step)
    requires Inv(s) && Next(s, t, step)
    ensures Inv(t)
  {
    match step {
      case ReaderMoves(i) => ReaderStepInv(s, t, i);
      case Begins => BeginInv(s, t);
      case ScanStarts => ScanStartInv(s, t);
      case Scans(i) => ScanSlotInv(s, t, i);
      case ScanEnds => ScanEndInv(s, t);
      case Loads(_) => PageWorkInv(s, t, step);
      case Allocs(_, _) => PageWorkInv(s, t, step);
      case Frees(_, _) => PageWorkInv(s, t, step);
      case Settles => PageWorkInv(s, t, step);
      case WritesMeta(records) => WriteMetaInv(s, t, records);
      case Publishes => PublishInv(s, t);
      case Aborts => AbortInv(s, t);
    }
  }

  lemma {:induction false} RunInv(states: seq<State>, steps: seq<Step>, k: nat)
    requires Run(states, steps) && k < |states|
    ensures Inv(states[k])
  {
    if k == 0 {
      InitInv(states[0]);
    } else {
      RunInv(states, steps, k - 1);
      NextInv(states[k - 1], states[k], steps[k - 1]);
    }
  }

  // --------------------------------------------------------- main results

  /** Snapshot isolation: in every run, no page that mdb_page_alloc returns, from any source, is
      reachable from the root that a reader has copied, and no page being written is. */
  lemma SnapshotIsolation(states: seq<State>, steps: seq<Step>, k: nat, p: Page, source: Source, i: nat)
    requires Run(states, steps) && k < |steps| && steps[k] == Allocs(p, source)
    requires i in states[k].readers && states[k].readers[i].Reading?
    ensures p !in states[k].readers[i].copy.used
    ensures states[k + 1].writer.dirty !! states[k].readers[i].copy.used
  {
    RunInv(states, steps, k);
    var s := states[k];
    assert Next(s, states[k + 1], steps[k]);
    assert ReaderOk(s, s.readers[i]);
  }

  /** Page conservation: in every run both meta pages account for every page exactly once. */
  lemma PageConservation(states: seq<State>, steps: seq<Step>, k: nat, i: nat)
    requires Run(states, steps) && k < |states| && i < 2
    ensures |states[k].metas| == 2 && Conserved(states[k].metas[i])
  {
    RunInv(states, steps, k);
  }
}
