/** The invariant of every reachable state, and that every event keeps it. */
module Invariant {
  import opened Text
  import opened Model
  import opened Machine

  // ---------- the committed tables ----------

  predicate EntryOk(h: HistoryRow) {
    (h.status == Received && h.prior == None) || (IsTerminal(h.status) && h.prior == Some(Received))
  }

  /** The event states the history row. */
  predicate States(fact: Fact, h: HistoryRow) {
    match fact
    case ReceivedFact(row) => h == ReceivedEntry(row, h.id)
    case DecisionFact(package, prior, request) =>
      h == DecisionEntry(package, prior, request, h.id) && IsTerminal(h.status)
  }

  /** A decision event keeps a spelling that names its package. */
  predicate FactNamed(w: Wiring, fact: Fact) {
    fact.DecisionFact? ==> Names(w, fact.request, fact.subject)
  }

  predicate EventOk(w: Wiring, row: OutboxRow) {
    && row.package == FactPackage(row.fact) && row.topic == FactTopic(row.fact) && row.eventType == FactType(row.fact)
    && w.stores(row.fact, row.payload) && FactNamed(w, row.fact)
  }

  predicate ReceivedIn(history: map<Id, HistoryRow>, package: Id) {
    exists id <- history :: history[id].package == package && history[id].status == Received
  }

  predicate StatedBy(outbox: map<Id, OutboxRow>, h: HistoryRow) {
    exists id <- outbox :: States(outbox[id].fact, h)
  }

  predicate StatesSome(history: map<Id, HistoryRow>, fact: Fact) {
    exists id <- history :: States(fact, history[id])
  }

  predicate PackagesOk(packages: map<Id, Package>) {
    && (forall id <- packages :: packages[id].id == id)
    && (forall a <- packages, b <- packages ::
         SameKey(packages[a], packages[b].tenantId, packages[b].idempotencyKey) ==> a == b)
  }

  predicate RowsOk(packages: map<Id, Package>, history: map<Id, HistoryRow>) {
    forall id <- history :: history[id].id == id && history[id].package in packages && EntryOk(history[id])
  }

  /** At most one received and one terminal row a package. */
  predicate OneEach(history: map<Id, HistoryRow>) {
    forall a <- history, b <- history ::
      history[a].package == history[b].package && IsTerminal(history[a].status) == IsTerminal(history[b].status) ==>
           a == b
  }

  /** The package row carries the status of its terminal row, and received when there is none. */
  predicate StatusAgrees(packages: map<Id, Package>, history: map<Id, HistoryRow>) {
    && (forall id <- history :: IsTerminal(history[id].status) ==>
          history[id].package in packages && packages[history[id].package].status == history[id].status)
    && (forall id <- packages :: packages[id].status != Received ==> HasTerminal(history, id))
  }

  predicate AllReceived(packages: map<Id, Package>, history: map<Id, HistoryRow>) {
    forall id <- packages :: ReceivedIn(history, id)
  }

  /** A received row is the one that the creation of its package writes. */
  predicate ReceivedRowsOk(packages: map<Id, Package>, history: map<Id, HistoryRow>) {
    forall id <- history :: history[id].status == Received ==>
      history[id].package in packages && history[id] == ReceivedEntry(packages[history[id].package], id)
  }

  predicate HistoryOk(packages: map<Id, Package>, history: map<Id, HistoryRow>) {
    && RowsOk(packages, history) && OneEach(history) && StatusAgrees(packages, history)
    && AllReceived(packages, history) && ReceivedRowsOk(packages, history)
  }

  predicate EventsOk(w: Wiring, packages: map<Id, Package>, outbox: map<Id, OutboxRow>) {
    forall id <- outbox ::
      && outbox[id].id == id && EventOk(w, outbox[id]) && outbox[id].package in packages
      && (outbox[id].fact.ReceivedFact? ==> SameRow(outbox[id].fact.row, packages[outbox[id].package]))
  }

  /** Every event states a history row, no two events are of the same kind for the same package. */
  predicate EventsState(history: map<Id, HistoryRow>, outbox: map<Id, OutboxRow>) {
    && (forall id <- outbox :: StatesSome(history, outbox[id].fact))
    && (forall a <- outbox, b <- outbox ::
          outbox[a].package == outbox[b].package && outbox[a].eventType == outbox[b].eventType ==> a == b)
  }

  predicate AllStated(w: Wiring, history: map<Id, HistoryRow>, outbox: map<Id, OutboxRow>) {
    && (w.signed ==> forall id <- history :: StatedBy(outbox, history[id]))
    && (!w.signed ==> outbox == map[])
  }

  predicate OutboxOk(w: Wiring, packages: map<Id, Package>, history: map<Id, HistoryRow>, outbox: map<Id, OutboxRow>) {
    EventsOk(w, packages, outbox) && EventsState(history, outbox) && AllStated(w, history, outbox)
  }

  predicate DbOk(w: Wiring, db: Db) {
    PackagesOk(db.packages) && HistoryOk(db.packages, db.history) && OutboxOk(w, db.packages, db.history, db.outbox)
  }

  // ---------- transactions in flight ----------

  predicate StagedPackageOk(db: Db, now: Time, r: CreateRequest, row: Package) {
    row == StoredPackage(r, row.id, now) && row.id !in db.packages && !KeyTaken(db, row.tenantId, row.idempotencyKey)
  }

  predicate StagedEventOk(w: Wiring, db: Db, fact: Fact, now: Time, event: Option<OutboxRow>) {
    && (event.Some? <==> w.signed)
    && (event.Some? ==>
          && event.value == EventRow(fact, event.value.id, event.value.payload, now)
          && event.value.id !in db.outbox && w.stores(fact, event.value.payload) && FactNamed(w, fact))
  }

  predicate SnapshotOk(db: Db, snapshot: map<Id, HistoryRow>) {
    forall id <- snapshot :: id in db.history && snapshot[id] == db.history[id]
  }

  predicate StagedDecisionOk(db: Db, package: Id, r: ValidationRequest, prior: Status, entry: HistoryRow) {
    && package in db.packages && ValidValidation(r) && prior == Received
    && entry == DecisionEntry(package, Received, r, entry.id)
    && entry.id !in db.history && !HasTerminal(db.history, package)
  }

  predicate PendingOk(db: Db, p: Pending) {
    p.id in db.outbox && db.outbox[p.id].publishedAt.None?
      && RecordOf(db.outbox[p.id]) == Record(p.topic, p.id, p.payload)
  }

  predicate BatchOk(db: Db, pending: seq<Pending>) {
    && (forall k | 0 <= k < |pending| :: PendingOk(db, pending[k]))
    && (forall i, k | 0 <= i < k < |pending| :: pending[i].id != pending[k].id)
  }

  predicate TxOk(w: Wiring, db: Db, t: Tx) {
    match t
    case Creating(_, r) => ValidCreate(r)
    case Inserted(now, r, row) => StagedPackageOk(db, now, r, row)
    case Recorded(now, r, row, entry) =>
      StagedPackageOk(db, now, r, row) && entry == ReceivedEntry(row, entry.id) && entry.id !in db.history
    case Enqueued(now, r, row, entry, event) =>
      && StagedPackageOk(db, now, r, row) && entry == ReceivedEntry(row, entry.id) && entry.id !in db.history
      && StagedEventOk(w, db, ReceivedFact(row), now, event)
    case Missed(_, r) => KeyTaken(db, r.tenantId, StoredUuid(r.idempotencyKey))
    case Matched(_, r, existing) => RetainedOk(db, r, existing)
    case Deciding(_, _, r) => ValidValidation(r)
    case Found(_, package, r, snapshot) => ValidValidation(r) && package in db.packages && SnapshotOk(db, snapshot)
    case Open(_, package, r, snapshot) =>
      ValidValidation(r) && package in db.packages && SnapshotOk(db, snapshot) && !HasTerminal(snapshot, package)
    case Prior(_, package, r, prior) => ValidValidation(r) && package in db.packages && prior == Received
    case Appended(_, package, r, prior, entry) => StagedDecisionOk(db, package, r, prior, entry)
    case Updated(_, package, r, prior, entry, row) =>
      StagedDecisionOk(db, package, r, prior, entry) && row == db.packages[package].(status := r.status)
    case Announced(now, package, r, prior, entry, row, event) =>
      && StagedDecisionOk(db, package, r, prior, entry) && row == db.packages[package].(status := r.status)
      && StagedEventOk(w, db, DecisionFact(package, prior, r), now, event)
    case Draining(_) => true
    case Batch(_, pending, next, phase) => next <= |pending| && BatchOk(db, pending)
  }

  /** Two transactions in flight stage different identifiers and keys, decide different packages, hold different
      rows. */
  predicate Compatible(t: Tx, u: Tx) {
    && (StagedPackage(t).Some? && StagedPackage(u).Some? ==>
          var p, q := StagedPackage(t).value, StagedPackage(u).value;
          p.id != q.id && !SameKey(p, q.tenantId, q.idempotencyKey))
    && (StagedEntry(t).Some? && StagedEntry(u).Some? ==>
          var g, h := StagedEntry(t).value, StagedEntry(u).value;
          g.id != h.id && !(IsTerminal(g.status) && IsTerminal(h.status) && g.package == h.package))
    && (StagedEvent(t).Some? && StagedEvent(u).Some? ==> StagedEvent(t).value.id != StagedEvent(u).value.id)
    && (t.Batch? && u.Batch? ==>
          forall i, k | 0 <= i < |t.pending| && 0 <= k < |u.pending| :: t.pending[i].id != u.pending[k].id)
  }

  // ---------- outcomes ----------

  predicate RetainedOk(db: Db, r: CreateRequest, p: Package) {
    && p.id in db.packages && SameRow(p, db.packages[p.id])
    && SameKey(p, r.tenantId, StoredUuid(r.idempotencyKey)) && Model.Matches(r, p)
  }

  predicate ConflictsWithSome(db: Db, r: CreateRequest) {
    exists id <- db.packages ::
         SameKey(db.packages[id], r.tenantId, StoredUuid(r.idempotencyKey)) && !Model.Matches(r, db.packages[id])
  }

  predicate OutcomeOk(db: Db, o: Outcome) {
    match o
    case Created(r, p) => p.id in db.packages && SameRow(p, db.packages[p.id])
      && p == StoredPackage(r, p.id, p.createdAt)
    case Retained(r, p) => RetainedOk(db, r, p)
    case Conflict(r) => ConflictsWithSome(db, r)
    case Decided(h) => h.id in db.history && db.history[h.id] == h && IsTerminal(h.status)
    case RetainedRowMissing => false
    case RejectedByTrigger => false
    case _ => true
  }

  /** No two calls created the same package, no two recorded the same decision. */
  predicate Distinct(o: Outcome, p: Outcome) {
    && (o.Created? && p.Created? ==> o.package.id != p.package.id)
    && (o.Decided? && p.Decided? ==> o.entry.id != p.entry.id)
  }

  // ---------- publication ----------

  predicate InLog(log: seq<Record>, id: Id) {
    exists k :: 0 <= k < |log| && log[k].key == id
  }

  predicate RecordOk(w: Wiring, db: Db, r: Record) {
    r.key in db.outbox && RecordOf(db.outbox[r.key]) == r && w.verifies(r.value)
  }

  predicate LogOk(w: Wiring, db: Db, log: seq<Record>, acked: set<Id>) {
    && (forall k | 0 <= k < |log| :: RecordOk(w, db, log[k]))
    && (forall id <- acked :: InLog(log, id))
    && (forall id <- db.outbox :: db.outbox[id].publishedAt.Some? ==> id in acked)
  }

  /** What a publisher has done so far for the rows of its batch. */
  predicate ProgressOk(w: Wiring, log: seq<Record>, acked: set<Id>, t: Tx) {
    t.Batch? ==>
      && t.next <= |t.pending|
      && (forall k | 0 <= k < t.next :: t.pending[k].id in acked)
      && (!t.phase.Ready? ==> t.next < |t.pending| && w.verifies(t.pending[t.next].payload))
      && (t.phase.Sent? || t.phase.Acknowledged? ==> InLog(log, t.pending[t.next].id))
      && (t.phase.Acknowledged? ==> t.pending[t.next].id in acked)
  }

  // ---------- requests ----------

  predicate FromSome(begun: set<CreateRequest>, p: Package) {
    exists r <- begun :: SameRow(StoredPackage(r, p.id, p.createdAt), p)
  }

  // ---------- the invariant ----------

  predicate OneOk(w: Wiring, s: State, t: Tx) {
    && TxOk(w, s.db, t) && ProgressOk(w, s.log, s.acked, t)
    && (StagedPackage(t).Some? || t.Creating? ==> t.request in s.begun)
    && (IsDecision(t) ==> Names(w, t.decision, t.package))
  }

  predicate TxsOk(w: Wiring, s: State) {
    && (forall tx <- s.txs :: tx !in s.outcomes && OneOk(w, s, s.txs[tx]))
    && (forall a <- s.txs, b <- s.txs :: a != b ==> Compatible(s.txs[a], s.txs[b]))
  }

  predicate OutcomesOk(db: Db, outcomes: map<TxId, Outcome>) {
    && (forall tx <- outcomes :: OutcomeOk(db, outcomes[tx]))
    && (forall a <- outcomes, b <- outcomes :: a != b ==> Distinct(outcomes[a], outcomes[b]))
  }

  predicate RowsBegun(db: Db, begun: set<CreateRequest>) {
    && (forall id <- db.packages :: FromSome(begun, db.packages[id]))
    && (forall r <- begun :: ValidCreate(r))
  }

  /** What the producer was given are records of committed rows. */
  predicate HandedOk(w: Wiring, db: Db, handed: set<Record>) {
    forall r <- handed :: RecordOk(w, db, r)
  }

  predicate Inv(w: Wiring, s: State) {
    && DbOk(w, s.db) && RowsBegun(s.db, s.begun) && LogOk(w, s.db, s.log, s.acked) && HandedOk(w, s.db, s.handed)
    && OutcomesOk(s.db, s.outcomes) && TxsOk(w, s)
  }

  lemma EmptyOk(w: Wiring)
    ensures Inv(w, EMPTY)
  {
  }

  // ---------- events that commit nothing ----------

  /** What the invariant says of one transaction in flight. */
  lemma Facts(w: Wiring, s: State, tx: TxId)
    requires Inv(w, s) && tx in s.txs
    ensures tx !in s.outcomes && DbOk(w, s.db) && OneOk(w, s, s.txs[tx])
    ensures forall other <- s.txs :: other != tx ==> Compatible(s.txs[tx], s.txs[other])
  {
    hide DbOk, OneOk, Compatible;
  }

  lemma CompatibleIsSymmetric(t: Tx, u: Tx)
    requires Compatible(t, u)
    ensures Compatible(u, t)
  {
  }

  /** A transaction moves to a new state that is in order by itself and beside the others. */
  lemma KeepOk(w: Wiring, s: State, tx: TxId, t: Tx)
    requires Inv(w, s) && tx !in s.outcomes && OneOk(w, s, t)
    requires forall other <- s.txs :: other != tx ==> Compatible(t, s.txs[other])
    ensures Inv(w, Keep(s, tx, t))
  {
    hide DbOk, RowsBegun, LogOk, HandedOk, OutcomesOk, Compatible;
    hide TxOk, ProgressOk;
    forall other | other in s.txs && other != tx ensures Compatible(s.txs[other], t) {
      CompatibleIsSymmetric(t, s.txs[other]);
    }
  }

  /** A transaction ends without having committed anything. */
  lemma EndOk(w: Wiring, s: State, tx: TxId, o: Outcome)
    requires Inv(w, s) && tx in s.txs && OutcomeOk(s.db, o) && !o.Created? && !o.Decided?
    ensures Inv(w, End(s, tx, o))
  {
    hide DbOk, RowsBegun, LogOk, HandedOk, OutcomeOk, Compatible;
    hide TxOk, ProgressOk;
  }

  /** A transaction that stages nothing and holds no rows is compatible with every other. */
  lemma IdleOk(w: Wiring, s: State, tx: TxId, t: Tx)
    requires Inv(w, s) && tx !in s.outcomes && OneOk(w, s, t)
    requires StagedPackage(t).None? && StagedEntry(t).None? && StagedEvent(t).None? && !t.Batch?
    ensures Inv(w, Keep(s, tx, t))
  {
    hide Inv, OneOk;
    KeepOk(w, s, tx, t);
  }

  /** Writes staged before stay staged. */
  predicate SameStaged(t: Tx, t': Tx) {
    && StagedPackage(t') == StagedPackage(t) && StagedEntry(t') == StagedEntry(t)
    && (t'.Batch? ==> t.Batch? && t'.pending == t.pending)
  }

  /** A transaction that stages at most a new event whose id nobody else has. */
  lemma AdvanceOk(w: Wiring, s: State, tx: TxId, t': Tx)
    requires Inv(w, s) && tx in s.txs && OneOk(w, s, t') && SameStaged(s.txs[tx], t')
    requires StagedEvent(t').Some? ==>
      StagedEvent(t') == StagedEvent(s.txs[tx]) || EventIdFree(s, StagedEvent(t').value.id)
    ensures Inv(w, Keep(s, tx, t'))
  {
    hide Inv, OneOk;
    Facts(w, s, tx);
    KeepOk(w, s, tx, t');
  }

  lemma MoreBegun(w: Wiring, s: State, request: CreateRequest)
    requires Inv(w, s) && ValidCreate(request)
    ensures Inv(w, s.(begun := s.begun + {request}))
  {
    hide ValidCreate, DbOk, LogOk, HandedOk, OutcomesOk, Compatible, TxOk, ProgressOk;
    var begun := s.begun + {request};
    forall id | id in s.db.packages ensures FromSome(begun, s.db.packages[id]) {
      var p := s.db.packages[id];
      var r :| r in s.begun && SameRow(StoredPackage(r, p.id, p.createdAt), p);
      assert r in begun;
    }
  }

  lemma BeginOk(w: Wiring, s: State, tx: TxId, at: Time, request: CreateRequest, package: Id,
                decision: ValidationRequest)
    requires Inv(w, s)
    ensures Inv(w, StepBeginCreate(s, tx, at, request))
    ensures Inv(w, StepBeginDecision(w, s, tx, at, package, decision))
    ensures Inv(w, StepBeginBatch(s, tx, at))
  {
    hide Inv;
    if Unused(s, tx) {
      if ValidCreate(request) {
        MoreBegun(w, s, request);
        IdleOk(w, s.(begun := s.begun + {request}), tx, Creating(at, request));
      }
      if ValidValidation(decision) && Names(w, decision, package) { IdleOk(w, s, tx, Deciding(at, package, decision)); }
      IdleOk(w, s, tx, Draining(at));
    }
  }

  lemma InsertPackageOk(w: Wiring, s: State, tx: TxId, t: Tx, id: Id)
    requires Inv(w, s) && tx in s.txs && s.txs[tx] == t && t.Creating?
    ensures Inv(w, StepInsertPackage(s, tx, t, id))
  {
    hide Inv, DbOk, ValidCreate, KeyTaken;
    Facts(w, s, tx);
    var row := StoredPackage(t.request, id, t.now);
    if KeyTaken(s.db, row.tenantId, row.idempotencyKey) {
      IdleOk(w, s, tx, Missed(t.now, t.request));
    } else if !KeyClaimed(s, row.tenantId, row.idempotencyKey) && PackageIdFree(s, id) {
      var t' := Inserted(t.now, t.request, row);
      forall other | other in s.txs && other != tx ensures Compatible(t', s.txs[other]) {
        var staged := StagedPackage(s.txs[other]);
        if staged.Some? { assert !SameKey(staged.value, row.tenantId, row.idempotencyKey); }
      }
      KeepOk(w, s, tx, t');
    }
  }

  lemma InsertReceivedOk(w: Wiring, s: State, tx: TxId, t: Tx, id: Id)
    requires Inv(w, s) && tx in s.txs && s.txs[tx] == t && t.Inserted?
    ensures Inv(w, StepInsertReceived(s, tx, t, id))
  {
    hide Inv, DbOk, KeyTaken;
    Facts(w, s, tx);
    if EntryIdFree(s, id) {
      var t' := Recorded(t.now, t.request, t.row, ReceivedEntry(t.row, id));
      forall other | other in s.txs && other != tx ensures Compatible(t', s.txs[other]) {
        assert Compatible(t, s.txs[other]);
      }
      KeepOk(w, s, tx, t');
    }
  }

  lemma EnqueueReceivedOk(w: Wiring, s: State, tx: TxId, t: Tx, id: Id, payload: string)
    requires Inv(w, s) && tx in s.txs && s.txs[tx] == t && t.Recorded?
    ensures Inv(w, StepEnqueueReceived(w, s, tx, t, id, payload))
  {
    hide Inv, DbOk, KeyTaken;
    Facts(w, s, tx);
    var s' := StepEnqueueReceived(w, s, tx, t, id, payload);
    if s' != s {
      AdvanceOk(w, s, tx, s'.txs[tx]);
    }
  }

  lemma LoadRetainedOk(w: Wiring, s: State, tx: TxId, t: Tx, found: Option<Id>)
    requires Inv(w, s) && tx in s.txs && s.txs[tx] == t && t.Missed?
    ensures Inv(w, StepLoadRetained(s, tx, t, found))
  {
    hide Inv, HistoryOk, OutboxOk, Model.Matches, Compatible;
    Facts(w, s, tx);
    if IsKeyHolder(s.db, t.request.tenantId, StoredUuid(t.request.idempotencyKey), found) {
      assert found.Some?;
      var existing := s.db.packages[found.value];
      if Model.Matches(t.request, existing) {
        IdleOk(w, s, tx, Matched(t.now, t.request, existing));
      } else {
        EndOk(w, s, tx, Conflict(t.request));
      }
    }
  }

  lemma FindAndCheckOk(w: Wiring, s: State, tx: TxId, t: Tx)
    requires Inv(w, s) && tx in s.txs && s.txs[tx] == t
    ensures t.Deciding? ==> Inv(w, StepFindPackage(s, tx, t))
    ensures t.Found? ==> Inv(w, StepCheckTerminal(s, tx, t))
  {
    hide Inv, DbOk, Compatible, ValidValidation, HasTerminal;
    Facts(w, s, tx);
    if t.Deciding? {
      if t.package in s.db.packages {
        IdleOk(w, s, tx, Found(t.now, t.package, t.decision, s.db.history));
      } else {
        EndOk(w, s, tx, NotFound);
      }
    } else if t.Found? {
      if HasTerminal(t.snapshot, t.package) {
        EndOk(w, s, tx, AlreadyTerminal);
      } else {
        IdleOk(w, s, tx, Open(t.now, t.package, t.decision, t.snapshot));
      }
    }
  }

  /** A decision's recorded prior status is always received: the snapshot holds no terminal row. */
  lemma PriorIsReceived(w: Wiring, db: Db, t: Tx, latest: Option<Id>)
    requires DbOk(w, db) && TxOk(w, db, t) && t.Open? && IsLatest(t.snapshot, t.package, latest)
    ensures latest.Some? ==> t.snapshot[latest.value].status == Received
  {
    hide PackagesOk, OutboxOk;
    if latest.Some? { assert EntryOk(db.history[latest.value]); }
  }

  lemma LoadPriorOk(w: Wiring, s: State, tx: TxId, t: Tx, latest: Option<Id>)
    requires Inv(w, s) && tx in s.txs && s.txs[tx] == t && t.Open?
    ensures Inv(w, StepLoadPrior(s, tx, t, latest))
  {
    hide Inv, DbOk, Compatible, ValidValidation, HasTerminal;
    Facts(w, s, tx);
    if IsLatest(t.snapshot, t.package, latest) {
      PriorIsReceived(w, s.db, t, latest);
      IdleOk(w, s, tx, Prior(t.now, t.package, t.decision, Received));
    }
  }

  lemma InsertDecisionOk(w: Wiring, s: State, tx: TxId, t: Tx, id: Id)
    requires Inv(w, s) && tx in s.txs && s.txs[tx] == t && t.Prior?
    ensures Inv(w, StepInsertDecision(s, tx, t, id))
  {
    hide Inv, DbOk, HasTerminal;
    Facts(w, s, tx);
    if HasTerminal(s.db.history, t.package) {
      EndOk(w, s, tx, RejectedByIndex);
    } else if !TerminalClaimed(s, t.package) && EntryIdFree(s, id) {
      var t' := Appended(t.now, t.package, t.decision, t.prior, DecisionEntry(t.package, t.prior, t.decision, id));
      forall other | other in s.txs && other != tx ensures Compatible(t', s.txs[other]) {
        var staged := StagedEntry(s.txs[other]);
        if staged.Some? { assert !(staged.value.package == t.package && IsTerminal(staged.value.status)); }
      }
      KeepOk(w, s, tx, t');
    }
  }

  /** The winner of the index always passes the trigger: its package is still in status received. */
  lemma WinnerPassesTrigger(w: Wiring, db: Db, t: Tx)
    requires DbOk(w, db) && TxOk(w, db, t) && t.Appended?
    ensures TriggerAdmits(db.packages[t.package], db.packages[t.package].(status := t.decision.status))
  {
    hide PackagesOk, OutboxOk;
    assert db.packages[t.package].status == Received;
  }

  lemma UpdateStatusOk(w: Wiring, s: State, tx: TxId, t: Tx)
    requires Inv(w, s) && tx in s.txs && s.txs[tx] == t && t.Appended?
    ensures Inv(w, StepUpdateStatus(s, tx, t))
  {
    hide Inv, DbOk, HasTerminal;
    Facts(w, s, tx);
    WinnerPassesTrigger(w, s.db, t);
    AdvanceOk(w, s, tx, Updated(t.now, t.package, t.decision, t.prior, t.entry,
      s.db.packages[t.package].(status := t.decision.status)));
  }

  lemma EnqueueDecisionOk(w: Wiring, s: State, tx: TxId, t: Tx, id: Id, payload: string)
    requires Inv(w, s) && tx in s.txs && s.txs[tx] == t && t.Updated?
    ensures Inv(w, StepEnqueueDecision(w, s, tx, t, id, payload))
  {
    hide Inv, DbOk, HasTerminal;
    Facts(w, s, tx);
    var s' := StepEnqueueDecision(w, s, tx, t, id, payload);
    if s' != s {
      AdvanceOk(w, s, tx, s'.txs[tx]);
    }
  }

  // ---------- commits ----------

  /** Adding a row keeps what the existing rows of a table witness. */
  lemma MoreHistory(history: map<Id, HistoryRow>, h: HistoryRow, package: Id, fact: Fact)
    requires h.id !in history
    ensures ReceivedIn(history, package) ==> ReceivedIn(history[h.id := h], package)
    ensures HasTerminal(history, package) ==> HasTerminal(history[h.id := h], package)
    ensures StatesSome(history, fact) ==> StatesSome(history[h.id := h], fact)
    ensures h.package == package && h.status == Received ==> ReceivedIn(history[h.id := h], package)
    ensures h.package == package && IsTerminal(h.status) ==> HasTerminal(history[h.id := h], package)
    ensures States(fact, h) ==> StatesSome(history[h.id := h], fact)
    ensures !HasTerminal(history, package) && (h.package != package || !IsTerminal(h.status)) ==>
      !HasTerminal(history[h.id := h], package)
  {
    var history' := history[h.id := h];
    assert h.id in history' && history'[h.id] == h;
    assert forall id <- history :: id in history' && history'[id] == history[id];
  }

  lemma MoreEvents(outbox: map<Id, OutboxRow>, row: OutboxRow, h: HistoryRow)
    requires row.id !in outbox
    ensures StatedBy(outbox, h) ==> StatedBy(outbox[row.id := row], h)
    ensures States(row.fact, h) ==> StatedBy(outbox[row.id := row], h)
  {
    var outbox' := outbox[row.id := row];
    assert row.id in outbox' && outbox'[row.id] == row;
    assert forall id <- outbox :: id in outbox' && outbox'[id] == outbox[id];
  }

  lemma NewPackageOk(packages: map<Id, Package>, row: Package)
    requires PackagesOk(packages) && row.id !in packages
    requires forall id <- packages :: !SameKey(packages[id], row.tenantId, row.idempotencyKey)
    ensures PackagesOk(packages[row.id := row])
  {
  }

  lemma NewPackageHistory(packages: map<Id, Package>, history: map<Id, HistoryRow>, row: Package, h: HistoryRow)
    requires HistoryOk(packages, history) && row.id !in packages && h.id !in history
    requires row.status == Received && h == ReceivedEntry(row, h.id)
    ensures HistoryOk(packages[row.id := row], history[h.id := h])
  {
    hide ReceivedIn, HasTerminal;
    forall id ensures ReceivedIn(history, id) ==> ReceivedIn(history[h.id := h], id)
              ensures HasTerminal(history, id) ==> HasTerminal(history[h.id := h], id)
    {
      MoreHistory(history, h, id, ReceivedFact(row));
    }
    MoreHistory(history, h, row.id, ReceivedFact(row));
  }

  /** An outbox with one more event, or as it was when the store has no signer. */
  lemma NewEvent(w: Wiring, packages: map<Id, Package>, packages': map<Id, Package>, history: map<Id, HistoryRow>,
                 outbox: map<Id, OutboxRow>, h: HistoryRow, fact: Fact, now: Time, event: Option<OutboxRow>)
    requires RowsOk(packages, history) && OutboxOk(w, packages, history, outbox) && h.id !in history
    requires forall id <- packages :: id in packages' && SameRow(packages[id], packages'[id])
    requires FactPackage(fact) in packages' && States(fact, h)
    requires fact.ReceivedFact? ==> SameRow(fact.row, packages'[fact.row.id])
    requires forall id <- history ::
      !(history[id].package == h.package && IsTerminal(history[id].status) == IsTerminal(h.status))
    requires StagedEventOk(w, Db(packages, history, outbox), fact, now, event)
    ensures OutboxOk(w, packages', history[h.id := h], AddEvent(outbox, event))
  {
    hide StatesSome, StatedBy, EventOk;
    var history' := history[h.id := h];
    forall f ensures StatesSome(history, f) ==> StatesSome(history', f)
             ensures States(f, h) ==> StatesSome(history', f)
    {
      MoreHistory(history, h, h.package, f);
    }
    if w.signed {
      var row := event.value;
      assert EventOk(w, row) by { NewEventOk(w, fact, row, now); }
      forall g ensures StatedBy(outbox, g) ==> StatedBy(outbox[row.id := row], g)
               ensures States(fact, g) ==> StatedBy(outbox[row.id := row], g)
      {
        MoreEvents(outbox, row, g);
      }
      forall id | id in outbox ensures !(outbox[id].package == row.package && outbox[id].eventType == row.eventType) {
        EventIsOfRow(w, packages, history, outbox, id);
      }
    }
  }

  lemma NewEventOk(w: Wiring, fact: Fact, row: OutboxRow, now: Time)
    requires row == EventRow(fact, row.id, row.payload, now) && w.stores(fact, row.payload) && FactNamed(w, fact)
    ensures EventOk(w, row)
  {
  }

  /** Every event has a history row of its package and kind. */
  lemma EventIsOfRow(w: Wiring, packages: map<Id, Package>, history: map<Id, HistoryRow>, outbox: map<Id, OutboxRow>,
                     id: Id)
    requires OutboxOk(w, packages, history, outbox) && id in outbox
    ensures exists h <- history :: history[h].package == outbox[id].package
                                   && (IsTerminal(history[h].status) <==> outbox[id].eventType == ValidationRecorded)
                                   && States(outbox[id].fact, history[h])
  {
    hide AllStated, SameRow;
    assert EventOk(w, outbox[id]) && StatesSome(history, outbox[id].fact);
    hide EventsOk, EventsState;
    var h :| h in history && States(outbox[id].fact, history[h]);
  }

  lemma CreateCommittedOk(w: Wiring, db: Db, t: Tx)
    requires DbOk(w, db) && TxOk(w, db, t) && t.Enqueued?
    ensures DbOk(w, CreateCommitted(db, t))
  {
    hide HasTerminal, OneEach, AllReceived, StatusAgrees, OutboxOk;
    NewPackageOk(db.packages, t.row);
    NewPackageHistory(db.packages, db.history, t.row, t.entry);
    NewEvent(w, db.packages, db.packages[t.row.id := t.row], db.history, db.outbox, t.entry, ReceivedFact(t.row), t.now,
      t.event);
  }

  lemma NoTerminalRow(history: map<Id, HistoryRow>, package: Id)
    requires !HasTerminal(history, package)
    ensures forall id <- history :: history[id].package == package ==> !IsTerminal(history[id].status)
  {
  }

  lemma UpdatedPackageOk(packages: map<Id, Package>, id: Id, row: Package)
    requires PackagesOk(packages) && id in packages && SameRow(packages[id], row)
    ensures PackagesOk(packages[id := row])
  {
  }

  lemma DecisionHistory(packages: map<Id, Package>, history: map<Id, HistoryRow>, row: Package, h: HistoryRow)
    requires HistoryOk(packages, history) && row.id in packages && SameRow(packages[row.id], row) && h.id !in history
    requires h.package == row.id && IsTerminal(h.status) && h.prior == Some(Received) && row.status == h.status
    requires !HasTerminal(history, row.id)
    ensures HistoryOk(packages[row.id := row], history[h.id := h])
  {
    hide ReceivedIn, HasTerminal;
    NoTerminalRow(history, row.id);
    forall id ensures ReceivedIn(history, id) ==> ReceivedIn(history[h.id := h], id)
              ensures HasTerminal(history, id) ==> HasTerminal(history[h.id := h], id)
    {
      MoreHistory(history, h, id, ReceivedFact(row));
    }
    MoreHistory(history, h, row.id, ReceivedFact(row));
  }

  lemma DecisionCommittedOk(w: Wiring, db: Db, t: Tx)
    requires DbOk(w, db) && TxOk(w, db, t) && t.Announced?
    ensures DbOk(w, DecisionCommitted(db, t))
  {
    hide HasTerminal, OneEach, AllReceived, StatusAgrees, OutboxOk, EntryOk;
    NoTerminalRow(db.history, t.package);
    UpdatedPackageOk(db.packages, t.package, t.row);
    DecisionHistory(db.packages, db.history, t.row, t.entry);
    NewEvent(w, db.packages, db.packages[t.package := t.row], db.history, db.outbox, t.entry,
             DecisionFact(t.package, t.prior, t.decision), t.now, t.event);
  }

  lemma MarkEventsOk(w: Wiring, packages: map<Id, Package>, history: map<Id, HistoryRow>, outbox: map<Id, OutboxRow>,
                     pending: seq<Pending>, now: Time)
    requires OutboxOk(w, packages, history, outbox)
    ensures OutboxOk(w, packages, history, MarksCommitted(outbox, pending, now))
  {
    var outbox' := MarksCommitted(outbox, pending, now);
    hide Holds, StatesSome, SameRow;
    assert outbox'.Keys == outbox.Keys;
    assert forall id <- outbox :: outbox'[id].(publishedAt := outbox[id].publishedAt) == outbox[id];
    forall id | id in history && w.signed ensures StatedBy(outbox', history[id]) {
      var o :| o in outbox && States(outbox[o].fact, history[id]);
      assert o in outbox' && outbox'[o].fact == outbox[o].fact;
    }
  }

  // ---------- a commit leaves the other transactions in order ----------

  lemma KeysStayTaken(db: Db, db': Db, tenant: string, key: string)
    requires forall id <- db.packages :: id in db'.packages && SameRow(db.packages[id], db'.packages[id])
    ensures KeyTaken(db, tenant, key) ==> KeyTaken(db', tenant, key)
    ensures db'.packages.Keys == db.packages.Keys ==> (KeyTaken(db', tenant, key) ==> KeyTaken(db, tenant, key))
  {
    if id :| id in db.packages && SameKey(db.packages[id], tenant, key) {
      assert id in db'.packages && SameKey(db'.packages[id], tenant, key);
    }
    if id :| id in db'.packages && SameKey(db'.packages[id], tenant, key) {
      assert id in db.packages ==> SameKey(db.packages[id], tenant, key);
    }
  }

  /** One more package takes no other key. */
  lemma KeysStayFree(db: Db, row: Package, tenant: string, key: string)
    requires row.id !in db.packages && !KeyTaken(db, tenant, key) && !SameKey(row, tenant, key)
    ensures !KeyTaken(db.(packages := db.packages[row.id := row]), tenant, key)
  {
  }

  lemma CreateBesideCreator(w: Wiring, db: Db, t: Tx, u: Tx)
    requires TxOk(w, db, t) && t.Enqueued? && TxOk(w, db, u) && Compatible(t, u)
    requires StagedPackage(u).Some? || u.Missed? || u.Matched?
    ensures TxOk(w, CreateCommitted(db, t), u)
  {
    hide Model.Matches, HasTerminal, KeyTaken, SameKey;
    var db' := CreateCommitted(db, t);
    if StagedPackage(u).Some? {
      var row := StagedPackage(u).value;
      KeysStayFree(db, t.row, row.tenantId, row.idempotencyKey);
      SameKeysTaken(db.(packages := db'.packages), db', row.tenantId, row.idempotencyKey);
    } else if u.Missed? {
      SameKeyRows(db, db');
      KeysStayTaken(db, db', u.request.tenantId, StoredUuid(u.request.idempotencyKey));
    }
  }

  lemma CreateCommitBeside(w: Wiring, db: Db, t: Tx, u: Tx)
    requires TxOk(w, db, t) && t.Enqueued? && TxOk(w, db, u) && Compatible(t, u)
    ensures TxOk(w, CreateCommitted(db, t), u)
  {
    hide ValidCreate, ValidValidation, Model.Matches, SameRow, HasTerminal, KeyTaken, SameKey, StoredPackage;
    if StagedPackage(u).Some? || u.Missed? || u.Matched? {
      CreateBesideCreator(w, db, t, u);
    } else if u.Appended? || u.Updated? || u.Announced? {
      MoreHistory(db.history, t.entry, u.package, ReceivedFact(t.row));
    }
  }

  lemma SameKeyRows(db: Db, db': Db)
    requires forall id <- db.packages :: id in db'.packages && db'.packages[id] == db.packages[id]
    ensures forall id <- db.packages :: id in db'.packages && SameRow(db.packages[id], db'.packages[id])
  {
  }

  lemma SameKeysTaken(db: Db, db': Db, tenant: string, key: string)
    requires db.packages == db'.packages
    ensures KeyTaken(db, tenant, key) == KeyTaken(db', tenant, key)
  {
  }

  lemma DecisionBesideCreator(w: Wiring, db: Db, t: Tx, u: Tx)
    requires TxOk(w, db, t) && t.Announced? && TxOk(w, db, u) && Compatible(t, u)
    requires db.packages[t.package].id == t.package
    requires StagedPackage(u).Some? || u.Missed? || u.Matched?
    ensures TxOk(w, DecisionCommitted(db, t), u)
  {
    hide Within, IsUuid, Model.Matches, HasTerminal, KeyTaken;
    var db' := DecisionCommitted(db, t);
    assert SameRow(db.packages[t.package], t.row);
    if StagedPackage(u).Some? {
      KeysStayTaken(db, db', StagedPackage(u).value.tenantId, StagedPackage(u).value.idempotencyKey);
    } else if u.Missed? {
      KeysStayTaken(db, db', u.request.tenantId, StoredUuid(u.request.idempotencyKey));
    }
  }

  lemma DecisionCommitBeside(w: Wiring, db: Db, t: Tx, u: Tx)
    requires TxOk(w, db, t) && t.Announced? && TxOk(w, db, u) && Compatible(t, u)
    requires db.packages[t.package].id == t.package
    ensures TxOk(w, DecisionCommitted(db, t), u)
  {
    hide ValidCreate, Within, IsUuid, Model.Matches, HasTerminal, KeyTaken, SameKey, StoredPackage;
    if StagedPackage(u).Some? || u.Missed? || u.Matched? {
      DecisionBesideCreator(w, db, t, u);
    } else if u.Appended? || u.Updated? || u.Announced? {
      MoreHistory(db.history, t.entry, u.package, DecisionFact(t.package, t.prior, t.decision));
    }
  }

  lemma BatchCommitBeside(w: Wiring, db: Db, t: Tx, u: Tx)
    requires TxOk(w, db, t) && t.Batch? && TxOk(w, db, u) && Compatible(t, u)
    ensures TxOk(w, db.(outbox := MarksCommitted(db.outbox, t.pending, t.now)), u)
  {
    hide ValidCreate, ValidValidation, Model.Matches, SameRow, HasTerminal;
    if u.Batch? {
      forall k | 0 <= k < |u.pending| ensures !Holds(t.pending, u.pending[k].id) {
      }
    }
  }

  // ---------- what one commit means for the rest of the state ----------

  /** Committed rows stay: packages keep everything but a first terminal status, history rows are untouched,
      events keep everything but being marked published. */
  ghost predicate Extends(db: Db, db': Db) {
    && (forall id <- db.packages :: id in db'.packages && SameRow(db.packages[id], db'.packages[id])
          && (db'.packages[id].status == db.packages[id].status
              || (db.packages[id].status == Received && IsTerminal(db'.packages[id].status))))
    && (forall id <- db.history :: id in db'.history && db'.history[id] == db.history[id])
    && (forall id <- db.outbox :: id in db'.outbox
          && db'.outbox[id].(publishedAt := db.outbox[id].publishedAt) == db.outbox[id]
          && (db.outbox[id].publishedAt.Some? ==> db'.outbox[id] == db.outbox[id]))
  }

  lemma ExtendsTransitive(a: Db, b: Db, c: Db)
    requires Extends(a, b) && Extends(b, c)
    ensures Extends(a, c)
  {
  }

  lemma CreateExtends(w: Wiring, db: Db, t: Tx)
    requires TxOk(w, db, t) && t.Enqueued?
    ensures Extends(db, CreateCommitted(db, t))
  {
    hide KeyTaken, StoredPackage, ReceivedEntry;
  }

  lemma DecisionExtends(w: Wiring, db: Db, t: Tx)
    requires DbOk(w, db) && TxOk(w, db, t) && t.Announced?
    ensures Extends(db, DecisionCommitted(db, t))
  {
    hide OutboxOk, RowsOk, OneEach, AllReceived, ReceivedRowsOk, Within, IsUuid, DecisionEntry;
    assert db.packages[t.package].status == Received;
    hide HasTerminal, DbOk;
  }

  lemma BatchExtends(db: Db, t: Tx)
    requires t.Batch?
    ensures Extends(db, db.(outbox := MarksCommitted(db.outbox, t.pending, t.now)))
  {
    hide Holds;
  }

  lemma OutcomeKept(db: Db, db': Db, o: Outcome)
    requires Extends(db, db') && PackagesOk(db.packages) && OutcomeOk(db, o)
    ensures OutcomeOk(db', o)
  {
    hide Model.Matches;
    if o.Conflict? {
      var r := o.request;
      var id :| id in db.packages && SameKey(db.packages[id], r.tenantId, StoredUuid(r.idempotencyKey))
        && !Model.Matches(r, db.packages[id]);
      MatchesIgnoresStatus(r, db.packages[id], db'.packages[id]);
      assert id in db'.packages && SameKey(db'.packages[id], r.tenantId, StoredUuid(r.idempotencyKey));
    }
  }

  lemma MatchesIgnoresStatus(r: CreateRequest, p: Package, q: Package)
    requires SameRow(p, q)
    ensures Model.Matches(r, p) <==> Model.Matches(r, q)
  {
  }

  lemma LogKept(w: Wiring, db: Db, db': Db, log: seq<Record>, acked: set<Id>)
    requires Extends(db, db') && LogOk(w, db, log, acked)
    requires forall id <- db'.outbox :: db'.outbox[id].publishedAt.Some? ==> id in acked
    ensures LogOk(w, db', log, acked)
  {
    hide InLog;
    forall k | 0 <= k < |log| ensures RecordOk(w, db', log[k]) { assert RecordOk(w, db, log[k]); }
  }

  lemma HandedKept(w: Wiring, db: Db, db': Db, handed: set<Record>)
    requires Extends(db, db') && HandedOk(w, db, handed)
    ensures HandedOk(w, db', handed)
  {
  }

  lemma CommitOk(w: Wiring, s: State, tx: TxId, db': Db, o: Outcome)
    requires forall other <- s.txs :: other != tx ==> TxOk(w, db', s.txs[other])
    requires forall id <- db'.outbox :: db'.outbox[id].publishedAt.Some? ==> id in s.acked
    requires OutcomeOk(db', o) && forall other <- s.outcomes :: Distinct(o, s.outcomes[other])
    requires DbOk(w, db') && Extends(s.db, db') && RowsBegun(db', s.begun)
    requires Inv(w, s) && tx in s.txs
    ensures Inv(w, End(s, tx, o).(db := db'))
  {
    hide Inv, DbOk, Extends, RowsBegun, LogOk, HandedOk, OutcomesOk, TxsOk, OutcomeOk, Distinct, TxOk;
    Parts(w, s);
    LogKept(w, s.db, db', s.log, s.acked);
    HandedKept(w, s.db, db', s.handed);
    OutcomesGrow(w, s, tx, db', o);
    TxsShrink(w, s, tx, db', o);
    Assembled(w, End(s, tx, o).(db := db'));
  }

  lemma Parts(w: Wiring, s: State)
    requires Inv(w, s)
    ensures DbOk(w, s.db) && RowsBegun(s.db, s.begun) && LogOk(w, s.db, s.log, s.acked) && HandedOk(w, s.db, s.handed)
    ensures OutcomesOk(s.db, s.outcomes) && TxsOk(w, s)
  {
    hide DbOk, RowsBegun, LogOk, HandedOk, OutcomesOk, TxsOk;
  }

  lemma Assembled(w: Wiring, s: State)
    requires DbOk(w, s.db) && RowsBegun(s.db, s.begun) && LogOk(w, s.db, s.log, s.acked) && HandedOk(w, s.db, s.handed)
    requires OutcomesOk(s.db, s.outcomes) && TxsOk(w, s)
    ensures Inv(w, s)
  {
    hide DbOk, RowsBegun, LogOk, HandedOk, OutcomesOk, TxsOk;
  }

  lemma OutcomesGrow(w: Wiring, s: State, tx: TxId, db': Db, o: Outcome)
    requires Inv(w, s) && tx in s.txs && Extends(s.db, db')
    requires OutcomeOk(db', o) && forall other <- s.outcomes :: Distinct(o, s.outcomes[other])
    ensures OutcomesOk(db', s.outcomes[tx := o])
  {
    hide PackagesOk, HistoryOk, OutboxOk, Extends, RowsBegun, LogOk, HandedOk, OutcomeOk, OneOk, Compatible;
    forall other | other in s.outcomes ensures OutcomeOk(db', s.outcomes[other]) {
      OutcomeKept(s.db, db', s.outcomes[other]);
    }
  }

  lemma TxsShrink(w: Wiring, s: State, tx: TxId, db': Db, o: Outcome)
    requires Inv(w, s) && tx in s.txs && forall other <- s.txs :: other != tx ==> TxOk(w, db', s.txs[other])
    ensures TxsOk(w, End(s, tx, o).(db := db'))
  {
    hide DbOk, RowsBegun, LogOk, HandedOk, OutcomesOk, TxOk, ProgressOk, Compatible;
  }

  lemma RowsStayBegun(db: Db, db': Db, begun: set<CreateRequest>)
    requires RowsBegun(db, begun) && Extends(db, db')
    requires forall id <- db'.packages :: id !in db.packages ==> FromSome(begun, db'.packages[id])
    ensures RowsBegun(db', begun)
  {
    forall id | id in db.packages && id in db'.packages ensures FromSome(begun, db'.packages[id]) {
      var p, q := db.packages[id], db'.packages[id];
      assert FromSome(begun, p);
      var r :| r in begun && SameRow(StoredPackage(r, p.id, p.createdAt), p);
      assert SameRow(p, q);
      assert SameRow(StoredPackage(r, q.id, q.createdAt), q);
    }
  }

  lemma PublishedStay(w: Wiring, s: State)
    requires Inv(w, s)
    ensures RowsBegun(s.db, s.begun) && OutcomesOk(s.db, s.outcomes)
    ensures forall id <- s.db.outbox :: s.db.outbox[id].publishedAt.Some? ==> id in s.acked
  {
    hide DbOk, RowsBegun, TxsOk, OutcomesOk;
  }

  lemma CommitCreateOk(w: Wiring, s: State, tx: TxId, t: Tx, reported: bool)
    requires Inv(w, s) && tx in s.txs && s.txs[tx] == t && t.Enqueued?
    ensures Inv(w, StepCommitCreate(s, tx, t, reported)) && Extends(s.db, StepCommitCreate(s, tx, t, reported).db)
  {
    hide Inv, DbOk, Compatible, RowsBegun, KeyTaken;
    Facts(w, s, tx);
    PublishedStay(w, s);
    var db' := CreateCommitted(s.db, t);
    CreateCommittedOk(w, s.db, t);
    CreateExtends(w, s.db, t);
    forall other | other in s.txs && other != tx ensures TxOk(w, db', s.txs[other]) {
      Facts(w, s, other);
      CreateCommitBeside(w, s.db, t, s.txs[other]);
    }
    assert FromSome(s.begun, t.row) by {
      assert t.request in s.begun && SameRow(StoredPackage(t.request, t.row.id, t.row.createdAt), t.row);
    }
    RowsStayBegun(s.db, db', s.begun);
    var o := Reported(reported, Created(t.request, t.row));
    forall other | other in s.outcomes ensures Distinct(o, s.outcomes[other]) {
      assert OutcomeOk(s.db, s.outcomes[other]);
    }
    hide TxOk, Extends, OutcomesOk;
    CommitOk(w, s, tx, db', o);
  }

  lemma PackagesInOrder(w: Wiring, db: Db, id: Id)
    requires DbOk(w, db) && id in db.packages
    ensures db.packages[id].id == id
  {
    hide HistoryOk, OutboxOk, SameKey;
  }

  lemma CommitDecisionOk(w: Wiring, s: State, tx: TxId, t: Tx, reported: bool)
    requires Inv(w, s) && tx in s.txs && s.txs[tx] == t && t.Announced?
    ensures Inv(w, StepCommitDecision(s, tx, t, reported)) && Extends(s.db, StepCommitDecision(s, tx, t, reported).db)
  {
    hide Inv, DbOk, Compatible, RowsBegun, HasTerminal, Within, IsUuid;
    Facts(w, s, tx);
    PublishedStay(w, s);
    var db' := DecisionCommitted(s.db, t);
    DecisionCommittedOk(w, s.db, t);
    DecisionExtends(w, s.db, t);
    forall other | other in s.txs && other != tx ensures TxOk(w, db', s.txs[other]) {
      Facts(w, s, other);
      PackagesInOrder(w, s.db, t.package);
      DecisionCommitBeside(w, s.db, t, s.txs[other]);
    }
    RowsStayBegun(s.db, db', s.begun);
    var o := Reported(reported, Decided(t.entry));
    forall other | other in s.outcomes ensures Distinct(o, s.outcomes[other]) {
      assert OutcomeOk(s.db, s.outcomes[other]);
    }
    hide TxOk, Extends, OutcomesOk;
    CommitOk(w, s, tx, db', o);
  }

  lemma CommitLookupOk(w: Wiring, s: State, tx: TxId, t: Tx, reported: bool)
    requires Inv(w, s) && tx in s.txs && s.txs[tx] == t && t.Matched?
    ensures Inv(w, StepCommitLookup(s, tx, t, reported))
  {
    hide Inv, DbOk, Compatible;
    Facts(w, s, tx);
    EndOk(w, s, tx, Reported(reported, Retained(t.request, t.existing)));
  }

  // ---------- the publisher ----------

  lemma SelectBatchOk(w: Wiring, s: State, tx: TxId, t: Tx, ids: seq<Id>)
    requires Inv(w, s) && tx in s.txs && s.txs[tx] == t && t.Draining?
    ensures Inv(w, StepSelectBatch(w, s, tx, t, ids))
  {
    hide Inv, DbOk, IsSelection, Compatible, BatchOk;
    Facts(w, s, tx);
    if IsSelection(s, ids, w.batchSize) {
      SelectionIn(s, ids, w.batchSize);
      var t' := Batch(t.now, Scan(s.db, ids), 0, Ready);
      SelectionOk(w, s, ids);
      forall other | other in s.txs && other != tx ensures Compatible(t', s.txs[other]) {
        SelectionApart(s, ids, w.batchSize, tx, t', other);
      }
      KeepOk(w, s, tx, t');
    }
  }

  lemma SelectionIn(s: State, ids: seq<Id>, limit: nat)
    requires IsSelection(s, ids, limit)
    ensures forall id <- ids :: id in s.db.outbox
  {
  }

  lemma SelectionOk(w: Wiring, s: State, ids: seq<Id>)
    requires DbOk(w, s.db) && IsSelection(s, ids, w.batchSize)
    ensures BatchOk(s.db, Scan(s.db, ids))
  {
    hide PackagesOk, HistoryOk, AllStated, EventsState, SameRow, EventOk;
    var pending := Scan(s.db, ids);
    forall k | 0 <= k < |pending| ensures PendingOk(s.db, pending[k]) {
      assert Available(s, ids[k]);
    }
  }

  lemma SelectionApart(s: State, ids: seq<Id>, limit: nat, tx: TxId, t': Tx, other: TxId)
    requires IsSelection(s, ids, limit) && other in s.txs && t'.Batch? && t'.pending == Scan(s.db, ids)
    ensures Compatible(t', s.txs[other])
  {
    var u := s.txs[other];
    if u.Batch? {
      forall i, k | 0 <= i < |t'.pending| && 0 <= k < |u.pending| ensures t'.pending[i].id != u.pending[k].id {
        assert Available(s, ids[i]);
        assert !Locks(u, ids[i]);
      }
    }
  }

  lemma VerifyNextOk(w: Wiring, s: State, tx: TxId, t: Tx)
    requires Inv(w, s) && tx in s.txs && s.txs[tx] == t && t.Batch?
    ensures Inv(w, StepVerifyNext(w, s, tx, t)) && Inv(w, StepMarkPublished(s, tx, t))
  {
    hide Inv, DbOk, BatchOk, Compatible, InLog;
    Facts(w, s, tx);
    if t.phase.Ready? && t.next < |t.pending| {
      if w.verifies(t.pending[t.next].payload) {
        AdvanceOk(w, s, tx, t.(phase := Verified));
      } else {
        EndOk(w, s, tx, Unverified(t.pending[t.next].id));
      }
    }
    if t.phase.Acknowledged? && t.next < |t.pending| {
      AdvanceOk(w, s, tx, t.(phase := Ready, next := t.next + 1));
    }
  }

  lemma MoreLog(w: Wiring, db: Db, log: seq<Record>, acked: set<Id>, r: Record)
    requires LogOk(w, db, log, acked) && RecordOk(w, db, r)
    ensures LogOk(w, db, log + [r], acked) && InLog(log + [r], r.key)
    ensures forall id :: InLog(log, id) ==> InLog(log + [r], id)
  {
    var log' := log + [r];
    assert log'[|log|] == r;
    forall id | InLog(log, id) ensures InLog(log', id) {
      var k :| 0 <= k < |log| && log[k].key == id;
      assert log'[k].key == id;
    }
    hide InLog, RecordOk;
  }

  /** The log grows by a record of a committed row. */
  lemma LogGrows(w: Wiring, s: State, r: Record)
    requires Inv(w, s) && RecordOk(w, s.db, r)
    ensures Inv(w, s.(log := s.log + [r])) && InLog(s.log + [r], r.key)
  {
    hide DbOk, LogOk, HandedOk, OutcomesOk, RowsBegun, Compatible, TxOk, InLog, RecordOk;
    MoreLog(w, s.db, s.log, s.acked, r);
  }

  lemma HandedGrows(w: Wiring, s: State, r: Record)
    requires Inv(w, s) && RecordOk(w, s.db, r)
    ensures Inv(w, s.(handed := s.handed + {r}))
  {
    hide DbOk, LogOk, OutcomesOk, RowsBegun, Compatible, TxOk, InLog, RecordOk, ProgressOk;
  }

  /** The producer may write what it was given at any time. */
  lemma LandOk(w: Wiring, s: State, record: Record)
    requires Inv(w, s)
    ensures Inv(w, StepLand(s, record))
  {
    hide Inv, DbOk, LogOk, OutcomesOk, TxsOk, RowsBegun, RecordOk;
    Parts(w, s);
    if record in s.handed { LogGrows(w, s, record); }
  }

  lemma AckedGrows(w: Wiring, s: State, id: Id)
    requires Inv(w, s) && InLog(s.log, id)
    ensures Inv(w, s.(acked := s.acked + {id}))
  {
    hide DbOk, RecordOk, OutcomesOk, RowsBegun, Compatible, TxOk, InLog;
  }

  lemma CurrentOk(w: Wiring, s: State, tx: TxId, t: Tx)
    requires Inv(w, s) && tx in s.txs && s.txs[tx] == t && t.Batch? && t.next < |t.pending| && !t.phase.Ready?
    ensures RecordOk(w, s.db, Current(t))
  {
    hide Inv, DbOk, Compatible, InLog;
    Facts(w, s, tx);
    assert PendingOk(s.db, t.pending[t.next]);
  }

  lemma HandOverOk(w: Wiring, s: State, tx: TxId, t: Tx)
    requires Inv(w, s) && tx in s.txs && s.txs[tx] == t && t.Batch?
    ensures Inv(w, StepHandOver(s, t))
  {
    hide Inv, RecordOk;
    if (t.phase.Verified? || t.phase.Sent?) && t.next < |t.pending| {
      CurrentOk(w, s, tx, t);
      HandedGrows(w, s, Current(t));
    }
  }

  lemma SendOk(w: Wiring, s: State, tx: TxId, t: Tx)
    requires Inv(w, s) && tx in s.txs && s.txs[tx] == t && t.Batch?
    ensures Inv(w, StepSend(s, tx, t)) && Inv(w, StepAcknowledge(s, tx, t))
  {
    hide Inv, DbOk, Compatible, BatchOk, RecordOk, InLog;
    Facts(w, s, tx);
    if (t.phase.Verified? || t.phase.Sent?) && t.next < |t.pending| {
      var r := Current(t);
      CurrentOk(w, s, tx, t);
      HandedGrows(w, s, r);
      var s1 := s.(handed := s.handed + {r});
      LogGrows(w, s1, r);
      AdvanceOk(w, s1.(log := s.log + [r]), tx, t.(phase := Sent));
    }
    if t.phase.Sent? && t.next < |t.pending| {
      var id := t.pending[t.next].id;
      AckedGrows(w, s, id);
      AdvanceOk(w, s.(acked := s.acked + {id}), tx, t.(phase := Acknowledged));
    }
  }

  lemma CommitBatchOk(w: Wiring, s: State, tx: TxId, t: Tx, reported: bool)
    requires Inv(w, s) && tx in s.txs && s.txs[tx] == t && t.Batch?
    ensures Inv(w, StepCommitBatch(s, tx, t, reported)) && Extends(s.db, StepCommitBatch(s, tx, t, reported).db)
  {
    hide Inv, DbOk, Compatible, RowsBegun, OutcomesOk, BatchOk;
    Facts(w, s, tx);
    PublishedStay(w, s);
    if t.phase.Ready? && t.next == |t.pending| {
      var db' := s.db.(outbox := MarksCommitted(s.db.outbox, t.pending, t.now));
      BatchDbOk(w, s.db, t);
      BatchExtends(s.db, t);
      forall other | other in s.txs && other != tx ensures TxOk(w, db', s.txs[other]) {
        Facts(w, s, other);
        BatchCommitBeside(w, s.db, t, s.txs[other]);
      }
      RowsStayBegun(s.db, db', s.begun);
      hide TxOk, Extends;
      CommitOk(w, s, tx, db', Reported(reported, Published(|t.pending|)));
    }
  }

  lemma BatchDbOk(w: Wiring, db: Db, t: Tx)
    requires DbOk(w, db) && t.Batch?
    ensures DbOk(w, db.(outbox := MarksCommitted(db.outbox, t.pending, t.now)))
  {
    hide PackagesOk, HistoryOk, OutboxOk;
    MarkEventsOk(w, db.packages, db.history, db.outbox, t.pending, t.now);
  }
}
