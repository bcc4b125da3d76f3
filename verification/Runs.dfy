/** What holds in every state that any run of the service can reach, and between any two states of a run. */
module Runs {
  import opened Text
  import opened Model
  import opened Machine
  import opened Invariant
  import Digest
  import Hex

  // ---------- every event keeps the invariant and only extends what is committed ----------

  lemma ExtendsReflexive(db: Db)
    ensures Extends(db, db)
  {
  }

  lemma CreatorStepOk(w: Wiring, s: State, e: Event, t: Tx)
    requires Inv(w, s) && e.tx in s.txs && s.txs[e.tx] == t && !IsCommit(e)
    requires t.Creating? || t.Inserted? || t.Recorded? || t.Enqueued? || t.Missed? || t.Matched?
    ensures Inv(w, StepLive(w, s, e, t))
  {
    hide Inv, StepInsertPackage, StepInsertReceived, StepEnqueueReceived, StepLoadRetained, StepCommitLookup,
      StepFindPackage, StepCheckTerminal, StepLoadPrior, StepInsertDecision, StepUpdateStatus, StepEnqueueDecision,
      StepSelectBatch, StepVerifyNext, StepHandOver, StepSend, StepAcknowledge, StepMarkPublished, End;
    match e {
      case InsertPackage(tx, id) => if t.Creating? { InsertPackageOk(w, s, tx, t, id); }
      case InsertReceived(tx, id) => if t.Inserted? { InsertReceivedOk(w, s, tx, t, id); }
      case EnqueueReceived(tx, id, payload) => if t.Recorded? { EnqueueReceivedOk(w, s, tx, t, id, payload); }
      case LoadRetained(tx, found) => if t.Missed? { LoadRetainedOk(w, s, tx, t, found); }
      case CommitLookup(tx, reported) => if t.Matched? { CommitLookupOk(w, s, tx, t, reported); }
      case Abort(tx) => EndOk(w, s, tx, Failed);
      case _ =>
    }
  }

  lemma DeciderStepOk(w: Wiring, s: State, e: Event, t: Tx)
    requires Inv(w, s) && e.tx in s.txs && s.txs[e.tx] == t && !IsCommit(e) && IsDecision(t)
    ensures Inv(w, StepLive(w, s, e, t))
  {
    hide Inv, StepInsertPackage, StepInsertReceived, StepEnqueueReceived, StepLoadRetained, StepCommitLookup,
      StepFindPackage, StepCheckTerminal, StepLoadPrior, StepInsertDecision, StepUpdateStatus, StepEnqueueDecision,
      StepSelectBatch, StepVerifyNext, StepHandOver, StepSend, StepAcknowledge, StepMarkPublished, End;
    match e {
      case FindPackage(tx) => FindAndCheckOk(w, s, tx, t);
      case CheckTerminal(tx) => FindAndCheckOk(w, s, tx, t);
      case LoadPrior(tx, latest) => if t.Open? { LoadPriorOk(w, s, tx, t, latest); }
      case InsertDecision(tx, id) => if t.Prior? { InsertDecisionOk(w, s, tx, t, id); }
      case UpdateStatus(tx) => if t.Appended? { UpdateStatusOk(w, s, tx, t); }
      case EnqueueDecision(tx, id, payload) => if t.Updated? { EnqueueDecisionOk(w, s, tx, t, id, payload); }
      case Abort(tx) => EndOk(w, s, tx, Failed);
      case _ =>
    }
  }

  lemma PublisherStepOk(w: Wiring, s: State, e: Event, t: Tx)
    requires Inv(w, s) && e.tx in s.txs && s.txs[e.tx] == t && !IsCommit(e) && (t.Draining? || t.Batch?)
    ensures Inv(w, StepLive(w, s, e, t))
  {
    hide Inv, StepInsertPackage, StepInsertReceived, StepEnqueueReceived, StepLoadRetained, StepCommitLookup,
      StepFindPackage, StepCheckTerminal, StepLoadPrior, StepInsertDecision, StepUpdateStatus, StepEnqueueDecision,
      StepSelectBatch, StepVerifyNext, StepHandOver, StepSend, StepAcknowledge, StepMarkPublished, End;
    match e {
      case SelectBatch(tx, ids) => if t.Draining? { SelectBatchOk(w, s, tx, t, ids); }
      case VerifyNext(tx) => if t.Batch? { VerifyNextOk(w, s, tx, t); }
      case HandOver(tx) => if t.Batch? { HandOverOk(w, s, tx, t); }
      case Send(tx) => if t.Batch? { SendOk(w, s, tx, t); }
      case Acknowledge(tx) => if t.Batch? { SendOk(w, s, tx, t); }
      case MarkPublished(tx) => if t.Batch? { VerifyNextOk(w, s, tx, t); }
      case Abort(tx) => EndOk(w, s, tx, Failed);
      case _ =>
    }
  }

  lemma CommitStepOk(w: Wiring, s: State, e: Event, t: Tx)
    requires Inv(w, s) && e.tx in s.txs && s.txs[e.tx] == t && IsCommit(e)
    ensures Inv(w, StepLive(w, s, e, t)) && Extends(s.db, StepLive(w, s, e, t).db)
  {
    hide Inv, Extends, StepCommitCreate, StepCommitDecision, StepCommitBatch;
    ExtendsReflexive(s.db);
    match e {
      case CommitCreate(tx, reported) => if t.Enqueued? { CommitCreateOk(w, s, tx, t, reported); }
      case CommitDecision(tx, reported) => if t.Announced? { CommitDecisionOk(w, s, tx, t, reported); }
      case CommitBatch(tx, reported) => if t.Batch? { CommitBatchOk(w, s, tx, t, reported); }
    }
  }

  lemma LiveStepOk(w: Wiring, s: State, e: Event, t: Tx)
    requires Inv(w, s) && e.tx in s.txs && s.txs[e.tx] == t
    ensures Inv(w, StepLive(w, s, e, t)) && Extends(s.db, StepLive(w, s, e, t).db)
  {
    hide Inv, Extends, StepLive;
    if IsCommit(e) {
      CommitStepOk(w, s, e, t);
    } else {
      ExtendsReflexive(s.db);
      UncommittedDb(w, s, e, t);
      if t.Draining? || t.Batch? {
        PublisherStepOk(w, s, e, t);
      } else if IsDecision(t) {
        DeciderStepOk(w, s, e, t);
      } else {
        CreatorStepOk(w, s, e, t);
      }
    }
  }

  predicate IsCommit(e: Event) {
    e.CommitCreate? || e.CommitDecision? || e.CommitBatch?
  }

  /** The committed tables change at commits only. */
  lemma UncommittedDb(w: Wiring, s: State, e: Event, t: Tx)
    requires e.tx in s.txs && s.txs[e.tx] == t && !IsCommit(e)
    ensures StepLive(w, s, e, t).db == s.db
  {
    hide KeyTaken, KeyClaimed, PackageIdFree, EntryIdFree, EventIdFree, IsKeyHolder, Model.Matches, HasTerminal,
      IsLatest, TerminalClaimed, RowLocked, TriggerAdmits, IsSelection, Scan, StoredPackage, ReceivedEntry,
      DecisionEntry, EventRow;
  }

  lemma StepOk(w: Wiring, s: State, e: Event)
    requires Inv(w, s)
    ensures Inv(w, Step(w, s, e)) && Extends(s.db, Step(w, s, e).db)
  {
    hide Inv, Extends, StepLive, ValidCreate, ValidValidation;
    ExtendsReflexive(s.db);
    var blank := ValidationRequest("", Validated, "", "", 0, "");
    match e
    case BeginCreate(tx, at, request) => BeginOk(w, s, tx, at, request, 0, blank);
    case BeginDecision(tx, at, package, decision) => BeginOk(w, s, tx, at, FINE_REQUEST, package, decision);
    case BeginBatch(tx, at) => BeginOk(w, s, tx, at, FINE_REQUEST, 0, blank);
    case Land(_, record) => LandOk(w, s, record);
    case _ => if e.tx in s.txs { LiveStepOk(w, s, e, s.txs[e.tx]); }
  }

  /** Immutability over whole runs: from any state in order, whatever happens next, committed packages keep
      everything but a first terminal status, history rows stay, events keep everything but being marked. */
  lemma {:induction false} RunOk(w: Wiring, s: State, es: seq<Event>)
    requires Inv(w, s)
    ensures Inv(w, Run(w, s, es)) && Extends(s.db, Run(w, s, es).db)
    decreases |es|
  {
    hide Inv, Extends, Step;
    if es == [] {
      ExtendsReflexive(s.db);
    } else {
      StepOk(w, s, es[0]);
      RunOk(w, Step(w, s, es[0]), es[1..]);
      ExtendsTransitive(s.db, Step(w, s, es[0]).db, Run(w, s, es).db);
    }
  }

  ghost predicate Reachable(w: Wiring, s: State) {
    exists es :: Run(w, EMPTY, es) == s
  }

  lemma ReachableOk(w: Wiring, s: State)
    requires Reachable(w, s)
    ensures Inv(w, s)
  {
    hide Inv;
    var es :| Run(w, EMPTY, es) == s;
    EmptyOk(w);
    RunOk(w, EMPTY, es);
  }

  /** What a call returned is never overwritten, the log is append-only, acknowledgements are never forgotten. */
  ghost predicate Remembers(s: State, s': State) {
    && (forall tx <- s.outcomes :: tx in s'.outcomes && s'.outcomes[tx] == s.outcomes[tx])
    && s.log <= s'.log && s.acked <= s'.acked && s.begun <= s'.begun
  }

  predicate OfPublisher(e: Event) {
    || e.BeginBatch? || e.SelectBatch? || e.VerifyNext? || e.HandOver? || e.Send? || e.Land? || e.Acknowledge?
    || e.MarkPublished? || e.CommitBatch?
  }

  /** Events in which the producer takes part. */
  predicate OfProducer(e: Event) {
    e.HandOver? || e.Send? || e.Land? || e.Acknowledge?
  }

  lemma ProducerRemembers(w: Wiring, s: State, e: Event)
    requires OfProducer(e) && forall tx <- s.txs :: tx !in s.outcomes
    ensures Remembers(s, Step(w, s, e))
  {
  }

  lemma PublisherRemembers(w: Wiring, s: State, e: Event)
    requires OfPublisher(e) && !OfProducer(e) && forall tx <- s.txs :: tx !in s.outcomes
    ensures Remembers(s, Step(w, s, e))
  {
    hide IsSelection, Scan, MarksCommitted;
  }

  lemma StoreRemembers(w: Wiring, s: State, e: Event)
    requires !OfPublisher(e) && forall tx <- s.txs :: tx !in s.outcomes
    ensures Remembers(s, Step(w, s, e))
  {
    hide KeyTaken, KeyClaimed, PackageIdFree, EntryIdFree, EventIdFree, IsKeyHolder, Model.Matches, HasTerminal,
      IsLatest, TerminalClaimed, RowLocked, TriggerAdmits, StoredPackage, ReceivedEntry, DecisionEntry, EventRow,
      ValidCreate, ValidValidation, CreateCommitted, DecisionCommitted;
  }

  lemma StepRemembers(w: Wiring, s: State, e: Event)
    requires forall tx <- s.txs :: tx !in s.outcomes
    ensures Remembers(s, Step(w, s, e))
  {
    hide Step, Remembers;
    if OfProducer(e) {
      ProducerRemembers(w, s, e);
    } else if OfPublisher(e) {
      PublisherRemembers(w, s, e);
    } else {
      StoreRemembers(w, s, e);
    }
  }

  lemma {:induction false} RunRemembers(w: Wiring, s: State, es: seq<Event>)
    requires Inv(w, s)
    ensures Remembers(s, Run(w, s, es))
    decreases |es|
  {
    hide Inv, Step;
    if es != [] {
      assert forall tx <- s.txs :: tx !in s.outcomes by {
        forall tx | tx in s.txs ensures tx !in s.outcomes { Facts(w, s, tx); }
      }
      StepRemembers(w, s, es[0]);
      StepOk(w, s, es[0]);
      RunRemembers(w, Step(w, s, es[0]), es[1..]);
    }
  }

  // ---------- terminal exclusivity and the status cache ----------

  function RowsOf(history: map<Id, HistoryRow>, package: Id): set<Id> {
    set id <- history | history[id].package == package
  }

  /** A package's history is one received row, or that and one terminal row whose prior status is received. */
  ghost predicate OneDecisionAtMost(history: map<Id, HistoryRow>, package: Id) {
    exists r <- history ::
      && history[r].status == Received && history[r].prior == None
      && (|| RowsOf(history, package) == {r}
          || exists t <- history ::
               t != r && RowsOf(history, package) == {r, t} && IsTerminal(history[t].status)
                 && history[t].prior == Some(Received))
  }

  /** In every reachable state, whatever snapshots the concurrent decisions read. */
  lemma TerminalExclusivity(w: Wiring, s: State, package: Id)
    requires Reachable(w, s) && package in s.db.packages
    ensures OneDecisionAtMost(s.db.history, package)
  {
    hide LogOk, HandedOk, OutcomesOk, TxsOk, RowsBegun, OutboxOk, PackagesOk, Reachable, OneDecisionAtMost;
    ReachableOk(w, s);
    ReceivedOrDecided(s.db, package);
  }

  lemma ReceivedOrDecided(db: Db, package: Id)
    requires HistoryOk(db.packages, db.history) && package in db.packages
    ensures OneDecisionAtMost(db.history, package)
  {
    hide StatusAgrees, RowsOf;
    var history := db.history;
    assert ReceivedIn(history, package);
    var r :| r in history && history[r].package == package && history[r].status == Received;
    assert EntryOk(history[r]);
    if HasTerminal(history, package) {
      var t :| t in history && history[t].package == package && IsTerminal(history[t].status);
      assert EntryOk(history[t]);
      TwoRows(history, package, r, t);
    } else {
      OnlyRow(history, package, r);
    }
  }

  lemma TwoRows(history: map<Id, HistoryRow>, package: Id, r: Id, t: Id)
    requires OneEach(history) && r in history && history[r].package == package && !IsTerminal(history[r].status)
    requires t in history && history[t].package == package && IsTerminal(history[t].status)
    ensures RowsOf(history, package) == {r, t}
  {
  }

  lemma OnlyRow(history: map<Id, HistoryRow>, package: Id, r: Id)
    requires OneEach(history) && r in history && history[r].package == package && !IsTerminal(history[r].status)
    requires !HasTerminal(history, package)
    ensures RowsOf(history, package) == {r}
  {
  }

  function NextStatus(status: Status, row: HistoryRow): Status {
    if IsTerminal(row.status) then row.status else status
  }

  /** The status derived by folding history rows. */
  function FoldStatus(rows: seq<HistoryRow>): Status {
    if rows == [] then Received else NextStatus(FoldStatus(rows[..|rows| - 1]), rows[|rows| - 1])
  }

  lemma {:induction false} FoldAgrees(rows: seq<HistoryRow>, status: Status)
    requires forall h <- rows :: IsTerminal(h.status) ==> h.status == status
    ensures FoldStatus(rows) == if exists h <- rows :: IsTerminal(h.status) then status else Received
  {
    if rows != [] {
      var front, last := rows[..|rows| - 1], rows[|rows| - 1];
      FoldAgrees(front, status);
      assert forall h <- rows :: h in front || h == last;
      assert last in rows && forall h <- front :: h in rows;
    }
  }

  /** The status column is the fold of the package's history, in whatever order its rows are listed. */
  lemma StatusIsDerived(w: Wiring, s: State, package: Id, rows: seq<HistoryRow>)
    requires Reachable(w, s) && package in s.db.packages
    requires forall h :: h in rows <==> h.id in s.db.history && s.db.history[h.id] == h && h.package == package
    ensures s.db.packages[package].status == FoldStatus(rows)
  {
    hide LogOk, HandedOk, OutcomesOk, TxsOk, RowsBegun, OutboxOk, PackagesOk, AllReceived, OneEach, EntryOk, Reachable;
    ReachableOk(w, s);
    var status, history := s.db.packages[package].status, s.db.history;
    forall h | h in rows && IsTerminal(h.status) ensures h.status == status {
      assert h.id in history;
    }
    FoldAgrees(rows, status);
    if status != Received {
      var t :| t in history && history[t].package == package && IsTerminal(history[t].status);
      assert history[t] in rows;
    }
  }

  /** The trigger is never raised against a decision, and the retained row is always found. */
  lemma NoImpossibleOutcome(w: Wiring, s: State, tx: TxId)
    requires Reachable(w, s) && tx in s.outcomes
    ensures s.outcomes[tx] != RejectedByTrigger && s.outcomes[tx] != RetainedRowMissing
  {
    hide DbOk, LogOk, HandedOk, TxsOk, RowsBegun, Distinct, Reachable;
    ReachableOk(w, s);
    assert OutcomeOk(s.db, s.outcomes[tx]);
  }

  /** At most one decision per package ever succeeds. */
  lemma OneDecisionWins(w: Wiring, s: State, a: TxId, b: TxId)
    requires Reachable(w, s) && a in s.outcomes && b in s.outcomes
    requires s.outcomes[a].Decided? && s.outcomes[b].Decided?
             && s.outcomes[a].entry.package == s.outcomes[b].entry.package
    ensures a == b
  {
    hide LogOk, HandedOk, TxsOk, RowsBegun, OutboxOk, PackagesOk, AllReceived, RowsOk, StatusAgrees, Reachable;
    ReachableOk(w, s);
    assert OutcomeOk(s.db, s.outcomes[a]) && OutcomeOk(s.db, s.outcomes[b]);
  }

  /** A status update waits for another's row lock on its package, but there never is one: whoever gets past the partial
      index finds its package's row unlocked. */
  lemma UpdateNeverWaits(w: Wiring, s: State, tx: TxId)
    requires tx in s.txs && s.txs[tx].Appended?
    ensures RowLocked(s, s.txs[tx].package) ==> Step(w, s, UpdateStatus(tx)) == s
    ensures Reachable(w, s) ==> !RowLocked(s, s.txs[tx].package) && Step(w, s, UpdateStatus(tx)) != s
  {
    hide Reachable, Inv, TxOk, TriggerAdmits;
    if Reachable(w, s) {
      ReachableOk(w, s);
      forall other | other in s.txs ensures UpdatedPackage(s.txs[other]) != Some(s.txs[tx].package) {
        HoldsItsPackage(w, s, tx);
        HoldsItsPackage(w, s, other);
        if other != tx { Facts(w, s, tx); }
      }
      HoldsItsPackage(w, s, tx);
      assert s.txs[tx].package in s.db.packages;
    }
  }

  /** A decision past its insert has staged a terminal row of its package, which is committed. */
  lemma HoldsItsPackage(w: Wiring, s: State, tx: TxId)
    requires Inv(w, s) && tx in s.txs
    ensures var t := s.txs[tx];
            t.Appended? || UpdatedPackage(t).Some? ==>
              && t.package in s.db.packages && StagedEntry(t) == Some(t.entry) && t.entry.package == t.package
              && IsTerminal(t.entry.status)
  {
    hide Inv, DbOk, Compatible, ProgressOk, HasTerminal, StoredUuid;
    Facts(w, s, tx);
  }

  // ---------- what the rows hold ----------

  /** A received row says so of its package, in the name of the service, with the package's time and correlation. */
  lemma ReceivedRowHolds(w: Wiring, s: State, h: Id)
    requires h in s.db.history && s.db.history[h].status == Received && Reachable(w, s)
    ensures var row := s.db.history[h];
            && row.id == h && row.package in s.db.packages && row.prior == None
            && row.reasonCode == "evidence_package_received" && row.actor == "system:evidence-service"
            && row.occurredAt == s.db.packages[row.package].receivedAt
            && row.correlationId == s.db.packages[row.package].correlationId
  {
    hide Reachable, PackagesOk, OutboxOk, OneEach, StatusAgrees, AllReceived;
    ReachableDb(w, s);
  }

  /** Whatever was submitted, a committed package is one that validation lets through, in stored form. */
  lemma PackageHolds(w: Wiring, s: State, id: Id)
    requires id in s.db.packages && Reachable(w, s)
    ensures var p := s.db.packages[id];
            && p.id == id && |p.contentSha256| == 64 && Hex.IsLower(p.contentSha256)
            && p.classification in ["public", "internal", "confidential", "restricted", "highly_restricted"]
            && !Blank(p.tenantId) && |Utf8(p.tenantId)| <= 128
            && !Blank(p.externalReference) && |Utf8(p.externalReference)| <= 512
            && !Blank(p.evidenceType) && |Utf8(p.evidenceType)| <= 128
            && IsUuid(p.idempotencyKey) && StoredUuid(p.idempotencyKey) == p.idempotencyKey
            && IsUuid(p.correlationId) && StoredUuid(p.correlationId) == p.correlationId
            && p.receivedAt % 1000 == 0
  {
    hide HistoryOk, OutboxOk, LogOk, HandedOk, OutcomesOk, TxsOk, Reachable, StoredUuid, Blank, Utf8, IsUuid;
    ReachableOk(w, s);
    var p := s.db.packages[id];
    assert FromSome(s.begun, p);
    var r :| r in s.begun && SameRow(StoredPackage(r, p.id, p.createdAt), p);
    assert ValidCreate(r);
    Digest.ValidSha256Exactly(r.contentSha256);
    StoredTwice(r.idempotencyKey, r.receivedAt);
    StoredTwice(r.correlationId, r.receivedAt);
    StoredIsUuid(r.idempotencyKey);
    StoredIsUuid(r.correlationId);
  }

  lemma StoredIsUuid(value: string)
    requires IsUuid(value)
    ensures IsUuid(StoredUuid(value))
  {
  }

  // ---------- idempotent creation ----------

  predicate Success(o: Outcome) {
    o.Created? || o.Retained?
  }

  predicate ForKey(o: Outcome, tenant: string, key: string) {
    Success(o) && o.request.tenantId == tenant && StoredUuid(o.request.idempotencyKey) == key
  }

  lemma SuccessRow(w: Wiring, s: State, tx: TxId, tenant: string, key: string)
    requires Inv(w, s) && tx in s.outcomes && ForKey(s.outcomes[tx], tenant, key)
    ensures var p := s.outcomes[tx].package;
            p.id in s.db.packages && SameRow(p, s.db.packages[p.id]) && SameKey(s.db.packages[p.id], tenant, key)
  {
    hide DbOk, LogOk, HandedOk, TxsOk, RowsBegun, Distinct, Model.Matches;
    assert OutcomeOk(s.db, s.outcomes[tx]);
  }

  /** Of all calls for one key, at most one reports a creation and all that succeed return the same row. */
  lemma IdempotentCreate(w: Wiring, s: State, a: TxId, b: TxId, tenant: string, key: string)
    requires Reachable(w, s) && a in s.outcomes && b in s.outcomes
    requires ForKey(s.outcomes[a], tenant, key) && ForKey(s.outcomes[b], tenant, key)
    ensures s.outcomes[a].Created? && s.outcomes[b].Created? ==> a == b
    ensures s.outcomes[a].package.id == s.outcomes[b].package.id
    ensures SameRow(s.outcomes[a].package, s.outcomes[b].package)
  {
    ReachableOk(w, s);
    SuccessRow(w, s, a, tenant, key);
    SuccessRow(w, s, b, tenant, key);
    hide HistoryOk, OutboxOk, LogOk, HandedOk, TxsOk, RowsBegun, OutcomeOk;
  }

  predicate IsReceivedRow(history: map<Id, HistoryRow>, package: Id, r: Id) {
    r in history && history[r].package == package && history[r].status == Received
  }

  predicate IsPackageEvent(outbox: map<Id, OutboxRow>, package: Id, e: Id) {
    e in outbox && outbox[e].package == package && outbox[e].eventType == PackageReceived
  }

  /** One package of the key, one received row, and with a signer one package event. */
  ghost predicate CreatedOnce(w: Wiring, db: Db, tenant: string, key: string, id: Id) {
    && id in db.packages && SameKey(db.packages[id], tenant, key)
    && (forall other <- db.packages :: SameKey(db.packages[other], tenant, key) ==> other == id)
    && (exists r :: IsReceivedRow(db.history, id, r)
          && forall other :: IsReceivedRow(db.history, id, other) ==> other == r)
    && (w.signed ==>
         exists e :: IsPackageEvent(db.outbox, id, e)
           && forall other :: IsPackageEvent(db.outbox, id, other) ==> other == e)
  }

  lemma PackageCreatedOnce(w: Wiring, db: Db, id: Id)
    requires DbOk(w, db) && id in db.packages
    ensures CreatedOnce(w, db, db.packages[id].tenantId, db.packages[id].idempotencyKey, id)
  {
    hide StatusAgrees, OutboxOk, EntryOk;
    OneReceivedRow(db, id);
    hide HistoryOk, IsPackageEvent;
    var r :| IsReceivedRow(db.history, id, r);
    if w.signed { ReceivedRowAnnounced(w, db, id, r); }
  }

  /** Whoever got a success, now or earlier, finds its key created once, under the package returned. */
  lemma SuccessMeansCreatedOnce(w: Wiring, s: State, tx: TxId)
    requires Reachable(w, s) && tx in s.outcomes && Success(s.outcomes[tx])
    ensures var o := s.outcomes[tx];
            CreatedOnce(w, s.db, o.request.tenantId, StoredUuid(o.request.idempotencyKey), o.package.id)
  {
    hide Inv, Reachable, CreatedOnce, DbOk, SameRow;
    ReachableOk(w, s);
    ReachableDb(w, s);
    var o := s.outcomes[tx];
    SuccessRow(w, s, tx, o.request.tenantId, StoredUuid(o.request.idempotencyKey));
    PackageCreatedOnce(w, s.db, o.package.id);
  }

  lemma OneReceivedRow(db: Db, id: Id)
    requires HistoryOk(db.packages, db.history) && id in db.packages
    ensures exists r ::
      IsReceivedRow(db.history, id, r) && forall other :: IsReceivedRow(db.history, id, other) ==> other == r
  {
    hide StatusAgrees, RowsOk, ReceivedRowsOk;
    assert ReceivedIn(db.history, id);
    var r :| r in db.history && db.history[r].package == id && db.history[r].status == Received;
    assert IsReceivedRow(db.history, id, r);
  }

  lemma ReceivedRowAnnounced(w: Wiring, db: Db, id: Id, r: Id)
    requires OutboxOk(w, db.packages, db.history, db.outbox) && w.signed && IsReceivedRow(db.history, id, r)
    ensures exists e ::
      IsPackageEvent(db.outbox, id, e) && forall other :: IsPackageEvent(db.outbox, id, other) ==> other == e
  {
    hide EventsOk;
    assert StatedBy(db.outbox, db.history[r]);
    var e :| e in db.outbox && States(db.outbox[e].fact, db.history[r]);
    hide States;
    ReceivedEvent(w, db, r, e);
    assert IsPackageEvent(db.outbox, id, e);
  }

  lemma ReceivedEvent(w: Wiring, db: Db, r: Id, e: Id)
    requires OutboxOk(w, db.packages, db.history, db.outbox) && r in db.history && e in db.outbox
    requires States(db.outbox[e].fact, db.history[r])
    ensures db.outbox[e].package == db.history[r].package
    ensures db.history[r].status == Received ==> db.outbox[e].eventType == PackageReceived
    ensures IsTerminal(db.history[r].status) ==> db.outbox[e].eventType == ValidationRecorded
  {
    hide EventsState, AllStated, SameRow;
    assert EventOk(w, db.outbox[e]);
  }

  /** Once a creation has committed, whatever was reported, its key has exactly one package, one received row
      and one package event, and so it stays in every later state. */
  lemma CommittedCreationStays(w: Wiring, s: State, tx: TxId, reported: bool, es: seq<Event>)
    requires Reachable(w, s) && tx in s.txs && s.txs[tx].Enqueued?
    ensures var row := s.txs[tx].row;
            CreatedOnce(w, Run(w, Step(w, s, CommitCreate(tx, reported)), es).db, row.tenantId, row.idempotencyKey,
              row.id)
  {
    ReachableOk(w, s);
    var s1 := Step(w, s, CommitCreate(tx, reported));
    var row := s.txs[tx].row;
    assert row.id in s1.db.packages && s1.db.packages[row.id] == row;
    hide Inv, CreatedOnce, Step;
    StepOk(w, s, CommitCreate(tx, reported));
    RunOk(w, s1, es);
    var s2 := Run(w, s1, es);
    assert SameRow(row, s2.db.packages[row.id]);
    hide Extends;
    assert DbOk(w, s2.db) by { Parts(w, s2); }
    PackageCreatedOnce(w, s2.db, row.id);
  }

  predicate OnlyRequest(s: State, r: CreateRequest) {
    forall q <- s.begun ::
         q.tenantId == r.tenantId && StoredUuid(q.idempotencyKey) == StoredUuid(r.idempotencyKey) ==> q == r
  }

  lemma RowIsOfOnlyRequest(w: Wiring, s: State, r: CreateRequest, id: Id)
    requires Inv(w, s) && OnlyRequest(s, r) && id in s.db.packages
    requires SameKey(s.db.packages[id], r.tenantId, StoredUuid(r.idempotencyKey))
    ensures SameRow(StoredPackage(r, id, s.db.packages[id].createdAt), s.db.packages[id])
  {
    hide HistoryOk, OutboxOk, LogOk, HandedOk, TxsOk, OutcomesOk;
    var p := s.db.packages[id];
    assert FromSome(s.begun, p);
    var q :| q in s.begun && SameRow(StoredPackage(q, p.id, p.createdAt), p);
  }

  /** When a key is only ever used with one request, a retry of it conflicts exactly if the request is not in
      stored form: in stored form no call conflicts, otherwise none is answered with the retained row. */
  lemma RetryOutcome(w: Wiring, s: State, r: CreateRequest, tx: TxId)
    requires Reachable(w, s) && OnlyRequest(s, r) && tx in s.outcomes
    ensures s.outcomes[tx] == Conflict(r) ==> !InStoredForm(r)
    ensures s.outcomes[tx].Retained? && s.outcomes[tx].request == r ==> InStoredForm(r)
  {
    ReachableOk(w, s);
    assert OutcomeOk(s.db, s.outcomes[tx]) by { hide DbOk, LogOk, HandedOk, TxsOk, RowsBegun, Distinct, OutcomeOk; }
    hide Inv, Model.Matches, InStoredForm, SameRow, StoredPackage;
    match s.outcomes[tx]
    case Conflict(q) =>
      if q == r {
        var id :| id in s.db.packages && SameKey(s.db.packages[id], r.tenantId, StoredUuid(r.idempotencyKey))
          && !Model.Matches(r, s.db.packages[id]);
        RowIsOfOnlyRequest(w, s, r, id);
        RetryMatchesExactly(r, id, s.db.packages[id].createdAt);
        MatchesIgnoresStatus(r, StoredPackage(r, id, s.db.packages[id].createdAt), s.db.packages[id]);
      }
    case Retained(q, p) =>
      if q == r {
        SuccessRow(w, s, tx, r.tenantId, StoredUuid(r.idempotencyKey));
        RowIsOfOnlyRequest(w, s, r, p.id);
        RetryMatchesExactly(r, p.id, s.db.packages[p.id].createdAt);
        MatchesIgnoresStatus(r, StoredPackage(r, p.id, s.db.packages[p.id].createdAt), s.db.packages[p.id]);
        MatchesIgnoresStatus(r, p, s.db.packages[p.id]);
      }
    case _ =>
  }

  // ---------- publication ----------

  /** At-least-once: a row marked published has been acknowledged, and an acknowledged row is in the log. */
  lemma AtLeastOnce(w: Wiring, s: State, id: Id)
    requires Reachable(w, s)
    ensures id in s.db.outbox && s.db.outbox[id].publishedAt.Some? ==> id in s.acked
    ensures id in s.acked ==> InLog(s.log, id)
  {
    hide DbOk, HandedOk, OutcomesOk, TxsOk, RowsBegun, InLog, RecordOk, Reachable;
    ReachableOk(w, s);
  }

  /** Every record in the log is that of a committed row, and its payload passed verification. */
  lemma LogIsFaithful(w: Wiring, s: State, k: nat)
    requires Reachable(w, s) && k < |s.log|
    ensures s.log[k].key in s.db.outbox && s.log[k] == RecordOf(s.db.outbox[s.log[k].key]) && w.verifies(s.log[k].value)
  {
    hide DbOk, HandedOk, OutcomesOk, TxsOk, RowsBegun, InLog, Reachable;
    ReachableOk(w, s);
    assert RecordOk(w, s.db, s.log[k]);
  }

  /** Re-delivered records are identical: equal keys, equal topic and value. */
  lemma EqualKeysEqualRecords(w: Wiring, s: State, i: nat, k: nat)
    requires Reachable(w, s) && i < |s.log| && k < |s.log| && s.log[i].key == s.log[k].key
    ensures s.log[i] == s.log[k]
  {
    LogIsFaithful(w, s, i);
    LogIsFaithful(w, s, k);
  }

  /** Live publishers hold disjoint sets of rows, all of them committed and unpublished. */
  lemma PublishersApart(w: Wiring, s: State, a: TxId, b: TxId, id: Id)
    requires Reachable(w, s) && a in s.txs && b in s.txs && Locks(s.txs[a], id) && Locks(s.txs[b], id)
    ensures a == b && id in s.db.outbox && s.db.outbox[id].publishedAt.None?
  {
    hide Inv, DbOk, Reachable, ProgressOk;
    ReachableOk(w, s);
    Facts(w, s, a);
    var i :| 0 <= i < |s.txs[a].pending| && s.txs[a].pending[i].id == id;
    var k :| 0 <= k < |s.txs[b].pending| && s.txs[b].pending[k].id == id;
    assert PendingOk(s.db, s.txs[a].pending[i]);
  }

  /** A consumer's view: the log with records of equal keys merged. */
  function Dedup(log: seq<Record>): map<Id, Record> {
    if log == [] then map[] else Dedup(log[..|log| - 1])[log[|log| - 1].key := log[|log| - 1]]
  }

  lemma {:induction false} DedupHolds(log: seq<Record>)
    ensures forall id :: id in Dedup(log) <==> InLog(log, id)
    ensures forall id <- Dedup(log) :: Dedup(log)[id] in log && Dedup(log)[id].key == id
  {
    if log != [] {
      var front, last := log[..|log| - 1], log[|log| - 1];
      DedupHolds(front);
      forall id ensures InLog(log, id) <==> InLog(front, id) || last.key == id {
        if InLog(front, id) {
          var k :| 0 <= k < |front| && front[k].key == id;
          assert log[k].key == id;
        }
        if InLog(log, id) {
          var k :| 0 <= k < |log| && log[k].key == id;
          if k < |front| { assert front[k].key == id; }
        }
      }
      assert last in log && forall r <- front :: r in log;
      hide InLog;
    }
  }

  /** The records of all committed events. */
  function AllRecords(db: Db): map<Id, Record> {
    map id <- db.outbox :: RecordOf(db.outbox[id])
  }

  /** The log, duplicates merged, never shows anything but committed events and always shows every event
      marked published; when all are marked, it shows exactly the committed events. */
  lemma LogMirrorsOutbox(w: Wiring, s: State)
    requires Reachable(w, s)
    ensures forall id <- Dedup(s.log) :: id in AllRecords(s.db) && Dedup(s.log)[id] == AllRecords(s.db)[id]
    ensures forall id <- s.db.outbox :: s.db.outbox[id].publishedAt.Some? ==> id in Dedup(s.log)
    ensures (forall id <- s.db.outbox :: s.db.outbox[id].publishedAt.Some?) ==> Dedup(s.log) == AllRecords(s.db)
  {
    hide Reachable;
    forall id { AtLeastOnce(w, s, id); }
    DedupHolds(s.log);
    hide InLog;
    forall id | id in Dedup(s.log) ensures id in s.db.outbox && Dedup(s.log)[id] == RecordOf(s.db.outbox[id]) {
      var k :| 0 <= k < |s.log| && s.log[k] == Dedup(s.log)[id];
      LogIsFaithful(w, s, k);
    }
  }

  /** The event states the history row. */
  predicate Announces(db: Db, e: Id, h: Id) {
    e in db.outbox && h in db.history && States(db.outbox[e].fact, db.history[h])
  }

  lemma RowHasEvent(w: Wiring, db: Db, h: Id)
    requires DbOk(w, db) && w.signed && h in db.history
    ensures exists e :: Announces(db, e, h)
  {
    hide PackagesOk, HistoryOk, EventsOk, EventsState;
    assert StatedBy(db.outbox, db.history[h]);
    var e :| e in db.outbox && States(db.outbox[e].fact, db.history[h]);
    assert Announces(db, e, h);
  }

  lemma EventHasRow(w: Wiring, db: Db, e: Id)
    requires DbOk(w, db) && e in db.outbox
    ensures exists h :: Announces(db, e, h)
  {
    hide PackagesOk, HistoryOk, EventsOk, AllStated;
    assert StatesSome(db.history, db.outbox[e].fact);
    var h :| h in db.history && States(db.outbox[e].fact, db.history[h]);
    assert Announces(db, e, h);
  }

  lemma StatedKind(w: Wiring, db: Db, e: Id, h: Id)
    requires DbOk(w, db) && Announces(db, e, h)
    ensures e in db.outbox && h in db.history && db.outbox[e].package == db.history[h].package
    ensures db.outbox[e].eventType == if IsTerminal(db.history[h].status) then ValidationRecorded else PackageReceived
    ensures db.outbox[e].topic == if IsTerminal(db.history[h].status) then TopicValidation else TopicPackage
  {
    hide PackagesOk, OneEach, StatusAgrees, AllReceived, EventsState, AllStated, SameRow;
    assert EventOk(w, db.outbox[e]) && EntryOk(db.history[h]);
  }

  lemma AnnouncedUniquely(w: Wiring, db: Db, e: Id, h: Id, e': Id, h': Id)
    requires DbOk(w, db) && Announces(db, e, h) && Announces(db, e', h')
    ensures e == e' <==> h == h'
  {
    hide PackagesOk, EventsOk, AllStated, RowsOk, StatusAgrees, AllReceived, States;
    StatedKind(w, db, e, h);
    StatedKind(w, db, e', h');
  }

  lemma ReachableDb(w: Wiring, s: State)
    requires Reachable(w, s)
    ensures DbOk(w, s.db)
  {
    hide Inv, Reachable;
    ReachableOk(w, s);
    Parts(w, s);
  }

  /** Received rows are announced on the package topic, decisions on the validation topic. */
  predicate AnnouncedOn(db: Db, e: Id, h: Id) {
    && e in db.outbox && h in db.history
    && db.outbox[e].topic == if IsTerminal(db.history[h].status) then TopicValidation else TopicPackage
  }

  /** With a signer every history row has exactly one event: a package event if it is a received row, a
      validation event if it is terminal. */
  lemma RowAnnouncedOnce(w: Wiring, s: State, h: Id)
    requires Reachable(w, s) && w.signed && h in s.db.history
    ensures exists e :: Announces(s.db, e, h) && forall other :: Announces(s.db, other, h) ==> other == e
    ensures forall e :: Announces(s.db, e, h) ==> AnnouncedOn(s.db, e, h)
  {
    hide Reachable, DbOk, Announces;
    ReachableDb(w, s);
    forall e | Announces(s.db, e, h) { StatedKind(w, s.db, e, h); }
    RowHasEvent(w, s.db, h);
    var e :| Announces(s.db, e, h);
    forall other | Announces(s.db, other, h) ensures other == e { AnnouncedUniquely(w, s.db, e, h, other, h); }
  }

  /** Every event states exactly one history row. */
  lemma EventGroundedOnce(w: Wiring, s: State, e: Id)
    requires Reachable(w, s) && e in s.db.outbox
    ensures exists h :: Announces(s.db, e, h) && forall other :: Announces(s.db, e, other) ==> other == h
  {
    hide Reachable, DbOk, Announces;
    ReachableDb(w, s);
    EventHasRow(w, s.db, e);
    var h :| Announces(s.db, e, h);
    forall other | Announces(s.db, e, other) ensures other == h { AnnouncedUniquely(w, s.db, e, h, e, other); }
  }

  /** End to end: when every event is marked published, the log with duplicates merged is in bijection with the
      validation history. */
  lemma PublishedHistory(w: Wiring, s: State)
    requires Reachable(w, s) && w.signed && forall id <- s.db.outbox :: s.db.outbox[id].publishedAt.Some?
    ensures forall h <- s.db.history :: exists e :: e in Dedup(s.log) && Announces(s.db, e, h)
                                                   && forall other :: Announces(s.db, other, h) ==> other == e
    ensures forall e <- Dedup(s.log) ::
      exists h :: Announces(s.db, e, h) && forall other :: Announces(s.db, e, other) ==> other == h
    ensures |Dedup(s.log)| == |s.db.history|
  {
    LogMirrorsOutbox(w, s);
    assert Dedup(s.log).Keys == s.db.outbox.Keys;
    hide Dedup;
    var db := s.db;
    forall h | h in db.history
      ensures exists e ::
        e in Dedup(s.log) && Announces(db, e, h) && forall other :: Announces(db, other, h) ==> other == e
    {
      RowAnnouncedOnce(w, s, h);
      var e :| Announces(db, e, h) && forall other :: Announces(db, other, h) ==> other == e;
      assert e in Dedup(s.log);
    }
    forall e | e in db.outbox
      ensures exists h :: Announces(db, e, h) && forall other :: Announces(db, e, other) ==> other == h
    {
      EventGroundedOnce(w, s, e);
    }
    hide Reachable, Announces;
    assert forall e, h :: Announces(db, e, h) ==> e in db.outbox && h in db.history by { AnnouncedKeys(db); }
    SameSize(db, db.outbox.Keys, db.history.Keys);
  }

  lemma AnnouncedKeys(db: Db)
    ensures forall e, h :: Announces(db, e, h) ==> e in db.outbox && h in db.history
  {
  }

  /** Sets in one-to-one correspondence have the same size. */
  lemma {:induction false} SameSize(db: Db, events: set<Id>, rows: set<Id>)
    requires forall h <- rows :: exists e <- events :: Announces(db, e, h)
    requires forall e <- events :: exists h <- rows :: Announces(db, e, h)
    requires forall e, e', h :: Announces(db, e, h) && Announces(db, e', h) ==> e == e'
    requires forall e, h, h' :: Announces(db, e, h) && Announces(db, e, h') ==> h == h'
    ensures |events| == |rows|
    decreases |rows|
  {
    hide Announces;
    if h :| h in rows {
      var e :| e in events && Announces(db, e, h);
      forall g | g in rows - {h} ensures exists d <- events - {e} :: Announces(db, d, g) {
        var d :| d in events && Announces(db, d, g);
        assert d in events - {e};
      }
      forall d | d in events - {e} ensures exists g <- rows - {h} :: Announces(db, d, g) {
        var g :| g in rows && Announces(db, d, g);
        assert g in rows - {h};
      }
      SameSize(db, events - {e}, rows - {h});
    } else if e :| e in events {
    }
  }
}
