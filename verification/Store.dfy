/** Store.Create and Store.RecordValidation, statement by statement, among any other sessions; and exactly what
    each leaves in the tables when nothing disturbs it. */
module EvidenceStore {
  import opened Text
  import opened Model
  import opened Machine
  import opened Invariant
  import opened Runs
  import opened Session

  datatype CreateResult = Invalid | Done(package: Package, created: bool) | Conflicting | CreateFailed
  datatype GetResult = Got(package: Package) | Missing | GetFailed
  datatype DecisionResult = InvalidDecision | DecisionRecorded(entry: HistoryRow) | Unknown | Terminal | DecisionFailed

  /** The UUIDs that gen_random_uuid() yields for the rows of one call. */
  datatype Uuids = Uuids(package: Id, entry: Id, event: Id)

  // ---------- the effect of an undisturbed call ----------

  function EventOf(w: Wiring, fact: Fact, id: Id, payload: string, at: Time): Option<OutboxRow> {
    if w.signed then Some(EventRow(fact, id, payload, at)) else None
  }

  /** A creation adds one package, one received row and, with a signer, one event. */
  function Creation(w: Wiring, db: Db, r: CreateRequest, at: Time, ids: Uuids, payload: string): Db {
    var row := StoredPackage(r, ids.package, at);
    Db(db.packages[row.id := row], db.history[ids.entry := ReceivedEntry(row, ids.entry)],
       AddEvent(db.outbox, EventOf(w, ReceivedFact(row), ids.event, payload, at)))
  }

  /** A decision changes one status and adds one terminal row and, with a signer, one event. */
  function Decision(w: Wiring, db: Db, package: Id, r: ValidationRequest, at: Time, ids: Uuids, payload: string): Db
    requires package in db.packages
  {
    Db(db.packages[package := db.packages[package].(status := r.status)],
       db.history[ids.entry := DecisionEntry(package, Received, r, ids.entry)],
       AddEvent(db.outbox, EventOf(w, DecisionFact(package, Received, r), ids.event, payload, at)))
  }

  predicate Fits(w: Wiring, db: Db, fact: Fact, ids: Uuids, payload: string) {
    ids.entry !in db.history && (w.signed ==> ids.event !in db.outbox && w.stores(fact, payload))
  }

  function With(s: State, tx: TxId, t: Tx): State {
    s.(txs := map[tx := t])
  }

  // ---------- the statements of Create ----------

  lemma AfterInsertPackage(w: Wiring, t: Tx, tx: TxId, id: Id, s: State)
    requires t.Creating? && Ran(w, t, InsertPackage(tx, id), s)
    ensures tx in s.txs && (s.txs[tx] == Missed(t.now, t.request) || s.txs[tx] == Inserted(t.now, t.request,
            StoredPackage(t.request, id, t.now)))
  {
    hide KeyTaken, KeyClaimed, PackageIdFree, StoredPackage;
  }

  lemma AfterInsertReceived(w: Wiring, t: Tx, tx: TxId, id: Id, s: State)
    requires t.Inserted? && Ran(w, t, InsertReceived(tx, id), s)
    ensures tx in s.txs && s.txs[tx] == Recorded(t.now, t.request, t.row, ReceivedEntry(t.row, id))
  {
    hide EntryIdFree;
  }

  lemma AfterEnqueueReceived(w: Wiring, t: Tx, tx: TxId, id: Id, payload: string, s: State)
    requires t.Recorded? && Ran(w, t, EnqueueReceived(tx, id, payload), s)
    ensures tx in s.txs && s.txs[tx] == Enqueued(t.now, t.request, t.row, t.entry,
            EventOf(w, ReceivedFact(t.row), id, payload, t.now))
  {
    hide EventIdFree;
  }

  lemma LoadRetainedStep(w: Wiring, s: State, tx: TxId, id: Id)
    requires tx in s.txs && s.txs[tx].Missed? && id in s.db.packages
    requires var t := s.txs[tx]; SameKey(s.db.packages[id], t.request.tenantId, StoredUuid(t.request.idempotencyKey))
    ensures var t := s.txs[tx]; var existing := s.db.packages[id];
            Step(w, s, LoadRetained(tx, Some(id))) ==
            if Model.Matches(t.request, existing) then Keep(s, tx, Matched(t.now, t.request, existing))
            else End(s, tx, Conflict(t.request))
  {
    hide Model.Matches, StoredUuid;
  }

  lemma HolderExists(w: Wiring, s: State, tx: TxId)
    requires Inv(w, s) && tx in s.txs && s.txs[tx].Missed?
    ensures KeyTaken(s.db, s.txs[tx].request.tenantId, StoredUuid(s.txs[tx].request.idempotencyKey))
  {
    hide Inv, DbOk, KeyTaken, Compatible, ProgressOk;
    Facts(w, s, tx);
  }

  lemma CalmInsertPackage(w: Wiring, s: State, tx: TxId, t: Tx, id: Id)
    requires s.txs == map[tx := t] && t.Creating?
    ensures var taken := KeyTaken(s.db, t.request.tenantId, StoredUuid(t.request.idempotencyKey));
            && (taken ==> Step(w, s, InsertPackage(tx, id)) == With(s, tx, Missed(t.now, t.request)))
            && (!taken && id !in s.db.packages ==>
                  Step(w, s, InsertPackage(tx, id)) == With(s, tx,
                    Inserted(t.now, t.request, StoredPackage(t.request, id, t.now))))
  {
    hide KeyTaken, StoredUuid;
  }

  lemma CalmInsertReceived(w: Wiring, s: State, tx: TxId, t: Tx, id: Id)
    requires s.txs == map[tx := t] && t.Inserted? && id !in s.db.history
    ensures Step(w, s, InsertReceived(tx, id)) == With(s, tx,
            Recorded(t.now, t.request, t.row, ReceivedEntry(t.row, id)))
  {
  }

  lemma CalmEnqueueReceived(w: Wiring, s: State, tx: TxId, t: Tx, id: Id, payload: string)
    requires s.txs == map[tx := t] && t.Recorded?
    requires w.signed ==> id !in s.db.outbox && w.stores(ReceivedFact(t.row), payload)
    ensures Step(w, s, EnqueueReceived(tx, id, payload))
            == With(s, tx, Enqueued(t.now, t.request, t.row, t.entry,
              EventOf(w, ReceivedFact(t.row), id, payload, t.now)))
  {
  }

  /** The SELECT by tenant and key. */
  method FindHolder(db: Db, tenant: string, key: string) returns (found: Option<Id>)
    ensures IsKeyHolder(db, tenant, key, found)
  {
    var rest := db.packages.Keys;
    while rest != {}
      invariant rest <= db.packages.Keys
      invariant forall id <- db.packages :: SameKey(db.packages[id], tenant, key) ==> id in rest
      decreases |rest|
    {
      var id :| id in rest;
      if SameKey(db.packages[id], tenant, key) { return Some(id); }
      rest := rest - {id};
    }
    return None;
  }

  // ---------- the statements of RecordValidation ----------

  predicate EndedWith(s: State, tx: TxId, o: Outcome) {
    tx !in s.txs && tx in s.outcomes && s.outcomes[tx] == o
  }

  lemma AfterFindPackage(w: Wiring, t: Tx, tx: TxId, s: State)
    requires t.Deciding? && Ran(w, t, FindPackage(tx), s)
    ensures (EndedWith(s, tx, NotFound) && t.package !in s.db.packages)
            || (tx in s.txs && s.txs[tx] == Found(t.now, t.package, t.decision, s.db.history))
  {
  }

  lemma AfterCheckTerminal(w: Wiring, t: Tx, tx: TxId, s: State)
    requires t.Found? && Ran(w, t, CheckTerminal(tx), s)
    ensures (EndedWith(s, tx, AlreadyTerminal) && HasTerminal(t.snapshot, t.package))
            || (tx in s.txs && s.txs[tx] == Open(t.now, t.package, t.decision, t.snapshot))
  {
    hide HasTerminal;
  }

  lemma LoadPriorStep(w: Wiring, s: State, tx: TxId, latest: Option<Id>)
    requires tx in s.txs && s.txs[tx].Open? && IsLatest(s.txs[tx].snapshot, s.txs[tx].package, latest)
    ensures var s' := Step(w, s, LoadPrior(tx, latest)); var t := s.txs[tx];
            && s'.txs.Keys == s.txs.Keys && s'.txs[tx].Prior?
              && s'.txs[tx] == Prior(t.now, t.package, t.decision, s'.txs[tx].prior)
            && s'.db == s.db
  {
  }

  lemma PriorStatus(w: Wiring, s: State, tx: TxId)
    requires Inv(w, s) && tx in s.txs && s.txs[tx].Prior?
    ensures s.txs[tx].prior == Received && s.txs[tx].package in s.db.packages
  {
    hide Inv, DbOk, Compatible, ProgressOk, ValidValidation;
    Facts(w, s, tx);
  }

  lemma AfterInsertDecision(w: Wiring, t: Tx, tx: TxId, id: Id, s: State)
    requires t.Prior? && Ran(w, t, InsertDecision(tx, id), s)
    ensures EndedWith(s, tx, RejectedByIndex)
            || (tx in s.txs && s.txs[tx] == Appended(t.now, t.package, t.decision, t.prior,
              DecisionEntry(t.package, t.prior, t.decision, id)))
  {
    hide HasTerminal, TerminalClaimed, EntryIdFree, DecisionEntry;
  }

  lemma AfterUpdateStatus(w: Wiring, t: Tx, tx: TxId, s: State)
    requires t.Appended? && Ran(w, t, UpdateStatus(tx), s)
    ensures EndedWith(s, tx, RejectedByTrigger)
            || (tx in s.txs && s.txs[tx].Updated?
              && s.txs[tx] == Updated(t.now, t.package, t.decision, t.prior, t.entry, s.txs[tx].row))
  {
    hide RowLocked, TriggerAdmits;
  }

  lemma AfterEnqueueDecision(w: Wiring, t: Tx, tx: TxId, id: Id, payload: string, s: State)
    requires t.Updated? && Ran(w, t, EnqueueDecision(tx, id, payload), s)
    ensures tx in s.txs && s.txs[tx] == Announced(t.now, t.package, t.decision, t.prior, t.entry, t.row,
                                                  EventOf(w, DecisionFact(t.package, t.prior, t.decision), id, payload,
                                                    t.now))
  {
    hide EventIdFree;
  }

  lemma CalmFindPackage(w: Wiring, s: State, tx: TxId, t: Tx)
    requires s.txs == map[tx := t] && t.Deciding?
    ensures Step(w, s, FindPackage(tx)) ==
            if t.package in s.db.packages then With(s, tx, Found(t.now, t.package, t.decision, s.db.history))
            else End(s, tx, NotFound)
  {
  }

  lemma CalmCheckTerminal(w: Wiring, s: State, tx: TxId, t: Tx)
    requires s.txs == map[tx := t] && t.Found?
    ensures Step(w, s, CheckTerminal(tx)) ==
            if HasTerminal(t.snapshot, t.package) then End(s, tx, AlreadyTerminal)
            else With(s, tx, Open(t.now, t.package, t.decision, t.snapshot))
  {
    hide HasTerminal;
  }

  lemma CalmInsertDecision(w: Wiring, s: State, tx: TxId, t: Tx, id: Id)
    requires s.txs == map[tx := t] && t.Prior? && id !in s.db.history && !HasTerminal(s.db.history, t.package)
    ensures Step(w, s, InsertDecision(tx, id))
            == With(s, tx, Appended(t.now, t.package, t.decision, t.prior,
              DecisionEntry(t.package, t.prior, t.decision, id)))
  {
    hide HasTerminal, DecisionEntry;
  }

  lemma CalmUpdateStatus(w: Wiring, s: State, tx: TxId, t: Tx)
    requires s.txs == map[tx := t] && t.Appended? && Inv(w, s)
    ensures t.package in s.db.packages
    ensures Step(w, s, UpdateStatus(tx))
            == With(s, tx, Updated(t.now, t.package, t.decision, t.prior, t.entry,
              s.db.packages[t.package].(status := t.decision.status)))
  {
    hide Inv, DbOk, TriggerAdmits, HasTerminal, ProgressOk, Compatible, DecisionEntry, ValidValidation;
    Facts(w, s, tx);
    WinnerPassesTrigger(w, s.db, t);
  }

  lemma CalmEnqueueDecision(w: Wiring, s: State, tx: TxId, t: Tx, id: Id, payload: string)
    requires s.txs == map[tx := t] && t.Updated?
    requires w.signed ==> id !in s.db.outbox && w.stores(DecisionFact(t.package, t.prior, t.decision), payload)
    ensures Step(w, s, EnqueueDecision(tx, id, payload))
            == With(s, tx, Announced(t.now, t.package, t.decision, t.prior, t.entry, t.row,
                                     EventOf(w, DecisionFact(t.package, t.prior, t.decision), id, payload, t.now)))
  {
  }

  lemma CommitDecisionDb(w: Wiring, s: State, tx: TxId, ids: Uuids, payload: string)
    requires tx in s.txs && s.txs[tx].Announced? && s.txs[tx].package in s.db.packages
    ensures var t := s.txs[tx];
            t.row == s.db.packages[t.package].(status := t.decision.status) && t.prior == Received
            && t.entry == DecisionEntry(t.package, Received, t.decision, ids.entry)
            && t.event == EventOf(w, DecisionFact(t.package, Received, t.decision), ids.event, payload, t.now)
            ==> Step(w, s, CommitDecision(tx, true)).db == Decision(w, s.db, t.package, t.decision, t.now, ids, payload)
  {
    hide StoredUuid;
  }

  predicate NotAfter(history: map<Id, HistoryRow>, id: Id, last: Id)
    requires id in history && last in history
  {
    history[id].occurredAt < history[last].occurredAt || (history[id].occurredAt == history[last].occurredAt
      && id <= last)
  }

  /** The SELECT of the latest history row. */
  method FindLatest(history: map<Id, HistoryRow>, package: Id) returns (latest: Option<Id>)
    ensures IsLatest(history, package, latest)
  {
    var rest := history.Keys;
    latest := None;
    while rest != {}
      invariant rest <= history.Keys
      invariant latest.Some? ==> latest.value in history && history[latest.value].package == package
      invariant forall id <- history :: id !in rest && history[id].package == package ==>
        latest.Some? && NotAfter(history, id, latest.value)
      decreases |rest|
    {
      var id :| id in rest;
      if history[id].package == package && (latest.None? || NotAfter(history, latest.value, id)) { latest := Some(id); }
      rest := rest - {id};
    }
  }

  class Store {
    const database: Database

    constructor (database: Database)
      ensures this.database == database
    {
      this.database := database;
    }

    /** Validate and Store.Create. Whatever the other sessions do, the answer is the recorded outcome, and only a
        creation or a failed call can have committed anything; undisturbed, the tables change exactly so. */
    method Create(tx: TxId, at: Time, request: CreateRequest, ids: Uuids, payload: string) returns (r: CreateResult)
      requires database.Valid() && database.Foreign(tx) && NewTo(database.trace, tx)
      modifies database
      ensures database.Valid() && old(database.trace) <= database.trace && tx !in database.state.txs
      ensures r.Invalid? <==> !ValidCreate(request)
      ensures r.Invalid? ==> database.state == old(database.state)
      ensures r.Done? ==>
        database.Ended(tx, if r.created then Created(request, r.package) else Machine.Retained(request, r.package))
      ensures r.Done? && r.created ==> r.package == StoredPackage(request, ids.package, at)
      ensures r.Done? ==>
        CreatedOnce(database.wiring, database.state.db, request.tenantId, StoredUuid(request.idempotencyKey),
                    r.package.id)
      ensures r.Conflicting? ==> database.Ended(tx, Conflict(request))
      ensures r.CreateFailed? ==> Unused(database.state, tx) || database.Ended(tx, Failed)
      ensures r.CreateFailed? || (r.Done? && r.created) || UncommittedBy(database.trace, tx)
      ensures old(database.Undisturbed({})) && ValidCreate(request) ==>
        var db, row := old(database.state.db), StoredPackage(request, ids.package, at);
        if KeyTaken(db, request.tenantId, StoredUuid(request.idempotencyKey)) then
          database.state.db == db && AnswersRetained(db, request, r)
        else
          ids.package !in db.packages && Fits(database.wiring, db, ReceivedFact(row), ids, payload)
          ==> r == Done(row, true) && database.state.db == Creation(database.wiring, db, request, at, ids, payload)
    {
      hide Step, Run, Inv, ValidCreate, StoredPackage, KeyTaken, Model.Matches, Ran, StoredUuid, Fits,
        AnswersRetained, Creation, CreatedOnce, Reachable, NewTo, UncommittedBy, Database.CalmFrom, Database.Foreign,
        Database.Reserved;
      ghost var calm := database.Undisturbed({});
      if !ValidCreate(request) {
        NewIsUnused(database.wiring, database.trace, tx);
        return Invalid;
      }
      var ok := database.Begin(BeginCreate(tx, at, request));
      if !ok {
        NewIsUnused(database.wiring, database.trace, tx);
        return CreateFailed;
      }
      if calm { CalmInsertPackage(database.wiring, database.state, tx, Creating(at, request), ids.package); }
      ok := database.Execute(InsertPackage(tx, ids.package));
      if !ok {
        database.Rollback(tx);
        return CreateFailed;
      }
      AfterInsertPackage(database.wiring, Creating(at, request), tx, ids.package, database.state);
      if database.state.txs[tx].Inserted? {
        r := CompleteCreation(tx, ids, payload);
      } else {
        r := AnswerFromRetained(tx);
      }
      database.ValidIsReachable();
      if r.Done? { SuccessMeansCreatedOnce(database.wiring, database.state, tx); }
    }

    /** After the INSERT returned a row. */
    method CompleteCreation(tx: TxId, ids: Uuids, payload: string) returns (r: CreateResult)
      requires database.Inside(tx) && database.state.txs[tx].Inserted?
      modifies database
      ensures old(database.trace) <= database.trace
      ensures var t := old(database.state.txs[tx]);
              || (r == Done(t.row, true) && database.Ended(tx, Created(t.request, t.row)))
              || (r == CreateFailed && database.Ended(tx, Failed))
      ensures var t, db := old(database.state.txs[tx]), old(database.state.db);
              old(database.Undisturbed({tx})) && t.row == StoredPackage(t.request, ids.package, t.now)
                && Fits(database.wiring, db, ReceivedFact(t.row), ids, payload)
              ==> r.Done? && database.state.db == Creation(database.wiring, db, t.request, t.now, ids, payload)
    {
      hide Step, Run, Inv, StoredPackage, ReceivedEntry, Ran, Fits, Creation, NewTo, UncommittedBy, Database.CalmFrom,
        Database.Foreign, Database.Reserved;
      ghost var s0, t := database.state, database.state.txs[tx];
      ghost var calm := database.Undisturbed({tx}) && Fits(database.wiring, s0.db, ReceivedFact(t.row), ids, payload);
      Fit(database.wiring, s0.db, ReceivedFact(t.row), ids, payload);
      if calm { CalmInsertReceived(database.wiring, s0, tx, t, ids.entry); }
      var ok := database.Execute(InsertReceived(tx, ids.entry));
      if !ok {
        database.Rollback(tx);
        return CreateFailed;
      }
      AfterInsertReceived(database.wiring, t, tx, ids.entry, database.state);
      if calm { CalmEnqueueReceived(database.wiring, database.state, tx, database.state.txs[tx], ids.event, payload); }
      ghost var t1 := database.state.txs[tx];
      ok := database.Execute(EnqueueReceived(tx, ids.event, payload));
      if !ok {
        database.Rollback(tx);
        return CreateFailed;
      }
      AfterEnqueueReceived(database.wiring, t1, tx, ids.event, payload, database.state);
      var created := database.state.txs[tx].row;
      CommitCreateDb(database.wiring, database.state, tx, ids, payload);
      ok := database.Commit(CommitCreate(tx, true));
      if !ok { return CreateFailed; }
      return Done(created, true);
    }

    /** After the INSERT returned no row: the retained row is always found. */
    method AnswerFromRetained(tx: TxId) returns (r: CreateResult)
      requires database.Inside(tx) && database.state.txs[tx].Missed?
      modifies database
      ensures old(database.trace) <= database.trace && UncommittedBy(database.trace, tx)
      ensures var request := old(database.state.txs[tx]).request;
              || (r.Done? && !r.created && database.Ended(tx, Machine.Retained(request, r.package)))
              || (r == Conflicting && database.Ended(tx, Conflict(request)))
              || (r == CreateFailed && database.Ended(tx, Failed))
      ensures old(database.Undisturbed({tx})) ==>
        database.state.db == old(database.state.db)
          && AnswersRetained(old(database.state.db), old(database.state.txs[tx]).request, r)
    {
      hide Step, Run, Inv, StoredPackage, KeyTaken, Model.Matches, StoredUuid, UncommittedBy, Database.CalmFrom,
        Database.Foreign, Database.Reserved;
      var request := database.state.txs[tx].request;
      var turn := database.Yield(tx);
      if turn.fails {
        database.Rollback(tx);
        return CreateFailed;
      }
      database.ValidIsReachable();
      HolderExists(database.wiring, database.state, tx);
      var found := FindHolder(database.state.db, request.tenantId, StoredUuid(request.idempotencyKey));
      var existing := database.state.db.packages[found.value];
      LoadRetainedStep(database.wiring, database.state, tx, found.value);
      database.Perform(LoadRetained(tx, found));
      if !Model.Matches(request, existing) { return Conflicting; }
      CommitLookupDb(database.wiring, database.state, tx);
      var ok := database.Commit(CommitLookup(tx, true));
      if !ok { return CreateFailed; }
      return Done(existing, false);
    }

    /** Store.Get: one SELECT; a text that is no UUID fails it. */
    method Get(tx: TxId, packageId: string) returns (r: GetResult)
      requires database.Valid() && database.Foreign(tx)
      modifies database
      ensures database.Valid() && old(database.trace) <= database.trace && old(database.clock) <= database.clock
      ensures old(NewTo(database.trace, tx)) ==> NewTo(database.trace, tx)
      ensures old(UncommittedBy(database.trace, tx)) ==> UncommittedBy(database.trace, tx)
      ensures Untouched(old(database.state), database.state, tx)
      ensures !r.GetFailed? ==> var id := database.wiring.parse(packageId);
        id.Some? && r == if id.value in database.state.db.packages then Got(database.state.db.packages[id.value])
                         else Missing
      ensures old(database.CalmFrom(database.clock)) ==>
        && database.CalmFrom(database.clock) && database.state == old(database.state)
        && (r.GetFailed? <==> database.wiring.parse(packageId).None?)
    {
      hide Run, Untouched, UncommittedBy, Database.CalmFrom, Database.Reserved;
      var turn := database.Yield(tx);
      var id := database.wiring.parse(packageId);
      if turn.fails || id.None? { return GetFailed; }
      if id.value !in database.state.db.packages { return Missing; }
      return Got(database.state.db.packages[id.value]);
    }

    /** Validate and Store.RecordValidation. Whatever the other sessions do, the answer is the recorded outcome, and
        only a decision or a failed call can have committed anything; undisturbed, the tables change exactly so. */
    method RecordValidation(tx: TxId, at: Time, request: ValidationRequest, ids: Uuids, payload: string)
      returns (r: DecisionResult)
      requires database.Valid() && database.Foreign(tx) && NewTo(database.trace, tx)
      modifies database
      ensures database.Valid() && old(database.trace) <= database.trace && tx !in database.state.txs
      ensures old(database.clock) <= database.clock
      ensures r.InvalidDecision? <==> !ValidValidation(request)
      ensures r.InvalidDecision? ==> database.state == old(database.state)
      ensures r.DecisionRecorded? ==> database.Ended(tx, Decided(r.entry)) && exists package ::
        Names(database.wiring, request, package) && r.entry == DecisionEntry(package, Received, request, ids.entry)
      ensures r.Unknown? ==>
        && database.Ended(tx, NotFound)
        && forall package | Names(database.wiring, request, package) :: package !in database.state.db.packages
      ensures r.Terminal? ==>
        && database.Ended(tx, AlreadyTerminal)
        && forall package | Names(database.wiring, request, package) :: HasTerminal(database.state.db.history, package)
      ensures r.DecisionFailed? ==>
        || Unused(database.state, tx) || database.Ended(tx, Failed)
        || (database.Ended(tx, RejectedByIndex) && UncommittedBy(database.trace, tx))
      ensures ValidValidation(request) && database.wiring.parse(request.packageId).None? ==>
        r == DecisionFailed && database.state == old(database.state)
      ensures r.DecisionFailed? || r.DecisionRecorded? || UncommittedBy(database.trace, tx)
      ensures forall package
        | old(database.Undisturbed({})) && ValidValidation(request) && Names(database.wiring, request, package) ::
        var db := old(database.state.db);
        && (package !in db.packages ==> r == Unknown && database.state.db == db)
        && (package in db.packages && HasTerminal(db.history, package) ==> r == Terminal && database.state.db == db)
        && (package in db.packages && !HasTerminal(db.history, package)
            && Fits(database.wiring, db, DecisionFact(package, Received, request), ids, payload)
            ==> r == DecisionRecorded(DecisionEntry(package, Received, request, ids.entry))
                && database.state.db == Decision(database.wiring, db, package, request, at, ids, payload))
    {
      hide Step, Run, Inv, ValidValidation, HasTerminal, Ran, Fits, Decision, DecisionEntry, NewTo, UncommittedBy,
        Database.CalmFrom, Database.Foreign, Database.Reserved;
      if !ValidValidation(request) {
        NewIsUnused(database.wiring, database.trace, tx);
        return InvalidDecision;
      }
      var named := database.wiring.parse(request.packageId);
      if named.None? {
        NewIsUnused(database.wiring, database.trace, tx);
        return DecisionFailed;
      }
      var package := named.value;
      ghost var calm, db := database.Undisturbed({}), database.state.db;
      var ok := database.Begin(BeginDecision(tx, at, package, request));
      if !ok {
        NewIsUnused(database.wiring, database.trace, tx);
        return DecisionFailed;
      }
      if calm { CalmFindPackage(database.wiring, database.state, tx, Deciding(at, package, request)); }
      ok := database.Execute(FindPackage(tx));
      if !ok {
        database.Rollback(tx);
        return DecisionFailed;
      }
      AfterFindPackage(database.wiring, Deciding(at, package, request), tx, database.state);
      if tx !in database.state.txs { return Unknown; }
      ghost var trace := database.trace;
      r := CheckAndDecide(tx, ids, payload);
      if r.Terminal? { TerminalStays(database.wiring, trace, database.trace, package); }
    }

    /** Past the checks: the decision recorded is exactly the one asked for, its prior status received; and losing the
        partial index ends the call without a write. */
    ghost predicate DecisionEnded(tx: TxId, t: Tx, ids: Uuids, r: DecisionResult)
      requires IsDecision(t)
      reads database
    {
      || (r == DecisionRecorded(DecisionEntry(t.package, Received, t.decision, ids.entry))
          && database.Ended(tx, Decided(r.entry)))
      || (r == DecisionFailed && database.Ended(tx, Failed))
      || (r == DecisionFailed && database.Ended(tx, RejectedByIndex) && UncommittedBy(database.trace, tx))
    }

    /** After the package was found. */
    method CheckAndDecide(tx: TxId, ids: Uuids, payload: string) returns (r: DecisionResult)
      requires database.Inside(tx) && database.state.txs[tx].Found?
      modifies database
      ensures old(database.trace) <= database.trace && old(database.clock) <= database.clock
      ensures || DecisionEnded(tx, old(database.state.txs[tx]), ids, r)
              || (r == Terminal && database.Ended(tx, AlreadyTerminal) && UncommittedBy(database.trace, tx)
                  && HasTerminal(old(database.state.txs[tx]).snapshot, old(database.state.txs[tx]).package))
      ensures var t, db := old(database.state.txs[tx]), old(database.state.db);
              old(database.Undisturbed({tx})) && t.snapshot == db.history ==>
                && (HasTerminal(db.history, t.package) ==> r == Terminal && database.state.db == db)
                && (t.package in db.packages && !HasTerminal(db.history, t.package)
                    && Fits(database.wiring, db, DecisionFact(t.package, Received, t.decision), ids, payload)
                    ==> r == DecisionRecorded(DecisionEntry(t.package, Received, t.decision, ids.entry))
                        && database.state.db == Decision(database.wiring, db, t.package, t.decision, t.now, ids,
                          payload))
    {
      hide Step, Run, Inv, HasTerminal, Ran, Fits, Decision, DecisionEntry, UncommittedBy, Database.CalmFrom,
        Database.Foreign, Database.Reserved;
      ghost var t := database.state.txs[tx];
      if database.Undisturbed({tx}) { CalmCheckTerminal(database.wiring, database.state, tx, t); }
      var ok := database.Execute(CheckTerminal(tx));
      if !ok {
        database.Rollback(tx);
        return DecisionFailed;
      }
      AfterCheckTerminal(database.wiring, t, tx, database.state);
      if tx !in database.state.txs { return Terminal; }
      r := Decide(tx, ids, payload);
    }

    /** After the checks passed: the prior status, the history row, the status, the event. */
    method Decide(tx: TxId, ids: Uuids, payload: string) returns (r: DecisionResult)
      requires database.Inside(tx) && database.state.txs[tx].Open?
      modifies database
      ensures old(database.trace) <= database.trace && old(database.clock) <= database.clock
      ensures DecisionEnded(tx, old(database.state.txs[tx]), ids, r)
      ensures var t, db := old(database.state.txs[tx]), old(database.state.db);
              old(database.Undisturbed({tx})) && t.package in db.packages && !HasTerminal(db.history, t.package)
              && Fits(database.wiring, db, DecisionFact(t.package, Received, t.decision), ids, payload)
              ==> r == DecisionRecorded(DecisionEntry(t.package, Received, t.decision, ids.entry))
                  && database.state.db == Decision(database.wiring, db, t.package, t.decision, t.now, ids, payload)
    {
      hide Step, Run, Inv, HasTerminal, Ran, Fits, Decision, DecisionEntry, NewTo, UncommittedBy, Database.CalmFrom,
        Database.Foreign, Database.Reserved;
      var ok := FindPrior(tx);
      if !ok { return DecisionFailed; }
      r := Append(tx, ids, payload);
    }

    /** INSERT of the history row, under the partial index. */
    method Append(tx: TxId, ids: Uuids, payload: string) returns (r: DecisionResult)
      requires database.Inside(tx) && database.state.txs[tx].Prior? && database.state.txs[tx].prior == Received
      modifies database
      ensures old(database.trace) <= database.trace && old(database.clock) <= database.clock
      ensures DecisionEnded(tx, old(database.state.txs[tx]), ids, r)
      ensures var t, db := old(database.state.txs[tx]), old(database.state.db);
              old(database.Undisturbed({tx})) && t.package in db.packages && !HasTerminal(db.history, t.package)
              && Fits(database.wiring, db, DecisionFact(t.package, Received, t.decision), ids, payload)
              ==> r == DecisionRecorded(DecisionEntry(t.package, Received, t.decision, ids.entry))
                  && database.state.db == Decision(database.wiring, db, t.package, t.decision, t.now, ids, payload)
    {
      hide Step, Run, Inv, HasTerminal, Ran, Fits, Decision, DecisionEntry, NewTo, UncommittedBy, Database.CalmFrom,
        Database.Foreign, Database.Reserved;
      ghost var s0, t := database.state, database.state.txs[tx];
      if database.Undisturbed({tx}) && !HasTerminal(s0.db.history, t.package) {
        Fit(database.wiring, s0.db, DecisionFact(t.package, Received, t.decision), ids, payload);
        if ids.entry !in s0.db.history { CalmInsertDecision(database.wiring, s0, tx, t, ids.entry); }
      }
      var ok := database.Execute(InsertDecision(tx, ids.entry));
      if !ok {
        database.Rollback(tx);
        return DecisionFailed;
      }
      AfterInsertDecision(database.wiring, t, tx, ids.entry, database.state);
      if tx !in database.state.txs { return DecisionFailed; }
      r := SettleDecision(tx, ids, payload);
    }

    /** The prior status, always received: the snapshot of a decision that passed the checks has no terminal row. */
    method FindPrior(tx: TxId) returns (ok: bool)
      requires database.Inside(tx) && database.state.txs[tx].Open?
      modifies database
      ensures old(database.trace) <= database.trace && old(database.clock) <= database.clock
      ensures var t := old(database.state.txs[tx]);
              if ok then database.Inside(tx) && database.state.txs[tx] == Prior(t.now, t.package, t.decision, Received)
              else database.Ended(tx, Failed)
      ensures old(database.Undisturbed({tx})) ==>
        ok && database.Undisturbed({tx}) && database.state.db == old(database.state.db)
    {
      hide Step, Run, Inv, IsLatest, UncommittedBy, Database.CalmFrom, Database.Foreign, Database.Reserved;
      var turn := database.Yield(tx);
      if turn.fails {
        database.Rollback(tx);
        return false;
      }
      var latest := FindLatest(database.state.txs[tx].snapshot, database.state.txs[tx].package);
      LoadPriorStep(database.wiring, database.state, tx, latest);
      database.Perform(LoadPrior(tx, latest));
      database.ValidIsReachable();
      PriorStatus(database.wiring, database.state, tx);
      return true;
    }

    /** The status update: the trigger always admits it. */
    method PersistStatus(tx: TxId) returns (ok: bool)
      requires database.Inside(tx) && database.state.txs[tx].Appended?
      modifies database
      ensures old(database.trace) <= database.trace && old(database.clock) <= database.clock
      ensures var t := old(database.state.txs[tx]);
              if ok then database.Inside(tx) && database.state.txs[tx].Updated?
                && database.state.txs[tx] == Updated(t.now, t.package, t.decision, t.prior, t.entry,
                  database.state.txs[tx].row)
              else database.Ended(tx, Failed)
      ensures var t, db := old(database.state.txs[tx]), database.state.db;
              old(database.Undisturbed({tx})) ==>
                && ok && database.Undisturbed({tx}) && db == old(database.state.db)
                && t.package in db.packages
                && database.state.txs[tx].row == db.packages[t.package].(status := t.decision.status)
    {
      hide Step, Run, Inv, Ran, UncommittedBy, Database.CalmFrom, Database.Foreign, Database.Reserved, Reachable;
      ghost var t := database.state.txs[tx];
      database.ValidIsReachable();
      if database.Undisturbed({tx}) { CalmUpdateStatus(database.wiring, database.state, tx, t); }
      ok := database.Execute(UpdateStatus(tx));
      if !ok {
        database.Rollback(tx);
        return false;
      }
      AfterUpdateStatus(database.wiring, t, tx, database.state);
      database.ValidIsReachable();
      if tx in database.state.outcomes { NoImpossibleOutcome(database.wiring, database.state, tx); }
      return true;
    }

    /** After the history row: the status update, the event and the commit. */
    method SettleDecision(tx: TxId, ids: Uuids, payload: string) returns (r: DecisionResult)
      requires database.Inside(tx) && database.state.txs[tx].Appended? && database.state.txs[tx].prior == Received
      modifies database
      ensures old(database.trace) <= database.trace && old(database.clock) <= database.clock
      ensures var t := old(database.state.txs[tx]);
              (r == DecisionRecorded(t.entry) && database.Ended(tx, Decided(t.entry))) || (r == DecisionFailed
                && database.Ended(tx, Failed))
      ensures var t, db := old(database.state.txs[tx]), old(database.state.db);
              old(database.Undisturbed({tx})) && t.entry == DecisionEntry(t.package, Received, t.decision, ids.entry)
              && Fits(database.wiring, db, DecisionFact(t.package, Received, t.decision), ids, payload)
              ==> r.DecisionRecorded? && t.package in db.packages
                  && database.state.db == Decision(database.wiring, db, t.package, t.decision, t.now, ids, payload)
    {
      hide Step, Run, Inv, Ran, Fits, Decision, DecisionEntry, UncommittedBy, Database.CalmFrom, Database.Foreign,
        Database.Reserved;
      ghost var s0, t := database.state, database.state.txs[tx];
      ghost var calm :=
        && database.Undisturbed({tx})
        && Fits(database.wiring, s0.db, DecisionFact(t.package, Received, t.decision), ids, payload);
      Fit(database.wiring, s0.db, DecisionFact(t.package, Received, t.decision), ids, payload);
      var ok := PersistStatus(tx);
      if !ok { return DecisionFailed; }
      ghost var t1 := database.state.txs[tx];
      if calm { CalmEnqueueDecision(database.wiring, database.state, tx, t1, ids.event, payload); }
      ok := database.Execute(EnqueueDecision(tx, ids.event, payload));
      if !ok {
        database.Rollback(tx);
        return DecisionFailed;
      }
      AfterEnqueueDecision(database.wiring, t1, tx, ids.event, payload, database.state);
      var entry := database.state.txs[tx].entry;
      if calm { CommitDecisionDb(database.wiring, database.state, tx, ids, payload); }
      ok := database.Commit(CommitDecision(tx, true));
      if !ok { return DecisionFailed; }
      return DecisionRecorded(entry);
    }
  }

  lemma TerminalStays(w: Wiring, es: seq<Event>, fs: seq<Event>, package: Id)
    requires es <= fs && HasTerminal(Run(w, EMPTY, es).db.history, package)
    ensures HasTerminal(Run(w, EMPTY, fs).db.history, package)
  {
    hide Run;
    TraceExtends(w, es, fs);
  }

  /** The answer for a key that a row holds already. */
  ghost predicate AnswersRetained(db: Db, request: CreateRequest, r: CreateResult) {
    exists id <- db.packages :: SameKey(db.packages[id], request.tenantId, StoredUuid(request.idempotencyKey))
      && r == if Model.Matches(request, db.packages[id]) then Done(db.packages[id], false) else Conflicting
  }

  lemma Fit(w: Wiring, db: Db, fact: Fact, ids: Uuids, payload: string)
    ensures Fits(w, db, fact, ids, payload) ==> ids.entry !in db.history
    ensures Fits(w, db, fact, ids, payload) && w.signed ==> ids.event !in db.outbox && w.stores(fact, payload)
  {
  }

  lemma CommitCreateDb(w: Wiring, s: State, tx: TxId, ids: Uuids, payload: string)
    requires tx in s.txs && s.txs[tx].Enqueued?
    ensures var t := s.txs[tx];
            t.row == StoredPackage(t.request, ids.package, t.now) && t.entry == ReceivedEntry(t.row, ids.entry)
            && t.event == EventOf(w, ReceivedFact(t.row), ids.event, payload, t.now)
            ==> Step(w, s, CommitCreate(tx, true)).db == Creation(w, s.db, t.request, t.now, ids, payload)
  {
    hide StoredUuid;
  }

  lemma CommitLookupDb(w: Wiring, s: State, tx: TxId)
    requires tx in s.txs && s.txs[tx].Matched?
    ensures Step(w, s, CommitLookup(tx, true)).db == s.db
  {
  }
}
