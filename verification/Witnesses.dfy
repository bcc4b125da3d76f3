/** Runs of the service, signed and verified, that show where guarantees end: a location shared by two tenants, a
    validation event that a second publisher sends before the package's received event, a row sent twice, a record that
    lands late, and an event that is spelled otherwise than its row. */
module Witnesses {
  import opened Text
  import opened Model
  import opened Machine
  import opened Invariant
  import opened Runs
  import opened Ordering
  import opened Session
  import opened EvidenceStore
  import opened EndToEnd
  import opened Json
  import opened Signing
  import Digest
  import Publisher
  import Uuid

  // ---------- runs between two states ----------

  /** A run leads from one state to the other; if clocked, one in which time advances. */
  ghost predicate Leads(w: Wiring, s: State, s': State, clocked: bool) {
    exists es :: Run(w, s, es) == s' && (clocked ==> ClockedRun(w, s, es))
  }

  lemma {:induction false} ClockedAppend(w: Wiring, s: State, es: seq<Event>, fs: seq<Event>)
    requires ClockedRun(w, s, es) && ClockedRun(w, Run(w, s, es), fs)
    ensures ClockedRun(w, s, es + fs)
    decreases |es|
  {
    hide Step, Clocked;
    if es == [] {
      assert es + fs == fs;
    } else {
      assert (es + fs)[1..] == es[1..] + fs;
      ClockedAppend(w, Step(w, s, es[0]), es[1..], fs);
    }
  }

  lemma LeadsOnto(w: Wiring, a: State, b: State, c: State, clocked: bool)
    requires Leads(w, a, b, clocked) && Leads(w, b, c, clocked)
    ensures Leads(w, a, c, clocked)
  {
    hide Run, ClockedRun;
    var es :| Run(w, a, es) == b && (clocked ==> ClockedRun(w, a, es));
    var fs :| Run(w, b, fs) == c && (clocked ==> ClockedRun(w, b, fs));
    RunAppend(w, a, es, fs);
    if clocked { ClockedAppend(w, a, es, fs); }
    assert Run(w, a, es + fs) == c;
  }

  lemma LeadsNowhere(w: Wiring, s: State)
    ensures Leads(w, s, s, true)
  {
    assert Run(w, s, []) == s && ClockedRun(w, s, []);
  }

  lemma LeadsBy(w: Wiring, s: State, s': State, e: Event, clocked: bool)
    requires Leads(w, s, s', clocked) && (clocked ==> Clocked(s', e))
    ensures Leads(w, s, Step(w, s', e), clocked)
  {
    hide Step, Clocked;
    OneStep(w, s', e);
    assert clocked ==> ClockedRun(w, s', [e]) by {
      assert [e][1..] == [];
      assert ClockedRun(w, Step(w, s', e), []);
    }
    assert Leads(w, s', Step(w, s', e), clocked);
    LeadsOnto(w, s, s', Step(w, s', e), clocked);
  }

  lemma LeadsReachable(w: Wiring, s: State, s': State, clocked: bool)
    requires Reachable(w, s) && Leads(w, s, s', clocked)
    ensures Reachable(w, s')
  {
    hide Run, ClockedRun;
    var es :| Run(w, EMPTY, es) == s;
    var fs :| Run(w, s, fs) == s';
    RunAppend(w, EMPTY, es, fs);
  }

  lemma EmptyIsReachable(w: Wiring)
    ensures Reachable(w, EMPTY)
  {
    assert Run(w, EMPTY, []) == EMPTY;
  }

  // ---------- creations and decisions can complete ----------

  /** From any state without transactions in flight, a creation can run to its end, at a later time or at any. */
  lemma CanCreate(w: Wiring, s: State, tx: TxId, at: Time, r: CreateRequest, ids: Uuids, payload: string)
    returns (s': State)
    requires s.txs == map[] && tx !in s.outcomes && ValidCreate(r) && ids.package !in s.db.packages
    requires Fits(w, s.db, ReceivedFact(StoredPackage(r, ids.package, at)), ids, payload)
    requires !KeyTaken(s.db, r.tenantId, StoredUuid(r.idempotencyKey))
    ensures Leads(w, s, s', Later(s, at)) && s'.txs == map[] && s'.outcomes.Keys == s.outcomes.Keys + {tx}
            && s'.begun == s.begun + {r}
    ensures s'.db == Creation(w, s.db, r, at, ids, payload) && s'.log == s.log && s'.acked == s.acked
  {
    hide Step, Leads, ValidCreate, StoredPackage, KeyTaken, StoredUuid, Creation, Later;
    var row, clocked := StoredPackage(r, ids.package, at), Later(s, at);
    LeadsNowhere(w, s);
    LeadsAnyway(w, s, s, clocked);
    BeginStep(w, s, BeginCreate(tx, at, r));
    LeadsBy(w, s, s, BeginCreate(tx, at, r), clocked);
    var s1 := Step(w, s, BeginCreate(tx, at, r));
    CalmInsertPackage(w, s1, tx, Creating(at, r), ids.package);
    LeadsBy(w, s, s1, InsertPackage(tx, ids.package), clocked);
    var s2 := With(s1, tx, Inserted(at, r, row));
    s' := CanComplete(w, s2, tx, ids, payload);
    LeadsAnyway(w, s2, s', clocked);
    LeadsOnto(w, s, s2, s', clocked);
  }

  lemma CanComplete(w: Wiring, s: State, tx: TxId, ids: Uuids, payload: string) returns (s': State)
    requires s.txs.Keys == {tx} && tx !in s.outcomes && s.txs[tx].Inserted?
    requires var t := s.txs[tx]; t.row == StoredPackage(t.request, ids.package, t.now)
                                 && Fits(w, s.db, ReceivedFact(t.row), ids, payload)
    ensures Leads(w, s, s', true) && s'.txs == map[] && s'.outcomes.Keys == s.outcomes.Keys + {tx}
    ensures var t := s.txs[tx]; s'.db == Creation(w, s.db, t.request, t.now, ids, payload)
    ensures s'.log == s.log && s'.acked == s.acked && s'.begun == s.begun
  {
    hide Step, Leads, StoredPackage, Creation;
    var t := s.txs[tx];
    var entry := ReceivedEntry(t.row, ids.entry);
    LeadsNowhere(w, s);
    CalmInsertReceived(w, s, tx, t, ids.entry);
    LeadsBy(w, s, s, InsertReceived(tx, ids.entry), true);
    var s3 := With(s, tx, Recorded(t.now, t.request, t.row, entry));
    CalmEnqueueReceived(w, s3, tx, s3.txs[tx], ids.event, payload);
    LeadsBy(w, s, s3, EnqueueReceived(tx, ids.event, payload), true);
    var s4 := With(s3, tx, Enqueued(t.now, t.request, t.row, entry,
      EventOf(w, ReceivedFact(t.row), ids.event, payload, t.now)));
    CommitStep(w, s4, CommitCreate(tx, true));
    CommitCreateDb(w, s4, tx, ids, payload);
    LeadsBy(w, s, s4, CommitCreate(tx, true), true);
    return Step(w, s4, CommitCreate(tx, true));
  }

  lemma LeadsAnyway(w: Wiring, s: State, s': State, clocked: bool)
    requires Leads(w, s, s', true)
    ensures Leads(w, s, s', clocked)
  {
  }

  /** And so can a decision on a package that has none. */
  lemma CanDecide(w: Wiring, s: State, tx: TxId, at: Time, package: Id, r: ValidationRequest, ids: Uuids,
                  payload: string)
    returns (s': State)
    requires Reachable(w, s) && s.txs == map[] && tx !in s.outcomes && ValidValidation(r) && Names(w, r, package)
    requires package in s.db.packages && !HasTerminal(s.db.history, package)
    requires Fits(w, s.db, DecisionFact(package, Received, r), ids, payload)
    ensures Leads(w, s, s', Later(s, at)) && s'.txs == map[] && s'.outcomes.Keys == s.outcomes.Keys + {tx}
    ensures s'.db == Decision(w, s.db, package, r, at, ids, payload) && s'.log == s.log && s'.acked == s.acked
  {
    hide Step, Reachable, Leads, Later, ValidValidation, HasTerminal, DecisionEntry, Decision, IsLatest, Inv;
    var begin, clocked := BeginDecision(tx, at, package, r), Later(s, at);
    LeadsNowhere(w, s);
    LeadsAnyway(w, s, s, clocked);
    BeginStep(w, s, begin);
    LeadsBy(w, s, s, begin, clocked);
    var s1 := Step(w, s, begin);
    CalmFindPackage(w, s1, tx, Deciding(at, package, r));
    LeadsBy(w, s, s1, FindPackage(tx), clocked);
    var s2 := With(s1, tx, Found(at, package, r, s.db.history));
    CalmCheckTerminal(w, s2, tx, s2.txs[tx]);
    LeadsBy(w, s, s2, CheckTerminal(tx), clocked);
    var s3 := With(s2, tx, Open(at, package, r, s.db.history));
    LeadsReachable(w, s, s3, clocked);
    s' := CanSettle(w, s3, tx, ids, payload);
    LeadsAnyway(w, s3, s', clocked);
    LeadsOnto(w, s, s3, s', clocked);
  }

  lemma CanSettle(w: Wiring, s: State, tx: TxId, ids: Uuids, payload: string) returns (s': State)
    requires Reachable(w, s) && s.txs.Keys == {tx} && tx !in s.outcomes && s.txs[tx].Open?
    requires var t := s.txs[tx]; t.package in s.db.packages && !HasTerminal(s.db.history, t.package)
                                 && Fits(w, s.db, DecisionFact(t.package, Received, t.decision), ids, payload)
    ensures Leads(w, s, s', true) && s'.txs == map[] && s'.outcomes.Keys == s.outcomes.Keys + {tx}
    ensures var t := s.txs[tx]; s'.db == Decision(w, s.db, t.package, t.decision, t.now, ids, payload)
    ensures s'.log == s.log && s'.acked == s.acked
  {
    hide Step, Reachable, Leads, ValidValidation, HasTerminal, DecisionEntry, Decision, IsLatest, Inv;
    var t := s.txs[tx];
    var s3 := CanFindPrior(w, s, tx);
    CalmInsertDecision(w, s3, tx, s3.txs[tx], ids.entry);
    LeadsBy(w, s, s3, InsertDecision(tx, ids.entry), true);
    var s4 := With(s3, tx, Appended(t.now, t.package, t.decision, Received,
      DecisionEntry(t.package, Received, t.decision, ids.entry)));
    LeadsReachable(w, s, s4, true);
    ReachableOk(w, s4);
    CalmUpdateStatus(w, s4, tx, s4.txs[tx]);
    LeadsBy(w, s, s4, UpdateStatus(tx), true);
    var s5 := With(s4, tx, Updated(t.now, t.package, t.decision, Received, s4.txs[tx].entry,
      s.db.packages[t.package].(status := t.decision.status)));
    CalmEnqueueDecision(w, s5, tx, s5.txs[tx], ids.event, payload);
    LeadsBy(w, s, s5, EnqueueDecision(tx, ids.event, payload), true);
    var s6 := Step(w, s5, EnqueueDecision(tx, ids.event, payload));
    CommitStep(w, s6, CommitDecision(tx, true));
    CommitDecisionDb(w, s6, tx, ids, payload);
    LeadsBy(w, s, s6, CommitDecision(tx, true), true);
    return Step(w, s6, CommitDecision(tx, true));
  }

  lemma CanFindPrior(w: Wiring, s: State, tx: TxId) returns (s': State)
    requires Reachable(w, s) && s.txs.Keys == {tx} && s.txs[tx].Open?
    ensures Leads(w, s, s', true)
    ensures s'.txs == map[tx := Prior(s.txs[tx].now, s.txs[tx].package, s.txs[tx].decision, Received)]
    ensures s'.db == s.db && s'.log == s.log && s'.acked == s.acked && s'.outcomes == s.outcomes
  {
    hide Reachable, Leads, Inv;
    var t := s.txs[tx];
    var latest := LatestExists(t.snapshot, t.package);
    s' := Step(w, s, LoadPrior(tx, latest));
    LeadsNowhere(w, s);
    LeadsBy(w, s, s, LoadPrior(tx, latest), true);
    LeadsReachable(w, s, s', true);
    ReachableOk(w, s');
    PriorStatus(w, s', tx);
    assert s'.txs == map[tx := s'.txs[tx]];
  }

  lemma {:induction false} LatestExists(history: map<Id, HistoryRow>, package: Id) returns (latest: Option<Id>)
    ensures IsLatest(history, package, latest)
    decreases |history|
  {
    if id :| id in history {
      var rest := history - {id};
      latest := LatestExists(rest, package);
      assert forall other <- history :: other == id || (other in rest && rest[other] == history[other]);
      if history[id].package == package && (latest.None? || NotAfter(history, latest.value, id)) { latest := Some(id); }
    } else {
      latest := None;
    }
  }

  // ---------- texts of the service ----------

  /** A text the outbox may hold for a fact: the marshalled envelope itself. */
  function StoredText(v: Service, f: Fact): string {
    Render(GO, ToJson(FactEnvelope(v, f, "", "")))
  }

  lemma StoredTextFits(v: Service, batchSize: nat, f: Fact)
    ensures Wired(v, batchSize).stores(f, StoredText(v, f))
  {
    hide FactEnvelope;
    WritersAreReadable();
    ParseRender(GO, ToJson(FactEnvelope(v, f, "", "")));
    assert SameJsonValue(Render(GO, ToJson(FactEnvelope(v, f, "", ""))), StoredText(v, f));
    WiredFields(v, batchSize);
  }

  // ---------- tenants that share an object ----------

  const SHARED_REQUEST := FINE_REQUEST.(contentLocation := Digest.ObjectLocation("b", NIL_UUID))

  lemma ShareableRequests()
    ensures ValidCreate(SHARED_REQUEST) && ValidCreate(SHARED_REQUEST.(tenantId := "other"))
  {
    hide Utf8, IsUuid, Digest.ValidSha256;
    ValidRetryThatConflicts(0, 0);
    ShortText("other");
  }

  /** A first creation in the empty service. */
  lemma FirstPackage(v: Service, batchSize: nat, id: Id) returns (s: State)
    ensures Leads(Wired(v, batchSize), EMPTY, s, true) && Reachable(Wired(v, batchSize), s)
    ensures s.txs == map[] && s.outcomes.Keys == {0} && s.log == [] && s.begun == {SHARED_REQUEST} && s.acked == {}
    ensures s.db == Creation(Wired(v, batchSize), EMPTY.db, SHARED_REQUEST, 0, Uuids(id, 0, 0),
                             StoredText(v, ReceivedFact(StoredPackage(SHARED_REQUEST, id, 0))))
  {
    hide ValidCreate, StoredUuid, Reachable, Leads, Wired, Creation, StoredText;
    var fact := ReceivedFact(StoredPackage(SHARED_REQUEST, id, 0));
    ShareableRequests();
    StoredTextFits(v, batchSize, fact);
    s := CanCreate(Wired(v, batchSize), EMPTY, 0, 0, SHARED_REQUEST, Uuids(id, 0, 0), StoredText(v, fact));
    EmptyIsReachable(Wired(v, batchSize));
    LeadsReachable(Wired(v, batchSize), EMPTY, s, true);
  }

  /** Tenants can share an object: the location does not name the tenant, and one key in two tenants is two packages. */
  lemma TenantsCanShareLocation(v: Service, batchSize: nat)
    ensures exists s, a, b ::
      && Reachable(Wired(v, batchSize), s) && LocationsDerived(s.begun, "b") && a in s.db.packages && b in s.db.packages
      && a != b && s.db.packages[a].contentLocation == s.db.packages[b].contentLocation
  {
    hide ValidCreate, StoredUuid, Reachable, Leads, Wired, StoredText;
    var w, r, t := Wired(v, batchSize), SHARED_REQUEST, SHARED_REQUEST.(tenantId := "other");
    ShareableRequests();
    var s1 := FirstPackage(v, batchSize, 0);
    assert |r.tenantId| == 6 && |t.tenantId| == 5;
    assert !KeyTaken(s1.db, t.tenantId, StoredUuid(t.idempotencyKey));
    var fact := ReceivedFact(StoredPackage(t, 1, 0));
    StoredTextFits(v, batchSize, fact);
    var s2 := CanCreate(w, s1, 1, 0, t, Uuids(1, 1, 1), StoredText(v, fact));
    LeadsReachable(w, s1, s2, Later(s1, 0));
    assert s2.db.packages[0].contentLocation == s2.db.packages[1].contentLocation;
  }

  // ---------- one package and its decision, neither of them published ----------

  const A_DECISION := ValidationRequest("", Validated, "checked", "actor", 0, NIL_UUID)

  lemma DecisionIsValid(spelled: string)
    ensures ValidValidation(A_DECISION.(packageId := spelled))
  {
    hide Utf8;
    ShortText("checked");
    ShortText("actor");
  }

  ghost predicate BothWaiting(db: Db, id: Id, r: ValidationRequest) {
    && db.packages.Keys == {id} && db.packages[id].createdAt == 0
    && db.outbox.Keys == {0, 1} && db.outbox[0].createdAt == 0 && db.outbox[1].createdAt == 1
    && db.outbox[0].publishedAt.None? && db.outbox[1].publishedAt.None? && db.outbox[1].topic == TopicValidation
    && db.outbox[1].fact == DecisionFact(id, Received, r)
    && 1 in db.history && db.history[1] == DecisionEntry(id, Received, r, 1)
  }

  lemma TwoEvents(v: Service, id: Id, r: ValidationRequest) returns (s: State)
    requires ValidValidation(r) && v.parse(r.packageId) == Some(id)
    ensures Leads(Wired(v, 1), EMPTY, s, true) && Reachable(Wired(v, 1), s)
    ensures s.txs == map[] && s.outcomes.Keys == {0, 1} && s.log == [] && s.acked == {}
    ensures BothWaiting(s.db, id, r)
  {
    hide ValidCreate, ValidValidation, StoredPackage, Reachable, Leads, Wired, StoredText, Creation, Decision,
      BothWaiting, HasTerminal, StoredUuid, IsUuid, Within, Utf8, Blank;
    var w, fact := Wired(v, 1), DecisionFact(id, Received, r);
    WiredFields(v, 1);
    StoredTextFits(v, 1, fact);
    var s1 := FirstPackage(v, 1, id);
    FirstTables(w, id, StoredText(v, ReceivedFact(StoredPackage(SHARED_REQUEST, id, 0))), s1.db);
    s := CanDecide(w, s1, 1, 1, id, r, Uuids(id, 1, 1), StoredText(v, fact));
    LeadsOnto(w, EMPTY, s1, s, true);
    LeadsReachable(w, s1, s, true);
    DecidedTables(w, id, r, StoredText(v, fact), s1.db, s.db);
  }

  lemma FirstTables(w: Wiring, id: Id, payload: string, db: Db)
    requires w.signed && db == Creation(w, EMPTY.db, SHARED_REQUEST, 0, Uuids(id, 0, 0), payload)
    ensures db.packages.Keys == {id} && db.packages[id].createdAt == 0
    ensures !HasTerminal(db.history, id) && db.history.Keys == {0} && db.outbox.Keys == {0}
    ensures db.outbox[0].createdAt == 0 && db.outbox[0].publishedAt.None?
  {
    hide StoredUuid;
  }

  lemma DecidedTables(w: Wiring, id: Id, r: ValidationRequest, payload: string, db: Db, db': Db)
    requires w.signed && db.packages.Keys == {id} && db.packages[id].createdAt == 0 && db.outbox.Keys == {0}
    requires db.outbox[0].createdAt == 0 && db.outbox[0].publishedAt.None?
    requires db' == Decision(w, db, id, r, 1, Uuids(id, 1, 1), payload)
    ensures BothWaiting(db', id, r)
  {
  }

  /** The events of a decision whose caller wrote the id as PostgreSQL prints it. */
  lemma TwoPlainEvents(v: Service) returns (s: State)
    requires Legible(v)
    ensures Leads(Wired(v, 1), EMPTY, s, true) && Reachable(Wired(v, 1), s)
    ensures s.txs == map[] && s.outcomes.Keys == {0, 1} && s.log == [] && s.acked == {}
    ensures BothWaiting(s.db, 0, A_DECISION.(packageId := v.uuid(0)))
  {
    hide Reachable, Leads, Wired, ValidValidation, BothWaiting;
    DecisionIsValid(v.uuid(0));
    s := TwoEvents(v, 0, A_DECISION.(packageId := v.uuid(0)));
  }

  // ---------- publishers that overtake each other, crash and leave records behind ----------

  /** With two publishing transactions, time advancing, the order of first publication is not kept: while one holds
      the package's received event, another skips it and sends the decision. */
  lemma PublishersCanOvertake(v: Service)
    requires Sane(v) && Legible(v)
    ensures exists es :: ClockedRun(Wired(v, 1), EMPTY, es)
                         && var log := Run(Wired(v, 1), EMPTY, es).log; log != [] && log[0].topic == TopicValidation
  {
    hide Reachable, Leads, Run, ClockedRun, Step, IsSelection, Wired, Sane;
    var w := Wired(v, 1);
    var s0 := TwoPlainEvents(v);
    var s1 := BatchOf(v, s0, 2, 2, 0);
    assert s1.txs[2].pending[0].id == 0 && Locks(s1.txs[2], 0);
    var s2 := BatchOf(v, s1, 3, 3, 1);
    var s3 := SendFirst(v, s2, 3);
    assert s3.log[0].topic == TopicValidation;
    LeadsOnto(w, EMPTY, s0, s1, true);
    LeadsOnto(w, EMPTY, s1, s2, true);
    LeadsOnto(w, EMPTY, s2, s3, true);
    assert exists es :: Run(w, EMPTY, es) == s3 && ClockedRun(w, EMPTY, es) by { ByARun(w, EMPTY, s3); }
  }

  lemma ByARun(w: Wiring, s: State, s': State)
    requires Leads(w, s, s', true)
    ensures exists es :: Run(w, s, es) == s' && ClockedRun(w, s, es)
  {
  }

  /** Delivery is at least once, not exactly once: a publisher that crashes with its row sent and unmarked leaves it to
      the next one, which sends it again. */
  lemma RowsCanBeSentTwice(v: Service)
    requires Sane(v) && Legible(v)
    ensures exists s, tx, s', next ::
      && Leads(Wired(v, 1), EMPTY, s, true) && tx in s.txs && s.txs[tx].Batch? && |s.log| == 1
      && var crashed := Step(Wired(v, 1), s, Abort(tx));
      crashed.txs == map[] && crashed.log == s.log && Leads(Wired(v, 1), crashed, s', true)
      && next in s'.txs && s'.txs[next].Batch? && s'.txs[next].phase.Sent? && s'.log == s.log + s.log
  {
    hide Reachable, Leads, Step, IsSelection, Wired, Sane;
    var w := Wired(v, 1);
    var s0 := TwoPlainEvents(v);
    var s1 := BatchOf(v, s0, 2, 2, 0);
    var s2 := SendFirst(v, s1, 2);
    LeadsOnto(w, EMPTY, s0, s1, true);
    LeadsOnto(w, EMPTY, s1, s2, true);
    AbortStep(w, s2, 2);
    var crashed := Step(w, s2, Abort(2));
    LeadsBy(w, EMPTY, s2, Abort(2), true);
    TimelyIsReachable(w, crashed);
    var s3 := BatchOf(v, crashed, 3, 3, 0);
    var s4 := SendFirst(v, s3, 3);
    LeadsOnto(w, crashed, s3, s4, true);
    assert s4.log == s2.log + s2.log;
  }

  lemma TimelyIsReachable(w: Wiring, s: State)
    requires Leads(w, EMPTY, s, true)
    ensures Reachable(w, s)
  {
    hide Leads, Reachable;
    EmptyIsReachable(w);
    LeadsReachable(w, EMPTY, s, true);
  }

  /** A record that was handed over can land after its publisher has rolled back, with the log empty until then and no
      transaction in flight. */
  lemma RecordsCanLandLate(v: Service)
    requires Sane(v) && Legible(v)
    ensures exists s, tx, record ::
      && Leads(Wired(v, 1), EMPTY, s, true) && tx in s.txs && s.txs[tx].Batch? && s.log == [] && record in s.handed
      && var crashed := Step(Wired(v, 1), s, Abort(tx));
      crashed.txs == map[] && crashed.log == [] && crashed.acked == {}
      && Step(Wired(v, 1), crashed, Land(0, record)) == crashed.(log := [record])
  {
    hide Reachable, Leads, Step, IsSelection, Wired, Sane;
    var w := Wired(v, 1);
    var s0 := TwoPlainEvents(v);
    var s1 := BatchOf(v, s0, 2, 2, 0);
    var s2 := VerifyFirst(v, s1, 2);
    LeadsOnto(w, EMPTY, s0, s1, true);
    LeadsOnto(w, EMPTY, s1, s2, true);
    Publisher.HandOverStep(w, s2, 2, s2.txs[2]);
    LeadsBy(w, EMPTY, s2, HandOver(2), true);
    var s3, record := Step(w, s2, HandOver(2)), Current(s2.txs[2]);
    AbortStep(w, s3, 2);
    LandStep(w, Step(w, s3, Abort(2)), record);
    assert record in s3.handed;
  }

  lemma LandStep(w: Wiring, s: State, record: Record)
    requires record in s.handed
    ensures Step(w, s, Land(0, record)) == s.(log := s.log + [record])
  {
  }

  lemma VerifyFirst(v: Service, s: State, tx: TxId) returns (s': State)
    requires Reachable(Wired(v, 1), s) && tx in s.txs && s.txs[tx].Batch? && s.txs[tx].phase.Ready?
    requires s.txs[tx].next < |s.txs[tx].pending| && Sane(v)
    ensures Leads(Wired(v, 1), s, s', true) && s' == Keep(s, tx, s.txs[tx].(phase := Verified))
  {
    hide Reachable, Leads, Step, Wired, Inv, Sane;
    WiredIsSealed(v, 1);
    ReachableOk(Wired(v, 1), s);
    PendingVerifies(Wired(v, 1), s, tx);
    Publisher.RowSteps(Wired(v, 1), s, tx, s.txs[tx]);
    LeadsNowhere(Wired(v, 1), s);
    LeadsBy(Wired(v, 1), s, s, VerifyNext(tx), true);
    return Step(Wired(v, 1), s, VerifyNext(tx));
  }

  lemma SendFirst(v: Service, s: State, tx: TxId) returns (s': State)
    requires Reachable(Wired(v, 1), s) && tx in s.txs && s.txs[tx].Batch? && s.txs[tx].phase.Ready?
    requires s.txs[tx].next < |s.txs[tx].pending| && Sane(v)
    ensures Leads(Wired(v, 1), s, s', true)
    ensures s'.db == s.db && s'.outcomes == s.outcomes && s'.acked == s.acked
    ensures s'.log == s.log + [Current(s.txs[tx])] && s'.txs == s.txs[tx := s.txs[tx].(phase := Sent)]
  {
    hide Reachable, Leads, Step, Wired, Sane;
    var s1 := VerifyFirst(v, s, tx);
    Publisher.RowSteps(Wired(v, 1), s1, tx, s1.txs[tx]);
    LeadsBy(Wired(v, 1), s, s1, Send(tx), true);
    return Step(Wired(v, 1), s1, Send(tx));
  }

  lemma SameAvailable(s: State, s': State, tx: TxId)
    requires s'.db == s.db && tx !in s.txs && s'.txs.Keys == s.txs.Keys + {tx} && s'.txs[tx].Draining?
    requires forall other <- s.txs :: s'.txs[other] == s.txs[other]
    ensures forall id :: Available(s', id) <==> Available(s, id)
  {
    forall id ensures Available(s', id) <==> Available(s, id) {
      assert forall other <- s.txs :: Locks(s'.txs[other], id) == Locks(s.txs[other], id);
    }
  }

  /** A publisher starts, later than everything so far, and takes the oldest free row. */
  lemma BatchOf(v: Service, s: State, tx: TxId, at: Time, id: Id) returns (s': State)
    requires Reachable(Wired(v, 1), s) && Unused(s, tx) && Available(s, id) && Later(s, at)
    requires forall other <- s.db.outbox :: Available(s, other) && other != id ==>
      s.db.outbox[id].createdAt <= s.db.outbox[other].createdAt
    ensures Leads(Wired(v, 1), s, s', true) && Reachable(Wired(v, 1), s')
    ensures s'.db == s.db && s'.log == s.log && s'.outcomes == s.outcomes && s'.acked == s.acked
    ensures s'.txs == s.txs[tx := Batch(at, [Pending(id, s.db.outbox[id].topic, s.db.outbox[id].payload)], 0, Ready)]
  {
    hide Reachable, Leads, Step, Wired, Later;
    var w := Wired(v, 1);
    WiredFields(v, 1);
    LeadsNowhere(w, s);
    BeginStep(w, s, BeginBatch(tx, at));
    LeadsBy(w, s, s, BeginBatch(tx, at), true);
    var s1 := Step(w, s, BeginBatch(tx, at));
    SameAvailable(s, s1, tx);
    Publisher.SelectStep(w, s1, tx, [id]);
    LeadsBy(w, s, s1, SelectBatch(tx, [id]), true);
    assert Scan(s1.db, [id]) == [Pending(id, s.db.outbox[id].topic, s.db.outbox[id].payload)];
    s' := Step(w, s1, SelectBatch(tx, [id]));
    LeadsReachable(w, s, s', true);
  }

  // ---------- an event that spells its row otherwise ----------

  const UPPER_UUID: string := NIL_UUID[0 := 'A']

  /** The event names the row's package, but writes the package, the time and the correlation with other texts than
      those the row gives back. */
  ghost predicate SpellsOtherwise(v: Service, f: Fact, row: HistoryRow) {
    var said := Says(v, f, "evidence_package_id");
    && said.Some? && said.value != v.uuid(row.package) && v.parse(said.value) == Some(row.package)
    && Says(v, f, "occurred_at") != Some(v.instant(row.occurredAt))
    && Correlation(f) != row.correlationId
  }

  /** A decision whose caller wrote ids in upper case and a time finer than a microsecond commits, and its event keeps
      the caller's spelling of all three. */
  lemma EventsCanSpellOtherwise(v: Service)
    requires forall a, b :: v.instant(a) == v.instant(b) ==> a == b
    ensures exists s, e, h ::
      && Reachable(Wired(WithUuids(v), 1), s) && Announces(s.db, e, h) && s.db.outbox[e].fact.DecisionFact?
      && SpellsOtherwise(WithUuids(v), s.db.outbox[e].fact, s.db.history[h])
  {
    hide Reachable, Leads, Wired, Uuid.Print, Uuid.Parse, Uuid.Upper, ValidValidation, SpellsOtherwise, Legible;
    UuidsAreLegible(v);
    Uuid.UpperDiffers();
    var v' := WithUuids(v);
    var r := SpelledDecision(Uuid.Upper(Uuid.Print(10)));
    var s := TwoEvents(v', 10, r);
    assert IsTerminal(s.db.history[1].status);
    assert Announces(s.db, 1, 1);
    SpelledByCaller(v', s.db.outbox[1].fact, s.db.history[1]);
  }

  lemma SpelledDecision(spelled: string) returns (r: ValidationRequest)
    ensures ValidValidation(r) && IsTerminal(r.status)
    ensures r.packageId == spelled && r.occurredAt == 1 && r.correlationId == UPPER_UUID
  {
    DecisionIsValid(spelled);
    UpperIsUuid();
    hide IsUuid, Within;
    return A_DECISION.(packageId := spelled, occurredAt := 1, correlationId := UPPER_UUID);
  }

  lemma UpperIsUuid()
    ensures IsUuid(UPPER_UUID)
  {
  }

  lemma SpelledByCaller(v: Service, f: Fact, row: HistoryRow)
    requires Legible(v) && f.DecisionFact? && States(f, row) && v.parse(f.request.packageId) == Some(row.package)
    requires f.request.packageId != v.uuid(row.package) && f.request.occurredAt == 1
    requires f.request.correlationId == UPPER_UUID
    ensures SpellsOtherwise(v, f, row)
  {
    hide Says, Legible, States;
    DecisionSays(v, f);
    WrittenAsStored(v, f, row);
    assert f.request.correlationId[0] in f.request.correlationId;
  }
}
