/** First publication order: with one publishing transaction at a time, a strictly increasing transaction clock, and
    decisions begun only on packages already visible (as the API does), a package's received event enters the log
    before any copy of its validation event. */
module Ordering {
  import opened Text
  import opened Model
  import opened Machine
  import opened Invariant
  import opened Runs

  // ---------- the discipline of a run ----------

  predicate Publishing(t: Tx) {
    t.Draining? || t.Batch?
  }

  /** The clock has passed every transaction and event so far. */
  predicate Later(s: State, at: Time) {
    && (forall tx <- s.txs :: s.txs[tx].now < at)
    && (forall id <- s.db.packages :: s.db.packages[id].createdAt < at)
  }

  /** Transactions begin at an advancing time, and decisions on visible packages, as the API begins them. */
  predicate Clocked(s: State, e: Event) {
    match e
    case BeginCreate(_, at, _) => Later(s, at)
    case BeginDecision(_, at, package, _) => Later(s, at) && package in s.db.packages
    case BeginBatch(_, at) => Later(s, at)
    case _ => true
  }

  /** And a batch begins only when no publishing transaction is in flight. One publisher process is not enough: the
      session of a crashed one keeps its row locks until PostgreSQL ends it, and a restarted one skips those rows. */
  predicate Disciplined(s: State, e: Event) {
    Clocked(s, e) && (e.BeginBatch? ==> forall tx <- s.txs :: !Publishing(s.txs[tx]))
  }

  predicate ClockedRun(w: Wiring, s: State, es: seq<Event>)
    decreases |es|
  {
    es == [] || (Clocked(s, es[0]) && ClockedRun(w, Step(w, s, es[0]), es[1..]))
  }

  predicate DisciplinedRun(w: Wiring, s: State, es: seq<Event>)
    decreases |es|
  {
    es == [] || (Disciplined(s, es[0]) && DisciplinedRun(w, Step(w, s, es[0]), es[1..]))
  }

  // ---------- the invariant of disciplined runs ----------

  predicate IsReceivedEventOf(outbox: map<Id, OutboxRow>, package: Id, id: Id) {
    id in outbox && outbox[id].package == package && outbox[id].fact.ReceivedFact?
  }

  predicate IsDecisionEvent(outbox: map<Id, OutboxRow>, id: Id) {
    id in outbox && outbox[id].fact.DecisionFact?
  }

  /** Received events carry their package's creation time, decision events a later one. */
  predicate TimesOk(db: Db) {
    forall id <- db.outbox :: db.outbox[id].package in db.packages &&
      (if db.outbox[id].fact.ReceivedFact? then db.outbox[id].createdAt == db.packages[db.outbox[id].package].createdAt
       else db.packages[db.outbox[id].package].createdAt < db.outbox[id].createdAt)
  }

  predicate DecisionTimeOk(db: Db, t: Tx) {
    IsDecision(t) ==> t.package in db.packages && db.packages[t.package].createdAt < t.now
  }

  predicate HasBefore(pending: seq<Pending>, n: nat, id: Id)
    requires n <= |pending|
  {
    exists i :: 0 <= i < n && pending[i].id == id
  }

  /** In a batch, a decision's package event is published already or comes earlier in the batch. */
  predicate BatchOrdered(outbox: map<Id, OutboxRow>, pending: seq<Pending>) {
    forall k, id | 0 <= k < |pending| && IsDecisionEvent(outbox, pending[k].id) && id in outbox
                   && IsReceivedEventOf(outbox, outbox[pending[k].id].package, id) ::
      outbox[id].publishedAt.Some? || HasBefore(pending, k, id)
  }

  predicate LogHasBefore(log: seq<Record>, n: nat, id: Id)
    requires n <= |log|
  {
    exists i :: 0 <= i < n && log[i].key == id
  }

  predicate LogOrdered(outbox: map<Id, OutboxRow>, log: seq<Record>) {
    forall k, id | 0 <= k < |log| && IsDecisionEvent(outbox, log[k].key) && id in outbox
                   && IsReceivedEventOf(outbox, outbox[log[k].key].package, id) ::
      LogHasBefore(log, k, id)
  }

  predicate TxOrdered(db: Db, t: Tx) {
    DecisionTimeOk(db, t) && (t.Batch? ==> BatchOrdered(db.outbox, t.pending))
  }

  /** A decision that the producer was ever given has its package's event in the log: landing late changes nothing. */
  predicate HandedOrdered(outbox: map<Id, OutboxRow>, log: seq<Record>, handed: set<Record>) {
    forall r <- handed, id <- outbox
      | IsDecisionEvent(outbox, r.key) && IsReceivedEventOf(outbox, outbox[r.key].package, id) :: InLog(log, id)
  }

  predicate OrderInv(s: State) {
    && TimesOk(s.db)
    && LogOrdered(s.db.outbox, s.log)
    && HandedOrdered(s.db.outbox, s.log, s.handed)
    && (forall tx <- s.txs :: TxOrdered(s.db, s.txs[tx]))
    && (forall a <- s.txs, b <- s.txs :: Publishing(s.txs[a]) && Publishing(s.txs[b]) ==> a == b)
  }

  // ---------- events that change one transaction only ----------

  lemma KeepOrdered(s: State, tx: TxId, t: Tx)
    requires OrderInv(s) && TxOrdered(s.db, t)
    requires Publishing(t) ==>
      (tx in s.txs && Publishing(s.txs[tx])) || forall other <- s.txs :: !Publishing(s.txs[other])
    ensures OrderInv(Keep(s, tx, t))
  {
    hide TimesOk, LogOrdered, HandedOrdered, TxOrdered;
  }

  lemma EndOrdered(s: State, tx: TxId, o: Outcome)
    requires OrderInv(s) && tx in s.txs
    ensures OrderInv(End(s, tx, o))
  {
    hide TimesOk, LogOrdered, HandedOrdered, TxOrdered, Publishing;
  }

  /** The selection takes a decision's package event along, before it, unless that is published already. */
  lemma SelectionOrdered(w: Wiring, s: State, tx: TxId, ids: seq<Id>)
    requires OrderInv(s) && tx in s.txs && s.txs[tx].Draining? && IsSelection(s, ids, w.batchSize)
    ensures BatchOrdered(s.db.outbox, Scan(s.db, ids))
  {
    var outbox, pending := s.db.outbox, Scan(s.db, ids);
    forall k, id | 0 <= k < |pending| && IsDecisionEvent(outbox, pending[k].id) && id in outbox
                   && IsReceivedEventOf(outbox, outbox[pending[k].id].package, id)
      ensures outbox[id].publishedAt.Some? || HasBefore(pending, k, id)
    {
      EarlierEvent(s, ids[k], id);
      if outbox[id].publishedAt.None? {
        assert Available(s, id) by {
          forall other | other in s.txs ensures !Locks(s.txs[other], id) {
            assert other != tx ==> !Publishing(s.txs[other]);
          }
        }
        SelectedBefore(s, ids, w.batchSize, k, id);
        var i :| 0 <= i < k && ids[i] == id;
        assert pending[i].id == id;
      }
    }
  }

  lemma EarlierEvent(s: State, decision: Id, received: Id)
    requires TimesOk(s.db) && IsDecisionEvent(s.db.outbox, decision)
    requires IsReceivedEventOf(s.db.outbox, s.db.outbox[decision].package, received)
    ensures s.db.outbox[received].createdAt < s.db.outbox[decision].createdAt
  {
  }

  /** An available row older than a selected one is selected before it. */
  lemma SelectedBefore(s: State, ids: seq<Id>, limit: nat, k: nat, id: Id)
    requires IsSelection(s, ids, limit) && k < |ids| && Available(s, id) && ids[k] in s.db.outbox
    requires s.db.outbox[id].createdAt < s.db.outbox[ids[k]].createdAt
    ensures exists i :: 0 <= i < k && ids[i] == id
  {
    assert ids[k] in ids;
    assert id in ids;
    var i :| 0 <= i < |ids| && ids[i] == id;
    if i > k { assert false; }
  }

  // ---------- the log ----------

  /** What may be appended to an ordered log: a decision's record once its package event is there. */
  predicate MayFollow(outbox: map<Id, OutboxRow>, log: seq<Record>, r: Record) {
    forall id <- outbox | IsDecisionEvent(outbox, r.key) && IsReceivedEventOf(outbox, outbox[r.key].package, id) ::
      InLog(log, id)
  }

  lemma AppendOrdered(outbox: map<Id, OutboxRow>, log: seq<Record>, r: Record)
    requires LogOrdered(outbox, log) && MayFollow(outbox, log, r)
    ensures LogOrdered(outbox, log + [r])
  {
    var log' := log + [r];
    forall k, id | 0 <= k < |log'| && IsDecisionEvent(outbox, log'[k].key) && id in outbox
                   && IsReceivedEventOf(outbox, outbox[log'[k].key].package, id)
      ensures LogHasBefore(log', k, id)
    {
      if k < |log| {
        assert log[k] == log'[k];
        var i :| 0 <= i < k && log[i].key == id;
        assert log'[i].key == id;
      } else {
        assert InLog(log, id);
        var i :| 0 <= i < |log| && log[i].key == id;
        assert log'[i].key == id;
      }
    }
  }

  lemma LogAppended(s: State, r: Record)
    requires OrderInv(s) && MayFollow(s.db.outbox, s.log, r)
    ensures OrderInv(s.(log := s.log + [r]))
  {
    hide TimesOk, LogOrdered, TxOrdered, Publishing, InLog, MayFollow;
    assert LogOrdered(s.db.outbox, s.log + [r]) by { AppendOrdered(s.db.outbox, s.log, r); }
    forall id | InLog(s.log, id) ensures InLog(s.log + [r], id) { StillInLog(s.log, r, id); }
  }

  lemma StillInLog(log: seq<Record>, r: Record, id: Id)
    requires InLog(log, id)
    ensures InLog(log + [r], id)
  {
    var k :| 0 <= k < |log| && log[k].key == id;
    assert (log + [r])[k].key == id;
  }

  lemma HandedAdded(s: State, r: Record)
    requires OrderInv(s) && MayFollow(s.db.outbox, s.log, r)
    ensures OrderInv(s.(handed := s.handed + {r}))
  {
    hide TimesOk, LogOrdered, TxOrdered, Publishing, InLog;
  }

  lemma LandOrdered(s: State, record: Record)
    requires OrderInv(s)
    ensures OrderInv(StepLand(s, record))
  {
    if record in s.handed {
      assert MayFollow(s.db.outbox, s.log, record) by { hide TimesOk, LogOrdered, TxOrdered, InLog; }
      LogAppended(s, record);
    }
  }

  /** The row a publisher verified may be sent: its package event, if it is a decision, is in the log already. */
  lemma CurrentMayFollow(w: Wiring, s: State, tx: TxId, t: Tx)
    requires Inv(w, s) && OrderInv(s) && tx in s.txs && s.txs[tx] == t && t.Batch?
    requires t.next < |t.pending|
    ensures MayFollow(s.db.outbox, s.log, Current(t))
  {
    hide Inv, OrderInv, InLog;
    forall id | id in s.db.outbox && IsDecisionEvent(s.db.outbox, Current(t).key)
                && IsReceivedEventOf(s.db.outbox, s.db.outbox[Current(t).key].package, id)
      ensures InLog(s.log, id)
    {
      AckedBefore(w, s, tx, t, id);
    }
  }

  lemma AckedBefore(w: Wiring, s: State, tx: TxId, t: Tx, id: Id)
    requires Inv(w, s) && OrderInv(s) && tx in s.txs && s.txs[tx] == t && t.Batch? && t.next < |t.pending|
    requires IsDecisionEvent(s.db.outbox, t.pending[t.next].id)
    requires IsReceivedEventOf(s.db.outbox, s.db.outbox[t.pending[t.next].id].package, id)
    ensures InLog(s.log, id)
  {
    hide DbOk, RowsBegun, OutcomesOk, Compatible, TxOk, InLog, RecordOk;
    assert TxOrdered(s.db, t) && OneOk(w, s, t);
    if s.db.outbox[id].publishedAt.None? {
      var i :| 0 <= i < t.next && t.pending[i].id == id;
    }
    assert id in s.acked;
  }

  // ---------- commits ----------

  /** What commits do to the outbox, as far as order is concerned. */
  predicate Grown(packages: map<Id, Package>, outbox: map<Id, OutboxRow>, outbox': map<Id, OutboxRow>) {
    && (forall id <- outbox :: id in outbox'
          && outbox'[id].package == outbox[id].package && outbox'[id].fact == outbox[id].fact
          && (outbox[id].publishedAt.Some? ==> outbox'[id].publishedAt.Some?))
    && (forall id <- outbox :: outbox[id].package in packages)
    && (forall id <- outbox' :: id !in outbox ==> outbox'[id].fact.DecisionFact? || outbox'[id].package !in packages)
  }

  lemma LogStaysOrdered(packages: map<Id, Package>, outbox: map<Id, OutboxRow>, outbox': map<Id, OutboxRow>,
                        log: seq<Record>)
    requires Grown(packages, outbox, outbox') && LogOrdered(outbox, log)
    requires forall k | 0 <= k < |log| :: log[k].key in outbox
    ensures LogOrdered(outbox', log)
  {
    hide LogHasBefore;
  }

  lemma HandedStaysOrdered(packages: map<Id, Package>, outbox: map<Id, OutboxRow>, outbox': map<Id, OutboxRow>,
                           log: seq<Record>, handed: set<Record>)
    requires Grown(packages, outbox, outbox') && HandedOrdered(outbox, log, handed)
    requires forall r <- handed :: r.key in outbox
    ensures HandedOrdered(outbox', log, handed)
  {
    hide InLog;
  }

  lemma BatchStaysOrdered(packages: map<Id, Package>, outbox: map<Id, OutboxRow>, outbox': map<Id, OutboxRow>,
                          pending: seq<Pending>)
    requires Grown(packages, outbox, outbox') && BatchOrdered(outbox, pending)
    requires forall k | 0 <= k < |pending| :: pending[k].id in outbox
    ensures BatchOrdered(outbox', pending)
  {
    hide HasBefore;
  }

  lemma CommitOrdered(w: Wiring, s: State, tx: TxId, db': Db, o: Outcome)
    requires Grown(s.db.packages, s.db.outbox, db'.outbox) && TimesOk(db')
    requires forall id <- s.db.packages ::
      id in db'.packages && db'.packages[id].createdAt == s.db.packages[id].createdAt
    requires Inv(w, s) && OrderInv(s) && tx in s.txs
    ensures OrderInv(End(s, tx, o).(db := db'))
  {
    hide Inv, Grown, TimesOk, LogOrdered, BatchOrdered, Publishing;
    LogKeys(w, s);
    LogStaysOrdered(s.db.packages, s.db.outbox, db'.outbox, s.log);
    HandedKeys(w, s);
    HandedStaysOrdered(s.db.packages, s.db.outbox, db'.outbox, s.log, s.handed);
    forall other | other in s.txs ensures TxOrdered(db', s.txs[other]) {
      var u := s.txs[other];
      assert TxOrdered(s.db, u);
      if u.Batch? {
        PendingKeys(w, s, other);
        BatchStaysOrdered(s.db.packages, s.db.outbox, db'.outbox, u.pending);
      }
    }
    hide TxOrdered;
  }

  lemma LogKeys(w: Wiring, s: State)
    requires Inv(w, s)
    ensures forall k | 0 <= k < |s.log| :: s.log[k].key in s.db.outbox
  {
    hide DbOk, RowsBegun, OutcomesOk, TxsOk, InLog;
    forall k | 0 <= k < |s.log| ensures s.log[k].key in s.db.outbox { assert RecordOk(w, s.db, s.log[k]); }
  }

  lemma HandedKeys(w: Wiring, s: State)
    requires Inv(w, s)
    ensures forall r <- s.handed :: r.key in s.db.outbox
  {
    hide DbOk, RowsBegun, OutcomesOk, TxsOk, LogOk;
  }

  lemma PendingKeys(w: Wiring, s: State, tx: TxId)
    requires Inv(w, s) && tx in s.txs && s.txs[tx].Batch?
    ensures forall k | 0 <= k < |s.txs[tx].pending| :: s.txs[tx].pending[k].id in s.db.outbox
  {
    hide Inv, DbOk, ProgressOk, Compatible;
    Facts(w, s, tx);
    forall k | 0 <= k < |s.txs[tx].pending| ensures s.txs[tx].pending[k].id in s.db.outbox {
      assert PendingOk(s.db, s.txs[tx].pending[k]);
    }
  }

  lemma CommitCreateOrdered(w: Wiring, s: State, tx: TxId, t: Tx, reported: bool)
    requires Inv(w, s) && OrderInv(s) && tx in s.txs && s.txs[tx] == t && t.Enqueued?
    ensures OrderInv(StepCommitCreate(s, tx, t, reported))
  {
    hide Inv, DbOk, OrderInv, KeyTaken, Compatible, ProgressOk;
    Facts(w, s, tx);
    assert TimesOk(s.db) by { OrderParts(s); }
    CommitOrdered(w, s, tx, CreateCommitted(s.db, t), Reported(reported, Created(t.request, t.row)));
  }

  lemma OrderParts(s: State)
    requires OrderInv(s)
    ensures TimesOk(s.db) && forall tx <- s.txs :: TxOrdered(s.db, s.txs[tx])
  {
    hide TimesOk, LogOrdered, HandedOrdered, TxOrdered, Publishing;
  }

  lemma CommitDecisionOrdered(w: Wiring, s: State, tx: TxId, t: Tx, reported: bool)
    requires Inv(w, s) && OrderInv(s) && tx in s.txs && s.txs[tx] == t && t.Announced?
    ensures OrderInv(StepCommitDecision(s, tx, t, reported))
  {
    hide Inv, DbOk, OrderInv, HasTerminal, Compatible, ProgressOk, ValidValidation;
    Facts(w, s, tx);
    OrderParts(s);
    assert TxOrdered(s.db, t);
    hide BatchOrdered;
    CommitOrdered(w, s, tx, DecisionCommitted(s.db, t), Reported(reported, Decided(t.entry)));
  }

  lemma CommitBatchOrdered(w: Wiring, s: State, tx: TxId, t: Tx, reported: bool)
    requires Inv(w, s) && OrderInv(s) && tx in s.txs && s.txs[tx] == t && t.Batch?
    ensures OrderInv(StepCommitBatch(s, tx, t, reported))
  {
    hide Inv, OrderInv, Holds;
    OrderParts(s);
    hide TxOrdered;
    if t.phase.Ready? && t.next == |t.pending| {
      CommitOrdered(w, s, tx, s.db.(outbox := MarksCommitted(s.db.outbox, t.pending, t.now)),
        Reported(reported, Published(|t.pending|)));
    }
  }

  // ---------- every event ----------

  lemma BeginOrdered(w: Wiring, s: State, e: Event)
    requires OrderInv(s) && Disciplined(s, e)
    requires e.BeginCreate? || e.BeginDecision? || e.BeginBatch?
    ensures OrderInv(Step(w, s, e))
  {
    hide OrderInv, ValidCreate, ValidValidation, BatchOrdered;
    if Unused(s, e.tx) {
      match e
      case BeginCreate(tx, at, request) =>
        if ValidCreate(request) {
          KeepOrdered(s, tx, Creating(at, request));
          BegunIrrelevant(Keep(s, tx, Creating(at, request)), s.begun + {request});
        }
      case BeginDecision(tx, at, package, decision) => KeepOrdered(s, tx, Deciding(at, package, decision));
      case BeginBatch(tx, at) => KeepOrdered(s, tx, Draining(at));
    }
  }

  lemma BegunIrrelevant(s: State, begun: set<CreateRequest>)
    requires OrderInv(s)
    ensures OrderInv(s.(begun := begun))
  {
    hide TimesOk, LogOrdered, HandedOrdered, TxOrdered, Publishing;
  }

  /** Steps of creators and deciders that commit nothing. */
  lemma StoreStepOrdered(w: Wiring, s: State, e: Event, t: Tx)
    requires OrderInv(s) && e.tx in s.txs && s.txs[e.tx] == t && !OfPublisher(e) && !IsCommit(e)
    ensures OrderInv(StepLive(w, s, e, t))
  {
    hide OrderInv, KeyTaken, KeyClaimed, PackageIdFree, EntryIdFree, EventIdFree, IsKeyHolder, Model.Matches,
      HasTerminal, IsLatest, TerminalClaimed, RowLocked, TriggerAdmits, StoredPackage, ReceivedEntry, DecisionEntry,
      EventRow, BatchOrdered;
    OrderParts(s);
    assert TxOrdered(s.db, t);
    var s' := StepLive(w, s, e, t);
    if s' != s {
      if e.tx in s'.txs { KeepOrdered(s, e.tx, s'.txs[e.tx]); } else { EndOrdered(s, e.tx, s'.outcomes[e.tx]); }
    }
  }

  lemma SelectBatchOrdered(w: Wiring, s: State, tx: TxId, t: Tx, ids: seq<Id>)
    requires OrderInv(s) && tx in s.txs && s.txs[tx] == t && t.Draining?
    ensures OrderInv(StepSelectBatch(w, s, tx, t, ids))
  {
    hide TimesOk, LogOrdered, HandedOrdered, BatchOrdered;
    if IsSelection(s, ids, w.batchSize) {
      SelectionOrdered(w, s, tx, ids);
      KeepOrdered(s, tx, Batch(t.now, Scan(s.db, ids), 0, Ready));
    }
  }

  lemma SendStepOrdered(w: Wiring, s: State, tx: TxId, t: Tx)
    requires Inv(w, s) && OrderInv(s) && tx in s.txs && s.txs[tx] == t && t.Batch?
    ensures OrderInv(StepHandOver(s, t)) && OrderInv(StepSend(s, tx, t)) && OrderInv(StepAcknowledge(s, tx, t))
  {
    hide Inv, OrderInv, BatchOrdered, MayFollow;
    OrderParts(s);
    assert TxOrdered(s.db, t);
    if t.next < |t.pending| {
      var r := Current(t);
      CurrentMayFollow(w, s, tx, t);
      HandedAdded(s, r);
      if t.phase.Verified? || t.phase.Sent? {
        var s1 := s.(handed := s.handed + {r});
        LogAppended(s1, r);
        KeepOrdered(s1.(log := s.log + [r]), tx, t.(phase := Sent));
      }
      if t.phase.Sent? {
        KeepOrdered(s, tx, t.(phase := Acknowledged));
        AckedIrrelevant(Keep(s, tx, t.(phase := Acknowledged)), s.acked + {t.pending[t.next].id});
      }
    }
  }

  lemma VerifyAndMarkOrdered(w: Wiring, s: State, tx: TxId, t: Tx)
    requires OrderInv(s) && tx in s.txs && s.txs[tx] == t && t.Batch?
    ensures OrderInv(StepVerifyNext(w, s, tx, t)) && OrderInv(StepMarkPublished(s, tx, t))
  {
    hide OrderInv, BatchOrdered;
    OrderParts(s);
    assert TxOrdered(s.db, t);
    if t.next < |t.pending| {
      KeepOrdered(s, tx, t.(phase := Verified));
      EndOrdered(s, tx, Unverified(t.pending[t.next].id));
      if t.phase.Acknowledged? { KeepOrdered(s, tx, t.(phase := Ready, next := t.next + 1)); }
    }
  }

  lemma PublisherStepOrdered(w: Wiring, s: State, e: Event, t: Tx)
    requires Inv(w, s) && OrderInv(s) && e.tx in s.txs && s.txs[e.tx] == t && OfPublisher(e) && !IsCommit(e)
    ensures OrderInv(StepLive(w, s, e, t))
  {
    hide Inv, OrderInv, StepSelectBatch, StepVerifyNext, StepHandOver, StepSend, StepAcknowledge,
      StepMarkPublished;
    if t.Draining? && e.SelectBatch? { SelectBatchOrdered(w, s, e.tx, t, e.ids); }
    if t.Batch? {
      SendStepOrdered(w, s, e.tx, t);
      VerifyAndMarkOrdered(w, s, e.tx, t);
    }
  }

  lemma AckedIrrelevant(s: State, acked: set<Id>)
    requires OrderInv(s)
    ensures OrderInv(s.(acked := acked))
  {
    hide TimesOk, LogOrdered, HandedOrdered, TxOrdered, Publishing;
  }

  lemma StepOrdered(w: Wiring, s: State, e: Event)
    requires Inv(w, s) && OrderInv(s) && Disciplined(s, e)
    ensures OrderInv(Step(w, s, e))
  {
    hide Inv, OrderInv, Disciplined, StepCommitCreate, StepCommitDecision, StepCommitBatch;
    if e.BeginCreate? || e.BeginDecision? || e.BeginBatch? {
      BeginOrdered(w, s, e);
    } else if e.Land? {
      LandOrdered(s, e.record);
    } else if e.tx in s.txs {
      var t := s.txs[e.tx];
      match e
      case CommitCreate(tx, reported) => if t.Enqueued? { CommitCreateOrdered(w, s, tx, t, reported); }
      case CommitDecision(tx, reported) => if t.Announced? { CommitDecisionOrdered(w, s, tx, t, reported); }
      case CommitBatch(tx, reported) => if t.Batch? { CommitBatchOrdered(w, s, tx, t, reported); }
      case _ => if OfPublisher(e) { PublisherStepOrdered(w, s, e, t); } else { StoreStepOrdered(w, s, e, t); }
    }
  }

  lemma {:induction false} RunOrdered(w: Wiring, s: State, es: seq<Event>)
    requires Inv(w, s) && OrderInv(s) && DisciplinedRun(w, s, es)
    ensures Inv(w, Run(w, s, es)) && OrderInv(Run(w, s, es))
    decreases |es|
  {
    hide Inv, OrderInv, Step, Disciplined;
    if es != [] {
      StepOk(w, s, es[0]);
      StepOrdered(w, s, es[0]);
      RunOrdered(w, Step(w, s, es[0]), es[1..]);
    }
  }

  /** Before the k-th record of the log there is a copy of the received event of the same package. */
  ghost predicate FollowsItsPackage(outbox: map<Id, OutboxRow>, log: seq<Record>, k: nat)
    requires k < |log|
  {
    && log[k].key in outbox
    && exists i :: 0 <= i < k && log[i].topic == TopicPackage && log[i].key in outbox
                   && outbox[log[i].key].package == outbox[log[k].key].package
  }

  /** In every disciplined run, across any crashes and re-deliveries: before each copy of a validation event in
      the log there is a copy of its package's received event. */
  lemma FirstPublicationOrder(w: Wiring, es: seq<Event>, k: nat)
    requires var log := Run(w, EMPTY, es).log; k < |log| && log[k].topic == TopicValidation
    requires DisciplinedRun(w, EMPTY, es)
    ensures FollowsItsPackage(Run(w, EMPTY, es).db.outbox, Run(w, EMPTY, es).log, k)
  {
    hide Run, Inv, OrderInv, FollowsItsPackage;
    EmptyOk(w);
    EmptyOrdered();
    RunOrdered(w, EMPTY, es);
    PrecededInLog(w, Run(w, EMPTY, es), k);
  }

  lemma EmptyOrdered()
    ensures OrderInv(EMPTY)
  {
  }

  lemma PrecededInLog(w: Wiring, s: State, k: nat)
    requires k < |s.log| && s.log[k].topic == TopicValidation
    requires OrderInv(s) && Inv(w, s)
    ensures FollowsItsPackage(s.db.outbox, s.log, k)
  {
    hide Inv, OrderInv, DbOk, LogOrdered;
    Parts(w, s);
    LogIsOrdered(s);
    RecordKinds(w, s);
    var decision := s.log[k].key;
    PackageEventExists(w, s.db, decision);
    var id :| IsReceivedEventOf(s.db.outbox, s.db.outbox[decision].package, id);
    Preceding(s.db.outbox, s.log, k, id);
  }

  lemma LogIsOrdered(s: State)
    requires OrderInv(s)
    ensures LogOrdered(s.db.outbox, s.log)
  {
    hide TimesOk, LogOrdered, HandedOrdered, TxOrdered, Publishing;
  }

  lemma Preceding(outbox: map<Id, OutboxRow>, log: seq<Record>, k: nat, id: Id)
    requires LogOrdered(outbox, log) && k < |log| && IsDecisionEvent(outbox, log[k].key)
    requires IsReceivedEventOf(outbox, outbox[log[k].key].package, id)
    ensures exists i :: 0 <= i < k && log[i].key == id
  {
    assert LogHasBefore(log, k, id);
  }

  lemma RecordKinds(w: Wiring, s: State)
    requires DbOk(w, s.db) && LogOk(w, s.db, s.log, s.acked)
    ensures forall k | 0 <= k < |s.log| ::
      (s.log[k].key in s.db.outbox && (s.log[k].topic == TopicPackage <==>
           s.db.outbox[s.log[k].key].fact.ReceivedFact?))
  {
    hide PackagesOk, HistoryOk, EventsState, AllStated, InLog, SameRow;
    forall k | 0 <= k < |s.log|
      ensures s.log[k].key in s.db.outbox && (s.log[k].topic == TopicPackage <==>
        s.db.outbox[s.log[k].key].fact.ReceivedFact?)
    {
      assert RecordOk(w, s.db, s.log[k]);
      assert EventOk(w, s.db.outbox[s.log[k].key]);
    }
  }

  lemma ReceivedStated(w: Wiring, row: OutboxRow, h: HistoryRow)
    requires EventOk(w, row) && States(row.fact, h) && h.status == Received
    ensures row.fact.ReceivedFact? && row.package == h.package
  {
  }

  /** Where there is one event of a package there is its received event. */
  lemma PackageEventExists(w: Wiring, db: Db, id: Id)
    requires DbOk(w, db) && id in db.outbox
    ensures exists received :: IsReceivedEventOf(db.outbox, db.outbox[id].package, received)
  {
    hide PackagesOk, RowsOk, OneEach, StatusAgrees, EventsState, SameRow, EventOk, States;
    var package := db.outbox[id].package;
    assert ReceivedIn(db.history, package);
    var r :| r in db.history && db.history[r].package == package && db.history[r].status == Received;
    assert StatedBy(db.outbox, db.history[r]);
    var received :| received in db.outbox && States(db.outbox[received].fact, db.history[r]);
    ReceivedStated(w, db.outbox[received], db.history[r]);
    assert IsReceivedEventOf(db.outbox, package, received);
  }
}
