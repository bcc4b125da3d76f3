/** The service as a state machine: three committed tables, the transactions in flight, and the Kafka log.
    Every SQL statement, produce call and commit is one event; events of all transactions interleave freely,
    and any transaction may abort at any point. A disabled event (a statement that would have to wait, an
    identifier already taken) leaves the state as it is. */
module Machine {
  import opened Text
  import opened Model

  type TxId = nat

  datatype Topic = TopicPackage | TopicValidation
  datatype EventType = PackageReceived | ValidationRecorded

  /** What an outbox event states. */
  datatype Fact =
    | ReceivedFact(row: Package)
    | DecisionFact(subject: Id, prior: Status, request: ValidationRequest)

  function FactPackage(f: Fact): Id {
    match f
    case ReceivedFact(p) => p.id
    case DecisionFact(id, _, _) => id
  }

  function FactTopic(f: Fact): Topic {
    if f.ReceivedFact? then TopicPackage else TopicValidation
  }

  function FactType(f: Fact): EventType {
    if f.ReceivedFact? then PackageReceived else ValidationRecorded
  }

  /** A row of evidence_outbox; its fact is a history variable, its payload the JSONB text. */
  datatype OutboxRow = OutboxRow(
    id: Id, package: Id, topic: Topic, eventType: EventType, payload: string, createdAt: Time,
    publishedAt: Option<Time>, fact: Fact)

  /** A Kafka record: its key is the outbox row's event id. */
  datatype Record = Record(topic: Topic, key: Id, value: string)

  datatype Db = Db(packages: map<Id, Package>, history: map<Id, HistoryRow>, outbox: map<Id, OutboxRow>)

  /** The wiring: whether the store has a signer, which texts the outbox may hold for a fact, which the publisher's
      verification accepts, and which texts PostgreSQL reads as which UUID. */
  datatype Wiring = Wiring(
    signed: bool, stores: (Fact, string) -> bool, verifies: string -> bool, parse: string -> Option<Id>, batchSize: nat)

  /** The caller's spelling names the package. */
  predicate Names(w: Wiring, r: ValidationRequest, package: Id) {
    w.parse(r.packageId) == Some(package)
  }

  /** A row as publishBatch scanned it. */
  datatype Pending = Pending(id: Id, topic: Topic, payload: string)

  /** Where publishBatch is with its current row. */
  datatype Phase = Ready | Verified | Sent | Acknowledged

  datatype Tx =
    // Store.Create
    | Creating(now: Time, request: CreateRequest)
    | Inserted(now: Time, request: CreateRequest, row: Package)
    | Recorded(now: Time, request: CreateRequest, row: Package, entry: HistoryRow)
    | Enqueued(now: Time, request: CreateRequest, row: Package, entry: HistoryRow, event: Option<OutboxRow>)
    | Missed(now: Time, request: CreateRequest)
    | Matched(now: Time, request: CreateRequest, existing: Package)
    // Store.RecordValidation
    | Deciding(now: Time, package: Id, decision: ValidationRequest)
    | Found(now: Time, package: Id, decision: ValidationRequest, snapshot: map<Id, HistoryRow>)
    | Open(now: Time, package: Id, decision: ValidationRequest, snapshot: map<Id, HistoryRow>)
    | Prior(now: Time, package: Id, decision: ValidationRequest, prior: Status)
    | Appended(now: Time, package: Id, decision: ValidationRequest, prior: Status, entry: HistoryRow)
    | Updated(now: Time, package: Id, decision: ValidationRequest, prior: Status, entry: HistoryRow, row: Package)
    | Announced(now: Time, package: Id, decision: ValidationRequest, prior: Status, entry: HistoryRow, row: Package,
      event: Option<OutboxRow>)
    // publishBatch
    | Draining(now: Time)
    | Batch(now: Time, pending: seq<Pending>, next: nat, phase: Phase)

  /** What a call returned. */
  datatype Outcome =
    | Created(request: CreateRequest, package: Package)
    | Retained(request: CreateRequest, package: Package)
    | Conflict(request: CreateRequest)
    | RetainedRowMissing
    | Decided(entry: HistoryRow)
    | NotFound
    | AlreadyTerminal
    | RejectedByIndex
    | RejectedByTrigger
    | Published(count: nat)
    | Unverified(id: Id)
    | Failed

  /** handed holds the records the producer was ever given; begun and acked are history variables: the requests ever
      submitted, and the rows ever acknowledged. */
  datatype State = State(
    db: Db, txs: map<TxId, Tx>, outcomes: map<TxId, Outcome>, log: seq<Record>, handed: set<Record>,
    begun: set<CreateRequest>, acked: set<Id>)

  const EMPTY := State(Db(map[], map[], map[]), map[], map[], [], {}, {}, {})

  datatype Event =
    | BeginCreate(tx: TxId, at: Time, request: CreateRequest)
    | InsertPackage(tx: TxId, id: Id)
    | InsertReceived(tx: TxId, id: Id)
    | EnqueueReceived(tx: TxId, id: Id, payload: string)
    | CommitCreate(tx: TxId, reported: bool)
    | LoadRetained(tx: TxId, found: Option<Id>)
    | CommitLookup(tx: TxId, reported: bool)
    | BeginDecision(tx: TxId, at: Time, package: Id, decision: ValidationRequest)
    | FindPackage(tx: TxId)
    | CheckTerminal(tx: TxId)
    | LoadPrior(tx: TxId, latest: Option<Id>)
    | InsertDecision(tx: TxId, id: Id)
    | UpdateStatus(tx: TxId)
    | EnqueueDecision(tx: TxId, id: Id, payload: string)
    | CommitDecision(tx: TxId, reported: bool)
    | BeginBatch(tx: TxId, at: Time)
    | SelectBatch(tx: TxId, ids: seq<Id>)
    | VerifyNext(tx: TxId)
    | HandOver(tx: TxId)
    | Send(tx: TxId)
    | Land(tx: TxId, record: Record)
    | Acknowledge(tx: TxId)
    | MarkPublished(tx: TxId)
    | CommitBatch(tx: TxId, reported: bool)
    | Abort(tx: TxId)

  // ---------- staged writes and locks of a transaction ----------

  function StagedPackage(t: Tx): Option<Package> {
    match t
    case Inserted(_, _, row) => Some(row)
    case Recorded(_, _, row, _) => Some(row)
    case Enqueued(_, _, row, _, _) => Some(row)
    case _ => None
  }

  function StagedEntry(t: Tx): Option<HistoryRow> {
    match t
    case Recorded(_, _, _, entry) => Some(entry)
    case Enqueued(_, _, _, entry, _) => Some(entry)
    case Appended(_, _, _, _, entry) => Some(entry)
    case Updated(_, _, _, _, entry, _) => Some(entry)
    case Announced(_, _, _, _, entry, _, _) => Some(entry)
    case _ => None
  }

  function StagedEvent(t: Tx): Option<OutboxRow> {
    match t
    case Enqueued(_, _, _, _, event) => event
    case Announced(_, _, _, _, _, _, event) => event
    case _ => None
  }

  /** A transaction of RecordValidation. */
  predicate IsDecision(t: Tx) {
    t.Deciding? || t.Found? || t.Open? || t.Prior? || t.Appended? || t.Updated? || t.Announced?
  }

  /** Package rows locked by a status update. */
  function UpdatedPackage(t: Tx): Option<Id> {
    if t.Updated? || t.Announced? then Some(t.package) else None
  }

  predicate Locks(t: Tx, id: Id) {
    t.Batch? && exists k :: 0 <= k < |t.pending| && t.pending[k].id == id
  }

  // ---------- constraints ----------

  predicate SameKey(p: Package, tenant: string, key: string) {
    p.tenantId == tenant && p.idempotencyKey == key
  }

  predicate KeyTaken(db: Db, tenant: string, key: string) {
    exists id <- db.packages :: SameKey(db.packages[id], tenant, key)
  }

  /** Another transaction holds an uncommitted claim on the key: the INSERT waits. */
  predicate KeyClaimed(s: State, tenant: string, key: string) {
    exists tx <- s.txs :: StagedPackage(s.txs[tx]).Some? && SameKey(StagedPackage(s.txs[tx]).value, tenant, key)
  }

  predicate PackageIdFree(s: State, id: Id) {
    id !in s.db.packages && forall tx <- s.txs :: StagedPackage(s.txs[tx]).Some? ==>
         StagedPackage(s.txs[tx]).value.id != id
  }

  predicate EntryIdFree(s: State, id: Id) {
    id !in s.db.history && forall tx <- s.txs :: StagedEntry(s.txs[tx]).Some? ==> StagedEntry(s.txs[tx]).value.id != id
  }

  predicate EventIdFree(s: State, id: Id) {
    id !in s.db.outbox && forall tx <- s.txs :: StagedEvent(s.txs[tx]).Some? ==> StagedEvent(s.txs[tx]).value.id != id
  }

  predicate HasTerminal(history: map<Id, HistoryRow>, package: Id) {
    exists id <- history :: history[id].package == package && IsTerminal(history[id].status)
  }

  /** Another transaction has an uncommitted terminal row: the partial unique index makes the INSERT wait. */
  predicate TerminalClaimed(s: State, package: Id) {
    exists tx <- s.txs :: StagedEntry(s.txs[tx]).Some? && StagedEntry(s.txs[tx]).value.package == package
                          && IsTerminal(StagedEntry(s.txs[tx]).value.status)
  }

  /** The row lock of another transaction's status update. */
  predicate RowLocked(s: State, package: Id) {
    exists tx <- s.txs :: UpdatedPackage(s.txs[tx]) == Some(package)
  }

  /** The latest history row of a package, by time and then by id; None when it has none. */
  predicate IsLatest(history: map<Id, HistoryRow>, package: Id, latest: Option<Id>) {
    match latest
    case None => forall id <- history :: history[id].package != package
    case Some(last) =>
      && last in history && history[last].package == package
      && forall id <- history :: history[id].package == package ==>
           history[id].occurredAt < history[last].occurredAt
           || (history[id].occurredAt == history[last].occurredAt && id <= last)
  }

  // ---------- rows ----------

  /** The history row that creation writes. */
  function ReceivedEntry(row: Package, id: Id): HistoryRow {
    HistoryRow(id, row.id, None, Received, "evidence_package_received", "system:evidence-service", row.receivedAt,
      row.correlationId)
  }

  /** The history row of a decision. */
  function DecisionEntry(package: Id, prior: Status, r: ValidationRequest, id: Id): HistoryRow {
    HistoryRow(id, package, Some(prior), r.status, r.reasonCode, r.actor, StoredTime(r.occurredAt),
      StoredUuid(r.correlationId))
  }

  /** enqueueOutbox: created_at is now(), the start of the transaction. */
  function EventRow(fact: Fact, id: Id, payload: string, now: Time): OutboxRow {
    OutboxRow(id, FactPackage(fact), FactTopic(fact), FactType(fact), payload, now, None, fact)
  }

  function RecordOf(row: OutboxRow): Record {
    Record(row.topic, row.id, row.payload)
  }

  // ---------- steps ----------

  function Keep(s: State, tx: TxId, t: Tx): State {
    s.(txs := s.txs[tx := t])
  }

  function End(s: State, tx: TxId, outcome: Outcome): State {
    s.(txs := s.txs - {tx}, outcomes := s.outcomes[tx := outcome])
  }

  /** A commit that took effect may still be reported as an error. */
  function Reported(reported: bool, outcome: Outcome): Outcome {
    if reported then outcome else Failed
  }

  predicate Unused(s: State, tx: TxId) {
    tx !in s.txs && tx !in s.outcomes
  }

  function AddEvent(outbox: map<Id, OutboxRow>, event: Option<OutboxRow>): map<Id, OutboxRow> {
    match event
    case None => outbox
    case Some(row) => outbox[row.id := row]
  }

  // Store.Create

  function StepBeginCreate(s: State, tx: TxId, at: Time, request: CreateRequest): State {
    if Unused(s, tx) && ValidCreate(request) then
      Keep(s, tx, Creating(at, request)).(begun := s.begun + {request})
    else s
  }

  /** INSERT ... ON CONFLICT DO NOTHING: no row when the key is committed; waits while it is claimed. */
  function StepInsertPackage(s: State, tx: TxId, t: Tx, id: Id): State
    requires t.Creating?
  {
    var row := StoredPackage(t.request, id, t.now);
    if KeyTaken(s.db, row.tenantId, row.idempotencyKey) then Keep(s, tx, Missed(t.now, t.request))
    else if KeyClaimed(s, row.tenantId, row.idempotencyKey) || !PackageIdFree(s, id) then s
    else Keep(s, tx, Inserted(t.now, t.request, row))
  }

  function StepInsertReceived(s: State, tx: TxId, t: Tx, id: Id): State
    requires t.Inserted?
  {
    if EntryIdFree(s, id) then Keep(s, tx, Recorded(t.now, t.request, t.row, ReceivedEntry(t.row, id))) else s
  }

  function StepEnqueueReceived(w: Wiring, s: State, tx: TxId, t: Tx, id: Id, payload: string): State
    requires t.Recorded?
  {
    var fact := ReceivedFact(t.row);
    if !w.signed then Keep(s, tx, Enqueued(t.now, t.request, t.row, t.entry, None))
    else if EventIdFree(s, id) && w.stores(fact, payload) then
      Keep(s, tx, Enqueued(t.now, t.request, t.row, t.entry, Some(EventRow(fact, id, payload, t.now))))
    else s
  }

  function CreateCommitted(db: Db, t: Tx): Db
    requires t.Enqueued?
  {
    Db(db.packages[t.row.id := t.row], db.history[t.entry.id := t.entry], AddEvent(db.outbox, t.event))
  }

  function StepCommitCreate(s: State, tx: TxId, t: Tx, reported: bool): State
    requires t.Enqueued?
  {
    End(s, tx, Reported(reported, Created(t.request, t.row))).(db := CreateCommitted(s.db, t))
  }

  /** What the SELECT by key returns. */
  predicate IsKeyHolder(db: Db, tenant: string, key: string, found: Option<Id>) {
    match found
    case None => !KeyTaken(db, tenant, key)
    case Some(id) => id in db.packages && SameKey(db.packages[id], tenant, key)
  }

  /** The SELECT after an insert that yielded no row, and the comparison with the request. */
  function StepLoadRetained(s: State, tx: TxId, t: Tx, found: Option<Id>): State
    requires t.Missed?
  {
    if !IsKeyHolder(s.db, t.request.tenantId, StoredUuid(t.request.idempotencyKey), found) then s
    else if found.None? then End(s, tx, RetainedRowMissing)
    else
      var existing := s.db.packages[found.value];
      if Model.Matches(t.request, existing) then Keep(s, tx, Matched(t.now, t.request, existing))
      else End(s, tx, Conflict(t.request))
  }

  function StepCommitLookup(s: State, tx: TxId, t: Tx, reported: bool): State
    requires t.Matched?
  {
    End(s, tx, Reported(reported, Retained(t.request, t.existing)))
  }

  // Store.RecordValidation

  /** A spelling that PostgreSQL cannot read as a UUID fails the first statement: such a call changes nothing. */
  function StepBeginDecision(w: Wiring, s: State, tx: TxId, at: Time, package: Id, decision: ValidationRequest): State {
    if Unused(s, tx) && ValidValidation(decision) && Names(w, decision, package) then
      Keep(s, tx, Deciding(at, package, decision))
    else s
  }

  /** The first statement fixes the snapshot of the serializable transaction. */
  function StepFindPackage(s: State, tx: TxId, t: Tx): State
    requires t.Deciding?
  {
    if t.package in s.db.packages then Keep(s, tx, Found(t.now, t.package, t.decision, s.db.history))
    else End(s, tx, NotFound)
  }

  function StepCheckTerminal(s: State, tx: TxId, t: Tx): State
    requires t.Found?
  {
    if HasTerminal(t.snapshot, t.package) then End(s, tx, AlreadyTerminal)
    else Keep(s, tx, Open(t.now, t.package, t.decision, t.snapshot))
  }

  function StepLoadPrior(s: State, tx: TxId, t: Tx, latest: Option<Id>): State
    requires t.Open?
  {
    if IsLatest(t.snapshot, t.package, latest) then
      var prior := if latest.Some? then t.snapshot[latest.value].status else Received;
      Keep(s, tx, Prior(t.now, t.package, t.decision, prior))
    else s
  }

  /** The partial unique index on terminal rows sees every committed row and waits for uncommitted ones. */
  function StepInsertDecision(s: State, tx: TxId, t: Tx, id: Id): State
    requires t.Prior?
  {
    if HasTerminal(s.db.history, t.package) then End(s, tx, RejectedByIndex)
    else if TerminalClaimed(s, t.package) || !EntryIdFree(s, id) then s
    else Keep(s, tx, Appended(t.now, t.package, t.decision, t.prior, DecisionEntry(t.package, t.prior, t.decision, id)))
  }

  function StepUpdateStatus(s: State, tx: TxId, t: Tx): State
    requires t.Appended?
  {
    if t.package !in s.db.packages || RowLocked(s, t.package) then s
    else
      var old' := s.db.packages[t.package];
      var new' := old'.(status := t.decision.status);
      if TriggerAdmits(old', new') then Keep(s, tx, Updated(t.now, t.package, t.decision, t.prior, t.entry, new'))
      else End(s, tx, RejectedByTrigger)
  }

  function StepEnqueueDecision(w: Wiring, s: State, tx: TxId, t: Tx, id: Id, payload: string): State
    requires t.Updated?
  {
    var fact := DecisionFact(t.package, t.prior, t.decision);
    if !w.signed then Keep(s, tx, Announced(t.now, t.package, t.decision, t.prior, t.entry, t.row, None))
    else if EventIdFree(s, id) && w.stores(fact, payload) then
      Keep(s, tx, Announced(t.now, t.package, t.decision, t.prior, t.entry, t.row,
        Some(EventRow(fact, id, payload, t.now))))
    else s
  }

  function DecisionCommitted(db: Db, t: Tx): Db
    requires t.Announced?
  {
    Db(db.packages[t.package := t.row], db.history[t.entry.id := t.entry], AddEvent(db.outbox, t.event))
  }

  function StepCommitDecision(s: State, tx: TxId, t: Tx, reported: bool): State
    requires t.Announced?
  {
    End(s, tx, Reported(reported, Decided(t.entry))).(db := DecisionCommitted(s.db, t))
  }

  // publishBatch

  function StepBeginBatch(s: State, tx: TxId, at: Time): State {
    if Unused(s, tx) then Keep(s, tx, Draining(at)) else s
  }

  /** An unpublished row that no publisher has locked: FOR UPDATE SKIP LOCKED. */
  predicate Available(s: State, id: Id) {
    && id in s.db.outbox && s.db.outbox[id].publishedAt.None?
    && forall tx <- s.txs :: !Locks(s.txs[tx], id)
  }

  /** ORDER BY created_at LIMIT batchSize over the available rows. */
  predicate IsSelection(s: State, ids: seq<Id>, limit: nat) {
    && |ids| <= limit
    && (forall id <- ids :: Available(s, id))
    && (forall i, k | 0 <= i < k < |ids| :: ids[i] != ids[k])
    && (forall i, k | 0 <= i < k < |ids| && ids[i] in s.db.outbox && ids[k] in s.db.outbox ::
          s.db.outbox[ids[i]].createdAt <= s.db.outbox[ids[k]].createdAt)
    && (forall id <- s.db.outbox :: Available(s, id) && id !in ids ==>
          && |ids| == limit
          && forall chosen <- ids :: chosen in s.db.outbox ==>
               s.db.outbox[chosen].createdAt <= s.db.outbox[id].createdAt)
  }

  function Scan(db: Db, ids: seq<Id>): (pending: seq<Pending>)
    requires forall id <- ids :: id in db.outbox
    ensures |pending| == |ids|
    ensures forall i | 0 <= i < |ids| ::
      pending[i] == Pending(ids[i], db.outbox[ids[i]].topic, db.outbox[ids[i]].payload)
  {
    seq(|ids|, i requires 0 <= i < |ids| => Pending(ids[i], db.outbox[ids[i]].topic, db.outbox[ids[i]].payload))
  }

  function StepSelectBatch(w: Wiring, s: State, tx: TxId, t: Tx, ids: seq<Id>): State
    requires t.Draining?
  {
    if IsSelection(s, ids, w.batchSize) then Keep(s, tx, Batch(t.now, Scan(s.db, ids), 0, Ready)) else s
  }

  function StepVerifyNext(w: Wiring, s: State, tx: TxId, t: Tx): State
    requires t.Batch?
  {
    if t.phase.Ready? && t.next < |t.pending| then
      if w.verifies(t.pending[t.next].payload) then Keep(s, tx, t.(phase := Verified))
      else End(s, tx, Unverified(t.pending[t.next].id))
    else s
  }

  function Current(t: Tx): Record
    requires t.Batch? && t.next < |t.pending|
  {
    Record(t.pending[t.next].topic, t.pending[t.next].id, t.pending[t.next].payload)
  }

  /** The producer is given the current record, which has not reached the log yet. */
  function StepHandOver(s: State, t: Tx): State
    requires t.Batch?
  {
    if (t.phase.Verified? || t.phase.Sent?) && t.next < |t.pending| then s.(handed := s.handed + {Current(t)}) else s
  }

  /** A record the producer was given reaches the log: late, once more, or after its publisher has gone. The event
      is of no transaction; its number only says in whose turn it happens. */
  function StepLand(s: State, record: Record): State {
    if record in s.handed then s.(log := s.log + [record]) else s
  }

  /** The current record reaches the log; a retry inside the producer may write it again before the acknowledgement. */
  function StepSend(s: State, tx: TxId, t: Tx): State
    requires t.Batch?
  {
    if (t.phase.Verified? || t.phase.Sent?) && t.next < |t.pending| then
      Keep(s, tx, t.(phase := Sent)).(log := s.log + [Current(t)], handed := s.handed + {Current(t)})
    else s
  }

  function StepAcknowledge(s: State, tx: TxId, t: Tx): State
    requires t.Batch?
  {
    if t.phase.Sent? && t.next < |t.pending| then
      Keep(s, tx, t.(phase := Acknowledged)).(acked := s.acked + {t.pending[t.next].id})
    else s
  }

  /** UPDATE ... SET published_at, staged in the transaction. */
  function StepMarkPublished(s: State, tx: TxId, t: Tx): State
    requires t.Batch?
  {
    if t.phase.Acknowledged? && t.next < |t.pending| then Keep(s, tx, t.(phase := Ready, next := t.next + 1)) else s
  }

  predicate Holds(pending: seq<Pending>, id: Id) {
    exists k :: 0 <= k < |pending| && pending[k].id == id
  }

  function MarkRow(row: OutboxRow, now: Time): OutboxRow {
    if row.publishedAt.None? then row.(publishedAt := Some(now)) else row
  }

  function MarksCommitted(outbox: map<Id, OutboxRow>, pending: seq<Pending>, now: Time): map<Id, OutboxRow> {
    map id <- outbox :: if Holds(pending, id) then MarkRow(outbox[id], now) else outbox[id]
  }

  function StepCommitBatch(s: State, tx: TxId, t: Tx, reported: bool): State
    requires t.Batch?
  {
    if t.phase.Ready? && t.next == |t.pending| then
      End(s, tx, Reported(reported, Published(|t.pending|)))
        .(db := s.db.(outbox := MarksCommitted(s.db.outbox, t.pending, t.now)))
    else s
  }

  /** One event. */
  function Step(w: Wiring, s: State, e: Event): State {
    match e
    case BeginCreate(tx, at, request) => StepBeginCreate(s, tx, at, request)
    case BeginDecision(tx, at, package, decision) => StepBeginDecision(w, s, tx, at, package, decision)
    case BeginBatch(tx, at) => StepBeginBatch(s, tx, at)
    case Land(_, record) => StepLand(s, record)
    case _ => if e.tx in s.txs then StepLive(w, s, e, s.txs[e.tx]) else s
  }

  /** An event of a transaction in flight. */
  function StepLive(w: Wiring, s: State, e: Event, t: Tx): State {
    match e
    case InsertPackage(tx, id) => if t.Creating? then StepInsertPackage(s, tx, t, id) else s
    case InsertReceived(tx, id) => if t.Inserted? then StepInsertReceived(s, tx, t, id) else s
    case EnqueueReceived(tx, id, payload) => if t.Recorded? then StepEnqueueReceived(w, s, tx, t, id, payload) else s
    case CommitCreate(tx, reported) => if t.Enqueued? then StepCommitCreate(s, tx, t, reported) else s
    case LoadRetained(tx, found) => if t.Missed? then StepLoadRetained(s, tx, t, found) else s
    case CommitLookup(tx, reported) => if t.Matched? then StepCommitLookup(s, tx, t, reported) else s
    case FindPackage(tx) => if t.Deciding? then StepFindPackage(s, tx, t) else s
    case CheckTerminal(tx) => if t.Found? then StepCheckTerminal(s, tx, t) else s
    case LoadPrior(tx, latest) => if t.Open? then StepLoadPrior(s, tx, t, latest) else s
    case InsertDecision(tx, id) => if t.Prior? then StepInsertDecision(s, tx, t, id) else s
    case UpdateStatus(tx) => if t.Appended? then StepUpdateStatus(s, tx, t) else s
    case EnqueueDecision(tx, id, payload) => if t.Updated? then StepEnqueueDecision(w, s, tx, t, id, payload) else s
    case CommitDecision(tx, reported) => if t.Announced? then StepCommitDecision(s, tx, t, reported) else s
    case SelectBatch(tx, ids) => if t.Draining? then StepSelectBatch(w, s, tx, t, ids) else s
    case VerifyNext(tx) => if t.Batch? then StepVerifyNext(w, s, tx, t) else s
    case HandOver(tx) => if t.Batch? then StepHandOver(s, t) else s
    case Send(tx) => if t.Batch? then StepSend(s, tx, t) else s
    case Acknowledge(tx) => if t.Batch? then StepAcknowledge(s, tx, t) else s
    case MarkPublished(tx) => if t.Batch? then StepMarkPublished(s, tx, t) else s
    case CommitBatch(tx, reported) => if t.Batch? then StepCommitBatch(s, tx, t, reported) else s
    case Abort(tx) => End(s, tx, Failed)
    case _ => s
  }

  /** A run: any events of any transactions, in any interleaving. */
  function Run(w: Wiring, s: State, es: seq<Event>): State
    decreases |es|
  {
    if es == [] then s else Run(w, Step(w, s, es[0]), es[1..])
  }

  lemma {:induction false} RunAppend(w: Wiring, s: State, es: seq<Event>, fs: seq<Event>)
    ensures Run(w, s, es + fs) == Run(w, Run(w, s, es), fs)
    decreases |es|
  {
    if es == [] {
      assert es + fs == fs;
    } else {
      assert (es + fs)[1..] == es[1..] + fs;
      RunAppend(w, Step(w, s, es[0]), es[1..], fs);
    }
  }
}
