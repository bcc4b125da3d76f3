/** The API over the store: who may decide, what a caller is told, and listings while the service runs. */
module Api {
  import opened Text
  import opened Model
  import opened Machine
  import opened Invariant
  import opened Runs
  import opened Session
  import opened EvidenceStore
  import Digest
  import Hex
  import Listing

  datatype Principal = Principal(subject: string, tenant: string, clearance: string)

  /** What loadPackage says of a package, given the committed table. */
  function Load(packages: map<Id, Package>, id: Id, caller: Principal): Listing.LoadResult {
    Listing.LoadPackage(packages, id, caller.tenant, caller.clearance)
  }

  // ---------- loading while the service runs ----------

  /** The same answer, but for the status of the package. */
  predicate SameAnswer(before: Listing.LoadResult, after: Listing.LoadResult) {
    if before.Loaded? then after.Loaded? && SameRow(before.record, after.record) else after == before
  }

  /** Once a package exists, what it answers a caller never changes, whatever happens, except for its status. */
  lemma LoadIsStable(w: Wiring, es: seq<Event>, fs: seq<Event>, id: Id, caller: Principal)
    requires es <= fs && id in Run(w, EMPTY, es).db.packages
    ensures id in Run(w, EMPTY, fs).db.packages
    ensures SameAnswer(Load(Run(w, EMPTY, es).db.packages, id, caller), Load(Run(w, EMPTY, fs).db.packages, id, caller))
  {
    hide Run, Listing.ClearanceCovers;
    TraceExtends(w, es, fs);
  }

  /** A recorded decision shows in the status of its package, from then on. */
  lemma DecidedStatus(w: Wiring, s: State, tx: TxId)
    requires tx in s.outcomes && s.outcomes[tx].Decided? && Reachable(w, s)
    ensures var entry := s.outcomes[tx].entry;
            && entry.id in s.db.history && s.db.history[entry.id] == entry
            && entry.package in s.db.packages && s.db.packages[entry.package].id == entry.package
            && s.db.packages[entry.package].status == entry.status
  {
    hide LogOk, HandedOk, TxsOk, RowsBegun, OutboxOk, AllReceived, OneEach, RowsOk, Reachable;
    ReachableOk(w, s);
    assert OutcomeOk(s.db, s.outcomes[tx]);
  }

  // ---------- recordValidation ----------

  /** The decoded body of the request. */
  datatype Body = Body(status: Status, reasonCode: string, occurredAt: Time, correlationId: string)

  /** The request that recordValidation makes of a body: the actor is the caller, the package is the path's. */
  function Request(caller: Principal, path: string, body: Body): ValidationRequest {
    ValidationRequest(
      packageId := path, status := body.status, reasonCode := body.reasonCode, actor := caller.subject,
      occurredAt := body.occurredAt, correlationId := body.correlationId)
  }

  /** The history row of a decision: what the body says, the caller as its actor, in the form the columns store. */
  predicate IsDecisionRow(h: HistoryRow, package: Id, caller: Principal, body: Body) {
    && h.package == package && h.prior == Some(Received) && h.status == body.status
    && h.reasonCode == body.reasonCode && h.actor == caller.subject
    && h.occurredAt == StoredTime(body.occurredAt) && h.correlationId == StoredUuid(body.correlationId)
  }

  datatype Answer =
    | StatusCreated(package: Package, status: Status)
    | StatusBadRequest
    | StatusForbidden
    | StatusNotFound
    | StatusConflict
    | StatusInternalServerError

  /** The decoded body of a creation. */
  datatype CreateBody = CreateBody(
    idempotencyKey: string, externalReference: string, evidenceType: string, contentSha256: string, receivedAt: Time,
    classification: string, correlationId: string)

  datatype CreateAnswer =
    | Upload(package: Package, key: string, sha256: string, created: bool)
    | NoTenant
    | Refused
    | Conflicts
    | Failing

  /** What a handler goes on with after loadPackage, or the answer that was written. */
  datatype Loading = Proceed(record: Package) | Refuse(answer: Answer)

  /** The request that createPackage makes of a body: the tenant is the caller's, the location is derived. */
  function CreateRequestOf(bucket: string, caller: Principal, body: CreateBody): CreateRequest {
    CreateRequest(
      idempotencyKey := body.idempotencyKey, tenantId := caller.tenant, externalReference := body.externalReference,
      evidenceType := body.evidenceType, contentSha256 := body.contentSha256,
      contentLocation := Digest.ObjectLocation(bucket, body.idempotencyKey), receivedAt := body.receivedAt,
      classification := body.classification, correlationId := body.correlationId)
  }

  /** What Validate asks of the fields. */
  predicate AcceptableCreation(caller: Principal, body: CreateBody) {
    && IsUuid(body.idempotencyKey) && IsUuid(body.correlationId)
    && Within(caller.tenant, 128) && Within(body.externalReference, 512) && Within(body.evidenceType, 128)
    && |body.contentSha256| == 64 && Hex.IsLower(body.contentSha256)
    && body.receivedAt != ZERO_INSTANT
    && body.classification in ["public", "internal", "confidential", "restricted", "highly_restricted"]
  }

  /** The row holds what the body says, column by column, as the columns store it. */
  predicate IsRowOf(p: Package, bucket: string, caller: Principal, body: CreateBody) {
    && p.tenantId == caller.tenant && p.idempotencyKey == StoredUuid(body.idempotencyKey)
    && p.externalReference == body.externalReference && p.evidenceType == body.evidenceType
    && p.contentSha256 == body.contentSha256
    && p.contentLocation == "s3://" + bucket + "/evidence/" + body.idempotencyKey
    && p.receivedAt == StoredTime(body.receivedAt) && p.classification == body.classification
    && p.correlationId == StoredUuid(body.correlationId)
  }

  /** The answer to what the store returned; a package outside the bucket has no object key. */
  function AnswerOf(bucket: string, r: CreateResult): CreateAnswer {
    match r
    case Invalid => Refused
    case Conflicting => Conflicts
    case CreateFailed => Failing
    case Done(record, created) =>
      match Digest.ObjectKey(bucket, record.contentLocation)
      case None => Failing
      case Some(key) => Upload(record, key, record.contentSha256, created)
  }

  /** Every column a retry is compared in gives back what the body says. */
  predicate SameColumns(p: Package, bucket: string, body: CreateBody) {
    && p.idempotencyKey == body.idempotencyKey && p.externalReference == body.externalReference
    && p.evidenceType == body.evidenceType && p.contentSha256 == body.contentSha256
    && p.contentLocation == "s3://" + bucket + "/evidence/" + body.idempotencyKey
    && p.receivedAt == body.receivedAt && p.classification == body.classification
    && p.correlationId == body.correlationId
  }

  predicate HoldsKey(p: Package, caller: Principal, body: CreateBody) {
    p.tenantId == caller.tenant && p.idempotencyKey == StoredUuid(body.idempotencyKey)
  }

  /** A committed package of the caller's tenant and key differs from the body in some column. */
  predicate DiffersFromSome(db: Db, bucket: string, caller: Principal, body: CreateBody) {
    exists id <- db.packages ::
      HoldsKey(db.packages[id], caller, body) && !SameColumns(db.packages[id], bucket, body)
  }

  /** What an undisturbed creation answers and leaves in the tables: the retained package or a conflict and nothing
      changed where the key is taken, and otherwise one package, its received row and, with a signer, its event. */
  ghost predicate CreateEffect(w: Wiring, db: Db, bucket: string, caller: Principal, body: CreateBody, at: Time,
                               ids: Uuids, payload: string, a: CreateAnswer, db': Db) {
    var key := "evidence/" + body.idempotencyKey;
    if exists id <- db.packages :: HoldsKey(db.packages[id], caller, body) then
      && db' == db
      && exists id <- db.packages ::
           && HoldsKey(db.packages[id], caller, body)
           && a == if SameColumns(db.packages[id], bucket, body)
                   then Upload(db.packages[id], key, body.contentSha256, false) else Conflicts
    else
      var row := Package(
        id := ids.package, idempotencyKey := StoredUuid(body.idempotencyKey), tenantId := caller.tenant,
        externalReference := body.externalReference, evidenceType := body.evidenceType,
        contentSha256 := body.contentSha256,
        contentLocation := "s3://" + bucket + "/evidence/" + body.idempotencyKey,
        receivedAt := StoredTime(body.receivedAt), classification := body.classification,
        correlationId := StoredUuid(body.correlationId), createdAt := at, status := Received);
      var entry := HistoryRow(
        id := ids.entry, package := ids.package, prior := None, status := Received,
        reasonCode := "evidence_package_received", actor := "system:evidence-service",
        occurredAt := StoredTime(body.receivedAt), correlationId := StoredUuid(body.correlationId));
      var event := OutboxRow(
        id := ids.event, package := ids.package, topic := TopicPackage, eventType := PackageReceived,
        payload := payload, createdAt := at, publishedAt := None, fact := ReceivedFact(row));
      ids.package !in db.packages && Fits(w, db, ReceivedFact(row), ids, payload) ==>
        && a == Upload(row, key, body.contentSha256, true)
        && db'.packages == db.packages[ids.package := row] && db'.history == db.history[ids.entry := entry]
        && db'.outbox == if w.signed then db.outbox[ids.event := event] else db.outbox
  }

  class Server {
    const store: Store
    const bucket: string

    constructor (store: Store, bucket: string)
      ensures this.store == store && this.bucket == bucket
    {
      this.store, this.bucket := store, bucket;
    }

    /** POST /v1/evidence/packages, up to the upload authorization: the key and digest it is asked for. Among any other
        sessions, the first creation and every retry ask for the object of the caller's own key text and the digest of
        the body, and the key of the caller's tenant is created exactly once; the location is never refused. */
    method CreatePackage(tx: TxId, at: Time, caller: Principal, body: Option<CreateBody>, ids: Uuids, payload: string)
      returns (a: CreateAnswer)
      requires store.database.Valid() && store.database.Foreign(tx) && NewTo(store.database.trace, tx)
      modifies store.database
      ensures store.database.Valid() && old(store.database.trace) <= store.database.trace
      ensures a.NoTenant? <==> Blank(caller.tenant)
      ensures a.Refused? <==> !Blank(caller.tenant) && (body.None? || !AcceptableCreation(caller, body.value))
      ensures a.NoTenant? || a.Refused? ==> store.database.state == old(store.database.state)
      ensures a.Conflicts? ==>
        && store.database.Ended(tx, Conflict(CreateRequestOf(bucket, caller, body.value)))
        && DiffersFromSome(store.database.state.db, bucket, caller, body.value)
      ensures a.Failing? ==> Unused(store.database.state, tx) || store.database.Ended(tx, Failed)
      ensures a.Upload? ==>
        && a.key == "evidence/" + body.value.idempotencyKey && a.sha256 == body.value.contentSha256
        && IsRowOf(a.package, bucket, caller, body.value) && a.package.id in store.database.state.db.packages
        && SameRow(a.package, store.database.state.db.packages[a.package.id])
        && CreatedOnce(store.database.wiring, store.database.state.db, caller.tenant,
                       StoredUuid(body.value.idempotencyKey), a.package.id)
      ensures old(store.database.Undisturbed({})) && !a.NoTenant? && !a.Refused? ==>
        CreateEffect(store.database.wiring, old(store.database.state.db), bucket, caller, body.value, at, ids, payload,
                     a, store.database.state.db)
    {
      hide Run, Reachable, IsRowOf, CreateEffect, DiffersFromSome, AcceptableCreation, CreateRequestOf, AnswerOf,
        StoredPackage, SameRow, ValidCreate, StoredUuid, CreatedOnce, UncommittedBy, NewTo, KeyTaken, Fits, Creation,
        AnswersRetained, Database.CalmFrom, Database.Foreign, Database.Reserved;
      if Blank(caller.tenant) { return NoTenant; }
      if body.None? { return Refused; }
      var request := CreateRequestOf(bucket, caller, body.value);
      AcceptedCreation(bucket, caller, body.value);
      if !ValidCreate(request) { return Refused; }
      ghost var calm, db := store.database.Undisturbed({}), store.database.state.db;
      var r := store.Create(tx, at, request, ids, payload);
      store.database.ValidIsReachable();
      a := AnswerOf(bucket, r);
      Answered(store.database.wiring, store.database.state, tx, bucket, caller, body.value, r);
      if calm {
        EffectOfCreate(store.database.wiring, db, bucket, caller, body.value, at, ids, payload, r, a,
                       store.database.state.db);
      }
    }

    /** What loadPackage says of the package that the path names, None when the path names none. */
    ghost function Loads(caller: Principal, path: string): Option<Listing.LoadResult>
      reads store.database
    {
      match store.database.wiring.parse(path)
      case None => None
      case Some(id) => Some(Load(store.database.state.db.packages, id, caller))
    }

    ghost predicate MayDecide(caller: Principal, path: string)
      reads store.database
    {
      Loads(caller, path).Some? && Loads(caller, path).value.Loaded?
    }

    /** loadPackage */
    method LoadPackage(tx: TxId, caller: Principal, path: string) returns (r: Loading)
      requires store.database.Valid() && store.database.Foreign(tx)
      modifies store.database
      ensures store.database.Valid() && old(store.database.trace) <= store.database.trace
      ensures old(NewTo(store.database.trace, tx)) ==> NewTo(store.database.trace, tx)
      ensures match r
              case Proceed(record) => Loads(caller, path) == Some(Listing.Loaded(record))
              case Refuse(StatusForbidden) => Loads(caller, path) == Some(Listing.Forbidden)
              case Refuse(StatusNotFound) => Loads(caller, path) == Some(Listing.NotFound)
              case Refuse(answer) => answer == StatusInternalServerError
      ensures old(store.database.Undisturbed({})) ==>
        && store.database.Undisturbed({}) && store.database.state == old(store.database.state)
        && (r == Refuse(StatusInternalServerError) <==> Loads(caller, path).None?)
    {
      hide Listing.ClearanceCovers, NewTo, UncommittedBy, Database.Foreign, Database.CalmFrom;
      var got := store.Get(tx, path);
      if got.GetFailed? { return Refuse(StatusInternalServerError); }
      if got.Missing? || got.package.tenantId != caller.tenant { return Refuse(StatusNotFound); }
      if !Listing.ClearanceCovers(caller.clearance, got.package.classification) { return Refuse(StatusForbidden); }
      return Proceed(got.package);
    }

    /** The decision was recorded as asked for, and the package shown is the one of the table, with its status. */
    ghost predicate Told(tx: TxId, caller: Principal, path: string, body: Body, ids: Uuids, a: Answer)
      requires a.StatusCreated?
      reads store.database
    {
      && Loads(caller, path) == Some(Listing.Loaded(a.package))
      && store.database.wiring.parse(path) == Some(a.package.id)
      && a.status == body.status == a.package.status
      && ids.entry in store.database.state.db.history
      && var row := store.database.state.db.history[ids.entry];
         row.id == ids.entry && IsDecisionRow(row, a.package.id, caller, body) && store.database.Ended(tx, Decided(row))
    }

    /** The path's package has a terminal decision. */
    ghost predicate IsDecided(path: string)
      reads store.database
    {
      var id := store.database.wiring.parse(path);
      id.Some? && HasTerminal(store.database.state.db.history, id.value)
    }

    /** POST /v1/evidence/packages/{id}/validations; the body is None when it does not decode. Whatever other sessions
        do between the check and the commit, and however the call ends: if it can have committed a decision, the
        package is one of the caller's tenant that the clearance covers. */
    method RecordValidation(tx: TxId, at: Time, caller: Principal, path: string, body: Option<Body>, ids: Uuids,
                            payload: string)
      returns (a: Answer)
      requires store.database.Valid() && store.database.Foreign(tx) && NewTo(store.database.trace, tx)
      modifies store.database
      ensures store.database.Valid() && old(store.database.trace) <= store.database.trace
      ensures UncommittedBy(store.database.trace, tx) || MayDecide(caller, path)
      ensures match a
              case StatusCreated(_, _) => body.Some? && Told(tx, caller, path, body.value, ids, a)
              case StatusInternalServerError => true
              case StatusNotFound => UncommittedBy(store.database.trace, tx)
                                     && Loads(caller, path) == Some(Listing.NotFound)
              case StatusForbidden => UncommittedBy(store.database.trace, tx)
                                      && Loads(caller, path) == Some(Listing.Forbidden)
              case StatusBadRequest => UncommittedBy(store.database.trace, tx) && !Acceptable(caller, body)
              case StatusConflict => UncommittedBy(store.database.trace, tx) && IsDecided(path)
      ensures forall id | old(store.database.Undisturbed({})) && store.database.wiring.parse(path) == Some(id) ::
        ServerEffect(store.database.wiring, old(store.database.state.db), id, caller, path, body, at, ids, payload, a,
                     store.database.state.db)
    {
      hide Run, Listing.LoadPackage, ValidValidation, HasTerminal, DecisionEntry, UncommittedBy, NewTo, Decision, Fits,
        Database.CalmFrom, Database.Foreign, Database.Reserved;
      NewIsUnused(store.database.wiring, store.database.trace, tx);
      var loading := LoadPackage(tx, caller, path);
      NewIsUnused(store.database.wiring, store.database.trace, tx);
      if loading.Refuse? { return loading.answer; }
      if body.None? { return StatusBadRequest; }
      AcceptedDecision(caller, path, body.value);
      if !ValidValidation(Request(caller, path, body.value)) { return StatusBadRequest; }
      a := Decide(tx, at, caller, path, body.value, ids, payload);
    }

    /** The checks have passed. */
    method Decide(tx: TxId, at: Time, caller: Principal, path: string, body: Body, ids: Uuids, payload: string)
      returns (a: Answer)
      requires store.database.Valid() && store.database.Foreign(tx) && NewTo(store.database.trace, tx)
      requires MayDecide(caller, path) && ValidValidation(Request(caller, path, body))
      modifies store.database
      ensures store.database.Valid() && old(store.database.trace) <= store.database.trace && MayDecide(caller, path)
      ensures match a
              case StatusCreated(_, _) => Told(tx, caller, path, body, ids, a)
              case StatusInternalServerError => true
              case StatusConflict => UncommittedBy(store.database.trace, tx) && IsDecided(path)
              case _ => false
      ensures forall id | old(store.database.Undisturbed({})) && store.database.wiring.parse(path) == Some(id) ::
        ServerEffect(store.database.wiring, old(store.database.state.db), id, caller, path, Some(body), at, ids,
                     payload, a, store.database.state.db)
    {
      hide Run, Listing.LoadPackage, ValidValidation, HasTerminal, DecisionEntry, UncommittedBy, NewTo, Decision, Fits,
        Database.CalmFrom, Database.Foreign, Database.Reserved;
      ghost var id, loaded := store.database.wiring.parse(path).value, store.database.trace;
      ghost var calm, db, from := store.database.Undisturbed({}), store.database.state.db, store.database.clock;
      LoadedRow(db.packages, id, caller);
      var r := store.RecordValidation(tx, at, Request(caller, path, body), ids, payload);
      LoadIsStable(store.database.wiring, loaded, store.database.trace, id, caller);
      match r {
        case Terminal => a := StatusConflict;
        case DecisionRecorded(_) =>
          if store.database.CalmFrom(from) {
            CalmStays(store.database, from, store.database.clock);
            DecisionLoads(store.database.wiring, db, id, caller, Request(caller, path, body), at, ids, payload);
          }
          a := Reload(tx, caller, path, body, ids);
        case _ => a := StatusInternalServerError;
      }
      if calm {
        EffectOfDecision(store.database.wiring, db, id, caller, path, body, at, ids, payload, a,
                         store.database.state.db);
      }
    }

    /** After the decision was recorded. */
    method Reload(tx: TxId, caller: Principal, path: string, body: Body, ghost ids: Uuids) returns (a: Answer)
      requires store.database.Valid() && store.database.Foreign(tx) && MayDecide(caller, path)
      requires var id := store.database.wiring.parse(path).value;
               store.database.Ended(tx, Decided(DecisionEntry(id, Received, Request(caller, path, body), ids.entry)))
      modifies store.database
      ensures store.database.Valid() && old(store.database.trace) <= store.database.trace && MayDecide(caller, path)
      ensures a == StatusInternalServerError || (a.StatusCreated? && Told(tx, caller, path, body, ids, a))
      ensures old(store.database.CalmFrom(store.database.clock)) ==>
        a.StatusCreated? && store.database.state == old(store.database.state)
    {
      hide Run, UncommittedBy, NewTo, Database.CalmFrom, Database.Foreign, Listing.ClearanceCovers, Reachable, Inv,
        DecisionEntry;
      ghost var id, decided := store.database.wiring.parse(path).value, store.database.trace;
      var got := store.Get(tx, path);
      LoadIsStable(store.database.wiring, decided, store.database.trace, id, caller);
      store.database.ValidIsReachable();
      DecidedStatus(store.database.wiring, store.database.state, tx);
      DecisionRowOf(id, caller, path, body, ids.entry);
      if !got.Got? { return StatusInternalServerError; }
      return StatusCreated(got.package, body.status);
    }
  }

  lemma AcceptedCreation(bucket: string, caller: Principal, body: CreateBody)
    ensures var r := CreateRequestOf(bucket, caller, body);
            && r.tenantId == caller.tenant && r.idempotencyKey == body.idempotencyKey
            && (ValidCreate(r) <==> AcceptableCreation(caller, body))
  {
    hide IsUuid, Within;
    Digest.ValidSha256Exactly(body.contentSha256);
  }

  /** Whoever creates a package or gets it back gets the row that the request stores. */
  lemma AnsweredRow(w: Wiring, s: State, tx: TxId, r: CreateRequest, p: Package)
    requires tx in s.outcomes && Reachable(w, s)
    requires s.outcomes[tx] == Created(r, p) || s.outcomes[tx] == Machine.Retained(r, p)
    ensures p.id in s.db.packages && SameRow(p, s.db.packages[p.id])
    ensures SameRow(StoredPackage(r, p.id, p.createdAt), p)
  {
    hide DbOk, LogOk, HandedOk, TxsOk, Reachable, StoredUuid;
    ReachableOk(w, s);
    assert OutcomeOk(s.db, s.outcomes[tx]);
    assert FromSome(s.begun, s.db.packages[p.id]);
    var q :| q in s.begun && SameRow(StoredPackage(q, p.id, p.createdAt), s.db.packages[p.id]);
    StoredTwice(q.correlationId, q.receivedAt);
  }

  lemma RowOfBody(p: Package, bucket: string, caller: Principal, body: CreateBody)
    requires SameRow(StoredPackage(CreateRequestOf(bucket, caller, body), p.id, p.createdAt), p)
    ensures IsRowOf(p, bucket, caller, body)
    ensures Digest.ObjectKey(bucket, p.contentLocation) == Some("evidence/" + body.idempotencyKey)
  {
    hide StoredUuid;
    Digest.LocationRoundTrip(bucket, body.idempotencyKey, body.idempotencyKey);
  }

  /** What the recorded outcome means for the answer. */
  lemma Answered(w: Wiring, s: State, tx: TxId, bucket: string, caller: Principal, body: CreateBody, r: CreateResult)
    requires var request := CreateRequestOf(bucket, caller, body);
             && Reachable(w, s)
             && (r.Conflicting? ==> tx in s.outcomes && s.outcomes[tx] == Conflict(request))
             && (r.Done? ==>
                   && tx in s.outcomes
                   && s.outcomes[tx]
                      == if r.created then Created(request, r.package) else Machine.Retained(request, r.package))
    ensures match r
            case Invalid => AnswerOf(bucket, r) == Refused
            case CreateFailed => AnswerOf(bucket, r) == Failing
            case Conflicting => AnswerOf(bucket, r) == Conflicts && DiffersFromSome(s.db, bucket, caller, body)
            case Done(p, created) =>
              && AnswerOf(bucket, r) == Upload(p, "evidence/" + body.idempotencyKey, body.contentSha256, created)
              && IsRowOf(p, bucket, caller, body) && p.id in s.db.packages && SameRow(p, s.db.packages[p.id])
  {
    hide Reachable, DiffersFromSome, Digest.ObjectKey, CreateRequestOf;
    match r
    case Conflicting => ConflictingRow(w, s, tx, bucket, caller, body);
    case Done(p, _) =>
      AnsweredRow(w, s, tx, CreateRequestOf(bucket, caller, body), p);
      RowOfBody(p, bucket, caller, body);
    case _ =>
  }

  lemma ConflictingRow(w: Wiring, s: State, tx: TxId, bucket: string, caller: Principal, body: CreateBody)
    requires tx in s.outcomes && Reachable(w, s)
    requires s.outcomes[tx] == Conflict(CreateRequestOf(bucket, caller, body))
    ensures DiffersFromSome(s.db, bucket, caller, body)
  {
    hide DbOk, LogOk, HandedOk, TxsOk, RowsBegun, Reachable, StoredUuid;
    ReachableOk(w, s);
    assert OutcomeOk(s.db, s.outcomes[tx]);
    var r := CreateRequestOf(bucket, caller, body);
    var id :| id in s.db.packages && SameKey(s.db.packages[id], r.tenantId, StoredUuid(r.idempotencyKey))
      && !Model.Matches(r, s.db.packages[id]);
    MatchesColumns(s.db.packages[id], bucket, caller, body);
    assert HoldsKey(s.db.packages[id], caller, body);
  }

  lemma MatchesColumns(p: Package, bucket: string, caller: Principal, body: CreateBody)
    ensures Model.Matches(CreateRequestOf(bucket, caller, body), p) <==> SameColumns(p, bucket, body)
    ensures SameKey(p, caller.tenant, StoredUuid(body.idempotencyKey)) <==> HoldsKey(p, caller, body)
  {
  }

  lemma EffectOfCreate(w: Wiring, db: Db, bucket: string, caller: Principal, body: CreateBody, at: Time, ids: Uuids,
                       payload: string, r: CreateResult, a: CreateAnswer, db': Db)
    requires r.Conflicting? ==> a == Conflicts
    requires r.Done? ==>
      a == Upload(r.package, "evidence/" + body.idempotencyKey, body.contentSha256, r.created)
    requires var request := CreateRequestOf(bucket, caller, body);
             var row := StoredPackage(request, ids.package, at);
             if KeyTaken(db, request.tenantId, StoredUuid(request.idempotencyKey)) then
               db' == db && AnswersRetained(db, request, r)
             else
               ids.package !in db.packages && Fits(w, db, ReceivedFact(row), ids, payload)
               ==> r == Done(row, true) && db' == Creation(w, db, request, at, ids, payload)
    ensures CreateEffect(w, db, bucket, caller, body, at, ids, payload, a, db')
  {
    hide StoredUuid, Fits, Model.Matches, SameColumns, SameKey, HoldsKey;
    var request := CreateRequestOf(bucket, caller, body);
    forall id | id in db.packages { MatchesColumns(db.packages[id], bucket, caller, body); }
    assert KeyTaken(db, caller.tenant, StoredUuid(body.idempotencyKey))
      <==> exists id <- db.packages :: HoldsKey(db.packages[id], caller, body);
  }

  lemma CalmStays(database: Database, from: nat, to: nat)
    requires database.CalmFrom(from) && from <= to
    ensures database.CalmFrom(to)
  {
  }

  lemma LoadedRow(packages: map<Id, Package>, id: Id, caller: Principal)
    requires Load(packages, id, caller).Loaded?
    ensures id in packages && Load(packages, id, caller).record == packages[id]
  {
  }

  lemma DecisionLoads(w: Wiring, db: Db, id: Id, caller: Principal, r: ValidationRequest, at: Time, ids: Uuids,
                      payload: string)
    requires id in db.packages && Load(db.packages, id, caller).Loaded?
    ensures Load(Decision(w, db, id, r, at, ids, payload).packages, id, caller)
            == Listing.Loaded(db.packages[id].(status := r.status))
  {
    hide Listing.ClearanceCovers;
  }

  /** What Validate asks of the fields. */
  predicate Acceptable(caller: Principal, body: Option<Body>) {
    && body.Some? && body.value.status in [Validated, Rejected]
    && Within(body.value.reasonCode, 128) && Within(caller.subject, 512)
    && body.value.occurredAt != ZERO_INSTANT && IsUuid(body.value.correlationId)
  }

  lemma AcceptedDecision(caller: Principal, path: string, body: Body)
    ensures ValidValidation(Request(caller, path, body)) <==> Acceptable(caller, Some(body))
  {
    hide IsUuid, Within;
  }

  lemma DecisionRowOf(package: Id, caller: Principal, path: string, body: Body, id: Id)
    ensures var row := DecisionEntry(package, Received, Request(caller, path, body), id);
            row.id == id && IsDecisionRow(row, package, caller, body)
  {
    hide StoredUuid;
  }

  /** What an undisturbed call answers and leaves in the tables. */
  ghost predicate ServerEffect(w: Wiring, db: Db, id: Id, caller: Principal, path: string, body: Option<Body>, at: Time,
                               ids: Uuids, payload: string, a: Answer, db': Db) {
    match Load(db.packages, id, caller)
    case NotFound => a == StatusNotFound && db' == db
    case Forbidden => a == StatusForbidden && db' == db
    case Loaded(record) =>
      if !Acceptable(caller, body) then a == StatusBadRequest && db' == db
      else if HasTerminal(db.history, id) then a == StatusConflict && db' == db
      else
        var Body(status, reason, time, correlation) := body.value;
        var entry := HistoryRow(
          id := ids.entry, package := id, prior := Some(Received), status := status, reasonCode := reason,
          actor := caller.subject, occurredAt := StoredTime(time), correlationId := StoredUuid(correlation));
        var fact := DecisionFact(id, Received, ValidationRequest(
          packageId := path, status := status, reasonCode := reason, actor := caller.subject, occurredAt := time,
          correlationId := correlation));
        var event := OutboxRow(
          id := ids.event, package := id, topic := TopicValidation, eventType := ValidationRecorded, payload := payload,
          createdAt := at, publishedAt := None, fact := fact);
        Fits(w, db, fact, ids, payload) ==>
          && a == StatusCreated(record.(status := status), status)
          && db'.packages == db.packages[id := record.(status := status)]
          && db'.history == db.history[ids.entry := entry]
          && db'.outbox == if w.signed then db.outbox[ids.event := event] else db.outbox
  }

  lemma EffectOfDecision(w: Wiring, db: Db, id: Id, caller: Principal, path: string, body: Body, at: Time, ids: Uuids,
                         payload: string, a: Answer, db': Db)
    requires id in db.packages && Load(db.packages, id, caller) == Listing.Loaded(db.packages[id])
    requires ValidValidation(Request(caller, path, body))
    requires HasTerminal(db.history, id) ==> a == StatusConflict && db' == db
    requires !HasTerminal(db.history, id)
             && Fits(w, db, DecisionFact(id, Received, Request(caller, path, body)), ids, payload) ==>
               && a == StatusCreated(db.packages[id].(status := body.status), body.status)
               && db' == Decision(w, db, id, Request(caller, path, body), at, ids, payload)
    ensures ServerEffect(w, db, id, caller, path, Some(body), at, ids, payload, a, db')
  {
    AcceptedDecision(caller, path, body);
    hide Listing.LoadPackage, HasTerminal, Fits, Acceptable, ValidValidation, StoredUuid;
  }

  // ---------- listings while the service runs ----------

  lemma TablesAreKeyed(w: Wiring, s: State)
    requires Reachable(w, s)
    ensures Listing.Keyed(s.db.packages)
  {
    hide Reachable, HistoryOk, OutboxOk;
    ReachableDb(w, s);
  }

  /** In every reachable state each tenant has one listing, and going through its pages, with any limit the server
      grants, gives each package that the clearance covers, once, in order, and nothing else. */
  lemma PagesOfReachable(w: Wiring, s: State, caller: Principal, l: Listing.Limits, parameter: string)
    returns (rows: seq<Package>)
    requires Listing.ValidLimits(l) && Reachable(w, s)
    ensures Listing.IsListing(s.db.packages, caller.tenant, rows)
    ensures forall other | Listing.IsListing(s.db.packages, caller.tenant, other) :: other == rows
    ensures Listing.ParseLimit(l, parameter) >= 1
    ensures forall pages: nat | pages * Listing.ParseLimit(l, parameter) >= |rows| ::
      var all := Listing.Paged(caller.clearance, rows, Listing.ParseLimit(l, parameter), pages);
      Listing.InOrder(all)
      && forall p :: p in all <==> p.id in s.db.packages && Load(s.db.packages, p.id, caller) == Listing.Loaded(p)
  {
    hide Reachable, Listing.ParseLimit, Listing.IsListing, Listing.InOrder, Listing.ClearanceCovers, Listing.Paged;
    TablesAreKeyed(w, s);
    Listing.LimitInRange(l, parameter);
    rows := Listing.ListingExists(s.db.packages, caller.tenant);
    forall other | Listing.IsListing(s.db.packages, caller.tenant, other) ensures other == rows {
      Listing.ListingOfTenant(s.db.packages, s.db.packages, caller.tenant, other, rows);
    }
    forall pages: nat | pages * Listing.ParseLimit(l, parameter) >= |rows| {
      Listing.PagingIsExact(s.db.packages, caller.tenant, rows, caller.clearance, l, parameter, pages);
    }
  }

  /** The same packages in the same places; only their status may differ. */
  predicate Aligned(rows: seq<Package>, rows': seq<Package>) {
    |rows| == |rows'| && forall i | 0 <= i < |rows| :: SameRow(rows[i], rows'[i])
  }

  predicate NoneAdded(packages: map<Id, Package>, packages': map<Id, Package>, tenant: string) {
    forall id <- packages' :: packages'[id].tenantId == tenant ==> id in packages
  }

  /** Between two states of a run a tenant's listing keeps every row in its place if and only if no package of the
      tenant was created: decisions, publishers and other tenants do not move rows. */
  lemma ListingSurvives(w: Wiring, es: seq<Event>, fs: seq<Event>, tenant: string, rows: seq<Package>,
                        rows': seq<Package>)
    requires es <= fs && Listing.IsListing(Run(w, EMPTY, es).db.packages, tenant, rows)
    requires Listing.IsListing(Run(w, EMPTY, fs).db.packages, tenant, rows')
    ensures Aligned(rows, rows') <==>
            NoneAdded(Run(w, EMPTY, es).db.packages, Run(w, EMPTY, fs).db.packages, tenant)
  {
    hide Run;
    TraceExtends(w, es, fs);
    TablesAreKeyed(w, Run(w, EMPTY, es));
    TablesAreKeyed(w, Run(w, EMPTY, fs));
    var packages, packages' := Run(w, EMPTY, es).db.packages, Run(w, EMPTY, fs).db.packages;
    assert forall id <- packages :: id in packages' && SameRow(packages[id], packages'[id]);
    if NoneAdded(packages, packages', tenant) { UpdatedListing(packages, packages', tenant, rows, rows'); }
    if Aligned(rows, rows') { AlignedAddsNone(packages, packages', tenant, rows, rows'); }
  }

  lemma UpdatedListing(packages: map<Id, Package>, packages': map<Id, Package>, tenant: string, rows: seq<Package>,
                       rows': seq<Package>)
    requires Listing.Keyed(packages) && Listing.Keyed(packages') && NoneAdded(packages, packages', tenant)
    requires forall id <- packages :: id in packages' && SameRow(packages[id], packages'[id])
    requires Listing.IsListing(packages, tenant, rows) && Listing.IsListing(packages', tenant, rows')
    ensures Aligned(rows, rows')
  {
    assert forall i | 0 <= i < |rows| :: rows[i] in rows && Listing.OfTenant(packages, tenant, rows[i]);
    var updated := seq(|rows|, i requires 0 <= i < |rows| => packages'[rows[i].id]);
    forall p ensures p in updated <==> Listing.OfTenant(packages', tenant, p) {
      if Listing.OfTenant(packages', tenant, p) {
        assert Listing.OfTenant(packages, tenant, packages[p.id]);
        var i :| 0 <= i < |rows| && rows[i] == packages[p.id];
        assert updated[i] == p;
      }
    }
    Listing.SameRows(updated, rows');
  }

  lemma AlignedAddsNone(packages: map<Id, Package>, packages': map<Id, Package>, tenant: string, rows: seq<Package>,
                        rows': seq<Package>)
    requires Listing.Keyed(packages') && Aligned(rows, rows')
    requires Listing.IsListing(packages, tenant, rows) && Listing.IsListing(packages', tenant, rows')
    ensures NoneAdded(packages, packages', tenant)
  {
    forall id | id in packages' && packages'[id].tenantId == tenant ensures id in packages {
      assert Listing.OfTenant(packages', tenant, packages'[id]);
      var i :| 0 <= i < |rows'| && rows'[i] == packages'[id];
      assert rows[i] in rows && Listing.OfTenant(packages, tenant, rows[i]);
    }
  }

  lemma {:induction false} VisibleAligned(clearance: string, rows: seq<Package>, rows': seq<Package>)
    requires Aligned(rows, rows')
    ensures Aligned(Listing.Visible(clearance, rows), Listing.Visible(clearance, rows'))
  {
    hide Listing.ClearanceCovers;
    if rows != [] { VisibleAligned(clearance, rows[..|rows| - 1], rows'[..|rows'| - 1]); }
  }

  /** So pages served at different times fit together while no package of the tenant is created: each is, but for the
      status of its rows, the page of the one listing, and PagesOfReachable says what they hold together. */
  lemma PagesFitTogether(w: Wiring, es: seq<Event>, fs: seq<Event>, caller: Principal, rows: seq<Package>,
                         rows': seq<Package>, limit: nat, offset: nat)
    requires es <= fs && Listing.IsListing(Run(w, EMPTY, es).db.packages, caller.tenant, rows)
    requires Listing.IsListing(Run(w, EMPTY, fs).db.packages, caller.tenant, rows')
    requires NoneAdded(Run(w, EMPTY, es).db.packages, Run(w, EMPTY, fs).db.packages, caller.tenant)
    ensures Aligned(Listing.Visible(caller.clearance, Listing.Page(rows, limit, offset)),
                    Listing.Visible(caller.clearance, Listing.Page(rows', limit, offset)))
  {
    hide Run, Listing.IsListing, NoneAdded, Listing.Visible;
    ListingSurvives(w, es, fs, caller.tenant, rows, rows');
    VisibleAligned(caller.clearance, Listing.Page(rows, limit, offset), Listing.Page(rows', limit, offset));
  }
}
