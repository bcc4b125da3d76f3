/** The evidence entities, the validation of requests, and how a request compares with a stored row. */
module Model {
  import opened Text
  import Digest
  import Hex
  import Uuid

  /** A value of gen_random_uuid(). */
  type Id = Uuid.Id

  /** Nanoseconds since the epoch. */
  type Time = int

  datatype Status = Received | Validated | Rejected

  predicate IsTerminal(s: Status) {
    s == Validated || s == Rejected
  }

  datatype CreateRequest = CreateRequest(
    idempotencyKey: string, tenantId: string, externalReference: string, evidenceType: string, contentSha256: string,
    contentLocation: string, receivedAt: Time, classification: string, correlationId: string)

  /** A decision as its caller makes it: the package id from the path, in the caller's spelling, and the body. */
  datatype ValidationRequest = ValidationRequest(
    packageId: string, status: Status, reasonCode: string, actor: string, occurredAt: Time, correlationId: string)

  /** A row of evidence_packages. */
  datatype Package = Package(
    id: Id, idempotencyKey: string, tenantId: string, externalReference: string, evidenceType: string,
    contentSha256: string, contentLocation: string, receivedAt: Time, classification: string, correlationId: string,
    createdAt: Time, status: Status)

  /** A row of evidence_validation_history. */
  datatype HistoryRow = HistoryRow(
    id: Id, package: Id, prior: Option<Status>, status: Status, reasonCode: string, actor: string,
    occurredAt: Time, correlationId: string)

  // ---------- request validation ----------

  predicate IsUuid(value: string) {
    && |value| == 36
    && forall i | 0 <= i < 36 ::
         if i == 8 || i == 13 || i == 18 || i == 23 then value[i] == '-' else Hex.IsDigit(value[i])
  }

  predicate IsClassification(c: string) {
    c in ["public", "internal", "confidential", "restricted", "highly_restricted"]
  }

  predicate Within(value: string, limit: nat) {
    !Blank(value) && |Utf8(value)| <= limit
  }

  /** time.Time's zero value, midnight of the first of January of year 1. */
  const ZERO_INSTANT: Time := -62135596800 * 1_000_000_000

  /** From there to the epoch there are 1969 years of the Gregorian calendar. */
  lemma ZeroInstant()
    ensures var days := 1969 * 365 + 1969 / 4 - 1969 / 100 + 1969 / 400;
            ZERO_INSTANT == -days * 24 * 60 * 60 * 1_000_000_000
  {
  }

  /** CreateRequest.Validate, except for the shape of the content location. */
  predicate ValidCreate(r: CreateRequest) {
    && IsUuid(r.idempotencyKey) && Within(r.tenantId, 128) && IsUuid(r.correlationId)
    && Within(r.externalReference, 512) && Within(r.evidenceType, 128)
    && Digest.ValidSha256(r.contentSha256) && r.receivedAt != ZERO_INSTANT && IsClassification(r.classification)
  }

  /** ValidationRequest.Validate */
  predicate ValidValidation(r: ValidationRequest) {
    IsTerminal(r.status) && Within(r.reasonCode, 128) && Within(r.actor, 512) && r.occurredAt != ZERO_INSTANT
      && IsUuid(r.correlationId)
  }

  // ---------- stored forms ----------

  function Lower(c: char): char {
    if 'A' <= c <= 'Z' then (c as int + 32) as char else c
  }

  /** How a UUID column gives a value back: in lower case. */
  function StoredUuid(value: string): (r: string)
    ensures |r| == |value| && forall i | 0 <= i < |value| :: r[i] == Lower(value[i])
  {
    if value == "" then "" else [Lower(value[0])] + StoredUuid(value[1..])
  }

  /** How a TIMESTAMPTZ column gives a time back: to the microsecond. */
  function StoredTime(t: Time): Time {
    t / 1000 * 1000
  }

  /** The row that the INSERT of a request stores. */
  function StoredPackage(r: CreateRequest, id: Id, createdAt: Time): Package {
    Package(id, StoredUuid(r.idempotencyKey), r.tenantId, r.externalReference, r.evidenceType, r.contentSha256,
            r.contentLocation, StoredTime(r.receivedAt), r.classification, StoredUuid(r.correlationId),
            createdAt, Received)
  }

  /** createRequestMatchesPackage */
  predicate Matches(r: CreateRequest, existing: Package) {
    && r.idempotencyKey == existing.idempotencyKey
    && r.externalReference == existing.externalReference
    && r.evidenceType == existing.evidenceType
    && r.contentSha256 == existing.contentSha256
    && r.contentLocation == existing.contentLocation
    && r.receivedAt == existing.receivedAt
    && r.classification == existing.classification
    && r.correlationId == existing.correlationId
  }

  /** The request is written the way the columns give values back. */
  predicate InStoredForm(r: CreateRequest) {
    && (forall c <- r.idempotencyKey :: !('A' <= c <= 'Z'))
    && (forall c <- r.correlationId :: !('A' <= c <= 'Z'))
    && r.receivedAt % 1000 == 0
  }

  lemma LowerFixed(value: string)
    ensures StoredUuid(value) == value <==> forall c <- value :: !('A' <= c <= 'Z')
  {
    if StoredUuid(value) == value {
      forall c | c in value ensures !('A' <= c <= 'Z') {
        var i :| 0 <= i < |value| && value[i] == c;
        assert StoredUuid(value)[i] == Lower(value[i]);
      }
    } else {
      var i :| 0 <= i < |value| && StoredUuid(value)[i] != value[i];
      assert value[i] in value;
    }
  }

  /** A value that a column gave back is stored as it is; a stored time is the last whole microsecond. */
  lemma StoredTwice(value: string, t: Time)
    ensures StoredUuid(StoredUuid(value)) == StoredUuid(value)
    ensures StoredTime(t) % 1000 == 0 && StoredTime(t) <= t < StoredTime(t) + 1000
    ensures StoredTime(StoredTime(t)) == StoredTime(t)
  {
  }

  /** Retrying a request finds its own row equal exactly when the request is in stored form; the
      validation also lets upper-case UUIDs and finer times through, whose retries conflict. */
  lemma RetryMatchesExactly(r: CreateRequest, id: Id, createdAt: Time)
    ensures Matches(r, StoredPackage(r, id, createdAt)) <==> InStoredForm(r)
  {
    LowerFixed(r.idempotencyKey);
    LowerFixed(r.correlationId);
    assert r.receivedAt == StoredTime(r.receivedAt) + r.receivedAt % 1000;
  }

  const NIL_UUID: string := seq(36, i => if i == 8 || i == 13 || i == 18 || i == 23 then '-' else '0')
  const ZERO_DIGEST: string := seq(64, i => '0')

  /** A request received one nanosecond past the epoch. */
  const FINE_REQUEST :=
    CreateRequest(NIL_UUID, "tenant", "ref", "type", ZERO_DIGEST, "s3://b/evidence/" + NIL_UUID, 1, "internal",
      NIL_UUID)

  lemma {:induction false} BytesAtMost(s: string)
    ensures |Utf8(s)| <= 4 * |s|
  {
    if s != "" { BytesAtMost(s[1..]); }
  }

  lemma ShortText(s: string)
    requires 1 <= |s| <= 8 && !IsSpace(s[0])
    ensures Within(s, 128) && Within(s, 512)
  {
    BytesAtMost(s);
    assert s[0] in s;
  }

  lemma NilIsUuid()
    ensures IsUuid(NIL_UUID)
  {
  }

  /** A valid request whose own retry conflicts: its time is finer than a microsecond. */
  lemma ValidRetryThatConflicts(id: Id, createdAt: Time)
    ensures ValidCreate(FINE_REQUEST) && !Matches(FINE_REQUEST, StoredPackage(FINE_REQUEST, id, createdAt))
  {
    NilIsUuid();
    hide IsUuid, Within;
    Digest.ValidSha256Exactly(ZERO_DIGEST);
    ShortText(FINE_REQUEST.tenantId);
    ShortText(FINE_REQUEST.externalReference);
    ShortText(FINE_REQUEST.evidenceType);
    RetryMatchesExactly(FINE_REQUEST, id, createdAt);
  }

  // ---------- the immutability trigger ----------

  /** prevent_evidence_package_mutation on an UPDATE: whether it returns NEW instead of raising. */
  predicate TriggerAdmits(old': Package, new': Package) {
    && old'.status == Received
    && IsTerminal(new'.status)
    && new'.id == old'.id
    && new'.idempotencyKey == old'.idempotencyKey
    && new'.tenantId == old'.tenantId
    && new'.externalReference == old'.externalReference
    && new'.evidenceType == old'.evidenceType
    && new'.contentSha256 == old'.contentSha256
    && new'.contentLocation == old'.contentLocation
    && new'.receivedAt == old'.receivedAt
    && new'.classification == old'.classification
    && new'.correlationId == old'.correlationId
    && new'.createdAt == old'.createdAt
  }

  /** The rows agree in everything but the status. */
  predicate SameRow(p: Package, q: Package) {
    p.(status := q.status) == q
  }

  /** The columns the trigger lists are all of them: it admits exactly the one status transition. */
  lemma TriggerIsExact(old': Package, new': Package)
    ensures TriggerAdmits(old', new') <==> old'.status == Received && IsTerminal(new'.status) && SameRow(old', new')
  {
  }
}
