# Maritime evidence: a verified model

This project models the maritime evidence service in Dafny and proves what its store, its outbox publisher and its
envelope signatures promise. `dafny verify dfyconfig.toml` checks all of it.

## The system

**The service as a state machine** (`Machine`, `Invariant`, `Runs`, `Ordering`). The state holds the three committed
tables, every transaction in flight with its staged writes, the outcome of every finished call, and the Kafka log.
Each SQL statement, produce call and commit of `Store.Create`, `Store.RecordValidation` and `publishBatch` is one event,
and events of any number of transactions interleave freely. Any transaction may abort at any point, a commit may take
effect and still be reported as an error, and a record that the producer was given may reach the log late, twice, after
its publisher has rolled back, or unacknowledged. What PostgreSQL
does is written out: `ON CONFLICT DO NOTHING` waits for an uncommitted claim of the same key, a decision reads a snapshot
of the history but the partial unique index sees every committed row, the trigger guards each UPDATE, and
`FOR UPDATE SKIP LOCKED` hands disjoint rows to concurrent publishers. A blocked statement is an event that leaves the
state as it is. `Inv` is the invariant that every event keeps; the theorems of `Runs` hold of every reachable state or
between any two states of a run.

**The calls themselves** (`Session`, `EvidenceStore`, `Publisher`). `Database` is one caller's connection: a class whose
methods run a statement among the events of other sessions, wait, fail, or lose the answer of a commit, as a schedule
says. `Store.Create`, `Store.RecordValidation`, `Worker.PublishBatch` and `Worker.Drain` are the Go control flow over it.
Every call is a run of the machine, so the theorems apply to whatever it answers; and when nothing disturbs it, its
contract says exactly which rows it writes.

**Envelopes and signatures** (`Json`, `Canonical`, `Signing`, `Payload`, `Message`, `Keys`, with `Text` and `Encoding`
below them and `Grammar` and `Syntax` beside them). JSON trees, three writers (RFC 8785 canonical, Go's, JSONB's) and one
reader; the canonical form of RFC 8785 (sections 3.2.2.2 and 3.2.3); base64 in the four forms of Go's library (sections 4
and 5 of RFC 4648); the JWS compact serialization (section 7.1 of RFC 7515); the signing and verification functions, key
decoding, and the message builder with its in-place sort. Ed25519 is a record of functions; the one fact assumed of it, and
only where acceptance is claimed, is that a signature verifies under the public half of its key. `Grammar` is Go's test for
valid JSON and its decoding of an object into a struct of strings; `Syntax` is the grammar of RFC 8259 as trees, and the
proof that the test accepts exactly their texts.

**End to end** (`EndToEnd`, `Witnesses`). `EndToEnd` wires the machine with the real codec and carries the theorems from
history rows to what a consumer of the log can conclude. `Witnesses` holds runs that show where guarantees end.

**The API** (`Api`, `Listing`). `Server.CreatePackage` and `Server.RecordValidation` are the handlers over `Store`: what they
check, what other sessions may do between the check and the commit, and what the caller is told. `Listing` is limit, offset,
order and clearance; `Api` carries its theorems to the states of a run.

**Around the store** (`Model`, `Digest`, `Uuid`): request validation and the immutability trigger, digests and object
locations, UUIDs as PostgreSQL prints and reads them.

## Where the code and its promises part

- Replaying a valid request is answered with the retained row exactly when the request is written the way the columns give
  values back: lower-case UUIDs and a time in whole microseconds. Validation also admits the others, and their retries
  conflict (`Model.RetryMatchesExactly`, `Model.ValidRetryThatConflicts`, `Runs.RetryOutcome`).
- An upload bound to an upper-case digest gets a checksum and can never be confirmed (`Digest.OwnChecksumConfirmed`). The
  request validation keeps such digests out.
- A decision's event carries the package id as its caller spelled it in the path, and PostgreSQL reads many spellings as one
  UUID. The event's text equals the row's exactly when the caller wrote the id as PostgreSQL prints it; likewise its time
  exactly in whole microseconds and its correlation id exactly in lower case (`EndToEnd.WrittenAsStored`,
  `Witnesses.EventsCanSpellOtherwise`). Read as a UUID the text always names the row's package (`EndToEnd.DecisionTold`), so
  a consumer who joins decisions to packages by text alone can miss some.
- Two packages share a location if and only if they are of different tenants and their callers wrote the key with the same
  text; the stored form of the keys does not decide (`EndToEnd.SharedLocation`, `Witnesses.TenantsCanShareLocation`).
- The received event precedes the decision in the log while no two publishing transactions are in flight together; with time
  advancing but two of them, the second can overtake (`Ordering.FirstPublicationOrder`, `Witnesses.PublishersCanOvertake`).
  Running one publisher process is not enough: the session of a crashed one keeps its row locks until PostgreSQL ends it, and
  the restarted process, which skips those rows, is the second.
- Delivery is at least once and not exactly once: a row sent by a publisher that crashes is sent again by the next, and a
  record can land after its publisher has rolled back (`Runs.AtLeastOnce`, `Witnesses.RowsCanBeSentTwice`,
  `Witnesses.RecordsCanLandLate`).
- `integration/README.md:19` says that the package row keeps its status received. Since migration 0004 the row carries the
  terminal status; the model follows the migration and the code.

## Model

| member | source | states |
|---|---|---|
| Runs.RunOk | internal/evidence/store.go:97-289 | From any state in order, after any events whatsoever: committed packages keep everything but a first terminal status, history rows stay as they are, outbox rows keep key, topic and payload and at most get marked |
| Runs.ReachableOk | internal/evidence/store.go:69-289 | Every reachable state satisfies the invariant: all three tables, all transactions in flight, all outcomes and the log are in order |
| Runs.RunRemembers | cmd/evidence-outbox-publisher/main.go:107-168 | No outcome of a call is ever overwritten, the log is append-only, and no acknowledgement or submitted request is forgotten |
| Runs.TerminalExclusivity | db/migrations/0002_terminal_validation_invariant.sql:3-5 | In every reachable state a package's history is exactly one received row, or that and one terminal row whose prior status is received, whatever snapshots the concurrent decisions read |
| Runs.StatusIsDerived | internal/evidence/store.go:262-269 | The status column of a package always equals the fold of its history, in any order of its rows |
| Runs.ReceivedRowHolds | internal/evidence/store.go:120-125 | In every reachable state a received row names reason, actor, time and correlation of its package's creation |
| Runs.PackageHolds | internal/evidence/model.go:76-132 | In every reachable state a package has a digest of 64 lower-case hexadecimal digits, a classification on the ladder, texts within their limits and identifiers and time in stored form |
| Runs.NoImpossibleOutcome | internal/evidence/store.go:146-168 | The immutability trigger is never raised against a decision, and after an insert that yielded no row the retained row is always found |
| Runs.UpdateNeverWaits | internal/evidence/store.go:251-269 | The status update would wait for another decision's lock on the package row, but in a reachable state there is none: who got past the partial index is never kept waiting |
| Runs.OneDecisionWins | internal/evidence/store.go:251-260 | Of all decisions ever attempted on a package at most one succeeds |
| Runs.IdempotentCreate | internal/evidence/store.go:97-169 | Of all calls for one tenant and key at most one reports a creation, and all that succeed return the same package with the same immutable fields |
| Runs.PackageCreatedOnce | internal/evidence/store.go:119-145 | Each key of each package has exactly one package, one received row and, with a signer, one package event |
| Runs.SuccessMeansCreatedOnce | internal/evidence/store.go:141-168 | Whoever ever got a success for a key finds it created exactly once, under the package that was returned |
| Runs.CommittedCreationStays | internal/evidence/store.go:141-144 | Once a creation's commit took effect, even if it was reported as an error, its key has exactly one package, received row and event in every later state |
| Runs.RetryOutcome | internal/evidence/store.go:171-180 | For a key only ever used with one request: in stored form no call conflicts, otherwise no call is answered with the retained row |
| Runs.AtLeastOnce | cmd/evidence-outbox-publisher/main.go:156-166 | A row marked published was acknowledged, and an acknowledged row is in the log, with any number of publishers, crashes and rollbacks |
| Runs.LogIsFaithful | cmd/evidence-outbox-publisher/main.go:144-158 | Every record in the log is that of a committed outbox row, and its payload had passed verification |
| Runs.EqualKeysEqualRecords | cmd/evidence-outbox-publisher/main.go:151-155 | Records of the same key have the same topic and value |
| Runs.PublishersApart | cmd/evidence-outbox-publisher/main.go:113-118 | Publishers in flight hold disjoint rows, all committed and unpublished |
| Runs.DedupHolds | cmd/evidence-outbox-publisher/main.go:151-155 | The log merged by record key shows exactly the keys sent, each with a record that is in the log |
| Runs.LogMirrorsOutbox | cmd/evidence-outbox-publisher/main.go:107-168 | The log merged by record key is always a sub-map of the committed events, contains every marked one, and equals them once all are marked |
| Runs.RowAnnouncedOnce | internal/evidence/store.go:69-95 | With a signer every history row has exactly one event: a package event for a received row, a validation event for a terminal one |
| Runs.EventGroundedOnce | internal/evidence/store.go:88-91 | Every event states exactly one history row |
| Runs.PublishedHistory | cmd/evidence-outbox-publisher/main.go:107-168 | Once all events are marked, the log merged by key is in bijection with the validation history, in both directions and in number |
| Invariant.WinnerPassesTrigger | db/migrations/0004_tenancy.sql:38-58 | The UPDATE of the transaction that won the partial index always satisfies the trigger's guard |
| Invariant.PriorIsReceived | internal/evidence/store.go:237-249 | The prior status that a decision reads from its snapshot is always received |
| Invariant.CreateCommittedOk | internal/evidence/store.go:97-145 | Committing a creation keeps all constraints and cross-table agreements of the tables |
| Invariant.DecisionCommittedOk | internal/evidence/store.go:251-288 | Committing a decision keeps all constraints and cross-table agreements of the tables |
| Invariant.CreateCommitBeside | db/migrations/0004_tenancy.sql:29-30 | A committed creation leaves every other transaction in flight in order |
| Invariant.DecisionCommitBeside | db/migrations/0002_terminal_validation_invariant.sql:3-5 | A committed decision leaves every other transaction in flight in order |
| Invariant.BatchDbOk | cmd/evidence-outbox-publisher/main.go:159-166 | Marking a batch published keeps the outbox in agreement with the history |
| Invariant.InsertPackageOk | internal/evidence/store.go:108-118 | The insert that may wait, yield no row or stage one keeps the invariant: no two transactions stage the same key |
| Invariant.InsertDecisionOk | internal/evidence/store.go:251-260 | The insert under the partial index keeps the invariant: no two transactions stage decisions of one package |
| Invariant.SelectBatchOk | cmd/evidence-outbox-publisher/main.go:113-139 | The locking selection keeps the invariant: no two publishers hold one row |
| Invariant.SendOk | cmd/evidence-outbox-publisher/main.go:151-158 | Producing and acknowledging keep the invariant |
| Invariant.LandOk | cmd/evidence-outbox-publisher/main.go:156-158 | Whatever the producer was given may reach the log at any time without breaking the invariant |
| Invariant.CommitBatchOk | cmd/evidence-outbox-publisher/main.go:164-167 | A batch's commit, reported or not, keeps the invariant: only acknowledged rows get marked |
| Ordering.FirstPublicationOrder | cmd/evidence-outbox-publisher/main.go:113-163 | With one publishing transaction in flight at a time, an advancing clock and decisions begun only on visible packages, every copy of a validation event in the log follows a copy of its package's received event, across any crashes and re-deliveries |
| Ordering.RunOrdered | internal/api/server.go:189-219 | Runs of that discipline keep the ordering invariant of tables, batches and log |
| Ordering.SelectionOrdered | cmd/evidence-outbox-publisher/main.go:113-118 | A batch that selects a decision takes its package's event along, before it, unless that is published already |
| EvidenceStore.Store.Create | internal/evidence/store.go:97-169 | Among any other sessions the answer is the recorded outcome, a success means the key is created exactly once, and only a creation or a failed call can have committed anything; undisturbed, the tables change by exactly the package, the received row and the event, or not at all when the key is taken, and then the answer is the retained package or a conflict |
| EvidenceStore.Store.CompleteCreation | internal/evidence/store.go:119-145 | After the insert returned a row: history row, event and commit, all or nothing |
| EvidenceStore.Store.AnswerFromRetained | internal/evidence/store.go:150-168 | After the insert returned no row: the retained row is found, compared and returned, or the call conflicts, and nothing is committed |
| EvidenceStore.Store.RecordValidation | internal/evidence/store.go:200-289 | Among any other sessions the answer is the recorded outcome, a recorded decision is exactly the one asked for with prior status received, not found means that the package is in no committed table and terminal that it has a committed decision, and only a decision or a failed call can have committed anything; an id that is no UUID changes nothing; undisturbed, the call answers not found or terminal with unchanged tables, or changes exactly one status, one history row and one event |
| EvidenceStore.Store.Get | internal/evidence/store.go:182-198 | The row committed under the id that the text names, missing exactly when there is none, an error for a text that is no UUID; the call's own transaction number is left alone |
| EvidenceStore.Store.CheckAndDecide | internal/evidence/store.go:221-235 | An existing terminal decision is answered as such with unchanged tables |
| EvidenceStore.Store.Decide | internal/evidence/store.go:240-260 | Among any other sessions the history row recorded names the prior status received, and losing the partial index ends the call without a write |
| EvidenceStore.Store.Append | internal/evidence/store.go:251-260 | The history row under the partial index: the decision goes on, or ends without a write |
| EvidenceStore.Store.PersistStatus | internal/evidence/store.go:262-269 | The status update succeeds or the connection fails; the trigger never raises |
| EvidenceStore.FindHolder | internal/evidence/store.go:151-158 | The lookup by tenant and key returns a row that holds the key, and none exactly when no row does |
| EvidenceStore.FindLatest | internal/evidence/store.go:241-247 | The latest history row of a package by time and id, and none exactly when it has none |
| Session.Database.Execute | internal/evidence/store.go:105-118 | A statement either runs in a state where the transaction is as it was, or leaves the transaction as it was |
| Session.Database.Commit | internal/evidence/store.go:141-144 | A commit ends the transaction with its success reported, or with an error that says nothing about whether it took effect |
| Session.RunElsewhere | internal/evidence/store.go:101-105 | Whatever other transactions do, they leave a transaction's own state and outcome alone |
| Session.TraceExtends | internal/evidence/store.go:101-105 | Between any two points of a run the later tables extend the earlier ones and every outcome is kept |
| Publisher.SelectUnpublished | cmd/evidence-outbox-publisher/main.go:113-118 | The selection is of distinct, unpublished, unlocked rows, oldest first, and leaves out only rows no older than those it takes, and only when full |
| Publisher.Worker.PublishNext | cmd/evidence-outbox-publisher/main.go:141-163 | One row: verified, sent, acknowledged and marked, or the batch ends; undisturbed it succeeds exactly when the row verifies, and adds exactly that record |
| Publisher.Worker.Check | cmd/evidence-outbox-publisher/main.go:144-150 | A row that does not verify ends the batch and is not sent |
| Publisher.Worker.Produce | cmd/evidence-outbox-publisher/main.go:151-158 | The record is given to the producer, reaches the log and is acknowledged, or the batch ends with the record in the log or with the producer; undisturbed it adds exactly the row's own record |
| Publisher.Worker.Offer | cmd/evidence-outbox-publisher/main.go:151-155 | From here on the row's own record may land, even if the batch ends before it is in the log |
| Publisher.Worker.Await | cmd/evidence-outbox-publisher/main.go:156-158 | Without an acknowledgement the batch ends and the row stays unmarked, although its record is in the log |
| Publisher.Worker.PublishRows | cmd/evidence-outbox-publisher/main.go:140-167 | Undisturbed, the rows from the front that verify reach the log in order; if all do they are all marked, otherwise none is |
| Publisher.Worker.PublishBatch | cmd/evidence-outbox-publisher/main.go:107-168 | The same for the oldest free rows, at most a batch of them; the count returned is the count marked |
| Publisher.Worker.Drain | cmd/evidence-outbox-publisher/main.go:92-104 | Undisturbed, with n unpublished rows that all verify: every row is marked, the log grows by exactly one record of each of them and nothing else, and exactly n divided by the batch size, rounded up, batches are non-empty |
| Publisher.BatchTakes | cmd/evidence-outbox-publisher/main.go:113-118 | A batch takes all unpublished rows or as many as it can hold, and sends each of them once |
| Publisher.BatchLeaves | cmd/evidence-outbox-publisher/main.go:140-167 | Row by row: the selected rows carry the batch's time and no other row changed, the log grew by topic, id and payload of each in order; or the row after those sent does not verify and no row is marked |
| EndToEnd.EnvelopeText | internal/evidence/store.go:69-95 | The enqueued text exists unless an id or principal is blank, and whatever JSONB makes of it is a text the outbox may hold for that fact |
| EndToEnd.StoredVerifies | cmd/evidence-outbox-publisher/main.go:142-150 | Every text the outbox may hold for a fact passes the publisher's verification under the store's public key |
| EndToEnd.LogIsWellSigned | cmd/evidence-outbox-publisher/main.go:142-158 | In every run a record is in the log only if its value decodes to an envelope that is well signed under the store's public key, whatever the key |
| EndToEnd.StoredSays | internal/evidence/store.go:69-95 | Whatever text JSONB gives back says, key by key, the version, type, time, correlation, producer, principal, subject and domain payload of the fact |
| EndToEnd.EventSays | internal/evidence/store.go:88-91 | So does every event of a reachable state, stored under the topic and type of its fact |
| EndToEnd.NeverUnverified | cmd/evidence-outbox-publisher/main.go:148-150 | Over every run of store and publishers, with the store's key no publisher ever stops at a row that does not verify |
| EndToEnd.HistoryFromLog | cmd/evidence-outbox-publisher/main.go:107-168 | Whatever the log shows a consumer verifies and conveys a history row; once all events are marked it conveys every row, with as many records as the history has rows |
| EndToEnd.ConveysOneRow | internal/evidence/store.go:271-282 | One payload conveys one history row, up to the row identifier that no event carries, whatever spelling of the package id it holds |
| EndToEnd.LogDeterminesHistory | internal/evidence/store.go:283-287 | Two fully published runs that show a consumer the same payloads have the same chain of custody, row for row |
| EndToEnd.DecisionTold | internal/evidence/store.go:271-279 | In every reachable state a decision's event says "validated" or "rejected" as its history row does, the prior status "received", the row's reason and actor, the package in the caller's spelling, which reads as the row's package, and an instant that the row keeps to the microsecond |
| EndToEnd.WrittenAsStored | internal/evidence/store.go:200-282 | The event's id, time and correlation are the row's as texts if and only if the caller wrote the id as PostgreSQL prints it, the time in whole microseconds, the correlation in lower case |
| EndToEnd.UuidsAreLegible | internal/evidence/store.go:207-213 | The concrete printing and reading of UUIDs meet what the theorems ask of them |
| EndToEnd.DrainService | cmd/evidence-outbox-publisher/main.go:92-104 | With the store's own key an undisturbed drain never fails, publishes everything and leaves the history as it was; the log then conveys every history row, with as many records as the history has rows |
| EndToEnd.PackageTold | internal/evidence/store.go:129-138 | In every reachable state the payload of a package's event says what the committed package row says, column by column |
| EndToEnd.BundlePinsPayload | internal/events/envelope.go:142-159 | The value of the message bundle determines the domain payload text inside it |
| EndToEnd.SharedLocation | internal/api/server.go:320-324 | Two packages share an object location if and only if their tenants differ and both rows were stored by requests that wrote the key with the same text; sharing ones have the same stored key |
| Witnesses.TenantsCanShareLocation | internal/api/server.go:322-324 | A reachable state of the signed service in which two tenants' packages share a location |
| Witnesses.PublishersCanOvertake | cmd/evidence-outbox-publisher/main.go:113-118 | A run in which time advances and decisions begin on visible packages, so that only the second publishing transaction breaks the discipline of FirstPublicationOrder, and whose first record is a validation event; payloads are signed and verified |
| Witnesses.RowsCanBeSentTwice | cmd/evidence-outbox-publisher/main.go:156-158 | A run with one record in the log, the abort of the batch that sent it, and a continuation in which another batch has sent the same record again |
| Witnesses.RecordsCanLandLate | cmd/evidence-outbox-publisher/main.go:156-158 | A run with a record handed over and the log empty, the abort of its batch, no transaction in flight and nothing acknowledged, and then the record in the log |
| Witnesses.EventsCanSpellOtherwise | internal/api/server.go:199-219 | A run in which a decision with an upper-case package id, a time finer than a microsecond and an upper-case correlation commits, and its event differs from what the row gives back in all three texts, while the id still names the row's package |
| Witnesses.CanCreate | internal/evidence/store.go:97-145 | From any state without transactions in flight a creation of a free key can run to its end, with exactly its rows added; begun later than everything so far, in a run of advancing time |
| Witnesses.CanDecide | internal/evidence/store.go:200-289 | And so can, from any such reachable state, a decision on a package that has none |
| Signing.CarriedSignature | internal/events/signing.go:233-276 | An envelope carrying the signature made for another is accepted only if it has the same content and the key id has the prefix, without any cryptographic assumption; and if so it is accepted, by soundness of Ed25519 |
| Signing.AcceptedExactly | internal/events/signing.go:229-276 | Verification accepts an envelope if and only if prefix and key are well formed and its signature is an admissible header, its own canonical payload and a signature over both that verifies |
| Signing.PayloadVerifiesExactly | cmd/evidence-outbox-publisher/main.go:142-150 | The publisher accepts an outbox text if and only if the key has 32 bytes and the text decodes to an envelope that is well signed under a key id of this service: it fails closed on every other text |
| Signing.JwsForm | internal/events/signing.go:205-220 | A signature is header, payload and Ed25519 signature over the bytes of both with a dot between, each in unpadded URL base64 |
| Signing.HeaderText | internal/events/signing.go:163-173 | The header is, character by character, alg EdDSA and then the key id |
| Signing.SignedMembers | internal/events/signing.go:177-202 | The signed members are classification, correlationId, envelopeVersion, eventId, eventType, fhir, occurredAt, producer and provenance, in this order, each with its field |
| Signing.EnvelopeTold | internal/events/envelope.go:52-62 | The marshalled envelope gives each field under its key |
| Signing.MissingFields | cmd/evidence-outbox-publisher/main.go:142-144 | An absent or null field is decoded to its zero value |
| Signing.PayloadPinsContent | internal/events/signing.go:177-202 | Two envelopes have the same signed payload if and only if they agree in every field but the signature, bundles compared as JSON values |
| Signing.UnsignedIsDeletion | internal/events/signing.go:188-193 | The signed payload is the text of the decoded envelope with the signature deleted from its provenance |
| Signing.SignatureParts | internal/events/signing.go:240-243 | Splitting a signature at its dots gives exactly the three encoded parts |
| Signing.HeaderRoundTrip | internal/events/signing.go:163-173 | Every key id survives the header's JSON escaping and its encoding |
| Grammar.FieldsOfObject | internal/events/signing.go:247-253 | Decoding a text into a struct of strings offers it exactly the members of the object, in order |
| Grammar.FieldTextExactly | internal/events/signing.go:247-253 | A field is the last string of its name, empty when there is none, and an error exactly when a member of that name is neither string nor null |
| Grammar.FieldNames | internal/events/signing.go:247-250 | Which keys name the header's two fields |
| Signing.StoredPayloadVerifies | internal/events/signing.go:225-276 | Whatever text JSONB gives back for a marshalled signed envelope decodes and verifies under the signer's public key |
| Signing.JsonbTextIsStored | db/migrations/0003_evidence_outbox.sql:14 | JSONB's own text of any reordering of the members, at any depth, is such a text |
| Signing.DecodedEnvelope | internal/events/envelope.go:52-62 | Decoding any text of an envelope's value gives the envelope back, its bundle up to member order |
| Payload.CanonicalBytes | internal/events/signing.go:177-202 | Decoding into maps, deleting the signature in place and encoding in any enumeration order, at any depth, always yields the one canonical payload |
| Payload.Reencode | internal/events/signing.go:182-193 | A tree that goes through maps comes back with the same value |
| Canonical.CanonTextIsCompleteInvariant | internal/events/signing.go:197-201 | Two trees have the same canonical text if and only if they have the same value |
| Canonical.CanonTextIsFixed | internal/events/signing.go:197-201 | Canonical text parses to a tree of the same value whose canonical text it is |
| Canonical.CanonOrder | internal/events/signing.go:197-201 | Members of a canonical object are in increasing order of the UTF-16 code units of their keys, and are members of the object with canonical values (section 3.2.3 of RFC 8785) |
| Canonical.ReorderingKeepsText | internal/events/signing.go:174-176 | Reordering members at any depth does not change the canonical text |
| Canonical.NormalUnique | internal/events/signing.go:174-176 | A value has one tree with sorted members |
| Json.ParseRender | internal/events/signing.go:178-187 | Whatever a writer of the service wrote, the reader recovers the same tree |
| Json.Layout | internal/events/signing.go:197-201 | Objects and arrays are their members and items in order, commas between, without white space except in JSONB output |
| Json.PlainEscapes | internal/events/signing.go:197-201 | The escapes of canonical strings (section 3.2.2.2 of RFC 8785) |
| Json.GoEscapes | internal/events/signing.go:178-181 | Go escapes five more characters |
| Json.OtherEscapes | internal/events/signing.go:182-187 | A solidus, a surrogate pair and an unpaired surrogate are read as Go reads them |
| Grammar.ParsedIsValid | internal/events/envelope.go:114-116 | Every text the reader parses is valid JSON; the payloads the store marshals are accepted |
| Syntax.ValidExactly | internal/events/envelope.go:114-116 | The payload test accepts exactly the texts of the grammar of RFC 8259: every text that a well-formed tree is written as, and no other |
| Uuid.RoundTrip | internal/evidence/store.go:207-213 | What PostgreSQL prints for a UUID it reads as that UUID |
| Uuid.UpperIsSame | internal/evidence/store.go:207-213 | A text in upper case is read as the same UUID |
| Uuid.Printed | internal/evidence/store.go:207-213 | 36 characters, hyphens in their places, each hexadecimal digit of the number at its place |
| Uuid.SpellingsExactly | internal/evidence/store.go:207-213 | A text without braces is read as a UUID if and only if it is eight groups of four digits of either case with or without hyphens between, and then as the number of its digits |
| Uuid.OtherSpellings | internal/evidence/store.go:207-213 | Without hyphens and in braces the text is the same UUID |
| Base64.RoundTrip | internal/events/signing.go:215-219 | Decoding gives back the encoded bytes, in each of the four forms |
| Base64.EncodeInjective | internal/events/signing.go:269-271 | Equal encodings mean equal bytes |
| Base64.EncodedGroup | internal/objstore/objstore.go:208-216 | Three bytes are four letters of the alphabet, six bits each |
| Base64.EncodedRest | internal/objstore/objstore.go:208-216 | One or two bytes left over are two or three letters and the padding |
| Base64.BreaksSkipped | internal/events/signing.go:51-60 | Line breaks anywhere in a text do not count when it is decoded, and every other character does |
| Hex.EncodedByte | internal/objstore/objstore.go:186-206 | A byte is two lower-case digits, the upper half first |
| Text.Utf8RoundTrip | internal/events/signing.go:218 | The UTF-8 bytes of a text determine it |
| Text.Utf8Form | internal/events/signing.go:218 | Lead and continuation bytes carry the bits of the character (section 3 of RFC 3629) |
| Text.TrimExactly | internal/evidence/model.go:76-105 | Trimming takes spaces from both ends and nothing else |
| Keys.ParsePrivateKey | internal/events/signing.go:46-72 | A text in any of the four base64 forms or hexadecimal that encodes 32 bytes gives the expanded seed and one that encodes 64 gives those bytes; there is a key if and only if some decoder yields 32 or 64 bytes, and which one is tried first does not matter |
| Keys.DecodersAgree | internal/events/signing.go:51-60 | For every text all decoders that yield 32 or 64 bytes yield the same bytes, so their order does not matter |
| Keys.EncodedKey | internal/events/signing.go:53-59 | Each of the five encodings of a seed or key decodes to it and survives trimming |
| Keys.NewSigner | internal/events/signing.go:76-94 | A signer exists exactly for a 64-byte key and a decimal epoch, and its key id carries the prefix that verification demands |
| Keys.ValidKeyId | internal/events/signing.go:116-126 | The byte length, trimming and character tests accept exactly 1 to 128 printable characters without blanks |
| Message.SortKeys | internal/events/envelope.go:125-132 | The exchange sort leaves a sorted permutation |
| Message.ListingUnique | internal/events/envelope.go:125-132 | A set of keys has one sorted listing |
| Message.OrderExtensions | internal/events/envelope.go:117-141 | From any enumeration of the map: the domain payload first, then every key once in increasing order; an error exactly when a key is blank |
| Message.Message | internal/events/envelope.go:101-177 | Succeeds exactly on acceptable input with a signer; field by field the envelope is the version, event id, type, time, producer, correlation id, classification and principal it should be, its bundle by key lookup has the entry, resource, subject, type, payload and then every extension in key order, whatever the enumeration order of the extensions, and its signature is the signature of the envelope it returns |
| Message.BundleTold | internal/events/envelope.go:142-159 | What the bundle says, key by key and item by item |
| Message.LessExactly | internal/events/envelope.go:127-131 | Extension keys are ordered by their first differing byte, a prefix before what it begins |
| Model.RetryMatchesExactly | internal/evidence/store.go:171-180 | A request equals its own stored row if and only if it is in stored form |
| Model.StoredTwice | internal/evidence/store.go:108-118 | Stored UUIDs and times are fixed points, and a stored time is the last whole microsecond |
| Model.ValidRetryThatConflicts | internal/evidence/model.go:76-105 | A valid request whose retry conflicts with its own row |
| Model.TriggerIsExact | db/migrations/0004_tenancy.sql:40-55 | The trigger admits exactly the change of status from received to a terminal one |
| Digest.ValidSha256Exactly | internal/evidence/model.go:126-132 | The digests accepted are exactly those of 64 lower-case hexadecimal digits |
| Digest.DigestAgreement | internal/objstore/objstore.go:186-206 | An upload is confirmed if and only if the recorded digest is valid and the stored checksum decodes to its 32 bytes; never without a checksum or after a failed request |
| Digest.OwnChecksumConfirmed | internal/objstore/objstore.go:208-216 | The checksum computed for a digest is confirmed if and only if the digest is valid |
| Digest.LocationRoundTrip | internal/api/server.go:320-332 | A recorded location leads back to the object key, and different idempotency keys never share one |
| Digest.ObjectKeyExactly | internal/api/server.go:326-332 | An object key is what follows the bucket, and there is none outside it |
| Listing.CoversExactly | internal/auth/auth.go:450-471 | A clearance covers a classification exactly when both are on the ladder and the clearance is not below |
| Listing.LimitInRange | internal/api/server.go:334-347 | Whatever the caller sends, the limit is at least 1 and at most the cap |
| Listing.DecimalParameters | internal/api/server.go:339-358 | A decimal limit is understood up to the cap, a decimal offset exactly |
| Listing.NegativeParameters | internal/api/server.go:339-358 | A negative limit is the default and a negative offset is none |
| Listing.UnreadableParameters | internal/api/server.go:334-359 | Absent, blank, non-numeric and out-of-range parameters mean the default limit and no offset |
| Listing.NumeralsAreRead | internal/api/server.go:339-355 | Every signed numeral of 64 bits is read in base ten |
| Listing.List | internal/evidence/store.go:320-364 | An error for a blank tenant, otherwise the page of the tenant's one listing by received time descending and id |
| Listing.ListPackages | internal/api/server.go:270-293 | That page without the rows above the caller's clearance, in order |
| Listing.PagingIsExact | internal/api/server.go:275-287 | Pages at offsets 0, L, 2L and so on, for any limit the server grants, give each covered package of the tenant once, in order, and nothing else |
| Listing.NewestFirst | internal/evidence/store.go:326-331 | A row comes before another exactly when it was received later, or at the same time and has the smaller id |
| Listing.PageHolds | internal/evidence/store.go:326-331 | Row i of a page is row offset + i of the listing |
| Listing.HigherClearanceSeesMore | internal/auth/auth.go:452-471 | What a lower clearance sees is a subsequence of what a higher one sees |
| Listing.ListingOfTenant | internal/evidence/store.go:317-332 | A tenant's listing depends on the tenant's rows only |
| Listing.LoadIsTenantScoped | internal/api/server.go:295-318 | Loading cannot tell another tenant's package from none |
| Listing.LoadedIsListed | internal/api/server.go:298-318 | A package loads exactly when the listing shows it to the clearance, and is not found exactly when the tenant's listing lacks it |
| Listing.ListingExists | internal/evidence/store.go:324-332 | Every table has a listing of every tenant |
| Api.Server.RecordValidation | internal/api/server.go:184-238 | Whatever other sessions do between the check and the commit and however the call ends, if it can have committed a decision then the package is of the caller's tenant and the caller's clearance covers it; on success the committed history row has the caller as its actor, reason, status, time and correlation of the body, prior status received and the path's package, and the row shown has the status just decided; not found, forbidden, bad request and conflict committed nothing and say why; undisturbed, the answer and every column written are exactly determined |
| Api.Server.LoadPackage | internal/api/server.go:298-318 | What is loaded, not found or forbidden is what the committed table says of the package the path names |
| Api.Server.Decide | internal/api/server.go:217-227 | After the checks a decision is never answered with not found; a conflict means that the package has a terminal decision |
| Api.Server.Reload | internal/api/server.go:228-236 | The reloaded row carries the status just decided, whatever happened since |
| Api.Server.CreatePackage | internal/api/server.go:97-155 | Among any other sessions the first creation and every retry answer with a row that holds the body's fields column by column under the caller's tenant, and ask for an upload to the object of the caller's own key text with the digest of the body; the key is created exactly once; a conflict means that a committed row of that tenant and key differs from the body in a column; no tenant and bad requests are answered exactly then, with nothing changed; undisturbed, the answer and every column written are exactly determined |
| Api.LoadIsStable | internal/api/server.go:298-318 | Once a package exists, what loading it answers a caller never changes but for its status |
| Api.DecidedStatus | internal/evidence/store.go:262-269 | From its commit on, a recorded decision shows in its package's status |
| Api.AnsweredRow | internal/evidence/store.go:141-168 | Who creates a package or gets it back gets the row that the request stores, in every column |
| Api.PagesOfReachable | internal/api/server.go:270-293 | In every reachable state each tenant has exactly one listing, and its pages together give each package that the caller may load, once, in order, and nothing else |
| Api.ListingSurvives | internal/evidence/store.go:324-332 | Between two states of a run a tenant's listing keeps every row in its place if and only if no package of the tenant was created |
| Api.PagesFitTogether | internal/api/server.go:275-287 | While no package of the tenant is created, pages served at different times are the pages of one listing, but for the status of the rows |

## Left out

- PostgreSQL itself: statement snapshots, unique-index waiting, row locks, the trigger and atomic commit are taken as stated
  above; serialization failures, deadlocks and constraint errors other than those above are covered as aborts. A decision's
  snapshot covers its reads of the history; the other effects of serializable isolation are not used.
- Row-level security and session configuration: every session is admitted (db/migrations/0003_evidence_outbox.sql:24-34).
- Ed25519, RSA and SHA-256: abstract functions; HEAD requests, produce acknowledgements, clocks and generated UUIDs are inputs.
- Liveness under interference: waiting is bounded by a patience, and draining is claimed only for an undisturbed publisher.
- UUIDs are numbers below 2 to the 128th; the end-to-end theorems hold for any printing and reading of which the reading undoes
  the printing, as the concrete ones do. Times are integers.
- JSON numbers inside envelopes: this service writes none. A domain payload may hold them; it travels as text.
- In stored envelopes: text that is not valid UTF-8, Go's case-insensitive matching of field names and its merging of repeated
  members; JSONB keeps one member of each key. Protected headers are read as Go reads them. Unicode normalisation and the
  nesting limit of Go's JSON decoder.
- `occurredAt` of an envelope is its printed text; reading a time and printing it again is taken to give the same text.
- The shape of `content_location` as a URL, `ParseLocation` and `url.Parse`.
- Decoding of request bodies and the signing of uploads and downloads; a body that does not decode is one input.
- OIDC, trusted proxies, JWKS, TLS, HTTP routing, presigned URLs, configuration, the migration runner and its backfill.
- Session.Database.Execute: the schedule fixes in advance what the other sessions do; it is arbitrary, so every interleaving is
  covered.
- Publisher.Worker.Drain: the loop of `run` never ends by itself; here it takes a number of rounds.
- Publisher.Worker.Produce: a retry inside the producer is an event of the machine and not a step of this method.
- The second check of `Create` for a blank tenant: validation has refused such a request already.
- A failed publisher's published count is only logged and is not compared with the log.
