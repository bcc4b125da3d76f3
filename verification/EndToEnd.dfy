/** The machine wired with the real codec: the store signs the envelope of each fact, JSONB keeps the value of its
    text, the publisher verifies under the signer's public key. UUID and time printing are parameters. */
module EndToEnd {
  import opened Text
  import opened Json
  import opened Signing
  import opened Model
  import opened Machine
  import opened Invariant
  import opened Runs
  import opened Session
  import C = Canonical
  import Digest
  import Grammar
  import M = Message
  import Publisher
  import Uuid

  datatype Service = Service(
    ed: Ed25519, signer: Signer, principalId: string, principalRole: string, uuid: Id -> string,
    parse: string -> Option<Id>, instant: Time -> string)

  ghost predicate Sane(v: Service) {
    Sound(v.ed) && HasPrefix(v.signer.kid, KEY_ID_PREFIX)
  }

  /** What PostgreSQL prints for a UUID it reads as that UUID, and instants print differently. */
  ghost predicate Legible(v: Service) {
    && (forall id: Id :: v.parse(v.uuid(id)) == Some(id))
    && (forall a, b :: v.instant(a) == v.instant(b) ==> a == b)
  }

  /** The concrete printing and reading of UUIDs. */
  function WithUuids(v: Service): Service {
    Service(v.ed, v.signer, v.principalId, v.principalRole, Uuid.Print, Uuid.Parse, v.instant)
  }

  lemma UuidsAreLegible(v: Service)
    requires forall a, b :: v.instant(a) == v.instant(b) ==> a == b
    ensures Legible(WithUuids(v))
  {
    forall id: Id ensures Uuid.Parse(Uuid.Print(id)) == Some(id) { Uuid.RoundTrip(id); }
  }

  function PublicKey(v: Service): seq<byte> {
    v.ed.public(v.signer.privateKey)
  }

  // ---------- the envelope of a fact ----------

  function StatusText(s: Status): string {
    match s
    case Received => "received"
    case Validated => "validated"
    case Rejected => "rejected"
  }

  function TopicText(t: Topic): string {
    if t.TopicPackage? then M.TOPIC_PACKAGE else M.TOPIC_VALIDATION
  }

  function TypeText(t: EventType): string {
    if t.PackageReceived? then "evidence.package.received" else "evidence.validation.recorded"
  }

  function Correlation(f: Fact): string {
    if f.ReceivedFact? then f.row.correlationId else f.request.correlationId
  }

  function OccurredAt(f: Fact): Time {
    if f.ReceivedFact? then f.row.receivedAt else f.request.occurredAt
  }

  /** The subject as text: a creation uses the id the INSERT returned, a decision the caller's own spelling. */
  function SubjectText(v: Service, f: Fact): string {
    if f.ReceivedFact? then v.uuid(f.row.id) else f.request.packageId
  }

  /** The spelling of a decision names its package. */
  predicate Named(v: Service, f: Fact) {
    f.DecisionFact? ==> v.parse(f.request.packageId) == Some(f.subject)
  }

  /** The map each operation passes to enqueueOutbox; json.Marshal writes its keys in order. */
  function DomainPayload(v: Service, f: Fact): Json {
    match f
    case ReceivedFact(p) => Obj([
      Member("classification", Str(p.classification)), Member("content_location", Str(p.contentLocation)),
      Member("content_sha256", Str(p.contentSha256)), Member("evidence_package_id", Str(v.uuid(p.id))),
      Member("evidence_type", Str(p.evidenceType)), Member("external_reference", Str(p.externalReference)),
      Member("received_at", Str(v.instant(p.receivedAt)))])
    case DecisionFact(_, prior, r) => Obj([
      Member("actor_subject_reference", Str(r.actor)), Member("evidence_package_id", Str(r.packageId)),
      Member("occurred_at", Str(v.instant(r.occurredAt))), Member("prior_validation_status", Str(StatusText(prior))),
      Member("reason_code", Str(r.reasonCode)), Member("validation_status", Str(StatusText(r.status)))])
  }

  function PayloadText(v: Service, f: Fact): string {
    Render(GO, DomainPayload(v, f))
  }

  function FactBundle(v: Service, f: Fact, entryId: string): Json {
    M.Bundle(TypeText(FactType(f)), SubjectText(v, f), v.instant(OccurredAt(f)), entryId,
             M.EntryExtensions(PayloadText(v, f), [], map[]))
  }

  /** What Message returns for a fact, given its two random UUIDs. */
  function FactEnvelope(v: Service, f: Fact, entryId: string, eventId: string): Envelope {
    M.Signed(v.ed, v.signer, M.Draft(TypeText(FactType(f)), Correlation(f), v.instant(OccurredAt(f)), eventId,
                                     Provenance(v.principalId, v.principalRole, "", ""), FactBundle(v, f, entryId)))
  }

  /** The outbox may hold this text for the fact: JSONB keeps the value of the marshalled envelope, not its text. */
  ghost predicate Stores(v: Service, f: Fact, text: string) {
    exists entryId, eventId :: SameJsonValue(Render(GO, ToJson(FactEnvelope(v, f, entryId, eventId))), text)
  }

  ghost function Wired(v: Service, batchSize: nat): Wiring {
    Wiring(true, (f, text) => Stores(v, f, text), text => PayloadVerifies(v.ed, PublicKey(v), text), v.parse, batchSize)
  }

  /** enqueueOutbox up to its INSERT: whatever JSONB makes of the text is one the outbox may hold for the fact. It
      fails only for a blank correlation id, subject or principal. */
  method EnvelopeText(v: Service, f: Fact, entryId: string, eventId: string) returns (text: Option<string>)
    ensures text.Some? <==>
      !Blank(Correlation(f)) && !Blank(SubjectText(v, f)) && !Blank(v.principalId) && !Blank(v.principalRole)
    ensures text.Some? ==> forall stored | SameJsonValue(text.value, stored) :: Stores(v, f, stored)
  {
    WritersAreReadable();
    ParseRender(GO, DomainPayload(v, f));
    Grammar.ParsedIsValid(PayloadText(v, f));
    var fields: map<string, string> := map[];
    assert multiset([]) == multiset(fields.Keys);
    assert !Blank(TypeText(FactType(f))) by {
      var t := TypeText(FactType(f));
      assert t[0] in t && !IsSpace(t[0]);
    }
    var envelope := M.Message(
      v.ed, TypeText(FactType(f)), TopicText(FactTopic(f)), Correlation(f), SubjectText(v, f), PayloadText(v, f),
      fields, [],
      Provenance(v.principalId, v.principalRole, "", ""), v.instant(OccurredAt(f)), Some(v.signer), entryId, eventId);
    if envelope.None? { return None; }
    assert M.SortedListing([], fields.Keys);
    assert envelope.value == FactEnvelope(v, f, entryId, eventId);
    return Some(Render(GO, ToJson(envelope.value)));
  }

  // ---------- what the stored text says ----------

  /** The text is that of an envelope about the fact: type, time, correlation, principal, and a bundle whose resource is
      the subject and carries the domain payload. */
  ghost predicate TextSays(v: Service, f: Fact, text: string, entryId: string, eventId: string) {
    && Parse(text).Some?
    && var m := C.Meaning(Parse(text).value);
    && C.TextAt(m, "envelopeVersion") == Some("1.0") && C.TextAt(m, "eventId") == Some(eventId)
    && C.TextAt(m, "eventType") == Some(
         if f.ReceivedFact? then "evidence.package.received" else "evidence.validation.recorded")
    && C.TextAt(m, "occurredAt") == Some(
         v.instant(if f.ReceivedFact? then f.row.receivedAt else f.request.occurredAt))
    && C.TextAt(m, "correlationId") == Some(
         if f.ReceivedFact? then f.row.correlationId else f.request.correlationId)
    && C.TextAt(m, "producer") == Some("maritime-evidence") && C.TextAt(m, "classification") == Some("INTERNAL")
    && C.At(m, "provenance").Some? && C.At(m, "fhir").Some?
    && var provenance := C.At(m, "provenance").value;
    && C.TextAt(provenance, "principalId") == Some(v.principalId)
    && C.TextAt(provenance, "principalRole") == Some(v.principalRole)
    && C.TextAt(provenance, "signature").Some? && C.TextAt(provenance, "ledgerCommitHash").None?
    && M.BundleSays(
         C.At(m, "fhir").value,
         if f.ReceivedFact? then "evidence.package.received" else "evidence.validation.recorded",
         if f.ReceivedFact? then v.uuid(f.row.id) else f.request.packageId,
         v.instant(if f.ReceivedFact? then f.row.receivedAt else f.request.occurredAt), entryId, PayloadText(v, f), [],
         map[])
  }

  lemma StoredSays(v: Service, f: Fact, text: string)
    requires Stores(v, f, text)
    ensures exists entryId, eventId :: TextSays(v, f, text, entryId, eventId)
  {
    hide Sign, C.Meaning, M.BundleSays, DomainPayload, M.Bundle, M.EntryExtensions, Parse, Render, ToJson;
    var entryId, eventId :| SameJsonValue(Render(GO, ToJson(FactEnvelope(v, f, entryId, eventId))), text);
    var e := FactEnvelope(v, f, entryId, eventId);
    WritersAreReadable();
    ParseRender(GO, ToJson(e));
    EnvelopeTold(e);
    M.BundleTold(TypeText(FactType(f)), SubjectText(v, f), v.instant(OccurredAt(f)), entryId, PayloadText(v, f), [],
                 map[]);
    assert TextSays(v, f, text, entryId, eventId);
  }

  /** Every event of a reachable state: the topic and type it is stored under, and what its text says. */
  lemma EventSays(v: Service, batchSize: nat, s: State, e: Id)
    requires e in s.db.outbox && Reachable(Wired(v, batchSize), s)
    ensures var row := s.db.outbox[e]; var f := row.fact;
            && (exists entryId, eventId :: TextSays(v, f, row.payload, entryId, eventId))
            && TopicText(row.topic) == (if f.ReceivedFact? then "evidence.package.v1" else "evidence.validation.v1")
            && TypeText(row.eventType)
               == (if f.ReceivedFact? then "evidence.package.received" else "evidence.validation.recorded")
            && row.id == e && row.package in s.db.packages
            && (f.ReceivedFact? ==> SameRow(f.row, s.db.packages[row.package]))
  {
    hide Reachable, Wired, PackagesOk, HistoryOk, EventsState, AllStated, SameRow, TextSays, Stores;
    ReachableDb(Wired(v, batchSize), s);
    WiredFields(v, batchSize);
    assert EventOk(Wired(v, batchSize), s.db.outbox[e]);
    StoredSays(v, s.db.outbox[e].fact, s.db.outbox[e].payload);
  }

  // ---------- the publisher accepts what the store wrote ----------

  lemma FactSignature(v: Service, f: Fact, entryId: string, eventId: string)
    ensures var e := FactEnvelope(v, f, entryId, eventId); e.provenance.signature == Sign(v.ed, v.signer, e)
  {
    var draft := M.Draft(TypeText(FactType(f)), Correlation(f), v.instant(OccurredAt(f)), eventId,
                         Provenance(v.principalId, v.principalRole, "", ""), FactBundle(v, f, entryId));
    M.SignatureIgnored(v.ed, v.signer, draft, Sign(v.ed, v.signer, draft));
  }

  lemma StoredVerifies(v: Service, f: Fact, text: string)
    requires Sane(v) && Stores(v, f, text)
    ensures PayloadVerifies(v.ed, PublicKey(v), text)
  {
    hide FactEnvelope, PayloadVerifies, Sign;
    var entryId, eventId :| SameJsonValue(Render(GO, ToJson(FactEnvelope(v, f, entryId, eventId))), text);
    FactSignature(v, f, entryId, eventId);
    StoredPayloadVerifies(v.ed, v.signer, FactEnvelope(v, f, entryId, eventId), text);
  }

  /** Whatever the store writes, the publisher accepts. */
  ghost predicate Sealed(w: Wiring) {
    forall f, text :: w.stores(f, text) ==> w.verifies(text)
  }

  lemma WiredIsSealed(v: Service, batchSize: nat)
    requires Sane(v)
    ensures Sealed(Wired(v, batchSize))
  {
    hide Stores, PayloadVerifies;
    forall f, text | Stores(v, f, text) ensures PayloadVerifies(v.ed, PublicKey(v), text) {
      StoredVerifies(v, f, text);
    }
  }

  ghost predicate NoneUnverified(s: State) {
    forall tx <- s.outcomes :: !s.outcomes[tx].Unverified?
  }

  lemma PendingVerifies(w: Wiring, s: State, tx: TxId)
    requires Sealed(w) && Inv(w, s) && tx in s.txs && s.txs[tx].Batch? && s.txs[tx].next < |s.txs[tx].pending|
    ensures w.verifies(s.txs[tx].pending[s.txs[tx].next].payload)
  {
    hide PackagesOk, HistoryOk, EventsState, AllStated, ProgressOk, Compatible, LogOk, OutcomesOk, RowsBegun, SameRow;
    Facts(w, s, tx);
    var p := s.txs[tx].pending[s.txs[tx].next];
    assert PendingOk(s.db, p);
    assert EventOk(w, s.db.outbox[p.id]);
  }

  lemma StepNeverUnverified(w: Wiring, s: State, e: Event)
    requires Sealed(w) && Inv(w, s) && NoneUnverified(s)
    ensures NoneUnverified(Step(w, s, e))
  {
    hide Inv, KeyTaken, KeyClaimed, PackageIdFree, EntryIdFree, EventIdFree, IsKeyHolder, Model.Matches, HasTerminal,
      IsLatest, TerminalClaimed, RowLocked, TriggerAdmits, StoredPackage, ReceivedEntry, DecisionEntry, EventRow,
      ValidCreate, ValidValidation, CreateCommitted, DecisionCommitted, IsSelection, Scan, MarksCommitted, Sealed;
    if e.VerifyNext? && e.tx in s.txs && s.txs[e.tx].Batch? && s.txs[e.tx].next < |s.txs[e.tx].pending| {
      PendingVerifies(w, s, e.tx);
    }
  }

  lemma {:induction false} RunNeverUnverified(w: Wiring, s: State, es: seq<Event>)
    requires Sealed(w) && Inv(w, s) && NoneUnverified(s)
    ensures NoneUnverified(Run(w, s, es))
    decreases |es|
  {
    hide Inv, NoneUnverified, Step;
    if es != [] {
      StepOk(w, s, es[0]);
      StepNeverUnverified(w, s, es[0]);
      RunNeverUnverified(w, Step(w, s, es[0]), es[1..]);
    }
  }

  /** Sign, store, verify over every run: with the store's key no publisher ever stops at a row that does not verify. */
  lemma NeverUnverified(v: Service, batchSize: nat, s: State, tx: TxId)
    requires Sane(v) && Reachable(Wired(v, batchSize), s) && tx in s.outcomes
    ensures !s.outcomes[tx].Unverified?
  {
    hide Inv, Step, Wired;
    var w := Wired(v, batchSize);
    WiredIsSealed(v, batchSize);
    EmptyOk(w);
    var es :| Run(w, EMPTY, es) == s;
    RunNeverUnverified(w, EMPTY, es);
  }

  /** Whatever key signed it, a record is in the log only if its value decodes to an envelope that is well signed under
      the store's public key. */
  lemma LogIsWellSigned(v: Service, batchSize: nat, s: State, k: nat)
    requires Reachable(Wired(v, batchSize), s) && k < |s.log|
    ensures |PublicKey(v)| == 32 && WellSignedText(v.ed, PublicKey(v), s.log[k].value)
  {
    hide Reachable, WellSignedText, PayloadVerifies;
    ReachableOk(Wired(v, batchSize), s);
    LogVerified(Wired(v, batchSize), s, k);
    PayloadVerifiesExactly(v.ed, PublicKey(v), s.log[k].value);
  }

  lemma LogVerified(w: Wiring, s: State, k: nat)
    requires Inv(w, s) && k < |s.log|
    ensures w.verifies(s.log[k].value)
  {
    hide DbOk, RowsBegun, OutcomesOk, TxsOk, HandedOk, InLog;
    assert RecordOk(w, s.db, s.log[k]);
  }

  // ---------- what a consumer of the log learns ----------

  ghost predicate DecodesTo(v: Service, text: string, f: Fact, entryId: string, eventId: string) {
    && Parse(text).Some? && FromJson(Parse(text).value).Some?
    && SameContent(FactEnvelope(v, f, entryId, eventId), FromJson(Parse(text).value).value)
  }

  /** A text whose envelope verifies and says that the history holds this row. */
  ghost predicate Conveys(v: Service, text: string, h: HistoryRow) {
    && PayloadVerifies(v.ed, PublicKey(v), text)
    && exists f, entryId, eventId :: States(f, h) && Named(v, f) && DecodesTo(v, text, f, entryId, eventId)
  }

  lemma StoredConveys(v: Service, f: Fact, text: string, h: HistoryRow)
    requires Sane(v) && Stores(v, f, text) && States(f, h) && Named(v, f)
    ensures Conveys(v, text, h)
  {
    hide FactEnvelope, PayloadVerifies, States, FromJson;
    StoredVerifies(v, f, text);
    var entryId, eventId :| SameJsonValue(Render(GO, ToJson(FactEnvelope(v, f, entryId, eventId))), text);
    var e := FactEnvelope(v, f, entryId, eventId);
    WritersAreReadable();
    ParseRender(GO, ToJson(e));
    DecodedEnvelope(Parse(text).value, e);
    assert DecodesTo(v, text, f, entryId, eventId);
  }

  lemma SameMembers(a: seq<Member>, b: seq<Member>, i: nat)
    requires |a| == |b| && i < |a| && C.DistinctKeys(a) && forall k | 0 <= k < |a| :: a[k].key == b[k].key
    requires C.Meaning(Obj(a)) == C.Meaning(Obj(b))
    ensures C.Meaning(a[i].value) == C.Meaning(b[i].value)
  {
    C.SameKeys(a, b);
  }

  lemma FirstItem(xs: seq<Json>, ys: seq<Json>)
    requires xs != [] && ys != [] && C.Meaning(Arr(xs)) == C.Meaning(Arr(ys))
    ensures C.Meaning(xs[0]) == C.Meaning(ys[0])
  {
    hide C.MeaningMembers;
    assert C.MeaningItems(xs)[0] == C.Meaning(xs[0]) && C.MeaningItems(ys)[0] == C.Meaning(ys[0]);
  }

  /** The bundle's value determines the text of the domain payload inside. */
  lemma BundlePinsPayload(kind: string, subject: string, at: string, entry: string, x: string,
                          kind': string, subject': string, at': string, entry': string, y: string)
    requires x != "" && y != ""
    requires C.Meaning(M.Bundle(kind, subject, at, entry, M.EntryExtensions(x, [], map[])))
          == C.Meaning(M.Bundle(kind', subject', at', entry', M.EntryExtensions(y, [], map[])))
    ensures x == y
  {
    hide C.Meaning;
    var a := M.Bundle(kind, subject, at, entry, M.EntryExtensions(x, [], map[])).members;
    var b := M.Bundle(kind', subject', at', entry', M.EntryExtensions(y, [], map[])).members;
    assert |a[0].key| == 12 && |a[1].key| == 4 && |a[2].key| == 9 && |a[3].key| == 5;
    SameMembers(a, b, 3);
    var p, q := a[3].value.items[0], b[3].value.items[0];
    FirstItem(a[3].value.items, b[3].value.items);
    assert |p.members[0].key| == 7 && |p.members[1].key| == 8;
    SameMembers(p.members, q.members, 1);
    var r, t := p.members[1].value.members, q.members[1].value.members;
    assert |r[0].key| == 12 && |r[1].key| == 2 && |r[2].key| == 4 && |r[3].key| == 9;
    SameMembers(r, t, 3);
    ExtensionsPinPayload(x, y);
  }

  lemma ExtensionsPinPayload(x: string, y: string)
    requires x != "" && y != ""
    requires C.Meaning(Arr(M.EntryExtensions(x, [], map[]))) == C.Meaning(Arr(M.EntryExtensions(y, [], map[])))
    ensures x == y
  {
    assert M.EntryExtensions(x, [], map[]) == [M.Extension(M.STRUCTURE + "domain-payload", x)];
    assert M.EntryExtensions(y, [], map[]) == [M.Extension(M.STRUCTURE + "domain-payload", y)];
    hide C.Meaning;
    var p, q := M.Extension(M.STRUCTURE + "domain-payload", x), M.Extension(M.STRUCTURE + "domain-payload", y);
    FirstItem([p], [q]);
    assert |p.members[0].key| == 3 && |p.members[1].key| == 11;
    SameMembers(p.members, q.members, 1);
    TextMeaning(x);
    TextMeaning(y);
  }

  lemma TextMeaning(x: string)
    ensures C.Meaning(Str(x)) == C.VStr(x)
  {
  }

  lemma StatusTextsApart(a: Status, b: Status)
    ensures StatusText(a) == StatusText(b) ==> a == b
  {
    assert |StatusText(Received)| == 8 && |StatusText(Validated)| == 9 && |StatusText(Rejected)| == 8;
    assert StatusText(Received)[2] == 'c' && StatusText(Rejected)[2] == 'j';
  }

  lemma TypeTextsApart(a: EventType, b: EventType)
    ensures TypeText(a) == TypeText(b) ==> a == b
  {
    assert TypeText(PackageReceived)[9] == 'p' && TypeText(ValidationRecorded)[9] == 'v';
  }

  lemma EqualPayloads(v: Service, f: Fact, g: Fact)
    requires PayloadText(v, f) == PayloadText(v, g)
    ensures DomainPayload(v, f) == DomainPayload(v, g)
  {
    WritersAreReadable();
    ParseRender(GO, DomainPayload(v, f));
    ParseRender(GO, DomainPayload(v, g));
  }

  lemma PayloadPinsRow(v: Service, f: Fact, g: Fact, h: HistoryRow, h': HistoryRow)
    requires Legible(v) && DomainPayload(v, f) == DomainPayload(v, g) && FactType(f) == FactType(g)
    requires Correlation(f) == Correlation(g) && States(f, h) && States(g, h') && Named(v, f) && Named(v, g)
    ensures h.(id := h'.id) == h'
  {
    var a, b := DomainPayload(v, f).members, DomainPayload(v, g).members;
    assert |a| == |b| && forall i | 0 <= i < |a| :: a[i].value == b[i].value;
    if f.ReceivedFact? {
      assert a[3].value.s == b[3].value.s && a[6].value.s == b[6].value.s;
    } else {
      assert a[0].value.s == b[0].value.s && a[1].value.s == b[1].value.s && a[2].value.s == b[2].value.s;
      assert a[3].value.s == b[3].value.s && a[4].value.s == b[4].value.s && a[5].value.s == b[5].value.s;
      StatusTextsApart(f.prior, g.prior);
      StatusTextsApart(f.request.status, g.request.status);
    }
  }

  lemma SameContentJoins(a: Envelope, b: Envelope, c: Envelope)
    requires SameContent(a, c) && SameContent(b, c)
    ensures a.eventType == b.eventType && a.correlationId == b.correlationId && C.Meaning(a.fhir) == C.Meaning(b.fhir)
  {
  }

  /** One text conveys one history row, up to the row's own identifier, which no event carries. */
  lemma ConveysOneRow(v: Service, text: string, h: HistoryRow, h': HistoryRow)
    requires Legible(v) && Conveys(v, text, h) && Conveys(v, text, h')
    ensures h.(id := h'.id) == h'
  {
    hide PayloadVerifies, States, SameContent, C.Meaning, DomainPayload, Sign, M.EntryExtensions, M.Bundle, Legible;
    var f, entryId, eventId :| States(f, h) && Named(v, f) && DecodesTo(v, text, f, entryId, eventId);
    var g, entryId', eventId' :| States(g, h') && Named(v, g) && DecodesTo(v, text, g, entryId', eventId');
    var a, b := FactEnvelope(v, f, entryId, eventId), FactEnvelope(v, g, entryId', eventId');
    SameContentJoins(a, b, FromJson(Parse(text).value).value);
    TypeTextsApart(FactType(f), FactType(g));
    PayloadNotEmpty(v, f);
    PayloadNotEmpty(v, g);
    BundlePinsPayload(a.eventType, SubjectText(v, f), a.occurredAt, entryId, PayloadText(v, f),
                      b.eventType, SubjectText(v, g), b.occurredAt, entryId', PayloadText(v, g));
    EqualPayloads(v, f, g);
    PayloadPinsRow(v, f, g, h, h');
  }

  lemma PayloadNotEmpty(v: Service, f: Fact)
    ensures PayloadText(v, f) != ""
  {
    assert PayloadText(v, f)[0] == '{';
  }

  lemma WiredFields(v: Service, batchSize: nat)
    ensures Wired(v, batchSize).signed && Wired(v, batchSize).batchSize == batchSize
    ensures Wired(v, batchSize).parse == v.parse
    ensures forall f, text :: Wired(v, batchSize).stores(f, text) == Stores(v, f, text)
  {
  }

  lemma AnnouncementConveys(v: Service, batchSize: nat, s: State, e: Id, h: Id)
    requires Announces(s.db, e, h) && Sane(v) && Reachable(Wired(v, batchSize), s)
    ensures e in s.db.outbox && h in s.db.history && Conveys(v, s.db.outbox[e].payload, s.db.history[h])
  {
    hide Reachable, Wired, Conveys, Stores, States, PackagesOk, HistoryOk, EventsState, AllStated, SameRow;
    ReachableDb(Wired(v, batchSize), s);
    assert EventOk(Wired(v, batchSize), s.db.outbox[e]);
    WiredFields(v, batchSize);
    StoredConveys(v, s.db.outbox[e].fact, s.db.outbox[e].payload, s.db.history[h]);
  }

  ghost predicate AllPublished(db: Db) {
    forall id <- db.outbox :: db.outbox[id].publishedAt.Some?
  }

  /** A consumer of the log sees this payload. */
  ghost predicate Shows(log: seq<Record>, text: string) {
    exists e <- Dedup(log) :: Dedup(log)[e].value == text
  }

  lemma RowIsShown(v: Service, batchSize: nat, s: State, h: Id) returns (text: string)
    requires AllPublished(s.db) && h in s.db.history && Sane(v) && Reachable(Wired(v, batchSize), s)
    ensures Shows(s.log, text) && Conveys(v, text, s.db.history[h])
  {
    hide Reachable, Wired, Dedup, Announces, Conveys, DbOk;
    WiredFields(v, batchSize);
    RowAnnouncedOnce(Wired(v, batchSize), s, h);
    LogMirrorsOutbox(Wired(v, batchSize), s);
    var e :| Announces(s.db, e, h);
    AnnouncementConveys(v, batchSize, s, e, h);
    text := s.db.outbox[e].payload;
    assert e in Dedup(s.log) && Dedup(s.log)[e].value == text;
  }

  lemma ShownIsRow(v: Service, batchSize: nat, s: State, text: string) returns (h: Id)
    requires Shows(s.log, text) && Sane(v) && Reachable(Wired(v, batchSize), s)
    ensures h in s.db.history && Conveys(v, text, s.db.history[h])
  {
    hide Reachable, Wired, Dedup, Announces, Conveys, DbOk;
    LogMirrorsOutbox(Wired(v, batchSize), s);
    var e :| e in Dedup(s.log) && Dedup(s.log)[e].value == text;
    EventGroundedOnce(Wired(v, batchSize), s, e);
    h :| Announces(s.db, e, h);
    AnnouncementConveys(v, batchSize, s, e, h);
  }

  /** From history rows to the Kafka log and back, over every interleaving of creators, deciders and crashing
      publishers: whatever the log shows a consumer conveys a history row, and once every event is marked it conveys
      every row, with as many records, duplicates merged, as the history has rows. */
  lemma HistoryFromLog(v: Service, batchSize: nat, s: State)
    requires Sane(v) && Reachable(Wired(v, batchSize), s)
    ensures forall text | Shows(s.log, text) :: exists h <- s.db.history :: Conveys(v, text, s.db.history[h])
    ensures AllPublished(s.db) ==>
      forall h <- s.db.history :: exists text :: Shows(s.log, text) && Conveys(v, text, s.db.history[h])
    ensures AllPublished(s.db) ==> |Dedup(s.log)| == |s.db.history|
  {
    hide Reachable, Wired, Dedup, Announces, Conveys, DbOk, Shows;
    forall text | Shows(s.log, text) ensures exists h <- s.db.history :: Conveys(v, text, s.db.history[h]) {
      var h := ShownIsRow(v, batchSize, s, text);
    }
    if AllPublished(s.db) {
      forall h | h in s.db.history ensures exists text :: Shows(s.log, text) && Conveys(v, text, s.db.history[h]) {
        var text := RowIsShown(v, batchSize, s, h);
      }
      WiredFields(v, batchSize);
      PublishedHistory(Wired(v, batchSize), s);
    }
  }

  /** The log determines the history: two runs of the service, fully published, whose logs show a consumer the same
      payloads have recorded the same chain of custody, row for row up to the rows' identifiers. */
  lemma LogDeterminesHistory(v: Service, batchSize: nat, s: State, s': State, h: Id)
    requires forall text :: Shows(s.log, text) ==> Shows(s'.log, text)
    requires h in s.db.history && AllPublished(s.db) && AllPublished(s'.db) && Sane(v) && Legible(v)
    requires Reachable(Wired(v, batchSize), s) && Reachable(Wired(v, batchSize), s')
    ensures exists h' <- s'.db.history :: s.db.history[h].(id := h') == s'.db.history[h'].(id := h')
  {
    hide Reachable, Wired, Shows, Conveys, Legible, Sane, AllPublished;
    var text := RowIsShown(v, batchSize, s, h);
    var h' := ShownIsRow(v, batchSize, s', text);
    ConveysOneRow(v, text, s.db.history[h], s'.db.history[h']);
  }

  /** The drain loop over the real service: undisturbed, it publishes everything, and what the log then shows a consumer
      is the whole history. */
  method DrainService(worker: Publisher.Worker, ghost v: Service, first: TxId, now: nat -> Time, rounds: nat)
    returns (failed: bool, batches: nat)
    requires worker.database.wiring.batchSize > 0
    requires worker.database.wiring == Wired(v, worker.database.wiring.batchSize)
    requires Sane(v) && worker.database.Valid() && worker.database.Reserved(first)
    modifies worker.database
    ensures old(worker.database.Undisturbed({})) && Publisher.Ceiling(
              |Publisher.Unpublished(old(worker.database.state.db))|, worker.database.wiring.batchSize) <= rounds ==>
      var db, db' := old(worker.database.state.db), worker.database.state.db;
      && !failed && AllPublished(db') && db'.history == db.history && db'.packages == db.packages
      && (forall h <- db.history ::
            exists text :: Shows(worker.database.state.log, text) && Conveys(v, text, db.history[h]))
      && |Dedup(worker.database.state.log)| == |db.history|
  {
    hide Wired, Reachable, Sane, Shows, Conveys, Dedup, Inv, Database.CalmFrom, Database.Foreign, Database.Reserved;
    ghost var w, db := worker.database.wiring, worker.database.state.db;
    worker.database.ValidIsReachable();
    OutboxVerifies(v, w.batchSize, worker.database.state);
    failed, batches := worker.Drain(first, now, rounds);
    worker.database.ValidIsReachable();
    ghost var s := worker.database.state;
    if Publisher.Unpublished(s.db) == {} {
      NoneLeft(s.db);
      HistoryFromLog(v, w.batchSize, s);
    }
  }

  lemma NoneLeft(db: Db)
    requires Publisher.Unpublished(db) == {}
    ensures AllPublished(db)
  {
    forall id | id in db.outbox ensures db.outbox[id].publishedAt.Some? { assert id !in Publisher.Unpublished(db); }
  }

  lemma OutboxVerifies(v: Service, batchSize: nat, s: State)
    requires Sane(v) && Reachable(Wired(v, batchSize), s)
    ensures Publisher.AllVerify(Wired(v, batchSize), s.db)
  {
    hide Reachable, Wired, Sane, PackagesOk, HistoryOk, EventsState, AllStated, SameRow;
    ReachableDb(Wired(v, batchSize), s);
    WiredIsSealed(v, batchSize);
    forall id | id in s.db.outbox ensures Wired(v, batchSize).verifies(s.db.outbox[id].payload) {
      assert EventOk(Wired(v, batchSize), s.db.outbox[id]);
    }
  }

  // ---------- what the payload says ----------

  /** The text the payload gives to a key. */
  function Says(v: Service, f: Fact, key: string): Option<string> {
    var fields := C.MeaningMembers(DomainPayload(v, f).members);
    if key in fields && fields[key].VStr? then Some(fields[key].s) else None
  }

  lemma PayloadKeysDistinct(v: Service, f: Fact)
    ensures C.DistinctKeys(DomainPayload(v, f).members)
  {
    var ms := DomainPayload(v, f).members;
    match f
    case ReceivedFact(_) =>
      assert |ms[0].key| == 14 && |ms[1].key| == 16 && |ms[2].key| == 14 && |ms[3].key| == 19 && |ms[4].key| == 13;
      assert |ms[5].key| == 18 && |ms[6].key| == 11 && ms[0].key[1] == 'l' && ms[2].key[1] == 'o';
    case DecisionFact(_, _, _) =>
      assert ms[0].key[0] == 'a' && ms[1].key[0] == 'e' && ms[2].key[0] == 'o';
      assert ms[3].key[0] == 'p' && ms[4].key[0] == 'r' && ms[5].key[0] == 'v';
  }

  lemma SaysMember(v: Service, f: Fact, i: nat)
    requires i < |DomainPayload(v, f).members|
    ensures var m := DomainPayload(v, f).members[i]; Says(v, f, m.key) == Some(m.value.s)
  {
    PayloadKeysDistinct(v, f);
    C.DistinctLookup(DomainPayload(v, f).members, DomainPayload(v, f).members[i]);
  }

  /** In every reachable state a decision's event says what its history row says: the statuses, reason and actor as the
      row has them, the package in the caller's spelling, which PostgreSQL reads as the row's package, and the instant
      that the row keeps to the microsecond. */
  lemma DecisionTold(v: Service, batchSize: nat, s: State, e: Id, h: Id)
    requires Announces(s.db, e, h) && s.db.outbox[e].fact.DecisionFact? && Reachable(Wired(v, batchSize), s)
    ensures var f, row := s.db.outbox[e].fact, s.db.history[h];
            && Says(v, f, "evidence_package_id") == Some(f.request.packageId)
            && v.parse(f.request.packageId) == Some(row.package)
            && Says(v, f, "occurred_at") == Some(v.instant(f.request.occurredAt))
            && StoredTime(f.request.occurredAt) == row.occurredAt
            && IsTerminal(row.status)
            && Says(v, f, "validation_status") == Some(if row.status == Validated then "validated" else "rejected")
            && row.prior == Some(Received) && Says(v, f, "prior_validation_status") == Some("received")
            && Says(v, f, "reason_code") == Some(row.reasonCode)
            && Says(v, f, "actor_subject_reference") == Some(row.actor)
  {
    hide Says, Reachable, Wired, States, StatusText;
    var w, f, row := Wired(v, batchSize), s.db.outbox[e].fact, s.db.history[h];
    NamedEvent(w, s, e);
    WiredFields(v, batchSize);
    EntryIsOk(w, s, h);
    DecisionRow(f, row);
    DecisionSays(v, f);
    StatusTexts();
  }

  lemma NamedEvent(w: Wiring, s: State, e: Id)
    requires e in s.db.outbox && Reachable(w, s)
    ensures FactNamed(w, s.db.outbox[e].fact)
  {
    hide Reachable, PackagesOk, HistoryOk, EventsState, AllStated, SameRow;
    ReachableDb(w, s);
    assert EventOk(w, s.db.outbox[e]);
  }

  lemma EntryIsOk(w: Wiring, s: State, h: Id)
    requires h in s.db.history && Reachable(w, s)
    ensures EntryOk(s.db.history[h])
  {
    hide Reachable, PackagesOk, OutboxOk, OneEach, StatusAgrees, AllReceived, EntryOk;
    ReachableDb(w, s);
  }

  lemma DecisionRow(f: Fact, h: HistoryRow)
    requires f.DecisionFact? && States(f, h)
    ensures h.package == f.subject && h.prior == Some(f.prior) && h.status == f.request.status && IsTerminal(h.status)
    ensures h.reasonCode == f.request.reasonCode && h.actor == f.request.actor
    ensures h.occurredAt == StoredTime(f.request.occurredAt)
  {
  }

  /** The three statuses as the events write them. */
  lemma StatusTexts()
    ensures StatusText(Received) == "received" && StatusText(Validated) == "validated"
    ensures StatusText(Rejected) == "rejected"
  {
  }

  lemma DecisionSays(v: Service, f: Fact)
    requires f.DecisionFact?
    ensures Says(v, f, "evidence_package_id") == Some(f.request.packageId)
    ensures Says(v, f, "occurred_at") == Some(v.instant(f.request.occurredAt))
    ensures Says(v, f, "validation_status") == Some(StatusText(f.request.status))
    ensures Says(v, f, "prior_validation_status") == Some(StatusText(f.prior))
    ensures Says(v, f, "reason_code") == Some(f.request.reasonCode)
    ensures Says(v, f, "actor_subject_reference") == Some(f.request.actor)
  {
    hide Says;
    forall i: nat | i < 6 { SaysMember(v, f, i); }
    var ms := DomainPayload(v, f).members;
    assert ms[0].key == "actor_subject_reference" && ms[1].key == "evidence_package_id" && ms[2].key == "occurred_at";
    assert ms[3].key == "prior_validation_status" && ms[4].key == "reason_code" && ms[5].key == "validation_status";
  }

  /** The event writes package, time and correlation exactly as the row gives them back if and only if the caller
      wrote them so: the id as PostgreSQL prints it, the time in whole microseconds, the correlation in lower case. */
  lemma WrittenAsStored(v: Service, f: Fact, h: HistoryRow)
    requires Legible(v) && f.DecisionFact? && States(f, h)
    ensures Says(v, f, "evidence_package_id") == Some(v.uuid(h.package)) <==> f.request.packageId == v.uuid(h.package)
    ensures Says(v, f, "occurred_at") == Some(v.instant(h.occurredAt)) <==> f.request.occurredAt % 1000 == 0
    ensures Correlation(f) == h.correlationId <==> forall c <- f.request.correlationId :: !('A' <= c <= 'Z')
  {
    hide Says;
    DecisionSays(v, f);
    LowerFixed(f.request.correlationId);
    assert f.request.occurredAt == StoredTime(f.request.occurredAt) + f.request.occurredAt % 1000;
  }

  /** A creation's event says what the package row says. */
  lemma PackageTold(v: Service, batchSize: nat, s: State, e: Id)
    requires e in s.db.outbox && s.db.outbox[e].fact.ReceivedFact? && Reachable(Wired(v, batchSize), s)
    ensures s.db.outbox[e].package in s.db.packages
    ensures var f, p := s.db.outbox[e].fact, s.db.packages[s.db.outbox[e].package];
            && Says(v, f, "evidence_package_id") == Some(v.uuid(p.id))
            && Says(v, f, "external_reference") == Some(p.externalReference)
            && Says(v, f, "evidence_type") == Some(p.evidenceType)
            && Says(v, f, "content_sha256") == Some(p.contentSha256)
            && Says(v, f, "content_location") == Some(p.contentLocation)
            && Says(v, f, "classification") == Some(p.classification)
            && Says(v, f, "received_at") == Some(v.instant(p.receivedAt))
  {
    hide Says, Reachable, Wired, PackagesOk, HistoryOk, EventsState, AllStated;
    ReachableDb(Wired(v, batchSize), s);
    var f := s.db.outbox[e].fact;
    assert EventOk(Wired(v, batchSize), s.db.outbox[e]) && SameRow(f.row, s.db.packages[s.db.outbox[e].package]);
    forall i: nat | i < 7 { SaysMember(v, f, i); }
    var ms := DomainPayload(v, f).members;
    assert ms[0].key == "classification" && ms[1].key == "content_location" && ms[2].key == "content_sha256";
    assert ms[3].key == "evidence_package_id" && ms[4].key == "evidence_type" && ms[5].key == "external_reference";
    assert ms[6].key == "received_at";
  }

  // ---------- object locations ----------

  /** Every request's location was derived from its key, as createPackage does. */
  predicate LocationsDerived(begun: set<CreateRequest>, bucket: string) {
    forall r <- begun :: r.contentLocation == Digest.ObjectLocation(bucket, r.idempotencyKey)
  }

  /** The two rows were stored by requests that wrote their idempotency keys with the same text. */
  ghost predicate SameKeyText(begun: set<CreateRequest>, p: Package, q: Package) {
    exists r <- begun, t <- begun ::
      r.idempotencyKey == t.idempotencyKey
      && SameRow(StoredPackage(r, p.id, p.createdAt), p) && SameRow(StoredPackage(t, q.id, q.createdAt), q)
  }

  /** Two packages share an object exactly when they are of different tenants whose callers wrote the key with the
      same text: within a tenant locations are unique, and the stored form of the keys does not decide. */
  lemma SharedLocation(w: Wiring, s: State, bucket: string, a: Id, b: Id)
    requires Reachable(w, s) && LocationsDerived(s.begun, bucket) && a in s.db.packages && b in s.db.packages && a != b
    ensures var p, q := s.db.packages[a], s.db.packages[b];
            && (p.contentLocation == q.contentLocation <==>
                  p.tenantId != q.tenantId && SameKeyText(s.begun, p, q))
            && (p.contentLocation == q.contentLocation ==> p.idempotencyKey == q.idempotencyKey)
  {
    hide HistoryOk, OutboxOk, LogOk, OutcomesOk, TxsOk, Reachable, StoredUuid;
    ReachableOk(w, s);
    var p, q := s.db.packages[a], s.db.packages[b];
    assert FromSome(s.begun, p) && FromSome(s.begun, q);
    if p.contentLocation == q.contentLocation {
      var r :| r in s.begun && SameRow(StoredPackage(r, p.id, p.createdAt), p);
      var t :| t in s.begun && SameRow(StoredPackage(t, q.id, q.createdAt), q);
      Digest.LocationRoundTrip(bucket, r.idempotencyKey, t.idempotencyKey);
    }
  }
}
