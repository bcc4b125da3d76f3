/** Envelopes and their provenance signature, a JWS compact serialization (section 7.1 of RFC 7515).
    Ed25519 is a parameter: a record of functions. */
module Signing {
  import opened Text
  import opened Json
  import opened Canonical
  import Base64
  import Grammar

  const ALGORITHM := "EdDSA"
  const KEY_ID_PREFIX := "maritime-evidence-"
  const ZERO_TIME := "0001-01-01T00:00:00Z"
  const SEED_SIZE := 32
  const PRIVATE_KEY_SIZE := 64
  const PUBLIC_KEY_SIZE := 32

  datatype Provenance = Provenance(
    principalId: string, principalRole: string, signature: string, ledgerCommitHash: string)

  /** The event contract; fhir is the message bundle, raw JSON to this service, and occurredAt its RFC 3339 text. */
  datatype Envelope = Envelope(
    envelopeVersion: string, eventId: string, eventType: string, occurredAt: string, producer: string,
    correlationId: string, classification: string, fhir: Json, provenance: Provenance)
  {
    function Carrying(signature: string): Envelope {
      this.(provenance := provenance.(signature := signature))
    }
  }

  // ---------- envelopes as JSON ----------

  const ENVELOPE_KEYS: seq<string> :=
    ["envelopeVersion", "eventId", "eventType", "occurredAt", "producer", "correlationId", "classification", "fhir",
      "provenance"]

  function EnvelopeValues(e: Envelope, withSignature: bool): seq<Json> {
    [Str(e.envelopeVersion), Str(e.eventId), Str(e.eventType), Str(e.occurredAt), Str(e.producer),
     Str(e.correlationId), Str(e.classification), e.fhir, ProvenanceJson(e.provenance, withSignature)]
  }

  function Zip(keys: seq<string>, values: seq<Json>): (ms: seq<Member>)
    requires |keys| == |values|
    ensures |ms| == |keys| && forall i | 0 <= i < |ms| :: ms[i] == Member(keys[i], values[i])
  {
    seq(|keys|, i requires 0 <= i < |keys| => Member(keys[i], values[i]))
  }

  function EnvelopeMembers(e: Envelope, withSignature: bool): seq<Member> {
    Zip(ENVELOPE_KEYS, EnvelopeValues(e, withSignature))
  }

  function SignatureMember(p: Provenance): Member {
    Member("signature", Str(p.signature))
  }

  function PrincipalMembers(p: Provenance): seq<Member> {
    [Member("principalId", Str(p.principalId)), Member("principalRole", Str(p.principalRole))]
  }

  /** Omitted when empty. */
  function LedgerMembers(p: Provenance): seq<Member> {
    if p.ledgerCommitHash == "" then [] else [Member("ledgerCommitHash", Str(p.ledgerCommitHash))]
  }

  function ProvenanceMembers(p: Provenance, withSignature: bool): seq<Member> {
    if withSignature then PrincipalMembers(p) + [SignatureMember(p)] + LedgerMembers(p)
    else PrincipalMembers(p) + LedgerMembers(p)
  }

  function ProvenanceJson(p: Provenance, withSignature: bool): Json {
    Obj(ProvenanceMembers(p, withSignature))
  }

  /** json.Marshal of an envelope, as a tree. */
  function ToJson(e: Envelope): Json {
    Obj(EnvelopeMembers(e, true))
  }

  /** The tree without the signature member. */
  function Unsigned(e: Envelope): Json {
    Obj(EnvelopeMembers(e, false))
  }

  /** The decoded map with the signature deleted from its provenance block; None when there is no such block. */
  function DeleteSignature(v: Value): Option<Value> {
    if v.VObj? && "provenance" in v.fields && v.fields["provenance"].VObj? then
      Some(VObj(v.fields["provenance" := VObj(v.fields["provenance"].fields - {"signature"})]))
    else None
  }

  function CanonicalPayload(e: Envelope): string {
    CanonText(Unsigned(e))
  }

  lemma EnvelopeKeysDistinct(e: Envelope, withSignature: bool)
    ensures DistinctKeys(EnvelopeMembers(e, withSignature))
  {
    var lengths := [15, 7, 9, 10, 8, 13, 14, 4, 10];
    assert forall i | 0 <= i < 9 :: |ENVELOPE_KEYS[i]| == lengths[i];
    assert ENVELOPE_KEYS[3][0] == 'o' && ENVELOPE_KEYS[8][0] == 'p';
  }

  lemma ProvenanceKeysDistinct(p: Provenance, withSignature: bool)
    ensures DistinctKeys(ProvenanceMembers(p, withSignature))
  {
    var ms := ProvenanceMembers(p, withSignature);
    assert |ms[0].key| == 11 && |ms[1].key| == 13;
    assert |SignatureMember(p).key| == 9;
    assert forall m <- LedgerMembers(p) :: |m.key| == 16;
  }

  lemma ProvenanceWithoutSignature(p: Provenance)
    ensures MeaningMembers(ProvenanceMembers(p, false)) == MeaningMembers(ProvenanceMembers(p, true)) - {"signature"}
  {
    ProvenanceKeysDistinct(p, true);
    DropMember(PrincipalMembers(p), SignatureMember(p), LedgerMembers(p));
  }

  lemma ProvenanceIsLast(e: Envelope)
    ensures var front := EnvelopeMembers(e, true)[..8];
            && EnvelopeMembers(e, true) == front + [Member("provenance", ProvenanceJson(e.provenance, true))]
            && EnvelopeMembers(e, false) == front + [Member("provenance", ProvenanceJson(e.provenance, false))]
  {
    hide ProvenanceJson;
  }

  /** What canonicalPayload renders: the decoded envelope with the signature deleted. */
  lemma UnsignedIsDeletion(e: Envelope)
    ensures DeleteSignature(Meaning(ToJson(e))) == Some(Meaning(Unsigned(e)))
    ensures Parse(CanonicalPayload(e)).Some?
    ensures Some(Meaning(Parse(CanonicalPayload(e)).value)) == DeleteSignature(Meaning(ToJson(e)))
  {
    hide MeaningMembers, ProvenanceMembers, CanonText, EnvelopeValues;
    var a, b := EnvelopeMembers(e, true), EnvelopeMembers(e, false);
    var front, p := a[..8], e.provenance;
    ProvenanceIsLast(e);
    LastMember(front, Member("provenance", ProvenanceJson(p, true)));
    LastMember(front, Member("provenance", ProvenanceJson(p, false)));
    ProvenanceWithoutSignature(p);
    var kept := VObj(MeaningMembers(ProvenanceMembers(p, false)));
    assert MeaningMembers(a)["provenance" := kept] == MeaningMembers(b);
    CanonTextIsFixed(Unsigned(e));
  }

  // ---------- what an envelope's text says ----------

  /** The provenance block, key by key; the ledger hash is there when it is not empty. */
  ghost predicate ProvenanceSays(v: Value, p: Provenance) {
    && TextAt(v, "principalId") == Some(p.principalId) && TextAt(v, "principalRole") == Some(p.principalRole)
    && TextAt(v, "signature") == Some(p.signature)
    && TextAt(v, "ledgerCommitHash") == if p.ledgerCommitHash == "" then None else Some(p.ledgerCommitHash)
  }

  /** The marshalled envelope, key by key. */
  ghost predicate EnvelopeSays(v: Value, e: Envelope) {
    && TextAt(v, "envelopeVersion") == Some(e.envelopeVersion) && TextAt(v, "eventId") == Some(e.eventId)
    && TextAt(v, "eventType") == Some(e.eventType) && TextAt(v, "occurredAt") == Some(e.occurredAt)
    && TextAt(v, "producer") == Some(e.producer) && TextAt(v, "correlationId") == Some(e.correlationId)
    && TextAt(v, "classification") == Some(e.classification) && At(v, "fhir") == Some(Meaning(e.fhir))
    && At(v, "provenance").Some? && ProvenanceSays(At(v, "provenance").value, e.provenance)
  }

  lemma ProvenanceTold(p: Provenance)
    ensures ProvenanceSays(Meaning(ProvenanceJson(p, true)), p)
  {
    hide MeaningMembers;
    var ms := ProvenanceMembers(p, true);
    ProvenanceKeysDistinct(p, true);
    assert ms[0].key == "principalId" && ms[1].key == "principalRole" && ms[2].key == "signature";
    forall i: nat | i < |ms| { MemberSays(ms, i); }
    if p.ledgerCommitHash == "" {
      assert |ms| == 3 && |ms[0].key| == 11 && |ms[1].key| == 13 && |ms[2].key| == 9 && |"ledgerCommitHash"| == 16;
      MeaningKeys(ms, "ledgerCommitHash");
    } else {
      assert ms[3] == Member("ledgerCommitHash", Str(p.ledgerCommitHash));
    }
  }

  lemma EnvelopeTold(e: Envelope)
    ensures EnvelopeSays(Meaning(ToJson(e)), e)
  {
    hide MeaningMembers, ProvenanceSays, ProvenanceJson;
    var ms := EnvelopeMembers(e, true);
    EnvelopeKeysDistinct(e, true);
    ProvenanceTold(e.provenance);
    forall i: nat | i < 9 { MemberSays(ms, i); }
    assert ms[0].key == "envelopeVersion" && ms[1].key == "eventId" && ms[2].key == "eventType";
    assert ms[3].key == "occurredAt" && ms[4].key == "producer" && ms[5].key == "correlationId";
    assert ms[6].key == "classification" && ms[7].key == "fhir" && ms[8].key == "provenance";
  }

  // ---------- the order of the signed members ----------

  function SignedProvenance(p: Provenance): Json {
    Obj((if p.ledgerCommitHash == "" then [] else [Member("ledgerCommitHash", Str(p.ledgerCommitHash))])
        + [Member("principalId", Str(p.principalId)), Member("principalRole", Str(p.principalRole))])
  }

  /** The signed tree, member by member in the order of RFC 8785. */
  lemma SignedMembers(e: Envelope)
    ensures Canon(Unsigned(e)) == Obj([
              Member("classification", Str(e.classification)), Member("correlationId", Str(e.correlationId)),
              Member("envelopeVersion", Str(e.envelopeVersion)), Member("eventId", Str(e.eventId)),
              Member("eventType", Str(e.eventType)), Member("fhir", Canon(e.fhir)),
              Member("occurredAt", Str(e.occurredAt)), Member("producer", Str(e.producer)),
              Member("provenance", SignedProvenance(e.provenance))])
  {
    hide SignedProvenance, Canon, MeaningMembers, Sorted, NormalMembers;
    var ms := InSignedOrder(e);
    SignedOrder(e);
    SignedNormal(e);
    SignedMeaning(e);
    CanonCorrect(Unsigned(e));
    NormalUnique(Canon(Unsigned(e)), Obj(ms));
  }

  function InSignedOrder(e: Envelope): seq<Member> {
    [Member("classification", Str(e.classification)), Member("correlationId", Str(e.correlationId)),
     Member("envelopeVersion", Str(e.envelopeVersion)), Member("eventId", Str(e.eventId)),
     Member("eventType", Str(e.eventType)), Member("fhir", Canon(e.fhir)), Member("occurredAt", Str(e.occurredAt)),
     Member("producer", Str(e.producer)), Member("provenance", SignedProvenance(e.provenance))]
  }

  lemma SignedOrder(e: Envelope)
    ensures Sorted(InSignedOrder(e))
  {
    hide KeyLess, Canon, SignedProvenance;
    PlainKeyLess("classification", "correlationId", 1);
    PlainKeyLess("correlationId", "envelopeVersion", 0);
    PlainKeyLess("envelopeVersion", "eventId", 1);
    PlainKeyLess("eventId", "eventType", 5);
    PlainKeyLess("eventType", "fhir", 0);
    PlainKeyLess("fhir", "occurredAt", 0);
    PlainKeyLess("occurredAt", "producer", 0);
    PlainKeyLess("producer", "provenance", 3);
    SortedByNeighbours(InSignedOrder(e));
  }

  lemma ProvenanceNormal(p: Provenance)
    ensures Normal(SignedProvenance(p))
  {
    hide KeyLess, NormalMembers;
    PlainKeyLess("ledgerCommitHash", "principalId", 0);
    PlainKeyLess("principalId", "principalRole", 9);
    var ms := SignedProvenance(p).members;
    if p.ledgerCommitHash == "" {
      assert |ms| == 2 && ms[0].key == "principalId" && ms[1].key == "principalRole";
    } else {
      assert |ms| == 3 && ms[0].key == "ledgerCommitHash" && ms[1].key == "principalId" && ms[2].key == "principalRole";
    }
    SortedByNeighbours(ms);
    NormalEach(ms);
  }

  lemma ProvenanceMeaning(p: Provenance)
    ensures Meaning(SignedProvenance(p)) == Meaning(ProvenanceJson(p, false))
  {
    var a, b := LedgerMembers(p), PrincipalMembers(p);
    FieldsAppend(a, b);
    FieldsAppend(b, a);
    assert SignedProvenance(p).members == a + b;
    forall key | key in MeaningMembers(a) ensures key !in MeaningMembers(b) {
      MeaningKeys(a, key);
      MeaningKeys(b, key);
      assert |a[0].key| == 16 && |b[0].key| == 11 && |b[1].key| == 13;
    }
  }

  lemma SignedNormal(e: Envelope)
    ensures NormalMembers(InSignedOrder(e))
  {
    hide SignedProvenance;
    ProvenanceNormal(e.provenance);
    CanonCorrect(e.fhir);
    hide Canon;
    NormalEach(InSignedOrder(e));
  }

  lemma SignedMeaning(e: Envelope)
    ensures MeaningMembers(InSignedOrder(e)) == MeaningMembers(EnvelopeMembers(e, false))
  {
    hide MeaningMembers, InSignedOrder, EnvelopeMembers, Meaning;
    var a, b, to := InSignedOrder(e), EnvelopeMembers(e, false), [6, 5, 0, 1, 2, 7, 3, 4, 8];
    EnvelopeKeysDistinct(e, false);
    SignedMember(e, 0);
    forall i | 0 <= i < 9
      ensures a[i].key == b[to[i]].key && Meaning(a[i].value) == Meaning(b[to[i]].value)
    {
      SignedMember(e, i);
    }
    SameInOrder(a, b, to, [2, 3, 4, 6, 7, 1, 0, 5, 8]);
  }

  lemma SignedMember(e: Envelope, i: nat)
    requires i < 9
    ensures var a, b, k := InSignedOrder(e), EnvelopeMembers(e, false), [6, 5, 0, 1, 2, 7, 3, 4, 8][i];
            |a| == |b| == 9 && a[i].key == b[k].key && Meaning(a[i].value) == Meaning(b[k].value)
  {
    hide SignedProvenance, ProvenanceJson;
    ProvenanceMeaning(e.provenance);
    CanonCorrect(e.fhir);
    hide Canon, Meaning;
  }

  // ---------- what the canonical payload pins down ----------

  /** Equal in every field but the signature, the bundle compared as a JSON value. */
  ghost predicate SameContent(a: Envelope, b: Envelope) {
    && a.(fhir := b.fhir, provenance := b.provenance) == b
    && Meaning(a.fhir) == Meaning(b.fhir)
    && a.provenance.(signature := b.provenance.signature) == b.provenance
  }

  lemma ProvenancePinned(p: Provenance, q: Provenance)
    ensures Meaning(ProvenanceJson(p, false)) == Meaning(ProvenanceJson(q, false))
            <==> p.(signature := q.signature) == q
  {
    var a, b := ProvenanceMembers(p, false), ProvenanceMembers(q, false);
    ProvenanceKeysDistinct(p, false);
    ProvenanceKeysDistinct(q, false);
    if |a| == |b| {
      SameKeys(a, b);
      if Meaning(Obj(a)) == Meaning(Obj(b)) {
        assert Meaning(a[0].value) == VStr(p.principalId) && Meaning(b[0].value) == VStr(q.principalId);
        assert Meaning(a[1].value) == VStr(p.principalRole) && Meaning(b[1].value) == VStr(q.principalRole);
        if |a| == 3 { assert Meaning(a[2].value) == VStr(p.ledgerCommitHash)
          && Meaning(b[2].value) == VStr(q.ledgerCommitHash); }
      }
    } else {
      var short, long := if |a| < |b| then a else b, if |a| < |b| then b else a;
      DistinctLookup(long, long[2]);
      MeaningKeys(short, long[2].key);
      assert |long[2].key| == 16 && |short[0].key| == 11 && |short[1].key| == 13;
    }
  }

  lemma FieldsPinned(a: Envelope, b: Envelope)
    ensures Meaning(Unsigned(a)) == Meaning(Unsigned(b))
            <==> forall i | 0 <= i < 9 :: Meaning(EnvelopeValues(a, false)[i]) == Meaning(EnvelopeValues(b, false)[i])
  {
    hide Meaning, MeaningMembers, EnvelopeValues;
    EnvelopeKeysDistinct(a, false);
    SameKeys(EnvelopeMembers(a, false), EnvelopeMembers(b, false));
    MeaningOfObject(EnvelopeMembers(a, false));
    MeaningOfObject(EnvelopeMembers(b, false));
  }

  lemma MeaningOfObject(ms: seq<Member>)
    ensures Meaning(Obj(ms)) == VObj(MeaningMembers(ms))
  {
  }

  /** The signed value determines every field of the envelope but the signature, and nothing more. */
  lemma PayloadPinsContent(a: Envelope, b: Envelope)
    ensures CanonicalPayload(a) == CanonicalPayload(b) <==> SameContent(a, b)
  {
    hide CanonText, ProvenanceJson, MeaningMembers;
    CanonTextIsCompleteInvariant(Unsigned(a), Unsigned(b));
    FieldsPinned(a, b);
    ProvenancePinned(a.provenance, b.provenance);
    var va, vb := EnvelopeValues(a, false), EnvelopeValues(b, false);
    if Meaning(Unsigned(a)) == Meaning(Unsigned(b)) {
      assert forall i | 0 <= i < 7 :: va[i].Str? && vb[i].Str? && va[i] == vb[i];
      assert va[0] == vb[0] && va[1] == vb[1] && va[2] == vb[2] && va[3] == vb[3] && va[4] == vb[4] && va[5] == vb[5]
             && va[6] == vb[6];
      assert Meaning(va[7]) == Meaning(vb[7]) && Meaning(va[8]) == Meaning(vb[8]);
    }
  }

  // ---------- JWS compact serialization ----------

  /** Ed25519 as this service uses it; expand is NewKeyFromSeed. */
  datatype Ed25519 = Ed25519(
    public: seq<byte> -> seq<byte>,
    sign: (seq<byte>, seq<byte>) -> seq<byte>,
    verify: (seq<byte>, seq<byte>, seq<byte>) -> bool)

  /** The one fact taken from cryptography: a signature verifies under the public half of its key. */
  ghost predicate Sound(ed: Ed25519) {
    && (forall key :: |ed.public(key)| == PUBLIC_KEY_SIZE)
    && (forall key, message :: ed.verify(ed.public(key), message, ed.sign(key, message)))
  }

  datatype Signer = Signer(privateKey: seq<byte>, kid: string)

  function Header(kid: string): Json {
    Obj([Member("alg", Str(ALGORITHM)), Member("kid", Str(kid))])
  }

  /** protectedHeaderJSON */
  function HeaderBytes(kid: string): seq<byte> {
    Utf8(Render(GO, Header(kid)))
  }

  function Base64Url(bs: seq<byte>): string {
    Base64.Encode(Base64.RAW_URL, bs)
  }

  function SigningInput(signer: Signer, e: Envelope): string {
    Base64Url(HeaderBytes(signer.kid)) + "." + Base64Url(Utf8(CanonicalPayload(e)))
  }

  function Sign(ed: Ed25519, signer: Signer, e: Envelope): string {
    SigningInput(signer, e) + "." + Base64Url(ed.sign(signer.privateKey, Utf8(SigningInput(signer, e))))
  }

  /** strings.Split at dots. */
  function Split(s: string): (parts: seq<string>)
    ensures |parts| >= 1
  {
    if s == "" then [""]
    else if s[0] == '.' then [""] + Split(s[1..])
    else
      var rest := Split(s[1..]);
      [[s[0]] + rest[0]] + rest[1..]
  }

  datatype Reason =
    | EmptyPrefix | BadPublicKey | NotCompact | BadHeaderEncoding | BadHeader | WrongAlgorithm | WrongKeyId
    | BadSignatureEncoding | PayloadMismatch | BadSignature

  datatype Verdict = Accepted | Refused(reason: Reason)

  /** The alg and kid of a header, None when json.Unmarshal refuses it. */
  function ParseHeader(bs: seq<byte>): Option<(string, string)> {
    var fields :- Grammar.Fields(FromUtf8(bs));
    var alg :- Grammar.FieldText(fields, "alg");
    var kid :- Grammar.FieldText(fields, "kid");
    Some((alg, kid))
  }

  /** VerifyWithKeyIDPrefix */
  function VerifyWithKeyIDPrefix(ed: Ed25519, e: Envelope, publicKey: seq<byte>, prefix: string): Verdict {
    if prefix == "" then Refused(EmptyPrefix)
    else if |publicKey| != PUBLIC_KEY_SIZE then Refused(BadPublicKey)
    else
      var parts := Split(e.provenance.signature);
      if |parts| != 3 then Refused(NotCompact)
      else VerifyParts(ed, e, publicKey, prefix, parts[0], parts[1], parts[2])
  }

  function VerifyParts(ed: Ed25519, e: Envelope, publicKey: seq<byte>, prefix: string,
                       header64: string, payload64: string, signature64: string): Verdict {
    match Base64.Decode(Base64.RAW_URL, header64)
    case None => Refused(BadHeaderEncoding)
    case Some(header) =>
      match ParseHeader(header)
      case None => Refused(BadHeader)
      case Some((alg, kid)) =>
        if alg != ALGORITHM then Refused(WrongAlgorithm)
        else if !HasPrefix(kid, prefix) then Refused(WrongKeyId)
        else
          match Base64.Decode(Base64.RAW_URL, signature64)
          case None => Refused(BadSignatureEncoding)
          case Some(signature) =>
            if Base64Url(Utf8(CanonicalPayload(e))) != payload64 then Refused(PayloadMismatch)
            else if ed.verify(publicKey, Utf8(header64 + "." + payload64), signature) then Accepted
            else Refused(BadSignature)
  }

  function Verify(ed: Ed25519, e: Envelope, publicKey: seq<byte>): Verdict {
    VerifyWithKeyIDPrefix(ed, e, publicKey, KEY_ID_PREFIX)
  }

  // ---------- properties of signatures ----------

  predicate Dotless(s: string) {
    forall c <- s :: c != '.'
  }

  lemma {:induction false} SplitDotless(s: string)
    requires Dotless(s)
    ensures Split(s) == [s]
  {
    if s != "" {
      assert s[0] in s && forall c <- s[1..] :: c in s;
      SplitDotless(s[1..]);
      assert s == [s[0]] + s[1..];
    }
  }

  lemma {:induction false} SplitFirst(s: string, rest: string)
    requires Dotless(s)
    ensures Split(s + "." + rest) == [s] + Split(rest)
  {
    var t := s + "." + rest;
    if s == "" {
      assert t[1..] == rest;
    } else {
      assert s[0] in s && forall c <- s[1..] :: c in s;
      SplitFirst(s[1..], rest);
      assert t[1..] == s[1..] + "." + rest && t[0] == s[0];
      assert s == [s[0]] + s[1..];
    }
  }

  lemma EncodedIsDotless(bs: seq<byte>)
    ensures Dotless(Base64Url(bs))
  {
    Base64.EncodedIsDense(Base64.RAW_URL, bs);
  }

  /** Splitting a signature at its dots gives back exactly the three encoded parts. */
  lemma SignatureParts(ed: Ed25519, signer: Signer, e: Envelope)
    ensures Split(Sign(ed, signer, e)) ==
            [Base64Url(HeaderBytes(signer.kid)), Base64Url(Utf8(CanonicalPayload(e))),
             Base64Url(ed.sign(signer.privateKey, Utf8(SigningInput(signer, e))))]
  {
    hide Base64Url, HeaderBytes, CanonicalPayload, Dotless, Utf8;
    var h, p := Base64Url(HeaderBytes(signer.kid)), Base64Url(Utf8(CanonicalPayload(e)));
    var s := Base64Url(ed.sign(signer.privateKey, Utf8(SigningInput(signer, e))));
    EncodedIsDotless(HeaderBytes(signer.kid));
    EncodedIsDotless(Utf8(CanonicalPayload(e)));
    EncodedIsDotless(ed.sign(signer.privateKey, Utf8(SigningInput(signer, e))));
    SplitDotless(s);
    SplitFirst(p, s);
    SplitFirst(h, p + "." + s);
    assert Sign(ed, signer, e) == h + "." + (p + "." + s);
  }

  /** The protected header, character by character: alg and then kid, no white space. */
  lemma HeaderText(kid: string)
    ensures HeaderBytes(kid) == Utf8("{\"alg\":\"EdDSA\",\"kid\":" + Quote(GO, kid) + "}")
  {
    hide Quote, Render, Utf8;
    HeaderWords();
    TwoTexts(GO, "alg", "EdDSA", "kid", kid);
    Assembled(Quote(GO, kid));
  }

  lemma HeaderWords()
    ensures Quote(GO, "alg") == "\"alg\"" && Quote(GO, "EdDSA") == "\"EdDSA\"" && Quote(GO, "kid") == "\"kid\""
  {
    hide Quote;
    assert forall c <- "alg" :: 'a' <= c <= 'z';
    assert forall c <- "EdDSA" :: 'A' <= c <= 'Z' || 'a' <= c <= 'z';
    assert forall c <- "kid" :: 'a' <= c <= 'z';
    PlainQuote(GO, "alg");
    PlainQuote(GO, "EdDSA");
    PlainQuote(GO, "kid");
  }

  lemma Assembled(quoted: string)
    ensures "{" + "\"alg\"" + ":" + "\"EdDSA\"" + "," + "\"kid\"" + ":" + quoted + "}"
            == "{\"alg\":\"EdDSA\",\"kid\":" + quoted + "}"
  {
    assert "{" + "\"alg\"" + ":" + "\"EdDSA\"" + "," + "\"kid\"" + ":" == "{\"alg\":\"EdDSA\",\"kid\":";
  }

  lemma TwoTexts(st: Style, key: string, value: string, key': string, value': string)
    requires st.gap == ""
    ensures Render(st, Obj([Member(key, Str(value)), Member(key', Str(value'))]))
            == "{" + Quote(st, key) + ":" + Quote(st, value) + "," + Quote(st, key') + ":" + Quote(st, value') + "}"
  {
    hide Quote;
    var a, b := Member(key, Str(value)), Member(key', Str(value'));
    assert [a, b][1..] == [b];
    assert RenderMember(st, a) == Quote(st, key) + ":" + Quote(st, value);
    assert RenderMember(st, b) == Quote(st, key') + ":" + Quote(st, value');
    assert RenderMembers(st, [b]) == RenderMember(st, b);
    assert RenderMembers(st, [a, b]) == RenderMember(st, a) + ("," + st.gap + RenderMembers(st, [b]));
  }

  /** Section 7.1 of RFC 7515 with the alphabet of section 5 of RFC 4648, unpadded: header, payload, and the signature
      over the bytes of both with the dot between them. */
  lemma JwsForm(ed: Ed25519, signer: Signer, e: Envelope)
    ensures var form := Base64.Form(url := true, padded := false);
            var header := Base64.Encode(form, Utf8("{\"alg\":\"EdDSA\",\"kid\":" + Quote(GO, signer.kid) + "}"));
            var payload := Base64.Encode(form, Utf8(CanonText(Unsigned(e))));
            Sign(ed, signer, e) == header + "." + payload + "."
              + Base64.Encode(form, ed.sign(signer.privateKey, Utf8(header + "." + payload)))
  {
    hide CanonText, Utf8, Quote;
    HeaderText(signer.kid);
  }

  lemma HeaderFields(alg: Grammar.Field, kid: Grammar.Field)
    requires alg.key == "alg" && kid.key == "kid" && alg.value.Text? && kid.value.Text?
    ensures Grammar.FieldText([alg, kid], "alg") == Some(alg.value.text)
    ensures Grammar.FieldText([alg, kid], "kid") == Some(kid.value.text)
  {
    var fields := [alg, kid];
    assert Grammar.Fold(alg.key[0]) == 'a' && Grammar.Fold(kid.key[0]) == 'k';
    assert fields[..1] == [alg] && [alg][..0] == [];
    assert Grammar.FieldText([], "alg") == Some("") && Grammar.FieldText([], "kid") == Some("");
    assert Grammar.FieldText([alg], "alg") == Some(alg.value.text) && Grammar.FieldText([alg], "kid") == Some("");
  }

  /** Every key id, whatever characters it holds, survives the header's escaping and encoding. */
  lemma HeaderRoundTrip(kid: string)
    ensures Base64.Decode(Base64.RAW_URL, Base64Url(HeaderBytes(kid))) == Some(HeaderBytes(kid))
    ensures ParseHeader(HeaderBytes(kid)) == Some((ALGORITHM, kid))
  {
    hide Render, Parse, Utf8, FromUtf8, Grammar.Fields, Grammar.FieldText;
    Base64.RoundTrip(Base64.RAW_URL, HeaderBytes(kid));
    Utf8RoundTrip(Render(GO, Header(kid)));
    WritersAreReadable();
    ParseRender(GO, Header(kid));
    Grammar.FieldsOfObject(Render(GO, Header(kid)), Header(kid).members);
    var fields := Grammar.AsFields(Header(kid).members);
    HeaderFields(fields[0], fields[1]);
    assert fields == [fields[0], fields[1]];
  }

  /** Content binding: an envelope carrying the signature made for e is accepted exactly when it has
      e's content and the key id has the required prefix. Soundness of Ed25519 is used only to accept. */
  lemma CarriedSignature(ed: Ed25519, signer: Signer, e: Envelope, carrier: Envelope, prefix: string)
    requires carrier.provenance.signature == Sign(ed, signer, e)
    ensures VerifyWithKeyIDPrefix(ed, carrier, ed.public(signer.privateKey), prefix) == Accepted
            ==> SameContent(e, carrier) && prefix != "" && HasPrefix(signer.kid, prefix)
    ensures Sound(ed) && SameContent(e, carrier) && prefix != "" && HasPrefix(signer.kid, prefix)
            ==> VerifyWithKeyIDPrefix(ed, carrier, ed.public(signer.privateKey), prefix) == Accepted
  {
    var signature := ed.sign(signer.privateKey, Utf8(SigningInput(signer, e)));
    SignatureParts(ed, signer, e);
    HeaderRoundTrip(signer.kid);
    Base64.RoundTrip(Base64.RAW_URL, signature);
    PayloadPinsContent(e, carrier);
    if Base64Url(Utf8(CanonicalPayload(carrier))) == Base64Url(Utf8(CanonicalPayload(e))) {
      Base64.EncodeInjective(Base64.RAW_URL, Utf8(CanonicalPayload(carrier)), Utf8(CanonicalPayload(e)));
      Utf8RoundTrip(CanonicalPayload(carrier));
      Utf8RoundTrip(CanonicalPayload(e));
    }
  }

  // ---------- what verification accepts ----------

  function Join(parts: seq<string>): string
    requires parts != []
  {
    if |parts| == 1 then parts[0] else parts[0] + "." + Join(parts[1..])
  }

  lemma {:induction false} SplitJoins(s: string)
    ensures Join(Split(s)) == s
  {
    if s != "" {
      SplitJoins(s[1..]);
      var rest := Split(s[1..]);
      assert s == [s[0]] + s[1..];
      if s[0] == '.' {
        assert Split(s)[1..] == rest;
      } else {
        JoinCons(s[0], rest);
      }
    }
  }

  lemma JoinCons(c: char, parts: seq<string>)
    requires parts != []
    ensures Join([[c] + parts[0]] + parts[1..]) == [c] + Join(parts)
  {
    var longer := [[c] + parts[0]] + parts[1..];
    assert longer[1..] == parts[1..];
  }

  lemma {:induction false} SplitIsDotless(s: string)
    ensures forall part <- Split(s) :: Dotless(part)
  {
    if s != "" {
      SplitIsDotless(s[1..]);
      var rest := Split(s[1..]);
      assert rest[0] in rest && forall part <- rest[1..] :: part in rest;
    }
  }

  lemma JoinThree(parts: seq<string>)
    requires |parts| == 3
    ensures Join(parts) == parts[0] + "." + parts[1] + "." + parts[2]
  {
    assert Join(parts[1..]) == parts[1] + "." + Join(parts[1..][1..]) && parts[1..][1..] == [parts[2]];
    assert parts[0] + "." + (parts[1] + "." + parts[2]) == parts[0] + "." + parts[1] + "." + parts[2];
  }

  /** The header names the algorithm, and a key id with the prefix. */
  predicate HeaderAdmits(header64: string, prefix: string) {
    match Base64.Decode(Base64.RAW_URL, header64)
    case None => false
    case Some(bs) =>
      var header := ParseHeader(bs);
      header.Some? && header.value.0 == "EdDSA" && HasPrefix(header.value.1, prefix)
  }

  /** The envelope's signature is an admissible header, its own canonical payload, and a signature over both. */
  predicate WellSigned(ed: Ed25519, e: Envelope, publicKey: seq<byte>, prefix: string,
                       header64: string, signature64: string) {
    var input := header64 + "." + Base64Url(Utf8(CanonicalPayload(e)));
    && e.provenance.signature == input + "." + signature64 && Dotless(header64) && Dotless(signature64)
    && HeaderAdmits(header64, prefix)
    && Base64.Decode(Base64.RAW_URL, signature64).Some?
    && ed.verify(publicKey, Utf8(input), Base64.Decode(Base64.RAW_URL, signature64).value)
  }

  /** Verification accepts exactly the envelopes that are well signed under the key: nothing less passes. */
  lemma AcceptedExactly(ed: Ed25519, e: Envelope, publicKey: seq<byte>, prefix: string)
    ensures VerifyWithKeyIDPrefix(ed, e, publicKey, prefix) == Accepted <==>
            prefix != "" && |publicKey| == PUBLIC_KEY_SIZE
            && exists header64, signature64 :: WellSigned(ed, e, publicKey, prefix, header64, signature64)
  {
    hide Base64.Decode, ParseHeader, CanonicalPayload, Base64Url, HasPrefix;
    var payload64 := Base64Url(Utf8(CanonicalPayload(e)));
    if VerifyWithKeyIDPrefix(ed, e, publicKey, prefix) == Accepted {
      var parts := Split(e.provenance.signature);
      SplitJoins(e.provenance.signature);
      SplitIsDotless(e.provenance.signature);
      assert parts[0] in parts && parts[2] in parts;
      JoinThree(parts);
      assert WellSigned(ed, e, publicKey, prefix, parts[0], parts[2]);
    }
    if header64, signature64 :| WellSigned(ed, e, publicKey, prefix, header64, signature64) {
      EncodedIsDotless(Utf8(CanonicalPayload(e)));
      SplitDotless(signature64);
      SplitFirst(payload64, signature64);
      SplitFirst(header64, payload64 + "." + signature64);
      assert e.provenance.signature == header64 + "." + (payload64 + "." + signature64);
    }
  }

  // ---------- reading a stored envelope back ----------

  /** A string field after json.Unmarshal: the last member of that key; absent and null leave the zero value. */
  function TextField(members: seq<Member>, key: string, zero: string): Option<string> {
    match Lookup(members, key)
    case None => Some(zero)
    case Some(Null) => Some(zero)
    case Some(Str(s)) => Some(s)
    case _ => None
  }

  function ProvenanceFromJson(j: Option<Json>): Option<Provenance> {
    match j
    case None => Some(Provenance("", "", "", ""))
    case Some(Null) => Some(Provenance("", "", "", ""))
    case Some(Obj(ms)) =>
      var id :- TextField(ms, "principalId", "");
      var role :- TextField(ms, "principalRole", "");
      var signature :- TextField(ms, "signature", "");
      var ledger :- TextField(ms, "ledgerCommitHash", "");
      Some(Provenance(id, role, signature, ledger))
    case _ => None
  }

  function RawField(members: seq<Member>, key: string): Json {
    match Lookup(members, key)
    case None => Null
    case Some(j) => j
  }

  function FromMembers(ms: seq<Member>): Option<Envelope> {
    var version :- TextField(ms, "envelopeVersion", "");
    var id :- TextField(ms, "eventId", "");
    var kind :- TextField(ms, "eventType", "");
    var at :- TextField(ms, "occurredAt", ZERO_TIME);
    var producer :- TextField(ms, "producer", "");
    var correlation :- TextField(ms, "correlationId", "");
    var classification :- TextField(ms, "classification", "");
    var provenance :- ProvenanceFromJson(Lookup(ms, "provenance"));
    Some(Envelope(version, id, kind, at, producer, correlation, classification, RawField(ms, "fhir"), provenance))
  }

  /** json.Unmarshal into an Envelope. */
  function FromJson(j: Json): Option<Envelope> {
    match j
    case Null => FromMembers([])
    case Obj(ms) => FromMembers(ms)
    case _ => None
  }

  /** The publisher's check of an outbox payload: it decodes and verifies. */
  predicate PayloadVerifies(ed: Ed25519, publicKey: seq<byte>, text: string) {
    match Parse(text)
    case None => false
    case Some(j) =>
      match FromJson(j)
      case None => false
      case Some(e) => Verify(ed, e, publicKey) == Accepted
  }

  /** The text decodes to an envelope that is well signed under a key id of this service. */
  ghost predicate WellSignedText(ed: Ed25519, publicKey: seq<byte>, text: string) {
    && Parse(text).Some? && FromJson(Parse(text).value).Some?
    && exists header64, signature64 ::
         WellSigned(ed, FromJson(Parse(text).value).value, publicKey, "maritime-evidence-", header64, signature64)
  }

  /** The publisher fails closed: it accepts exactly the texts of well signed envelopes, whatever the text and key. */
  lemma PayloadVerifiesExactly(ed: Ed25519, publicKey: seq<byte>, text: string)
    ensures PayloadVerifies(ed, publicKey, text) <==> |publicKey| == 32 && WellSignedText(ed, publicKey, text)
  {
    hide Parse, FromJson, VerifyWithKeyIDPrefix, WellSigned;
    if Parse(text).Some? && FromJson(Parse(text).value).Some? {
      AcceptedExactly(ed, FromJson(Parse(text).value).value, publicKey, KEY_ID_PREFIX);
    }
  }

  /** What JSONB does to a text: any text of the same value, members reordered and respaced as it likes. */
  predicate SameJsonValue(text: string, stored: string) {
    Parse(text).Some? && Parse(stored).Some? && Meaning(Parse(text).value) == Meaning(Parse(stored).value)
  }

  /** A field that is absent or null keeps its zero value: the empty text, the zero time, no bundle, an empty block. */
  lemma MissingFields(key: string)
    ensures FromJson(Null) == FromJson(Obj([]))
            == Some(Envelope("", "", "", "0001-01-01T00:00:00Z", "", "", "", Null, Provenance("", "", "", "")))
    ensures FromJson(Obj([Member(key, Null)])) == FromJson(Obj([]))
    ensures ProvenanceFromJson(Some(Obj([Member(key, Null)]))) == Some(Provenance("", "", "", ""))
  {
    hide Lookup;
    NullThere(key, "envelopeVersion");
    NullThere(key, "eventId");
    NullThere(key, "eventType");
    NullThere(key, "occurredAt");
    NullThere(key, "producer");
    NullThere(key, "correlationId");
    NullThere(key, "classification");
    NullThere(key, "fhir");
    NullThere(key, "provenance");
    NullThere(key, "principalId");
    NullThere(key, "principalRole");
    NullThere(key, "signature");
    NullThere(key, "ledgerCommitHash");
  }

  lemma NullThere(key: string, name: string)
    ensures Lookup([], name) == None && Lookup([Member(key, Null)], name) in [None, Some(Null)]
  {
    assert [Member(key, Null)][1..] == [];
  }

  lemma TextFieldOf(members: seq<Member>, key: string, zero: string, s: string)
    requires key in MeaningMembers(members) && MeaningMembers(members)[key] == VStr(s)
    ensures TextField(members, key, zero) == Some(s)
  {
    LookupMeaning(members, key);
  }

  lemma DecodedProvenance(j: Json, p: Provenance)
    requires Meaning(j) == Meaning(ProvenanceJson(p, true))
    ensures ProvenanceFromJson(Some(j)) == Some(p)
  {
    var ms := ProvenanceMembers(p, true);
    ProvenanceKeysDistinct(p, true);
    DistinctLookup(ms, ms[0]);
    DistinctLookup(ms, ms[1]);
    DistinctLookup(ms, ms[2]);
    TextFieldOf(j.members, "principalId", "", p.principalId);
    TextFieldOf(j.members, "principalRole", "", p.principalRole);
    TextFieldOf(j.members, "signature", "", p.signature);
    if |ms| == 4 {
      DistinctLookup(ms, ms[3]);
      TextFieldOf(j.members, "ledgerCommitHash", "", p.ledgerCommitHash);
    } else {
      assert |ms[0].key| == 11 && |ms[1].key| == 13 && |ms[2].key| == 9 && |"ledgerCommitHash"| == 16;
      MeaningKeys(ms, "ledgerCommitHash");
      LookupMeaning(j.members, "ledgerCommitHash");
    }
  }

  lemma EnvelopeField(ms: seq<Member>, e: Envelope, i: nat, key: string)
    requires MeaningMembers(ms) == MeaningMembers(EnvelopeMembers(e, true))
    requires i < 9 && key == ENVELOPE_KEYS[i]
    ensures Lookup(ms, key).Some? && Meaning(Lookup(ms, key).value) == Meaning(EnvelopeValues(e, true)[i])
  {
    EnvelopeKeysDistinct(e, true);
    DistinctLookup(EnvelopeMembers(e, true), EnvelopeMembers(e, true)[i]);
    LookupMeaning(ms, key);
  }

  lemma EnvelopeText(ms: seq<Member>, e: Envelope, i: nat, key: string, zero: string)
    requires MeaningMembers(ms) == MeaningMembers(EnvelopeMembers(e, true))
    requires i < 9 && key == ENVELOPE_KEYS[i] && EnvelopeValues(e, true)[i].Str?
    ensures TextField(ms, key, zero) == Some(EnvelopeValues(e, true)[i].s)
  {
    EnvelopeField(ms, e, i, key);
  }

  lemma SameObject(j: Json, ms: seq<Member>)
    requires Meaning(j) == Meaning(Obj(ms))
    ensures j.Obj? && MeaningMembers(j.members) == MeaningMembers(ms)
  {
  }

  /** Decoding any tree of the envelope's value gives the envelope back, its bundle up to member order. */
  lemma DecodedEnvelope(j: Json, e: Envelope)
    requires Meaning(j) == Meaning(ToJson(e))
    ensures FromJson(j).Some?
    ensures FromJson(j).value.provenance == e.provenance && SameContent(e, FromJson(j).value)
  {
    hide Meaning, MeaningMembers, Lookup, ProvenanceFromJson;
    SameObject(j, EnvelopeMembers(e, true));
    var ms := j.members;
    EnvelopeText(ms, e, 0, "envelopeVersion", "");
    EnvelopeText(ms, e, 1, "eventId", "");
    EnvelopeText(ms, e, 2, "eventType", "");
    EnvelopeText(ms, e, 3, "occurredAt", ZERO_TIME);
    EnvelopeText(ms, e, 4, "producer", "");
    EnvelopeText(ms, e, 5, "correlationId", "");
    EnvelopeText(ms, e, 6, "classification", "");
    EnvelopeField(ms, e, 7, "fhir");
    EnvelopeField(ms, e, 8, "provenance");
    DecodedProvenance(Lookup(ms, "provenance").value, e.provenance);
  }

  /** Sign, store, verify: whatever text JSONB returns for a marshalled signed envelope, the publisher accepts it. */
  lemma StoredPayloadVerifies(ed: Ed25519, signer: Signer, e: Envelope, stored: string)
    requires Sound(ed) && HasPrefix(signer.kid, KEY_ID_PREFIX)
    requires e.provenance.signature == Sign(ed, signer, e)
    requires SameJsonValue(Render(GO, ToJson(e)), stored)
    ensures PayloadVerifies(ed, ed.public(signer.privateKey), stored)
  {
    WritersAreReadable();
    ParseRender(GO, ToJson(e));
    var j := Parse(stored).value;
    DecodedEnvelope(j, e);
    CarriedSignature(ed, signer, e, FromJson(j).value, KEY_ID_PREFIX);
  }

  /** JSONB's own output of any reordering of the envelope is such a text. */
  lemma JsonbTextIsStored(e: Envelope, j: Json)
    requires Reordered(ToJson(e), j)
    ensures SameJsonValue(Render(GO, ToJson(e)), Render(JSONB, j))
  {
    WritersAreReadable();
    ParseRender(GO, ToJson(e));
    ParseRender(JSONB, j);
    ReorderedMeaning(ToJson(e), j);
  }
}
