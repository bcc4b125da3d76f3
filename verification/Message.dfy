/** Message: the signed envelope of a domain event, with its deterministically ordered bundle. */
module Message {
  import opened Text
  import opened Json
  import opened Signing
  import opened Canonical
  import Grammar

  const TOPIC_PACKAGE := "evidence.package.v1"
  const TOPIC_VALIDATION := "evidence.validation.v1"
  const STRUCTURE := "https://blueeconomy.gov.ng/fhir/StructureDefinition/"

  predicate ValidTopic(topic: string) {
    topic == TOPIC_PACKAGE || topic == TOPIC_VALIDATION
  }

  /** Go's string order: by bytes. */
  predicate Less(s: string, t: string) {
    LexLess(Utf8(s), Utf8(t))
  }

  /** By the first byte that differs, a shorter text before a longer one that begins with it. */
  lemma LessExactly(s: string, t: string)
    ensures Less(s, t) <==> Precedes(Utf8(s), Utf8(t))
  {
    LexLessExactly(Utf8(s), Utf8(t));
  }

  lemma LessIsTotal(s: string, t: string)
    ensures Less(s, t) || s == t || Less(t, s)
    ensures !(Less(s, t) && Less(t, s)) && !Less(s, s)
  {
    LexTotal(Utf8(s), Utf8(t));
    LexTotal(Utf8(s), Utf8(s));
    Utf8RoundTrip(s);
    Utf8RoundTrip(t);
  }

  lemma LessIsTransitive(s: string, t: string, u: string)
    requires Less(s, t) && Less(t, u)
    ensures Less(s, u)
  {
    LexTransitive(Utf8(s), Utf8(t), Utf8(u));
  }

  // ---------- the ordering of extension keys ----------

  /** The keys of a set, each once, in increasing order. */
  ghost predicate SortedListing(keys: seq<string>, of: set<string>) {
    && (forall i, k | 0 <= i < k < |keys| :: Less(keys[i], keys[k]))
    && (forall key :: key in keys <==> key in of)
  }

  /** A set has one sorted listing. */
  lemma {:induction false} ListingUnique(a: seq<string>, b: seq<string>, of: set<string>)
    requires SortedListing(a, of) && SortedListing(b, of)
    ensures a == b
  {
    BothEmpty(a, b, of);
    if a == [] {
    } else {
      LeastFirst(a, b, of);
      LeastFirst(b, a, of);
      LessIsTotal(a[0], b[0]);
      DropFirst(a, of);
      DropFirst(b, of);
      ListingUnique(a[1..], b[1..], of - {a[0]});
      assert a == [a[0]] + a[1..] && b == [b[0]] + b[1..];
    }
  }

  lemma BothEmpty(a: seq<string>, b: seq<string>, of: set<string>)
    requires SortedListing(a, of) && SortedListing(b, of)
    ensures a == [] <==> b == []
  {
    if a != [] { assert a[0] in b; }
    if b != [] { assert b[0] in a; }
  }

  lemma LeastFirst(a: seq<string>, b: seq<string>, of: set<string>)
    requires SortedListing(a, of) && SortedListing(b, of) && a != [] && b != []
    ensures a[0] == b[0] || Less(a[0], b[0])
  {
    assert b[0] in a;
  }

  lemma DropFirst(a: seq<string>, of: set<string>)
    requires SortedListing(a, of) && a != []
    ensures SortedListing(a[1..], of - {a[0]})
  {
    forall key ensures key in a[1..] <==> key in of - {a[0]} {
      LessIsTotal(a[0], a[0]);
      if key in a[1..] {
        var i :| 0 <= i < |a[1..]| && a[1..][i] == key;
        assert Less(a[0], a[i + 1]);
      }
    }
  }

  /** No later key is below an earlier one. */
  ghost predicate Ordered(keys: seq<string>) {
    forall i, k | 0 <= i < k < |keys| :: !Less(keys[k], keys[i])
  }

  lemma OrderedListing(keys: seq<string>, of: set<string>)
    requires Ordered(keys) && multiset(keys) == multiset(of)
    ensures SortedListing(keys, of)
  {
    forall i, k | 0 <= i < k < |keys| ensures Less(keys[i], keys[k]) {
      LessIsTotal(keys[i], keys[k]);
      assert keys == keys[..k] + [keys[k]] + keys[k + 1..];
      assert keys[i] in keys[..k];
      assert multiset(of)[keys[k]] <= 1;
    }
    forall key ensures key in keys <==> key in of {
      assert key in keys <==> key in multiset(keys);
    }
  }

  lemma NotLessTransitive(a: string, b: string, c: string)
    requires !Less(b, a) && !Less(c, b)
    ensures !Less(c, a)
  {
    LessIsTotal(a, b);
    LessIsTotal(b, c);
    LessIsTotal(a, c);
    if Less(c, a) {
      if Less(a, b) { LessIsTransitive(c, a, b); }
    }
  }

  /** No key is below the one at i, up to n. */
  ghost predicate LeastUpTo(keys: seq<string>, i: nat, n: nat)
    requires i < |keys| && n <= |keys|
  {
    forall k | i < k < n :: !Less(keys[k], keys[i])
  }

  /** The first n keys are ordered and none of the others is below any of them. */
  ghost predicate Placed(keys: seq<string>, n: nat)
    requires n <= |keys|
  {
    forall i, k | 0 <= i < n && i < k < |keys| :: !Less(keys[k], keys[i])
  }

  lemma SwapKeeps(before: seq<string>, after: seq<string>, i: nat, k: nat)
    requires i < k < |before| && after == before[i := before[k]][k := before[i]]
    requires Placed(before, i) && LeastUpTo(before, i, k) && Less(before[k], before[i])
    ensures Placed(after, i) && LeastUpTo(after, i, k + 1)
    ensures multiset(after) == multiset(before)
  {
    LessIsTotal(before[k], before[i]);
    forall l | i < l < k + 1 ensures !Less(after[l], after[i]) {
      if l < k { NotLessTransitive(before[k], before[i], before[l]); }
    }
  }

  /** The nested-loop exchange sort of the extension keys. */
  method SortKeys(keys: array<string>)
    modifies keys
    ensures Ordered(keys[..]) && multiset(keys[..]) == multiset(old(keys[..]))
  {
    var i := 0;
    while i < keys.Length
      invariant 0 <= i <= keys.Length
      invariant Placed(keys[..], i)
      invariant multiset(keys[..]) == multiset(old(keys[..]))
    {
      var j := i + 1;
      while j < keys.Length
        invariant i < j <= keys.Length
        invariant Placed(keys[..], i) && LeastUpTo(keys[..], i, j)
        invariant multiset(keys[..]) == multiset(old(keys[..]))
      {
        if Less(keys[j], keys[i]) {
          ghost var before := keys[..];
          keys[i], keys[j] := keys[j], keys[i];
          SwapKeeps(before, keys[..], i, j);
        }
        j := j + 1;
      }
      i := i + 1;
    }
  }

  // ---------- what a bundle says ----------

  /** An extension of this name and text; one without a text has no value. */
  ghost predicate ExtensionSays(v: Value, name: string, text: string) {
    && TextAt(v, "url") == Some("https://blueeconomy.gov.ng/fhir/StructureDefinition/" + name)
    && TextAt(v, "valueString") == (if text == "" then None else Some(text))
  }

  /** A Basic resource of the subject, carrying the payload and then the context. */
  ghost predicate ResourceSays(v: Value, eventType: string, subjectId: string, payload: string, keys: seq<string>,
                               extensions: map<string, string>)
    requires forall key <- keys :: key in extensions
  {
    && TextAt(v, "resourceType") == Some("Basic") && TextAt(v, "id") == Some(subjectId)
    && At(v, "code").Some? && TextAt(At(v, "code").value, "text") == Some(eventType)
    && At(v, "extension").Some? && At(v, "extension").value.VArr?
    && var items := At(v, "extension").value.items;
    && |items| == 1 + |keys| && ExtensionSays(items[0], "domain-payload", payload)
    && forall i | 0 <= i < |keys| :: ExtensionSays(items[1 + i], keys[i], extensions[keys[i]])
  }

  /** A message bundle with that resource as its one entry. */
  ghost predicate BundleSays(v: Value, eventType: string, subjectId: string, at: string, entryId: string,
                             payload: string, keys: seq<string>, extensions: map<string, string>)
    requires forall key <- keys :: key in extensions
  {
    && TextAt(v, "resourceType") == Some("Bundle") && TextAt(v, "type") == Some("message")
    && TextAt(v, "timestamp") == Some(at)
    && At(v, "entry").Some? && At(v, "entry").value.VArr? && |At(v, "entry").value.items| == 1
    && var entry := At(v, "entry").value.items[0];
    && TextAt(entry, "fullUrl") == Some("urn:uuid:" + entryId) && At(entry, "resource").Some?
    && ResourceSays(At(entry, "resource").value, eventType, subjectId, payload, keys, extensions)
  }

  // ---------- the bundle and the envelope ----------

  function Extension(url: string, value: string): Json {
    Obj([Member("url", Str(url))] + if value == "" then [] else [Member("valueString", Str(value))])
  }

  function KeyExtensions(keys: seq<string>, extensions: map<string, string>): seq<Json>
    requires forall key <- keys :: key in extensions
  {
    if keys == [] then []
    else [Extension(STRUCTURE + keys[0], extensions[keys[0]])] + KeyExtensions(keys[1..], extensions)
  }

  function Resource(eventType: string, subjectId: string, entryExtensions: seq<Json>): Json {
    Obj([
      Member("resourceType", Str("Basic")), Member("id", Str(subjectId)),
      Member("code", Obj([Member("text", Str(eventType))])), Member("extension", Arr(entryExtensions))])
  }

  function Bundle(eventType: string, subjectId: string, at: string, entryId: string, entryExtensions: seq<Json>): Json {
    var resource := Resource(eventType, subjectId, entryExtensions);
    Obj([
      Member("resourceType", Str("Bundle")), Member("type", Str("message")), Member("timestamp", Str(at)),
      Member("entry", Arr([Obj([Member("fullUrl", Str("urn:uuid:" + entryId)), Member("resource", resource)])]))])
  }

  lemma ExtensionTold(name: string, text: string)
    ensures ExtensionSays(Meaning(Extension(STRUCTURE + name, text)), name, text)
  {
    var ms := Extension(STRUCTURE + name, text).members;
    assert ms[0].key == "url" && (text != "" ==> ms[1].key == "valueString" && |ms[1].key| == 11);
    MemberSays(ms, 0);
    if text != "" { MemberSays(ms, 1); } else { MeaningKeys(ms, "valueString"); }
  }

  lemma {:induction false} KeysTold(keys: seq<string>, extensions: map<string, string>)
    requires forall key <- keys :: key in extensions
    ensures |KeyExtensions(keys, extensions)| == |keys|
    ensures forall i | 0 <= i < |keys| ::
      KeyExtensions(keys, extensions)[i] == Extension(STRUCTURE + keys[i], extensions[keys[i]])
  {
    if keys != [] { KeysTold(keys[1..], extensions); }
  }

  lemma BundleTold(eventType: string, subjectId: string, at: string, entryId: string, payload: string,
                   keys: seq<string>, extensions: map<string, string>)
    requires forall key <- keys :: key in extensions
    ensures BundleSays(
              Meaning(Bundle(eventType, subjectId, at, entryId, EntryExtensions(payload, keys, extensions))),
              eventType, subjectId, at, entryId, payload, keys, extensions)
  {
    hide ResourceSays, EntryExtensions, Resource, MeaningMembers;
    var resource := Resource(eventType, subjectId, EntryExtensions(payload, keys, extensions));
    var bundle := Bundle(eventType, subjectId, at, entryId, EntryExtensions(payload, keys, extensions));
    var entry := bundle.members[3].value.items[0];
    ResourceTold(eventType, subjectId, payload, keys, extensions);
    MeaningItemsAt([entry]);
    var ms := bundle.members;
    Says4(ms);
    assert ms[0].key == "resourceType" && ms[1].key == "type" && ms[2].key == "timestamp" && ms[3].key == "entry";
    assert entry.members[0].key == "fullUrl" && entry.members[1].key == "resource";
    MemberSays(entry.members, 0);
    MemberSays(entry.members, 1);
    assert Meaning(ms[3].value) == VArr(MeaningItems([entry]));
  }

  lemma ResourceTold(eventType: string, subjectId: string, payload: string, keys: seq<string>,
                     extensions: map<string, string>)
    requires forall key <- keys :: key in extensions
    ensures ResourceSays(Meaning(Resource(eventType, subjectId, EntryExtensions(payload, keys, extensions))),
                         eventType, subjectId, payload, keys, extensions)
  {
    hide ExtensionSays, EntryExtensions, MeaningMembers;
    var resource := Resource(eventType, subjectId, EntryExtensions(payload, keys, extensions));
    ExtensionsTold(payload, keys, extensions);
    var ms := resource.members;
    Says4(ms);
    assert ms[0].key == "resourceType" && ms[1].key == "id" && ms[2].key == "code" && ms[3].key == "extension";
    var code := ms[2].value.members;
    assert code[0] == Member("text", Str(eventType));
    MemberSays(code, 0);
  }

  lemma ExtensionsTold(payload: string, keys: seq<string>, extensions: map<string, string>)
    requires forall key <- keys :: key in extensions
    ensures var items := MeaningItems(EntryExtensions(payload, keys, extensions));
            && |items| == 1 + |keys| && ExtensionSays(items[0], "domain-payload", payload)
            && forall i | 0 <= i < |keys| :: ExtensionSays(items[1 + i], keys[i], extensions[keys[i]])
  {
    hide Extension, ExtensionSays, Meaning;
    KeysTold(keys, extensions);
    MeaningItemsAt(EntryExtensions(payload, keys, extensions));
    ExtensionTold("domain-payload", payload);
    forall i | 0 <= i < |keys|
      ensures ExtensionSays(MeaningItems(EntryExtensions(payload, keys, extensions))[1 + i], keys[i],
                            extensions[keys[i]])
    {
      ExtensionTold(keys[i], extensions[keys[i]]);
    }
  }

  lemma Says4(ms: seq<Member>)
    requires |ms| == 4 && DistinctKeys(ms)
    ensures forall i | 0 <= i < 4 :: At(Meaning(Obj(ms)), ms[i].key) == Some(Meaning(ms[i].value))
  {
    hide Meaning;
    forall i | 0 <= i < 4 { MemberSays(ms, i); }
  }

  function Draft(eventType: string, correlationId: string, at: string, eventId: string, principal: Provenance,
                 fhir: Json): Envelope {
    Envelope("1.0", eventId, eventType, at, "maritime-evidence", correlationId, "INTERNAL", fhir, principal)
  }

  /** The domain payload comes first, then the context in key order. */
  function EntryExtensions(payload: string, keys: seq<string>, extensions: map<string, string>): seq<Json>
    requires forall key <- keys :: key in extensions
  {
    [Extension(STRUCTURE + "domain-payload", payload)] + KeyExtensions(keys, extensions)
  }

  /** An envelope signed with the signature field set last. */
  function Signed(ed: Ed25519, signer: Signer, draft: Envelope): Envelope {
    draft.Carrying(Sign(ed, signer, draft))
  }

  lemma SignatureIgnored(ed: Ed25519, signer: Signer, e: Envelope, s: string)
    ensures Unsigned(e.Carrying(s)) == Unsigned(e) && Sign(ed, signer, e.Carrying(s)) == Sign(ed, signer, e)
  {
    assert ProvenanceMembers(e.Carrying(s).provenance, false) == ProvenanceMembers(e.provenance, false);
    assert EnvelopeValues(e.Carrying(s), false) == EnvelopeValues(e, false);
  }

  predicate Acceptable(eventType: string, topic: string, correlationId: string, subjectId: string, payload: string,
                       extensions: map<string, string>, principal: Provenance) {
    && !Blank(eventType) && ValidTopic(topic) && !Blank(correlationId) && !Blank(subjectId)
    && !Blank(principal.principalId) && !Blank(principal.principalRole)
    && Grammar.Valid(payload)
    && forall key <- extensions :: !Blank(key)
  }

  /** The ordering step of Message: from an arbitrary enumeration of the map to the one extension list. */
  method OrderExtensions(payload: string, extensions: map<string, string>, enumeration: seq<string>)
    returns (entryExtensions: Option<seq<Json>>)
    requires multiset(enumeration) == multiset(extensions.Keys)
    ensures entryExtensions.Some? <==> forall key <- extensions :: !Blank(key)
    ensures entryExtensions.Some? ==> forall keys | SortedListing(keys, extensions.Keys) ::
      entryExtensions.value == EntryExtensions(payload, keys, extensions)
  {
    hide Extension, Less, Blank;
    var entries := [Extension(STRUCTURE + "domain-payload", payload)];
    var keys := new string[|enumeration|](i requires 0 <= i < |enumeration| => enumeration[i]);
    assert keys[..] == enumeration;
    SortKeys(keys);
    ghost var sorted := keys[..];
    OrderedListing(sorted, extensions.Keys);
    for i := 0 to keys.Length
      invariant keys[..] == sorted
      invariant forall k | 0 <= k < i :: !Blank(sorted[k])
      invariant entries == EntryExtensions(payload, sorted[..i], extensions)
    {
      assert sorted[i] in sorted;
      if Blank(keys[i]) { return None; }
      AppendKey(sorted[..i], sorted[i], extensions);
      assert sorted[..i + 1] == sorted[..i] + [sorted[i]];
      entries := entries + [Extension(STRUCTURE + keys[i], extensions[keys[i]])];
    }
    assert sorted[..keys.Length] == sorted;
    forall other | SortedListing(other, extensions.Keys) ensures other == sorted {
      ListingUnique(other, sorted, extensions.Keys);
    }
    return Some(entries);
  }

  /** Message. The map of extensions is enumerated in an arbitrary order; entryId and eventId are the random UUIDs.
      The envelope does not depend on the enumeration: it carries the one sorted listing of the keys. */
  method Message(ed: Ed25519, eventType: string, topic: string, correlationId: string, subjectId: string,
                 payload: string, extensions: map<string, string>, enumeration: seq<string>, principal: Provenance,
                 at: string, signer: Option<Signer>, entryId: string, eventId: string)
    returns (envelope: Option<Envelope>)
    requires multiset(enumeration) == multiset(extensions.Keys)
    ensures envelope.Some? <==>
      signer.Some? && Acceptable(eventType, topic, correlationId, subjectId, payload, extensions, principal)
    ensures envelope.Some? ==> forall keys | SortedListing(keys, extensions.Keys) ::
      envelope.value == Signed(ed, signer.value, Draft(eventType, correlationId, at, eventId, principal,
        Bundle(eventType, subjectId, at, entryId, EntryExtensions(payload, keys, extensions))))
    ensures envelope.Some? ==>
      var e := envelope.value;
      && e.envelopeVersion == "1.0" && e.eventId == eventId && e.eventType == eventType && e.occurredAt == at
      && e.producer == "maritime-evidence" && e.correlationId == correlationId && e.classification == "INTERNAL"
      && e.provenance == principal.(signature := Sign(ed, signer.value, e))
      && forall keys | SortedListing(keys, extensions.Keys) ::
           BundleSays(Meaning(e.fhir), eventType, subjectId, at, entryId, payload, keys, extensions)
  {
    if signer.None? { return None; }
    if Blank(eventType) || !ValidTopic(topic) { return None; }
    if Blank(correlationId) || Blank(subjectId) { return None; }
    if Blank(principal.principalId) || Blank(principal.principalRole) { return None; }
    if !Grammar.Valid(payload) { return None; }
    var entryExtensions := OrderExtensions(payload, extensions, enumeration);
    if entryExtensions.None? { return None; }
    var draft := Draft(eventType, correlationId, at, eventId, principal,
                       Bundle(eventType, subjectId, at, entryId, entryExtensions.value));
    SignatureIgnored(ed, signer.value, draft, Sign(ed, signer.value, draft));
    forall keys | SortedListing(keys, extensions.Keys)
      ensures BundleSays(Meaning(draft.fhir), eventType, subjectId, at, entryId, payload, keys, extensions)
    {
      BundleTold(eventType, subjectId, at, entryId, payload, keys, extensions);
    }
    return Some(Signed(ed, signer.value, draft));
  }

  lemma {:induction false} AppendKey(keys: seq<string>, key: string, extensions: map<string, string>)
    requires key in extensions && forall k <- keys :: k in extensions
    ensures KeyExtensions(keys + [key], extensions)
            == KeyExtensions(keys, extensions) + [Extension(STRUCTURE + key, extensions[key])]
  {
    if keys != [] {
      AppendKey(keys[1..], key, extensions);
      assert (keys + [key])[1..] == keys[1..] + [key];
    }
  }
}
