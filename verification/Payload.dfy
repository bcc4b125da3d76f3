/** canonicalPayload as it runs: the marshalled envelope decoded into nested maps, the signature deleted in place, the
    maps encoded again in whatever order they are enumerated, and the text canonicalized. */
module Payload {
  import opened Text
  import opened Json
  import opened Canonical
  import opened Signing

  /** A decoded object: a later member of the same key replaces an earlier one. */
  function Fields(members: seq<Member>): map<string, Json> {
    if members == [] then map[]
    else Fields(members[..|members| - 1])[members[|members| - 1].key := members[|members| - 1].value]
  }

  function FieldMeanings(fields: map<string, Json>): map<string, Value> {
    map key <- fields :: Meaning(fields[key])
  }

  lemma {:induction false} FieldsMeaning(members: seq<Member>)
    ensures FieldMeanings(Fields(members)) == MeaningMembers(members)
  {
    if members != [] {
      var front, last := members[..|members| - 1], members[|members| - 1];
      assert members == front + [last];
      FieldsMeaning(front);
      LastMember(front, last);
    }
  }

  /** Ranging over a map: every member once, in any order. */
  method Enumerate(fields: map<string, Json>) returns (members: seq<Member>)
    ensures MeaningMembers(members) == FieldMeanings(fields)
  {
    hide Meaning, MeaningMembers;
    var rest := fields.Keys;
    members := [];
    assert MeaningMembers([]) == map[] by { NoMembers(); }
    while rest != {}
      invariant rest <= fields.Keys
      invariant MeaningMembers(members) == FieldMeanings(fields - rest)
      decreases |rest|
    {
      var key :| key in rest;
      LastMember(members, Member(key, fields[key]));
      assert FieldMeanings(fields - (rest - {key})) == FieldMeanings(fields - rest)[key := Meaning(fields[key])];
      members, rest := members + [Member(key, fields[key])], rest - {key};
    }
    assert fields - {} == fields;
  }

  lemma NoMembers()
    ensures MeaningMembers([]) == map[]
  {
  }

  /** Decoding and encoding a tree of maps: every object, at any depth, comes back with its members in some order. */
  method Reencode(j: Json) returns (k: Json)
    ensures Meaning(k) == Meaning(j) && (j.Obj? ==> k.Obj?)
    decreases j
  {
    match j {
      case Arr(items) =>
        var again := [];
        for i := 0 to |items|
          invariant |again| == i && MeaningItems(again) == MeaningItems(items[..i])
        {
          var item := Reencode(items[i]);
          ItemAdded(again, item);
          ItemAdded(items[..i], items[i]);
          assert items[..i + 1] == items[..i] + [items[i]];
          again := again + [item];
        }
        assert items[..|items|] == items;
        k := Arr(again);
      case Obj(members) =>
        var fields: map<string, Json> := map[];
        assert FieldMeanings(fields) == MeaningMembers(members[..0]);
        for i := 0 to |members|
          invariant FieldMeanings(fields) == MeaningMembers(members[..i])
        {
          var value := Reencode(members[i].value);
          LastMember(members[..i], members[i]);
          assert members[..i + 1] == members[..i] + [members[i]];
          assert FieldMeanings(fields[members[i].key := value])
              == FieldMeanings(fields)[members[i].key := Meaning(value)];
          fields := fields[members[i].key := value];
        }
        assert members[..|members|] == members;
        var listed := Enumerate(fields);
        k := Obj(listed);
      case _ => k := j;
    }
  }

  lemma {:induction false} ItemAdded(items: seq<Json>, item: Json)
    ensures MeaningItems(items + [item]) == MeaningItems(items) + [Meaning(item)]
  {
    if items == [] {
    } else {
      assert (items + [item])[1..] == items[1..] + [item];
      ItemAdded(items[1..], item);
    }
  }

  /** canonicalPayload never fails on an envelope, and whatever order its maps are enumerated in, at any depth, it
      yields the one canonical text of the envelope without its signature. */
  method CanonicalBytes(e: Envelope) returns (payload: Option<string>)
    ensures payload == Some(CanonicalPayload(e))
  {
    hide Meaning, MeaningMembers, ToJson, Unsigned, CanonText, Render, Parse;
    WritersAreReadable();
    ParseRender(GO, ToJson(e));
    var raw := Render(GO, ToJson(e));
    var decoded := Parse(raw).value;
    ProvenanceThere(e);
    if !decoded.Obj? { return None; }
    var generic := Fields(decoded.members);
    FieldsMeaning(decoded.members);
    if "provenance" !in generic || !generic["provenance"].Obj? { return None; }
    var provenance := Fields(generic["provenance"].members);
    FieldsMeaning(generic["provenance"].members);
    provenance := provenance - {"signature"};
    var kept := Enumerate(provenance);
    generic := generic["provenance" := Obj(kept)];
    var members := Enumerate(generic);
    var encoded := Reencode(Obj(members));
    var stripped := Render(GO, encoded);
    ParseRender(GO, encoded);
    Deleted(e, decoded.members, kept, members);
    CanonTextIsCompleteInvariant(encoded, Obj(members));
    return Some(CanonText(Parse(stripped).value));
  }

  lemma ProvenanceThere(e: Envelope)
    ensures ToJson(e).Obj? && "provenance" in Fields(ToJson(e).members) && Fields(ToJson(e).members)["provenance"].Obj?
  {
    hide Meaning;
    var ms := EnvelopeMembers(e, true);
    assert ms[8] == Member("provenance", ProvenanceJson(e.provenance, true));
    assert ms[|ms| - 1] == ms[8];
  }

  /** The members enumerated mean the envelope without its signature. */
  lemma Deleted(e: Envelope, decoded: seq<Member>, kept: seq<Member>, members: seq<Member>)
    requires ToJson(e) == Obj(decoded) && "provenance" in Fields(decoded) && Fields(decoded)["provenance"].Obj?
    requires MeaningMembers(kept) == FieldMeanings(Fields(Fields(decoded)["provenance"].members) - {"signature"})
    requires MeaningMembers(members) == FieldMeanings(Fields(decoded)["provenance" := Obj(kept)])
    ensures CanonText(Obj(members)) == CanonicalPayload(e)
  {
    hide MeaningMembers, Fields, ToJson, Unsigned, CanonText;
    var inner := Fields(decoded)["provenance"].members;
    FieldsMeaning(decoded);
    FieldsMeaning(inner);
    UnsignedIsDeletion(e);
    assert FieldMeanings(Fields(inner) - {"signature"}) == MeaningMembers(inner) - {"signature"};
    assert FieldMeanings(Fields(decoded)["provenance" := Obj(kept)])
        == MeaningMembers(decoded)["provenance" := VObj(MeaningMembers(kept))];
    CanonTextIsCompleteInvariant(Obj(members), Unsigned(e));
  }
}
