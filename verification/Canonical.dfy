/** The canonical form of RFC 8785 on number-free values: members sorted by the UTF-16 code units
    of their keys (section 3.2.3), strings in their shortest escapes (section 3.2.2.2), no white
    space. Its reference is Value, what Go's decoder makes of a text: objects are maps, so member
    order is gone and a later duplicate key replaces an earlier one. */
module Canonical {
  import opened Text
  import opened Json

  datatype Value =
    | VNull
    | VBool(b: bool)
    | VStr(s: string)
    | VArr(items: seq<Value>)
    | VObj(fields: map<string, Value>)

  function Meaning(j: Json): Value
    decreases j, 1
  {
    match j
    case Null => VNull
    case Bool(b) => VBool(b)
    case Str(s) => VStr(s)
    case Arr(items) => VArr(MeaningItems(items))
    case Obj(members) => VObj(MeaningMembers(members))
  }

  function MeaningItems(items: seq<Json>): seq<Value>
    decreases items, 0
  {
    if items == [] then [] else [Meaning(items[0])] + MeaningItems(items[1..])
  }

  function MeaningOf(m: Member): Value
    decreases m, 2
  {
    Meaning(m.value)
  }

  function MeaningMembers(members: seq<Member>): map<string, Value>
    decreases members, 0
  {
    if members == [] then map[]
    else map[members[0].key := MeaningOf(members[0])] + MeaningMembers(members[1..])
  }

  /** What a value gives to a key, if it is an object that has it. */
  function At(v: Value, key: string): Option<Value> {
    if v.VObj? && key in v.fields then Some(v.fields[key]) else None
  }

  /** The text that a value gives to a key. */
  function TextAt(v: Value, key: string): Option<string> {
    match At(v, key)
    case Some(VStr(s)) => Some(s)
    case _ => None
  }

  // ---------- the canonical form ----------

  function Canon(j: Json): Json
    decreases j, 1
  {
    match j
    case Arr(items) => Arr(CanonItems(items))
    case Obj(members) => Obj(CanonMembers(members))
    case _ => j
  }

  function CanonItems(items: seq<Json>): seq<Json>
    decreases items, 0
  {
    if items == [] then [] else [Canon(items[0])] + CanonItems(items[1..])
  }

  function CanonMember(m: Member): Member
    decreases m, 2
  {
    Member(m.key, Canon(m.value))
  }

  function CanonMembers(members: seq<Member>): seq<Member>
    decreases members, 0
  {
    if members == [] then [] else Insert(CanonMember(members[0]), CanonMembers(members[1..]))
  }

  /** Inserts a member in key order; a later member of the same key, already there, stays. */
  function Insert(m: Member, sorted: seq<Member>): seq<Member> {
    if sorted == [] || KeyLess(m.key, sorted[0].key) then [m] + sorted
    else if m.key == sorted[0].key then sorted
    else [sorted[0]] + Insert(m, sorted[1..])
  }

  function CanonText(j: Json): string {
    Render(JCS, Canon(j))
  }

  // ---------- normal forms ----------

  predicate Sorted(members: seq<Member>) {
    forall i, k | 0 <= i < k < |members| :: KeyLess(members[i].key, members[k].key)
  }

  predicate Normal(j: Json)
    decreases j, 1
  {
    match j
    case Arr(items) => NormalItems(items)
    case Obj(members) => Sorted(members) && NormalMembers(members)
    case _ => true
  }

  predicate NormalItems(items: seq<Json>)
    decreases items, 0
  {
    items == [] || (Normal(items[0]) && NormalItems(items[1..]))
  }

  predicate NormalMember(m: Member)
    decreases m, 2
  {
    Normal(m.value)
  }

  predicate NormalMembers(members: seq<Member>)
    decreases members, 0
  {
    members == [] || (NormalMember(members[0]) && NormalMembers(members[1..]))
  }

  lemma {:induction false} NormalEach(members: seq<Member>)
    requires forall m <- members :: Normal(m.value)
    ensures NormalMembers(members)
  {
    if members != [] {
      assert members[0] in members && forall m <- members[1..] :: m in members;
      NormalEach(members[1..]);
    }
  }

  lemma {:induction false} MeaningKeys(members: seq<Member>, key: string)
    ensures key in MeaningMembers(members) <==> exists m <- members :: m.key == key
  {
    if members != [] {
      MeaningKeys(members[1..], key);
      assert forall m <- members :: m == members[0] || m in members[1..];
      assert members[0] in members && forall m <- members[1..] :: m in members;
    }
  }

  /** In a sorted object the first member is the least key, and it is the one that counts. */
  lemma SortedHead(members: seq<Member>)
    requires members != [] && Sorted(members)
    ensures Sorted(members[1..])
    ensures members[0].key !in MeaningMembers(members[1..])
    ensures MeaningMembers(members)[members[0].key] == MeaningOf(members[0])
    ensures MeaningMembers(members) - {members[0].key} == MeaningMembers(members[1..])
    ensures forall key <- MeaningMembers(members) :: key == members[0].key || KeyLess(members[0].key, key)
  {
    MeaningKeys(members[1..], members[0].key);
    forall i | 0 <= i < |members[1..]| ensures members[1..][i].key != members[0].key {
      KeyOrder(members[0].key, members[i + 1].key);
    }
    forall key | key in MeaningMembers(members) ensures key == members[0].key || KeyLess(members[0].key, key) {
      MeaningKeys(members, key);
    }
  }

  // ---------- Canon computes a normal form of the same meaning ----------

  predicate Above(key: string, members: seq<Member>) {
    forall i | 0 <= i < |members| :: KeyLess(key, members[i].key)
  }

  lemma AboveCons(m: Member, members: seq<Member>)
    requires Sorted(members) && (members != [] ==> KeyLess(m.key, members[0].key))
    ensures Above(m.key, members) && Sorted([m] + members)
  {
    forall i | 0 < i < |members| ensures KeyLess(m.key, members[i].key) {
      KeyOrderTransitive(m.key, members[0].key, members[i].key);
    }
  }

  lemma {:induction false} InsertSorted(m: Member, sorted: seq<Member>)
    requires Sorted(sorted)
    ensures Sorted(Insert(m, sorted)) && Insert(m, sorted) != []
    ensures Insert(m, sorted)[0].key == m.key || (sorted != [] && Insert(m, sorted)[0].key == sorted[0].key)
  {
    if sorted == [] {
    } else if KeyLess(m.key, sorted[0].key) {
      AboveCons(m, sorted);
    } else if m.key != sorted[0].key {
      KeyOrder(m.key, sorted[0].key);
      InsertSorted(m, sorted[1..]);
      AboveCons(sorted[0], Insert(m, sorted[1..]));
    }
  }

  lemma {:induction false} InsertMeaning(m: Member, sorted: seq<Member>)
    requires Sorted(sorted)
    ensures MeaningMembers(Insert(m, sorted)) == map[m.key := MeaningOf(m)] + MeaningMembers(sorted)
  {
    hide MeaningMembers, MeaningOf;
    if sorted == [] || KeyLess(m.key, sorted[0].key) {
      ConsMeaning(m, sorted);
    } else if m.key == sorted[0].key {
      ConsMeaning(sorted[0], sorted[1..]);
      assert sorted == [sorted[0]] + sorted[1..];
    } else {
      var rest := sorted[1..];
      InsertMeaning(m, rest);
      ConsMeaning(sorted[0], rest);
      ConsMeaning(sorted[0], Insert(m, rest));
      assert sorted == [sorted[0]] + rest;
    }
  }

  lemma ConsMeaning(m: Member, members: seq<Member>)
    ensures MeaningMembers([m] + members) == map[m.key := MeaningOf(m)] + MeaningMembers(members)
  {
    assert ([m] + members)[1..] == members;
  }

  lemma {:induction false} InsertNormal(m: Member, sorted: seq<Member>)
    requires NormalMembers(sorted) && NormalMember(m)
    ensures NormalMembers(Insert(m, sorted))
  {
    var r := Insert(m, sorted);
    if sorted == [] || KeyLess(m.key, sorted[0].key) {
      assert r[1..] == sorted;
    } else if m.key != sorted[0].key {
      InsertNormal(m, sorted[1..]);
      assert r[1..] == Insert(m, sorted[1..]);
    }
  }

  lemma {:induction false} CanonCorrect(j: Json)
    ensures Normal(Canon(j)) && Meaning(Canon(j)) == Meaning(j)
    decreases j, 1
  {
    match j
    case Arr(items) => CanonItemsCorrect(items);
    case Obj(members) => CanonMembersCorrect(members);
    case _ =>
  }

  lemma {:induction false} CanonItemsCorrect(items: seq<Json>)
    ensures NormalItems(CanonItems(items)) && MeaningItems(CanonItems(items)) == MeaningItems(items)
    decreases items, 0
  {
    if items != [] {
      CanonCorrect(items[0]);
      CanonItemsCorrect(items[1..]);
    }
  }

  lemma {:induction false} CanonMemberCorrect(m: Member)
    ensures NormalMember(CanonMember(m)) && MeaningOf(CanonMember(m)) == MeaningOf(m)
    decreases m, 2
  {
    CanonCorrect(m.value);
  }

  lemma {:induction false} CanonMembersCorrect(members: seq<Member>)
    ensures Sorted(CanonMembers(members)) && NormalMembers(CanonMembers(members))
    ensures MeaningMembers(CanonMembers(members)) == MeaningMembers(members)
    decreases members, 0
  {
    if members != [] {
      CanonMemberCorrect(members[0]);
      CanonMembersCorrect(members[1..]);
      InsertSorted(CanonMember(members[0]), CanonMembers(members[1..]));
      InsertMeaning(CanonMember(members[0]), CanonMembers(members[1..]));
      InsertNormal(CanonMember(members[0]), CanonMembers(members[1..]));
    }
  }

  // ---------- the order of RFC 8785 ----------

  /** Section 3.2.3: in canonical text the members of an object are in the order of the UTF-16 code units of their keys,
      smallest first; each is a member of the object with its value in canonical form, so this holds at every depth. */
  lemma CanonOrder(members: seq<Member>, i: nat, k: nat)
    requires i < k < |CanonMembers(members)|
    ensures Canon(Obj(members)) == Obj(CanonMembers(members))
    ensures Precedes(Utf16(CanonMembers(members)[i].key), Utf16(CanonMembers(members)[k].key))
    ensures exists m <- members :: CanonMembers(members)[i] == Member(m.key, Canon(m.value))
  {
    CanonMembersCorrect(members);
    LexLessExactly(Utf16(CanonMembers(members)[i].key), Utf16(CanonMembers(members)[k].key));
    CanonMembersCome(members, CanonMembers(members)[i]);
  }

  lemma {:induction false} InsertedCome(m: Member, sorted: seq<Member>, x: Member)
    requires x in Insert(m, sorted)
    ensures x == m || x in sorted
  {
    if sorted != [] && !KeyLess(m.key, sorted[0].key) && m.key != sorted[0].key && x != sorted[0] {
      InsertedCome(m, sorted[1..], x);
    }
  }

  lemma {:induction false} CanonMembersCome(members: seq<Member>, x: Member)
    requires x in CanonMembers(members)
    ensures exists m <- members :: x == Member(m.key, Canon(m.value))
  {
    InsertedCome(CanonMember(members[0]), CanonMembers(members[1..]), x);
    if x == CanonMember(members[0]) {
      assert members[0] in members;
    } else {
      CanonMembersCome(members[1..], x);
      var m :| m in members[1..] && x == Member(m.key, Canon(m.value));
      assert m in members;
    }
  }

  /** Keys without astral characters that differ first at n are ordered by the characters there. */
  lemma PlainKeyLess(a: string, b: string, n: nat)
    requires n < |a| && n < |b| && a[..n] == b[..n] && a[n] < b[n]
    requires (forall c <- a :: c as int < 0x1_0000) && forall c <- b :: c as int < 0x1_0000
    ensures KeyLess(a, b)
  {
    PlainUnits(a);
    PlainUnits(b);
    var u, v := Utf16(a), Utf16(b);
    assert forall i | 0 <= i < n :: a[i] == a[..n][i] == b[..n][i] == b[i];
    assert u[..n] == v[..n];
    LexLessExactly(u, v);
  }

  /** Members whose neighbours are in order are sorted. */
  lemma SortedByNeighbours(members: seq<Member>)
    requires forall i | 0 <= i < |members| - 1 :: KeyLess(members[i].key, members[i + 1].key)
    ensures Sorted(members)
  {
    forall i, k | 0 <= i < k < |members| ensures KeyLess(members[i].key, members[k].key) { InOrder(members, i, k); }
  }

  lemma {:induction false} InOrder(members: seq<Member>, i: nat, k: nat)
    requires i < k < |members| && forall i | 0 <= i < |members| - 1 :: KeyLess(members[i].key, members[i + 1].key)
    ensures KeyLess(members[i].key, members[k].key)
    decreases k
  {
    if i + 1 < k {
      InOrder(members, i, k - 1);
      assert KeyLess(members[k - 1].key, members[k - 1 + 1].key);
      KeyOrderTransitive(members[i].key, members[k - 1].key, members[k].key);
    }
  }

  // ---------- a value has one normal form ----------

  lemma {:induction false} NormalUnique(a: Json, b: Json)
    requires Normal(a) && Normal(b) && Meaning(a) == Meaning(b)
    ensures a == b
    decreases a, 1
  {
    match a
    case Arr(items) =>
      NormalItemsUnique(items, b.items);
    case Obj(members) =>
      NormalMembersUnique(members, b.members);
    case _ =>
  }

  lemma {:induction false} NormalItemsUnique(a: seq<Json>, b: seq<Json>)
    requires NormalItems(a) && NormalItems(b) && MeaningItems(a) == MeaningItems(b)
    ensures a == b
    decreases a, 0
  {
    if a != [] && b != [] {
      var ma, mb := MeaningItems(a), MeaningItems(b);
      assert Meaning(a[0]) == ma[0] == mb[0] == Meaning(b[0]);
      assert MeaningItems(a[1..]) == ma[1..] == mb[1..] == MeaningItems(b[1..]);
      NormalUnique(a[0], b[0]);
      NormalItemsUnique(a[1..], b[1..]);
      assert a == [a[0]] + a[1..] && b == [b[0]] + b[1..];
    }
  }

  lemma {:induction false} NormalMemberUnique(a: Member, b: Member)
    requires a.key == b.key && NormalMember(a) && NormalMember(b) && MeaningOf(a) == MeaningOf(b)
    ensures a == b
    decreases a, 2
  {
    NormalUnique(a.value, b.value);
  }

  lemma {:induction false} NormalMembersUnique(a: seq<Member>, b: seq<Member>)
    requires Sorted(a) && Sorted(b) && NormalMembers(a) && NormalMembers(b)
    requires MeaningMembers(a) == MeaningMembers(b)
    ensures a == b
    decreases a, 0
  {
    assert a != [] ==> a[0].key in MeaningMembers(a);
    assert b != [] ==> b[0].key in MeaningMembers(b);
    if a != [] && b != [] {
      SortedHead(a);
      SortedHead(b);
      KeyOrder(a[0].key, b[0].key);
      assert a[0].key in MeaningMembers(b) && b[0].key in MeaningMembers(a);
      NormalMemberUnique(a[0], b[0]);
      NormalMembersUnique(a[1..], b[1..]);
      assert a == [a[0]] + a[1..] && b == [b[0]] + b[1..];
    }
  }

  // ---------- main results ----------

  /** The canonical text is a complete invariant of the value: equal texts exactly for equal values. */
  lemma CanonTextIsCompleteInvariant(a: Json, b: Json)
    ensures CanonText(a) == CanonText(b) <==> Meaning(a) == Meaning(b)
  {
    WritersAreReadable();
    ParseRender(JCS, Canon(a));
    ParseRender(JCS, Canon(b));
    CanonCorrect(a);
    CanonCorrect(b);
    if Meaning(a) == Meaning(b) { NormalUnique(Canon(a), Canon(b)); }
  }

  /** A reader recovers the sorted tree from the canonical text, and canonicalizing again changes nothing. */
  lemma CanonTextIsFixed(j: Json)
    ensures Parse(CanonText(j)) == Some(Canon(j))
    ensures Canon(Canon(j)) == Canon(j) && Meaning(Canon(j)) == Meaning(j)
  {
    WritersAreReadable();
    ParseRender(JCS, Canon(j));
    CanonCorrect(j);
    CanonCorrect(Canon(j));
    NormalUnique(Canon(Canon(j)), Canon(j));
  }

  // ---------- reordering members at any depth ----------

  predicate DistinctKeys(members: seq<Member>) {
    forall i, k | 0 <= i < k < |members| :: members[i].key != members[k].key
  }

  /** b is a with the members of its objects, at any depth, in another order. */
  ghost predicate Reordered(a: Json, b: Json)
    decreases a, 1
  {
    match a
    case Arr(items) => b.Arr? && |items| == |b.items| && forall i | 0 <= i < |items| :: Reordered(items[i], b.items[i])
    case Obj(members) =>
      && b.Obj? && |members| == |b.members|
      && DistinctKeys(members) && DistinctKeys(b.members)
      && (forall n <- b.members :: exists m <- members :: ReorderedMember(m, n))
      && (forall m <- members :: exists n <- b.members :: ReorderedMember(m, n))
    case _ => a == b
  }

  ghost predicate ReorderedMember(m: Member, n: Member)
    decreases m, 0
  {
    m.key == n.key && Reordered(m.value, n.value)
  }

  lemma {:induction false} DistinctLookup(members: seq<Member>, m: Member)
    requires DistinctKeys(members) && m in members
    ensures m.key in MeaningMembers(members) && MeaningMembers(members)[m.key] == MeaningOf(m)
  {
    if m == members[0] {
      MeaningKeys(members[1..], m.key);
    } else {
      DistinctLookup(members[1..], m);
    }
  }

  lemma MemberSays(members: seq<Member>, i: nat)
    requires DistinctKeys(members) && i < |members|
    ensures At(Meaning(Obj(members)), members[i].key) == Some(Meaning(members[i].value))
  {
    DistinctLookup(members, members[i]);
  }

  lemma {:induction false} FieldsAppend(a: seq<Member>, b: seq<Member>)
    ensures MeaningMembers(a + b) == MeaningMembers(a) + MeaningMembers(b)
  {
    if a == [] {
      assert a + b == b;
    } else {
      FieldsAppend(a[1..], b);
      assert (a + b)[1..] == a[1..] + b;
    }
  }

  lemma KeyOnlyThere(a: seq<Member>, m: Member, b: seq<Member>)
    requires DistinctKeys(a + [m] + b)
    ensures m.key !in MeaningMembers(a) && m.key !in MeaningMembers(b)
  {
    var all := a + [m] + b;
    assert all[|a|] == m;
    assert forall i | 0 <= i < |a| :: all[i] == a[i];
    assert forall i | 0 <= i < |b| :: all[|a| + 1 + i] == b[i];
    MeaningKeys(a, m.key);
    MeaningKeys(b, m.key);
  }

  lemma LastMember(front: seq<Member>, m: Member)
    ensures MeaningMembers(front + [m]) == MeaningMembers(front)[m.key := Meaning(m.value)]
  {
    FieldsAppend(front, [m]);
    assert MeaningOf(m) == Meaning(m.value);
  }

  lemma DropMember(a: seq<Member>, m: Member, b: seq<Member>)
    requires DistinctKeys(a + [m] + b)
    ensures MeaningMembers(a + b) == MeaningMembers(a + [m] + b) - {m.key}
  {
    hide MeaningMembers;
    KeyOnlyThere(a, m, b);
    FieldsAppend(a, b);
    FieldsAppend(a + [m], b);
    LastMember(a, m);
  }

  /** Two objects with the same distinct keys mean the same exactly when their values do, one by one. */
  lemma SameKeys(a: seq<Member>, b: seq<Member>)
    requires DistinctKeys(a) && |a| == |b| && forall i | 0 <= i < |a| :: a[i].key == b[i].key
    ensures MeaningMembers(a) == MeaningMembers(b) <==> forall i | 0 <= i < |a| ::
      Meaning(a[i].value) == Meaning(b[i].value)
  {
    forall i | 0 <= i < |a|
      ensures a[i].key in MeaningMembers(a) && MeaningMembers(a)[a[i].key] == Meaning(a[i].value)
      ensures a[i].key in MeaningMembers(b) && MeaningMembers(b)[a[i].key] == Meaning(b[i].value)
    {
      DistinctLookup(a, a[i]);
      DistinctLookup(b, b[i]);
    }
    if forall i | 0 <= i < |a| :: Meaning(a[i].value) == Meaning(b[i].value) {
      SameFields(a, b);
    }
  }

  lemma {:induction false} SameFields(a: seq<Member>, b: seq<Member>)
    requires |a| == |b| && forall i | 0 <= i < |a| :: a[i].key == b[i].key && Meaning(a[i].value) == Meaning(b[i].value)
    ensures MeaningMembers(a) == MeaningMembers(b)
  {
    if a != [] {
      assert a[0].key == b[0].key && MeaningOf(a[0]) == MeaningOf(b[0]);
      SameFields(a[1..], b[1..]);
    }
  }

  /** The members of one object are those of the other in another order, their values possibly in another form. */
  lemma SameInOrder(a: seq<Member>, b: seq<Member>, to: seq<nat>, back: seq<nat>)
    requires DistinctKeys(b) && |to| == |a| == |b| == |back|
    requires forall i | 0 <= i < |a| ::
      to[i] < |b| && a[i].key == b[to[i]].key && Meaning(a[i].value) == Meaning(b[to[i]].value)
    requires forall k | 0 <= k < |b| :: back[k] < |a| && to[back[k]] == k
    requires forall i | 0 <= i < |a| :: back[to[i]] == i
    ensures MeaningMembers(a) == MeaningMembers(b)
  {
    hide Meaning;
    assert DistinctKeys(a) by {
      forall i, k | 0 <= i < k < |a| ensures a[i].key != a[k].key { assert back[to[i]] == i && back[to[k]] == k; }
    }
    forall key ensures key in MeaningMembers(a) <==> key in MeaningMembers(b) {
      MeaningKeys(a, key);
      MeaningKeys(b, key);
      if k :| 0 <= k < |b| && b[k].key == key { assert a[back[k]].key == key; }
    }
    forall key | key in MeaningMembers(a) ensures MeaningMembers(a)[key] == MeaningMembers(b)[key] {
      MeaningKeys(a, key);
      var i :| 0 <= i < |a| && a[i].key == key;
      DistinctLookup(a, a[i]);
      DistinctLookup(b, b[to[i]]);
    }
  }

  /** The value an object gives to a key: the last member of that key. */
  function Lookup(members: seq<Member>, key: string): Option<Json> {
    if members == [] then None
    else
      var later := Lookup(members[1..], key);
      if later.Some? then later else if members[0].key == key then Some(members[0].value) else None
  }

  lemma {:induction false} LookupMeaning(members: seq<Member>, key: string)
    ensures key in MeaningMembers(members) <==> Lookup(members, key).Some?
    ensures key in MeaningMembers(members) ==> MeaningMembers(members)[key] == Meaning(Lookup(members, key).value)
  {
    if members != [] { LookupMeaning(members[1..], key); }
  }

  lemma {:induction false} MeaningItemsAt(items: seq<Json>)
    ensures |MeaningItems(items)| == |items|
    ensures forall i | 0 <= i < |items| :: MeaningItems(items)[i] == Meaning(items[i])
  {
    if items != [] { MeaningItemsAt(items[1..]); }
  }

  lemma {:induction false} ReorderedMeaning(a: Json, b: Json)
    requires Reordered(a, b)
    ensures Meaning(a) == Meaning(b)
    decreases a, 1
  {
    match a
    case Arr(items) =>
      MeaningItemsAt(items);
      MeaningItemsAt(b.items);
      forall i | 0 <= i < |items| ensures Meaning(items[i]) == Meaning(b.items[i]) {
        ReorderedMeaning(items[i], b.items[i]);
      }
    case Obj(members) =>
      forall key {
        ReorderedField(members, b.members, key);
      }
    case _ =>
  }

  lemma {:induction false} ReorderedField(a: seq<Member>, b: seq<Member>, key: string)
    requires DistinctKeys(a) && DistinctKeys(b)
    requires forall n <- b :: exists m <- a :: ReorderedMember(m, n)
    requires forall m <- a :: exists n <- b :: ReorderedMember(m, n)
    ensures key in MeaningMembers(a) <==> key in MeaningMembers(b)
    ensures key in MeaningMembers(a) ==> MeaningMembers(a)[key] == MeaningMembers(b)[key]
    decreases a, 1
  {
    MeaningKeys(a, key);
    MeaningKeys(b, key);
    if m :| m in a && m.key == key {
      var n :| n in b && ReorderedMember(m, n);
      ReorderedMemberMeaning(m, n);
      DistinctLookup(a, m);
      DistinctLookup(b, n);
    }
  }

  lemma {:induction false} ReorderedMemberMeaning(m: Member, n: Member)
    requires ReorderedMember(m, n)
    ensures MeaningOf(m) == MeaningOf(n)
    decreases m, 0
  {
    ReorderedMeaning(m.value, n.value);
  }

  /** Member order carries no meaning, so by the complete invariant it does not change the canonical text. */
  lemma ReorderingKeepsText(a: Json, b: Json)
    requires Reordered(a, b)
    ensures CanonText(a) == CanonText(b)
  {
    ReorderedMeaning(a, b);
    CanonTextIsCompleteInvariant(a, b);
  }
}
