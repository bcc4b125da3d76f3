/** json.Valid: the grammar of JSON texts (RFC 8259), numbers and all escapes included. */
module Grammar {
  import opened Text
  import opened Json

  /** The text after a string literal whose opening quote has been read. */
  function SkipString(s: string): (r: Option<string>)
    ensures r.Some? ==> |r.value| < |s|
  {
    if s == "" then None
    else if s[0] == '"' then Some(s[1..])
    else if s[0] == '\\' then
      if |s| >= 2 && s[1] in ['"', '\\', '/', 'b', 'f', 'n', 'r', 't'] then SkipString(s[2..])
      else if |s| >= 6 && s[1] == 'u' && ReadUnit(s[2..]) >= 0 then SkipString(s[6..])
      else None
    else if s[0] < ' ' then None
    else SkipString(s[1..])
  }

  function SkipDigits(s: string): (rest: string)
    ensures |rest| <= |s| && (s != "" && IsDigit(s[0]) ==> |rest| < |s|)
  {
    if s != "" && IsDigit(s[0]) then SkipDigits(s[1..]) else s
  }

  /** At least one digit. */
  function SomeDigits(s: string): (r: Option<string>)
    ensures r.Some? ==> |r.value| < |s|
  {
    if s != "" && IsDigit(s[0]) then Some(SkipDigits(s)) else None
  }

  function SkipFraction(s: string): (r: Option<string>)
    ensures r.Some? ==> |r.value| <= |s|
  {
    if s != "" && s[0] == '.' then SomeDigits(s[1..]) else Some(s)
  }

  function SkipExponent(s: string): (r: Option<string>)
    ensures r.Some? ==> |r.value| <= |s|
  {
    if s == "" || (s[0] != 'e' && s[0] != 'E') then Some(s)
    else if |s| > 1 && (s[1] == '+' || s[1] == '-') then SomeDigits(s[2..])
    else SomeDigits(s[1..])
  }

  /** A number: no leading zeros, a fraction and an exponent if there are any. */
  function SkipNumber(s: string): (r: Option<string>)
    ensures r.Some? ==> |r.value| < |s|
  {
    var t := if s != "" && s[0] == '-' then s[1..] else s;
    if t == "" || !IsDigit(t[0]) then None
    else
      var rest :- SkipFraction(if t[0] == '0' then t[1..] else SkipDigits(t));
      SkipExponent(rest)
  }

  function SkipValue(s: string): (r: Option<string>)
    ensures r.Some? ==> |r.value| < |s|
    decreases |s|, 0
  {
    var t := SkipWhite(s);
    if t == "" then None
    else if t[0] == '"' then SkipString(t[1..])
    else if t[0] == '[' then
      var u := SkipWhite(t[1..]);
      if u != "" && u[0] == ']' then Some(u[1..]) else SkipItems(t[1..])
    else if t[0] == '{' then
      var u := SkipWhite(t[1..]);
      if u != "" && u[0] == '}' then Some(u[1..]) else SkipMembers(t[1..])
    else if HasPrefix(t, "null") then Some(t[4..])
    else if HasPrefix(t, "true") then Some(t[4..])
    else if HasPrefix(t, "false") then Some(t[5..])
    else SkipNumber(t)
  }

  function SkipItems(s: string): (r: Option<string>)
    ensures r.Some? ==> |r.value| < |s|
    decreases |s|, 1
  {
    var rest :- SkipValue(s);
    var t := SkipWhite(rest);
    if t != "" && t[0] == ']' then Some(t[1..])
    else if t != "" && t[0] == ',' then SkipItems(t[1..])
    else None
  }

  function SkipMember(s: string): (r: Option<string>)
    ensures r.Some? ==> |r.value| < |s|
    decreases |s|, 1
  {
    var t := SkipWhite(s);
    if t == "" || t[0] != '"' then None
    else
      var rest :- SkipString(t[1..]);
      var u := SkipWhite(rest);
      if u == "" || u[0] != ':' then None else SkipValue(u[1..])
  }

  function SkipMembers(s: string): (r: Option<string>)
    ensures r.Some? ==> |r.value| < |s|
    decreases |s|, 2
  {
    var rest :- SkipMember(s);
    var t := SkipWhite(rest);
    if t != "" && t[0] == '}' then Some(t[1..])
    else if t != "" && t[0] == ',' then SkipMembers(t[1..])
    else None
  }

  /** A whole text: one value and nothing after it but white space. */
  predicate Valid(s: string) {
    var rest := SkipValue(s);
    rest.Some? && SkipWhite(rest.value) == ""
  }

  // ---------- what the reader reads is valid ----------

  lemma CharSkipped(s: string)
    requires ReadChar(s).Some? && s != "" && s[0] != '"'
    ensures SkipString(s) == SkipString(ReadChar(s).value.1)
  {
  }

  lemma {:induction false} StringSkipped(s: string)
    requires ReadString(s).Some?
    ensures SkipString(s) == Some(ReadString(s).value.1)
    decreases |s|
  {
    hide ReadChar, SkipString;
    if s[0] != '"' {
      CharSkipped(s);
      StringSkipped(ReadChar(s).value.1);
    } else {
      QuoteSkipped(s);
    }
  }

  lemma QuoteSkipped(s: string)
    requires s != "" && s[0] == '"'
    ensures SkipString(s) == Some(s[1..])
  {
  }

  lemma {:induction false} ValueSkipped(s: string)
    requires ReadValue(s).Some?
    ensures SkipValue(s) == Some(ReadValue(s).value.1)
    decreases |s|, 0
  {
    var t := SkipWhite(s);
    if t[0] == '"' {
      StringSkipped(t[1..]);
    } else if t[0] == '[' {
      var u := SkipWhite(t[1..]);
      if !(u != "" && u[0] == ']') { ItemsSkipped(t[1..]); }
    } else if t[0] == '{' {
      var u := SkipWhite(t[1..]);
      if !(u != "" && u[0] == '}') { MembersSkipped(t[1..]); }
    }
  }

  lemma {:induction false} ItemsSkipped(s: string)
    requires ReadItems(s).Some?
    ensures SkipItems(s) == Some(ReadItems(s).value.1)
    decreases |s|, 1
  {
    ValueSkipped(s);
    var t := SkipWhite(ReadValue(s).value.1);
    if t[0] == ',' { ItemsSkipped(t[1..]); }
  }

  lemma {:induction false} MemberSkipped(s: string)
    requires ReadMember(s).Some?
    ensures SkipMember(s) == Some(ReadMember(s).value.1)
    decreases |s|, 1
  {
    var t := SkipWhite(s);
    StringSkipped(t[1..]);
    var u := SkipWhite(ReadString(t[1..]).value.1);
    ValueSkipped(u[1..]);
  }

  lemma {:induction false} MembersSkipped(s: string)
    requires ReadMembers(s).Some?
    ensures SkipMembers(s) == Some(ReadMembers(s).value.1)
    decreases |s|, 2
  {
    MemberSkipped(s);
    var t := SkipWhite(ReadMember(s).value.1);
    if t[0] == ',' { MembersSkipped(t[1..]); }
  }

  /** Every text that parses is valid. */
  lemma ParsedIsValid(s: string)
    requires Parse(s).Some?
    ensures Valid(s)
  {
    ValueSkipped(s);
  }

  // ---------- json.Unmarshal into a struct of strings ----------

  /** What a member's value is to a field of type string. */
  datatype Value = Text(text: string) | Nothing | Unfit

  datatype Field = Field(key: string, value: Value)

  function ValueOf(s: string): Value {
    var t := SkipWhite(s);
    if t != "" && t[0] == '"' then
      match ReadString(t[1..])
      case None => Unfit
      case Some((text, _)) => Text(text)
    else if HasPrefix(t, "null") then Nothing
    else Unfit
  }

  /** The members of an object and the text after it; values of other types are skipped. */
  function ReadFields(s: string): (r: Option<(seq<Field>, string)>)
    decreases |s|
  {
    var t := SkipWhite(s);
    if t == "" || t[0] != '"' then None
    else
      match ReadString(t[1..])
      case None => None
      case Some((key, rest)) =>
        var u := SkipWhite(rest);
        if u == "" || u[0] != ':' then None
        else
          var after :- SkipValue(u[1..]);
          var field, more := Field(key, ValueOf(u[1..])), SkipWhite(after);
          if more != "" && more[0] == '}' then Some(([field], more[1..]))
          else if more != "" && more[0] == ',' then
            match ReadFields(more[1..])
            case None => None
            case Some((fields, end)) => Some(([field] + fields, end))
          else None
  }

  /** The members that a struct is offered, in the order of the text; null has none, and other values are errors. */
  function Fields(s: string): Option<seq<Field>> {
    var t := SkipWhite(s);
    if !Valid(s) then None
    else if HasPrefix(t, "null") then Some([])
    else if t == "" || t[0] != '{' then None
    else
      var u := SkipWhite(t[1..]);
      if u != "" && u[0] == '}' then Some([])
      else
        match ReadFields(t[1..])
        case None => None
        case Some((fields, _)) => Some(fields)
  }

  /** Letters of either case name the same field, and so does the one other letter that folds to one of the names. */
  function Fold(c: char): char {
    if 'A' <= c <= 'Z' then (c as int + 32) as char else if c == '\U{212a}' then 'k' else c
  }

  predicate NamesField(key: string, name: string) {
    |key| == |name| && forall i | 0 <= i < |key| :: Fold(key[i]) == name[i]
  }

  /** A string field after all members: each one of its name sets it in turn, null leaves it as it is, and any other
      value is an error. */
  function FieldText(fields: seq<Field>, name: string): Option<string> {
    if fields == [] then Some("")
    else
      var before :- FieldText(fields[..|fields| - 1], name);
      var last := fields[|fields| - 1];
      if !NamesField(last.key, name) || last.value.Nothing? then Some(before)
      else if last.value.Text? then Some(last.value.text)
      else None
  }

  /** No member but a string or null of that name may be there, and the last string is the value. */
  lemma {:induction false} FieldTextExactly(fields: seq<Field>, name: string)
    ensures FieldText(fields, name).None? <==> exists f <- fields :: NamesField(f.key, name) && f.value.Unfit?
    ensures FieldText(fields, name).Some? ==>
      if exists f <- fields :: NamesField(f.key, name) && f.value.Text? then
        exists i :: 0 <= i < |fields| && NamesField(fields[i].key, name)
                    && fields[i].value == Text(FieldText(fields, name).value)
                    && forall k | i < k < |fields| :: NamesField(fields[k].key, name) ==> fields[k].value.Nothing?
      else FieldText(fields, name) == Some("")
  {
    hide NamesField;
    if fields != [] {
      var front, last := fields[..|fields| - 1], fields[|fields| - 1];
      assert fields == front + [last] && last in fields;
      FieldTextExactly(front, name);
      if NamesField(last.key, name) && last.value.Text? {
        assert fields[|fields| - 1].value == last.value;
      } else if FieldText(fields, name).Some? && exists f <- front :: NamesField(f.key, name) && f.value.Text? {
        var i :| 0 <= i < |front| && NamesField(front[i].key, name)
          && front[i].value == Text(FieldText(front, name).value)
          && forall k | i < k < |front| :: NamesField(front[k].key, name) ==> front[k].value.Nothing?;
        assert fields[i] == front[i];
      }
    }
  }

  /** The names of the header's fields in any case, and with the Kelvin sign for k, but no others of their length. */
  lemma FieldNames(key: string)
    ensures NamesField(key, "kid") <==>
            |key| == 3 && key[0] in ['k', 'K', '\U{212a}'] && key[1] in ['i', 'I'] && key[2] in ['d', 'D']
    ensures NamesField(key, "alg") <==>
            |key| == 3 && key[0] in ['a', 'A'] && key[1] in ['l', 'L'] && key[2] in ['g', 'G']
  {
  }

  // ---------- the fields of a text that parses ----------

  function AsValue(j: Json): Value {
    match j
    case Str(s) => Text(s)
    case Null => Nothing
    case _ => Unfit
  }

  function AsFields(members: seq<Member>): (fields: seq<Field>)
    ensures |fields| == |members|
  {
    seq(|members|, i requires 0 <= i < |members| => Field(members[i].key, AsValue(members[i].value)))
  }

  lemma ValueRead(s: string)
    requires ReadValue(s).Some?
    ensures ValueOf(s) == AsValue(ReadValue(s).value.0)
  {
    hide ReadString;
  }

  lemma {:induction false} FieldsRead(s: string)
    requires ReadMembers(s).Some?
    ensures ReadFields(s) == Some((AsFields(ReadMembers(s).value.0), ReadMembers(s).value.1))
    decreases |s|
  {
    hide ReadString, ReadValue, ValueOf, SkipValue, AsValue;
    var t := SkipWhite(s);
    var u := SkipWhite(ReadString(t[1..]).value.1);
    ValueSkipped(u[1..]);
    ValueRead(u[1..]);
    var more := SkipWhite(ReadMember(s).value.1);
    var m := ReadMember(s).value.0;
    if more[0] == ',' {
      FieldsRead(more[1..]);
      var members := ReadMembers(more[1..]).value.0;
      assert AsFields([m] + members) == AsFields([m]) + AsFields(members);
    }
    assert AsFields([m]) == [Field(m.key, ValueOf(u[1..]))];
  }

  /** The struct is offered exactly the members of an object that parses. */
  lemma FieldsOfObject(s: string, members: seq<Member>)
    requires Parse(s) == Some(Obj(members))
    ensures Fields(s) == Some(AsFields(members))
  {
    hide ReadString, ReadMembers, ReadItems, ReadFields;
    ParsedIsValid(s);
    hide Valid;
    var t := SkipWhite(s);
    var u := SkipWhite(t[1..]);
    if !(u != "" && u[0] == '}') { FieldsRead(t[1..]); }
  }
}
