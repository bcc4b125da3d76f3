/** The grammar of RFC 8259, as trees and the texts they are written as, and that json.Valid accepts exactly those. */
module Syntax {
  import opened Text
  import opened Json
  import opened Grammar

  // ---------- the grammar ----------

  predicate IsBlank(s: string) {
    forall c <- s :: IsWhite(c)
  }

  predicate IsDigits(s: string) {
    s != "" && forall c <- s :: IsDigit(c)
  }

  /** Section 6: int is a zero or digits that do not begin with one. */
  predicate IsInt(s: string) {
    IsDigits(s) && (s[0] == '0' ==> s == "0")
  }

  predicate IsFraction(s: string) {
    s == "" || (s[0] == '.' && IsDigits(s[1..]))
  }

  predicate IsExponent(s: string) {
    s == ""
    || ((s[0] == 'e' || s[0] == 'E')
        && (IsDigits(s[1..]) || (|s| > 1 && (s[1] == '+' || s[1] == '-') && IsDigits(s[2..]))))
  }

  predicate IsHex4(s: string) {
    |s| == 4 && forall i | 0 <= i < 4 :: '0' <= s[i] <= '9' || 'a' <= s[i] <= 'f' || 'A' <= s[i] <= 'F'
  }

  /** Section 7: the characters of a string between its quotes. */
  predicate IsChars(s: string) {
    if s == "" then true
    else if s[0] != '\\' then s[0] >= ' ' && s[0] != '"' && IsChars(s[1..])
    else
      || (|s| >= 2 && s[1] in ['"', '\\', '/', 'b', 'f', 'n', 'r', 't'] && IsChars(s[2..]))
      || (|s| >= 6 && s[1] == 'u' && IsHex4(s[2..6]) && IsChars(s[6..]))
  }

  /** A value; brackets and braces without content keep the white space between them. */
  datatype Tree =
    | Word(word: string)
    | Number(minus: string, int': string, fraction: string, exponent: string)
    | Quoted(chars: string)
    | List(items: seq<Element>, blank: string)
    | Record(members: seq<Pair>, blank: string)

  /** A value and the white space around it. */
  datatype Element = Element(before: string, tree: Tree, after: string)

  datatype Pair = Pair(before: string, key: string, between: string, value: Element)

  predicate WellFormed(t: Tree)
    decreases t, 1
  {
    match t
    case Word(word) => word in ["null", "true", "false"]
    case Number(minus, int', fraction, exponent) =>
      (minus == "" || minus == "-") && IsInt(int') && IsFraction(fraction) && IsExponent(exponent)
    case Quoted(chars) => IsChars(chars)
    case List(items, blank) => IsBlank(blank) && WellFormedItems(items)
    case Record(members, blank) => IsBlank(blank) && WellFormedMembers(members)
  }

  predicate WellFormedElement(e: Element)
    decreases e, 2
  {
    IsBlank(e.before) && WellFormed(e.tree) && IsBlank(e.after)
  }

  predicate WellFormedItems(items: seq<Element>)
    decreases items, 0
  {
    items == [] || (WellFormedElement(items[0]) && WellFormedItems(items[1..]))
  }

  predicate WellFormedPair(p: Pair)
    decreases p, 3
  {
    IsBlank(p.before) && IsChars(p.key) && IsBlank(p.between) && WellFormedElement(p.value)
  }

  predicate WellFormedMembers(members: seq<Pair>)
    decreases members, 0
  {
    members == [] || (WellFormedPair(members[0]) && WellFormedMembers(members[1..]))
  }

  function Written(t: Tree): string
    decreases t, 1
  {
    match t
    case Word(word) => word
    case Number(minus, int', fraction, exponent) => minus + int' + fraction + exponent
    case Quoted(chars) => "\"" + chars + "\""
    case List(items, blank) => "[" + (if items == [] then blank else WrittenItems(items)) + "]"
    case Record(members, blank) => "{" + (if members == [] then blank else WrittenMembers(members)) + "}"
  }

  function WrittenElement(e: Element): string
    decreases e, 2
  {
    e.before + Written(e.tree) + e.after
  }

  function WrittenItems(items: seq<Element>): string
    decreases items, 0
  {
    if items == [] then ""
    else WrittenElement(items[0]) + if |items| == 1 then "" else "," + WrittenItems(items[1..])
  }

  function WrittenPair(p: Pair): string
    decreases p, 3
  {
    p.before + "\"" + p.key + "\"" + p.between + ":" + WrittenElement(p.value)
  }

  function WrittenMembers(members: seq<Pair>): string
    decreases members, 0
  {
    if members == [] then ""
    else WrittenPair(members[0]) + if |members| == 1 then "" else "," + WrittenMembers(members[1..])
  }

  // ---------- white space, digits and numbers ----------

  lemma {:induction false} BlankSkipped(blank: string, rest: string)
    requires IsBlank(blank)
    ensures SkipWhite(blank + rest) == SkipWhite(rest)
  {
    if blank == "" {
      assert blank + rest == rest;
    } else {
      assert blank[0] in blank && forall c <- blank[1..] :: c in blank;
      assert (blank + rest)[1..] == blank[1..] + rest;
      BlankSkipped(blank[1..], rest);
    }
  }

  lemma {:induction false} WhiteRead(s: string) returns (blank: string)
    ensures IsBlank(blank) && s == blank + SkipWhite(s)
  {
    if s != "" && IsWhite(s[0]) {
      var more := WhiteRead(s[1..]);
      blank := [s[0]] + more;
      assert s == [s[0]] + s[1..];
    } else {
      blank := "";
    }
  }

  predicate NoDigit(rest: string) {
    rest == "" || !IsDigit(rest[0])
  }

  lemma {:induction false} DigitsSkipped(digits: string, rest: string)
    requires NoDigit(rest) && forall c <- digits :: IsDigit(c)
    ensures SkipDigits(digits + rest) == rest
  {
    if digits == "" {
      assert digits + rest == rest;
    } else {
      assert digits[0] in digits && forall c <- digits[1..] :: c in digits;
      assert (digits + rest)[1..] == digits[1..] + rest;
      DigitsSkipped(digits[1..], rest);
    }
  }

  lemma {:induction false} DigitsRead(s: string) returns (digits: string)
    ensures s == digits + SkipDigits(s) && forall c <- digits :: IsDigit(c)
    ensures s != "" && IsDigit(s[0]) ==> digits != "" && digits[0] == s[0]
    ensures NoDigit(SkipDigits(s))
  {
    if s != "" && IsDigit(s[0]) {
      var more := DigitsRead(s[1..]);
      digits := [s[0]] + more;
      assert s == [s[0]] + s[1..];
    } else {
      digits := "";
    }
  }

  /** What may follow a value: nothing, white space, or what ends it. */
  predicate Ends(rest: string) {
    rest == "" || IsWhite(rest[0]) || rest[0] in [',', ']', '}']
  }

  lemma SomeDigitsSkipped(digits: string, rest: string)
    requires IsDigits(digits) && NoDigit(rest)
    ensures SomeDigits(digits + rest) == Some(rest)
  {
    assert digits[0] in digits && (digits + rest)[0] == digits[0];
    DigitsSkipped(digits, rest);
  }

  lemma ExponentSkipped(exponent: string, rest: string)
    requires IsExponent(exponent) && Ends(rest)
    ensures SkipExponent(exponent + rest) == Some(rest)
  {
    var s := exponent + rest;
    if exponent == "" {
      assert s == rest;
    } else if IsDigits(exponent[1..]) {
      assert s[1..] == exponent[1..] + rest && exponent[1..][0] in exponent[1..];
      SomeDigitsSkipped(exponent[1..], rest);
    } else {
      assert s[2..] == exponent[2..] + rest;
      SomeDigitsSkipped(exponent[2..], rest);
    }
  }

  lemma FractionSkipped(fraction: string, rest: string)
    requires IsFraction(fraction) && NoDigit(rest) && (rest == "" || rest[0] != '.')
    ensures SkipFraction(fraction + rest) == Some(rest)
  {
    if fraction == "" {
      assert fraction + rest == rest;
    } else {
      assert (fraction + rest)[1..] == fraction[1..] + rest;
      SomeDigitsSkipped(fraction[1..], rest);
    }
  }

  lemma IntSkipped(int': string, rest: string)
    requires IsInt(int') && NoDigit(rest)
    ensures var t := int' + rest; IsDigit(t[0]) && (if t[0] == '0' then t[1..] else SkipDigits(t)) == rest
  {
    assert int'[0] in int';
    if int'[0] != '0' { DigitsSkipped(int', rest); }
  }

  lemma Join(a: string, b: string, c: string, d: string, e: string)
    ensures a + b + c + d + e == a + (b + (c + (d + e)))
  {
  }

  lemma NumberSkipped(minus: string, int': string, fraction: string, exponent: string, rest: string)
    requires (minus == "" || minus == "-") && IsInt(int') && IsFraction(fraction) && IsExponent(exponent) && Ends(rest)
    ensures SkipNumber(minus + int' + fraction + exponent + rest) == Some(rest)
  {
    var tail := fraction + (exponent + rest);
    Join(minus, int', fraction, exponent, rest);
    assert NoDigit(exponent + rest) && NoDigit(tail);
    IntSkipped(int', tail);
    FractionSkipped(fraction, exponent + rest);
    ExponentSkipped(exponent, rest);
    Unsigned(minus, int' + tail);
    hide SkipDigits, SkipFraction, SkipExponent, IsInt, IsFraction, IsExponent;
  }

  lemma Unsigned(minus: string, u: string)
    requires (minus == "" || minus == "-") && u != "" && IsDigit(u[0])
    ensures var s := minus + u; (if s != "" && s[0] == '-' then s[1..] else s) == u
  {
    if minus == "" { assert minus + u == u; } else { assert (minus + u)[1..] == u; }
  }

  lemma SomeDigitsRead(s: string) returns (digits: string)
    requires SomeDigits(s).Some?
    ensures IsDigits(digits) && s == digits + SomeDigits(s).value
  {
    digits := DigitsRead(s);
  }

  lemma FractionRead(s: string) returns (fraction: string)
    requires SkipFraction(s).Some?
    ensures IsFraction(fraction) && s == fraction + SkipFraction(s).value
  {
    if s != "" && s[0] == '.' {
      var digits := SomeDigitsRead(s[1..]);
      fraction := "." + digits;
      assert fraction[1..] == digits;
    } else {
      fraction := "";
    }
  }

  lemma ExponentRead(s: string) returns (exponent: string)
    requires SkipExponent(s).Some?
    ensures IsExponent(exponent) && s == exponent + SkipExponent(s).value
  {
    if s == "" || (s[0] != 'e' && s[0] != 'E') {
      exponent := "";
    } else if |s| > 1 && (s[1] == '+' || s[1] == '-') {
      var digits := SomeDigitsRead(s[2..]);
      exponent := s[..2] + digits;
      assert exponent[2..] == digits;
    } else {
      var digits := SomeDigitsRead(s[1..]);
      exponent := s[..1] + digits;
      assert exponent[1..] == digits;
    }
  }

  lemma IntRead(s: string) returns (int': string, after: string)
    requires s != "" && IsDigit(s[0])
    ensures IsInt(int') && s == int' + after && after == if s[0] == '0' then s[1..] else SkipDigits(s)
  {
    if s[0] == '0' {
      int', after := "0", s[1..];
    } else {
      int' := DigitsRead(s);
      after := SkipDigits(s);
    }
  }

  lemma NumberRead(s: string) returns (t: Tree)
    requires SkipNumber(s).Some?
    ensures t.Number? && WellFormed(t) && s == Written(t) + SkipNumber(s).value
  {
    hide SkipDigits, IsInt, IsFraction, IsExponent, SkipFraction, SkipExponent;
    var minus := if s != "" && s[0] == '-' then "-" else "";
    var u := if s != "" && s[0] == '-' then s[1..] else s;
    var int', after := IntRead(u);
    var fraction := FractionRead(after);
    var exponent := ExponentRead(SkipFraction(after).value);
    t := Number(minus, int', fraction, exponent);
    assert s == minus + u;
    Join(minus, int', fraction, exponent, SkipNumber(s).value);
  }

  // ---------- strings ----------

  lemma Hex4(s: string)
    requires |s| >= 4
    ensures IsHex4(s[..4]) <==> ReadUnit(s) >= 0
  {
    assert forall i | 0 <= i < 4 :: s[..4][i] == s[i];
  }

  lemma {:induction false} CharsSkipped(chars: string, rest: string)
    requires IsChars(chars)
    ensures SkipString(chars + "\"" + rest) == Some(rest)
  {
    var s := chars + "\"" + rest;
    if chars == "" {
      assert s[1..] == rest;
    } else if chars[0] != '\\' {
      assert s[1..] == chars[1..] + "\"" + rest;
      CharsSkipped(chars[1..], rest);
    } else if chars[1] == 'u' {
      assert s[2..][..4] == chars[2..6] && s[6..] == chars[6..] + "\"" + rest;
      Hex4(s[2..]);
      CharsSkipped(chars[6..], rest);
    } else {
      assert s[2..] == chars[2..] + "\"" + rest;
      CharsSkipped(chars[2..], rest);
    }
  }

  lemma {:induction false} CharsRead(s: string) returns (chars: string)
    requires SkipString(s).Some?
    ensures IsChars(chars) && s == chars + "\"" + SkipString(s).value
  {
    hide ReadUnit, IsHex4;
    if s[0] == '"' {
      chars := "";
    } else if s[0] != '\\' {
      var more := CharsRead(s[1..]);
      chars := [s[0]] + more;
      assert chars[1..] == more && s == [s[0]] + s[1..];
    } else if s[1] == 'u' {
      Hex4(s[2..]);
      var more := CharsRead(s[6..]);
      chars := s[..6] + more;
      assert chars[6..] == more && chars[2..6] == s[2..][..4];
    } else {
      var more := CharsRead(s[2..]);
      chars := s[..2] + more;
      assert chars[2..] == more;
    }
  }

  // ---------- every written text is accepted ----------

  lemma FirstOf(t: Tree)
    requires WellFormed(t)
    ensures Written(t) != "" && !IsWhite(Written(t)[0]) && Written(t)[0] !in [',', ']', '}']
    ensures !t.List? && !t.Record? && !t.Quoted? ==> Written(t)[0] !in ['[', '{', '"']
    ensures t.Number? ==> IsDigit(Written(t)[0]) || Written(t)[0] == '-'
  {
    if t.Number? { assert t.int'[0] in t.int'; }
  }

  lemma {:induction false} TreeSkipped(before: string, t: Tree, rest: string)
    requires IsBlank(before) && WellFormed(t) && Ends(rest)
    ensures SkipValue(before + Written(t) + rest) == Some(rest)
    decreases t, 1
  {
    hide SkipNumber, SkipString, SkipWhite, SkipItems, SkipMembers;
    var s := Written(t) + rest;
    FirstOf(t);
    assert before + Written(t) + rest == before + s;
    BlankSkipped(before, s);
    NothingSkipped(s);
    match t
    case Word(word) => assert s[..|word|] == word && s[|word|..] == rest;
    case Number(minus, int', fraction, exponent) => NumberSkipped(minus, int', fraction, exponent, rest);
    case Quoted(chars) =>
      assert s[1..] == chars + "\"" + rest;
      CharsSkipped(chars, rest);
    case List(items, blank) => ListSkipped(items, blank, s, rest);
    case Record(members, blank) => RecordSkipped(members, blank, s, rest);
  }

  lemma NothingSkipped(s: string)
    requires s == "" || !IsWhite(s[0])
    ensures SkipWhite(s) == s
  {
  }

  lemma {:induction false} ListSkipped(items: seq<Element>, blank: string, s: string, rest: string)
    requires IsBlank(blank) && WellFormedItems(items) && Ends(rest)
    requires s == "[" + (if items == [] then blank else WrittenItems(items)) + "]" + rest
    ensures var u := SkipWhite(s[1..]);
            if u != "" && u[0] == ']' then u[1..] == rest else SkipItems(s[1..]) == Some(rest)
    decreases items, 1
  {
    hide SkipItems, SkipWhite;
    if items == [] {
      assert s[1..] == blank + ("]" + rest);
      BlankSkipped(blank, "]" + rest);
      NothingSkipped("]" + rest);
    } else {
      var tail := AfterItem(items, "]" + rest);
      assert s[1..] == WrittenItems(items) + "]" + rest == WrittenItems(items) + ("]" + rest);
      ElementBegins(items[0], tail);
      ItemsSkipped(items, rest);
    }
  }

  /** What follows the first item. */
  lemma AfterItem(items: seq<Element>, end: string) returns (tail: string)
    requires items != []
    ensures tail == if |items| == 1 then end else "," + (WrittenItems(items[1..]) + end)
    ensures WrittenItems(items) + end == WrittenElement(items[0]) + tail
  {
    tail := if |items| == 1 then end else "," + (WrittenItems(items[1..]) + end);
    assert |items| > 1 ==> "," + WrittenItems(items[1..]) + end == tail;
  }

  lemma ElementBegins(e: Element, tail: string)
    requires WellFormedElement(e)
    ensures var u := SkipWhite(WrittenElement(e) + tail); u != "" && u[0] !in [',', ']', '}']
  {
    FirstOf(e.tree);
    var u := Written(e.tree) + (e.after + tail);
    assert WrittenElement(e) + tail == e.before + u;
    BlankSkipped(e.before, u);
    NothingSkipped(u);
  }

  /** A value followed by what may follow it is skipped, and the white space after it too. */
  lemma {:induction false} ElementSkipped(e: Element, tail: string)
    requires WellFormedElement(e) && Ends(tail) && (tail == "" || !IsWhite(tail[0]))
    ensures SkipValue(WrittenElement(e) + tail) == Some(e.after + tail) && SkipWhite(e.after + tail) == tail
    decreases e, 2
  {
    assert WrittenElement(e) + tail == e.before + Written(e.tree) + (e.after + tail);
    assert e.after != "" ==> e.after[0] in e.after;
    TreeSkipped(e.before, e.tree, e.after + tail);
    BlankSkipped(e.after, tail);
    NothingSkipped(tail);
  }

  lemma {:induction false} ItemsSkipped(items: seq<Element>, rest: string)
    requires items != [] && WellFormedItems(items)
    ensures SkipItems(WrittenItems(items) + "]" + rest) == Some(rest)
    decreases items, 0
  {
    hide SkipValue, SkipWhite;
    var tail := AfterItem(items, "]" + rest);
    assert WrittenItems(items) + "]" + rest == WrittenItems(items) + ("]" + rest);
    ElementSkipped(items[0], tail);
    if |items| > 1 {
      assert tail[1..] == WrittenItems(items[1..]) + "]" + rest;
      ItemsSkipped(items[1..], rest);
    }
  }

  lemma {:induction false} RecordSkipped(members: seq<Pair>, blank: string, s: string, rest: string)
    requires IsBlank(blank) && WellFormedMembers(members) && Ends(rest)
    requires s == "{" + (if members == [] then blank else WrittenMembers(members)) + "}" + rest
    ensures var u := SkipWhite(s[1..]);
            if u != "" && u[0] == '}' then u[1..] == rest else SkipMembers(s[1..]) == Some(rest)
    decreases members, 1
  {
    hide SkipMembers, SkipWhite;
    if members == [] {
      assert s[1..] == blank + ("}" + rest);
      BlankSkipped(blank, "}" + rest);
      NothingSkipped("}" + rest);
    } else {
      var tail := AfterMember(members, "}" + rest);
      var p := members[0];
      assert s[1..] == WrittenMembers(members) + "}" + rest == WrittenMembers(members) + ("}" + rest);
      PairBegins(p, tail);
      MembersSkipped(members, rest);
    }
  }

  lemma AfterMember(members: seq<Pair>, end: string) returns (tail: string)
    requires members != []
    ensures tail == if |members| == 1 then end else "," + (WrittenMembers(members[1..]) + end)
    ensures WrittenMembers(members) + end == WrittenPair(members[0]) + tail
  {
    tail := if |members| == 1 then end else "," + (WrittenMembers(members[1..]) + end);
    assert |members| > 1 ==> "," + WrittenMembers(members[1..]) + end == tail;
  }

  lemma PairBegins(p: Pair, tail: string)
    requires WellFormedPair(p)
    ensures SkipWhite(WrittenPair(p) + tail)
            == "\"" + (p.key + "\"" + (p.between + ":" + (WrittenElement(p.value) + tail)))
  {
    var u := "\"" + (p.key + "\"" + (p.between + ":" + (WrittenElement(p.value) + tail)));
    assert WrittenPair(p) + tail == p.before + u;
    BlankSkipped(p.before, u);
    NothingSkipped(u);
  }

  lemma {:induction false} PairSkipped(p: Pair, tail: string)
    requires WellFormedPair(p) && Ends(tail) && (tail == "" || !IsWhite(tail[0]))
    ensures SkipMember(WrittenPair(p) + tail) == Some(p.value.after + tail)
    ensures SkipWhite(p.value.after + tail) == tail
    decreases p, 3
  {
    hide SkipValue, SkipWhite, SkipString;
    var value := WrittenElement(p.value) + tail;
    PairBegins(p, tail);
    CharsSkipped(p.key, p.between + ":" + value);
    BlankSkipped(p.between, ":" + value);
    NothingSkipped(":" + value);
    assert p.between + ":" + value == p.between + (":" + value);
    ElementSkipped(p.value, tail);
  }

  lemma {:induction false} MembersSkipped(members: seq<Pair>, rest: string)
    requires members != [] && WellFormedMembers(members)
    ensures SkipMembers(WrittenMembers(members) + "}" + rest) == Some(rest)
    decreases members, 0
  {
    hide SkipMember, SkipWhite;
    var tail := AfterMember(members, "}" + rest);
    assert WrittenMembers(members) + "}" + rest == WrittenMembers(members) + ("}" + rest);
    PairSkipped(members[0], tail);
    if |members| > 1 {
      assert tail[1..] == WrittenMembers(members[1..]) + "}" + rest;
      MembersSkipped(members[1..], rest);
    }
  }

  // ---------- every accepted text is written ----------

  lemma {:induction false} TreeRead(s: string) returns (before: string, t: Tree)
    requires SkipValue(s).Some?
    ensures IsBlank(before) && WellFormed(t) && s == before + Written(t) + SkipValue(s).value
    decreases |s|, 1
  {
    hide SkipNumber, SkipString, SkipItems, SkipMembers, Written, WellFormed, HasPrefix;
    before := WhiteRead(s);
    var u := SkipWhite(s);
    if u[0] == '"' {
      var chars := CharsRead(u[1..]);
      t := QuotedTree(u, chars);
    } else if u[0] == '[' {
      t := ListRead(u);
    } else if u[0] == '{' {
      t := RecordRead(u);
    } else if HasPrefix(u, "null") {
      t := WordRead(u, "null");
    } else if HasPrefix(u, "true") {
      t := WordRead(u, "true");
    } else if HasPrefix(u, "false") {
      t := WordRead(u, "false");
    } else {
      t := NumberRead(u);
    }
    assert u == Written(t) + SkipValue(s).value;
  }

  lemma QuotedTree(s: string, chars: string) returns (t: Tree)
    requires IsChars(chars) && s != "" && s[0] == '"' && SkipString(s[1..]).Some?
    requires s[1..] == chars + "\"" + SkipString(s[1..]).value
    ensures WellFormed(t) && s == Written(t) + SkipString(s[1..]).value
  {
    hide SkipString;
    t := Quoted(chars);
    assert s == "\"" + s[1..];
  }

  lemma WordRead(s: string, word: string) returns (t: Tree)
    requires HasPrefix(s, word) && word in ["null", "true", "false"]
    ensures WellFormed(t) && s == Written(t) + s[|word|..]
  {
    t := Word(word);
    assert s == s[..|word|] + s[|word|..];
  }

  lemma {:induction false} ListRead(s: string) returns (t: Tree)
    requires s != "" && s[0] == '['
    requires var u := SkipWhite(s[1..]); (u != "" && u[0] == ']') || SkipItems(s[1..]).Some?
    ensures WellFormed(t)
    ensures var u := SkipWhite(s[1..]);
            s == Written(t) + if u != "" && u[0] == ']' then u[1..] else SkipItems(s[1..]).value
    decreases |s|, 0
  {
    hide SkipItems;
    var u := SkipWhite(s[1..]);
    assert s == "[" + s[1..];
    if u != "" && u[0] == ']' {
      var blank := WhiteRead(s[1..]);
      t := List([], blank);
      assert u == "]" + u[1..];
    } else {
      var items := ItemsRead(s[1..]);
      t := List(items, "");
    }
  }

  lemma {:induction false} ElementRead(s: string) returns (e: Element)
    requires SkipValue(s).Some?
    ensures WellFormedElement(e) && s == WrittenElement(e) + SkipWhite(SkipValue(s).value)
    decreases |s|, 2
  {
    var before, t := TreeRead(s);
    var after := WhiteRead(SkipValue(s).value);
    e := Element(before, t, after);
  }

  lemma {:induction false} ItemsRead(s: string) returns (items: seq<Element>)
    requires SkipItems(s).Some?
    ensures items != [] && WellFormedItems(items) && s == WrittenItems(items) + "]" + SkipItems(s).value
    decreases |s|, 3
  {
    hide SkipValue, SkipWhite;
    var e := ElementRead(s);
    var t := SkipWhite(SkipValue(s).value);
    if t[0] == ']' {
      items := [e];
      assert t == "]" + t[1..];
    } else {
      var more := ItemsRead(t[1..]);
      items := [e] + more;
      assert items[1..] == more && t == "," + t[1..];
    }
  }

  lemma {:induction false} RecordRead(s: string) returns (t: Tree)
    requires s != "" && s[0] == '{'
    requires var u := SkipWhite(s[1..]); (u != "" && u[0] == '}') || SkipMembers(s[1..]).Some?
    ensures WellFormed(t)
    ensures var u := SkipWhite(s[1..]);
            s == Written(t) + if u != "" && u[0] == '}' then u[1..] else SkipMembers(s[1..]).value
    decreases |s|, 0
  {
    hide SkipMembers;
    var u := SkipWhite(s[1..]);
    assert s == "{" + s[1..];
    if u != "" && u[0] == '}' {
      var blank := WhiteRead(s[1..]);
      t := Record([], blank);
      assert u == "}" + u[1..];
    } else {
      var members := MembersRead(s[1..]);
      t := Record(members, "");
    }
  }

  lemma JoinPair(p: Pair, tail: string)
    ensures WrittenPair(p) + tail
            == p.before + ("\"" + (p.key + "\"" + (p.between + (":" + (WrittenElement(p.value) + tail)))))
  {
  }

  /** What a member consists of. */
  lemma MemberParts(s: string)
    requires SkipMember(s).Some?
    ensures var t := SkipWhite(s);
            && t != "" && t[0] == '"' && SkipString(t[1..]).Some?
            && var u := SkipWhite(SkipString(t[1..]).value);
            u != "" && u[0] == ':' && |u| < |s| && SkipValue(u[1..]) == SkipMember(s)
  {
    hide SkipString, SkipValue;
  }

  lemma Tail(s: string, c: char)
    requires s != "" && s[0] == c
    ensures s == [c] + s[1..]
  {
  }

  lemma {:induction false} PairRead(s: string) returns (p: Pair)
    requires SkipMember(s).Some?
    ensures WellFormedPair(p) && s == WrittenPair(p) + SkipWhite(SkipMember(s).value)
    decreases |s|, 4
  {
    hide SkipValue, SkipString, SkipMember, SkipWhite, IsBlank, IsChars, WrittenElement, WrittenPair;
    MemberParts(s);
    var before := WhiteRead(s);
    var t := SkipWhite(s);
    var key := CharsRead(t[1..]);
    var after := SkipString(t[1..]).value;
    var between := WhiteRead(after);
    var u := SkipWhite(after);
    var value := ElementRead(u[1..]);
    p := Pair(before, key, between, value);
    Tail(t, '"');
    Tail(u, ':');
    var tail := SkipWhite(SkipMember(s).value);
    assert u == ":" + (WrittenElement(value) + tail);
    assert key + "\"" + (between + u) == t[1..];
    JoinPair(p, tail);
  }

  lemma {:induction false} MembersRead(s: string) returns (members: seq<Pair>)
    requires SkipMembers(s).Some?
    ensures members != [] && WellFormedMembers(members) && s == WrittenMembers(members) + "}" + SkipMembers(s).value
    decreases |s|, 5
  {
    hide SkipMember, SkipWhite;
    var p := PairRead(s);
    var t := SkipWhite(SkipMember(s).value);
    if t[0] == '}' {
      members := [p];
      assert t == "}" + t[1..];
    } else {
      var more := MembersRead(t[1..]);
      members := [p] + more;
      assert members[1..] == more && t == "," + t[1..];
    }
  }

  /** json.Valid accepts exactly the texts of the grammar: one value and white space around it. */
  lemma ValidExactly(s: string)
    ensures Valid(s) <==> exists e: Element :: WellFormedElement(e) && WrittenElement(e) == s
  {
    hide SkipValue, SkipWhite;
    if Valid(s) {
      var e := ElementRead(s);
      assert WrittenElement(e) == s;
    }
    if e: Element :| WellFormedElement(e) && WrittenElement(e) == s {
      ElementSkipped(e, "");
      assert WrittenElement(e) + "" == s;
    }
  }
}
