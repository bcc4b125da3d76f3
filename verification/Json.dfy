/** JSON values without numbers, their texts in the styles of the three writers that handle an
    envelope (Go's json.Marshal, PostgreSQL's JSONB output and the RFC 8785 canonicalizer),
    and a reader that recovers the value from every one of them. */
module Json {
  import opened Text
  import Hex

  datatype Json =
    | Null
    | Bool(b: bool)
    | Str(s: string)
    | Arr(items: seq<Json>)
    | Obj(members: seq<Member>)

  datatype Member = Member(key: string, value: Json)

  // ---------- writers ----------

  /** A writer: the white space after ',' and ':' and how one character is written inside a string. */
  datatype Style = Style(gap: string, escape: char -> string)

  const JCS := Style("", c => PlainEscape(c))
  const GO := Style("", c => HtmlEscape(c))
  const JSONB := Style(" ", c => PlainEscape(c))

  function UnicodeEscape(c: char): string
    requires c as int < 0x1_0000
  {
    var v := c as int;
    ['\\', 'u', Hex.Digit(v / 0x1000), Hex.Digit(v / 0x100 % 16), Hex.Digit(v / 16 % 16), Hex.Digit(v % 16)]
  }

  /** RFC 8785 section 3.2.2.2; also PostgreSQL's escape_json. */
  function PlainEscape(c: char): string {
    if c == '"' || c == '\\' then ['\\', c]
    else if c == '\U{8}' then ['\\', 'b']
    else if c == '\U{c}' then ['\\', 'f']
    else if c == '\n' then ['\\', 'n']
    else if c == '\r' then ['\\', 'r']
    else if c == '\t' then ['\\', 't']
    else if c < ' ' then UnicodeEscape(c)
    else [c]
  }

  /** encoding/json also escapes the characters that matter inside HTML and JavaScript. */
  function HtmlEscape(c: char): string {
    if c == '<' || c == '>' || c == '&' || c == '\U{2028}' || c == '\U{2029}' then UnicodeEscape(c)
    else PlainEscape(c)
  }

  function Quote(st: Style, s: string): string {
    "\"" + Escaped(st, s) + "\""
  }

  function Escaped(st: Style, s: string): string {
    if s == "" then "" else st.escape(s[0]) + Escaped(st, s[1..])
  }

  function Render(st: Style, j: Json): string
    decreases j, 1
  {
    match j
    case Null => "null"
    case Bool(b) => if b then "true" else "false"
    case Str(s) => Quote(st, s)
    case Arr(items) => "[" + RenderItems(st, items) + "]"
    case Obj(members) => "{" + RenderMembers(st, members) + "}"
  }

  function RenderItems(st: Style, items: seq<Json>): string
    decreases items, 0
  {
    if items == [] then ""
    else Render(st, items[0]) + (if |items| == 1 then "" else "," + (st.gap + RenderItems(st, items[1..])))
  }

  function RenderMember(st: Style, m: Member): string
    decreases m, 2
  {
    Quote(st, m.key) + ":" + st.gap + Render(st, m.value)
  }

  function RenderMembers(st: Style, members: seq<Member>): string
    decreases members, 0
  {
    if members == [] then ""
    else RenderMember(st, members[0]) + (if |members| == 1 then "" else "," + st.gap + RenderMembers(st, members[1..]))
  }

  // ---------- what the writers write ----------

  function Joined(parts: seq<string>, separator: string): string {
    if parts == [] then "" else if |parts| == 1 then parts[0] else parts[0] + separator + Joined(parts[1..], separator)
  }

  function MemberTexts(st: Style, members: seq<Member>): (texts: seq<string>)
    ensures |texts| == |members|
  {
    seq(|members|, i requires 0 <= i < |members| =>
      Quote(st, members[i].key) + ":" + st.gap + Render(st, members[i].value))
  }

  function ItemTexts(st: Style, items: seq<Json>): (texts: seq<string>)
    ensures |texts| == |items|
  {
    seq(|items|, i requires 0 <= i < |items| => Render(st, items[i]))
  }

  /** Every object is its members between braces, every array its items between brackets, in order and with a comma
      between two; no white space but the gap, which is empty except in JSONB output. */
  lemma Layout(st: Style, members: seq<Member>, items: seq<Json>)
    ensures Render(st, Obj(members)) == "{" + Joined(MemberTexts(st, members), "," + st.gap) + "}"
    ensures Render(st, Arr(items)) == "[" + Joined(ItemTexts(st, items), "," + st.gap) + "]"
    ensures JCS.gap == "" && GO.gap == "" && JSONB.gap == " "
  {
    MembersJoined(st, members);
    ItemsJoined(st, items);
  }

  lemma {:induction false} MembersJoined(st: Style, members: seq<Member>)
    ensures RenderMembers(st, members) == Joined(MemberTexts(st, members), "," + st.gap)
  {
    if members != [] {
      MembersJoined(st, members[1..]);
      assert MemberTexts(st, members)[1..] == MemberTexts(st, members[1..]);
    }
  }

  lemma {:induction false} ItemsJoined(st: Style, items: seq<Json>)
    ensures RenderItems(st, items) == Joined(ItemTexts(st, items), "," + st.gap)
  {
    if items != [] {
      ItemsJoined(st, items[1..]);
      assert ItemTexts(st, items)[1..] == ItemTexts(st, items[1..]);
    }
  }

  /** A character that no writer escapes. */
  predicate IsPlain(c: char) {
    c >= ' ' && c !in ['"', '\\', '<', '>', '&', '\U{2028}', '\U{2029}']
  }

  /** Section 3.2.2.2 of RFC 8785, for canonical text and JSONB's: the two-character escapes where there are any, four
      lower-case digits for the other control characters, and nothing else. */
  lemma PlainEscapes(c: char)
    ensures JCS.escape(c) == JSONB.escape(c) == PlainEscape(c)
    ensures PlainEscape('"') == "\\\"" && PlainEscape('\\') == "\\\\"
    ensures PlainEscape('\n') == "\\n" && PlainEscape('\r') == "\\r" && PlainEscape('\t') == "\\t"
    ensures PlainEscape('\U{8}') == "\\b" && PlainEscape('\U{c}') == "\\f"
    ensures c < ' ' && c !in ['\n', '\r', '\t', '\U{8}', '\U{c}'] ==>
      PlainEscape(c) == "\\u00" + [Hex.DIGITS[c as int / 16], Hex.DIGITS[c as int % 16]]
    ensures c >= ' ' && c != '"' && c != '\\' ==> PlainEscape(c) == [c]
  {
    hide Hex.Digit;
    if c < ' ' {
      Hex.DigitOf(0);
      Hex.DigitOf(c as int / 16);
      Hex.DigitOf(c as int % 16);
    }
  }

  /** Go's escapes: those, and five characters more. */
  lemma GoEscapes(c: char)
    ensures GO.escape('<') == "\\u003c" && GO.escape('>') == "\\u003e" && GO.escape('&') == "\\u0026"
    ensures GO.escape('\U{2028}') == "\\u2028" && GO.escape('\U{2029}') == "\\u2029"
    ensures c !in ['<', '>', '&', '\U{2028}', '\U{2029}'] ==> GO.escape(c) == PlainEscape(c)
  {
    hide PlainEscape;
  }

  lemma {:induction false} PlainQuote(st: Style, s: string)
    requires st in [JCS, GO, JSONB] && forall c <- s :: IsPlain(c)
    ensures Quote(st, s) == "\"" + s + "\""
  {
    PlainText(st, s);
  }

  lemma {:induction false} PlainText(st: Style, s: string)
    requires st in [JCS, GO, JSONB] && forall c <- s :: IsPlain(c)
    ensures Escaped(st, s) == s
  {
    if s != "" {
      assert s[0] in s && forall c <- s[1..] :: c in s;
      PlainText(st, s[1..]);
      hide PlainEscape;
      PlainEscapes(s[0]);
      GoEscapes(s[0]);
    }
  }

  // ---------- reader ----------

  predicate IsWhite(c: char) {
    c == ' ' || c == '\t' || c == '\n' || c == '\r'
  }

  function SkipWhite(s: string): (r: string)
    ensures |r| <= |s|
    ensures r != "" ==> !IsWhite(r[0])
  {
    if s != "" && IsWhite(s[0]) then SkipWhite(s[1..]) else s
  }

  /** The code unit written as four hexadecimal digits, or -1. */
  function ReadUnit(s: string): (v: int)
    ensures -1 <= v < 0x1_0000 && (v >= 0 ==> |s| >= 4)
  {
    if |s| >= 4 && Hex.Value(s[0]) >= 0 && Hex.Value(s[1]) >= 0 && Hex.Value(s[2]) >= 0 && Hex.Value(s[3]) >= 0 then
      Hex.Value(s[0]) * 0x1000 + Hex.Value(s[1]) * 0x100 + Hex.Value(s[2]) * 16 + Hex.Value(s[3])
    else -1
  }

  /** One character of a string literal and the text after it; an unpaired surrogate is replaced. */
  function ReadChar(s: string): (r: Option<(char, string)>)
    ensures r.Some? ==> |r.value.1| < |s|
  {
    if s == "" || s[0] < ' ' || s[0] == '"' then None
    else if s[0] != '\\' then Some((s[0], s[1..]))
    else if |s| == 1 then None
    else
      match s[1]
      case '"' => Some(('"', s[2..]))
      case '\\' => Some(('\\', s[2..]))
      case '/' => Some(('/', s[2..]))
      case 'b' => Some(('\U{8}', s[2..]))
      case 'f' => Some(('\U{c}', s[2..]))
      case 'n' => Some(('\n', s[2..]))
      case 'r' => Some(('\r', s[2..]))
      case 't' => Some(('\t', s[2..]))
      case 'u' =>
        var v := ReadUnit(s[2..]);
        if v < 0 then None
        else if IsScalar(v) then Some((v as char, s[6..]))
        else if v < 0xDC00 && |s| >= 8 && s[6] == '\\' && s[7] == 'u' && 0xDC00 <= ReadUnit(s[8..]) < 0xE000 then
          Some(((0x1_0000 + (v - 0xD800) * 0x400 + (ReadUnit(s[8..]) - 0xDC00)) as char, s[12..]))
        else Some((REPLACEMENT, s[6..]))
      case _ => None
  }

  /** The rest of a string literal after its opening quote. */
  function ReadString(s: string): (r: Option<(string, string)>)
    ensures r.Some? ==> |r.value.1| < |s|
    decreases |s|
  {
    if s != "" && s[0] == '"' then Some(("", s[1..]))
    else
      match ReadChar(s)
      case None => None
      case Some((c, rest)) =>
        match ReadString(rest)
        case None => None
        case Some((cs, rest')) => Some(([c] + cs, rest'))
  }

  function ReadValue(s: string): (r: Option<(Json, string)>)
    ensures r.Some? ==> |r.value.1| < |s|
    decreases |s|, 0
  {
    var t := SkipWhite(s);
    if t == "" then None
    else if t[0] == '"' then
      match ReadString(t[1..])
      case None => None
      case Some((str, rest)) => Some((Str(str), rest))
    else if t[0] == '[' then
      var u := SkipWhite(t[1..]);
      if u != "" && u[0] == ']' then Some((Arr([]), u[1..]))
      else
        match ReadItems(t[1..])
        case None => None
        case Some((items, rest)) => Some((Arr(items), rest))
    else if t[0] == '{' then
      var u := SkipWhite(t[1..]);
      if u != "" && u[0] == '}' then Some((Obj([]), u[1..]))
      else
        match ReadMembers(t[1..])
        case None => None
        case Some((members, rest)) => Some((Obj(members), rest))
    else if HasPrefix(t, "null") then Some((Null, t[4..]))
    else if HasPrefix(t, "true") then Some((Bool(true), t[4..]))
    else if HasPrefix(t, "false") then Some((Bool(false), t[5..]))
    else None
  }

  function ReadItems(s: string): (r: Option<(seq<Json>, string)>)
    ensures r.Some? ==> |r.value.1| < |s|
    decreases |s|, 1
  {
    match ReadValue(s)
    case None => None
    case Some((v, rest)) =>
      var t := SkipWhite(rest);
      if t != "" && t[0] == ']' then Some(([v], t[1..]))
      else if t != "" && t[0] == ',' then
        match ReadItems(t[1..])
        case None => None
        case Some((vs, rest')) => Some(([v] + vs, rest'))
      else None
  }

  function ReadMember(s: string): (r: Option<(Member, string)>)
    ensures r.Some? ==> |r.value.1| < |s|
    decreases |s|, 1
  {
    var t := SkipWhite(s);
    if t == "" || t[0] != '"' then None
    else
      match ReadString(t[1..])
      case None => None
      case Some((key, rest)) =>
        var u := SkipWhite(rest);
        if u == "" || u[0] != ':' then None
        else
          match ReadValue(u[1..])
          case None => None
          case Some((v, rest')) => Some((Member(key, v), rest'))
  }

  function ReadMembers(s: string): (r: Option<(seq<Member>, string)>)
    ensures r.Some? ==> |r.value.1| < |s|
    decreases |s|, 2
  {
    match ReadMember(s)
    case None => None
    case Some((m, rest)) =>
      var t := SkipWhite(rest);
      if t != "" && t[0] == '}' then Some(([m], t[1..]))
      else if t != "" && t[0] == ',' then
        match ReadMembers(t[1..])
        case None => None
        case Some((ms, rest')) => Some(([m] + ms, rest'))
      else None
  }

  /** The escapes that no writer writes: a solidus, a surrogate pair, and a surrogate that is not one of a pair, which
      is replaced. */
  lemma OtherEscapes(hi: string, lo: string, rest: string)
    requires |hi| == |lo| == 4
    ensures ReadChar("\\/" + rest) == Some(('/', rest))
    ensures 0xD800 <= ReadUnit(hi) < 0xDC00 && 0xDC00 <= ReadUnit(lo) < 0xE000 ==>
      var v := 0x1_0000 + (ReadUnit(hi) - 0xD800) * 1024 + (ReadUnit(lo) - 0xDC00);
      ReadChar("\\u" + hi + "\\u" + lo + rest) == Some((v as char, rest))
    ensures 0xDC00 <= ReadUnit(lo) < 0xE000 ==> ReadChar("\\u" + lo + rest) == Some(('\U{fffd}', rest))
    ensures 0xD800 <= ReadUnit(hi) < 0xDC00 && !HasPrefix(rest, "\\u") ==>
      ReadChar("\\u" + hi + rest) == Some(('\U{fffd}', rest))
  {
    hide ReadUnit;
    assert ("\\/" + rest)[2..] == rest;
    var s := "\\u" + hi + "\\u" + lo + rest;
    assert s[6..] == "\\u" + lo + rest && s[8..] == lo + rest && s[12..] == rest;
    assert s[2..] == hi + s[6..];
    var t, u := "\\u" + lo + rest, "\\u" + hi + rest;
    assert t[2..] == lo + rest && u[2..] == hi + rest && t[6..] == rest && u[6..] == rest;
    UnitOf(hi, s[6..]);
    UnitOf(lo, rest);
    UnitOf(hi, rest);
    if |rest| >= 2 && rest[0] == '\\' && rest[1] == 'u' { assert rest[..2] == "\\u"; }
    if |u| >= 8 { assert u[6] == rest[0] && u[7] == rest[1]; }
  }

  lemma UnitOf(digits: string, rest: string)
    requires |digits| == 4
    ensures ReadUnit(digits + rest) == ReadUnit(digits)
  {
  }

  /** A whole text: one value and nothing after it but white space. */
  function Parse(s: string): Option<Json> {
    match ReadValue(s)
    case Some((j, rest)) => if SkipWhite(rest) == "" then Some(j) else None
    case None => None
  }

  // ---------- the reader undoes every writer ----------

  ghost predicate ReadsBack(st: Style, c: char, rest: string) {
    ReadChar(st.escape(c) + rest) == Some((c, rest))
  }

  /** A style the reader can undo: white gaps, and escapes that read back whatever follows them. */
  ghost predicate Readable(st: Style) {
    && SkipWhite(st.gap) == ""
    && forall c, rest :: ReadsBack(st, c, rest)
  }

  lemma {:induction false} SkipGap(gap: string, rest: string)
    requires SkipWhite(gap) == ""
    ensures SkipWhite(gap + rest) == SkipWhite(rest)
  {
    if gap == "" {
      assert gap + rest == rest;
    } else {
      assert (gap + rest)[1..] == gap[1..] + rest;
      SkipGap(gap[1..], rest);
    }
  }

  lemma UnitRoundTrip(c: char, rest: string)
    requires c as int < 0x1_0000
    ensures ReadChar(UnicodeEscape(c) + rest) == Some((c, rest))
  {
    var v := c as int;
    var s := UnicodeEscape(c) + rest;
    assert s[0] == '\\' && s[1] == 'u';
    var t := s[2..];
    assert t[0] == Hex.Digit(v / 0x1000) && t[1] == Hex.Digit(v / 0x100 % 16) && t[2] == Hex.Digit(v / 16 % 16)
           && t[3] == Hex.Digit(v % 16);
    assert v / 0x100 == v / 16 / 16 && v / 0x1000 == v / 0x100 / 16;
    assert ReadUnit(t) == v;
    assert s[6..] == rest;
  }

  lemma EscapesReadBack(c: char, rest: string)
    ensures ReadsBack(JCS, c, rest) && ReadsBack(GO, c, rest) && ReadsBack(JSONB, c, rest)
  {
    if c as int < 0x1_0000 { UnitRoundTrip(c, rest); }
    var s := PlainEscape(c) + rest;
    if |PlainEscape(c)| == 2 {
      assert s[0] == '\\' && s[1] == PlainEscape(c)[1] && s[2..] == rest;
    } else if |PlainEscape(c)| == 1 {
      assert s[0] == c && s[1..] == rest;
    }
  }

  lemma WritersAreReadable()
    ensures Readable(JCS) && Readable(GO) && Readable(JSONB)
  {
    forall c, rest ensures ReadsBack(JCS, c, rest) && ReadsBack(GO, c, rest) && ReadsBack(JSONB, c, rest) {
      EscapesReadBack(c, rest);
    }
  }

  lemma {:induction false} StringRoundTrip(st: Style, s: string, rest: string)
    requires Readable(st)
    ensures ReadString(Escaped(st, s) + "\"" + rest) == Some((s, rest))
  {
    var text := Escaped(st, s) + "\"" + rest;
    if s == "" {
      assert text == "\"" + rest;
      assert text[1..] == rest;
    } else {
      var tail := Escaped(st, s[1..]) + "\"" + rest;
      assert text == st.escape(s[0]) + tail;
      assert ReadsBack(st, s[0], tail);
      StringRoundTrip(st, s[1..], rest);
      assert s == [s[0]] + s[1..];
    }
  }

  /** How a value's text starts: never with white space or a closing bracket. */
  lemma FirstChar(st: Style, j: Json)
    ensures Render(st, j) != ""
    ensures var c := Render(st, j)[0]; !IsWhite(c) && c != ']' && c != '}' && c != ','
  {
  }

  lemma LiteralRoundTrip(st: Style, j: Json, rest: string)
    requires j.Null? || j.Bool?
    ensures ReadValue(Render(st, j) + rest) == Some((j, rest))
  {
    var word := Render(st, j);
    var text := word + rest;
    assert text[..|word|] == word && text[|word|..] == rest;
    assert text[0] == word[0];
  }

  lemma TextRoundTrip(st: Style, s: string, rest: string)
    requires Readable(st)
    ensures ReadValue(Quote(st, s) + rest) == Some((Str(s), rest))
  {
    var text := Quote(st, s) + rest;
    assert text[0] == '"';
    assert text[1..] == Escaped(st, s) + "\"" + rest;
    StringRoundTrip(st, s, rest);
  }

  /** How the reader treats a bracketed text whose body it can read. */
  lemma ReadBrackets(open: char, body: string, text: string)
    requires text == [open] + body && body != "" && SkipWhite(body) == body
    ensures open == '[' && body[0] == ']' ==> ReadValue(text) == Some((Arr([]), body[1..]))
    ensures open == '{' && body[0] == '}' ==> ReadValue(text) == Some((Obj([]), body[1..]))
    ensures open == '[' && body[0] != ']' && ReadItems(body).Some?
            ==> ReadValue(text) == Some((Arr(ReadItems(body).value.0), ReadItems(body).value.1))
    ensures open == '{' && body[0] != '}' && ReadMembers(body).Some?
            ==> ReadValue(text) == Some((Obj(ReadMembers(body).value.0), ReadMembers(body).value.1))
  {
    assert text[1..] == body;
  }

  lemma {:induction false} ValueRoundTrip(st: Style, j: Json, rest: string)
    requires Readable(st)
    ensures ReadValue(Render(st, j) + rest) == Some((j, rest))
    decreases j, 1
  {
    match j
    case Null => LiteralRoundTrip(st, j, rest);
    case Bool(b) => LiteralRoundTrip(st, j, rest);
    case Str(s) => TextRoundTrip(st, s, rest);
    case Arr(items) =>
      var body := RenderItems(st, items) + "]" + rest;
      assert Render(st, j) + rest == "[" + body;
      if items == [] { assert body[0] == ']' && body[1..] == rest; } else { ItemsRoundTrip(st, items, rest); }
      ReadBrackets('[', body, "[" + body);
    case Obj(members) =>
      var body := RenderMembers(st, members) + "}" + rest;
      assert Render(st, j) + rest == "{" + body;
      if members == [] { assert body[0] == '}' && body[1..] == rest; } else { MembersRoundTrip(st, members, rest); }
      ReadBrackets('{', body, "{" + body);
  }

  lemma GapIsWhite(st: Style)
    requires Readable(st)
    ensures SkipWhite(st.gap) == ""
  {
  }

  lemma ReadLastItem(text: string, item: Json, rest: string)
    requires ReadValue(text) == Some((item, "]" + rest))
    ensures ReadItems(text) == Some(([item], rest))
  {
    assert SkipWhite("]" + rest) == "]" + rest && ("]" + rest)[1..] == rest;
  }

  lemma ReadMoreItems(text: string, item: Json, tail: string, items: seq<Json>, rest: string)
    requires ReadValue(text) == Some((item, "," + tail)) && ReadItems(tail) == Some((items, rest))
    ensures ReadItems(text) == Some(([item] + items, rest))
  {
    assert SkipWhite("," + tail) == "," + tail && ("," + tail)[1..] == tail;
  }

  lemma Regroup(a: string, b: string, c: string)
    ensures a + b + c == a + (b + c)
  {
  }

  lemma ItemsUnfold(st: Style, items: seq<Json>)
    requires |items| > 1
    ensures RenderItems(st, items) == Render(st, items[0]) + ("," + (st.gap + RenderItems(st, items[1..])))
  {
    hide Render;
  }

  lemma LastItemText(st: Style, item: Json, rest: string)
    ensures RenderItems(st, [item]) + "]" + rest == Render(st, item) + ("]" + rest)
  {
    hide Render;
    assert RenderItems(st, [item]) == Render(st, item);
    Regroup(Render(st, item), "]", rest);
  }

  lemma MoreItemsText(st: Style, items: seq<Json>, rest: string)
    requires |items| > 1
    ensures RenderItems(st, items) + "]" + rest
            == Render(st, items[0]) + ("," + (st.gap + (RenderItems(st, items[1..]) + "]" + rest)))
  {
    hide Render, RenderItems;
    var first, more, close := Render(st, items[0]), RenderItems(st, items[1..]), "]" + rest;
    ItemsUnfold(st, items);
    Regroup(RenderItems(st, items), "]", rest);
    Regroup(first, "," + (st.gap + more), close);
    Regroup(",", st.gap + more, close);
    Regroup(st.gap, more, close);
    Regroup(more, "]", rest);
  }

  lemma StartsClean(st: Style, j: Json, rest: string)
    ensures var body := Render(st, j) + rest; SkipWhite(body) == body && body[0] != ']'
  {
    FirstChar(st, j);
    hide Render;
  }

  lemma {:induction false} ItemsRoundTrip(st: Style, items: seq<Json>, rest: string)
    requires Readable(st) && items != []
    ensures var body := RenderItems(st, items) + "]" + rest;
            ReadItems(body) == Some((items, rest)) && SkipWhite(body) == body && body[0] != ']'
    decreases items, 0
  {
    hide ReadValue, ReadItems, Render, RenderItems, Readable, SkipWhite;
    GapIsWhite(st);
    if |items| == 1 {
      assert items == [items[0]];
      LastItemText(st, items[0], rest);
      StartsClean(st, items[0], "]" + rest);
      ValueRoundTrip(st, items[0], "]" + rest);
      ReadLastItem(Render(st, items[0]) + ("]" + rest), items[0], rest);
    } else {
      var next := RenderItems(st, items[1..]) + "]" + rest;
      var tail := st.gap + next;
      MoreItemsText(st, items, rest);
      StartsClean(st, items[0], "," + tail);
      ValueRoundTrip(st, items[0], "," + tail);
      ItemsRoundTrip(st, items[1..], rest);
      SkipGap(st.gap, next);
      ItemsSkip(tail, next);
      ReadMoreItems(Render(st, items[0]) + ("," + tail), items[0], tail, items[1..], rest);
      assert items == [items[0]] + items[1..];
    }
  }

  /** The reader starts by skipping white space. */
  lemma ItemsSkip(s: string, t: string)
    requires SkipWhite(s) == SkipWhite(t)
    ensures ReadValue(s) == ReadValue(t) && ReadItems(s) == ReadItems(t)
    ensures ReadMember(s) == ReadMember(t) && ReadMembers(s) == ReadMembers(t)
  {
  }

  /** How the reader treats a member whose key and value it can read. */
  lemma ReadPair(text: string, key: string, tail: string)
    requires text != "" && text[0] == '"' && ReadString(text[1..]) == Some((key, tail))
    requires tail != "" && tail[0] == ':' && ReadValue(tail[1..]).Some?
    ensures ReadMember(text) == Some((Member(key, ReadValue(tail[1..]).value.0), ReadValue(tail[1..]).value.1))
  {
  }

  lemma {:induction false} MemberRoundTrip(st: Style, m: Member, rest: string)
    requires Readable(st)
    ensures ReadMember(RenderMember(st, m) + rest) == Some((m, rest))
    ensures RenderMember(st, m) != "" && RenderMember(st, m)[0] == '"'
    decreases m, 2
  {
    var text := RenderMember(st, m) + rest;
    var value := Render(st, m.value) + rest;
    var tail := ":" + (st.gap + value);
    assert text[1..] == Escaped(st, m.key) + "\"" + tail;
    StringRoundTrip(st, m.key, tail);
    assert tail[1..] == st.gap + value;
    SkipGap(st.gap, value);
    ItemsSkip(st.gap + value, value);
    ValueRoundTrip(st, m.value, rest);
    ReadPair(text, m.key, tail);
  }

  lemma {:induction false} MembersRoundTrip(st: Style, members: seq<Member>, rest: string)
    requires Readable(st) && members != []
    ensures var body := RenderMembers(st, members) + "}" + rest;
            ReadMembers(body) == Some((members, rest)) && SkipWhite(body) == body && body[0] != '}'
    decreases members, 0
  {
    hide ReadMember, RenderMember, ReadValue;
    var body := RenderMembers(st, members) + "}" + rest;
    if |members| == 1 {
      var tail := "}" + rest;
      assert body == RenderMember(st, members[0]) + tail;
      MemberRoundTrip(st, members[0], tail);
      assert tail[1..] == rest;
      assert members == [members[0]];
    } else {
      var next := RenderMembers(st, members[1..]) + "}" + rest;
      var tail := "," + (st.gap + next);
      assert body == RenderMember(st, members[0]) + tail;
      MemberRoundTrip(st, members[0], tail);
      MembersRoundTrip(st, members[1..], rest);
      SkipGap(st.gap, next);
      assert tail[1..] == st.gap + next;
      ItemsSkip(st.gap + next, next);
      assert members == [members[0]] + members[1..];
    }
  }

  /** Whatever a readable writer wrote, the reader recovers the same value. */
  lemma ParseRender(st: Style, j: Json)
    requires Readable(st)
    ensures Parse(Render(st, j)) == Some(j)
  {
    ValueRoundTrip(st, j, "");
    assert Render(st, j) + "" == Render(st, j);
  }
}
