/** UUIDs as text: how PostgreSQL prints one, and what it reads as one. */
module Uuid {
  import opened Text
  import Hex

  const WIDTH := 32

  type Id = id: nat | id < 0x1_0000_0000_0000_0000_0000_0000_0000_0000

  /** The last so many hexadecimal digits of a number. */
  function Digits(n: nat, width: nat): (digits: string)
    ensures |digits| == width && forall i | 0 <= i < |digits| :: Hex.IsLowerDigit(digits[i])
    decreases width
  {
    if width == 0 then "" else Digits(n / 16, width - 1) + [Hex.Digit(n % 16)]
  }

  function Dash(group: string, rest: string): string {
    "-" + (group + rest)
  }

  /** In lower case, in groups of 8, 4, 4, 4 and 12. */
  function Print(id: Id): string {
    var d := Digits(id, WIDTH);
    d[..8] + Dash(d[8..12], Dash(d[12..16], Dash(d[16..20], Dash(d[20..], ""))))
  }

  /** Hyphens may separate groups of four digits; so many have been read. */
  function SkipHyphen(s: string, read: nat): (rest: string)
    requires s != ""
    ensures rest != "" && |rest| <= |s|
  {
    if s[0] == '-' && read > 0 && read % 4 == 0 && |s| > 1 then s[1..] else s
  }

  function ReadDigits(s: string, read: nat): Option<string>
    decreases |s|
  {
    if s == "" then Some("")
    else
      var t := SkipHyphen(s, read);
      if !Hex.IsDigit(t[0]) then None
      else
        var rest :- ReadDigits(t[1..], read + 1);
        Some([t[0]] + rest)
  }

  function Number(digits: string): nat {
    if digits == "" then 0
    else
      var last := digits[|digits| - 1];
      16 * Number(digits[..|digits| - 1]) + if Hex.IsDigit(last) then Hex.Value(last) else 0
  }

  function Power(width: nat): nat {
    if width == 0 then 1 else 16 * Power(width - 1)
  }

  lemma {:induction false} NumberBound(digits: string)
    ensures Number(digits) < Power(|digits|)
  {
    if digits != "" { NumberBound(digits[..|digits| - 1]); }
  }

  lemma PowerOfWidth()
    ensures Power(WIDTH) == 0x1_0000_0000_0000_0000_0000_0000_0000_0000
  {
    assert Power(8) == 0x1_0000_0000;
    assert Power(16) == 0x1_0000_0000_0000_0000;
    assert Power(24) == 0x1_0000_0000_0000_0000_0000_0000;
  }

  predicate Braced(s: string) {
    |s| >= 2 && s[0] == '{' && s[|s| - 1] == '}'
  }

  /** The UUID input of PostgreSQL: 32 digits in either case, with or without hyphens, perhaps in braces. */
  function Parse(s: string): Option<Id> {
    var digits :- ReadDigits(if Braced(s) then s[1..|s| - 1] else s, 0);
    if |digits| != WIDTH then None
    else
      NumberBound(digits);
      PowerOfWidth();
      Some(Number(digits))
  }

  // ---------- a printed UUID reads back ----------

  lemma {:induction false} DigitsNumber(n: nat, width: nat)
    requires n < Power(width)
    ensures Number(Digits(n, width)) == n
    decreases width
  {
    if width != 0 {
      DigitsNumber(n / 16, width - 1);
      var d := Digits(n, width);
      assert d[..|d| - 1] == Digits(n / 16, width - 1) && d[|d| - 1] == Hex.Digit(n % 16);
    }
  }

  lemma ReadOne(c: char, rest: string, read: nat, digits: string)
    requires Hex.IsDigit(c) && ReadDigits(rest, read + 1) == Some(digits)
    ensures ReadDigits([c] + rest, read) == Some([c] + digits)
  {
    assert ([c] + rest)[1..] == rest;
  }

  lemma {:induction false} ReadGroup(group: string, rest: string, read: nat, digits: string)
    requires Hex.AllDigits(group) && ReadDigits(rest, read + |group|) == Some(digits)
    ensures ReadDigits(group + rest, read) == Some(group + digits)
  {
    hide ReadDigits;
    if group == "" {
      assert group + rest == rest && group + digits == digits;
    } else {
      var c, more := group[0], group[1..];
      ReadGroup(more, rest, read + 1, digits);
      ReadOne(c, more + rest, read, more + digits);
      assert [c] + (more + rest) == group + rest && [c] + (more + digits) == group + digits;
    }
  }

  lemma ReadHyphen(group: string, rest: string, read: nat, digits: string)
    requires group != "" && read > 0 && read % 4 == 0 && Hex.AllDigits(group)
    requires ReadDigits(rest, read + |group|) == Some(digits)
    ensures ReadDigits(Dash(group, rest), read) == Some(group + digits)
  {
    var s := Dash(group, rest);
    assert Hex.IsDigit(group[0]) && group[0] != '-' && s[1..] == group + rest;
    ReadGroup(group, rest, read, digits);
    assert SkipHyphen(group + rest, read) == group + rest;
  }

  lemma ReadGroups(a: string, b: string, c: string, d: string, e: string)
    requires Hex.AllDigits(a) && Hex.AllDigits(b) && Hex.AllDigits(c) && Hex.AllDigits(d) && Hex.AllDigits(e)
    requires |a| == 8 && |b| == 4 && |c| == 4 && |d| == 4 && e != ""
    ensures ReadDigits(a + Dash(b, Dash(c, Dash(d, Dash(e, "")))), 0) == Some(a + (b + (c + (d + (e + "")))))
  {
    assert ReadDigits("", 20 + |e|) == Some("");
    hide ReadDigits, Hex.AllDigits, Dash;
    ReadTwo(d, e, "", 16, "");
    ReadThree(a, b, c, Dash(d, Dash(e, "")), d + (e + ""));
  }

  lemma ReadThree(a: string, b: string, c: string, rest: string, digits: string)
    requires Hex.AllDigits(a) && Hex.AllDigits(b) && Hex.AllDigits(c) && |a| == 8 && |b| == 4 && |c| == 4
    requires ReadDigits(rest, 16) == Some(digits)
    ensures ReadDigits(a + Dash(b, Dash(c, rest)), 0) == Some(a + (b + (c + digits)))
  {
    hide ReadDigits, Hex.AllDigits, Dash;
    ReadTwo(b, c, rest, 8, digits);
    ReadGroup(a, Dash(b, Dash(c, rest)), 0, b + (c + digits));
  }

  lemma ReadTwo(b: string, c: string, rest: string, read: nat, digits: string)
    requires b != "" && c != "" && |b| % 4 == 0 && read > 0 && read % 4 == 0 && Hex.AllDigits(b) && Hex.AllDigits(c)
    requires ReadDigits(rest, read + |b| + |c|) == Some(digits)
    ensures ReadDigits(Dash(b, Dash(c, rest)), read) == Some(b + (c + digits))
  {
    hide ReadDigits, Hex.AllDigits, Dash;
    ReadHyphen(c, rest, read + |b|, digits);
    ReadHyphen(b, Dash(c, rest), read, c + digits);
  }

  /** Every identifier's text is read back as that identifier. */
  lemma RoundTrip(id: Id)
    ensures Parse(Print(id)) == Some(id)
  {
    hide ReadDigits, Digits, Number, Dash;
    var d := Digits(id, WIDTH);
    PowerOfWidth();
    DigitsNumber(id, WIDTH);
    assert Hex.AllDigits(d) by {
      forall i | 0 <= i < |d| ensures Hex.IsDigit(d[i]) { assert Hex.IsLowerDigit(d[i]); }
    }
    ReadGroups(d[..8], d[8..12], d[12..16], d[16..20], d[20..]);
    assert d[..8] + (d[8..12] + (d[12..16] + (d[16..20] + (d[20..] + "")))) == d;
    assert Print(id)[0] == d[0] && Hex.IsDigit(d[0]);
  }

  // ---------- what is printed ----------

  /** The digit at each place, the most significant first. */
  lemma {:induction false} DigitsAt(n: nat, width: nat, i: nat)
    requires i < width
    ensures Power(width - 1 - i) > 0 && Digits(n, width)[i] == Hex.DIGITS[n / Power(width - 1 - i) % 16]
    decreases width
  {
    if i == width - 1 {
      Hex.DigitOf(n % 16);
    } else {
      DigitsAt(n / 16, width - 1, i);
      var p := Power(width - 2 - i);
      assert Power(width - 1 - i) == 16 * p;
      assert n / 16 / p == n / (16 * p) by { Quotients(n, p); }
    }
  }

  lemma Quotients(n: nat, p: nat)
    requires p > 0
    ensures n / 16 / p == n / (16 * p)
  {
    var q, r := n / 16 / p, n / 16 % p;
    assert n / 16 == p * q + r;
    assert n == 16 * (p * q) + (16 * r + n % 16) && 16 * (p * q) == 16 * p * q;
    assert 16 * r + n % 16 < 16 * p;
    Quotient(n, 16 * p, q, 16 * r + n % 16);
  }

  lemma Quotient(n: nat, d: nat, q: nat, r: nat)
    requires r < d && n == d * q + r
    ensures n / d == q
  {
    var k := n / d;
    assert n == d * k + n % d;
    assert k < q ==> d * (k + 1) <= d * q;
    assert k > q ==> d * (q + 1) <= d * k;
  }

  /** Section 4 of RFC 9562: 36 characters, hyphens after 8, 12, 16 and 20 digits, and the i-th digit of the number in
      lower case at its place. */
  lemma Printed(id: Id, i: nat)
    requires i < 32
    ensures var s := Print(id);
            && |s| == 36 && s[8] == '-' && s[13] == '-' && s[18] == '-' && s[23] == '-'
            && var digits := s[..8] + s[9..13] + s[14..18] + s[19..23] + s[24..];
            |digits| == 32 && Power(31 - i) > 0 && digits[i] == Hex.DIGITS[id / Power(31 - i) % 16]
  {
    hide Digits, Power;
    DigitsAt(id, 32, i);
    PrintedGroups(id, Digits(id, 32));
  }

  lemma PrintedGroups(id: Id, d: string)
    requires d == Digits(id, 32)
    ensures var s := Print(id);
            && |s| == 36 && s[8] == '-' && s[13] == '-' && s[18] == '-' && s[23] == '-'
            && s[..8] + s[9..13] + s[14..18] + s[19..23] + s[24..] == d
  {
    hide Digits, Dash;
    var e := Dash(d[20..], "");
    var c := Dash(d[16..20], e);
    var b := Dash(d[12..16], c);
    var a := Dash(d[8..12], b);
    var s := Print(id);
    DashParts(d[..8], d[8..12], b);
    DashParts(d[..8] + "-" + d[8..12], d[12..16], c);
    DashParts(d[..8] + "-" + d[8..12] + "-" + d[12..16], d[16..20], e);
    DashParts(d[..8] + "-" + d[8..12] + "-" + d[12..16] + "-" + d[16..20], d[20..], "");
    assert s == d[..8] + a;
    Shape(s, d[..8], d[8..12], d[12..16], d[16..20], d[20..]);
    assert d[..8] + d[8..12] + d[12..16] + d[16..20] + d[20..] == d;
  }

  lemma DashParts(before: string, group: string, rest: string)
    ensures before + Dash(group, rest) == before + "-" + group + rest
  {
  }

  lemma Shape(s: string, a: string, b: string, c: string, d: string, e: string)
    requires |a| == 8 && |b| == 4 && |c| == 4 && |d| == 4 && |e| == 12
    requires s == a + "-" + b + "-" + c + "-" + d + "-" + e
    ensures |s| == 36 && s[8] == '-' && s[13] == '-' && s[18] == '-' && s[23] == '-'
    ensures s[..8] == a && s[9..13] == b && s[14..18] == c && s[19..23] == d && s[24..] == e
  {
  }

  /** Without hyphens, and in braces, a text is read as the same UUID. */
  lemma OtherSpellings(id: Id)
    ensures Parse(Digits(id, WIDTH)) == Some(id) && Parse("{" + Print(id) + "}") == Some(id)
  {
    hide ReadDigits, Digits, Number, Dash;
    var d, s := Digits(id, WIDTH), Print(id);
    PowerOfWidth();
    DigitsNumber(id, WIDTH);
    DigitsAreDigits(id);
    EmptyRead(WIDTH);
    ReadGroup(d, "", 0, "");
    assert d + "" == d && Hex.IsDigit(d[0]);
    RoundTrip(id);
    PrintedFirst(id);
    assert ("{" + s + "}")[1..|s| + 1] == s;
  }

  /** Digits in groups of four, a hyphen before those groups where there is one. */
  function Spelled(digits: string, hyphens: seq<bool>): string
    requires |digits| == 4 * |hyphens|
  {
    if hyphens == [] then ""
    else (if hyphens[0] then "-" else "") + digits[..4] + Spelled(digits[4..], hyphens[1..])
  }

  /** Eight groups of four digits of either case, between any two of them a hyphen or not. */
  ghost predicate IsSpelling(s: string, id: Id, digits: string, hyphens: seq<bool>) {
    && |hyphens| == 8 && |digits| == 32 && Hex.AllDigits(digits) && !hyphens[0]
    && s == Spelled(digits, hyphens) && Number(digits) == id
  }

  /** The texts without braces that are read as a UUID. */
  lemma SpellingsExactly(s: string, id: Id)
    requires !Braced(s)
    ensures Parse(s) == Some(id) <==> exists digits, hyphens :: IsSpelling(s, id, digits, hyphens)
  {
    hide ReadDigits, Number;
    if Parse(s) == Some(id) {
      var digits := ReadDigits(s, 0).value;
      var hyphens := SpellingOf(s, 0, digits);
      assert IsSpelling(s, id, digits, hyphens);
    }
    if digits, hyphens :| IsSpelling(s, id, digits, hyphens) { SpellingRead(digits, hyphens, 0); }
  }

  lemma {:induction false} SpellingRead(digits: string, hyphens: seq<bool>, read: nat)
    requires |digits| == 4 * |hyphens| && Hex.AllDigits(digits) && read % 4 == 0
    requires read == 0 && hyphens != [] ==> !hyphens[0]
    ensures ReadDigits(Spelled(digits, hyphens), read) == Some(digits)
    decreases |hyphens|
  {
    hide ReadDigits;
    if hyphens == [] {
      EmptyRead(read);
    } else {
      var rest := Spelled(digits[4..], hyphens[1..]);
      SpellingRead(digits[4..], hyphens[1..], read + 4);
      assert digits == digits[..4] + digits[4..];
      if hyphens[0] {
        assert Spelled(digits, hyphens) == Dash(digits[..4], rest);
        ReadHyphen(digits[..4], rest, read, digits[4..]);
      } else {
        assert Spelled(digits, hyphens) == digits[..4] + rest;
        ReadGroup(digits[..4], rest, read, digits[4..]);
      }
    }
  }

  /** One digit read, after a hyphen or not. */
  lemma OneRead(s: string, read: nat, digits: string) returns (hyphen: bool, rest: string)
    requires ReadDigits(s, read) == Some(digits) && digits != ""
    ensures Hex.IsDigit(digits[0]) && ReadDigits(rest, read + 1) == Some(digits[1..]) && |rest| < |s|
    ensures s == (if hyphen then "-" else "") + [digits[0]] + rest
    ensures hyphen ==> read > 0 && read % 4 == 0
  {
    var t := SkipHyphen(s, read);
    hyphen, rest := t != s, t[1..];
    assert digits[1..] == ReadDigits(t[1..], read + 1).value && t == [t[0]] + t[1..];
    assert hyphen ==> s == "-" + t;
  }

  lemma {:induction false} SpellingOf(s: string, read: nat, digits: string) returns (hyphens: seq<bool>)
    requires ReadDigits(s, read) == Some(digits) && read % 4 == 0 && |digits| % 4 == 0
    ensures |digits| == 4 * |hyphens| && Hex.AllDigits(digits) && s == Spelled(digits, hyphens)
    ensures read == 0 && hyphens != [] ==> !hyphens[0]
    decreases |s|
  {
    hide ReadDigits;
    if digits == "" {
      NothingRead(s, read);
      hyphens := [];
    } else {
      var h, r1 := OneRead(s, read, digits);
      var h2, r2 := OneRead(r1, read + 1, digits[1..]);
      var h3, r3 := OneRead(r2, read + 2, digits[2..]);
      var h4, r4 := OneRead(r3, read + 3, digits[3..]);
      var more := SpellingOf(r4, read + 4, digits[4..]);
      hyphens := [h] + more;
      assert digits == digits[..4] + digits[4..] && hyphens[1..] == more;
      assert s == (if h then "-" else "") + digits[..4] + r4;
    }
  }

  lemma NothingRead(s: string, read: nat)
    requires ReadDigits(s, read) == Some("")
    ensures s == ""
  {
  }

  lemma EmptyRead(read: nat)
    ensures ReadDigits("", read) == Some("")
  {
  }

  lemma DigitsAreDigits(id: Id)
    ensures Hex.AllDigits(Digits(id, WIDTH))
  {
    var d := Digits(id, WIDTH);
    forall i | 0 <= i < |d| ensures Hex.IsDigit(d[i]) { assert Hex.IsLowerDigit(d[i]); }
  }

  lemma PrintedFirst(id: Id)
    ensures Print(id) != "" && Hex.IsDigit(Print(id)[0])
  {
    hide Digits, Dash;
    assert Hex.IsLowerDigit(Digits(id, WIDTH)[0]);
  }

  // ---------- case does not matter ----------

  function Raise(c: char): char {
    if 'a' <= c <= 'z' then (c as int - 32) as char else c
  }

  function Upper(s: string): (r: string)
    ensures |r| == |s| && forall i | 0 <= i < |s| :: r[i] == Raise(s[i])
  {
    seq(|s|, i requires 0 <= i < |s| => Raise(s[i]))
  }

  lemma UpperCons(c: char, s: string)
    ensures Upper([c] + s) == [Raise(c)] + Upper(s)
    ensures Hex.Value(Raise(c)) == Hex.Value(c) && (Raise(c) == '-' <==> c == '-')
  {
  }

  lemma UpperSkips(s: string, read: nat)
    requires s != ""
    ensures Upper(s) != "" && SkipHyphen(Upper(s), read) == Upper(SkipHyphen(s, read))
  {
    assert Upper(s)[1..] == Upper(s[1..]);
  }

  lemma {:induction false} UpperDigits(s: string, read: nat)
    ensures ReadDigits(Upper(s), read).Some? <==> ReadDigits(s, read).Some?
    ensures ReadDigits(s, read).Some? ==> ReadDigits(Upper(s), read).value == Upper(ReadDigits(s, read).value)
    decreases |s|
  {
    hide Upper, Raise, SkipHyphen, Hex.Value;
    if s != "" {
      var t := SkipHyphen(s, read);
      UpperSkips(s, read);
      assert t == [t[0]] + t[1..];
      UpperCons(t[0], t[1..]);
      assert Upper(t)[1..] == Upper(t[1..]);
      UpperDigits(t[1..], read + 1);
      if ReadDigits(s, read).Some? { UpperCons(t[0], ReadDigits(t[1..], read + 1).value); }
    }
  }

  lemma {:induction false} UpperNumber(digits: string)
    ensures Number(Upper(digits)) == Number(digits)
  {
    if digits != "" {
      assert Upper(digits)[..|digits| - 1] == Upper(digits[..|digits| - 1]);
      UpperNumber(digits[..|digits| - 1]);
    }
  }

  /** A text in upper case is read as the same UUID. */
  lemma UpperIsSame(s: string)
    ensures Parse(Upper(s)) == Parse(s)
  {
    assert Braced(Upper(s)) == Braced(s);
    var inner := if Braced(s) then s[1..|s| - 1] else s;
    assert (if Braced(s) then Upper(s)[1..|s| - 1] else Upper(s)) == Upper(inner);
    UpperDigits(inner, 0);
    if ReadDigits(inner, 0).Some? {
      var digits := ReadDigits(inner, 0).value;
      UpperNumber(digits);
      assert digits != "" ==> (Upper(digits)[0] == '0' <==> digits[0] == '0');
    }
  }

  /** The identifier 10, in upper case, is another text of the same UUID. */
  lemma UpperDiffers()
    ensures Upper(Print(10)) != Print(10) && Parse(Upper(Print(10))) == Some(10)
  {
    hide Digits, Parse, Upper;
    RoundTrip(10);
    UpperIsSame(Print(10));
    LastDigit(10, WIDTH);
    PrintedLast(10);
    var s := Print(10);
    assert Upper(s)[|s| - 1] == Raise(s[|s| - 1]);
  }

  lemma LastDigit(n: nat, width: nat)
    requires width > 0
    ensures Digits(n, width)[|Digits(n, width)| - 1] == Hex.Digit(n % 16)
  {
  }

  lemma PrintedLast(id: Id)
    ensures var d, s := Digits(id, WIDTH), Print(id); s != "" && s[|s| - 1] == d[|d| - 1]
  {
    hide Digits;
    var d := Digits(id, WIDTH);
    assert d[20..][|d[20..]| - 1] == d[|d| - 1];
  }
}
