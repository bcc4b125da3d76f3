/** encoding/hex, as used for digests and signing keys. */
module Hex {
  import opened Text

  function Digit(v: int): char
    requires 0 <= v < 16
  {
    if v < 10 then ('0' as int + v) as char else ('a' as int + v - 10) as char
  }

  /** The value of a hexadecimal digit of either case, or -1. */
  function Value(c: char): (v: int)
    ensures -1 <= v < 16
  {
    if '0' <= c <= '9' then c as int - '0' as int
    else if 'a' <= c <= 'f' then c as int - 'a' as int + 10
    else if 'A' <= c <= 'F' then c as int - 'A' as int + 10
    else -1
  }

  function Encode(bs: seq<byte>): string {
    if bs == [] then "" else [Digit(bs[0] / 16), Digit(bs[0] % 16)] + Encode(bs[1..])
  }

  function Decode(s: string): Option<seq<byte>> {
    if s == "" then Some([])
    else if |s| >= 2 && Value(s[0]) >= 0 && Value(s[1]) >= 0 then
      match Decode(s[2..])
      case None => None
      case Some(rest) => Some([Value(s[0]) * 16 + Value(s[1])] + rest)
    else None
  }

  predicate IsLowerDigit(c: char) {
    '0' <= c <= '9' || 'a' <= c <= 'f'
  }

  predicate IsLower(s: string) {
    forall i | 0 <= i < |s| :: IsLowerDigit(s[i])
  }

  /** A digit of either case. */
  predicate IsDigit(c: char) {
    Value(c) >= 0
  }

  predicate AllDigits(s: string) {
    forall i | 0 <= i < |s| :: IsDigit(s[i])
  }

  const DIGITS: string := "0123456789abcdef"

  lemma DigitOf(v: int)
    requires 0 <= v < 16
    ensures Digit(v) == DIGITS[v] && Value(DIGITS[v]) == v
  {
  }

  /** Section 8 of RFC 4648: two digits a byte, the upper half first. */
  lemma {:induction false} EncodedByte(bs: seq<byte>, i: nat)
    requires i < |bs|
    ensures |Encode(bs)| == 2 * |bs|
    ensures Encode(bs)[2 * i] == DIGITS[bs[i] / 16] && Encode(bs)[2 * i + 1] == DIGITS[bs[i] % 16]
  {
    DigitOf(bs[0] / 16);
    DigitOf(bs[0] % 16);
    hide Digit;
    if |bs| > 1 {
      assert Encode(bs)[2..] == Encode(bs[1..]);
      EncodedByte(bs[1..], if i > 0 then i - 1 else 0);
    }
  }

  lemma {:induction false} RoundTrip(bs: seq<byte>)
    ensures Decode(Encode(bs)) == Some(bs)
    ensures |Encode(bs)| == 2 * |bs| && IsLower(Encode(bs))
  {
    if bs != [] {
      RoundTrip(bs[1..]);
      assert Encode(bs)[2..] == Encode(bs[1..]);
      assert bs == [bs[0]] + bs[1..];
    }
  }

  lemma DigitOfValue(c: char)
    requires Value(c) >= 0
    ensures Digit(Value(c)) == c <==> IsLowerDigit(c)
  {
  }

  /** Decoding halves the length and accepts exactly the even-length digit strings. */
  lemma {:induction false} DecodeShape(s: string)
    ensures Decode(s).Some? <==> |s| % 2 == 0 && AllDigits(s)
    ensures Decode(s).Some? ==> |s| == 2 * |Decode(s).value|
  {
    if |s| >= 2 {
      DecodeShape(s[2..]);
      assert forall i | 2 <= i < |s| :: s[i] == s[2..][i - 2];
    }
  }

  /** Decoding is undone by Encode exactly on lower-case text. */
  lemma {:induction false} EncodeOfDecode(s: string)
    requires Decode(s).Some?
    ensures Encode(Decode(s).value) == s <==> IsLower(s)
  {
    if |s| >= 2 {
      EncodeOfDecode(s[2..]);
      DigitOfValue(s[0]);
      DigitOfValue(s[1]);
      var bs, tail := Decode(s).value, Decode(s[2..]).value;
      assert bs[1..] == tail && bs[0] / 16 == Value(s[0]) && bs[0] % 16 == Value(s[1]);
      var t := Encode(bs);
      assert t[2..] == Encode(tail) && t[0] == Digit(Value(s[0])) && t[1] == Digit(Value(s[1]));
      assert t == s <==> t[0] == s[0] && t[1] == s[1] && t[2..] == s[2..] by {
        assert s == [s[0], s[1]] + s[2..] && t == [t[0], t[1]] + t[2..];
      }
      assert IsLower(s) <==> IsLowerDigit(s[0]) && IsLowerDigit(s[1]) && IsLower(s[2..]) by {
        assert forall i | 2 <= i < |s| :: s[i] == s[2..][i - 2];
      }
    }
  }
}

/** encoding/base64: the four encodings of section 4 and section 5 of RFC 4648, padded and raw,
    decoded as Go does: line breaks are skipped and the unused bits of the last digit are ignored. */
module Base64 {
  import opened Text

  datatype Form = Form(url: bool, padded: bool)

  const RAW_URL := Form(true, false)
  const URL := Form(true, true)
  const RAW_STD := Form(false, false)
  const STD := Form(false, true)

  function Digit(f: Form, v: int): char
    requires 0 <= v < 64
  {
    if v < 26 then ('A' as int + v) as char
    else if v < 52 then ('a' as int + v - 26) as char
    else if v < 62 then ('0' as int + v - 52) as char
    else if v == 62 then (if f.url then '-' else '+')
    else (if f.url then '_' else '/')
  }

  /** The value of a digit of the alphabet, or -1. */
  function Value(f: Form, c: char): (v: int)
    ensures -1 <= v < 64
  {
    if 'A' <= c <= 'Z' then c as int - 'A' as int
    else if 'a' <= c <= 'z' then c as int - 'a' as int + 26
    else if '0' <= c <= '9' then c as int - '0' as int + 52
    else if c == (if f.url then '-' else '+') then 62
    else if c == (if f.url then '_' else '/') then 63
    else -1
  }

  function Encode(f: Form, bs: seq<byte>): string {
    if bs == [] then ""
    else if |bs| == 1 then
      [Digit(f, bs[0] / 4), Digit(f, bs[0] % 4 * 16)] + (if f.padded then "==" else "")
    else if |bs| == 2 then
      [Digit(f, bs[0] / 4), Digit(f, bs[0] % 4 * 16 + bs[1] / 16), Digit(f, bs[1] % 16 * 4)]
      + (if f.padded then "=" else "")
    else
      [Digit(f, bs[0] / 4), Digit(f, bs[0] % 4 * 16 + bs[1] / 16), Digit(f, bs[1] % 16 * 4 + bs[2] / 64),
        Digit(f, bs[2] % 64)]
      + Encode(f, bs[3..])
  }

  function SkipBreaks(s: string): string {
    if s == "" then ""
    else if s[0] == '\r' || s[0] == '\n' then SkipBreaks(s[1..])
    else [s[0]] + SkipBreaks(s[1..])
  }

  function Decode(f: Form, s: string): Option<seq<byte>> {
    DecodeDense(f, SkipBreaks(s))
  }

  function First(a: int, b: int): byte
    requires 0 <= a < 64 && 0 <= b < 64
  {
    a * 4 + b / 16
  }

  function Second(b: int, c: int): byte
    requires 0 <= b < 64 && 0 <= c < 64
  {
    b % 16 * 16 + c / 4
  }

  function Third(c: int, d: int): byte
    requires 0 <= c < 64 && 0 <= d < 64
  {
    c % 4 * 64 + d
  }

  predicate Digits(f: Form, s: string, n: nat) {
    n <= |s| && forall i | 0 <= i < n :: Value(f, s[i]) >= 0
  }

  function DecodeDense(f: Form, s: string): Option<seq<byte>> {
    if s == "" then Some([])
    else if Digits(f, s, 4) then
      match DecodeDense(f, s[4..])
      case None => None
      case Some(rest) =>
        var a, b, c, d := Value(f, s[0]), Value(f, s[1]), Value(f, s[2]), Value(f, s[3]);
        Some([First(a, b), Second(b, c), Third(c, d)] + rest)
    else
      var last := if f.padded then 4 else |s|;
      if Digits(f, s, 2) && |s| == last && s[2..] == (if f.padded then "==" else "") then
        Some([First(Value(f, s[0]), Value(f, s[1]))])
      else if Digits(f, s, 3) && |s| == last && s[3..] == (if f.padded then "=" else "") then
        Some([First(Value(f, s[0]), Value(f, s[1])), Second(Value(f, s[1]), Value(f, s[2]))])
      else None
  }

  lemma DigitValue(f: Form, v: int)
    requires 0 <= v < 64
    ensures Value(f, Digit(f, v)) == v
    ensures Digit(f, v) != '.' && Digit(f, v) != '=' && !IsSpace(Digit(f, v))
  {
  }

  /** What the decoder makes of a last quad of two digits, and of three. */
  lemma LastDigits(f: Form, s: string)
    requires !Digits(f, s, 4)
    ensures Digits(f, s, 2) && s[2..] == (if f.padded then "==" else "")
            ==> DecodeDense(f, s) == Some([First(Value(f, s[0]), Value(f, s[1]))])
    ensures Digits(f, s, 3) && s[3..] == (if f.padded then "=" else "")
            ==> DecodeDense(f, s)
                == Some([First(Value(f, s[0]), Value(f, s[1])), Second(Value(f, s[1]), Value(f, s[2]))])
  {
    if Digits(f, s, 3) {
      if s[2..] == "==" { assert s[2..][0] == s[2] == '='; }
    }
  }

  lemma QuadBits(a: byte, b: byte, c: byte)
    ensures First(a / 4, a % 4 * 16 + b / 16) == a
    ensures Second(a % 4 * 16 + b / 16, b % 16 * 4 + c / 64) == b
    ensures Third(b % 16 * 4 + c / 64, c % 64) == c
  {
  }

  lemma PaddingIsNoDigit(f: Form)
    ensures Value(f, '=') == -1
  {
  }

  function Padding(f: Form, n: nat): string {
    if !f.padded then "" else if n == 2 then "==" else "="
  }

  lemma TwoDigits(f: Form, x: int, y: int)
    requires 0 <= x < 64 && 0 <= y < 64
    ensures DecodeDense(f, [Digit(f, x), Digit(f, y)] + Padding(f, 2)) == Some([First(x, y)])
  {
    hide DecodeDense, Digit, Value, First;
    PaddingIsNoDigit(f);
    DigitValue(f, x);
    DigitValue(f, y);
    var s := [Digit(f, x), Digit(f, y)] + Padding(f, 2);
    assert s[2..] == Padding(f, 2);
    assert f.padded ==> s[3] == '=';
    LastDigits(f, s);
  }

  lemma ThreeDigits(f: Form, x: int, y: int, z: int)
    requires 0 <= x < 64 && 0 <= y < 64 && 0 <= z < 64
    ensures DecodeDense(f, [Digit(f, x), Digit(f, y), Digit(f, z)] + Padding(f, 3)) == Some([First(x, y), Second(y, z)])
  {
    hide DecodeDense, Digit, Value, First, Second;
    PaddingIsNoDigit(f);
    DigitValue(f, x);
    DigitValue(f, y);
    DigitValue(f, z);
    var s := [Digit(f, x), Digit(f, y), Digit(f, z)] + Padding(f, 3);
    assert s[3..] == Padding(f, 3);
    assert f.padded ==> s[3] == '=';
    LastDigits(f, s);
  }

  lemma FourDigits(f: Form, x: int, y: int, z: int, u: int, rest: string)
    requires 0 <= x < 64 && 0 <= y < 64 && 0 <= z < 64 && 0 <= u < 64 && DecodeDense(f, rest).Some?
    ensures DecodeDense(f, [Digit(f, x), Digit(f, y), Digit(f, z), Digit(f, u)] + rest)
            == Some([First(x, y), Second(y, z), Third(z, u)] + DecodeDense(f, rest).value)
  {
    hide Digit, Value, First, Second, Third;
    DigitValue(f, x);
    DigitValue(f, y);
    DigitValue(f, z);
    DigitValue(f, u);
    var s := [Digit(f, x), Digit(f, y), Digit(f, z), Digit(f, u)] + rest;
    assert s[4..] == rest;
  }

  lemma EmptyDecodes(f: Form)
    ensures DecodeDense(f, "") == Some([])
  {
  }

  lemma {:induction false} DenseRoundTrip(f: Form, bs: seq<byte>)
    ensures DecodeDense(f, Encode(f, bs)) == Some(bs)
  {
    hide DecodeDense, Digit, Value, First, Second, Third, Digits;
    if |bs| == 0 {
      EmptyDecodes(f);
    } else if |bs| == 1 {
      assert bs == [bs[0]];
      QuadBits(bs[0], 0, 0);
      TwoDigits(f, bs[0] / 4, bs[0] % 4 * 16);
    } else if |bs| == 2 {
      assert bs == [bs[0], bs[1]];
      QuadBits(bs[0], bs[1], 0);
      ThreeDigits(f, bs[0] / 4, bs[0] % 4 * 16 + bs[1] / 16, bs[1] % 16 * 4);
    } else {
      var a: byte, b: byte, c: byte := bs[0], bs[1], bs[2];
      assert bs == [a, b, c] + bs[3..];
      DenseRoundTrip(f, bs[3..]);
      QuadBits(a, b, c);
      FourDigits(f, a / 4, a % 4 * 16 + b / 16, b % 16 * 4 + c / 64, c % 64, Encode(f, bs[3..]));
    }
  }

  /** Text of the encoder holds digits and padding only: no dot, no white space. */
  lemma {:induction false} EncodedIsDense(f: Form, bs: seq<byte>)
    ensures forall c <- Encode(f, bs) :: c != '.' && !IsSpace(c) && (f.padded || c != '=')
  {
    forall v | 0 <= v < 64 ensures Digit(f, v) != '.' && Digit(f, v) != '=' && !IsSpace(Digit(f, v)) {
      DigitValue(f, v);
    }
    if |bs| >= 3 { EncodedIsDense(f, bs[3..]); }
  }

  lemma {:induction false} SkipBreaksIdentity(s: string)
    requires forall c <- s :: !IsSpace(c)
    ensures SkipBreaks(s) == s
  {
    if s != "" {
      assert s[0] in s;
      SkipBreaksIdentity(s[1..]);
      assert s == [s[0]] + s[1..];
    }
  }

  /** Line breaks do not count, wherever they are, and every other character does. */
  lemma {:induction false} BreaksSkipped(a: string, c: char, b: string)
    ensures SkipBreaks(a + [c] + b) == SkipBreaks(a) + (if c == '\r' || c == '\n' then "" else [c]) + SkipBreaks(b)
  {
    if a == "" {
      assert (a + [c] + b)[1..] == b;
    } else {
      assert (a + [c] + b)[1..] == a[1..] + [c] + b;
      BreaksSkipped(a[1..], c, b);
    }
  }

  lemma RoundTrip(f: Form, bs: seq<byte>)
    ensures Decode(f, Encode(f, bs)) == Some(bs)
  {
    EncodedIsDense(f, bs);
    SkipBreaksIdentity(Encode(f, bs));
    DenseRoundTrip(f, bs);
  }

  const UPPER: string := "ABCDEFGHIJKLMNOPQRSTUVWXYZ"
  const LOWER: string := "abcdefghijklmnopqrstuvwxyz"
  const NUMERALS: string := "0123456789"

  /** The alphabet of section 4 of RFC 4648, or that of section 5. */
  function Alphabet(f: Form): (alphabet: string)
    ensures |alphabet| == 64
  {
    UPPER + LOWER + NUMERALS + if f.url then "-_" else "+/"
  }

  lemma Capitals(v: int)
    requires 0 <= v < 26
    ensures UPPER[v] as int == 'A' as int + v
  {
  }

  lemma SmallLetters(v: int)
    requires 0 <= v < 26
    ensures LOWER[v] as int == 'a' as int + v
  {
  }

  lemma Numerals(v: int)
    requires 0 <= v < 10
    ensures NUMERALS[v] as int == '0' as int + v
  {
  }

  lemma DigitOf(f: Form, v: int)
    requires 0 <= v < 64
    ensures Digit(f, v) == Alphabet(f)[v]
  {
    hide UPPER, LOWER, NUMERALS;
    if v < 26 { Capitals(v); } else if v < 52 { SmallLetters(v - 26); } else if v < 62 { Numerals(v - 52); }
    assert |UPPER| == 26 && |LOWER| == 26 && |NUMERALS| == 10 by { Lengths(); }
  }

  lemma Lengths()
    ensures |UPPER| == 26 && |LOWER| == 26 && |NUMERALS| == 10
  {
  }

  /** A digit for each six bits of a number, the most significant first. */
  function Sextets(f: Form, bits: nat, n: nat): (digits: string)
    ensures |digits| == n
  {
    if n == 0 then "" else Sextets(f, bits / 64, n - 1) + [Alphabet(f)[bits % 64]]
  }

  /** Three bytes are four digits. */
  lemma EncodedGroup(f: Form, a: byte, b: byte, c: byte, rest: seq<byte>)
    ensures Encode(f, [a, b, c] + rest) == Sextets(f, (a * 256 + b) * 256 + c, 4) + Encode(f, rest)
  {
    hide Digit, Alphabet;
    assert ([a, b, c] + rest)[3..] == rest;
    FourSextets(f, (a * 256 + b) * 256 + c);
    hide Sextets;
    Bits(a, b, c);
  }

  /** One or two bytes left over are filled up with zero bits to whole digits, and padded to a quad where there is
      padding. */
  lemma EncodedRest(f: Form, a: byte, b: byte)
    ensures Encode(f, []) == ""
    ensures Encode(f, [a]) == Sextets(f, a * 16, 2) + if f.padded then "==" else ""
    ensures Encode(f, [a, b]) == Sextets(f, (a * 256 + b) * 4, 3) + if f.padded then "=" else ""
  {
    hide Digit, Alphabet;
    TwoSextets(f, a * 16);
    ThreeSextets(f, (a * 256 + b) * 4);
    hide Sextets;
    Bits(a, b, 0);
  }

  lemma Bits(a: byte, b: byte, c: byte)
    ensures var n := (a * 256 + b) * 256 + c;
            && n % 64 == c % 64 && n / 64 % 64 == b % 16 * 4 + c / 64
            && n / 64 / 64 % 64 == a % 4 * 16 + b / 16 && n / 64 / 64 / 64 % 64 == a / 4
    ensures var n := (a * 256 + b) * 4;
            && n % 64 == b % 16 * 4 && n / 64 % 64 == a % 4 * 16 + b / 16 && n / 64 / 64 % 64 == a / 4
    ensures a * 16 % 64 == a % 4 * 16 && a * 16 / 64 % 64 == a / 4
  {
    var n := (a * 256 + b) * 256 + c;
    assert n / 64 == (a * 256 + b) * 4 + c / 64;
    assert n / 64 / 64 == a * 16 + b / 16;
    assert n / 64 / 64 / 64 == a / 4;
    var m := (a * 256 + b) * 4;
    assert m / 64 == a * 16 + b / 16;
  }

  lemma TwoSextets(f: Form, n: nat)
    ensures Sextets(f, n, 2) == [Digit(f, n / 64 % 64), Digit(f, n % 64)]
  {
    hide Digit, Sextets;
    LastSextet(f, n, 2);
    LastSextet(f, n / 64, 1);
  }

  lemma ThreeSextets(f: Form, n: nat)
    ensures Sextets(f, n, 3) == [Digit(f, n / 64 / 64 % 64), Digit(f, n / 64 % 64), Digit(f, n % 64)]
  {
    hide Digit, Sextets;
    LastSextet(f, n, 3);
    TwoSextets(f, n / 64);
  }

  lemma FourSextets(f: Form, n: nat)
    ensures Sextets(f, n, 4) == [Digit(f, n / 64 / 64 / 64 % 64), Digit(f, n / 64 / 64 % 64), Digit(f, n / 64 % 64),
                                 Digit(f, n % 64)]
  {
    hide Digit, Sextets;
    LastSextet(f, n, 4);
    ThreeSextets(f, n / 64);
  }

  lemma LastSextet(f: Form, n: nat, width: nat)
    requires width > 0
    ensures Sextets(f, n, width) == Sextets(f, n / 64, width - 1) + [Digit(f, n % 64)] && Sextets(f, n / 64, 0) == ""
  {
    DigitOf(f, n % 64);
  }

  lemma EncodeInjective(f: Form, a: seq<byte>, b: seq<byte>)
    requires Encode(f, a) == Encode(f, b)
    ensures a == b
  {
    RoundTrip(f, a);
    RoundTrip(f, b);
  }

  /** How long the decoded bytes are: raw text leaves no remainder of one digit, padded text is whole quads. */
  lemma {:induction false} DecodeLength(f: Form, s: string)
    requires DecodeDense(f, s).Some?
    ensures f.padded ==> |s| % 4 == 0
    ensures !f.padded ==> |DecodeDense(f, s).value| == |s| * 3 / 4
  {
    if Digits(f, s, 4) {
      DecodeLength(f, s[4..]);
    } else {
      assert |s| <= 4;
    }
  }

  predicate Unpadded(s: string) {
    forall i | 0 <= i < |s| :: s[i] != '='
  }

  lemma LastQuad(f: Form, s: string)
    requires f.padded && s != "" && !Digits(f, s, 4) && DecodeDense(f, s).Some?
    ensures |s| == 4 && s[3] == '='
  {
    if s[2..] == "==" {
      assert s[2..][1] == s[3];
    } else {
      assert s[3..][0] == s[3];
    }
  }

  /** Padded text that holds no padding decodes to three bytes a quad. */
  lemma {:induction false} WholeQuads(f: Form, s: string)
    requires f.padded && DecodeDense(f, s).Some? && Unpadded(s)
    ensures 4 * |DecodeDense(f, s).value| == 3 * |s|
  {
    if s != "" {
      if !Digits(f, s, 4) {
        LastQuad(f, s);
        assert false;
      } else {
        var t := s[4..];
        assert Unpadded(t);
        WholeQuads(f, t);
        assert |DecodeDense(f, s).value| == 3 + |DecodeDense(f, t).value|;
      }
    }
  }

  /** Where both alphabets can read a text, they read the same bytes. */
  lemma {:induction false} AlphabetsAgree(padded: bool, s: string)
    requires DecodeDense(Form(true, padded), s).Some? && DecodeDense(Form(false, padded), s).Some?
    ensures DecodeDense(Form(true, padded), s) == DecodeDense(Form(false, padded), s)
  {
    var u, t := Form(true, padded), Form(false, padded);
    if s != "" {
      assert Value(u, '=') == -1 && Value(t, '=') == -1;
      if Digits(u, s, 4) && Digits(t, s, 4) {
        AlphabetsAgree(padded, s[4..]);
      }
    }
  }
}
