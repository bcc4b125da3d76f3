/** Strings as Go sees them: Unicode text (a Dafny string is a sequence of Unicode
    scalar values), its UTF-8 bytes, and its UTF-16 code units. */
module Text {
  type byte = x: int | 0 <= x < 256

  /** None is a failure: `:-` passes it on. */
  datatype Option<+T> = None | Some(value: T) {
    predicate IsFailure() { None? }
    function PropagateFailure<U>(): Option<U> requires None? { None }
    function Extract(): T requires Some? { value }
  }

  /** A decimal digit. */
  predicate IsDigit(c: char) {
    '0' <= c <= '9'
  }

  /** The white space that strings.TrimSpace removes (unicode.IsSpace). */
  predicate IsSpace(c: char) {
    || '\t' <= c <= '\r' || c == ' ' || c == '\U{85}' || c == '\U{a0}' || c == '\U{1680}'
    || '\U{2000}' <= c <= '\U{200a}'
    || c == '\U{2028}' || c == '\U{2029}' || c == '\U{202f}' || c == '\U{205f}' || c == '\U{3000}'
  }

  predicate Blank(s: string) {
    forall c <- s :: IsSpace(c)
  }

  function TrimLeft(s: string): string {
    if s != "" && IsSpace(s[0]) then TrimLeft(s[1..]) else s
  }

  function TrimRight(s: string): string {
    if s != "" && IsSpace(s[|s| - 1]) then TrimRight(s[..|s| - 1]) else s
  }

  function TrimSpace(s: string): string {
    TrimRight(TrimLeft(s))
  }

  lemma Spaces(c: char)
    ensures IsSpace(c) <==>
            c in ['\t', '\n', '\U{b}', '\U{c}', '\r', ' ', '\U{85}', '\U{a0}', '\U{1680}', '\U{2000}', '\U{2001}',
                  '\U{2002}', '\U{2003}', '\U{2004}', '\U{2005}', '\U{2006}', '\U{2007}', '\U{2008}', '\U{2009}',
                  '\U{200a}', '\U{2028}', '\U{2029}', '\U{202f}', '\U{205f}', '\U{3000}']
  {
  }

  lemma {:induction false} TrimmedLeft(s: string) returns (before: string)
    ensures Blank(before) && s == before + TrimLeft(s) && (TrimLeft(s) != "" ==> !IsSpace(TrimLeft(s)[0]))
  {
    hide IsSpace;
    if s != "" && IsSpace(s[0]) {
      var more := TrimmedLeft(s[1..]);
      before := [s[0]] + more;
      assert s == [s[0]] + (more + TrimLeft(s[1..])) == before + TrimLeft(s);
    } else {
      before := "";
    }
  }

  lemma {:induction false} TrimmedRight(s: string) returns (after: string)
    ensures Blank(after) && s == TrimRight(s) + after
    ensures TrimRight(s) != "" ==> !IsSpace(TrimRight(s)[|TrimRight(s)| - 1]) && TrimRight(s)[0] == s[0]
  {
    hide IsSpace;
    if s != "" && IsSpace(s[|s| - 1]) {
      var more := TrimmedRight(s[..|s| - 1]);
      after := more + [s[|s| - 1]];
      assert s == (TrimRight(s[..|s| - 1]) + more) + [s[|s| - 1]] == TrimRight(s) + after;
    } else {
      after := "";
    }
  }

  /** What is left has no space at either end, and only spaces are gone. */
  lemma TrimExactly(s: string) returns (before: string, after: string)
    ensures s == before + TrimSpace(s) + after && Blank(before) && Blank(after)
    ensures TrimSpace(s) != "" ==> !IsSpace(TrimSpace(s)[0]) && !IsSpace(TrimSpace(s)[|TrimSpace(s)| - 1])
  {
    before := TrimmedLeft(s);
    after := TrimmedRight(TrimLeft(s));
    assert s == before + (TrimSpace(s) + after);
  }

  lemma TrimIsIdentityOnDense(s: string)
    requires forall c <- s :: !IsSpace(c)
    ensures TrimSpace(s) == s
  {
  }

  /** strings.HasPrefix */
  predicate HasPrefix(s: string, prefix: string) {
    |prefix| <= |s| && s[..|prefix|] == prefix
  }

  // ---------- UTF-8 ----------

  function EncodeChar(c: char): (bs: seq<byte>)
    ensures 1 <= |bs| <= 4
  {
    var v := c as int;
    if v < 0x80 then [v]
    else if v < 0x800 then [0xC0 + v / 0x40, 0x80 + v % 0x40]
    else if v < 0x1_0000 then [0xE0 + v / 0x1000, 0x80 + v / 0x40 % 0x40, 0x80 + v % 0x40]
    else [0xF0 + v / 0x4_0000, 0x80 + v / 0x1000 % 0x40, 0x80 + v / 0x40 % 0x40, 0x80 + v % 0x40]
  }

  function Utf8(s: string): seq<byte> {
    if s == "" then [] else EncodeChar(s[0]) + Utf8(s[1..])
  }

  predicate IsTail(b: byte) { 0x80 <= b < 0xC0 }

  predicate IsScalar(v: int) { 0 <= v < 0xD800 || 0xE000 <= v < 0x11_0000 }

  /** The first character of a byte sequence and the number of bytes it takes. */
  function DecodeChar(bs: seq<byte>): (r: Option<(char, nat)>)
    ensures r.Some? ==> 1 <= r.value.1 <= |bs|
  {
    if |bs| == 0 then None
    else
      var lead: int := bs[0];
      if lead < 0x80 then Some((lead as char, 1))
      else if 0xC0 <= lead < 0xE0 && |bs| >= 2 && IsTail(bs[1]) then
        Checked((lead - 0xC0) * 0x40 + Low(bs[1]), 0x80, 2)
      else if 0xE0 <= lead < 0xF0 && |bs| >= 3 && IsTail(bs[1]) && IsTail(bs[2]) then
        Checked((lead - 0xE0) * 0x1000 + Low(bs[1]) * 0x40 + Low(bs[2]), 0x800, 3)
      else if 0xF0 <= lead < 0xF8 && |bs| >= 4 && IsTail(bs[1]) && IsTail(bs[2]) && IsTail(bs[3]) then
        Checked((lead - 0xF0) * 0x4_0000 + Low(bs[1]) * 0x1000 + Low(bs[2]) * 0x40 + Low(bs[3]), 0x1_0000, 4)
      else None
  }

  /** The six bits that a continuation byte carries. */
  function Low(b: int): int { b - 0x80 }

  /** Overlong forms and surrogates are not UTF-8. */
  function Checked(v: int, least: int, n: nat): Option<(char, nat)> {
    if least <= v && IsScalar(v) then Some((v as char, n)) else None
  }

  /** What Go reads in place of what is no character. */
  const REPLACEMENT := '\U{fffd}'

  /** The text of any bytes, as encoding/json reads them: a byte that begins no character is replaced. */
  function FromUtf8(bs: seq<byte>): string {
    if bs == [] then ""
    else
      match DecodeChar(bs)
      case None => [REPLACEMENT] + FromUtf8(bs[1..])
      case Some((c, n)) => [c] + FromUtf8(bs[n..])
  }

  lemma ThreeByteRoundTrip(c: char, rest: seq<byte>)
    requires 0x800 <= c as int < 0x1_0000
    ensures DecodeChar(EncodeChar(c) + rest) == Some((c, 3))
  {
    var v := c as int;
    var bs := EncodeChar(c) + rest;
    assert v / 0x40 == v / 0x1000 * 0x40 + v / 0x40 % 0x40;
    assert bs[0] == 0xE0 + v / 0x1000 && bs[1] == 0x80 + v / 0x40 % 0x40 && bs[2] == 0x80 + v % 0x40;
  }

  lemma FourByteRoundTrip(c: char, rest: seq<byte>)
    requires 0x1_0000 <= c as int
    ensures DecodeChar(EncodeChar(c) + rest) == Some((c, 4))
  {
    var v := c as int;
    var bs := EncodeChar(c) + rest;
    var hi, mid, low, last := v / 0x4_0000, v / 0x1000 % 0x40, v / 0x40 % 0x40, v % 0x40;
    assert v == hi * 0x4_0000 + mid * 0x1000 + low * 0x40 + last by {
      assert v / 0x40 == v / 0x1000 * 0x40 + low;
      assert v / 0x1000 == hi * 0x40 + mid;
    }
    assert bs[0] == 0xF0 + hi && bs[1] == 0x80 + mid && bs[2] == 0x80 + low && bs[3] == 0x80 + last;
  }

  lemma CharRoundTrip(c: char, rest: seq<byte>)
    ensures DecodeChar(EncodeChar(c) + rest) == Some((c, |EncodeChar(c)|))
  {
    var v := c as int;
    if v >= 0x1_0000 {
      FourByteRoundTrip(c, rest);
    } else if v >= 0x800 {
      ThreeByteRoundTrip(c, rest);
    } else if v >= 0x80 {
      var bs := EncodeChar(c) + rest;
      assert bs[0] == 0xC0 + v / 0x40 && bs[1] == 0x80 + v % 0x40;
    }
  }

  /** The bytes of a character, as RFC 3629 (section 3) lays out its bits: one byte below 0x80, else a lead byte that
      tells the length, and continuation bytes of six bits each, the most significant first. */
  lemma Utf8Form(c: char)
    ensures var v: int, u: seq<int> := c as int, EncodeChar(c);
            && (|u| == 1 <==> v < 0x80) && (|u| == 2 <==> 0x80 <= v < 0x800)
            && (|u| == 3 <==> 0x800 <= v < 0x1_0000) && (|u| == 4 <==> 0x1_0000 <= v)
            && (forall i | 1 <= i < |u| :: 0x80 <= u[i] < 0xC0)
            && (|u| == 1 ==> u[0] == v)
            && (|u| == 2 ==> 0xC0 <= u[0] < 0xE0 && v == (u[0] - 0xC0) * 64 + (u[1] - 0x80))
            && (|u| == 3 ==>
                  0xE0 <= u[0] < 0xF0 && v == ((u[0] - 0xE0) * 64 + (u[1] - 0x80)) * 64 + (u[2] - 0x80))
            && (|u| == 4 ==>
                  0xF0 <= u[0] < 0xF8
                  && v == (((u[0] - 0xF0) * 64 + (u[1] - 0x80)) * 64 + (u[2] - 0x80)) * 64 + (u[3] - 0x80))
  {
    var v := c as int;
    assert v / 0x40 / 0x40 == v / 0x1000 && v / 0x40 / 0x40 / 0x40 == v / 0x4_0000;
  }

  lemma {:induction false} Utf8RoundTrip(s: string)
    ensures FromUtf8(Utf8(s)) == s
  {
    if s != "" {
      CharRoundTrip(s[0], Utf8(s[1..]));
      Utf8RoundTrip(s[1..]);
      assert Utf8(s)[|EncodeChar(s[0])|..] == Utf8(s[1..]);
      assert [s[0]] + s[1..] == s;
    }
  }

  // ---------- UTF-16 ----------

  /** The UTF-16 code units of a string, by which RFC 8785 section 3.2.3 orders keys. */
  function Units(c: char): seq<int> {
    var v := c as int;
    if v < 0x1_0000 then [v] else [0xD800 + (v - 0x1_0000) / 0x400, 0xDC00 + (v - 0x1_0000) % 0x400]
  }

  function Utf16(s: string): seq<int> {
    if s == "" then [] else Units(s[0]) + Utf16(s[1..])
  }

  /** A code unit below 0x10000 is the character itself; above, a high and a low surrogate of ten bits each. */
  lemma UnitsOf(c: char)
    ensures var v, u := c as int, Units(c);
            if v < 0x1_0000 then u == [v]
            else
              && |u| == 2 && 0xD800 <= u[0] < 0xDC00 <= u[1] < 0xE000
              && v == 0x1_0000 + (u[0] - 0xD800) * 1024 + (u[1] - 0xDC00)
  {
  }

  lemma {:induction false} PlainUnits(s: string)
    requires forall c <- s :: c as int < 0x1_0000
    ensures |Utf16(s)| == |s| && forall i | 0 <= i < |s| :: Utf16(s)[i] == s[i] as int
  {
    if s != "" {
      assert s[0] in s && forall c <- s[1..] :: c in s;
      PlainUnits(s[1..]);
    }
  }

  lemma {:induction false} Utf16Injective(s: string, t: string)
    requires Utf16(s) == Utf16(t)
    ensures s == t
  {
    if s == "" {
    } else if t == "" {
    } else {
      var us, ut := Utf16(s), Utf16(t);
      assert us[0] == Units(s[0])[0] && ut[0] == Units(t[0])[0];
      assert (us[0] < 0xD800 || us[0] >= 0xDC00) <==> |Units(s[0])| == 1;
      assert (ut[0] < 0xD800 || ut[0] >= 0xDC00) <==> |Units(t[0])| == 1;
      if |Units(s[0])| == 2 {
        assert us[1] == Units(s[0])[1] && ut[1] == Units(t[0])[1];
      }
      assert s[0] == t[0];
      assert us[|Units(s[0])|..] == Utf16(s[1..]) && ut[|Units(t[0])|..] == Utf16(t[1..]);
      Utf16Injective(s[1..], t[1..]);
      assert s == [s[0]] + s[1..] && t == [t[0]] + t[1..];
    }
  }

  // ---------- orders ----------

  predicate LexLess(a: seq<int>, b: seq<int>) {
    if b == [] then false
    else if a == [] then true
    else a[0] < b[0] || (a[0] == b[0] && LexLess(a[1..], b[1..]))
  }

  /** At the first place where they differ the one is smaller, or it ends there. */
  ghost predicate Precedes(a: seq<int>, b: seq<int>) {
    exists n: nat :: n <= |a| && n <= |b| && a[..n] == b[..n]
                     && if n == |a| then n < |b| else n < |b| && a[n] < b[n]
  }

  lemma {:induction false} LexLessExactly(a: seq<int>, b: seq<int>)
    ensures LexLess(a, b) <==> Precedes(a, b)
  {
    if a != [] && b != [] && a[0] == b[0] {
      LexLessExactly(a[1..], b[1..]);
      if Precedes(a[1..], b[1..]) {
        var n: nat :| n <= |a[1..]| && n <= |b[1..]| && a[1..][..n] == b[1..][..n]
          && if n == |a[1..]| then n < |b[1..]| else n < |b[1..]| && a[1..][n] < b[1..][n];
        assert a[..n + 1] == [a[0]] + a[1..][..n] && b[..n + 1] == [b[0]] + b[1..][..n];
      }
      if Precedes(a, b) {
        var n: nat :| n <= |a| && n <= |b| && a[..n] == b[..n] && if n == |a| then n < |b| else n < |b| && a[n] < b[n];
        assert n > 0 && a[1..][..n - 1] == a[..n][1..] && b[1..][..n - 1] == b[..n][1..];
      }
    } else if LexLess(a, b) {
      assert a[..0] == b[..0];
    }
  }

  lemma {:induction false} LexTransitive(a: seq<int>, b: seq<int>, c: seq<int>)
    requires LexLess(a, b) && LexLess(b, c)
    ensures LexLess(a, c)
  {
    if a != [] && a[0] == b[0] && b[0] == c[0] { LexTransitive(a[1..], b[1..], c[1..]); }
  }

  lemma {:induction false} LexTotal(a: seq<int>, b: seq<int>)
    ensures LexLess(a, b) || a == b || LexLess(b, a)
    ensures !(LexLess(a, b) && LexLess(b, a)) && !LexLess(a, a)
  {
    if a != [] && b != [] {
      LexTotal(a[1..], b[1..]);
      assert a == [a[0]] + a[1..] && b == [b[0]] + b[1..];
    }
    if a != [] { LexTotal(a[1..], a[1..]); }
  }

  /** The key order of canonical JSON: by UTF-16 code units. */
  predicate KeyLess(s: string, t: string) {
    LexLess(Utf16(s), Utf16(t))
  }

  lemma KeyOrder(s: string, t: string)
    ensures KeyLess(s, t) || s == t || KeyLess(t, s)
    ensures !(KeyLess(s, t) && KeyLess(t, s)) && !KeyLess(s, s)
  {
    LexTotal(Utf16(s), Utf16(t));
    LexTotal(Utf16(s), Utf16(s));
    if Utf16(s) == Utf16(t) { Utf16Injective(s, t); }
  }

  lemma KeyOrderTransitive(s: string, t: string, u: string)
    requires KeyLess(s, t) && KeyLess(t, u)
    ensures KeyLess(s, u)
  {
    LexTransitive(Utf16(s), Utf16(t), Utf16(u));
  }
}
