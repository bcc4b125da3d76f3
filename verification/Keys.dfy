/** Signing keys: decoding the configured key and building signers. */
module Keys {
  import opened Text
  import opened Signing
  import Base64
  import Hex

  datatype Decoder = B64(form: Base64.Form) | Base16

  /** The order in which ParsePrivateKey tries them. */
  const DECODERS: seq<Decoder> := [B64(Base64.RAW_URL), B64(Base64.URL), B64(Base64.RAW_STD), B64(Base64.STD), Base16]

  function Decode(d: Decoder, s: string): Option<seq<byte>> {
    match d
    case B64(form) => Base64.Decode(form, s)
    case Base16 => Hex.Decode(s)
  }

  function Encode(d: Decoder, bs: seq<byte>): string {
    match d
    case B64(form) => Base64.Encode(form, bs)
    case Base16 => Hex.Encode(bs)
  }

  predicate IsKeySize(n: int) {
    n == SEED_SIZE || n == PRIVATE_KEY_SIZE
  }

  /** The decoder reads a seed or a private key. */
  predicate YieldsKey(d: Decoder, s: string) {
    Decode(d, s).Some? && IsKeySize(|Decode(d, s).value|)
  }

  lemma PaddedNeverRaw(padded: Base64.Form, raw: Base64.Form, s: string)
    requires padded.padded && !raw.padded && YieldsKey(B64(padded), s)
    ensures !YieldsKey(B64(raw), s)
  {
    hide Base64.DecodeDense, Base64.SkipBreaks;
    var t := Base64.SkipBreaks(s);
    Base64.DecodeLength(padded, t);
    if YieldsKey(B64(raw), s) {
      Base64.DecodeLength(raw, t);
      RawLength(|t|, |Base64.DecodeDense(raw, t).value|);
    }
  }

  /** No raw text of a key is whole quads. */
  lemma RawLength(length: nat, decoded: nat)
    requires decoded == length * 3 / 4 && IsKeySize(decoded)
    ensures length % 4 != 0
  {
  }

  lemma HexHasNoBreaks(s: string)
    requires Hex.AllDigits(s)
    ensures Base64.SkipBreaks(s) == s
  {
    forall c | c in s ensures !IsSpace(c) {
      var i :| 0 <= i < |s| && s[i] == c;
      assert Hex.Value(s[i]) >= 0;
    }
    Base64.SkipBreaksIdentity(s);
  }

  lemma HexNeverBase64(form: Base64.Form, s: string)
    requires YieldsKey(Base16, s)
    ensures !YieldsKey(B64(form), s)
  {
    Hex.DecodeShape(s);
    HexHasNoBreaks(s);
    if YieldsKey(B64(form), s) {
      Base64.DecodeLength(form, s);
      assert Base64.Unpadded(s) by {
        forall i | 0 <= i < |s| ensures s[i] != '=' { assert Hex.Value(s[i]) >= 0; }
      }
      if form.padded { Base64.WholeQuads(form, s); }
    }
  }

  /** All decoders that read a key out of a text read the same key, so their order does not matter. */
  lemma DecodersAgree(d: Decoder, d': Decoder, s: string)
    requires YieldsKey(d, s) && YieldsKey(d', s)
    ensures Decode(d, s) == Decode(d', s)
  {
    match (d, d')
    case (B64(f), B64(g)) =>
      if f.padded && !g.padded { PaddedNeverRaw(f, g, s); }
      if !f.padded && g.padded { PaddedNeverRaw(g, f, s); }
      Base64FormsAgree(f, g, s);
    case (Base16, B64(g)) => HexNeverBase64(g, s);
    case (B64(f), Base16) => HexNeverBase64(f, s);
    case (Base16, Base16) =>
  }

  lemma Base64FormsAgree(f: Base64.Form, g: Base64.Form, s: string)
    requires f.padded == g.padded && Base64.Decode(f, s).Some? && Base64.Decode(g, s).Some?
    ensures Base64.Decode(f, s) == Base64.Decode(g, s)
  {
    if f != g { Base64.AlphabetsAgree(f.padded, Base64.SkipBreaks(s)); }
  }

  lemma EncodedKey(d: Decoder, bs: seq<byte>)
    ensures Decode(d, Encode(d, bs)) == Some(bs)
    ensures TrimSpace(Encode(d, bs)) == Encode(d, bs)
  {
    match d
    case B64(form) =>
      Base64.RoundTrip(form, bs);
      Base64.EncodedIsDense(form, bs);
      TrimIsIdentityOnDense(Encode(d, bs));
    case Base16 =>
      Hex.RoundTrip(bs);
      forall c | c in Hex.Encode(bs) ensures !IsSpace(c) {
        var i :| 0 <= i < |Hex.Encode(bs)| && Hex.Encode(bs)[i] == c;
        assert Hex.IsLowerDigit(Hex.Encode(bs)[i]);
      }
      TrimIsIdentityOnDense(Encode(d, bs));
  }

  /** The private key that the bytes of a seed or of a private key stand for; expand is NewKeyFromSeed. */
  function KeyOf(expand: seq<byte> -> seq<byte>, raw: seq<byte>): seq<byte> {
    if |raw| == SEED_SIZE then expand(raw) else raw
  }

  lemma EncodersByName(encoded: string, bs: seq<byte>)
    requires Encodes(encoded, bs)
    ensures exists d :: d in DECODERS && encoded == Encode(d, bs)
  {
    assert B64(Base64.RAW_URL) in DECODERS && B64(Base64.URL) in DECODERS && B64(Base64.RAW_STD) in DECODERS
           && B64(Base64.STD) in DECODERS && Base16 in DECODERS;
    if encoded == Hex.Encode(bs) { assert encoded == Encode(Base16, bs); }
    if encoded == Base64.Encode(Base64.RAW_URL, bs) { assert encoded == Encode(B64(Base64.RAW_URL), bs); }
    if encoded == Base64.Encode(Base64.URL, bs) { assert encoded == Encode(B64(Base64.URL), bs); }
    if encoded == Base64.Encode(Base64.RAW_STD, bs) { assert encoded == Encode(B64(Base64.RAW_STD), bs); }
    if encoded == Base64.Encode(Base64.STD, bs) { assert encoded == Encode(B64(Base64.STD), bs); }
  }

  lemma DecodersByName(s: string)
    ensures (exists d <- DECODERS :: YieldsKey(d, s)) <==> DecodesTo(s, 32) || DecodesTo(s, 64)
  {
    hide Base64.Decode, Hex.Decode;
    assert Decode(Base16, s) == Hex.Decode(s) && Base16 in DECODERS;
    forall form | form in [Base64.RAW_URL, Base64.URL, Base64.RAW_STD, Base64.STD]
      ensures B64(form) in DECODERS && Decode(B64(form), s) == Base64.Decode(form, s)
    {
    }
  }

  /** One of the five encodings that keys are configured in, any base64 or hexadecimal. */
  predicate Encodes(encoded: string, bs: seq<byte>) {
    || encoded == Base64.Encode(Base64.Form(true, false), bs) || encoded == Base64.Encode(Base64.Form(true, true), bs)
    || encoded == Base64.Encode(Base64.Form(false, false), bs) || encoded == Base64.Encode(Base64.Form(false, true), bs)
    || encoded == Hex.Encode(bs)
  }

  /** Any base64, or hexadecimal, decodes the text to so many bytes. */
  predicate DecodesTo(s: string, n: nat) {
    || (exists form | form in [Base64.RAW_URL, Base64.URL, Base64.RAW_STD, Base64.STD] ::
          Base64.Decode(form, s).Some? && |Base64.Decode(form, s).value| == n)
    || (Hex.Decode(s).Some? && |Hex.Decode(s).value| == n)
  }

  /** ParsePrivateKey. It is order-independent: the result is the key of what any one of the decoders that fit reads. A
      seed of 32 bytes is expanded, a key of 64 bytes is taken as it is, and there is no other key. */
  method ParsePrivateKey(expand: seq<byte> -> seq<byte>, encoded: string) returns (key: Option<seq<byte>>)
    ensures forall bs | Encodes(encoded, bs) ::
      (|bs| == 32 ==> key == Some(expand(bs))) && (|bs| == 64 ==> key == Some(bs))
    ensures key.Some? <==> DecodesTo(TrimSpace(encoded), 32) || DecodesTo(TrimSpace(encoded), 64)
    ensures forall d <- DECODERS | YieldsKey(d, TrimSpace(encoded)) ::
      key == Some(KeyOf(expand, Decode(d, TrimSpace(encoded)).value))
    ensures key.None? <==> forall d <- DECODERS :: !YieldsKey(d, TrimSpace(encoded))
    ensures forall d, bs :: d in DECODERS && IsKeySize(|bs|) && encoded == Encode(d, bs) ==>
      key == Some(KeyOf(expand, bs))
  {
    var trimmed := TrimSpace(encoded);
    DecodersByName(trimmed);
    forall bs | Encodes(encoded, bs) ensures exists d :: d in DECODERS && encoded == Encode(d, bs) {
      EncodersByName(encoded, bs);
    }
    forall d, bs | d in DECODERS && IsKeySize(|bs|) && encoded == Encode(d, bs)
      ensures trimmed == encoded && Decode(d, trimmed) == Some(bs) && YieldsKey(d, trimmed)
    {
      EncodedKey(d, bs);
    }
    if trimmed == "" {
      assert forall d <- DECODERS :: Decode(d, "") == Some([]);
      return None;
    }
    for i := 0 to |DECODERS|
      invariant forall k | 0 <= k < i :: !YieldsKey(DECODERS[k], trimmed)
    {
      var raw := Decode(DECODERS[i], trimmed);
      if raw.Some? && IsKeySize(|raw.value|) {
        forall d | d in DECODERS && YieldsKey(d, trimmed) ensures raw == Decode(d, trimmed) {
          DecodersAgree(DECODERS[i], d, trimmed);
        }
        assert YieldsKey(DECODERS[i], trimmed);
        return Some(KeyOf(expand, raw.value));
      }
    }
    return None;
  }

  // ---------- signers ----------

  predicate IsDecimal(s: string) {
    s != "" && forall c <- s :: '0' <= c <= '9'
  }

  /** NewSigner: a 64-byte key and a decimal epoch, else no signer. */
  method NewSigner(privateKey: seq<byte>, keyEpoch: string) returns (signer: Option<Signer>)
    ensures signer.Some? <==> |privateKey| == PRIVATE_KEY_SIZE && IsDecimal(TrimSpace(keyEpoch))
    ensures signer.Some? ==> signer.value == Signer(privateKey, KEY_ID_PREFIX + TrimSpace(keyEpoch))
    ensures signer.Some? ==> HasPrefix(signer.value.kid, KEY_ID_PREFIX)
  {
    if |privateKey| != PRIVATE_KEY_SIZE { return None; }
    var epoch := TrimSpace(keyEpoch);
    if epoch == "" { return None; }
    for i := 0 to |epoch|
      invariant forall k | 0 <= k < i :: '0' <= epoch[k] <= '9'
    {
      assert epoch[i] in epoch;
      if epoch[i] < '0' || epoch[i] > '9' { return None; }
    }
    return Some(Signer(privateKey, KEY_ID_PREFIX + epoch));
  }

  /** Printable ASCII without blanks, at most 128 characters. */
  predicate CanonicalKeyId(kid: string) {
    1 <= |kid| <= 128 && forall c <- kid :: '\U{21}' <= c <= '\U{7e}'
  }

  lemma PrintableIsTrimmed(kid: string)
    requires forall c <- kid :: '\U{21}' <= c <= '\U{7e}'
    ensures TrimSpace(kid) == kid && |Utf8(kid)| == |kid|
  {
    TrimIsIdentityOnDense(kid);
    AsciiBytes(kid);
  }

  lemma {:induction false} AsciiBytes(s: string)
    requires forall c <- s :: c <= '\U{7e}'
    ensures |Utf8(s)| == |s|
  {
    if s != "" {
      assert s[0] in s && forall c <- s[1..] :: c in s;
      AsciiBytes(s[1..]);
    }
  }

  lemma {:induction false} BytesAtLeast(s: string)
    ensures |Utf8(s)| >= |s|
  {
    if s != "" { BytesAtLeast(s[1..]); }
  }

  /** validKeyID: its byte length, trimming and character tests amount to CanonicalKeyId. */
  method ValidKeyId(kid: string) returns (valid: bool)
    ensures valid <==> CanonicalKeyId(kid)
  {
    BytesAtLeast(kid);
    if forall c <- kid :: '\U{21}' <= c <= '\U{7e}' { PrintableIsTrimmed(kid); }
    if kid == "" || |Utf8(kid)| > 128 || TrimSpace(kid) != kid { return false; }
    for i := 0 to |kid|
      invariant forall k | 0 <= k < i :: '\U{21}' <= kid[k] <= '\U{7e}'
    {
      assert kid[i] in kid;
      if kid[i] < '\U{21}' || kid[i] > '\U{7e}' { return false; }
    }
    return true;
  }
}
