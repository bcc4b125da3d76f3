/** Digests and object locations of retained evidence. */
module Digest {
  import opened Text
  import Base64
  import Hex

  const DIGEST_SIZE := 32

  /** validSHA256: 64 characters that hex decoding and encoding leave alone. */
  predicate ValidSha256(value: string) {
    && |Utf8(value)| == 2 * DIGEST_SIZE
    && Hex.Decode(value).Some? && Hex.Encode(Hex.Decode(value).value) == value
  }

  /** checksumBase64 */
  function ChecksumBase64(expected: string): Option<string> {
    var raw :- Hex.Decode(expected);
    if |raw| != DIGEST_SIZE then None else Some(Base64.Encode(Base64.STD, raw))
  }

  /** What the HEAD request returned: an error, or an object with or without a stored checksum. */
  datatype Head = HeadFailed | Object(checksum: Option<string>)

  /** VerifyDigest, given the outcome of its HEAD request. */
  predicate VerifyDigest(head: Head, expected: string) {
    && ChecksumBase64(expected).Some?
    && head.Object? && head.checksum.Some?
    && var decoded := Base64.Decode(Base64.STD, head.checksum.value);
    decoded.Some? && Hex.Encode(decoded.value) == expected
  }

  lemma {:induction false} HexIsAscii(s: string)
    requires Hex.AllDigits(s)
    ensures |Utf8(s)| == |s|
  {
    if s != "" {
      assert Hex.Value(s[0]) >= 0;
      assert forall i | 0 <= i < |s[1..]| :: s[1..][i] == s[i + 1];
      HexIsAscii(s[1..]);
    }
  }

  /** The digests the service accepts are exactly the 64-digit lower-case ones. */
  lemma ValidSha256Exactly(value: string)
    ensures ValidSha256(value) <==> |value| == 64 && Hex.IsLower(value)
  {
    Hex.DecodeShape(value);
    if Hex.Decode(value).Some? {
      Hex.EncodeOfDecode(value);
      HexIsAscii(value);
    }
    if |value| == 64 && Hex.IsLower(value) {
      assert Hex.AllDigits(value) by {
        forall i | 0 <= i < |value| ensures Hex.Value(value[i]) >= 0 { assert Hex.IsLowerDigit(value[i]); }
      }
    }
  }

  /** An upload is confirmed exactly when the recorded digest is valid and the stored checksum decodes
      to its 32 bytes: no other object is ever confirmed, and no valid one is refused. */
  lemma DigestAgreement(expected: string, stored: string)
    ensures VerifyDigest(Object(Some(stored)), expected)
            <==> ValidSha256(expected) && Base64.Decode(Base64.STD, stored) == Hex.Decode(expected)
    ensures !VerifyDigest(HeadFailed, expected) && !VerifyDigest(Object(None), expected)
  {
    Hex.DecodeShape(expected);
    if Hex.Decode(expected).Some? {
      Hex.EncodeOfDecode(expected);
      HexIsAscii(expected);
    }
    var decoded := Base64.Decode(Base64.STD, stored);
    if decoded.Some? { Hex.RoundTrip(decoded.value); }
  }

  /** The checksum bound into the upload is confirmed exactly for valid digests: upper-case hexadecimal
      gets a checksum too, but its object can never be confirmed. */
  lemma OwnChecksumConfirmed(expected: string)
    requires ChecksumBase64(expected).Some?
    ensures VerifyDigest(Object(ChecksumBase64(expected)), expected) <==> ValidSha256(expected)
  {
    var raw := Hex.Decode(expected).value;
    Base64.RoundTrip(Base64.STD, raw);
    DigestAgreement(expected, ChecksumBase64(expected).value);
  }

  // ---------- object locations ----------

  /** Server.objectLocation */
  function ObjectLocation(bucket: string, idempotencyKey: string): string {
    "s3://" + bucket + "/evidence/" + idempotencyKey
  }

  /** Server.objectKey */
  function ObjectKey(bucket: string, location: string): Option<string> {
    var prefix := "s3://" + bucket + "/";
    if HasPrefix(location, prefix) then Some(location[|prefix|..]) else None
  }

  /** An object key is what follows the bucket; nothing outside the bucket has one. */
  lemma ObjectKeyExactly(bucket: string, location: string, key: string)
    ensures ObjectKey(bucket, location) == Some(key) <==> location == "s3://" + bucket + "/" + key
  {
    var prefix := "s3://" + bucket + "/";
    if location == prefix + key { assert location[..|prefix|] == prefix && location[|prefix|..] == key; }
    if HasPrefix(location, prefix) { assert location == prefix + location[|prefix|..]; }
  }

  /** The recorded location leads back to the object key, which names the idempotency key and nothing else:
      different keys never share an object. */
  lemma LocationRoundTrip(bucket: string, key: string, other: string)
    ensures ObjectKey(bucket, ObjectLocation(bucket, key)) == Some("evidence/" + key)
    ensures ObjectLocation(bucket, key) == ObjectLocation(bucket, other) ==> key == other
  {
    var prefix := "s3://" + bucket + "/";
    var location := ObjectLocation(bucket, key);
    assert location == prefix + ("evidence/" + key);
    assert location[..|prefix|] == prefix && location[|prefix|..] == "evidence/" + key;
    var front := "s3://" + bucket + "/evidence/";
    assert location == front + key && ObjectLocation(bucket, other) == front + other;
    assert (front + key)[|front|..] == key && (front + other)[|front|..] == other;
  }
}
