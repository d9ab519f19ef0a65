/**
 * Stand-ins for the foreign primitives the services call: bcrypt's
 * `hash`/`compare`, `randomBytes(n).toString('hex')` and the UUIDs the
 * database assigns to new rows.
 */
module Crypto {
  import opened Strings

  /** bcrypt reads at most this many bytes of its input and ignores the rest. */
  const BcryptMaxLength: nat := 72

  /** The part of a secret bcrypt actually reads. */
  function Significant(secret: string): (r: string)
    ensures |r| <= BcryptMaxLength && r <= secret
    ensures |secret| <= BcryptMaxLength ==> r == secret
    ensures |secret| > BcryptMaxLength ==> |r| == BcryptMaxLength
  {
    if |secret| <= BcryptMaxLength then secret else secret[..BcryptMaxLength]
  }

  /**
   * `bcrypt.hash`: only its equality behaviour is modelled, as an injective
   * function of the significant prefix; the salt and the work factor are not.
   */
  function Hash(secret: string): string
  {
    "$2b$" + Significant(secret)
  }

  /** `bcrypt.compare(secret, digest)`. */
  predicate Compare(secret: string, digest: string)
  {
    Hash(secret) == digest
  }

  /**
   * The stored digest of a secret accepts that secret, and another secret
   * exactly when the two agree on what bcrypt reads of them.
   */
  lemma CompareHash(secret: string, other: string)
    ensures Compare(secret, Hash(secret))
    ensures Compare(other, Hash(secret)) <==> Significant(other) == Significant(secret)
  {
    if Compare(other, Hash(secret)) {
      assert Hash(other)[4..] == Significant(other);
      assert Hash(secret)[4..] == Significant(secret);
    }
  }

  /** Two secrets that differ at a position bcrypt reads are told apart. */
  lemma EarlyDifferenceRejected(secret: string, other: string, i: nat)
    requires i < BcryptMaxLength && i < |secret| && i < |other| && secret[i] != other[i]
    ensures !Compare(other, Hash(secret))
  {
    CompareHash(secret, other);
  }

  /** Secrets of at most 72 characters are accepted only when equal. */
  lemma ShortSecretExact(secret: string, other: string)
    requires |secret| <= BcryptMaxLength && |other| <= BcryptMaxLength
    ensures Compare(other, Hash(secret)) <==> other == secret
  {
    CompareHash(secret, other);
  }

  /** Past the 72nd character nothing counts: any tail is accepted after the right prefix. */
  lemma LateDifferenceAccepted(secret: string, other: string)
    requires |secret| >= BcryptMaxLength && |other| >= BcryptMaxLength
    requires secret[..BcryptMaxLength] == other[..BcryptMaxLength]
    ensures Compare(other, Hash(secret))
  {
  }

  function HexChar(d: nat): (c: char)
    requires d < 16
    ensures IsHexDigit(c)
  {
    if d < 10 then DigitChar(d) else ('a' as int + d - 10) as char
  }

  /** `Buffer.toString('hex')`: two lower-case hex digits per byte. */
  function HexEncode(bytes: seq<bv8>): (hex: string)
    ensures |hex| == 2 * |bytes|
    ensures forall i :: 0 <= i < |hex| ==> IsHexDigit(hex[i])
  {
    if |bytes| == 0 then ""
    else
      var b: nat := bytes[0] as nat;
      [HexChar(b / 16), HexChar(b % 16)] + HexEncode(bytes[1..])
  }

  /** The textual form of a UUID: 8-4-4-4-12 hex digits separated by '-'. */
  predicate IsUuid(s: string)
  {
    |s| == 36
    && forall i :: 0 <= i < |s| ==> if i in {8, 13, 18, 23} then s[i] == '-' else IsHexDigit(s[i])
  }

  lemma UuidHasNoDot(s: string)
    requires IsUuid(s)
    ensures '.' !in s
  {
  }

  lemma HexHasNoDot(bytes: seq<bv8>)
    ensures '.' !in HexEncode(bytes)
  {
  }
}
