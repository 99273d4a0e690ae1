/**
 * The foreign cryptography the account service calls, as symbolic terms:
 * crypto.randomBytes(..).toString("hex"), bcrypt hash/compare,
 * crypto.createHash("sha256"), and jsonwebtoken sign/verify.
 * Hashes and signatures are constructors, so two of them are equal exactly
 * when they were built from equal inputs (no collisions, no forgery).
 */
module Crypto {
  import opened Wrappers

  newtype byte = x: int | 0 <= x < 256

  /** Number of random bytes behind every verification and reset token: randomBytes(32). */
  const TokenBytes: nat := 32

  /** The alphabet of Buffer.toString("hex"): 0 to 9, then lower-case a to f. */
  predicate IsHexDigit(c: char) {
    '0' <= c <= '9' || 'a' <= c <= 'f'
  }

  predicate IsHexString(s: string) {
    forall k :: 0 <= k < |s| ==> IsHexDigit(s[k])
  }

  /** The hex digit of a nibble. */
  function HexDigit(v: nat): (c: char)
    requires v < 16
    ensures IsHexDigit(c)
  {
    if v < 10 then ('0' as int + v) as char else ('a' as int + v - 10) as char
  }

  /** The value of one hex digit, the inverse of HexDigit. */
  function HexValue(c: char): (v: nat)
    requires IsHexDigit(c)
    ensures v < 16 && HexDigit(v) == c
  {
    if '0' <= c <= '9' then c as int - '0' as int else c as int - 'a' as int + 10
  }

  lemma HexValueOfDigit(v: nat)
    requires v < 16
    ensures HexValue(HexDigit(v)) == v
  {
  }

  /** Buffer.toString("hex"): two lower-case hex digits per byte, high nibble first. */
  function Hex(bytes: seq<byte>): (s: string)
    ensures |s| == 2 * |bytes|
    ensures IsHexString(s)
  {
    if bytes == [] then []
    else [HexDigit(bytes[0] as int / 16), HexDigit(bytes[0] as int % 16)] + Hex(bytes[1..])
  }

  /** Buffer.from(s, "hex"): reads the digits back two at a time. */
  function Unhex(s: string): seq<byte>
    requires |s| % 2 == 0 && IsHexString(s)
  {
    if s == [] then []
    else [(16 * HexValue(s[0]) + HexValue(s[1])) as byte] + Unhex(s[2..])
  }

  /** Decoding the hex text of a byte string gives the bytes back, so Hex loses nothing. */
  lemma {:induction false} UnhexHex(bytes: seq<byte>)
    ensures Unhex(Hex(bytes)) == bytes
  {
    if bytes != [] {
      var b := bytes[0] as int;
      var s := Hex(bytes);
      assert s[2..] == Hex(bytes[1..]);
      HexValueOfDigit(b / 16);
      HexValueOfDigit(b % 16);
      UnhexHex(bytes[1..]);
    }
  }

  /** Distinct random byte strings give distinct hex tokens. */
  lemma HexInjective(a: seq<byte>, b: seq<byte>)
    ensures Hex(a) == Hex(b) ==> a == b
  {
    UnhexHex(a);
    UnhexHex(b);
  }

  /** A stored password: the plaintext, or a bcrypt hash of another stored value under a salt. */
  datatype Secret = Plain(text: string) | Bcrypt(salt: nat, input: Secret) {
    /** The empty string, which a `required` String path rejects. */
    predicate IsEmpty() {
      this == Plain("")
    }
  }

  /** The environment of one bcrypt.hash call: the salt it draws, and whether it fails. */
  datatype HashEnv = HashEnv(salt: nat, fails: bool)

  /** bcrypt.compare(plaintext, hash): true when `hash` is a bcrypt hash of exactly `plaintext`. */
  predicate BcryptCompare(plaintext: string, hash: Secret) {
    hash.Bcrypt? && hash.input == Plain(plaintext)
  }

  /** compare accepts a single hash of the plaintext, whatever the salt, and no other plaintext. */
  lemma BcryptCompareHash(plaintext: string, other: string, salt: nat)
    ensures BcryptCompare(plaintext, Bcrypt(salt, Plain(plaintext)))
    ensures BcryptCompare(other, Bcrypt(salt, Plain(plaintext))) <==> other == plaintext
  {
  }

  /** A hash of a hash matches no plaintext: compare never accepts it. */
  lemma BcryptCompareRejectsDoubleHash(plaintext: string, inner: nat, outer: nat)
    ensures !BcryptCompare(plaintext, Bcrypt(outer, Bcrypt(inner, Plain(plaintext))))
  {
  }

  /** The hex text of a SHA-256 digest, standing for the digest of `preimage`. */
  datatype Digest = Sha256Hex(preimage: string)

  /** Seconds in the session token's "7d" lifetime. */
  const SessionLifetime: nat := 7 * 24 * 60 * 60

  /**
   * The `token` cookie value: a JSON web token signed with `key` carrying the
   * user id, issue time and expiry (seconds), or any other text.
   */
  datatype CookieValue = Jwt(userId: nat, iat: nat, exp: nat, key: string) | Text(raw: string)

  /** jwt.sign({ userId }, secret, { expiresIn: "7d" }) at `nowMs` milliseconds. */
  function JwtSign(userId: nat, secret: string, nowMs: nat): (t: CookieValue)
    ensures t.Jwt? && t.userId == userId && t.key == secret
    ensures t.exp - t.iat == SessionLifetime && t.iat * 1000 <= nowMs < t.iat * 1000 + 1000
  {
    Jwt(userId, nowMs / 1000, nowMs / 1000 + SessionLifetime, secret)
  }

  /**
   * jwt.verify(token, secret) at `nowMs`: the user id, when the token was
   * signed with `secret` and the current second is before its expiry.
   */
  function JwtVerify(t: CookieValue, secret: string, nowMs: nat): Option<nat> {
    if t.Jwt? && t.key == secret && nowMs / 1000 < t.exp then Some(t.userId) else None
  }

  /**
   * A signed token verifies with the same secret, giving back its user id,
   * until the start of the second in which its seven days end, and never
   * under another secret.
   */
  lemma JwtRoundTrip(userId: nat, secret: string, other: string, signedAt: nat, nowMs: nat)
    ensures JwtVerify(JwtSign(userId, secret, signedAt), secret, nowMs) == Some(userId)
            <==> nowMs < (signedAt / 1000 + SessionLifetime) * 1000
    ensures JwtVerify(JwtSign(userId, secret, signedAt), secret, nowMs).Some? ==>
              JwtVerify(JwtSign(userId, secret, signedAt), secret, nowMs) == Some(userId)
    ensures other != secret ==> JwtVerify(JwtSign(userId, secret, signedAt), other, nowMs).None?
  {
    var e := signedAt / 1000 + SessionLifetime;
    if nowMs < e * 1000 {
      assert nowMs / 1000 < e;
    } else {
      assert nowMs / 1000 >= e;
    }
  }
}
