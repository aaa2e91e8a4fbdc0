/**
 * Proof Key for Code Exchange (RFC 7636) as the Viessmann client builds it:
 * the verifier is the unpadded base64url text of 40 random bytes and the
 * challenge the unpadded base64url text of the SHA-256 digest of the
 * verifier's bytes (method S256). The random bytes and SHA-256 are
 * supplied from outside.
 */
module Pkce {
  import opened Common
  import Base64Url
  import Utf8

  /** A SHA-256 digest: 32 bytes. */
  type Digest = d: seq<Byte> | |d| == 32
    witness seq(32, _ => 0)

  /** `os.urandom(40)` in `generate_code_verifier`. */
  const RandomLength: nat := 40

  /** `generate_code_verifier`, given the random bytes. */
  function CodeVerifier(random: seq<Byte>): (verifier: string)
    ensures |verifier| == (4 * |random| + 2) / 3
    ensures forall k | 0 <= k < |verifier| :: Base64Url.InAlphabet(verifier[k])
  {
    Base64Url.UnpaddedShape(random);
    Base64Url.StripPadding(Base64Url.Encode(random))
  }

  /** `generate_code_challenge`. */
  function CodeChallenge(verifier: string, sha256: seq<Byte> -> Digest): (challenge: string)
    ensures |challenge| == 43
  {
    Base64Url.UnpaddedShape(sha256(Utf8.Encode(verifier)));
    Base64Url.StripPadding(Base64Url.Encode(sha256(Utf8.Encode(verifier))))
  }

  /** unreserved = ALPHA / DIGIT / "-" / "." / "_" / "~" (RFC 7636 section 4.1). */
  predicate Unreserved(c: char) {
    ('A' <= c <= 'Z') || ('a' <= c <= 'z') || ('0' <= c <= '9') || c == '-' || c == '.' || c == '_' || c == '~'
  }

  /** code-verifier = 43*128unreserved (RFC 7636 section 4.1). */
  predicate IsCodeVerifier(v: string) {
    43 <= |v| <= 128 && forall k | 0 <= k < |v| :: Unreserved(v[k])
  }

  /** From 40 random bytes the verifier has 54 characters, satisfies
      section 4.1 of RFC 7636 and has no `=`. */
  lemma VerifierIsWellFormed(random: seq<Byte>)
    requires |random| == RandomLength
    ensures |CodeVerifier(random)| == 54
    ensures IsCodeVerifier(CodeVerifier(random))
    ensures '=' !in CodeVerifier(random)
  {
    Base64Url.UnpaddedShape(random);
  }

  /** Different random inputs give different verifiers: stripping the
      padding loses nothing. */
  lemma VerifierKeepsRandom(r1: seq<Byte>, r2: seq<Byte>)
    ensures CodeVerifier(r1) == CodeVerifier(r2) <==> r1 == r2
  {
    Base64Url.RoundTrip(r1);
    Base64Url.RoundTrip(r2);
  }

  /** The challenge of any verifier has 43 characters from the base64url
      alphabet and no `=`. */
  lemma ChallengeIsWellFormed(verifier: string, sha256: seq<Byte> -> Digest)
    ensures |CodeChallenge(verifier, sha256)| == 43
    ensures forall k | 0 <= k < 43 :: Base64Url.InAlphabet(CodeChallenge(verifier, sha256)[k])
    ensures '=' !in CodeChallenge(verifier, sha256)
  {
    Base64Url.UnpaddedShape(sha256(Utf8.Encode(verifier)));
  }

  /** For a generated verifier, UTF-8 is ASCII, so the challenge is
      BASE64URL(SHA256(ASCII(code_verifier))) as section 4.2 of RFC 7636
      defines S256. */
  lemma ChallengeIsS256(random: seq<Byte>, sha256: seq<Byte> -> Digest)
    ensures Utf8.IsAscii(CodeVerifier(random))
    ensures CodeChallenge(CodeVerifier(random), sha256)
         == Base64Url.StripPadding(Base64Url.Encode(sha256(Utf8.AsciiBytes(CodeVerifier(random)))))
  {
    Base64Url.UnpaddedShape(random);
    Utf8.AsciiEncoding(CodeVerifier(random));
  }
}
