/** The two primitives the handlers build on: the password digest
    (hashPassword) and the random token (generateToken). SHA-256 and the
    operating system's random source are not modelled; they enter as a
    function value and as an optional block of random bytes. */
module Credentials {
  import opened Wrappers
  import opened Hex

  const DIGEST_BYTES: nat := 32
  const TOKEN_BYTES: nat := 16

  type Digest = d: seq<byte> | |d| == DIGEST_BYTES witness seq(32, _ => 0)

  /** SHA-256 applied to the bytes of a password; any function of this type may stand for it. */
  type Sha256 = string -> Digest

  /** The 16 bytes read from the random source for one token. */
  type Entropy = b: seq<byte> | |b| == TOKEN_BYTES witness seq(16, _ => 0)

  /** The stored form of a password: the hex encoding of its digest. */
  function HashPassword(sha: Sha256, password: string): (h: string)
    ensures |h| == 2 * DIGEST_BYTES && IsHexString(h)
  {
    Encode(sha(password))
  }

  /** Two passwords have the same stored form exactly when their digests agree:
      the hex step neither merges nor splits digests. */
  lemma HashMatchesIffDigestMatches(sha: Sha256, p: string, q: string)
    ensures HashPassword(sha, p) == HashPassword(sha, q) <==> sha(p) == sha(q)
  {
    if HashPassword(sha, p) == HashPassword(sha, q) {
      EncodeInjective(sha(p), sha(q));
    }
  }

  /** A token, or None when the random source failed. */
  function GenerateToken(random: Option<Entropy>): (t: Option<string>)
    ensures t.Some? <==> random.Some?
    ensures t.Some? ==> |t.value| == 2 * TOKEN_BYTES && IsHexString(t.value)
  {
    match random
    case None => None
    case Some(bytes) => Some(Encode(bytes))
  }

  /** Different random bytes always give different tokens. */
  lemma DistinctEntropyDistinctTokens(a: Entropy, b: Entropy)
    requires a != b
    ensures GenerateToken(Some(a)) != GenerateToken(Some(b))
  {
    if Encode(a) == Encode(b) {
      EncodeInjective(a, b);
    }
  }

  /** A token can be turned back into the bytes it was made from. */
  lemma TokenDecodes(random: Entropy)
    ensures Decode(GenerateToken(Some(random)).value) == Some(random)
  {
    DecodeEncode(random);
  }
}
