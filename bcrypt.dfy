/** The password hasher both user services call (`bcrypt`/`bcryptjs`).
    Hashing is salted: the salt is drawn at random by the library and is a
    parameter here. bcrypt reads only the first 72 bytes of a password, and
    the model keeps that: two passwords that agree on their first 72
    characters (the model's text is ASCII, so a character is a byte) have
    the same hash. The digest is a stand-in for bcrypt's: for a fixed salt it
    is injective in those 72 characters, and it is collision-free there,
    which real bcrypt is only with overwhelming probability. */
module Bcrypt {

  /** The number of password bytes bcrypt reads. */
  const MaxKeyLength := 72

  /** The part of a password its hash depends on. */
  function Significant(plaintext: string): (k: string)
    ensures |k| == if |plaintext| <= MaxKeyLength then |plaintext| else MaxKeyLength
    ensures k <= plaintext
  {
    if |plaintext| <= MaxKeyLength then plaintext else plaintext[..MaxKeyLength]
  }

  /** A stored hash: work factor, salt and digest. */
  datatype Hash = Hash(cost: nat, salt: string, digest: seq<int>)

  function Digest(salt: string, plaintext: string): seq<int> {
    var k := Significant(plaintext);
    seq(|k|, i requires 0 <= i < |k| => k[i] as int + |salt| + 1)
  }

  /** `hashPassword` / `hash_password`. */
  function HashPassword(plaintext: string, cost: nat, salt: string): (h: Hash)
    ensures h.cost == cost && h.salt == salt
    ensures |h.digest| == |Significant(plaintext)|
  {
    Hash(cost, salt, Digest(salt, plaintext))
  }

  /** `comparePassword` / `verify_password`: never fails, a mismatch is false. */
  predicate Compare(plaintext: string, h: Hash) {
    h.digest == Digest(h.salt, plaintext)
  }

  /** A password verifies against its own hash, whatever the salt and cost. */
  lemma CompareOwnHash(plaintext: string, cost: nat, salt: string)
    ensures Compare(plaintext, HashPassword(plaintext, cost, salt))
  {
  }

  /** ... and a password verifies against the hash of `p` exactly when its
      first 72 characters are those of `p`. */
  lemma CompareOnlyOwnHash(p: string, q: string, cost: nat, salt: string)
    ensures Compare(q, HashPassword(p, cost, salt)) <==> Significant(q) == Significant(p)
  {
    if Compare(q, HashPassword(p, cost, salt)) {
      var k, d := Significant(p), Digest(salt, p);
      assert |Significant(q)| == |d| == |k|;
      forall i | 0 <= i < |k|
        ensures Significant(q)[i] == k[i]
      {
        assert Digest(salt, q)[i] == d[i];
      }
    }
  }

  /** What a password longer than 72 characters has past that point does not
      matter. */
  lemma TailIgnored(p: string, extra: string, cost: nat, salt: string)
    requires |p| >= MaxKeyLength
    ensures Compare(p + extra, HashPassword(p, cost, salt))
  {
    assert (p + extra)[..MaxKeyLength] == p[..MaxKeyLength];
  }

  /** The tag every encoded hash starts with. */
  const HashTag: string := "$2b$"

  const Base64Alphabet: string := "./ABCDEFGHIJKLMNOPQRSTUVWXYZabcdefghijklmnopqrstuvwxyz0123456789"

  /** The `$2b$<cost>$<salt><digest>` text form of a hash, as stored in a
      string column and as fed back to the hasher by the Node pre-save hook. */
  function Encode(h: Hash): (s: string)
    ensures |s| == 7 + |h.salt| + |h.digest|
    ensures s[..4] == HashTag
  {
    var costText := [('0' as int + (h.cost / 10) % 10) as char, ('0' as int + h.cost % 10) as char];
    HashTag + costText + "$" + h.salt
      + seq(|h.digest|, i requires 0 <= i < |h.digest| => Base64Alphabet[h.digest[i] % 64])
  }

  /** A password that is shorter than 72 characters, or does not start with
      the hash tag: one that cannot agree with its own hash text in the part
      bcrypt reads. */
  predicate ShortOrUntagged(p: string) {
    |p| < MaxKeyLength || p[..4] != HashTag
  }

  /** The text of a hash, read as a password, differs from the plaintext it
      was made from in the part bcrypt reads, unless the plaintext is 72
      characters or more and itself starts with the hash tag. */
  lemma EncodedHashIsNotPlaintext(p: string, cost: nat, salt: string)
    ensures ShortOrUntagged(p) ==> Significant(Encode(HashPassword(p, cost, salt))) != Significant(p)
  {
    var t := Encode(HashPassword(p, cost, salt));
    if |p| < MaxKeyLength {
      assert |Significant(t)| > |p|;
    } else if p[..4] != HashTag {
      assert Significant(t)[..4] == t[..4];
      assert Significant(p)[..4] == p[..4];
    }
  }
}
