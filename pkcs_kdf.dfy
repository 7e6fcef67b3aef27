/** Key derivations of pkcs/pkcs.go: the three PBKDF2 wirings, the HKDF-Expand loop (section 2.3 of
    RFC 5869, with the key itself used as the pseudorandom key) and the split of a symmetric key into
    its encryption and MAC halves. */
module PkcsKdf {
  import opened Base
  import opened Crypto

  /** `pkcs.ITERATIONS`, the one PBKDF2 work factor of the project. */
  const ITERATIONS: nat := 600000

  /** `hash().Size()` for SHA-256. */
  const HASH_LEN: nat := 32

  /** The `info` strings of the two expansions. */
  const INFO_ENC: Bytes := [101, 110, 99]   // "enc"
  const INFO_MAC: Bytes := [109, 97, 99]    // "mac"

  /** `DeriveMasterKey`: PBKDF2 over the password, salted with the email. */
  function DeriveMasterKey(c: Primitives, email: GoString, password: GoString): (r: Digest)
  {
    c.pbkdf2Sha256(password, email, ITERATIONS)
  }

  /** `DerivePasswordHash`: one PBKDF2 iteration over the master key, salted with the password, in base64. */
  function DerivePasswordHash(c: Primitives, masterKey: Bytes, masterPassword: GoString): (r: GoString)
    ensures IsBase64Text(r)
  {
    c.base64Encode(c.pbkdf2Sha256(masterKey, masterPassword, 1))
  }

  /** `HashPasswordHash`: the stored verifier, PBKDF2 over the password hash with a fresh salt. */
  function HashPasswordHash(c: Primitives, passwordHash: GoString, salt: Bytes): (r: Digest)
  {
    c.pbkdf2Sha256(passwordHash, salt, ITERATIONS)
  }

  /** `n`, the number of HMAC rounds for `length` output bytes. */
  function Rounds(length: nat): nat {
    (length + HASH_LEN - 1) / HASH_LEN
  }

  /** T(i) of section 2.3 of RFC 5869: T(0) is empty, T(i) = HMAC(PRK, T(i-1) | info | i). */
  function Block(c: Primitives, prk: Bytes, info: Bytes, i: nat): (t: Bytes)
    requires i <= 255
    ensures i == 0 <==> |t| == 0
    ensures i > 0 ==> |t| == HASH_LEN
  {
    if i == 0 then [] else c.hmacSha256(prk, Block(c, prk, info, i - 1) + info + [i as byte])
  }

  /** T(1) | T(2) | ... | T(n). */
  function Blocks(c: Primitives, prk: Bytes, info: Bytes, n: nat): (r: Bytes)
    requires n <= 255
    ensures |r| == n * HASH_LEN
  {
    if n == 0 then [] else Blocks(c, prk, info, n - 1) + Block(c, prk, info, n)
  }

  /** The first `length` bytes of T(1) | ... | T(n), n = ceil(length / 32); more than 255 rounds panics. */
  function HkdfExpand(c: Primitives, prk: Bytes, info: Bytes, length: nat): (okm: Bytes)
    requires Rounds(length) <= 255
    ensures |okm| == length
  {
    Blocks(c, prk, info, Rounds(length))[..length]
  }

  /** Each block of the output is one HMAC round over the previous block, `info` and the round number. */
  lemma {:induction false} BlocksChain(c: Primitives, prk: Bytes, info: Bytes, n: nat, i: nat)
    requires 1 <= i <= n <= 255
    ensures Blocks(c, prk, info, n)[(i - 1) * HASH_LEN..i * HASH_LEN]
            == c.hmacSha256(prk, Block(c, prk, info, i - 1) + info + [i as byte])
  {
    if i < n {
      BlocksChain(c, prk, info, n - 1, i);
      var prefix := Blocks(c, prk, info, n - 1);
      assert Blocks(c, prk, info, n)[..(n - 1) * HASH_LEN] == prefix;
      assert i * HASH_LEN <= (n - 1) * HASH_LEN;
    } else {
      assert Blocks(c, prk, info, n)[(n - 1) * HASH_LEN..] == Block(c, prk, info, n);
    }
  }

  /** `hkdfExpand`: the loop that keeps the previous block and appends each new one. */
  method HkdfExpandLoop(c: Primitives, prk: Bytes, info: Bytes, length: nat) returns (okm: Bytes)
    requires Rounds(length) <= 255
    ensures okm == HkdfExpand(c, prk, info, length)
  {
    var n := Rounds(length);
    var result: Bytes := [];
    var previousBlock: Bytes := [];
    var i := 1;
    while i <= n
      invariant 1 <= i <= n + 1
      invariant previousBlock == Block(c, prk, info, i - 1)
      invariant result == Blocks(c, prk, info, i - 1)
    {
      previousBlock := c.hmacSha256(prk, previousBlock + info + [i as byte]);
      result := result + previousBlock;
      i := i + 1;
    }
    okm := result[..length];
  }

  /** `deriveEncMacKey`: a 32-byte key is expanded into both halves, any other key is split at byte
      32 (a key shorter than that panics in `key[:32]`, which every caller rules out). */
  function DeriveEncMacKey(c: Primitives, key: Bytes): (r: (Bytes, Bytes))
    requires |key| >= 32
    ensures |r.0| == 32
    ensures |key| == 32 ==> r.0 == HkdfExpand(c, key, INFO_ENC, 32) && r.1 == HkdfExpand(c, key, INFO_MAC, 32)
    ensures |key| != 32 ==> r.0 + r.1 == key
    ensures |key| == 32 || |key| == 64 ==> |r.1| == 32
  {
    if |key| == 32 then (HkdfExpand(c, key, INFO_ENC, 32), HkdfExpand(c, key, INFO_MAC, 32))
    else (key[..32], key[32..])
  }

  /** For a 32-byte key both halves are the single HMAC round T(1) of their expansion. */
  lemma ExpandedHalves(c: Primitives, key: Bytes)
    requires |key| == 32
    ensures DeriveEncMacKey(c, key).0 == c.hmacSha256(key, INFO_ENC + [1])
    ensures DeriveEncMacKey(c, key).1 == c.hmacSha256(key, INFO_MAC + [1])
  {
    BlocksChain(c, key, INFO_ENC, 1, 1);
    BlocksChain(c, key, INFO_MAC, 1, 1);
    assert [] + INFO_ENC + [1 as byte] == INFO_ENC + [1];
    assert [] + INFO_MAC + [1 as byte] == INFO_MAC + [1];
  }
}
