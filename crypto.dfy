/** The cryptographic library calls the core relies on (crypto/aes in CBC mode, crypto/hmac with
    SHA-256, golang.org/x/crypto/pbkdf2, encoding/base64, crypto/x509 and crypto/rsa OAEP), kept
    abstract. A `Primitives` value stands for one implementation of them; facts that hold by the
    shape of each call are part of the field types, and the algebraic facts the core depends on are
    collected in `Axioms`, which every theorem that needs them takes as a hypothesis. */
module Crypto {
  import opened Base

  /** `cipher.BlockMode.CryptBlocks(dst, src)` with `dst := make([]byte, len(src))`: keyed by the AES key
      and the IV, it fills a buffer exactly as long as its input. */
  type BlockMap = f: (Bytes, Bytes, Bytes) -> Bytes | forall key, iv, src :: |f(key, iv, src)| == |src|
    witness (key: Bytes, iv: Bytes, src: Bytes) => src

  /** Characters of the standard base64 alphabet of section 4 of RFC 4648, with the pad character '='. */
  predicate IsBase64Char(x: byte) {
    (65 <= x <= 90) || (97 <= x <= 122) || (48 <= x <= 57) || x == 43 || x == 47 || x == 61
  }

  predicate IsBase64Text(s: Bytes) {
    forall i :: 0 <= i < |s| ==> IsBase64Char(s[i])
  }

  /** Text produced by `base64.StdEncoding.EncodeToString`. */
  type Base64Text = s: Bytes | IsBase64Text(s) witness []

  /** An RSA ciphertext is as long as the modulus, so never empty. */
  type RsaCiphertext = s: Bytes | |s| > 0 witness [0]

  datatype RsaPublicKey = RsaPublicKey(modulus: nat, exponent: nat)

  /** Like Go's `rsa.PrivateKey`, a private key carries its public half. */
  datatype RsaPrivateKey = RsaPrivateKey(pub: RsaPublicKey, privateExponent: nat)

  datatype Primitives = Primitives(
    cbcEncrypt: BlockMap,                           // AES-CBC encryption of whole blocks
    cbcDecrypt: BlockMap,                           // AES-CBC decryption of whole blocks
    hmacSha256: (Bytes, Bytes) -> Digest,           // HMAC-SHA256(key, data)
    pbkdf2Sha256: (Bytes, Bytes, nat) -> Digest,    // pbkdf2.Key(password, salt, iter, 32, sha256.New)
    base64Encode: Bytes -> Base64Text,
    base64Decode: Bytes -> Option<Bytes>,           // None: a base64.CorruptInputError
    parsePkix: Bytes -> Option<RsaPublicKey>,       // x509.ParsePKIXPublicKey + RSA type assertion
    parsePkcs8: Bytes -> Option<RsaPrivateKey>,     // x509.ParsePKCS8PrivateKey + RSA type assertion
    oaepEncrypt: (RsaPublicKey, Bytes) -> RsaCiphertext,    // rsa.EncryptOAEP with SHA-1 and an empty label
    oaepDecrypt: (RsaPrivateKey, Bytes) -> Option<Bytes>)

  /** AES-CBC decryption undoes encryption under the same key and IV. */
  ghost predicate CbcInverse(c: Primitives) {
    forall key, iv, p :: c.cbcDecrypt(key, iv, c.cbcEncrypt(key, iv, p)) == p
  }

  /** Base64 decoding undoes encoding, and encoding something non-empty gives a non-empty text. */
  ghost predicate Base64RoundTrip(c: Primitives) {
    && (forall b :: c.base64Decode(c.base64Encode(b)) == Some(b))
    && (forall b :: |b| > 0 ==> |c.base64Encode(b)| > 0)
  }

  /** OAEP decryption with a private key undoes encryption under its public half. */
  ghost predicate OaepInverse(c: Primitives) {
    forall priv: RsaPrivateKey, m :: c.oaepDecrypt(priv, c.oaepEncrypt(priv.pub, m)) == Some(m)
  }

  ghost predicate Axioms(c: Primitives) {
    CbcInverse(c) && Base64RoundTrip(c) && OaepInverse(c)
  }

  /** What `GenRSAKeyPair` returns: the SPKI encoding of the public half and the PKCS#8 encoding of
      one private key. */
  predicate IsKeyPair(c: Primitives, spki: Bytes, pkcs8: Bytes) {
    c.parsePkcs8(pkcs8).Some? && c.parsePkix(spki) == Some(c.parsePkcs8(pkcs8).value.pub)
  }
}
