/** Shared vocabulary of the model: Go byte strings, results and the error values the core returns. */
module Base {

  /** A Go `byte`. */
  type byte = bv8

  /** A Go `[]byte`. */
  type Bytes = seq<byte>

  /** A Go `string`: Go strings are byte sequences and `[]byte(s)` / `string(b)` convert without any
      encoding step, so the model uses the same representation for both. */
  type GoString = Bytes

  /** Output of HMAC-SHA256 and of PBKDF2 with key length 32. */
  type Digest = s: Bytes | |s| == 32 witness seq(32, _ => 0)

  const PIPE: byte := 124      // '|'
  const NEWLINE: byte := 10    // '\n'
  const DOT: byte := 46        // '.'
  const CHAR_2: byte := 50     // '2'
  const CHAR_4: byte := 52     // '4'
  const SLASH: byte := 47      // '/'

  /** The bytes of a string literal written with ASCII characters only. */
  function AsciiBytes(s: string): (r: Bytes)
    ensures |r| == |s|
  {
    seq(|s|, i requires 0 <= i < |s| => ((s[i] as int) % 256) as bv8)
  }

  datatype Option<+T> = None | Some(value: T)

  /** Why a Go panic happened; a panic unwinds past every `errors.Wrap` on its way. */
  datatype PanicReason =
    | IvLength          // cipher.NewCBCDecrypter with an IV that is not one block long
    | IndexOutOfRange   // indexing the last byte of an empty plaintext
    | KeySliceBounds    // key[:32] on a key shorter than 32 bytes
    | NotRsaPublicKey   // failed type assertion pubInf.(*rsa.PublicKey)
    | PublicKeyParse    // panic(err) after x509.ParsePKIXPublicKey

  /** The message prefix `errors.Wrap` adds at each call site. */
  datatype Context =
    | DecodeBase64            // "fail to decode base64"
    | Decrypt                 // "fail to decrypt"
    | ParseEncryptedData      // "fail to parse encrypted data"
    | DecryptWithPrivateKey   // "fail to decrypt with privateKey"
    | DecryptByPublicKey      // "fail to decrypt by public key"
    | DecryptUserAkey         // "fail to decrypt user akey"
    | DecryptPrivateKey       // "fail to decrypt private key"
    | ParsePrivateKey         // "fail to parse private key"
    | DecryptOrgAkey          // "fail to decrypt org akey"

  datatype Error =
    | InvalidFormat           // "invalid Bitwarden key format"
    | Base64Corrupt           // base64 decoding error
    | MacLengthMismatch
    | MacMismatch             // "MAC validation failed - wrong masterKey or tampered data"
    | CipherInit              // "fail to new AES cipher"
    | NotBlockMultiple        // "ciphertext is not a multiple of the block size"
    | InvalidPaddingSize
    | InvalidPadding
    | OaepFailed              // rsa.DecryptOAEP error
    | InvalidPrivateKey       // PKCS#8 parse failure or not an RSA key
    | InvalidPublicKey        // SPKI parse failure or not an RSA key
    | RecordNotFound          // gorm.ErrRecordNotFound
    | DbFailure               // any other error reported by the database
    | MissingOrgKey(org: GoString)
    | EmailRequired
    | Wrapped(context: Context, cause: Error)
    | Panic(reason: PanicReason)

  /** `errors.Wrap(err, ctx)`; a panic is not an error value and passes through unwrapped. */
  function Wrap(ctx: Context, e: Error): (r: Error)
    ensures e.Panic? ==> r == e
    ensures !e.Panic? ==> r.Wrapped? && r.cause == e
  {
    if e.Panic? then e else Wrapped(ctx, e)
  }

  datatype Result<+T> = Ok(value: T) | Err(error: Error)

  /** Position of the first `x` in `s`, or `|s|` when there is none. */
  function IndexOf<T(==)>(s: seq<T>, x: T): (r: nat)
    ensures r <= |s|
    ensures r < |s| ==> s[r] == x
    ensures forall j :: 0 <= j < r ==> s[j] != x
  {
    if |s| == 0 then 0 else if s[0] == x then 0 else 1 + IndexOf(s[1..], x)
  }

  /** Text cut at the first `x`: a part without `x`, the `x`, and the remainder. */
  lemma {:induction false} IndexOfSplit<T>(s: seq<T>, x: T)
    requires IndexOf(s, x) < |s|
    ensures s == s[..IndexOf(s, x)] + [x] + s[IndexOf(s, x) + 1..]
    ensures x !in s[..IndexOf(s, x)]
  {
    var i := IndexOf(s, x);
    assert s == s[..i] + s[i..];
    assert s[i..] == [x] + s[i + 1..];
  }

  /** The first `x` of `a + [x] + b` is at `|a|` when `a` has none. */
  lemma {:induction false} IndexOfFirst<T>(a: seq<T>, x: T, b: seq<T>)
    requires x !in a
    ensures IndexOf(a + [x] + b, x) == |a|
    ensures (a + [x] + b)[..|a|] == a && (a + [x] + b)[|a| + 1..] == b
  {
    var s := a + [x] + b;
    assert forall j :: 0 <= j < |a| ==> s[j] == a[j];
    assert s[|a|] == x;
  }
}
