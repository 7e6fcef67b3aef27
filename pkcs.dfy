/** The two envelope formats of pkcs/pkcs.go. A symmetric envelope is
    `"2." + b64(iv) + "|" + b64(ciphertext) + "|" + b64(mac)` (Bitwarden's AES-CBC-256 + HMAC-SHA256
    type), an asymmetric one is `"4." + b64(RSA-OAEP ciphertext)`. */
module Pkcs {
  import opened Base
  import opened Crypto
  import opened PkcsCbc
  import opened PkcsKdf

  /** `IV length`: `RandBytes(16)`. */
  const IV_LEN: nat := 16

  /** The three captures of `rxBWEnc`. */
  datatype SymFields = SymFields(iv: GoString, ciphertext: GoString, mac: GoString)

  /** A capture of `[^|]+`. */
  predicate IsPipeFree(s: Bytes) {
    |s| > 0 && PIPE !in s
  }

  /** A capture of `.+`: Go's `.` matches every character but a newline. */
  predicate IsLine(s: Bytes) {
    |s| > 0 && NEWLINE !in s
  }

  function FormatSym(f: SymFields): (s: GoString) {
    [CHAR_2, DOT] + f.iv + [PIPE] + f.ciphertext + [PIPE] + f.mac
  }

  /** Matching against `^2\.([^|]+)\|([^|]+)\|(.+)$`: the first two captures end at the first and at the
      second `|`, the third runs to the end of the text. */
  function ParseSym(s: GoString): (r: Option<SymFields>)
    ensures r.Some? ==> IsPipeFree(r.value.iv) && IsPipeFree(r.value.ciphertext) && IsLine(r.value.mac)
    ensures r.Some? ==> |s| == 4 + |r.value.iv| + |r.value.ciphertext| + |r.value.mac|
  {
    if |s| < 2 || s[0] != CHAR_2 || s[1] != DOT then None
    else
      var rest := s[2..];
      var i := IndexOf(rest, PIPE);
      if i == 0 || i == |rest| then None
      else
        var rest2 := rest[i + 1..];
        var j := IndexOf(rest2, PIPE);
        if j == 0 || j == |rest2| then None
        else
          var f := SymFields(rest[..i], rest2[..j], rest2[j + 1..]);
          if IsLine(f.mac) then Some(f) else None
  }

  /** `IsBWSymFormat`: the text has the shape of a symmetric envelope. */
  predicate IsBWSymFormat(s: GoString) {
    ParseSym(s).Some?
  }

  /** The formatting of captures of the right shape matches `rxBWEnc` and gives them back. */
  lemma {:induction false} ParseFormatSym(f: SymFields)
    requires IsPipeFree(f.iv) && IsPipeFree(f.ciphertext) && IsLine(f.mac)
    ensures ParseSym(FormatSym(f)) == Some(f)
  {
    var s := FormatSym(f);
    var rest2 := f.ciphertext + [PIPE] + f.mac;
    assert s[2..] == f.iv + [PIPE] + rest2;
    IndexOfFirst(f.iv, PIPE, rest2);
    IndexOfFirst(f.ciphertext, PIPE, f.mac);
  }

  /** Whatever matches `rxBWEnc` is the formatting of its captures, and they have the right shape. */
  lemma {:induction false} ParseSymSound(s: GoString)
    requires ParseSym(s).Some?
    ensures var f := ParseSym(s).value;
            s == FormatSym(f) && IsPipeFree(f.iv) && IsPipeFree(f.ciphertext) && IsLine(f.mac)
  {
    var rest := s[2..];
    var i := IndexOf(rest, PIPE);
    var rest2 := rest[i + 1..];
    var j := IndexOf(rest2, PIPE);
    var f := SymFields(rest[..i], rest2[..j], rest2[j + 1..]);
    assert ParseSym(s) == Some(f);
    IndexOfSplit(rest, PIPE);
    IndexOfSplit(rest2, PIPE);
    JoinSym(s, f.iv, rest2, f.ciphertext, f.mac);
  }

  /** Reassembling the pieces cut out of an envelope gives the envelope back. */
  lemma {:induction false} JoinSym(s: GoString, iv: GoString, rest2: GoString, ciphertext: GoString, mac: GoString)
    requires |s| >= 2 && s[0] == CHAR_2 && s[1] == DOT
    requires s[2..] == iv + [PIPE] + rest2 && rest2 == ciphertext + [PIPE] + mac
    ensures s == FormatSym(SymFields(iv, ciphertext, mac))
  {
    assert s == [CHAR_2, DOT] + s[2..];
  }

  function FormatPk(data: GoString): (s: GoString) {
    [CHAR_4, DOT] + data
  }

  /** Matching against `^4\.([^|]+)$`. */
  function ParsePk(s: GoString): (r: Option<GoString>)
    ensures r.Some? <==> (|s| >= 2 && s[0] == CHAR_4 && s[1] == DOT && IsPipeFree(s[2..]))
    ensures r.Some? ==> s == FormatPk(r.value)
  {
    if |s| >= 2 && s[0] == CHAR_4 && s[1] == DOT && IsPipeFree(s[2..]) then Some(s[2..]) else None
  }

  /** A base64 text never contains `|` or a newline. */
  lemma Base64TextFits(t: Base64Text)
    ensures PIPE !in t && NEWLINE !in t
  {
    forall k | 0 <= k < |t| ensures t[k] != PIPE && t[k] != NEWLINE {
      assert IsBase64Char(t[k]);
    }
  }

  /** The MAC `BWSymEncrypt` attaches and `BWSymDecrypt` expects: HMAC over IV | ciphertext. */
  function ExpectedMac(c: Primitives, macKey: Bytes, iv: Bytes, ciphertext: Bytes): Digest {
    c.hmacSha256(macKey, iv + ciphertext)
  }

  /** `BWSymEncrypt` with the random IV as a parameter. The key split panics for a key shorter than
      32 bytes: callers pass 32-byte master keys and 64-byte symmetric keys. */
  function BWSymEncrypt(c: Primitives, key: Bytes, iv: Bytes, plain: Bytes): (r: GoString)
    requires |key| >= 32 && |iv| == IV_LEN
  {
    var (encKey, macKey) := DeriveEncMacKey(c, key);
    var encrypted := Aes256CbcEncrypt(c, plain, encKey, iv);
    var maced := ExpectedMac(c, macKey, iv, encrypted);
    FormatSym(SymFields(c.base64Encode(iv), c.base64Encode(encrypted), c.base64Encode(maced)))
  }

  /** Captures decoded in order; the first one that is not base64 fails the whole call. */
  function DecodeAll(c: Primitives, data: seq<GoString>): (r: Option<seq<Bytes>>)
    ensures r.Some? <==> forall i :: 0 <= i < |data| ==> c.base64Decode(data[i]).Some?
    ensures r.Some? ==> |r.value| == |data| &&
                        forall i :: 0 <= i < |data| ==> c.base64Decode(data[i]) == Some(r.value[i])
  {
    if |data| == 0 then Some([])
    else
      match DecodeAll(c, data[..|data| - 1])
      case None => None
      case Some(prefix) =>
        match c.base64Decode(data[|data| - 1])
        case None => None
        case Some(v) => Some(prefix + [v])
  }

  /** `Base64DecodeMany`. */
  method Base64DecodeMany(c: Primitives, data: seq<GoString>) returns (r: Option<seq<Bytes>>)
    ensures r == DecodeAll(c, data)
  {
    var results: seq<Bytes> := [];
    for i := 0 to |data|
      invariant DecodeAll(c, data[..i]) == Some(results)
    {
      assert data[..i + 1][..i] == data[..i];
      var v := c.base64Decode(data[i]);
      if v.None? {
        return None;
      }
      results := results + [v.value];
    }
    assert data[..|data|] == data;
    return Some(results);
  }

  /** The MAC check of `BWSymDecrypt` passes: the envelope parses, its captures decode, and the
      decoded MAC is the HMAC of IV | ciphertext under the MAC half of `key`. */
  predicate MacValid(c: Primitives, key: Bytes, s: GoString)
  {
    && ParseSym(s).Some?
    && var f := ParseSym(s).value;
    && DecodeAll(c, [f.iv, f.ciphertext, f.mac]).Some?
    && |key| >= 32
    && var d := DecodeAll(c, [f.iv, f.ciphertext, f.mac]).value;
    && d[2] == ExpectedMac(c, DeriveEncMacKey(c, key).1, d[0], d[1])
  }

  /** `BWSymDecrypt`. */
  function BWSymDecrypt(c: Primitives, key: Bytes, s: GoString): (r: Result<Bytes>)
    ensures ParseSym(s).None? ==> r == Err(InvalidFormat)
    ensures ParseSym(s).Some? ==>
              var f := ParseSym(s).value;
              DecodeAll(c, [f.iv, f.ciphertext, f.mac]).None? ==> r == Err(Wrapped(DecodeBase64, Base64Corrupt))
    ensures ParseSym(s).Some? ==>
              var f := ParseSym(s).value;
              DecodeAll(c, [f.iv, f.ciphertext, f.mac]).Some? && |key| < 32 ==> r == Err(Panic(KeySliceBounds))
    ensures r.Ok? ==> MacValid(c, key, s)
  {
    match ParseSym(s)
    case None => Err(InvalidFormat)
    case Some(f) =>
      match DecodeAll(c, [f.iv, f.ciphertext, f.mac])
      case None => Err(Wrapped(DecodeBase64, Base64Corrupt))
      case Some(d) =>
        var iv, encData, mac := d[0], d[1], d[2];
        if |key| < 32 then Err(Panic(KeySliceBounds))
        else
          var (encKey, macKey) := DeriveEncMacKey(c, key);
          var expectedMac := ExpectedMac(c, macKey, iv, encData);
          if |mac| != |expectedMac| then Err(MacLengthMismatch)
          else if mac != expectedMac then Err(MacMismatch)
          else
            match Aes256CbcDecrypt(c, encData, encKey, iv)
            case Err(e) => Err(Wrap(Decrypt, e))
            case Ok(plaintext) => Ok(plaintext)
  }

  /** The checks run in a fixed order: shape, then base64, then the MAC length, then the MAC value, and
      only then the cipher. A well-formed envelope whose MAC is not 32 bytes long is refused with a
      length error, one whose MAC has the right length but the wrong value with a MAC error, whatever
      the ciphertext; any other outcome comes after the MAC matched. */
  lemma MacBeforeDecrypt(c: Primitives, key: Bytes, s: GoString)
    requires ParseSym(s).Some?
    requires var f := ParseSym(s).value; DecodeAll(c, [f.iv, f.ciphertext, f.mac]).Some?
    requires |key| >= 32
    ensures var f := ParseSym(s).value;
            var d := DecodeAll(c, [f.iv, f.ciphertext, f.mac]).value;
            |d[2]| != HASH_LEN ==> BWSymDecrypt(c, key, s) == Err(MacLengthMismatch)
    ensures var f := ParseSym(s).value;
            var d := DecodeAll(c, [f.iv, f.ciphertext, f.mac]).value;
            |d[2]| == HASH_LEN && !MacValid(c, key, s) ==> BWSymDecrypt(c, key, s) == Err(MacMismatch)
    ensures BWSymDecrypt(c, key, s) !in {Err(MacLengthMismatch), Err(MacMismatch)} ==> MacValid(c, key, s)
    ensures MacValid(c, key, s) ==>
              var r := BWSymDecrypt(c, key, s);
              r.Ok? || r.error.Panic? || (r.error.Wrapped? && r.error.context == Decrypt)
  {
  }

  lemma {:induction false} DecodeAllEncoded(c: Primitives, a: Bytes, b: Bytes, m: Bytes)
    requires Base64RoundTrip(c)
    ensures DecodeAll(c, [c.base64Encode(a), c.base64Encode(b), c.base64Encode(m)]) == Some([a, b, m])
  {
    var data := [c.base64Encode(a), c.base64Encode(b), c.base64Encode(m)];
    var plain := [a, b, m];
    forall i | 0 <= i < 3 ensures c.base64Decode(data[i]) == Some(plain[i]) {
      assert data[i] == c.base64Encode(plain[i]);
    }
    var r := DecodeAll(c, data);
    assert r.value == plain;
  }

  /** `BWSymEncrypt` always produces text of the symmetric envelope shape. */
  lemma SymEnvelopeShape(c: Primitives, key: Bytes, iv: Bytes, plain: Bytes)
    requires Base64RoundTrip(c)
    requires |key| >= 32 && |iv| == IV_LEN
    ensures IsBWSymFormat(BWSymEncrypt(c, key, iv, plain))
  {
    var (encKey, macKey) := DeriveEncMacKey(c, key);
    var encrypted := Aes256CbcEncrypt(c, plain, encKey, iv);
    var maced := ExpectedMac(c, macKey, iv, encrypted);
    var f := SymFields(c.base64Encode(iv), c.base64Encode(encrypted), c.base64Encode(maced));
    Base64TextFits(f.iv);
    Base64TextFits(f.ciphertext);
    Base64TextFits(f.mac);
    ParseFormatSym(f);
  }

  /** Round trip: decrypting with the same key gives back the plaintext. */
  lemma SymRoundTrip(c: Primitives, key: Bytes, iv: Bytes, plain: Bytes)
    requires CbcInverse(c) && Base64RoundTrip(c)
    requires |key| >= 32 && |iv| == IV_LEN
    ensures BWSymDecrypt(c, key, BWSymEncrypt(c, key, iv, plain)) == Ok(plain)
  {
    var (encKey, macKey) := DeriveEncMacKey(c, key);
    var encrypted := Aes256CbcEncrypt(c, plain, encKey, iv);
    var maced := ExpectedMac(c, macKey, iv, encrypted);
    var f := SymFields(c.base64Encode(iv), c.base64Encode(encrypted), c.base64Encode(maced));
    Base64TextFits(f.iv);
    Base64TextFits(f.ciphertext);
    Base64TextFits(f.mac);
    ParseFormatSym(f);
    DecodeAllEncoded(c, iv, encrypted, maced);
    CbcRoundTrip(c, plain, encKey, iv);
  }

  /** `BWPKEncrypt`; OAEP's random seed is not modelled. */
  function BWPKEncrypt(c: Primitives, data: Bytes, pub: RsaPublicKey): (r: GoString) {
    FormatPk(c.base64Encode(c.oaepEncrypt(pub, data)))
  }

  /** `BWPKDecrypt`. */
  function BWPKDecrypt(c: Primitives, s: GoString, pri: RsaPrivateKey): (r: Result<Bytes>)
    ensures ParsePk(s).None? ==> r == Err(InvalidFormat)
    ensures r.Ok? ==> exists ct :: c.base64Decode(s[2..]) == Some(ct) && c.oaepDecrypt(pri, ct) == Some(r.value)
    ensures ParsePk(s).Some? && c.base64Decode(s[2..]).None? ==> r == Err(Wrapped(ParseEncryptedData, Base64Corrupt))
    ensures ParsePk(s).Some? && c.base64Decode(s[2..]).Some? && c.oaepDecrypt(pri, c.base64Decode(s[2..]).value).None? ==>
              r == Err(Wrapped(DecryptWithPrivateKey, Wrapped(DecryptByPublicKey, OaepFailed)))
    ensures ParsePk(s).Some? && c.base64Decode(s[2..]).Some? && c.oaepDecrypt(pri, c.base64Decode(s[2..]).value).Some? ==>
              r == Ok(c.oaepDecrypt(pri, c.base64Decode(s[2..]).value).value)
  {
    match ParsePk(s)
    case None => Err(InvalidFormat)
    case Some(data) =>
      match c.base64Decode(data)
      case None => Err(Wrapped(ParseEncryptedData, Base64Corrupt))
      case Some(encData) =>
        match c.oaepDecrypt(pri, encData)
        case None => Err(Wrapped(DecryptWithPrivateKey, Wrapped(DecryptByPublicKey, OaepFailed)))
        case Some(plaintext) => Ok(plaintext)
  }

  /** `BWPKEncrypt` always produces text that matches `rxBWPk`. */
  lemma PkEnvelopeShape(c: Primitives, data: Bytes, pub: RsaPublicKey)
    requires Base64RoundTrip(c)
    ensures ParsePk(BWPKEncrypt(c, data, pub)) == Some(c.base64Encode(c.oaepEncrypt(pub, data)))
  {
    var t := c.base64Encode(c.oaepEncrypt(pub, data));
    Base64TextFits(t);
    assert BWPKEncrypt(c, data, pub)[2..] == t;
  }

  /** Round trip for a matching key pair. */
  lemma PkRoundTrip(c: Primitives, data: Bytes, pri: RsaPrivateKey)
    requires Base64RoundTrip(c) && OaepInverse(c)
    ensures BWPKDecrypt(c, BWPKEncrypt(c, data, pri.pub), pri) == Ok(data)
  {
    var ct := c.oaepEncrypt(pri.pub, data);
    PkEnvelopeShape(c, data, pri.pub);
    assert c.base64Decode(c.base64Encode(ct)) == Some(ct);
    assert c.oaepDecrypt(pri, ct) == Some(data);
  }
}
