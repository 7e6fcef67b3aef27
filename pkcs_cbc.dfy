/** AES-256-CBC with PKCS#7 padding (section 6.3 of RFC 5652), as `ase256cbcEncrypt` and
    `aes256cbcDecrypt` in pkcs/pkcs.go do it around the block-mode library calls. */
module PkcsCbc {
  import opened Base
  import opened Crypto

  /** `aes.BlockSize`. */
  const BLOCK_SIZE: nat := 16

  /** `aes.NewCipher` accepts AES-128, AES-192 and AES-256 keys. */
  predicate IsAesKeyLength(n: nat) {
    n == 16 || n == 24 || n == 32
  }

  /** PKCS#7 padding: `padLen = 16 - len % 16` copies of the byte `padLen`, so one to sixteen bytes. */
  function Pad(p: Bytes): (r: Bytes)
    ensures |r| % BLOCK_SIZE == 0
    ensures |p| < |r| <= |p| + BLOCK_SIZE
    ensures r[..|p|] == p
    ensures forall i :: |p| <= i < |r| ==> r[i] as int == |r| - |p|
  {
    var padLen := BLOCK_SIZE - |p| % BLOCK_SIZE;
    p + seq(padLen, _ => padLen as byte)
  }

  /** The `padLen` bytes that end `p` all equal `padLen`. */
  predicate PaddingBytesMatch(p: Bytes, padLen: nat)
    requires padLen <= |p|
  {
    forall k :: |p| - padLen <= k < |p| ==> p[k] as int == padLen
  }

  /** What lines 283-293 of pkcs/pkcs.go do with the decrypted buffer: read the pad length from the
      last byte, reject a size of 0 or above 16, reject any pad byte that differs, drop the padding. */
  function Unpad(p: Bytes): (r: Result<Bytes>)
    requires |p| % BLOCK_SIZE == 0
    ensures |p| == 0 <==> r == Err(Panic(IndexOutOfRange))
    ensures |p| > 0 ==> (r == Err(InvalidPaddingSize) <==> p[|p| - 1] == 0 || p[|p| - 1] as int > BLOCK_SIZE)
    ensures r.Ok? ==> |p| - BLOCK_SIZE <= |r.value| < |p| && r.value == p[..|r.value|]
    ensures r.Err? ==> r.error in {Panic(IndexOutOfRange), InvalidPaddingSize, InvalidPadding}
  {
    if |p| == 0 then Err(Panic(IndexOutOfRange))
    else
      var padLen := p[|p| - 1] as int;
      if padLen > BLOCK_SIZE || padLen == 0 then Err(InvalidPaddingSize)
      else if !PaddingBytesMatch(p, padLen) then Err(InvalidPadding)
      else Ok(p[..|p| - padLen])
  }

  /** The padding check of `aes256cbcDecrypt`, with its loop over the end of the buffer. */
  method RemovePadding(plaintext: Bytes) returns (r: Result<Bytes>)
    requires |plaintext| % BLOCK_SIZE == 0
    ensures r == Unpad(plaintext)
  {
    if |plaintext| == 0 {
      return Err(Panic(IndexOutOfRange));
    }
    var padLen := plaintext[|plaintext| - 1] as int;
    if padLen > BLOCK_SIZE || padLen == 0 {
      return Err(InvalidPaddingSize);
    }
    for i := 0 to padLen
      invariant forall k :: |plaintext| - i <= k < |plaintext| ==> plaintext[k] as int == padLen
    {
      if plaintext[|plaintext| - 1 - i] != padLen as byte {
        return Err(InvalidPadding);
      }
    }
    return Ok(plaintext[..|plaintext| - padLen]);
  }

  lemma {:induction false} UnpadPad(p: Bytes)
    ensures Unpad(Pad(p)) == Ok(p)
  {
    var q := Pad(p);
    var padLen := |q| - |p|;
    assert q[|q| - 1] as int == padLen;
  }

  /** Unpadding succeeds exactly on padded texts: whatever it accepts is the padding of its result. */
  lemma {:induction false} UnpadOnlyPadded(q: Bytes, p: Bytes)
    requires |q| % BLOCK_SIZE == 0
    requires Unpad(q) == Ok(p)
    ensures Pad(p) == q
  {
    var padLen := q[|q| - 1] as int;
    assert |p| == |q| - padLen;
    assert |p| % BLOCK_SIZE == BLOCK_SIZE - padLen by {
      assert |q| - padLen == (|q| / BLOCK_SIZE - 1) * BLOCK_SIZE + (BLOCK_SIZE - padLen);
    }
    var r := Pad(p);
    assert |r| == |q|;
    forall i | 0 <= i < |q| ensures r[i] == q[i] {
      if i >= |p| {
        assert q[i] as int == padLen;
        assert r[i] as int == padLen;
      } else {
        assert r[i] == p[i] == q[i];
      }
    }
  }

  /** `ase256cbcEncrypt`: pad, then encrypt the blocks. `aes.NewCipher` and `cipher.NewCBCEncrypter`
      panic on a bad key or IV length; both lengths are fixed by the callers. */
  function Aes256CbcEncrypt(c: Primitives, plaintext: Bytes, key: Bytes, iv: Bytes): (r: Bytes)
    requires IsAesKeyLength(|key|) && |iv| == BLOCK_SIZE
    ensures |r| % BLOCK_SIZE == 0 && |plaintext| < |r| <= |plaintext| + BLOCK_SIZE
  {
    c.cbcEncrypt(key, iv, Pad(plaintext))
  }

  /** `aes256cbcDecrypt`: key length, then the block multiple, then the IV (a panic), then the padding. */
  function Aes256CbcDecrypt(c: Primitives, ciphertext: Bytes, key: Bytes, iv: Bytes): (r: Result<Bytes>)
    ensures !IsAesKeyLength(|key|) ==> r == Err(CipherInit)
    ensures IsAesKeyLength(|key|) && |ciphertext| % BLOCK_SIZE != 0 ==> r == Err(NotBlockMultiple)
    ensures IsAesKeyLength(|key|) && |ciphertext| % BLOCK_SIZE == 0 && |iv| != BLOCK_SIZE ==> r == Err(Panic(IvLength))
    ensures r.Ok? ==> |r.value| < |ciphertext|
  {
    if !IsAesKeyLength(|key|) then Err(CipherInit)
    else if |ciphertext| % BLOCK_SIZE != 0 then Err(NotBlockMultiple)
    else if |iv| != BLOCK_SIZE then Err(Panic(IvLength))
    else Unpad(c.cbcDecrypt(key, iv, ciphertext))
  }

  lemma CbcRoundTrip(c: Primitives, p: Bytes, key: Bytes, iv: Bytes)
    requires CbcInverse(c)
    requires IsAesKeyLength(|key|) && |iv| == BLOCK_SIZE
    ensures Aes256CbcDecrypt(c, Aes256CbcEncrypt(c, p, key, iv), key, iv) == Ok(p)
  {
    assert c.cbcDecrypt(key, iv, c.cbcEncrypt(key, iv, Pad(p))) == Pad(p);
    UnpadPad(p);
  }
}
