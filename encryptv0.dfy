/**
 * Envelope cipher framing (pkg/chatter/encryptv0.go): zero padding to the AES block size,
 * a random IV in front of the CBC ciphertext, and two-sided zero trimming after decryption.
 */
module EncryptV0 {
  import opened Basics
  import opened Library

  /** A 256-bit key as `makeRandom256AesKey` draws it. */
  type Key256 = s: Bytes | |s| == 32
    witness [0, 0, 0, 0, 0, 0, 0, 0, 0, 0, 0, 0, 0, 0, 0, 0,
             0, 0, 0, 0, 0, 0, 0, 0, 0, 0, 0, 0, 0, 0, 0, 0]

  /** The outcome of a cipher call: bytes, a returned error, or a run-time panic. */
  datatype CryptResult = Done(bytes: Bytes) | Error(message: string) | Panic(message: string)

  const InvalidKeySize := "crypto/aes: invalid key size "
  const NotPaddedProperly := "not padded properly"
  const SliceLengthOutOfRange := "runtime error: makeslice: len out of range"
  const CannotReadRandom := "cannot read from random"

  /** `strconv.Itoa` on a length: its decimal digits, most significant first. */
  function DecimalString(n: nat): (r: string)
    ensures |r| > 0 && forall i | 0 <= i < |r| :: '0' <= r[i] <= '9'
  {
    var digit := [('0' as int + n % 10) as char];
    if n < 10 then digit else DecimalString(n / 10) + digit
  }

  /** The number a string of decimal digits denotes. */
  function DecimalValue(s: string): nat
    requires forall i | 0 <= i < |s| :: '0' <= s[i] <= '9'
  {
    if |s| == 0 then 0 else DecimalValue(s[..|s| - 1]) * 10 + (s[|s| - 1] as int - '0' as int)
  }

  /** Reading the digits back gives the number. */
  lemma {:induction false} DecimalRoundTrip(n: nat)
    ensures DecimalValue(DecimalString(n)) == n
  {
    var s := DecimalString(n);
    if n >= 10 {
      DecimalRoundTrip(n / 10);
      assert s[..|s| - 1] == DecimalString(n / 10);
    }
  }

  /** `aes.KeySizeError(n).Error()`: the fixed text followed by the rejected length. */
  function KeySizeError(n: nat): (r: string)
    ensures |r| > |InvalidKeySize| && r[..|InvalidKeySize|] == InvalidKeySize
  {
    InvalidKeySize + DecimalString(n)
  }

  /** The key-size error names the length: two lengths give the same text only when they are equal. */
  lemma KeySizeErrorNamesLength(a: nat, b: nat)
    ensures KeySizeError(a) == KeySizeError(b) <==> a == b
  {
    if KeySizeError(a) == KeySizeError(b) {
      assert DecimalString(a) == KeySizeError(a)[|InvalidKeySize|..];
      assert DecimalString(b) == KeySizeError(b)[|InvalidKeySize|..];
      DecimalRoundTrip(a);
      DecimalRoundTrip(b);
    }
  }

  /** True when `p` neither starts nor ends with a zero byte. */
  predicate NoZeroEnds(p: Bytes) {
    |p| == 0 || (p[0] != 0 && p[|p| - 1] != 0)
  }

  /** `makeAesKey`: the SHA-256 digest of the passphrase, an AES-256 key for any passphrase. */
  function MakeAesKey(crypto: Crypto, phrase: string): (key: Bytes)
    ensures |key| == 32 && ValidKeyLength(|key|)
  {
    crypto.sha256(phrase)
  }

  /** `makeRandom256AesKey`: the 32 random bytes read, or a panic when the reader fails. */
  function MakeRandom256AesKey(read: RandomRead<Key256>): (r: CryptResult)
    ensures r.Done? <==> read.Filled?
    ensures r.Done? ==> |r.bytes| == 32 && r.bytes == read.bytes
    ensures !r.Done? ==> r.Panic?
  {
    match read
    case Filled(key) => Done(key)
    case ReadFailed(_) => Panic(CannotReadRandom)
  }

  lemma MulAtLeast(k: int, n: int)
    requires k >= 1 && n > 0
    ensures k * n >= n
  {
  }

  lemma DivModUnique(x: int, n: int, q: int, r: int)
    requires n > 0 && 0 <= r < n && x == q * n + r
    ensures x % n == r
  {
    var q', r' := x / n, x % n;
    assert x == q' * n + r';
    assert (q - q') * n == r' - r;
    if q - q' >= 1 {
      MulAtLeast(q - q', n);
    } else if q' - q >= 1 {
      MulAtLeast(q' - q, n);
    }
  }

  /** Adding `n - len % n` to `len` reaches a multiple of `n`. */
  lemma PaddedLengthAligned(len: nat, n: nat)
    requires n > 0
    ensures (len + (n - len % n)) % n == 0
  {
    var q := len / n;
    assert len == q * n + len % n;
    assert len + (n - len % n) == (q + 1) * n + 0;
    DivModUnique(len + (n - len % n), n, q + 1, 0);
  }

  /** `addZeroPadding`: append between 1 and `blockSize` zero bytes to reach a multiple of `blockSize`. */
  function AddZeroPadding(ciphertext: Bytes, blockSize: nat): (r: Bytes)
    requires blockSize > 0
    ensures |r| % blockSize == 0 && |ciphertext| < |r| <= |ciphertext| + blockSize
    ensures r[..|ciphertext|] == ciphertext
    ensures forall i :: |ciphertext| <= i < |r| ==> r[i] == 0
    ensures |ciphertext| % blockSize == 0 ==> |r| == |ciphertext| + blockSize
  {
    var padding := blockSize - |ciphertext| % blockSize;
    PaddedLengthAligned(|ciphertext|, blockSize);
    ciphertext + Zeros(padding)
  }

  function TrimLeftZeros(s: Bytes): (r: Bytes)
    ensures |r| <= |s|
  {
    if |s| > 0 && s[0] == 0 then TrimLeftZeros(s[1..]) else s
  }

  function TrimRightZeros(s: Bytes): (r: Bytes)
    ensures |r| <= |s|
  {
    if |s| > 0 && s[|s| - 1] == 0 then TrimRightZeros(s[..|s| - 1]) else s
  }

  /** `unPadTheZeros`: `bytes.TrimFunc` with the zero rune, trimming zero bytes at both ends. */
  function UnPadTheZeros(origData: Bytes): Bytes {
    TrimRightZeros(TrimLeftZeros(origData))
  }

  lemma {:induction false} TrimLeftShape(s: Bytes)
    ensures var r := TrimLeftZeros(s);
      s == Zeros(|s| - |r|) + r && (|r| == 0 || r[0] != 0)
    decreases |s|
  {
    if |s| > 0 && s[0] == 0 {
      TrimLeftShape(s[1..]);
      var r := TrimLeftZeros(s[1..]);
      assert s == [0] + s[1..];
      assert Zeros(|s| - |r|) == [0] + Zeros(|s| - 1 - |r|);
    } else {
      assert Zeros(0) == [];
    }
  }

  lemma {:induction false} TrimRightShape(s: Bytes)
    ensures var r := TrimRightZeros(s);
      s == r + Zeros(|s| - |r|) && (|r| == 0 || r[|r| - 1] != 0) && (|r| > 0 ==> r[0] == s[0])
    decreases |s|
  {
    if |s| > 0 && s[|s| - 1] == 0 {
      var s' := s[..|s| - 1];
      TrimRightShape(s');
      var r := TrimRightZeros(s');
      assert s == s' + [0];
      assert Zeros(|s| - |r|) == Zeros(|s'| - |r|) + [0];
      if |r| > 0 { assert s'[0] == s[0]; }
    } else {
      assert Zeros(0) == [];
    }
  }

  /**
   * `unPadTheZeros` removes only zero bytes, and only at the two ends: its input is its
   * result with zero runs before and after, and the result has no zero at either end.
   */
  lemma UnPadStripsOnlyEndZeros(s: Bytes)
    ensures NoZeroEnds(UnPadTheZeros(s))
    ensures exists a: nat, b: nat :: s == Zeros(a) + UnPadTheZeros(s) + Zeros(b)
  {
    var l := TrimLeftZeros(s);
    TrimLeftShape(s);
    TrimRightShape(l);
    var r := TrimRightZeros(l);
    var a, b := |s| - |l|, |l| - |r|;
    assert s == Zeros(a) + l && l == r + Zeros(b);
    assert s == Zeros(a) + r + Zeros(b);
  }

  lemma {:induction false} TrimLeftFramed(a: nat, p: Bytes)
    requires |p| == 0 || p[0] != 0
    ensures TrimLeftZeros(Zeros(a) + p) == p
    decreases a
  {
    if a > 0 {
      assert (Zeros(a) + p)[1..] == Zeros(a - 1) + p;
      TrimLeftFramed(a - 1, p);
    } else {
      assert Zeros(a) + p == p;
    }
  }

  lemma {:induction false} TrimRightFramed(p: Bytes, b: nat)
    requires |p| == 0 || p[|p| - 1] != 0
    ensures TrimRightZeros(p + Zeros(b)) == p
    decreases b
  {
    if b > 0 {
      assert (p + Zeros(b))[..|p| + b - 1] == p + Zeros(b - 1);
      TrimRightFramed(p, b - 1);
    } else {
      assert p + Zeros(b) == p;
    }
  }

  /** Surrounding a plaintext without zero ends by zero runs is undone by `unPadTheZeros`. */
  lemma UnPadFramed(a: nat, p: Bytes, b: nat)
    requires NoZeroEnds(p)
    ensures UnPadTheZeros(Zeros(a) + p + Zeros(b)) == p
  {
    assert Zeros(a) + p + Zeros(b) == Zeros(a) + (p + Zeros(b));
    if |p| == 0 {
      assert Zeros(a) + (p + Zeros(b)) == Zeros(a + b);
      TrimLeftFramed(a + b, []);
      assert Zeros(a + b) == Zeros(a + b) + [];
      TrimRightFramed([], 0);
    } else {
      assert (p + Zeros(b))[0] == p[0];
      TrimLeftFramed(a, p + Zeros(b));
      TrimRightFramed(p, b);
    }
  }

  /** `unPadTheZeros` leaves a byte string unchanged exactly when it has no zero at either end. */
  lemma UnPadIdentityIff(p: Bytes)
    ensures UnPadTheZeros(p) == p <==> NoZeroEnds(p)
  {
    UnPadStripsOnlyEndZeros(p);
    if NoZeroEnds(p) {
      UnPadFramed(0, p, 0);
      assert Zeros(0) + p + Zeros(0) == p;
    }
  }

  /** Padding adds only trailing zeros, so trimming a padded input trims the input itself. */
  lemma UnPadAfterPadding(p: Bytes, blockSize: nat)
    requires blockSize > 0
    ensures UnPadTheZeros(AddZeroPadding(p, blockSize)) == UnPadTheZeros(p)
  {
    UnPadStripsOnlyEndZeros(p);
    var t := UnPadTheZeros(p);
    var a: nat, b: nat :| p == Zeros(a) + t + Zeros(b);
    var padded := AddZeroPadding(p, blockSize);
    var n := |padded| - |p|;
    assert padded == p + Zeros(n);
    assert Zeros(b) + Zeros(n) == Zeros(b + n);
    assert padded == Zeros(a) + t + Zeros(b + n);
    UnPadFramed(a, t, b + n);
  }

  /**
   * What `DoAesCBCEncrypt` computes: a key-size error, the random reader's error, or the
   * IV followed by the CBC ciphertext of the zero-padded source.
   */
  function Encrypt(aes: BlockCipher, src: Bytes, key: Bytes, ivRead: RandomRead<Block>): CryptResult {
    if !ValidKeyLength(|key|) then Error(KeySizeError(|key|))
    else
      match ivRead
      case ReadFailed(m) => Error(m)
      case Filled(iv) => Done(iv + CbcEncrypt(aes, key, iv, AddZeroPadding(src, BlockSize)))
  }

  /**
   * What `DoAesCBCDecrypt` computes: a key-size error, a panic for a source shorter than
   * one block, an error for a length that is not a block multiple, or the CBC decryption
   * of the body under the leading IV with zero bytes trimmed from both ends.
   */
  function Decrypt(aes: BlockCipher, src: Bytes, key: Bytes): (r: CryptResult)
    ensures r.Panic? <==> ValidKeyLength(|key|) && |src| < BlockSize
    ensures r.Error? <==> !ValidKeyLength(|key|) || (BlockSize <= |src| && |src| % BlockSize != 0)
    ensures r.Done? ==> NoZeroEnds(r.bytes) && |r.bytes| <= |src| - BlockSize
  {
    if !ValidKeyLength(|key|) then Error(KeySizeError(|key|))
    else if |src| < BlockSize then Panic(SliceLengthOutOfRange)
    else if |src| % BlockSize != 0 then Error(NotPaddedProperly)
    else
      var body := CbcDecrypt(aes, key, src[..BlockSize], src[BlockSize..]);
      UnPadStripsOnlyEndZeros(body);
      Done(UnPadTheZeros(body))
  }

  /** `DoAesCBCEncrypt`: the result and the IV are built in fresh buffers and copied together. */
  method DoAesCBCEncrypt(aes: BlockCipher, src: Bytes, key: Bytes, ivRead: RandomRead<Block>)
    returns (r: CryptResult)
    ensures r == Encrypt(aes, src, key, ivRead)
  {
    if !ValidKeyLength(|key|) {
      return Error(KeySizeError(|key|));
    }
    var padded := AddZeroPadding(src, BlockSize);
    if ivRead.ReadFailed? {
      return Error(ivRead.message);
    }
    // The source's "pad failure" guard never fires: the padding always reaches a block multiple.
    assert |padded| % BlockSize == 0;
    var iv := ivRead.bytes;
    var out := CbcEncrypt(aes, key, iv, padded);
    var ret := new byte[|out| + |iv|];
    forall i | 0 <= i < BlockSize {
      ret[i] := iv[i];
    }
    forall i | BlockSize <= i < ret.Length {
      ret[i] := out[i - BlockSize];
    }
    assert ret[..] == iv + out;
    return Done(ret[..]);
  }

  /** `DoAesCBCDecrypt`: the output buffer is allocated before the length check, as in the source. */
  method DoAesCBCDecrypt(aes: BlockCipher, src: Bytes, key: Bytes) returns (r: CryptResult)
    ensures r == Decrypt(aes, src, key)
  {
    if !ValidKeyLength(|key|) {
      return Error(KeySizeError(|key|));
    }
    if |src| < BlockSize {
      return Panic(SliceLengthOutOfRange);
    }
    var out := new byte[|src| - BlockSize];
    var iv: Block := src[..BlockSize];
    if |src| % BlockSize != 0 {
      return Error(NotPaddedProperly);
    }
    var plain := CbcDecrypt(aes, key, iv, src[BlockSize..]);
    forall i | 0 <= i < out.Length {
      out[i] := plain[i];
    }
    assert out[..] == plain;
    return Done(UnPadTheZeros(out[..]));
  }

  /**
   * An encryption under a valid key with a working reader is the IV followed by a
   * ciphertext as long as the padded input: 16 + the next multiple of 16 above |src|.
   */
  lemma EncryptShape(aes: BlockCipher, src: Bytes, key: Bytes, ivRead: RandomRead<Block>)
    ensures !ValidKeyLength(|key|) ==> Encrypt(aes, src, key, ivRead) == Error(KeySizeError(|key|))
    ensures ValidKeyLength(|key|) && ivRead.Filled? ==>
      var r := Encrypt(aes, src, key, ivRead);
      r.Done? && r.bytes[..BlockSize] == ivRead.bytes &&
      |r.bytes| == BlockSize + |AddZeroPadding(src, BlockSize)| &&
      |r.bytes| % BlockSize == 0 && BlockSize + |src| < |r.bytes| <= 2 * BlockSize + |src|
  {
  }

  /** Decrypting an encryption under the same valid key gives the plaintext with its zero ends trimmed. */
  lemma EncryptDecryptTrims(aes: BlockCipher, src: Bytes, key: Bytes, ivRead: RandomRead<Block>)
    requires LawfulBlockCipher(aes) && ValidKeyLength(|key|) && ivRead.Filled?
    ensures Decrypt(aes, Encrypt(aes, src, key, ivRead).bytes, key) == Done(UnPadTheZeros(src))
  {
    var iv: Block := ivRead.bytes;
    var padded := AddZeroPadding(src, BlockSize);
    var body := CbcEncrypt(aes, key, iv, padded);
    var ct := iv + body;
    assert Encrypt(aes, src, key, ivRead).bytes == ct;
    assert ct[..BlockSize] == iv && ct[BlockSize..] == body;
    assert |ct| % BlockSize == 0 by {
      assert |ct| == |padded| + BlockSize;
    }
    assert Decrypt(aes, ct, key) == Done(UnPadTheZeros(CbcDecrypt(aes, key, iv, body)));
    assert CbcDecrypt(aes, key, iv, body) == padded by {
      CbcRoundTrip(aes, key, iv, padded);
    }
    UnPadAfterPadding(src, BlockSize);
  }

  /**
   * The cipher round trip is exact precisely for plaintexts that neither start nor end
   * with a zero byte: `unPadTheZeros` also eats leading zeros, not only the padding.
   */
  lemma EncryptDecryptRoundTripIff(aes: BlockCipher, src: Bytes, key: Bytes, ivRead: RandomRead<Block>)
    requires LawfulBlockCipher(aes) && ValidKeyLength(|key|) && ivRead.Filled?
    ensures Decrypt(aes, Encrypt(aes, src, key, ivRead).bytes, key) == Done(src) <==> NoZeroEnds(src)
  {
    EncryptDecryptTrims(aes, src, key, ivRead);
    UnPadIdentityIff(src);
  }
}
