/**
 * The foreign libraries the core calls, reduced to what the core relies on.
 *
 * Base64 (`encoding/base64`, section 4 of RFC 4648), JSON (`encoding/json`, RFC 8259),
 * the AES block cipher (FIPS 197) and SHA-256 (FIPS 180-4) are given as function-valued
 * parameters; the only facts the model uses about them are the `Lawful...` predicates
 * below, which proofs take as preconditions. The CBC mode of `crypto/cipher`
 * (section 6.2 of NIST SP 800-38A) is written out over the abstract block cipher.
 */
module Library {
  import opened Basics

  /** `base64.StdEncoding`: `EncodeToString` and `DecodeString`. */
  datatype Base64 = Base64(encode: Bytes -> string, decode: string -> Result<Bytes>)

  /** Decoding an encoding gives the bytes back. */
  ghost predicate LawfulBase64(b: Base64) {
    forall bytes :: b.decode(b.encode(bytes)) == Success(bytes)
  }

  /** `json.Marshal` and `json.Unmarshal` at one Go type. */
  datatype Json<!T> = Json(marshal: T -> Result<Bytes>, unmarshal: Bytes -> Result<T>)

  /** Unmarshalling what was marshalled gives the value back. */
  ghost predicate LawfulJson<T(!new)>(j: Json<T>) {
    forall v :: j.marshal(v).Success? ==> j.unmarshal(j.marshal(v).value) == Success(v)
  }

  /** The AES block size, `aes.BlockSize`. */
  const BlockSize: nat := 16

  type Block = s: Bytes | |s| == BlockSize
    witness [0, 0, 0, 0, 0, 0, 0, 0, 0, 0, 0, 0, 0, 0, 0, 0]

  /** A SHA-256 digest. */
  type Digest = s: Bytes | |s| == 32
    witness [0, 0, 0, 0, 0, 0, 0, 0, 0, 0, 0, 0, 0, 0, 0, 0,
             0, 0, 0, 0, 0, 0, 0, 0, 0, 0, 0, 0, 0, 0, 0, 0]

  /** `aes.NewCipher` accepts AES-128, AES-192 and AES-256 keys only. */
  predicate ValidKeyLength(n: nat) {
    n == 16 || n == 24 || n == 32
  }

  /** The AES forward and inverse cipher on one block, under a key. */
  datatype BlockCipher = BlockCipher(encrypt: (Bytes, Block) -> Block, decrypt: (Bytes, Block) -> Block)

  /** Under a valid key, the inverse cipher undoes the forward cipher. */
  ghost predicate LawfulBlockCipher(aes: BlockCipher) {
    forall key, b :: ValidKeyLength(|key|) ==> aes.decrypt(key, aes.encrypt(key, b)) == b
  }

  /** One `rand.Read` into a buffer: the buffer's contents, or the reader's error. */
  datatype RandomRead<+T> = Filled(bytes: T) | ReadFailed(message: string)

  /** The cryptographic primitives: AES and `sha256.Sum` of a string's bytes. */
  datatype Crypto = Crypto(aes: BlockCipher, sha256: string -> Digest)

  ghost predicate LawfulCrypto(c: Crypto) {
    LawfulBlockCipher(c.aes)
  }

  function XorBlock(a: Block, b: Block): Block {
    seq(BlockSize, i requires 0 <= i < BlockSize => a[i] ^ b[i])
  }

  lemma XorBlockTwice(a: Block, b: Block)
    ensures XorBlock(XorBlock(a, b), b) == a
  {
    var x := XorBlock(XorBlock(a, b), b);
    forall i | 0 <= i < BlockSize ensures x[i] == a[i] {
      assert x[i] == (a[i] ^ b[i]) ^ b[i];
    }
  }

  /** CBC encryption (`cipher.NewCBCEncrypter(...).CryptBlocks`): C_i = E(P_i xor C_(i-1)), C_0 = iv. */
  function CbcEncrypt(aes: BlockCipher, key: Bytes, iv: Block, plain: Bytes): (out: Bytes)
    requires |plain| % BlockSize == 0
    ensures |out| == |plain|
    decreases |plain|
  {
    if |plain| == 0 then []
    else
      var c := aes.encrypt(key, XorBlock(plain[..BlockSize], iv));
      c + CbcEncrypt(aes, key, c, plain[BlockSize..])
  }

  /** CBC decryption (`cipher.NewCBCDecrypter(...).CryptBlocks`): P_i = D(C_i) xor C_(i-1), C_0 = iv. */
  function CbcDecrypt(aes: BlockCipher, key: Bytes, iv: Block, cipher: Bytes): (out: Bytes)
    requires |cipher| % BlockSize == 0
    ensures |out| == |cipher|
    decreases |cipher|
  {
    if |cipher| == 0 then []
    else
      var c: Block := cipher[..BlockSize];
      XorBlock(aes.decrypt(key, c), iv) + CbcDecrypt(aes, key, c, cipher[BlockSize..])
  }

  /** CBC decryption under the same key and IV inverts CBC encryption. */
  lemma {:induction false} CbcRoundTrip(aes: BlockCipher, key: Bytes, iv: Block, plain: Bytes)
    requires LawfulBlockCipher(aes) && ValidKeyLength(|key|) && |plain| % BlockSize == 0
    ensures CbcDecrypt(aes, key, iv, CbcEncrypt(aes, key, iv, plain)) == plain
    decreases |plain|
  {
    if |plain| > 0 {
      var p0: Block := plain[..BlockSize];
      var c := aes.encrypt(key, XorBlock(p0, iv));
      var rest := CbcEncrypt(aes, key, c, plain[BlockSize..]);
      var ct: Bytes := c + rest;
      assert ct == CbcEncrypt(aes, key, iv, plain);
      assert ct[..BlockSize] == c && ct[BlockSize..] == rest;
      XorBlockTwice(p0, iv);
      CbcRoundTrip(aes, key, c, plain[BlockSize..]);
      assert plain == p0 + plain[BlockSize..];
    }
  }
}
