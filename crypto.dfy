/** The cryptographic primitives `DatabaseReader` uses through .NET: PBKDF2-HMAC-SHA1
    (`Rfc2898DeriveBytes`, section 5.2 of RFC 8018) and AES with a 128-bit block
    (FIPS 197) in CBC mode without padding (section 6.2 of NIST SP 800-38A).
    The hash and the block cipher themselves are not modelled: they are parameters,
    constrained only by their output lengths and, for the block cipher, by decryption
    undoing encryption. The CBC chaining is written out over the block cipher. */
module Crypto {
  import opened Common

  /** `KEY_LENGTH`: bits of every derived key. */
  const KeyLength: nat := 256

  /** The AES block size in bytes (`BlockSize = 128` bits). */
  const BlockBytes: nat := 16

  type Block = b: seq<byte> | |b| == BlockBytes witness seq(BlockBytes, _ => 0)

  /** A PBKDF2-HMAC-SHA1 implementation: (password, salt, iteration count, length) to
      derived bytes. All the model knows is that it returns as many bytes as asked for. */
  type Pbkdf2 = f: (seq<byte>, seq<byte>, nat, nat) -> seq<byte>
    | forall password, salt, iterations, length :: |f(password, salt, iterations, length)| == length
    witness (password: seq<byte>, salt: seq<byte>, iterations: nat, length: nat) => seq(length, _ => 0)

  /** A block cipher: from a key and a block to a block, each way. */
  datatype BlockCipher = BlockCipher(encrypt: (seq<byte>, Block) -> Block, decrypt: (seq<byte>, Block) -> Block)

  /** Under every key, decryption undoes encryption. */
  ghost predicate Inverts(c: BlockCipher) {
    forall key, block :: c.decrypt(key, c.encrypt(key, block)) == block
  }

  /** AES: all the model knows is that it is a block cipher whose decryption inverts its encryption. */
  type Aes = c: BlockCipher | Inverts(c)
    witness BlockCipher((key, block) => block, (key, block) => block)

  datatype Primitives = Primitives(kdf: Pbkdf2, aes: Aes)

  /** `GetKey`: `KEY_LENGTH / 8` bytes derived from a password and a salt. */
  function GetKey(kdf: Pbkdf2, password: seq<byte>, salt: seq<byte>, iterationCount: nat): (key: seq<byte>)
    ensures |key| == KeyLength / 8 == 32
  {
    kdf(password, salt, iterationCount, KeyLength / 8)
  }

  /** A configured AES-CBC object (`SymmetricAlgorithm` after `GetAlgorithm`). */
  datatype AesCbc = AesCbc(key: seq<byte>, iv: Block)

  /** The key lengths in bytes that .NET's AES accepts. */
  const LegalKeyBytes: set<nat> := {16, 24, 32}

  const InvalidKeySize: Error := Cryptographic("Specified key is not a valid size for this algorithm.")
  const InvalidIvSize: Error := Cryptographic("Specified initialization vector (IV) does not match the block size for this algorithm.")
  const IncompleteBlock: Error := Cryptographic("The input data is not a complete block.")

  /** `GetAlgorithm`: AES, 128-bit block, CBC, no padding. Assigning the key fails unless it
      has a legal AES length (and then sets the key size to it); assigning the IV fails
      unless it is one block long. */
  function GetAlgorithm(key: seq<byte>, iv: seq<byte>): (r: Result<AesCbc>)
    ensures r.Ok? <==> |key| in LegalKeyBytes && |iv| == BlockBytes
    ensures r.Ok? ==> r.value.key == key && r.value.iv == iv
    ensures r.Err? ==> r.error == (if |key| in LegalKeyBytes then InvalidIvSize else InvalidKeySize)
  {
    if |key| !in LegalKeyBytes then Err(InvalidKeySize)
    else if |iv| != BlockBytes then Err(InvalidIvSize)
    else Ok(AesCbc(key, iv))
  }

  function Pow2(n: nat): (p: nat)
    ensures p >= 1
  {
    if n == 0 then 1 else 2 * Pow2(n - 1)
  }

  function LowBit(x: nat): nat {
    x % 2
  }

  /** The exclusive or of the lowest bits of two numbers. */
  function XorBit(x: nat, y: nat): nat {
    if LowBit(x) == LowBit(y) then 0 else 1
  }

  /** Bitwise exclusive or of the `n` lowest bits of two numbers. */
  function XorBits(x: nat, y: nat, n: nat): (r: nat)
    ensures r < Pow2(n)
  {
    if n == 0 then 0 else XorBit(x, y) + 2 * XorBits(x / 2, y / 2, n - 1)
  }

  lemma {:induction false} XorBitsTwice(x: nat, y: nat, n: nat)
    requires x < Pow2(n)
    ensures XorBits(XorBits(x, y, n), y, n) == x
  {
    if n > 0 {
      var high := XorBits(x / 2, y / 2, n - 1);
      var low := XorBit(x, y);
      var w := low + 2 * high;
      assert LowBit(w) == low && w / 2 == high;
      XorBitsTwice(x / 2, y / 2, n - 1);
      assert XorBit(w, y) == LowBit(x);
      assert x == LowBit(x) + 2 * (x / 2);
    }
  }

  /** Bitwise exclusive or of two bytes. */
  function Xor(x: byte, y: byte): byte {
    XorBits(x as nat, y as nat, 8) as byte
  }

  function XorBlock(a: Block, b: Block): Block {
    seq(BlockBytes, i requires 0 <= i < BlockBytes => Xor(a[i], b[i]))
  }

  lemma XorBlockTwice(a: Block, b: Block)
    ensures XorBlock(XorBlock(a, b), b) == a
  {
    var x := XorBlock(XorBlock(a, b), b);
    forall i | 0 <= i < BlockBytes
      ensures x[i] == a[i]
    {
      XorBitsTwice(a[i] as nat, b[i] as nat, 8);
    }
  }

  /** CBC decryption: every plaintext block is the decrypted ciphertext block XOR the
      previous ciphertext block, the first one XOR the IV. */
  function CbcDecrypt(aes: Aes, key: seq<byte>, iv: Block, input: seq<byte>): (output: seq<byte>)
    requires |input| % BlockBytes == 0
    ensures |output| == |input|
    decreases |input|
  {
    if input == [] then []
    else
      var block: Block := input[..BlockBytes];
      XorBlock(aes.decrypt(key, block), iv) + CbcDecrypt(aes, key, block, input[BlockBytes..])
  }

  /** CBC encryption, the inverse of `CbcDecrypt`; not used by the reader, only by the
      encoder the round-trip lemmas are stated with. */
  function CbcEncrypt(aes: Aes, key: seq<byte>, iv: Block, input: seq<byte>): (output: seq<byte>)
    requires |input| % BlockBytes == 0
    ensures |output| == |input|
    decreases |input|
  {
    if input == [] then []
    else
      var block := aes.encrypt(key, XorBlock(input[..BlockBytes], iv));
      block + CbcEncrypt(aes, key, block, input[BlockBytes..])
  }

  lemma {:induction false} CbcRoundTrip(aes: Aes, key: seq<byte>, iv: Block, plain: seq<byte>)
    requires |plain| % BlockBytes == 0
    ensures CbcDecrypt(aes, key, iv, CbcEncrypt(aes, key, iv, plain)) == plain
    decreases |plain|
  {
    if plain != [] {
      var head: Block := plain[..BlockBytes];
      var block := aes.encrypt(key, XorBlock(head, iv));
      var rest := CbcEncrypt(aes, key, block, plain[BlockBytes..]);
      var cipher: seq<byte> := block + rest;
      assert cipher == CbcEncrypt(aes, key, iv, plain);
      assert cipher[..BlockBytes] == block && cipher[BlockBytes..] == rest;
      assert Inverts(aes);
      XorBlockTwice(head, iv);
      CbcRoundTrip(aes, key, block, plain[BlockBytes..]);
      assert CbcDecrypt(aes, key, iv, cipher) == head + plain[BlockBytes..];
      assert plain == head + plain[BlockBytes..];
    }
  }

  /** `TransformFinalBlock` of a decryptor with no padding: the whole input in one go;
      input that is not a whole number of blocks is refused. */
  function TransformFinalBlock(aes: Aes, algorithm: AesCbc, input: seq<byte>): (r: Result<seq<byte>>)
    ensures r.Ok? <==> |input| % BlockBytes == 0
    ensures r.Ok? ==> |r.value| == |input|
    ensures r.Err? ==> r.error == IncompleteBlock
  {
    if |input| % BlockBytes != 0 then Err(IncompleteBlock)
    else Ok(CbcDecrypt(aes, algorithm.key, algorithm.iv, input))
  }
}
