/**
 * The cryptographic primitives the programs call into, kept abstract:
 * SHA-512 (FIPS 180-4 section 6.4) is any function from byte strings to
 * 64-byte digests, and AES-256 in counter mode (NIST SP 800-38A section 6.5)
 * is any keystream indexed by key, initial counter block and byte offset.
 * What the model relies on is only their shape: a hash object that absorbs
 * updates in order, and a cipher that XORs consecutive keystream bytes into
 * its input.
 */
module Primitives {
  import opened Codec

  // ---------------------------------------------------------------------
  // SHA-512 and hashlib's incremental hash object
  // ---------------------------------------------------------------------

  type Digest = d: seq<byte> | |d| == 64 witness Zeros(64)

  /** The SHA-512 function itself; the model never looks inside it. */
  type HashFn = seq<byte> -> Digest

  /** A hashlib.sha512() object: the bytes fed to it so far. */
  datatype HashObject = HashObject(absorbed: seq<byte>) {

    /** h.update(data) */
    function Update(data: seq<byte>): (h: HashObject)
      ensures |h.absorbed| == |absorbed| + |data|
      ensures h.absorbed[..|absorbed|] == absorbed && h.absorbed[|absorbed|..] == data
    {
      HashObject(absorbed + data)
    }

    /** h.digest(): the digest of everything absorbed; the object is not reset. */
    function Digest(sha512: HashFn): (d: Digest)
      ensures d == sha512(absorbed)
    {
      sha512(absorbed)
    }
  }

  /** hashlib.sha512() */
  const NewSha512: HashObject := HashObject([])

  /** Two updates in a row digest to the hash of the concatenation. */
  lemma UpdateTwice(sha512: HashFn, a: seq<byte>, b: seq<byte>)
    ensures NewSha512.Update(a).Update(b).Digest(sha512) == sha512(a + b)
  {
    assert NewSha512.Update(a).Update(b).absorbed == a + b;
  }

  // ---------------------------------------------------------------------
  // AES-256 in counter mode
  // ---------------------------------------------------------------------

  /** os.urandom(32) */
  type Key = s: seq<byte> | |s| == 32 witness Zeros(32)

  /** os.urandom(16) */
  type IvBytes = s: seq<byte> | |s| == 16 witness Zeros(16)

  /** The two OS randomness draws one reseed makes. */
  datatype Seed = Seed(secret: Key, iv: IvBytes)

  /**
   * The AES-256-CTR keystream: the byte at `offset` of the stream produced
   * under `key` from the initial counter block `counter`.
   */
  type Keystream = (Key, nat, nat) -> byte

  function Pow256(n: nat): (p: nat)
    ensures p >= 1
  {
    if n == 0 then 1 else 256 * Pow256(n - 1)
  }

  /** int.from_bytes(b, byteorder='little') */
  function LittleEndian(b: seq<byte>): (v: nat)
    ensures v < Pow256(|b|)
  {
    if b == [] then 0 else b[0] + 256 * LittleEndian(b[1..])
  }

  /** `len` consecutive keystream bytes starting at `from`. */
  function KeystreamBytes(aes: Keystream, key: Key, counter: nat, from: nat, len: nat): (r: seq<byte>)
    ensures |r| == len
    ensures forall i :: 0 <= i < len ==> r[i] == aes(key, counter, from + i)
  {
    seq(len, i requires 0 <= i < len => aes(key, counter, from + i))
  }

  /** A PyCrypto AES object in CTR mode: key, initial counter and how far into the keystream it is. */
  datatype CtrCipher = CtrCipher(key: Key, counter: nat, offset: nat)

  /** AES.new(secret, AES.MODE_CTR, counter=Counter.new(128, initial_value=...)) */
  function NewCipher(seed: Seed): (c: CtrCipher)
    ensures c.key == seed.secret && c.offset == 0
    ensures c.counter < Pow256(16)
  {
    CtrCipher(seed.secret, LittleEndian(seed.iv), 0)
  }

  function Pow2(n: nat): (p: nat)
    ensures p >= 1
  {
    if n == 0 then 1 else 2 * Pow2(n - 1)
  }

  /** Bitwise exclusive or of the low `n` bits of `a` and `b`. */
  function XorBits(a: nat, b: nat, n: nat): (r: nat)
    ensures r < Pow2(n)
  {
    if n == 0 then 0 else (a % 2 + b % 2) % 2 + 2 * XorBits(a / 2, b / 2, n - 1)
  }

  /** XOR with a zero operand gives back the other operand. */
  lemma {:induction false} XorZeroBits(k: nat, n: nat)
    requires k < Pow2(n)
    ensures XorBits(0, k, n) == k
  {
    if n > 0 {
      XorZeroBits(k / 2, n - 1);
    }
  }

  function Xor(a: byte, b: byte): (r: byte) {
    XorBits(a, b, 8)
  }

  /** cipher.encrypt(p): the plaintext XOR the next |p| keystream bytes; the cipher advances past them. */
  function Encrypt(aes: Keystream, c: CtrCipher, p: seq<byte>): (r: (CtrCipher, seq<byte>))
    ensures r.0 == c.(offset := c.offset + |p|)
    ensures |r.1| == |p|
  {
    (c.(offset := c.offset + |p|),
     seq(|p|, i requires 0 <= i < |p| => Xor(p[i], aes(c.key, c.counter, c.offset + i))))
  }

  /** Encrypting an all-zero block emits the raw keystream from the cipher's position on. */
  lemma EncryptZeros(aes: Keystream, c: CtrCipher, size: int)
    ensures Encrypt(aes, c, Zeros(size)).1
         == KeystreamBytes(aes, c.key, c.counter, c.offset, |Zeros(size)|)
  {
    var z := Zeros(size);
    forall i | 0 <= i < |z|
      ensures Encrypt(aes, c, z).1[i] == aes(c.key, c.counter, c.offset + i)
    {
      var k := aes(c.key, c.counter, c.offset + i);
      assert Pow2(8) == 256;
      XorZeroBits(k, 8);
      assert z[i] == 0;
    }
  }

  /** Two encryptions in a row consume adjacent, non-overlapping keystream segments. */
  lemma EncryptAdjacent(aes: Keystream, c: CtrCipher, p: seq<byte>, q: seq<byte>)
    ensures var (c1, x) := Encrypt(aes, c, p);
            var (c2, y) := Encrypt(aes, c1, q);
            c2 == Encrypt(aes, c, p + q).0 && x + y == Encrypt(aes, c, p + q).1
  {
  }
}
