/**
 * The server's random bit generator: an AES-256-CTR cipher whose raw
 * keystream is handed out `entropySize` bytes per call, replaced by a cipher
 * under a fresh OS-drawn key and counter once a call counter reaches the
 * reseed interval. There is no update step between calls: between reseeds
 * the outputs are consecutive segments of one keystream.
 */
module Drbg {
  import opened Codec
  import opened Primitives

  /**
   * The relation between the call counter `n` and the `emitted` blocks of the
   * current cipher. The first cipher (generation 1, from the constructor) has
   * emitted exactly `n` blocks; every later cipher was installed by a call that
   * then emitted its first block, so it has emitted `n + 1`.
   */
  ghost predicate CounterInvariant(n: int, interval: int, emitted: nat, generation: nat) {
    && 0 <= n
    && (n == 0 || n < interval)
    && generation >= 1
    && emitted == n + (if generation == 1 then 0 else 1)
  }

  /**
   * With an interval of at least one, the counter stays below it and no cipher
   * emits more than `interval` blocks (the first one at most `interval - 1`).
   */
  lemma EmissionBound(n: int, interval: int, emitted: nat, generation: nat)
    requires CounterInvariant(n, interval, emitted, generation)
    requires interval >= 1
    ensures 0 <= n < interval
    ensures emitted <= interval
    ensures generation == 1 ==> emitted <= interval - 1
  {
  }

  /** Where segment `i` of `size`-byte segments starts: `i * size`, kept linear for the solver. */
  function SegmentStart(i: nat, size: nat): nat {
    if i == 0 then 0 else SegmentStart(i - 1, size) + size
  }

  /** SegmentStart is the product it stands for. */
  lemma {:induction false} SegmentStartIsProduct(i: nat, size: nat)
    ensures SegmentStart(i, size) == i * size
  {
    if i > 0 {
      SegmentStartIsProduct(i - 1, size);
    }
  }

  /**
   * The outputs of one cipher, under `key` from initial `counter`, are its
   * keystream cut into consecutive `size`-byte segments.
   */
  ghost predicate Segments(outputs: seq<seq<byte>>, aes: Keystream, key: Key, counter: nat, size: nat)
    decreases |outputs|
  {
    if outputs == [] then true
    else
      && Segments(outputs[..|outputs| - 1], aes, key, counter, size)
      && outputs[|outputs| - 1] == KeystreamBytes(aes, key, counter, SegmentStart(|outputs| - 1, size), size)
  }

  /** The next segment extends the segmentation by one. */
  lemma AppendSegment(outputs: seq<seq<byte>>, aes: Keystream, key: Key, counter: nat, size: nat, out: seq<byte>)
    requires Segments(outputs, aes, key, counter, size)
    requires out == KeystreamBytes(aes, key, counter, SegmentStart(|outputs|, size), size)
    ensures Segments(outputs + [out], aes, key, counter, size)
  {
    assert (outputs + [out])[..|outputs|] == outputs;
  }

  /** Output `i` of a cipher is the keystream from byte `i * size` on. */
  lemma {:induction false} SegmentAt(outputs: seq<seq<byte>>, aes: Keystream, key: Key, counter: nat, size: nat, i: nat)
    requires Segments(outputs, aes, key, counter, size)
    requires i < |outputs|
    ensures outputs[i] == KeystreamBytes(aes, key, counter, i * size, size)
  {
    SegmentStartIsProduct(i, size);
    if i < |outputs| - 1 {
      var init := outputs[..|outputs| - 1];
      SegmentAt(init, aes, key, counter, size, i);
      assert outputs[i] == init[i];
    }
  }

  /** The part of a generator one call can change: the counter, the current cipher's key and initial counter, its outputs, and the generation. */
  datatype Snapshot = Snapshot(n: int, key: Key, counter: nat, outputs: seq<seq<byte>>, generation: nat)

  /**
   * One entropy() call from `s` to `t` that emitted `out`. Below the interval
   * the cipher is kept and `out` follows its earlier outputs; at the interval a
   * cipher from `seed` replaces it, `out` is that cipher's first output and the
   * counter starts again from zero.
   */
  ghost predicate Advanced(s: Snapshot, t: Snapshot, interval: int, seed: Seed, out: seq<byte>) {
    if s.n + 1 >= interval then
      && t.key == seed.secret && t.counter == NewCipher(seed).counter
      && t.n == 0 && t.generation == s.generation + 1 && t.outputs == [out]
    else
      && t.key == s.key && t.counter == s.counter
      && t.n == s.n + 1 && t.generation == s.generation && t.outputs == s.outputs + [out]
  }

  class RandomBitGenerator {
    const reseedInterval: int
    const zeroBlock: seq<byte>
    /** The AES-256-CTR keystream the cipher objects draw from. */
    const aes: Keystream

    /** `_cipher`: the current cipher object. */
    var cipher: CtrCipher
    /** `_n`: calls since the last reseed. */
    var n: int

    /** The outputs the current cipher has produced, oldest first. */
    ghost var outputs: seq<seq<byte>>
    /** How many ciphers this generator has had, the current one included. */
    ghost var generation: nat

    ghost predicate Valid()
      reads this
    {
      CounterInvariant(n, reseedInterval, |outputs|, generation) && Segmented()
    }

    /** The current cipher has handed out `outputs` and stands at the end of them. */
    ghost predicate Segmented()
      reads this
    {
      && zeroBlock == Zeros(|zeroBlock|)
      && cipher.offset == SegmentStart(|outputs|, |zeroBlock|)
      && Segments(outputs, aes, cipher.key, cipher.counter, |zeroBlock|)
    }

    ghost function State(): Snapshot
      reads this
    {
      Snapshot(n, cipher.key, cipher.counter, outputs, generation)
    }

    /** RandomBitGenerator(arguments): stores the settings, then reseeds once. */
    constructor (reseedInterval: int, entropySize: int, aes: Keystream, seed: Seed)
      ensures Valid()
      ensures this.reseedInterval == reseedInterval && this.aes == aes
      ensures zeroBlock == Zeros(entropySize)
      ensures n == 0 && outputs == [] && generation == 1
      ensures cipher == NewCipher(seed)
    {
      this.reseedInterval := reseedInterval;
      this.zeroBlock := Zeros(entropySize);
      this.aes := aes;
      cipher := NewCipher(seed);
      n := 0;
      outputs := [];
      generation := 0;
      new;
      Reseed(seed);
    }

    /** reseed(): a new cipher from fresh OS randomness, and the counter back to zero. */
    method Reseed(seed: Seed)
      modifies this
      ensures cipher == NewCipher(seed)
      ensures n == 0
      ensures outputs == [] && generation == old(generation) + 1
    {
      cipher := NewCipher(seed);
      n := 0;
      outputs := [];
      generation := generation + 1;
    }

    /**
     * entropy(): count the call, reseed from `seed` when the count reaches the
     * interval, then encrypt the zero block. `seed` stands for what os.urandom
     * would return; it is used only on a reseed.
     */
    method Entropy(seed: Seed) returns (out: seq<byte>)
      requires Valid()
      modifies this
      ensures Valid()
      ensures |out| == |zeroBlock|
      ensures Advanced(old(State()), State(), reseedInterval, seed, out)
      // The output is the next segment of the current keystream.
      ensures out == KeystreamBytes(aes, cipher.key, cipher.counter, SegmentStart(|outputs| - 1, |zeroBlock|), |zeroBlock|)
      // A retired cipher emitted interval - 1 blocks if it was the first, interval otherwise.
      ensures old(n) + 1 >= reseedInterval >= 1 ==>
                |old(outputs)| == (if old(generation) == 1 then reseedInterval - 1 else reseedInterval)
    {
      n := n + 1;
      if n >= reseedInterval {
        Reseed(seed);
      }
      out := Emit();
    }

    /** `self._cipher.encrypt(self._zeroBlock)`: the next segment of the current keystream. */
    method Emit() returns (out: seq<byte>)
      requires Segmented()
      modifies this
      ensures Segmented()
      ensures cipher.key == old(cipher.key) && cipher.counter == old(cipher.counter)
      ensures n == old(n) && generation == old(generation) && outputs == old(outputs) + [out]
      ensures out == KeystreamBytes(aes, cipher.key, cipher.counter, SegmentStart(|old(outputs)|, |zeroBlock|), |zeroBlock|)
    {
      EncryptZeros(aes, cipher, |zeroBlock|);
      var step := Encrypt(aes, cipher, zeroBlock);
      out := step.1;
      AppendSegment(outputs, aes, cipher.key, cipher.counter, |zeroBlock|, out);
      cipher := step.0;
      assert cipher.offset == SegmentStart(|outputs| + 1, |zeroBlock|);
      outputs := outputs + [out];
    }
  }
}
