/**
 * The CherryPy service's API object: the same generator logic with the
 * interval fixed at 2^20, the challenge taken with a default of '', and an
 * optional stir of each response into /dev/urandom.
 */
module Application {
  import opened Codec
  import opened Primitives
  import opened Clock
  import opened Protocol
  import opened Drbg

  /** RESEED_INTERVAL: fixed at 2^20 calls. */
  const RESEED_INTERVAL: int := 1024 * 1024

  /** CherryPy's keyword default: an absent `challenge` arrives as ''. */
  function ChallengeParam(query: Option<string>): (c: string)
    ensures query.Some? ==> c == query.value
    ensures query.None? ==> c == ""
  {
    match query
    case None => ""
    case Some(c) => c
  }

  /** The checks in entropy(): empty, then shorter than the minimum. */
  function CheckChallenge(challenge: string): (e: Option<string>)
    ensures e == Some(NO_CHALLENGE) <==> challenge == ""
    ensures e == Some(TOO_SHORT) <==> 1 <= |challenge| < MIN_CHALLENGE_LENGTH
    ensures e.None? <==> |challenge| >= MIN_CHALLENGE_LENGTH
  {
    if challenge == "" then Some(NO_CHALLENGE)
    else if |challenge| < MIN_CHALLENGE_LENGTH then Some(TOO_SHORT)
    else None
  }

  /** An absent challenge and an empty one get the same "No 'challenge'" error. */
  lemma AbsentIsEmpty()
    ensures CheckChallenge(ChallengeParam(None)) == CheckChallenge(ChallengeParam(Some(""))) == Some(NO_CHALLENGE)
  {
  }

  /** The bytes one successful request stirs into /dev/urandom: the hex response, then '%S.%f' of the clock. */
  function StirBytes(response: string, now: DateTime): (w: seq<seq<byte>>)
    ensures |w| == 2 && |w[1]| == 9
    ensures IsAscii(response) ==> |w[0]| == |response|
  {
    assert IsAscii(SecondsMicros(now));
    Utf8Ascii(SecondsMicros(now));
    if IsAscii(response) then Utf8Ascii(response); [Utf8(response), Utf8(SecondsMicros(now))]
    else [Utf8(response), Utf8(SecondsMicros(now))]
  }

  /**
   * A served request: the generator went from `s` to `t` by one call, reseeding
   * from `seed` at the interval, and the reply answers `c` at `now` with that
   * call's output, a full block.
   */
  ghost predicate Served(s: Snapshot, t: Snapshot, zeroBlock: seq<byte>, seed: Seed,
                         sha512: HashFn, c: string, now: DateTime, reply: Reply) {
    && |t.outputs| >= 1
    && reply == SuccessReply(sha512, c, IsoSeconds(now), t.outputs[|t.outputs| - 1])
    && |t.outputs[|t.outputs| - 1]| == |zeroBlock|
    && Advanced(s, t, RESEED_INTERVAL, seed, t.outputs[|t.outputs| - 1])
  }

  class D20ApiApplication {
    const seedEntropy: bool
    /** The generator state `_n`, `_cipher` and `_zeroBlock` this object owns. */
    const rbg: RandomBitGenerator
    /** What has been written to the `_urandom` handle, in order. */
    var urandomWrites: seq<seq<byte>>

    ghost predicate Valid()
      reads rbg
    {
      rbg.Valid() && rbg.reseedInterval == RESEED_INTERVAL
    }

    /** D20ApiApplication(seedEntropy, entropySize): the zero block, then one reseed. */
    constructor (seedEntropy: bool, entropySize: int, aes: Keystream, seed: Seed)
      ensures Valid() && fresh(rbg)
      ensures this.seedEntropy == seedEntropy
      ensures rbg.zeroBlock == Zeros(entropySize) && rbg.n == 0 && rbg.cipher == NewCipher(seed)
      ensures urandomWrites == []
    {
      this.seedEntropy := seedEntropy;
      rbg := new RandomBitGenerator(RESEED_INTERVAL, entropySize, aes, seed);
      urandomWrites := [];
    }

    /**
     * entropy(challenge=''): a refused challenge changes nothing; an accepted
     * one advances the generator by one call, replies, and stirs the response
     * and clock into /dev/urandom when enabled. `now` is the local-time reading.
     */
    method Entropy(sha512: HashFn, challenge: Option<string>, now: DateTime, seed: Seed) returns (reply: Reply)
      requires Valid()
      modifies this, rbg
      ensures Valid()
      ensures CheckChallenge(ChallengeParam(challenge)).Some? ==>
                && reply == ErrorReply(CheckChallenge(ChallengeParam(challenge)).value)
                && unchanged(rbg) && urandomWrites == old(urandomWrites)
      ensures CheckChallenge(ChallengeParam(challenge)).None? ==>
                && Served(old(rbg.State()), rbg.State(), rbg.zeroBlock, seed, sha512, ChallengeParam(challenge), now, reply)
                && urandomWrites == old(urandomWrites)
                     + (if seedEntropy then StirBytes(reply.challengeResponse, now) else [])
    {
      reply := Respond(sha512, ChallengeParam(challenge), now, seed);
      ghost var served := rbg.State();
      if reply.EntropyReply? && seedEntropy {
        Stir(reply.challengeResponse, now);
      }
      assert rbg.State() == served;
    }

    /** The checks, the generator call and the reply of entropy(), before any stir. */
    method Respond(sha512: HashFn, c: string, now: DateTime, seed: Seed) returns (reply: Reply)
      requires Valid()
      modifies rbg
      ensures Valid()
      ensures CheckChallenge(c).Some? ==> reply == ErrorReply(CheckChallenge(c).value) && unchanged(rbg)
      ensures CheckChallenge(c).None? ==> Served(old(rbg.State()), rbg.State(), rbg.zeroBlock, seed, sha512, c, now, reply)
    {
      var error := CheckChallenge(c);
      if error.Some? {
        return ErrorReply(error.value);
      }
      var output := rbg.Entropy(seed);
      reply := SuccessReply(sha512, c, IsoSeconds(now), output);
    }

    /** The two writes to the `_urandom` handle: the response, then the seconds and microseconds of the clock. */
    method Stir(response: string, now: DateTime)
      modifies this
      ensures urandomWrites == old(urandomWrites) + StirBytes(response, now)
    {
      urandomWrites := urandomWrites + StirBytes(response, now);
    }

    /** default(): any other API path. */
    function Default(): (reply: Reply)
      ensures Fields(reply) == map["error" := API_NOT_FOUND]
    {
      ErrorReply(API_NOT_FOUND)
    }
  }

  /** The generator's counter stays below 2^20 between requests. */
  lemma CounterBelowInterval(app: D20ApiApplication)
    requires app.Valid()
    ensures 0 <= app.rbg.n < RESEED_INTERVAL
    ensures |app.rbg.outputs| <= RESEED_INTERVAL
  {
    EmissionBound(app.rbg.n, RESEED_INTERVAL, |app.rbg.outputs|, app.rbg.generation);
  }
}
