/**
 * The Flask service's `/api/entropy` route: validate the challenge, then
 * answer with the challenge response over the current UTC time and one output
 * of the global random bit generator.
 */
module Server {
  import opened Codec
  import opened Primitives
  import opened Clock
  import opened Protocol
  import opened Drbg

  /**
   * The route's checks on `request.args.get('challenge')`: absent, then shorter
   * than the minimum. A present but empty challenge is merely too short.
   */
  function CheckChallenge(challenge: Option<string>): (e: Option<string>)
    ensures e == Some(NO_CHALLENGE) <==> challenge.None?
    ensures e == Some(TOO_SHORT) <==> challenge.Some? && |challenge.value| < MIN_CHALLENGE_LENGTH
    ensures e.None? <==> challenge.Some? && |challenge.value| >= MIN_CHALLENGE_LENGTH
  {
    match challenge
    case None => Some(NO_CHALLENGE)
    case Some(c) => if |c| < MIN_CHALLENGE_LENGTH then Some(TOO_SHORT) else None
  }

  /**
   * entropy(): `now` is the utcnow() reading and `seed` what os.urandom would
   * supply should the generator reseed. A refused challenge leaves the
   * generator untouched; an accepted one advances it by exactly one call and
   * answers with that call's output.
   */
  method Entropy(rbg: RandomBitGenerator, sha512: HashFn, challenge: Option<string>, now: DateTime, seed: Seed)
    returns (reply: Reply)
    requires rbg.Valid()
    modifies rbg
    ensures rbg.Valid()
    ensures CheckChallenge(challenge).Some? ==>
              && reply == ErrorReply(CheckChallenge(challenge).value)
              && unchanged(rbg)
    ensures CheckChallenge(challenge).None? ==>
              && |rbg.outputs| >= 1
              && reply == SuccessReply(sha512, challenge.value, IsoSeconds(now), rbg.outputs[|rbg.outputs| - 1])
              && |rbg.outputs[|rbg.outputs| - 1]| == |rbg.zeroBlock|
              && Advanced(old(rbg.State()), rbg.State(), rbg.reseedInterval, seed, rbg.outputs[|rbg.outputs| - 1])
  {
    var error := CheckChallenge(challenge);
    if error.Some? {
      return ErrorReply(error.value);
    }
    var nowStr := IsoSeconds(now);
    var output := rbg.Entropy(seed);
    reply := SuccessReply(sha512, challenge.value, nowStr, output);
  }
}
