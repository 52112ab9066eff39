/**
 * The servers and the clients together: what each client generation makes of
 * each kind of reply the server generations send. A success reply of the
 * versioned servers (Server.Entropy and the application's Entropy both return
 * a SuccessReply) carries its own time, and the clients check the challenge
 * response against that time.
 */
module EndToEnd {
  import opened Codec
  import opened Primitives
  import opened Clock
  import opened Protocol
  import opened Harvest
  import Server
  import Application
  import JsonApplication
  import D20Client
  import Roll
  import RollLegacy

  /** The challenge of every client generation is long enough for both versioned servers. */
  lemma ChallengesAccepted(sha512: HashFn, now: DateTime)
    ensures Server.CheckChallenge(Some(D20Client.Challenge(sha512, now))).None?
    ensures Application.CheckChallenge(D20Client.Challenge(sha512, now)).None?
    ensures Server.CheckChallenge(Some(RollLegacy.Challenge(sha512, now))).None?
    ensures Application.CheckChallenge(RollLegacy.Challenge(sha512, now)).None?
  {
  }

  /**
   * The honest success reply to the D20 client's own challenge, stamped at
   * `served` and fresh with respect to the client clock, passes every check and
   * reaches the pool step with exactly the generator output.
   */
  lemma {:induction false} HonestReplyAccepted(opts: D20Client.Options, host: Host, sha512: HashFn,
                                               now: DateTime, served: DateTime, output: seq<byte>,
                                               poolLevel: Option<int>)
    requires Fresh(now, Truncate(served), opts.maxDeviation)
    ensures var challenge := D20Client.Challenge(sha512, now);
            var reply := SuccessReply(sha512, challenge, IsoSeconds(served), output);
            D20Client.Classify(opts, host, sha512, challenge, now, JsonObject(Fields(reply)), poolLevel)
              == InjectStep(host, poolLevel, opts.maxEntropy, output)
  {
    var challenge := D20Client.Challenge(sha512, now);
    var reply := SuccessReply(sha512, challenge, IsoSeconds(served), output);
    var f := Fields(reply);
    ParseIsoRoundTrip(served);
    assert DigestMatches(sha512, challenge, f);
    assert CheckDigestAndTime(sha512, challenge, now, opts.maxDeviation, f) == Accept(Truncate(served));
  }

  /** The same honest reply, stamped too far from the client clock, is rejected as stale. */
  lemma {:induction false} HonestReplyStale(opts: D20Client.Options, host: Host, sha512: HashFn,
                                            now: DateTime, served: DateTime, output: seq<byte>,
                                            poolLevel: Option<int>)
    requires !Fresh(now, Truncate(served), opts.maxDeviation)
    ensures var challenge := D20Client.Challenge(sha512, now);
            var reply := SuccessReply(sha512, challenge, IsoSeconds(served), output);
            D20Client.Classify(opts, host, sha512, challenge, now, JsonObject(Fields(reply)), poolLevel) == Stale
  {
    var challenge := D20Client.Challenge(sha512, now);
    var f := Fields(SuccessReply(sha512, challenge, IsoSeconds(served), output));
    ParseIsoRoundTrip(served);
    assert DigestMatches(sha512, challenge, f);
  }

  /** Roll.py accepts the honest reply to its challenge when it is within its fixed 10 seconds. */
  lemma {:induction false} RollAcceptsHonestReply(maxEntropy: int, host: Host, sha512: HashFn,
                                                  now: DateTime, served: DateTime, output: seq<byte>,
                                                  poolLevel: Option<int>)
    requires Fresh(now, Truncate(served), Roll.MAX_DEVIATION)
    ensures var reply := SuccessReply(sha512, ChallengeFor(sha512, IsoMicros(now)), IsoSeconds(served), output);
            Roll.Step(maxEntropy, host, sha512, Roll.ServerInput(now, JsonObject(Fields(reply)), poolLevel))
              == InjectStep(host, poolLevel, maxEntropy, output)
  {
    var challenge := ChallengeFor(sha512, IsoMicros(now));
    var f := Fields(SuccessReply(sha512, challenge, IsoSeconds(served), output));
    ParseIsoRoundTrip(served);
    assert DigestMatches(sha512, challenge, f);
    assert CheckDigestAndTime(sha512, challenge, now, Roll.MAX_DEVIATION, f) == Accept(Truncate(served));
  }

  /**
   * The legacy client, not running as root, writes the output of an honest
   * reply to its challenge whatever time the reply carries.
   */
  lemma {:induction false} LegacyIgnoresTime(sha512: HashFn, now: DateTime, time: string, output: seq<byte>)
    ensures var reply := SuccessReply(sha512, RollLegacy.Challenge(sha512, now), time, output);
            RollLegacy.Step(false, sha512, RollLegacy.ServerInput(now, JsonObject(Fields(reply))))
              == Injected(RawWrite(output))
  {
    var challenge := RollLegacy.Challenge(sha512, now);
    var f := Fields(SuccessReply(sha512, challenge, time, output));
    assert f["challengeResponse"] == ExpectedResponse(sha512, challenge, f["time"]);
  }

  /** An error reply of a versioned server has no `apiVersion`: every client raises KeyError on it. */
  lemma ErrorReplyRaises(opts: D20Client.Options, host: Host, sha512: HashFn, challenge: string,
                         now: DateTime, poolLevel: Option<int>, error: string, isRoot: bool)
    ensures var fetch := JsonObject(Fields(ErrorReply(error)));
            && D20Client.Classify(opts, host, sha512, challenge, now, fetch, poolLevel) == Raised(KeyError("apiVersion"))
            && Roll.Step(opts.maxEntropy, host, sha512, Roll.ServerInput(now, fetch, poolLevel)) == Raised(KeyError("apiVersion"))
            && RollLegacy.Step(isRoot, sha512, RollLegacy.ServerInput(now, fetch)) == Raised(KeyError("apiVersion"))
  {
  }

  /**
   * The unversioned JSON service never sends `apiVersion`, so every client
   * raises KeyError on every reply of it, success or error.
   */
  lemma JsonServiceUnsupported(opts: D20Client.Options, host: Host, sha512: HashFn, challenge: string,
                               now: DateTime, poolLevel: Option<int>, reply: JsonApplication.JsonReply,
                               isRoot: bool)
    ensures var fetch := JsonObject(JsonApplication.JsonFields(reply));
            && D20Client.Classify(opts, host, sha512, challenge, now, fetch, poolLevel) == Raised(KeyError("apiVersion"))
            && Roll.Step(opts.maxEntropy, host, sha512, Roll.ServerInput(now, fetch, poolLevel)) == Raised(KeyError("apiVersion"))
            && RollLegacy.Step(isRoot, sha512, RollLegacy.ServerInput(now, fetch)) == Raised(KeyError("apiVersion"))
  {
    assert "apiVersion" !in JsonApplication.JsonFields(reply);
  }

  /**
   * A reply whose `apiVersion` is anything but "1" ends a D20 client run with
   * NameError, while Roll.py reports it and carries on.
   */
  lemma OtherVersion(opts: D20Client.Options, host: Host, sha512: HashFn, now: DateTime,
                     poolLevel: Option<int>, f: map<string, string>)
    requires "apiVersion" in f && f["apiVersion"] != API_VERSION
    ensures D20Client.Classify(opts, host, sha512, D20Client.Challenge(sha512, now), now, JsonObject(f), poolLevel)
            == Raised(NameError)
    ensures Roll.Step(opts.maxEntropy, host, sha512, Roll.ServerInput(now, JsonObject(f), poolLevel)) == VersionMismatch
  {
  }
}
