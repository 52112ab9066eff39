/**
 * The intermediate client: the same per-server checks as the D20 client, with
 * a version mismatch reported instead of raised, the freshness bound fixed at
 * 10 seconds, no local-address check and no strict mode.
 */
module Roll {
  import opened Codec
  import opened Primitives
  import opened Clock
  import opened Protocol
  import opened Harvest

  /** The fixed freshness bound: 10.0 seconds, in microseconds. */
  const MAX_DEVIATION: int := 10 * 1000000

  /** The UTC clock when the challenge is made, the fetched reply, and the kernel pool level if readable. */
  datatype ServerInput = ServerInput(now: DateTime, fetch: Fetch, poolLevel: Option<int>)

  /** Everything from the fetch on, for one server, with the challenge from the UTC clock. */
  function Step(maxEntropy: int, host: Host, sha512: HashFn, input: ServerInput): (o: Outcome)
    ensures input.fetch.CurlFailed? ==> o == Raised(CalledProcessError)
    ensures input.fetch.NotJson? ==> o == BadJson
    ensures input.fetch.JsonObject? && "apiVersion" !in input.fetch.fields ==> o == Raised(KeyError("apiVersion"))
    ensures o.VersionMismatch? <==>
              && input.fetch.JsonObject? && "apiVersion" in input.fetch.fields
              && input.fetch.fields["apiVersion"] != API_VERSION
    ensures o.BadDigest? ==> !DigestMatches(sha512, ChallengeFor(sha512, IsoMicros(input.now)), input.fetch.fields)
    ensures o.PoolFull? || o.Injected? ==>
              && input.fetch.JsonObject? && input.fetch.fields["apiVersion"] == API_VERSION
              && DigestMatches(sha512, ChallengeFor(sha512, IsoMicros(input.now)), input.fetch.fields)
              && ParseIso(input.fetch.fields["time"]).Some?
              && Fresh(input.now, ParseIso(input.fetch.fields["time"]).value, MAX_DEVIATION)
              && "entropy" in input.fetch.fields && Unhex(input.fetch.fields["entropy"]).Some?
    ensures o.PoolFull? ==> host.isLinux && input.poolLevel.Some? && input.poolLevel.value >= maxEntropy
    ensures !o.SelfSkip? && (o.Raised? ==> o.crash != NameError && o.crash != GaiError)
  {
    var challenge := ChallengeFor(sha512, IsoMicros(input.now));
    match input.fetch
    case CurlFailed => Raised(CalledProcessError)
    case NotJson => BadJson
    case JsonObject(f) =>
      if "apiVersion" !in f then Raised(KeyError("apiVersion"))
      else if f["apiVersion"] != API_VERSION then VersionMismatch
      else match CheckDigestAndTime(sha512, challenge, input.now, MAX_DEVIATION, f)
        case Reject(o) => o
        case Accept(_) => Deliver(host, input.poolLevel, maxEntropy, f)
  }

  /** The loop body as a function of one server's answers. */
  function Handler(maxEntropy: int, host: Host, sha512: HashFn): ServerInput -> Outcome {
    input => Step(maxEntropy, host, sha512, input)
  }

  /**
   * main(): one answer per server after defaulting. Failed checks are only
   * reported, so a run that ends normally returns 0.
   */
  method ClientMain(maxEntropy: int, host: Host, sha512: HashFn, servers: seq<string>, inputs: seq<ServerInput>)
    returns (trace: Trace)
    requires |inputs| == |ServerList(servers)|
    ensures trace == Run(Outcomes(Handler(maxEntropy, host, sha512), inputs), false)
    ensures trace.result.Exit? ==> trace.result.code == 0
  {
    trace := SeedLoop(Handler(maxEntropy, host, sha512), inputs, false);
  }
}
