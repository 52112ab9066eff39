/**
 * The legacy client: a challenge from the local clock in a compact format,
 * the version and the digest checked, no freshness or pool-level check, and
 * as root an ioctl whose entropy count is a float.
 */
module RollLegacy {
  import opened Codec
  import opened Primitives
  import opened Clock
  import opened Protocol
  import opened Harvest

  /** The local clock when the challenge is made, and the fetched reply. */
  datatype ServerInput = ServerInput(now: DateTime, fetch: Fetch)

  /** The challenge: the hexdigest of the '%Y%m%d %H%M%S.%f' rendering of the local clock. */
  function Challenge(sha512: HashFn, now: DateTime): (c: string)
    ensures c == Hex(sha512(Utf8(CompactMicros(now))))
  {
    ChallengeFor(sha512, CompactMicros(now))
  }

  /** `(entropySize * 8) / 8`: true division, so a float even though its value is the byte count. */
  function BitCount(size: nat): (n: PyNumber)
    ensures n == PyFloat(size as real)
  {
    PyFloat((size * 8) as real / 8.0)
  }

  /** As root, struct.pack refuses the float count; otherwise a raw write of all the bytes. */
  function Inject(isRoot: bool, e: seq<byte>): (o: Outcome)
    ensures isRoot ==> o == Raised(StructError)
    ensures !isRoot ==> o == Injected(RawWrite(e))
  {
    if isRoot then
      match PackRandPoolInfo(BitCount(|e|), |e|, e)
      case None => Raised(StructError)
      case Some(info) => Injected(Ioctl(info))
    else Injected(RawWrite(e))
  }

  /** Everything from the fetch on, for one server. */
  function Step(isRoot: bool, sha512: HashFn, input: ServerInput): (o: Outcome)
    ensures input.fetch.CurlFailed? ==> o == Raised(CalledProcessError)
    ensures input.fetch.NotJson? ==> o == BadJson
    ensures input.fetch.JsonObject? && "apiVersion" !in input.fetch.fields ==> o == Raised(KeyError("apiVersion"))
    ensures o.VersionMismatch? <==>
              && input.fetch.JsonObject? && "apiVersion" in input.fetch.fields
              && input.fetch.fields["apiVersion"] != API_VERSION
    ensures o.BadDigest? <==>
              && input.fetch.JsonObject? && "apiVersion" in input.fetch.fields
              && input.fetch.fields["apiVersion"] == API_VERSION
              && "time" in input.fetch.fields && "challengeResponse" in input.fetch.fields
              && !DigestMatches(sha512, Challenge(sha512, input.now), input.fetch.fields)
    // Only the digest guards delivery: the reply's time is never parsed.
    ensures o.Injected? ==>
              && input.fetch.JsonObject? && input.fetch.fields["apiVersion"] == API_VERSION
              && DigestMatches(sha512, Challenge(sha512, input.now), input.fetch.fields)
              && !isRoot && o.injection.RawWrite?
              && "entropy" in input.fetch.fields && Unhex(input.fetch.fields["entropy"]) == Some(o.injection.data)
    ensures !o.PoolFull? && !o.Stale? && !o.SelfSkip?
  {
    var challenge := Challenge(sha512, input.now);
    match input.fetch
    case CurlFailed => Raised(CalledProcessError)
    case NotJson => BadJson
    case JsonObject(f) =>
      if "apiVersion" !in f then Raised(KeyError("apiVersion"))
      else if f["apiVersion"] != API_VERSION then VersionMismatch
      else if "time" !in f then Raised(KeyError("time"))
      else if "challengeResponse" !in f then Raised(KeyError("challengeResponse"))
      else if f["challengeResponse"] != ExpectedResponse(sha512, challenge, f["time"]) then BadDigest
      else if "entropy" !in f then Raised(KeyError("entropy"))
      else match Unhex(f["entropy"])
        case None => Raised(UnhexlifyError)
        case Some(e) => Inject(isRoot, e)
  }

  /** The loop body as a function of one server's answers. */
  function Handler(isRoot: bool, sha512: HashFn): ServerInput -> Outcome {
    input => Step(isRoot, sha512, input)
  }

  /** main(): one answer per server after defaulting; a run that ends normally returns 0. */
  method ClientMain(isRoot: bool, sha512: HashFn, servers: seq<string>, inputs: seq<ServerInput>) returns (trace: Trace)
    requires |inputs| == |ServerList(servers)|
    ensures trace == Run(Outcomes(Handler(isRoot, sha512), inputs), false)
    ensures trace.result.Exit? ==> trace.result.code == 0
  {
    trace := SeedLoop(Handler(isRoot, sha512), inputs, false);
  }

  /**
   * Run as root, the legacy client never delivers anything: the first reply
   * that passes both checks raises struct.error.
   */
  lemma RootInjectsNothing(sha512: HashFn, inputs: seq<ServerInput>)
    ensures Run(Outcomes(Handler(true, sha512), inputs), false).injected == []
  {
    var outs := Outcomes(Handler(true, sha512), inputs);
    NoInjections(outs[..Stop(outs)]);
  }
}
