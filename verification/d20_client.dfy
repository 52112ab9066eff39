/**
 * The D20 client: for each server, a challenge from the UTC clock at
 * microsecond resolution, the reply's version, digest and freshness checked
 * in that order, the kernel pool level consulted, and the entropy injected.
 * Optionally a server that resolves to this host's public address is skipped,
 * and with --strict a run in which any server failed exits with 1.
 */
module D20Client {
  import opened Codec
  import opened Primitives
  import opened Clock
  import opened Protocol
  import opened Harvest

  /** The parsed command line, with the deviation bound in microseconds. */
  datatype Options = Options(maxEntropy: int, maxDeviation: int, strict: bool, checkLocal: bool)

  /**
   * What the environment answers while one server is handled: the address
   * gethostbyname gives its host name (None where it raises), the UTC clock
   * when the challenge is made, what curl and json.loads make of the reply,
   * and the level read from the kernel's entropy_avail file (None where it
   * cannot be read or parsed).
   */
  datatype ServerInput = ServerInput(address: Option<string>, now: DateTime, fetch: Fetch, poolLevel: Option<int>)

  /** The challenge: the hexdigest of the '%Y-%m-%dT%H:%M:%S.%f' rendering of the UTC clock. */
  function Challenge(sha512: HashFn, now: DateTime): (c: string)
    ensures c == Hex(sha512(Utf8(IsoMicros(now))))
    ensures |c| == 128
  {
    ChallengeFor(sha512, IsoMicros(now))
  }

  /**
   * Everything from the fetch on, for one server. A mismatched version reaches
   * a message that names an undefined variable, so it raises NameError rather
   * than marking the run failed.
   */
  function Classify(opts: Options, host: Host, sha512: HashFn, challenge: string, now: DateTime,
                    fetch: Fetch, poolLevel: Option<int>): (o: Outcome)
    ensures fetch.CurlFailed? ==> o == Raised(CalledProcessError)
    ensures fetch.NotJson? ==> o == BadJson
    ensures fetch.JsonObject? && "apiVersion" !in fetch.fields ==> o == Raised(KeyError("apiVersion"))
    ensures o == Raised(NameError) <==>
              fetch.JsonObject? && "apiVersion" in fetch.fields && fetch.fields["apiVersion"] != API_VERSION
    ensures !o.Raised? && !o.BadJson? ==> fetch.JsonObject? && fetch.fields["apiVersion"] == API_VERSION
    ensures o.BadDigest? ==> !DigestMatches(sha512, challenge, fetch.fields)
    ensures o.Stale? ==>
              && DigestMatches(sha512, challenge, fetch.fields)
              && ParseIso(fetch.fields["time"]).Some?
              && !Fresh(now, ParseIso(fetch.fields["time"]).value, opts.maxDeviation)
    // Nothing is delivered, and the pool is not consulted, unless the reply answers
    // this challenge, its time parses and is fresh, and its entropy is valid hex.
    ensures o.PoolFull? || o.Injected? ==>
              && DigestMatches(sha512, challenge, fetch.fields)
              && ParseIso(fetch.fields["time"]).Some?
              && Fresh(now, ParseIso(fetch.fields["time"]).value, opts.maxDeviation)
              && "entropy" in fetch.fields && Unhex(fetch.fields["entropy"]).Some?
    ensures o.PoolFull? ==> host.isLinux && poolLevel.Some? && poolLevel.value >= opts.maxEntropy
    ensures o.Injected? ==> Delivered(o.injection) == Fit32(Unhex(fetch.fields["entropy"]).value)
                            || Delivered(o.injection) == Unhex(fetch.fields["entropy"]).value
  {
    match fetch
    case CurlFailed => Raised(CalledProcessError)
    case NotJson => BadJson
    case JsonObject(f) =>
      if "apiVersion" !in f then Raised(KeyError("apiVersion"))
      else if f["apiVersion"] != API_VERSION then Raised(NameError)
      else match CheckDigestAndTime(sha512, challenge, now, opts.maxDeviation, f)
        case Reject(o) => o
        case Accept(_) => Deliver(host, poolLevel, opts.maxEntropy, f)
  }

  /**
   * One pass of the loop body. With a local address known, the server's host
   * is resolved first (a failed lookup raises) and the server is skipped when
   * the address equals the local one as a string.
   */
  function Step(opts: Options, host: Host, sha512: HashFn, localIp: Option<string>, input: ServerInput): (o: Outcome)
    ensures localIp.Some? && input.address.None? ==> o == Raised(GaiError)
    ensures o.SelfSkip? <==> localIp.Some? && input.address == localIp
    ensures !(localIp.Some? && (input.address.None? || input.address == localIp)) ==>
              o == Classify(opts, host, sha512, Challenge(sha512, input.now), input.now, input.fetch, input.poolLevel)
  {
    var attempt := Classify(opts, host, sha512, Challenge(sha512, input.now), input.now, input.fetch, input.poolLevel);
    if localIp.Some? then
      match input.address
      case None => Raised(GaiError)
      case Some(ip) => if ip == localIp.value then SelfSkip else attempt
    else attempt
  }

  /**
   * The local address is the icanhazip body as curl returns it; a body ending in
   * a newline never equals an address without one, so no server is skipped.
   */
  lemma TrailingNewlineNeverSkips(opts: Options, host: Host, sha512: HashFn, body: string, input: ServerInput)
    requires |body| > 0 && body[|body| - 1] == '\n'
    requires input.address.Some? && '\n' !in input.address.value
    ensures Step(opts, host, sha512, Some(body), input) != SelfSkip
  {
    assert body[|body| - 1] in body;
  }

  /** The loop body as a function of one server's answers. */
  function Handler(opts: Options, host: Host, sha512: HashFn, localIp: Option<string>): ServerInput -> Outcome {
    input => Step(opts, host, sha512, localIp, input)
  }

  /**
   * main(): `icanhazip` is the body of the local-address lookup (None where curl
   * fails) and `inputs` holds one answer per server after defaulting. The run is
   * the loop over the per-server outcomes, with --strict deciding the exit code.
   */
  method ClientMain(opts: Options, host: Host, sha512: HashFn, servers: seq<string>,
              icanhazip: Option<string>, inputs: seq<ServerInput>) returns (trace: Trace)
    requires |inputs| == |ServerList(servers)|
    ensures opts.checkLocal && icanhazip.None? ==> trace == Trace(Uncaught(CalledProcessError), [], 0)
    ensures !opts.checkLocal ==> trace == Run(Outcomes(Handler(opts, host, sha512, None), inputs), opts.strict)
    ensures opts.checkLocal && icanhazip.Some? ==>
              trace == Run(Outcomes(Handler(opts, host, sha512, icanhazip), inputs), opts.strict)
  {
    var localIp: Option<string> := None;
    if opts.checkLocal {
      if icanhazip.None? {
        return Trace(Uncaught(CalledProcessError), [], 0);
      }
      localIp := icanhazip;
    }
    trace := SeedLoop(Handler(opts, host, sha512, localIp), inputs, opts.strict);
  }
}
