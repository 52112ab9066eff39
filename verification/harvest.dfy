/**
 * What the three client generations share: the per-server outcomes of one
 * pass of the harvest loop, the exceptions that end a run, the kernel
 * injection record, the digest-and-freshness checks, the pool-level check and
 * injection step, and the specification of the loop over all servers.
 */
module Harvest {
  import opened Codec
  import opened Primitives
  import opened Clock
  import opened Protocol

  /** The single server used when none is given on the command line. */
  const DEFAULT_SERVER: string := "https://www.agalmicventures.com:8443"

  /** The server list after defaulting: an empty list becomes the default server. */
  function ServerList(servers: seq<string>): (r: seq<string>)
    ensures |r| >= 1
    ensures servers != [] ==> r == servers
    ensures servers == [] ==> r == [DEFAULT_SERVER]
  {
    if |servers| == 0 then [DEFAULT_SERVER] else servers
  }

  /** The client's challenge: the SHA-512 hexdigest of its clock string. */
  function ChallengeFor(sha512: HashFn, clock: string): (c: string)
    ensures |c| == 128 && IsAscii(c)
  {
    Hex(sha512(Utf8(clock)))
  }

  /** What curl and json.loads make of a server's answer. */
  datatype Fetch =
    | CurlFailed                               // check_output raises CalledProcessError
    | NotJson                                  // json.loads raises ValueError
    | JsonObject(fields: map<string, string>)  // the decoded object

  /** The exceptions that escape main and end the run. */
  datatype Crash =
    | CalledProcessError      // curl exited non-zero
    | GaiError                // gethostbyname failed
    | KeyError(key: string)   // a reply field is missing
    | NameError               // a message names an undefined variable
    | StrptimeError           // the reply time does not parse
    | UnhexlifyError          // the reply entropy is not valid hex
    | StructError             // struct.pack refused a field

  /** A Python number as struct.pack sees it. */
  datatype PyNumber = PyInt(i: int) | PyFloat(f: real)

  /** struct rand_pool_info as packed by "ii32s". */
  datatype RandPoolInfo = RandPoolInfo(entropyCount: int, bufSize: int, buf: seq<byte>)

  /** A contribution to /dev/random: the RNDADDENTROPY ioctl, or a plain write with no accounting. */
  datatype Injection = Ioctl(info: RandPoolInfo) | RawWrite(data: seq<byte>)

  /** The result of one pass of the loop body for one server. */
  datatype Outcome =
    | SelfSkip               // the server resolves to this host's public address
    | BadJson                // the body is not JSON
    | VersionMismatch        // apiVersion differs (reported, not raised)
    | BadDigest              // challengeResponse differs from the expected one
    | Stale                  // the reply time is too far from the request time
    | PoolFull               // the kernel pool is at or above the ceiling: leave the loop
    | Injected(injection: Injection)
    | Raised(crash: Crash)

  /** How the run ends: a return value, or an uncaught exception. */
  datatype RunResult = Exit(code: int) | Uncaught(crash: Crash)

  /** A whole run: how it ended, what reached /dev/random, and how many step sleeps it took. */
  datatype Trace = Trace(result: RunResult, injected: seq<Injection>, stepSleeps: nat)

  /** The platform facts the clients consult. */
  datatype Host = Host(isLinux: bool, isRoot: bool)

  // ---------------------------------------------------------------------
  // Checks on a decoded reply
  // ---------------------------------------------------------------------

  /** `abs((now - parsed).total_seconds()) < maxDeviation`, with both sides in microseconds. */
  predicate Fresh(now: DateTime, sent: DateTime, maxDeviation: int) {
    Abs(ToMicros(now) - ToMicros(sent)) < maxDeviation
  }

  /** The reply carries both fields and its response is the one expected for the challenge and its own time. */
  predicate DigestMatches(sha512: HashFn, challenge: string, f: map<string, string>) {
    && "time" in f && "challengeResponse" in f
    && f["challengeResponse"] == ExpectedResponse(sha512, challenge, f["time"])
  }

  /** The reply's digest and time, checked in the source's order. */
  datatype Verdict = Accept(sent: DateTime) | Reject(outcome: Outcome)

  /**
   * After the version check: look up `time`, compute the expected response,
   * look up `challengeResponse` and compare, then parse `time` and check its
   * distance from the request time `now`.
   */
  function CheckDigestAndTime(sha512: HashFn, challenge: string, now: DateTime, maxDeviation: int,
                              f: map<string, string>): (v: Verdict)
    ensures "time" !in f ==> v == Reject(Raised(KeyError("time")))
    ensures "time" in f && "challengeResponse" !in f ==> v == Reject(Raised(KeyError("challengeResponse")))
    ensures "time" in f && "challengeResponse" in f && !DigestMatches(sha512, challenge, f) ==>
              v == Reject(BadDigest)
    ensures DigestMatches(sha512, challenge, f) && ParseIso(f["time"]).None? ==>
              v == Reject(Raised(StrptimeError))
    ensures DigestMatches(sha512, challenge, f) && ParseIso(f["time"]).Some?
              && !Fresh(now, ParseIso(f["time"]).value, maxDeviation) ==>
              v == Reject(Stale)
    ensures DigestMatches(sha512, challenge, f) && ParseIso(f["time"]).Some?
              && Fresh(now, ParseIso(f["time"]).value, maxDeviation) ==>
              v == Accept(ParseIso(f["time"]).value)
    ensures v.Accept? ==> DigestMatches(sha512, challenge, f) && Fresh(now, v.sent, maxDeviation)
  {
    if "time" !in f then Reject(Raised(KeyError("time")))
    else
      var expected := ExpectedResponse(sha512, challenge, f["time"]);
      if "challengeResponse" !in f then Reject(Raised(KeyError("challengeResponse")))
      else if f["challengeResponse"] != expected then Reject(BadDigest)
      else match ParseIso(f["time"])
        case None => Reject(Raised(StrptimeError))
        case Some(sent) => if Fresh(now, sent, maxDeviation) then Accept(sent) else Reject(Stale)
  }

  /** The `entropy` field takes no part in the checks: replacing it changes no verdict. */
  lemma EntropyFieldIgnored(sha512: HashFn, challenge: string, now: DateTime, maxDeviation: int,
                            f: map<string, string>, x: string)
    ensures CheckDigestAndTime(sha512, challenge, now, maxDeviation, f["entropy" := x])
         == CheckDigestAndTime(sha512, challenge, now, maxDeviation, f)
  {
    var g := f["entropy" := x];
    assert ("time" in g <==> "time" in f) && ("challengeResponse" in g <==> "challengeResponse" in f);
    if "time" in f {
      assert g["time"] == f["time"];
    }
    if "challengeResponse" in f {
      assert g["challengeResponse"] == f["challengeResponse"];
    }
  }

  // ---------------------------------------------------------------------
  // Injection
  // ---------------------------------------------------------------------

  function Min(a: int, b: int): int {
    if a < b then a else b
  }

  /** `min(len * 8 // 64, 64)`: at most one accounted bit per 8 bytes, and at most 64 bits. */
  function AccountedBits(len: nat): (bits: nat)
    ensures bits <= 64 && 8 * bits <= len && bits <= len * 8
    ensures len <= 512 ==> bits == len / 8
    ensures len >= 512 ==> bits == 64
  {
    Min(len * 8 / 64, 64)
  }

  predicate InInt32(v: int) {
    -0x8000_0000 <= v < 0x8000_0000
  }

  /** struct.pack's '32s': truncate to 32 bytes or pad with zero bytes. */
  function Fit32(e: seq<byte>): (b: seq<byte>)
    ensures |b| == 32
    ensures |e| >= 32 ==> b == e[..32]
    ensures |e| < 32 ==> b[..|e|] == e && forall i :: |e| <= i < 32 ==> b[i] == 0
  {
    if |e| >= 32 then e[..32] else e + Zeros(32 - |e|)
  }

  /**
   * struct.pack("ii32s", count, size, e), or None where it raises struct.error:
   * an 'i' field must be an int (a float is refused whatever its value) in the
   * signed 32-bit range. The size field keeps the full length even though the
   * buffer holds at most 32 bytes.
   */
  function PackRandPoolInfo(count: PyNumber, size: int, e: seq<byte>): (r: Option<RandPoolInfo>)
    ensures r.Some? <==> count.PyInt? && InInt32(count.i) && InInt32(size)
    ensures r.Some? ==> r.value == RandPoolInfo(count.i, size, Fit32(e))
  {
    if count.PyFloat? || !InInt32(count.i) || !InInt32(size) then None
    else Some(RandPoolInfo(count.i, size, Fit32(e)))
  }

  /**
   * The newer clients' tail: on Linux a readable pool level at or above the
   * ceiling ends the loop (an unreadable or unparsable level skips the check);
   * then the accounted ioctl on Linux as root, a raw write otherwise.
   */
  function InjectStep(host: Host, poolLevel: Option<int>, maxEntropy: int, e: seq<byte>): (o: Outcome)
    ensures o.PoolFull? <==> host.isLinux && poolLevel.Some? && poolLevel.value >= maxEntropy
    ensures !o.PoolFull? ==> o.Injected? || o == Raised(StructError)
    ensures o.Injected? && o.injection.Ioctl? ==>
              && host.isLinux && host.isRoot
              && o.injection.info == RandPoolInfo(AccountedBits(|e|), |e|, Fit32(e))
    ensures o.Injected? && o.injection.RawWrite? ==> !(host.isLinux && host.isRoot) && o.injection.data == e
    ensures o == Raised(StructError) ==> host.isLinux && host.isRoot && !InInt32(|e|)
  {
    if host.isLinux && poolLevel.Some? && poolLevel.value >= maxEntropy then PoolFull
    else if host.isLinux && host.isRoot then
      match PackRandPoolInfo(PyInt(AccountedBits(|e|)), |e|, e)
      case None => Raised(StructError)
      case Some(info) => Injected(Ioctl(info))
    else Injected(RawWrite(e))
  }

  /**
   * The newer clients after a reply is accepted: look up `entropy`, unhexlify
   * it, then the pool check and the injection.
   */
  function Deliver(host: Host, poolLevel: Option<int>, maxEntropy: int, f: map<string, string>): (o: Outcome)
    ensures "entropy" !in f ==> o == Raised(KeyError("entropy"))
    ensures "entropy" in f && Unhex(f["entropy"]).None? ==> o == Raised(UnhexlifyError)
    ensures o.PoolFull? || o.Injected? ==> "entropy" in f && Unhex(f["entropy"]).Some?
    ensures "entropy" in f && Unhex(f["entropy"]).Some? ==>
              o == InjectStep(host, poolLevel, maxEntropy, Unhex(f["entropy"]).value)
  {
    if "entropy" !in f then Raised(KeyError("entropy"))
    else match Unhex(f["entropy"])
      case None => Raised(UnhexlifyError)
      case Some(e) => InjectStep(host, poolLevel, maxEntropy, e)
  }

  /** The bytes an injection hands to the kernel: the 32-byte buffer of an ioctl, or all of a raw write. */
  function Delivered(x: Injection): seq<byte> {
    match x
    case Ioctl(info) => info.buf
    case RawWrite(data) => data
  }

  // ---------------------------------------------------------------------
  // The loop over servers
  // ---------------------------------------------------------------------

  /** Outcomes after which the loop does not go on: an exception or a full pool. */
  predicate Terminal(o: Outcome) {
    o.Raised? || o.PoolFull?
  }

  /** Outcomes that set `failed` (in the client that has the flag). */
  predicate Failure(o: Outcome) {
    o.VersionMismatch? || o.BadDigest? || o.Stale?
  }

  /** Outcomes after which the loop body reaches its step sleep; the others `continue` or leave. */
  predicate Sleeps(o: Outcome) {
    Failure(o) || o.Injected?
  }

  /** The number of servers the loop finishes before it stops: the index of the first terminal outcome. */
  function Stop(outs: seq<Outcome>): (k: nat)
    ensures k <= |outs|
    ensures forall j :: 0 <= j < k ==> !Terminal(outs[j])
    ensures k < |outs| ==> Terminal(outs[k])
  {
    if outs == [] then 0
    else if Terminal(outs[0]) then 0
    else 1 + Stop(outs[1..])
  }

  /** The injections of a run of outcomes, in order. */
  function Injections(s: seq<Outcome>): (r: seq<Injection>)
    ensures |r| <= |s|
  {
    if s == [] then []
    else Injections(s[..|s| - 1]) + (if s[|s| - 1].Injected? then [s[|s| - 1].injection] else [])
  }

  /** The number of step sleeps a run of outcomes takes. */
  function SleepCount(s: seq<Outcome>): (n: nat)
    ensures n <= |s|
  {
    if s == [] then 0
    else SleepCount(s[..|s| - 1]) + (if Sleeps(s[|s| - 1]) then 1 else 0)
  }

  predicate AnyFailure(s: seq<Outcome>) {
    exists j :: 0 <= j < |s| && Failure(s[j])
  }

  /**
   * The run the loop performs over the per-server outcomes `outs`: it handles
   * every server before the first terminal outcome, then returns 1 exactly when
   * strict and some handled server failed, or raises the terminal exception.
   */
  function Run(outs: seq<Outcome>, strict: bool): (t: Trace)
    ensures t.injected == Injections(outs[..Stop(outs)])
    ensures t.stepSleeps == SleepCount(outs[..Stop(outs)])
    ensures t.result.Uncaught? <==> Stop(outs) < |outs| && outs[Stop(outs)].Raised?
    ensures t.result.Uncaught? ==> t.result.crash == outs[Stop(outs)].crash
    ensures t.result == Exit(1) <==>
              && strict && !(Stop(outs) < |outs| && outs[Stop(outs)].Raised?)
              && exists j :: 0 <= j < Stop(outs) && Failure(outs[j])
    ensures t.result.Exit? ==> t.result.code == 0 || t.result.code == 1
  {
    var k := Stop(outs);
    var handled := outs[..k];
    Trace(if k < |outs| && outs[k].Raised? then Uncaught(outs[k].crash)
          else Exit(if strict && AnyFailure(handled) then 1 else 0),
          Injections(handled), SleepCount(handled))
  }

  /** Each summary of a run of outcomes, extended by one outcome. */
  lemma Extend(s: seq<Outcome>, o: Outcome)
    ensures Injections(s + [o]) == Injections(s) + (if o.Injected? then [o.injection] else [])
    ensures SleepCount(s + [o]) == SleepCount(s) + (if Sleeps(o) then 1 else 0)
    ensures AnyFailure(s + [o]) == (AnyFailure(s) || Failure(o))
  {
    var p := s + [o];
    assert p[..|s|] == s && p[|s|] == o;
    if AnyFailure(p) && !Failure(o) {
      var j :| 0 <= j < |p| && Failure(p[j]);
      assert s[j] == p[j];
    }
    if AnyFailure(s) {
      var j :| 0 <= j < |s| && Failure(s[j]);
      assert p[j] == s[j];
    }
  }

  /**
   * One more non-terminal server extends the handled prefix by one outcome,
   * and each summary of the prefix by that outcome's share.
   */
  lemma RunStep(outs: seq<Outcome>, i: nat)
    requires i < |outs| && i <= Stop(outs) && !Terminal(outs[i])
    ensures i + 1 <= Stop(outs)
    ensures Injections(outs[..i + 1])
         == Injections(outs[..i]) + (if outs[i].Injected? then [outs[i].injection] else [])
    ensures SleepCount(outs[..i + 1]) == SleepCount(outs[..i]) + (if Sleeps(outs[i]) then 1 else 0)
    ensures AnyFailure(outs[..i + 1]) == (AnyFailure(outs[..i]) || Failure(outs[i]))
  {
    StopPast(outs, i);
    assert outs[..i + 1] == outs[..i] + [outs[i]];
    Extend(outs[..i], outs[i]);
  }

  /** A non-terminal outcome at or before the stop index lies strictly before it. */
  lemma StopPast(outs: seq<Outcome>, i: nat)
    requires i < |outs| && i <= Stop(outs) && !Terminal(outs[i])
    ensures i + 1 <= Stop(outs)
  {
  }

  /** A run of outcomes none of which is an injection injects nothing. */
  lemma {:induction false} NoInjections(s: seq<Outcome>)
    requires forall j :: 0 <= j < |s| ==> !s[j].Injected?
    ensures Injections(s) == []
  {
    if s != [] {
      NoInjections(s[..|s| - 1]);
    }
  }

  /** The per-server outcomes: `step` applied to each server's answers, in order. */
  function Outcomes<I>(step: I -> Outcome, inputs: seq<I>): (outs: seq<Outcome>)
    ensures |outs| == |inputs|
    ensures forall i :: 0 <= i < |inputs| ==> outs[i] == step(inputs[i])
  {
    seq(|inputs|, i requires 0 <= i < |inputs| => step(inputs[i]))
  }

  /**
   * The `for server in servers` loop inside `with open('/dev/random')`, for a
   * client whose loop body is `step`. Skips and unparsable bodies `continue`
   * without the step sleep, an exception leaves the loop and the run, a full pool
   * breaks out of the loop, an injection is appended to the log, a failed check
   * sets `failed`; then the step sleep. After the loop, the exit code is 1 exactly
   * when strict and failed.
   */
  method SeedLoop<I>(step: I -> Outcome, inputs: seq<I>, strict: bool) returns (trace: Trace)
    ensures trace == Run(Outcomes(step, inputs), strict)
  {
    ghost var outs := Outcomes(step, inputs);
    var failed := false;
    var injected: seq<Injection> := [];
    var sleeps: nat := 0;
    var i := 0;
    while i < |inputs|
      invariant 0 <= i <= Stop(outs)
      invariant failed == AnyFailure(outs[..i])
      invariant injected == Injections(outs[..i])
      invariant sleeps == SleepCount(outs[..i])
    {
      var o := step(inputs[i]);
      assert o == outs[i];
      if o.Raised? {
        StopAt(outs, i);
        return Trace(Uncaught(o.crash), injected, sleeps);
      }
      if o.PoolFull? {
        StopAt(outs, i);
        break;
      }
      RunStep(outs, i);
      if o.SelfSkip? || o.BadJson? {
        i := i + 1;
        continue;
      }
      if o.Injected? {
        injected := injected + [o.injection];
      } else {
        failed := true;
      }
      sleeps := sleeps + 1;
      i := i + 1;
    }
    trace := Trace(Exit(if strict && failed then 1 else 0), injected, sleeps);
  }

  /** The first terminal outcome is where the loop stops. */
  lemma StopAt(outs: seq<Outcome>, k: nat)
    requires k < |outs| && Terminal(outs[k])
    requires forall j :: 0 <= j < k ==> !Terminal(outs[j])
    ensures Stop(outs) == k
  {
  }

  /** Injections distribute over concatenation. */
  lemma {:induction false} InjectionsAppend(s: seq<Outcome>, t: seq<Outcome>)
    ensures Injections(s + t) == Injections(s) + Injections(t)
    decreases |t|
  {
    if t == [] {
      assert s + t == s;
    } else {
      var t' := t[..|t| - 1];
      assert (s + t)[..|s + t| - 1] == s + t';
      InjectionsAppend(s, t');
    }
  }

  /** Every injection in a run comes from an injected outcome in it, in order. */
  lemma {:induction false} InjectionsFrom(s: seq<Outcome>, x: Injection)
    requires x in Injections(s)
    ensures exists j :: 0 <= j < |s| && s[j] == Injected(x)
  {
    var init := s[..|s| - 1];
    if x in Injections(init) {
      InjectionsFrom(init, x);
      var j :| 0 <= j < |init| && init[j] == Injected(x);
      assert s[j] == Injected(x);
    } else {
      assert s[|s| - 1] == Injected(x);
    }
  }

  /**
   * A full pool at server k, with no exception or full pool before it, ends the
   * run: nothing from server k or any later server reaches /dev/random.
   */
  lemma PoolFullEndsRun(outs: seq<Outcome>, strict: bool, k: nat, x: Injection)
    requires k < |outs| && outs[k].PoolFull?
    requires forall j :: 0 <= j < k ==> !Terminal(outs[j])
    requires x in Run(outs, strict).injected
    ensures exists j :: 0 <= j < k && outs[j] == Injected(x)
    ensures Run(outs, strict).result.Exit?
  {
    StopAt(outs, k);
    InjectionsFrom(outs[..k], x);
  }
}
