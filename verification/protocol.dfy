/**
 * The challenge-response codec shared by the servers and the clients, and the
 * reply record the versioned servers send, with the JSON object it becomes.
 */
module Protocol {
  import opened Codec
  import opened Primitives
  import opened Clock

  /** The `apiVersion` the versioned servers send and the clients expect. */
  const API_VERSION: string := "1"

  /**
   * The server's challenge response: SHA-512 fed the UTF-8 of the challenge,
   * then the UTF-8 of the timestamp string, rendered as lowercase hex.
   */
  function BuildResponse(sha512: HashFn, challenge: string, time: string): (r: string)
    ensures |r| == 128 && IsAscii(r)
  {
    Hex(NewSha512.Update(Utf8(challenge)).Update(Utf8(time)).Digest(sha512))
  }

  /**
   * The response a client expects: the hexdigest of SHA-512 over the UTF-8 of
   * the challenge concatenated with the reply's own `time` string.
   */
  function ExpectedResponse(sha512: HashFn, challenge: string, time: string): (r: string)
    ensures |r| == 128
  {
    Hex(sha512(Utf8(challenge + time)))
  }

  /**
   * What the server builds is what the client expects: the two sides hash the
   * same bytes, one in two updates and one in a single call.
   */
  lemma BuildMatchesExpected(sha512: HashFn, challenge: string, time: string)
    ensures BuildResponse(sha512, challenge, time) == ExpectedResponse(sha512, challenge, time)
  {
    UpdateTwice(sha512, Utf8(challenge), Utf8(time));
    Utf8Append(challenge, time);
  }

  /** A reply of the versioned servers: an error payload or the four success fields. */
  datatype Reply =
    | ErrorReply(error: string)
    | EntropyReply(apiVersion: string, challengeResponse: string, entropy: string, time: string)

  /** The JSON object the reply is serialised to, as a map from keys to string values. */
  function Fields(r: Reply): (m: map<string, string>)
    ensures r.ErrorReply? ==> m.Keys == {"error"} && m["error"] == r.error
    ensures r.EntropyReply? ==> m.Keys == {"apiVersion", "challengeResponse", "entropy", "time"}
    ensures r.EntropyReply? ==>
              && m["apiVersion"] == r.apiVersion && m["challengeResponse"] == r.challengeResponse
              && m["entropy"] == r.entropy && m["time"] == r.time
  {
    match r
    case ErrorReply(e) => map["error" := e]
    case EntropyReply(v, cr, e, t) =>
      map["apiVersion" := v, "challengeResponse" := cr, "entropy" := e, "time" := t]
  }

  /**
   * The success reply: version "1", the challenge response over challenge and
   * `nowStr`, the generator output in hex, and the same `nowStr` as `time`.
   */
  function SuccessReply(sha512: HashFn, challenge: string, nowStr: string, output: seq<byte>): (r: Reply)
    ensures r.EntropyReply? && r.apiVersion == API_VERSION && r.time == nowStr
    ensures r.challengeResponse == ExpectedResponse(sha512, challenge, r.time) && IsAscii(r.challengeResponse)
    ensures Unhex(r.entropy) == Some(output) && |r.entropy| == 2 * |output|
  {
    BuildMatchesExpected(sha512, challenge, nowStr);
    HexRoundTrip(output);
    EntropyReply(API_VERSION, BuildResponse(sha512, challenge, nowStr), Hex(output), nowStr)
  }

  /** The reply to any API path other than `entropy`. */
  const API_NOT_FOUND: string := "API not found"

  /** The error for a request without a challenge. */
  const NO_CHALLENGE: string := "No 'challenge' parameter provided (e.g. /api/entropy?challenge=0123456789ABCDEF)"

  /** The error for a challenge below the minimum length. */
  const TOO_SHORT: string := "'challenge' parameter provided is too short; must be at least 8 bytes"

  /** Challenges shorter than this many characters are refused. */
  const MIN_CHALLENGE_LENGTH: nat := 8
}
