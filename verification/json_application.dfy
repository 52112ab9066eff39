/**
 * The unversioned JSON service: a challenge response over the challenge
 * alone, entropy that is a SHA-512 digest over the challenge and 64 bytes of
 * an 80-byte /dev/urandom read, and a space-separated local timestamp.
 */
module JsonApplication {
  import opened Codec
  import opened Primitives
  import opened Clock
  import opened Protocol

  const NO_CHALLENGE_PROVIDED: string := "No challenge provided"

  /** One `urandom.read(80)` on the /dev/urandom stream. */
  type UrandomRead = s: seq<byte> | |s| == 80 witness Zeros(80)

  /** The bytes /dev/urandom yields, by position; the device never runs dry. */
  type Stream = nat -> byte

  /** The 80 bytes of the stream from position `at` on. */
  function Read80(urandom: Stream, at: nat): (r: UrandomRead)
    ensures forall i :: 0 <= i < 80 ==> r[i] == urandom(at + i)
  {
    seq(80, i requires 0 <= i < 80 => urandom(at + i))
  }

  /** A reply of this service: an error payload or three fields, without `apiVersion`. */
  datatype JsonReply =
    | JsonError(error: string)
    | JsonEntropy(challengeResponse: string, entropy: string, time: string)

  /** The JSON object the reply is serialised to. */
  function JsonFields(r: JsonReply): (m: map<string, string>)
    ensures r.JsonError? ==> m.Keys == {"error"} && m["error"] == r.error
    ensures r.JsonEntropy? ==> m.Keys == {"challengeResponse", "entropy", "time"}
    ensures r.JsonEntropy? ==>
              m["challengeResponse"] == r.challengeResponse && m["entropy"] == r.entropy && m["time"] == r.time
  {
    match r
    case JsonError(e) => map["error" := e]
    case JsonEntropy(cr, e, t) => map["challengeResponse" := cr, "entropy" := e, "time" := t]
  }

  /** entropy[8:-8] of the 80-byte read: the first and last 8 bytes are thrown away. */
  function Trimmed(read: UrandomRead): (r: seq<byte>)
    ensures |r| == 64
    ensures forall i :: 0 <= i < 64 ==> r[i] == read[8 + i]
  {
    read[8..|read| - 8]
  }

  /**
   * The reply of entropy(challenge='') given `read`, what the next 80-byte read
   * of /dev/urandom returns, and `now`, the local clock. The hash object that
   * produced the challenge response is extended, not reset, before the second
   * digest.
   */
  function Answer(sha512: HashFn, query: Option<string>, read: UrandomRead, now: DateTime): (r: JsonReply)
    // Only an absent or empty challenge is refused; there is no minimum length.
    ensures r.JsonError? <==> query.None? || query.value == ""
    ensures r.JsonError? ==> JsonFields(r) == map["error" := NO_CHALLENGE_PROVIDED]
    // The response binds the challenge alone, not the time.
    ensures r.JsonEntropy? ==> r.challengeResponse == Hex(sha512(Utf8(query.value)))
    ensures r.JsonEntropy? ==> r.entropy == Hex(sha512(Utf8(query.value) + read[8..72]))
    ensures r.JsonEntropy? ==> r.time == SpacedSeconds(now) && r.time[10] == ' '
    ensures r.JsonEntropy? ==> "apiVersion" !in JsonFields(r)
  {
    var challenge := if query.Some? then query.value else "";
    if challenge == "" then JsonError(NO_CHALLENGE_PROVIDED)
    else
      var h := NewSha512.Update(Utf8(challenge));
      var challengeResponse := Hex(h.Digest(sha512));
      var h' := h.Update(Trimmed(read));
      assert h'.absorbed == Utf8(challenge) + read[8..72];
      JsonEntropy(challengeResponse, Hex(h'.Digest(sha512)), SpacedSeconds(now))
  }

  /** D20JsonApplication: the service object and its open /dev/urandom handle. */
  class D20JsonApplication {
    /** What the handle opened in the constructor yields. */
    const urandom: Stream
    /** How many bytes have been read from the handle. */
    var position: nat

    constructor (urandom: Stream)
      ensures this.urandom == urandom && position == 0
    {
      this.urandom := urandom;
      position := 0;
    }

    /**
     * entropy(challenge=''): a refused request reads nothing; an accepted one
     * reads the next 80 bytes of the stream.
     */
    method Entropy(sha512: HashFn, query: Option<string>, now: DateTime) returns (r: JsonReply)
      modifies this
      ensures r == Answer(sha512, query, Read80(urandom, old(position)), now)
      ensures position == old(position) + (if r.JsonError? then 0 else 80)
    {
      var challenge := if query.Some? then query.value else "";
      if challenge == "" {
        return JsonError(NO_CHALLENGE_PROVIDED);
      }
      var read := Read80(urandom, position);
      position := position + 80;
      r := Answer(sha512, query, read, now);
    }

    /** default(): any other API path. */
    function Default(): (r: JsonReply)
      ensures JsonFields(r) == map["error" := API_NOT_FOUND]
    {
      JsonError(API_NOT_FOUND)
    }
  }
}
