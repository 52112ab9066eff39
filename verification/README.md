# D20 entropy service — Dafny model

D20 hands out randomness over HTTP. A server answers `GET /api/entropy?challenge=…`
with a reply that proves it is recent and carries bytes from a deterministic random bit
generator:

- `challengeResponse` is the SHA-512 of the challenge followed by the server's
  timestamp, in lowercase hex.
- `time` is that timestamp.
- `entropy` is the generator output, in hex.

A client polls one or more servers. For each reply it checks the API version, the
challenge response and the freshness of the timestamp, consults the kernel's entropy
level, and then feeds the bytes into `/dev/random`. As root on Linux it uses the
`RNDADDENTROPY` ioctl with a conservative bit count; otherwise it makes a plain write.

The model covers:

- **The generator** (`drbg.dfy`, `RandomBitGenerator` of `D20/Server.py`). AES-256 in
  counter mode hands out its raw keystream, `entropySize` bytes per call. A call counter
  triggers a reseed with a fresh key and counter once it reaches the reseed interval.
  The class keeps the cipher position and counter as fields. Ghost state records the
  outputs of the current cipher and how many ciphers there have been. `Valid()` ties
  each output to its keystream segment and the counter to the number of outputs.
- **The three server generations.**
  - `server.dfy`: the Flask route of `D20/Server.py`.
  - `application.dfy`: `D20ApiApplication` of `D20/Application.py`. It embeds the same
    generator with the interval fixed at 2^20 and may stir `/dev/urandom` on success.
  - `json_application.dfy`: the unversioned `D20JsonApplication` of
    `d20/application/json_application.py`. It hashes the challenge alone, then extends
    the same hash object with 64 of 80 bytes read from `/dev/urandom`.
- **The shared codec** (`protocol.dfy`, `codec.dfy`, `clock.dfy`).
  - The hash object is fed the challenge and then the time.
  - Lowercase hex (RFC 4648 section 8 alphabet).
  - UTF-8 (RFC 3629).
  - The strftime forms the programs use, and the strptime parse of the
    ISO 8601 extended form `YYYY-MM-DDTHH:MM:SS`.
  - Date arithmetic down to the microsecond.
- **The three client generations.**
  - `d20_client.dfy`: `D20/Client.py`, with a configurable freshness bound, strict mode
    and a local-address check.
  - `roll.dfy`: `Roll.py`, with a fixed 10-second bound and no strict mode.
  - `roll_legacy.dfy`: `roll.py`, with no freshness or pool check and a float bit count.

  Each client is a function that classifies one server's answer into an `Outcome`, plus
  a `main` method whose loop over the servers is proved equal to `Harvest.Run`.
  `Harvest.Run` is the specification of the run: it stops at the first exception or
  full pool, logs the injections in order, counts the step sleeps, and sets the exit
  code. Every exception the model represents is an explicit outcome:
  - `KeyError` for a missing field;
  - `NameError` when `D20/Client.py` reports a version mismatch through an undefined
    name;
  - `ValueError` from `strptime`;
  - `binascii.Error`;
  - `struct.error`;
  - `CalledProcessError` from curl;
  - `socket.gaierror`.
- **End to end** (`end_to_end.dfy`). This file shows what each client makes of each
  kind of server reply:
  - an honest success reply is accepted exactly when its time is fresh;
  - an error reply, and every reply of the unversioned JSON service, ends the run with
    `KeyError('apiVersion')`;
  - the legacy client takes an honest reply whatever time it carries.

SHA-512 (FIPS 180-4 section 6.4) is a parameter `sha512: HashFn` returning 64 bytes.
The AES-256-CTR keystream (NIST SP 800-38A section 6.5) is a parameter
`aes: Keystream` indexed by key, initial counter and byte offset. OS randomness is also
a parameter: a `Seed` per reseed, and a stream for the JSON service's `/dev/urandom`
handle. The environment a client sees is a per-server `ServerInput`:

- the clock reading when the challenge is made;
- the fetch result;
- the pool level;
- the resolved address.

Behaviour worth noting:

- A failed `gethostbyname` in the local-address check raises and ends the run
  (D20/Client.py:122).
- Only a stale reply or a wrong challenge response marks a D20 client run as failed
  (D20/Client.py:186-189). A non-JSON body or a self-skip does not.
- A version mismatch raises `NameError` (D20/Client.py:191-192).

## Model

| member | source | states |
|---|---|---|
| Codec.Zeros | D20/Server.py:52 | `b'\x00' * n`: exactly n zero bytes, none for n <= 0 |
| Codec.Hex | D20/Server.py:129-130 | hexlify yields two lowercase hex characters per byte |
| Codec.Unhex | D20/Client.py:160 | unhexlify succeeds iff the string has even length and only hex digits (either case); it yields half as many bytes |
| Codec.HexRoundTrip | D20/Client.py:159-160 | unhexlify inverts hexlify: the client recovers exactly the bytes the server hexed |
| Codec.HexInjective | D20/Client.py:154 | equal hex strings come from equal byte strings, so comparing hexdigests compares digests |
| Codec.EncodeChar | D20/Server.py:127 | a character encodes to 1 to 4 UTF-8 bytes; exactly the ASCII characters take one byte, equal to their code |
| Codec.Utf8 | D20/Server.py:127-128 | encoding a string gives between its length and four times its length in bytes |
| Codec.Utf8Append | D20/Client.py:152 | encoding a concatenation is the concatenation of the encodings |
| Codec.Utf8Ascii | D20/Application.py:130 | an ASCII string (such as a hexdigest) encodes byte for byte |
| Clock.DigitsRoundTrip | D20/Server.py:122-123 | reading back a zero-padded field gives the number written |
| Clock.DigitsCanonical | D20/Client.py:156 | an all-digit field is the zero-padded rendering of its value |
| Clock.IsoSeconds | D20/Server.py:122-123 | '%Y-%m-%dT%H:%M:%S' renders 19 characters |
| Clock.IsoMicros | D20/Client.py:130-131 | '%Y-%m-%dT%H:%M:%S.%f' renders 26 characters that extend the seconds form |
| Clock.CompactMicros | roll.py:70-71 | '%Y%m%d %H%M%S.%f' renders 22 characters |
| Clock.SpacedSeconds | d20/application/json_application.py:41-42 | '%Y-%m-%d %H:%M:%S' is the seconds form with a space at position 10 instead of 'T' |
| Clock.SecondsMicros | D20/Application.py:131 | '%S.%f' renders 9 characters starting with the seconds field of the timestamp |
| Clock.ParseIso | D20/Client.py:156 | the model reads a time only from the zero-padded 19-character form with ASCII digits, an uppercase 'T' and in-range fields; the result has microseconds 0 |
| Clock.ParseIsoRoundTrip | D20/Client.py:156 | parsing the server's rendering of t gives t with its microseconds dropped |
| Clock.ParseIsoCanonical | D20/Client.py:156 | every accepted string is the rendering of what it parses to |
| Clock.DateCanonical | D20/Client.py:156 | the date half of an accepted string is the zero-padded rendering of its year, month and day |
| Clock.TimeCanonical | D20/Client.py:156 | the time half of an accepted string is the zero-padded rendering of its hour, minute and second |
| Clock.ToMicros | D20/Client.py:157 | a timestamp as its day ordinal times 86400 * 10^6 plus its time of day in microseconds keeps its microsecond field as the remainder mod 10^6 |
| Clock.YearLength | D20/Client.py:157 | a year has 365 days, 366 when it is a leap year: day counts of consecutive years differ by exactly that |
| Clock.MultipleStep4 | D20/Client.py:157 | y / 4 exceeds (y - 1) / 4 by one exactly when 4 divides y |
| Clock.MultipleStep100 | D20/Client.py:157 | y / 100 exceeds (y - 1) / 100 by one exactly when 100 divides y |
| Clock.MultipleStep400 | D20/Client.py:157 | y / 400 exceeds (y - 1) / 400 by one exactly when 400 divides y |
| Clock.MonthsOrdered | D20/Client.py:157 | within a year, every month ends no later than any later month begins |
| Clock.MonthLength | D20/Client.py:157 | each month of a year ends exactly where the next begins, so the day count steps by the month's length |
| Clock.NextDayOrdinal | D20/Client.py:157 | the next calendar day, across a month or year end included, has exactly the next day number |
| Clock.DayLater | D20/Client.py:157 | the same time of day on the next calendar day is exactly 86400 * 10^6 microseconds later |
| Clock.YearsOrdered | D20/Client.py:157 | every day of a year comes before the first day of any later year |
| Clock.OrdinalOrdered | D20/Client.py:157 | an earlier calendar date has a smaller day number |
| Clock.DaysAndTime | D20/Client.py:157 | a timestamp is its day number times 86400 * 10^6 plus its time of day, which is below one day |
| Clock.ToMicrosMonotone | D20/Client.py:157 | a datetime earlier in (year, month, day, hour, minute, second, microsecond) order has strictly fewer microseconds |
| Clock.ToMicrosOrder | D20/Client.py:157 | datetime order is exactly microsecond order, and equal microsecond counts mean equal datetimes, so `now - parsed` has the sign of the real interval (Clock.DayLater and Clock.DaysAndTime give its size) |
| Primitives.HashObject.Update | D20/Server.py:126-128 | update appends its data to what the hash object has absorbed |
| Primitives.HashObject.Digest | D20/Server.py:129 | digest is SHA-512 of everything absorbed, and leaves the object as it was |
| Primitives.UpdateTwice | D20/Server.py:126-129 | two updates then a digest equal SHA-512 of the concatenation |
| Primitives.LittleEndian | D20/Server.py:67 | int.from_bytes(iv, 'little') is below 256^len |
| Primitives.KeystreamBytes | D20/Server.py:81 | a keystream segment holds exactly the requested bytes at the requested offsets |
| Primitives.NewCipher | D20/Server.py:64-68 | a fresh cipher uses the drawn key, starts at offset 0, and its counter is below 2^128 |
| Primitives.XorZeroBits | D20/Server.py:81 | XOR with a zero operand returns the other operand |
| Primitives.Encrypt | D20/Server.py:81 | encrypt returns as many bytes as it is given and advances the cipher by that many |
| Primitives.EncryptZeros | D20/Server.py:81 | encrypting the zero block emits the raw keystream from the cipher's position |
| Primitives.EncryptAdjacent | D20/Server.py:68 | two encryptions on one cipher object consume adjacent keystream segments, as one encryption of the concatenation would |
| Drbg.EmissionBound | D20/Server.py:76-78 | with interval >= 1 the counter stays in [0, interval); no cipher emits more than interval blocks, the first at most interval - 1 |
| Drbg.SegmentAt | D20/Server.py:71-82 | output i of a cipher is its keystream from byte i * entropy_size on, so the outputs of one cipher are consecutive segments of one keystream |
| Drbg.RandomBitGenerator.constructor | D20/Server.py:48-58 | a new generator holds a zero block of entropy_size bytes, has reseeded once, and has counter 0 |
| Drbg.RandomBitGenerator.Reseed | D20/Server.py:60-69 | reseed installs the cipher for the drawn key and iv and sets the counter to 0 |
| Drbg.RandomBitGenerator.Entropy | D20/Server.py:71-82 | the counter is incremented, and the generator reseeds exactly when it reaches the interval. Below it the key, initial counter and generation are kept and the output is appended to the cipher's outputs; at it the cipher comes from the drawn seed, the generation grows by one and the output is the new cipher's first. The output is entropy_size bytes, the next keystream segment. A retired cipher emitted interval - 1 blocks if it was the first, interval otherwise. |
| Drbg.RandomBitGenerator.Emit | D20/Server.py:81 | encrypting the zero block returns the next entropy_size keystream bytes of the current cipher, appends them to its outputs and changes nothing else |
| Protocol.BuildResponse | D20/Server.py:126-130 | the server's challenge response is a 128-character hexdigest |
| Protocol.ExpectedResponse | D20/Client.py:152 | the client expects a 128-character hexdigest over challenge and the reply's own time |
| Protocol.BuildMatchesExpected | D20/Server.py:126-130 | the server's two-update digest equals the client's digest of the concatenated string |
| Protocol.Fields | D20/Server.py:136-141 | a success reply has exactly the keys apiVersion, challengeResponse, entropy, time; an error reply exactly the key error |
| Protocol.SuccessReply | D20/Server.py:120-141 | version "1"; time is the hashed nowStr; the response is what a client expects for challenge and time; entropy unhexes to the output |
| Server.CheckChallenge | D20/Server.py:110-118 | an absent challenge gives the "No 'challenge'" error; one shorter than 8 characters, the empty one included, gives the "too short" error; every other challenge passes |
| Server.Entropy | D20/Server.py:105-141 | a refused request returns an error-only reply and leaves the generator unchanged. An accepted one returns the success reply over the UTC seconds rendering and the output of exactly one generator call: below the interval the cipher is kept and the output follows its earlier outputs; at the interval the cipher is the drawn seed's and the output is its first |
| Application.ChallengeParam | D20/Application.py:92 | an absent challenge argument is the empty string |
| Application.CheckChallenge | D20/Application.py:98-105 | "" gives the "No 'challenge'" error, 1 to 7 characters the "too short" error, 8 or more pass |
| Application.AbsentIsEmpty | D20/Application.py:92-101 | an absent and an empty challenge get the same error |
| Application.StirBytes | D20/Application.py:128-131 | the stir is two writes: the response's UTF-8 bytes, one per character for an ASCII response such as a hexdigest, then the 9 bytes of '%S.%f' |
| Application.D20ApiApplication.constructor | D20/Application.py:70-78 | the service starts with a zero block of entropySize bytes, one reseed, counter 0, nothing written to /dev/urandom |
| Application.D20ApiApplication.Entropy | D20/Application.py:91-138 | refused: error-only reply, generator and urandom log unchanged. Accepted: one generator call under the 2^20 reseed rule (cipher kept and output appended below it; cipher from the drawn seed, output first of its outputs, at it), the reply is the success reply over the local-time rendering and that output, and with stirring on exactly the two stir writes are appended |
| Application.D20ApiApplication.Respond | D20/Application.py:91-126 | the checks and the generator call of entropy(): a refused challenge leaves the generator unchanged; an accepted one advances it by one call under the reseed rule and is answered with that call's output |
| Application.D20ApiApplication.Stir | D20/Application.py:128-131 | the two stir writes are appended to what the `_urandom` handle has received |
| Application.D20ApiApplication.Default | D20/Application.py:140-147 | any other path returns exactly {'error': 'API not found'} |
| Application.CounterBelowInterval | D20/Application.py:107-110 | between requests 0 <= _n < 2^20, and the current cipher has emitted at most 2^20 blocks |
| JsonApplication.JsonFields | d20/application/json_application.py:44-48 | a success reply has exactly challengeResponse, entropy and time; no apiVersion |
| JsonApplication.Trimmed | d20/application/json_application.py:37-38 | entropy[8:-8] of an 80-byte read is its 64 middle bytes |
| JsonApplication.Read80 | d20/application/json_application.py:37 | a read returns the next 80 bytes of the stream |
| JsonApplication.Answer | d20/application/json_application.py:25-48 | error iff the challenge is absent or empty; otherwise the response is SHA-512 of the challenge alone, the entropy is SHA-512 of challenge then bytes 8..72 of the read, and the time has a space separator; no apiVersion key |
| JsonApplication.D20JsonApplication.constructor | d20/application/json_application.py:15-16 | the service opens the urandom stream at position 0 |
| JsonApplication.D20JsonApplication.Entropy | d20/application/json_application.py:25-48 | the reply is Answer over the next 80 stream bytes; a refused request reads nothing, an accepted one advances the stream by 80 |
| JsonApplication.D20JsonApplication.Default | d20/application/json_application.py:18-22 | any other path returns exactly {'error': 'API not found'} |
| Harvest.ServerList | D20/Client.py:99-100 | an empty server list becomes the single default URL; a non-empty one is kept |
| Harvest.ChallengeFor | D20/Client.py:132 | a challenge is 128 ASCII characters |
| Harvest.CheckDigestAndTime | D20/Client.py:150-157 | missing time, then missing challengeResponse, raise KeyError; a wrong response is a bad digest; an unparsable time raises; a time not strictly within the bound of the request time is stale; otherwise accepted with the parsed time |
| Harvest.EntropyFieldIgnored | D20/Client.py:151-157 | the entropy field takes no part in the version, digest and freshness checks |
| Harvest.AccountedBits | D20/Client.py:176-178 | min(len*8 // 64, 64) is at most 64, at most len*8, at most one bit per 8 bytes, and len // 8 up to 512 bytes |
| Harvest.Fit32 | D20/Client.py:179 | '32s' truncates to the first 32 bytes or zero-pads to 32 |
| Harvest.PackRandPoolInfo | D20/Client.py:179 | struct.pack("ii32s") succeeds iff the count is an int and both ints fit 32 bits; the size field is the full length while the buffer holds 32 bytes |
| Harvest.InjectStep | D20/Client.py:162-182 | on Linux a readable level at or above the ceiling ends the loop; otherwise the ioctl with the accounted bits runs exactly on Linux as root, and a raw write of all bytes runs elsewhere |
| Harvest.Deliver | D20/Client.py:159-182 | a missing entropy field raises KeyError, invalid hex raises; only valid hex reaches the pool check |
| Harvest.Stop | D20/Client.py:118-194 | the loop handles exactly the servers before the first exception or full pool |
| Harvest.Injections | D20/Client.py:173-182 | the injection log has at most one entry per handled server |
| Harvest.SleepCount | D20/Client.py:194 | at most one step sleep per handled server |
| Harvest.Run | D20/Client.py:116-200 | the run raises the first escaping exception, or returns 1 exactly when strict and a handled server failed, 0 otherwise (also after a pool-full break); it logs the handled servers' injections |
| Harvest.StopAt | D20/Client.py:163-171 | the first exception or full pool is where the loop stops |
| Harvest.RunStep | D20/Client.py:118-194 | one more handled server extends the log, the sleep count and the failed flag by that server's share |
| Harvest.InjectionsAppend | D20/Client.py:173-182 | the injection log of a run over two concatenated stretches of servers is the concatenation of their logs |
| Harvest.InjectionsFrom | D20/Client.py:173-182 | every logged injection is the injection of one of the handled servers' outcomes |
| Harvest.SeedLoop | D20/Client.py:116-198 | the `for server in servers` loop, with its failed flag, `continue`, `break`, exception exit and step sleeps, computes exactly Harvest.Run of the per-server outcomes; the loops of Roll.py and roll.py are this loop with strict off |
| Harvest.PoolFullEndsRun | D20/Client.py:163-171 | after a full pool at server k nothing from server k or later is injected, and the run exits normally |
| D20Client.Challenge | D20/Client.py:129-132 | the challenge is the hexdigest of the UTC clock to the microsecond |
| D20Client.Classify | D20/Client.py:136-182 | curl failure raises; non-JSON is skipped; missing apiVersion raises KeyError; a wrong version raises NameError exactly; pool check and injection are reached only with matching digest, fresh parsed time and valid hex; a full pool needs Linux and a level at the ceiling |
| D20Client.Step | D20/Client.py:118-125 | with the local check on, an unresolvable host raises and a server whose address equals the local one is skipped; otherwise the reply is classified against the challenge from this server's clock reading |
| D20Client.TrailingNewlineNeverSkips | D20/Client.py:112-123 | a local-address body ending in a newline never equals a resolved address without one, so no server is skipped |
| D20Client.ClientMain | D20/Client.py:76-200 | a failed icanhazip lookup raises before any server; otherwise the run is Harvest.Run of the per-server outcomes under --strict |
| Roll.Step | Roll.py:77-130 | same order as the D20 client with a fixed 10-second bound; a wrong version is reported, never raised; delivery needs digest, fresh time and valid hex |
| Roll.ClientMain | Roll.py:52-141 | the run is Harvest.Run of the per-server outcomes, not strict; a run that does not raise returns 0 |
| RollLegacy.Challenge | roll.py:70-72 | the challenge is the hexdigest of the local clock in the compact form |
| RollLegacy.BitCount | roll.py:101-102 | (len*8)/8 is the float len |
| RollLegacy.Inject | roll.py:98-106 | as root the pack raises struct.error; otherwise all bytes are written raw |
| RollLegacy.Step | roll.py:76-111 | version then digest then entropy; bad digest exactly when version matches and the response differs; delivery only as a non-root raw write of the unhexed entropy; never stale, never pool-full |
| RollLegacy.ClientMain | roll.py:51-115 | the run is Harvest.Run of the per-server outcomes, not strict; a run that does not raise returns 0 |
| RollLegacy.RootInjectsNothing | roll.py:99-104 | run as root, the legacy client injects nothing |
| EndToEnd.ChallengesAccepted | D20/Server.py:115 | every client challenge is long enough for both versioned servers |
| EndToEnd.HonestReplyAccepted | D20/Client.py:147-182 | a server's success reply to the D20 client's challenge, fresh by the client clock, reaches the pool step with exactly the generator output |
| EndToEnd.HonestReplyStale | D20/Client.py:156-157 | the same reply, too far from the client clock, is stale |
| EndToEnd.RollAcceptsHonestReply | Roll.py:96-130 | Roll.py accepts an honest reply within 10 seconds and delivers exactly its output |
| EndToEnd.LegacyIgnoresTime | roll.py:88-106 | the legacy client, not as root, writes the output of an honest reply whatever its time |
| EndToEnd.ErrorReplyRaises | D20/Client.py:148 | a versioned server's error reply raises KeyError('apiVersion') in every client |
| EndToEnd.JsonServiceUnsupported | D20/Client.py:148 | every reply of the unversioned JSON service raises KeyError('apiVersion') in every client |
| EndToEnd.OtherVersion | D20/Client.py:191 | a wrong apiVersion raises NameError in the D20 client and is a reported mismatch in Roll.py |

## Left out

- SHA-512 and AES are parameters; nothing about their values is assumed beyond digest length and keystream indexing.
- The CTR counter's wrap-around at 2^128 is not modelled; the keystream is indexed by byte offset from the initial counter.
- `os.urandom`, `/dev/urandom`, the clocks, `random.random()` jitter and the sleeps themselves are inputs or counts; sleep durations are not modelled.
- The Flask and CherryPy routing, `jsonify`/`json.dumps`, the 404 HTML pages and argument parsing are not modelled; a reply is the map of its fields.
- Replies whose JSON is not an object, or whose values are not strings, are not modelled; a field is absent or a string. Three such cases raise TypeError in the clients: a body that is not an object (at `response['apiVersion']`), a non-string `time` (at `challenge + responseTime`, D20/Client.py:152, Roll.py:101, roll.py:91) and a non-string `entropy` (in `unhexlify`). A non-string `apiVersion` compares unequal (D20/Client.py:149, Roll.py:97, roll.py:89) and behaves as a string version other than "1". A non-string `challengeResponse` compares unequal (D20/Client.py:154, Roll.py:103, roll.py:93) and behaves as a wrong digest.
- Response bodies that are not valid UTF-8 are not modelled.
- Multi-valued query parameters are not modelled; a challenge is absent or one string.
- `D20/Server.py` opens `/dev/urandom` when `seed_urandom` is set but never writes to it; the handle is not modelled.
- `D20/Application.py` duplicates the generator code of `D20/Server.py`; the model reuses one `RandomBitGenerator` with the interval fixed at 2^20.
- Errors from opening `/dev/random` and an `OSError` from the ioctl are not modelled.
- Concurrent requests sharing the unlocked generator are not modelled; calls are sequential.
- Harvest.Fresh: compares integer microseconds; the source compares float seconds, which can round differently right at the bound.
- Clock.ParseIso: accepts only the zero-padded 19-character form with ASCII digits and an uppercase 'T'. strptime also accepts fields of one digit, a space-padded day, a lowercase 't' (it matches case-insensitively) and non-ASCII Unicode digits. A reply with such a time is rejected by the model with ValueError where a client would accept it.
- Clock.IsoSeconds: renders the year with four digits; strftime's '%Y' on years below 1000 is platform-dependent.
- Codec.Utf8: the 'ignore' error handler never applies, because a Dafny string holds no lone surrogates.
- A reply whose `time` is a JSON escape of a lone surrogate (such as "\ud800") is not modelled. The standard `json` module decodes it (Roll.py:91, roll.py:83, and D20/Client.py:142 when `ujson` is absent). Encoding `challenge + responseTime` as UTF-8 then raises `UnicodeEncodeError` before the digest check (D20/Client.py:152, Roll.py:101, roll.py:91). Dafny strings cannot hold a lone surrogate.
- The command-line defaults (`--max-entropy` 2048, `--max-timestamp-deviation` 10 s, `-e` 512 bytes, `-r` 2^20 calls) and `D20ApiApplication`'s keyword default `entropySize=512` are not modelled; the model takes these settings as parameters.
