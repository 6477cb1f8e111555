# RMA challenge-response authorizer, modelled in Dafny

This project models the RMA (Return Merchandise Authorization) authorizer of
the EC firmware, `common/rma_auth.c`. An operator with no network link to the
device asks for a challenge. The device zeroes any earlier challenge and
authcode, enforces a ten-second rate limit, and fills a fixed-layout record:
version/key-id byte, ephemeral X25519 public key, board id, and device id (or a
self-keyed HMAC fingerprint of a longer id). It shows that record
base32-encoded. It keeps, as the authcode, eight base32 characters of an
HMAC-SHA256 keyed with the X25519 shared secret of the ephemeral key and the
server's key, computed over the record without its first byte. The operator then
has three tries to type the authcode back. A match succeeds once. A match, or
running out of tries, wipes both buffers.

Layout:

- `bytes.dfy` (module `Bytes`): the byte type, and memset, memcpy and
  safe_memcmp on byte buffers.
- `crypto.dfy` (module `Crypto`): X25519, HMAC-SHA256 and the characters of
  base32_encode, held as function values (`Primitives`). The model is proved
  for every choice of them that meets the contracts in `WellBehaved`: the
  output lengths, and that no base32 character is the zero byte.
  The model also gives base32_encode's length check and the buffer it leaves
  behind.
- `challenge.dfy` (module `Challenge`): the packed `struct rma_challenge`, the
  version/key-id byte, `hash_buffer`, and the record rma_create_challenge
  assembles.
- `rma_auth.dfy` (module `RmaAuth`): the four static variables as `AuthState`,
  with the specification functions `Create`, `Try` and the front-end replies.
  It also has the class `Authorizer`, which holds the state as the C file does:
  two byte arrays and two counters. Its methods are proved to move that state
  exactly as the functions say.
- `rma_properties.dfy` (module `RmaProperties`): properties of histories of
  calls. These cover the lockout invariant, single redemption, lockout after
  three wrong codes, and the rate limit.

Inputs the source reads from outside the core are parameters of one creation
(`Env`):
- the clock (`get_time`);
- the board id (`read_board_id`; `None` when it fails);
- the chip unique id (`system_get_chip_unique_id`);
- the key pair that `X25519_keypair` generates at random.

The server public key, the server key id and the two buffer sizes are the build
configuration (`Config`).

Points of the code's behaviour that the contracts make explicit:

- Field order. The record holds the version/key-id byte, then the public key,
  then the board id, then the device id. The comment at
  common/rma_auth.c:133-136 relies on the last three lying in that order
  after the first byte, since the HMAC is taken over them as one span.
- A mismatched authcode returns `EC_ERROR_INVAL`, the initial `rv` at
  common/rma_auth.c:154, not `EC_ERROR_ACCESS_DENIED`. Only the "no tries"
  and "no authcode" refusals at :156-162 return access-denied.
- The memsets at common/rma_auth.c:89-90 come before the rate check at :94.
  So a refused, rate-limited request wipes the pending challenge and
  authcode, and that authcode is refused afterwards
  (`RateLimitedRequestRevokesPending`, and `Create` on `EC_ERROR_TIMEOUT`).
- The ephemeral private key and the shared secret (`temp`, `secret`) are never
  zeroed. The model claims nothing about their lifetime.
- If the challenge encodes but the authcode encode then fails (:139-141), the
  challenge text stays in its buffer with no authcode (`Create` on
  `EC_ERROR_UNKNOWN`). The invariant that holds is therefore "no tries left
  implies no authcode" (`Inv`), not "no tries left implies both buffers
  empty". `Try` still wipes both whenever it uses up the last try. Assuming
  buffers sized to fit the text exactly, this failure cannot happen
  (`ExactBuffersNeverFailToEncode`).

## Model

| member | source | states |
|---|---|---|
| Bytes.Memset | common/rma_auth.c:89-90 | every byte of the buffer is zero afterwards |
| Bytes.Memcpy | common/rma_auth.c:105 | the copied window holds the source bytes; bytes outside it are unchanged |
| Bytes.SafeMemcmp | common/rma_auth.c:164 | reports a difference iff the first n bytes differ |
| Crypto.EncodedChars | common/rma_auth.c:127 | the text length is the ceiling of bits/5 plus the padding count |
| Crypto.EncodeInto | common/rma_auth.c:127-128 | on success the buffer holds the text, a zero terminator and its untouched tail; on failure it is unchanged |
| Crypto.ZeroBitsGivePaddingOnly | common/rma_auth.c:127 | encoding zero bits gives only the padding characters, terminated, in a buffer of at least pad+1 bytes |
| Crypto.Base32Encode | common/rma_auth.c:139-141 | succeeds exactly when text plus terminator fit the destination, and writes nothing on failure |
| Challenge.VkidByte | common/rma_auth.c:99-100 | high nibble is the protocol version, low nibble the server key id |
| Challenge.Parse | common/rma_auth.c:81 | the packed bytes split into fields of 1, 32, 4 and 8 bytes |
| Challenge.Serialize | common/rma_auth.c:84 | the packed struct read through cptr: one byte per field byte, 45 for a well-formed record, the version/key-id byte first |
| Challenge.ParseSerialize | common/rma_auth.c:98-124 | the record is 45 bytes and every field reads back from its fixed offset |
| Challenge.SerializedTail | common/rma_auth.c:133-138 | past the version/key-id byte the packed record is public key, board id and device id, in that order |
| Challenge.SerializedAt | common/rma_auth.c:81 | each byte of the packed record belongs to the field at that offset |
| Challenge.SerializeParse | common/rma_auth.c:84 | any 45 bytes are the packed form of the record they parse to |
| Challenge.HashBuffer | common/rma_auth.c:59-69 | the result is dest_size bytes and is a prefix of HMAC keyed with the buffer over the buffer |
| Challenge.DeviceIdField | common/rma_auth.c:107-121 | an id that fits is copied and zero-padded; a longer one is replaced by its leading fingerprint bytes |
| Challenge.BuildRecord | common/rma_auth.c:98-124 | the record carries version 0 and the key id, the board id and the public key verbatim, and the device-id field of the id (copied and zero-padded, or its fingerprint) |
| Challenge.DeviceFieldDeterministic | common/rma_auth.c:113-121 | an over-long id always gives the same field, the leading bytes of its self-keyed HMAC, whatever else differs |
| RmaAuth.Initial | common/rma_auth.c:39-42 | at boot no tries are left and the authcode is all zero |
| RmaAuth.Wipe | common/rma_auth.c:89-90 | both buffers all zero, counters kept, so the invariant holds whatever tries are left |
| RmaAuth.RateLimited | common/rma_auth.c:94 | the unsigned 64-bit difference now - last is below ten seconds: the plain difference when now >= last, the wrapped one when the clock reads less |
| RmaAuth.RecordOf | common/rma_auth.c:98-124 | the record of one creation holds the version/key-id byte, the generated public key, the board id read and the device-id field of the chip id |
| RmaAuth.AuthDigest | common/rma_auth.c:130-138 | HMAC keyed with X25519(ephemeral private, server public) over public key, board id and device id, without the version byte |
| RmaAuth.ExpectedAuthcode | common/rma_auth.c:132-140 | the authcode is the base32 rendering, without padding, of the leading RMA_AUTHCODE_CHARS*5 bits of HMAC keyed with X25519(ephemeral private, server public) over public key, board id and device-id field; its 8 characters are non-zero |
| RmaAuth.ChallengeBuffer | common/rma_auth.c:127 | the zeroed challenge buffer after encoding: when the text fits, it starts with base32 of the packed record (360 bits, 9 padding characters) followed by zeros; otherwise it stays all zero |
| RmaAuth.AuthcodeBuffer | common/rma_auth.c:139-141 | the authcode buffer starts with the expected code, so its first byte is non-zero |
| RmaAuth.Create | common/rma_auth.c:77-145 | timeout iff rate limited, and then both buffers are wiped and the old timestamp kept; otherwise the timestamp is now even if a later step fails; every error leaves the authcode zero and the tries unchanged; an unknown error leaves the encoded challenge if that encode succeeded and a zero challenge otherwise; success iff board id read and both encodes fit, then tries are 3 and the buffers hold the encoded record and authcode |
| RmaAuth.Armed | common/rma_auth.c:156-162 | a challenge is live only with tries left, and never with an all-zero authcode |
| RmaAuth.Try | common/rma_auth.c:152-179 | with no tries or no authcode: access denied, nothing changes; a match on the first 8 bytes succeeds and leaves 0 tries; a mismatch returns EC_ERROR_INVAL and costs one try; reaching 0 tries wipes both buffers; otherwise the buffers are unchanged |
| RmaAuth.GetChallengeReply | common/rma_auth.c:186-205 | RESPONSE_TOO_BIG exactly when the buffer is smaller than the challenge buffer, with the state untouched; otherwise the state is Create's, a creation error comes back as that EC code, and success returns challenge size minus 1 bytes |
| RmaAuth.ProcessResponseReply | common/rma_auth.c:224-250 | BOGUS_ARGS exactly when the payload is not RMA_AUTHCODE_CHARS bytes, with the state untouched; otherwise the state is Try's, success gives an empty response and any refusal is INTERNAL_ERROR |
| RmaAuth.CommandReply | common/rma_auth.c:258-270 | an empty payload requests a challenge, any other payload is a response |
| RmaAuth.FillRecord | common/rma_auth.c:98-124 | the local record, zeroed and then filled field by field in place, is exactly the packed record |
| RmaAuth.Authorizer.constructor | common/rma_auth.c:39-42 | the state starts zeroed |
| RmaAuth.Authorizer.CreateChallenge | common/rma_auth.c:77-145 | wipes both buffers, rate-limits, fills the record in place and encodes it; new state and return code are those of Create |
| RmaAuth.Authorizer.GetChallengeText | common/rma_auth.c:147-150 | returns the whole challenge buffer as it is now |
| RmaAuth.Authorizer.TryAuthcode | common/rma_auth.c:152-179 | new state and return code are those of Try |
| RmaAuth.Authorizer.GetChallenge | common/rma_auth.c:186-218 | state and reply as GetChallengeReply; on success the response buffer starts with the challenge text, rest untouched |
| RmaAuth.Authorizer.CopyChallengeOut | common/rma_auth.c:204-205 | the response buffer starts with the first n challenge bytes and the rest is untouched |
| RmaAuth.Authorizer.ProcessResponse | common/rma_auth.c:224-250 | state and reply as ProcessResponseReply on the received payload |
| RmaAuth.Authorizer.ChallengeResponse | common/rma_auth.c:258-271 | state and reply as CommandReply on the received payload; the buffer starts with the challenge text after a successful request and is otherwise left as it was |
| RmaProperties.ApplyKeepsInv | common/rma_auth.c:143 | each create or try keeps the invariant that no tries left means no authcode |
| RmaProperties.Run | common/rma_auth.c:39-42 | after any history of calls the invariant still holds |
| RmaProperties.NoAuthcodeWithoutTries | common/rma_auth.c:156-176 | from boot, whatever was called, zero tries means an all-zero authcode and no live challenge |
| RmaProperties.TryEach | common/rma_auth.c:152-179 | helper that runs Try over a series of attempts in order, keeping the state well sized and yielding one result per attempt |
| RmaProperties.LockedRefusesAll | common/rma_auth.c:156-158 | with no tries left every attempt is access denied and nothing changes |
| RmaProperties.AtMostOneSuccess | common/rma_auth.c:164-176 | any series of attempts against one challenge contains at most one success |
| RmaProperties.MismatchesExhaust | common/rma_auth.c:164-176 | as many wrong codes as tries left are all reported as mismatches and end with zero tries and both buffers wiped |
| RmaProperties.LockoutAfterMaxMismatches | common/rma_auth.c:33 | after a successful challenge, three wrong codes wipe both buffers and the correct code is then refused |
| RmaProperties.RedeemOnce | common/rma_auth.c:143-176 | the expected code succeeds right after a challenge, wipes the authcode, and is refused the second time |
| RmaProperties.FailedCreateRefusesTry | common/rma_auth.c:88-90 | after any failed challenge request the next attempt is refused and changes nothing, whatever tries were left |
| RmaProperties.RefusedSoonAfterBoot | common/rma_auth.c:29-30 | a request in the first ten seconds after boot times out and changes nothing but the wiped buffers |
| RmaProperties.RateLimitedRequestRevokesPending | common/rma_auth.c:88-96 | a second request within ten seconds times out, keeps the first timestamp, zeroes both buffers and leaves the first authcode refused |
| RmaProperties.NewChallengeSupersedesOld | common/rma_auth.c:88-143 | after a second accepted request the second authcode succeeds and a different first authcode is a mismatch |
| RmaProperties.ExactBuffersNeverFailToEncode | common/rma_auth.c:126-141 | assuming buffers one byte larger than their texts, only the rate limit or the board id can refuse a request |
| RmaProperties.ChallengeReplyIsEncodedRecord | common/rma_auth.c:204-205 | a successful challenge reply, all of the challenge buffer but its last byte, is the base32 text of the packed record followed by its terminator and zeros |
| RmaProperties.CreatedAuthcodeIsTruncatedHmac | common/rma_auth.c:130-143 | after a successful request the authcode buffer starts with base32 of the leading 40 bits of HMAC(X25519 shared secret, public key, board id, device-id field) |

## Left out

- X25519, HMAC-SHA256 and the base32 alphabet are foreign library code. They are held as function values with two assumed contracts: the lengths of their outputs, and that base32_encode never emits a zero byte as a character. The second is what makes a freshly encoded authcode pass the `!*authcode` guard at common/rma_auth.c:161 (`AuthcodeBuffer`, and through it `RedeemOnce`, `NewChallengeSupersedesOld` and `LockoutAfterMaxMismatches`). Nothing about their cryptographic strength is claimed.
- base32.c is not part of this model. The last argument of base32_encode is read as a count of padding characters. A destination is accepted when ceil(bits/5) characters, the padding and a terminator fit. On failure nothing is written.
- rma_auth.h is not part of this model. Its sizes are stated in the model:
  - public key 32 bytes, board id 4, device id 8;
  - RMA_AUTHCODE_CHARS 8, protocol version 0;
  - the version/key-id byte packs the version in the high nibble and the key id in the low nibble.
- The two buffer sizes (RMA_CHALLENGE_BUF_SIZE, RMA_AUTHCODE_BUF_SIZE) are defined in rma_auth.h, so they are configuration here and the model covers both encode failures. `ExactBuffersNeverFailToEncode` assumes buffers one byte longer than their texts; that these are the actual sizes is not established.
- The random generation inside X25519_keypair, and read_board_id, system_get_chip_unique_id and get_time, are external providers; their results are parameters.
- A negative unique-id size from system_get_chip_unique_id is not modelled: the id is a byte sequence.
- The CPRINTF console logging (common/rma_auth.c:207-215, 233-234, 242, 247) is output only.
- The DECLARE_VENDOR_COMMAND registration is left out: it is linker wiring.
- The numeric values of the EC and vendor return codes live in headers that are not part of this model, so codes are datatype values. A creation error passes through as `VendorRcEc`.
- RmaAuth.Authorizer.GetChallenge: does not write the one-byte return code into buf[0] on its error paths (common/rma_auth.c:193, 200), because the numeric code values are not modelled; it returns the code and sets the response size to 1.
- RmaAuth.Authorizer.ProcessResponse: does not write the one-byte return code into buf[0] on its error paths (common/rma_auth.c:235, 248), for the same reason.
- Bytes.SafeMemcmp: states only the comparison's result. That the loop has no early exit and runs in constant time is not part of the contract; timing cannot be verified here.
- Serialisation of the state by a lock or a single task is left out: every operation is modelled as running to completion without interleaving.
