/**
 * The RMA challenge-response authorizer: its process-wide state, the two
 * operations that change it (creating a challenge, trying an authcode) and
 * the vendor-command front end that routes to them.
 *
 * Each operation is specified by a function on AuthState values (Create,
 * Try, CommandReply); the class Authorizer holds the state in the source's
 * own form, a pair of byte buffers and two counters, and its methods are
 * proved to move that state exactly as the functions say.
 */
module RmaAuth {
  import opened Bytes
  import opened Crypto
  import opened Challenge

  /** get_time() counts microseconds. */
  const SECOND: nat := 1000000

  /** Minimum time since boot or since the last challenge before a new one is made. */
  const CHALLENGE_INTERVAL: nat := 10 * SECOND

  /** Number of tries to enter the authcode. */
  const MAX_AUTHCODE_TRIES: nat := 3

  /** Characters in an authcode, and the bits of the digest they render. */
  const RMA_AUTHCODE_CHARS: nat := 8
  const AUTHCODE_BITS: nat := RMA_AUTHCODE_CHARS * 5

  /** The challenge text renders the whole record, followed by 9 padding characters. */
  const RECORD_BITS: nat := 8 * RECORD_SIZE
  const CHALLENGE_PAD: nat := 9

  /** Timestamps are uint64_t. */
  const UINT64_MODULUS: int := 0x1_0000_0000_0000_0000

  /** The EC error codes this core returns. */
  datatype EcCode = EcSuccess | EcErrorUnknown | EcErrorTimeout | EcErrorInval | EcErrorAccessDenied

  /**
   * Build-time configuration: the primitives, the server's public key and
   * key id (CONFIG_RMA_AUTH_SERVER_PUBLIC_KEY, CONFIG_RMA_AUTH_SERVER_KEY_ID)
   * and the sizes of the challenge and authcode buffers.
   */
  datatype Config = Config(
    prims: Primitives,
    serverPubKey: seq<byte>,
    serverKeyId: byte,
    challengeBufSize: nat,
    authcodeBufSize: nat)

  /** The authcode comparison reads RMA_AUTHCODE_CHARS bytes of the buffer, so it holds at least that many. */
  ghost predicate ConfigOk(cfg: Config) {
    && WellBehaved(cfg.prims)
    && |cfg.serverPubKey| == X25519_KEY_SIZE
    && cfg.challengeBufSize >= 1
    && cfg.authcodeBufSize >= RMA_AUTHCODE_CHARS
  }

  /** An ephemeral X25519 key pair, as X25519_keypair generates it. */
  datatype KeyPair = KeyPair(publicKey: seq<byte>, privateKey: seq<byte>)

  /**
   * What one rma_create_challenge call obtains from outside this core: the
   * clock, the board id (None when read_board_id fails), the chip's unique
   * id and a freshly generated key pair.
   */
  datatype Env = Env(now: nat, boardId: Option<seq<byte>>, deviceId: seq<byte>, ephemeral: KeyPair)

  predicate EnvOk(env: Env) {
    && env.now < UINT64_MODULUS
    && (env.boardId.Some? ==> |env.boardId.value| == BOARD_ID_SIZE)
    && |env.ephemeral.publicKey| == X25519_KEY_SIZE
  }

  /** The four static variables of the authorizer. */
  datatype AuthState = AuthState(
    challenge: seq<byte>,
    authcode: seq<byte>,
    triesLeft: int,
    lastChallengeTime: int)

  predicate WellSized(cfg: Config, s: AuthState) {
    && |s.challenge| == cfg.challengeBufSize
    && |s.authcode| == cfg.authcodeBufSize
    && 0 <= s.triesLeft <= MAX_AUTHCODE_TRIES
    && 0 <= s.lastChallengeTime < UINT64_MODULUS
  }

  /** With no tries left there is no authcode to match. */
  predicate Inv(cfg: Config, s: AuthState) {
    WellSized(cfg, s) && (s.triesLeft == 0 ==> s.authcode == Zeros(cfg.authcodeBufSize))
  }

  /** The state at boot: static storage is zero. */
  function Initial(cfg: Config): (s: AuthState)
    ensures Inv(cfg, s)
    ensures s.triesLeft == 0 && s.authcode == Zeros(cfg.authcodeBufSize)
  {
    AuthState(Zeros(cfg.challengeBufSize), Zeros(cfg.authcodeBufSize), 0, 0)
  }

  /**
   * Both buffers zeroed, counters kept. A wiped state holds no authcode, so
   * it meets the invariant whatever tries are left.
   */
  function Wipe(cfg: Config, s: AuthState): (w: AuthState)
    ensures w.challenge == Zeros(cfg.challengeBufSize) && w.authcode == Zeros(cfg.authcodeBufSize)
    ensures w.triesLeft == s.triesLeft && w.lastChallengeTime == s.lastChallengeTime
    ensures WellSized(cfg, s) ==> Inv(cfg, w)
  {
    s.(challenge := Zeros(cfg.challengeBufSize), authcode := Zeros(cfg.authcodeBufSize))
  }

  /**
   * The rate limit: the unsigned 64-bit difference `now - last` is below the
   * interval. When the clock reads less than the stored time the
   * subtraction wraps around, and the request is refused only if the
   * wrapped distance is below the interval.
   */
  predicate RateLimited(last: int, now: int): (b: bool)
    ensures 0 <= last <= now < UINT64_MODULUS ==> (b <==> now - last < CHALLENGE_INTERVAL)
    ensures 0 <= now < last < UINT64_MODULUS ==> (b <==> now - last + UINT64_MODULUS < CHALLENGE_INTERVAL)
  {
    (now - last) % UINT64_MODULUS < CHALLENGE_INTERVAL
  }

  /** The record a creation with these inputs assembles. */
  function RecordOf(cfg: Config, env: Env): (r: Record)
    requires ConfigOk(cfg) && EnvOk(env) && env.boardId.Some?
    ensures WellFormed(r)
    ensures r.versionKeyId == VkidByte(RMA_CHALLENGE_VERSION, cfg.serverKeyId)
    ensures r.devicePubKey == env.ephemeral.publicKey && r.boardId == env.boardId.value
    ensures r.deviceId == DeviceIdField(cfg.prims, env.deviceId)
  {
    BuildRecord(cfg.prims, cfg.serverKeyId, env.boardId.value, env.deviceId, env.ephemeral.publicKey)
  }

  /**
   * The digest the authcode renders: HMAC-SHA256 keyed with the X25519
   * shared secret of the ephemeral private key and the server's public
   * key, over every record byte after the version/key-id byte.
   */
  function AuthDigest(cfg: Config, env: Env): (d: seq<byte>)
    requires ConfigOk(cfg) && EnvOk(env) && env.boardId.Some?
    ensures |d| == SHA256_DIGEST_SIZE
    ensures d == cfg.prims.hmacSha256(
      cfg.prims.x25519(env.ephemeral.privateKey, cfg.serverPubKey),
      env.ephemeral.publicKey + env.boardId.value + DeviceIdField(cfg.prims, env.deviceId))
  {
    var secret := cfg.prims.x25519(env.ephemeral.privateKey, cfg.serverPubKey);
    var record := RecordOf(cfg, env);
    SerializedTail(record);
    cfg.prims.hmacSha256(secret, Serialize(record)[1..])
  }

  /**
   * The authcode text the operator must send back: the leading
   * RMA_AUTHCODE_CHARS * 5 bits of the HMAC of public key, board id and
   * device-id field under the X25519 shared secret, in base32 with no
   * padding.
   */
  function ExpectedAuthcode(cfg: Config, env: Env): (code: seq<byte>)
    requires ConfigOk(cfg) && EnvOk(env) && env.boardId.Some?
    ensures |code| == RMA_AUTHCODE_CHARS
    ensures forall i :: 0 <= i < |code| ==> code[i] != 0
    ensures code == cfg.prims.base32(
      cfg.prims.hmacSha256(
        cfg.prims.x25519(env.ephemeral.privateKey, cfg.serverPubKey),
        env.ephemeral.publicKey + env.boardId.value + DeviceIdField(cfg.prims, env.deviceId)),
      AUTHCODE_BITS, 0)
  {
    cfg.prims.base32(AuthDigest(cfg, env), AUTHCODE_BITS, 0)
  }

  /**
   * The zeroed challenge buffer after encoding the whole record with
   * CHALLENGE_PAD padding characters: when the text fits, the text, its
   * terminator and zeros; otherwise still all zero.
   */
  function ChallengeBuffer(cfg: Config, env: Env): (b: seq<byte>)
    requires ConfigOk(cfg) && EnvOk(env) && env.boardId.Some?
    ensures |b| == cfg.challengeBufSize
    ensures Fits(cfg.challengeBufSize, RECORD_BITS, CHALLENGE_PAD) ==>
      var n := EncodedChars(RECORD_BITS, CHALLENGE_PAD);
      && b[..n] == cfg.prims.base32(Serialize(RecordOf(cfg, env)), RECORD_BITS, CHALLENGE_PAD)
      && forall i :: n <= i < |b| ==> b[i] == 0
    ensures !Fits(cfg.challengeBufSize, RECORD_BITS, CHALLENGE_PAD) ==> b == Zeros(cfg.challengeBufSize)
  {
    EncodeInto(cfg.prims, Zeros(cfg.challengeBufSize), Serialize(RecordOf(cfg, env)), RECORD_BITS, CHALLENGE_PAD)
  }

  /** The authcode buffer after a successful encode of the digest. */
  function AuthcodeBuffer(cfg: Config, env: Env): (b: seq<byte>)
    requires ConfigOk(cfg) && EnvOk(env) && env.boardId.Some?
    requires Fits(cfg.authcodeBufSize, AUTHCODE_BITS, 0)
    ensures |b| == cfg.authcodeBufSize
    ensures b[..RMA_AUTHCODE_CHARS] == ExpectedAuthcode(cfg, env)
    ensures b[0] != 0
  {
    EncodeInto(cfg.prims, Zeros(cfg.authcodeBufSize), AuthDigest(cfg, env), AUTHCODE_BITS, 0)
  }

  /** The outcome of one operation: the new state and the code returned. */
  datatype Step = Step(state: AuthState, rc: EcCode)

  /**
   * rma_create_challenge. Both buffers are zeroed first, so every error
   * return leaves no authcode; a rate-limited call keeps the old timestamp,
   * any later failure keeps the new one; only full success refills the
   * retry budget.
   */
  function Create(cfg: Config, s: AuthState, env: Env): (r: Step)
    requires ConfigOk(cfg) && WellSized(cfg, s) && EnvOk(env)
    ensures WellSized(cfg, r.state)
    ensures r.rc == EcErrorTimeout <==> RateLimited(s.lastChallengeTime, env.now)
    ensures r.rc == EcSuccess <==>
      && !RateLimited(s.lastChallengeTime, env.now)
      && env.boardId.Some?
      && Fits(cfg.challengeBufSize, RECORD_BITS, CHALLENGE_PAD)
      && Fits(cfg.authcodeBufSize, AUTHCODE_BITS, 0)
    ensures r.rc !in {EcSuccess, EcErrorTimeout} ==> r.rc == EcErrorUnknown
    ensures r.state.lastChallengeTime == if r.rc == EcErrorTimeout then s.lastChallengeTime else env.now
    ensures r.state.triesLeft == if r.rc == EcSuccess then MAX_AUTHCODE_TRIES else s.triesLeft
    ensures r.rc != EcSuccess ==> r.state.authcode == Zeros(cfg.authcodeBufSize)
    ensures r.rc == EcErrorTimeout ==> r.state == Wipe(cfg, s)
    ensures r.rc == EcErrorUnknown ==>
      r.state.challenge == (if env.boardId.Some? && Fits(cfg.challengeBufSize, RECORD_BITS, CHALLENGE_PAD)
                            then ChallengeBuffer(cfg, env) else Zeros(cfg.challengeBufSize))
    ensures r.rc == EcSuccess ==>
      r.state.challenge == ChallengeBuffer(cfg, env) && r.state.authcode == AuthcodeBuffer(cfg, env)
  {
    var cleared := Wipe(cfg, s);
    if RateLimited(s.lastChallengeTime, env.now) then
      Step(cleared, EcErrorTimeout)
    else
      var stamped := cleared.(lastChallengeTime := env.now);
      if env.boardId.None? then
        Step(stamped, EcErrorUnknown)
      else if !Fits(cfg.challengeBufSize, RECORD_BITS, CHALLENGE_PAD) then
        Step(stamped, EcErrorUnknown)
      else
        var encoded := stamped.(challenge := ChallengeBuffer(cfg, env));
        if !Fits(cfg.authcodeBufSize, AUTHCODE_BITS, 0) then
          Step(encoded, EcErrorUnknown)
        else
          Step(encoded.(authcode := AuthcodeBuffer(cfg, env), triesLeft := MAX_AUTHCODE_TRIES), EcSuccess)
  }

  /** A challenge is live when tries remain and an authcode has been computed. */
  predicate Armed(s: AuthState): (b: bool)
    requires |s.authcode| >= 1
    ensures b ==> s.triesLeft != 0
    ensures s.authcode == Zeros(|s.authcode|) ==> !b
  {
    s.triesLeft != 0 && s.authcode[0] != 0
  }

  /**
   * rma_try_authcode. Without tries or without an authcode it refuses and
   * changes nothing. Otherwise it compares exactly RMA_AUTHCODE_CHARS bytes:
   * a mismatch costs one try, a match uses up all of them; whenever no try
   * is left both buffers are wiped.
   */
  function Try(cfg: Config, s: AuthState, code: seq<byte>): (r: Step)
    requires ConfigOk(cfg) && WellSized(cfg, s) && |code| >= RMA_AUTHCODE_CHARS
    ensures WellSized(cfg, r.state)
    ensures !Armed(s) ==> r == Step(s, EcErrorAccessDenied)
    ensures Armed(s) ==> r.rc in {EcSuccess, EcErrorInval}
    ensures r.rc == EcSuccess <==>
      Armed(s) && code[..RMA_AUTHCODE_CHARS] == s.authcode[..RMA_AUTHCODE_CHARS]
    ensures r.rc == EcSuccess ==> r.state.triesLeft == 0
    ensures r.rc == EcErrorInval ==> r.state.triesLeft == s.triesLeft - 1
    ensures Armed(s) && r.state.triesLeft == 0 ==> r.state == Wipe(cfg, s).(triesLeft := 0)
    ensures r.state.triesLeft != 0 ==> r.state == s.(triesLeft := r.state.triesLeft)
  {
    if s.triesLeft == 0 || s.authcode[0] == 0 then
      Step(s, EcErrorAccessDenied)
    else
      var matched := s.authcode[..RMA_AUTHCODE_CHARS] == code[..RMA_AUTHCODE_CHARS];
      var counted := s.(triesLeft := if matched then 0 else s.triesLeft - 1);
      var after := if counted.triesLeft == 0 then Wipe(cfg, counted) else counted;
      Step(after, if matched then EcSuccess else EcErrorInval)
  }

  /** The vendor return codes; VendorRcEc carries an EC code passed through unchanged. */
  datatype VendorRc =
    | VendorRcSuccess
    | VendorRcBogusArgs
    | VendorRcResponseTooBig
    | VendorRcInternalError
    | VendorRcEc(code: EcCode)

  /** The outcome of one vendor command: new state, return code and response size. */
  datatype Reply = Reply(state: AuthState, rc: VendorRc, responseSize: nat)

  /**
   * get_challenge: a response buffer smaller than the challenge buffer is
   * refused before any state is touched; a creation error is passed through
   * with a one-byte response; a success answers with the challenge text,
   * all of the buffer but its terminator.
   */
  function GetChallengeReply(cfg: Config, s: AuthState, capacity: nat, env: Env): (r: Reply)
    requires ConfigOk(cfg) && WellSized(cfg, s) && EnvOk(env)
    ensures capacity < cfg.challengeBufSize ==> r == Reply(s, VendorRcResponseTooBig, 1)
    ensures r.rc == VendorRcResponseTooBig <==> capacity < cfg.challengeBufSize
    ensures capacity >= cfg.challengeBufSize && Create(cfg, s, env).rc != EcSuccess ==>
      r.rc == VendorRcEc(Create(cfg, s, env).rc)
    ensures capacity >= cfg.challengeBufSize ==>
      var step := Create(cfg, s, env);
      r.state == step.state && (r.rc == VendorRcSuccess <==> step.rc == EcSuccess)
    ensures r.rc == VendorRcSuccess ==> r.responseSize == cfg.challengeBufSize - 1
    ensures r.rc != VendorRcSuccess ==> r.responseSize == 1
  {
    if capacity < cfg.challengeBufSize then
      Reply(s, VendorRcResponseTooBig, 1)
    else
      var step := Create(cfg, s, env);
      if step.rc != EcSuccess then Reply(step.state, VendorRcEc(step.rc), 1)
      else Reply(step.state, VendorRcSuccess, cfg.challengeBufSize - 1)
  }

  /**
   * process_response: a payload whose length is not RMA_AUTHCODE_CHARS is
   * refused before any state is touched; otherwise the authcode is tried,
   * success answers with an empty response and any refusal is reported as
   * an internal error.
   */
  function ProcessResponseReply(cfg: Config, s: AuthState, input: seq<byte>): (r: Reply)
    requires ConfigOk(cfg) && WellSized(cfg, s)
    ensures |input| != RMA_AUTHCODE_CHARS ==> r == Reply(s, VendorRcBogusArgs, 1)
    ensures r.rc == VendorRcBogusArgs <==> |input| != RMA_AUTHCODE_CHARS
    ensures |input| == RMA_AUTHCODE_CHARS && Try(cfg, s, input).rc != EcSuccess ==>
      r.rc == VendorRcInternalError
    ensures |input| == RMA_AUTHCODE_CHARS ==> r.state == Try(cfg, s, input).state
    ensures r.rc == VendorRcSuccess <==>
      |input| == RMA_AUTHCODE_CHARS && Try(cfg, s, input).rc == EcSuccess
    ensures r.rc == VendorRcSuccess ==> r.responseSize == 0
    ensures r.rc != VendorRcSuccess ==> r.responseSize == 1 && r.rc in {VendorRcBogusArgs, VendorRcInternalError}
  {
    if |input| != RMA_AUTHCODE_CHARS then
      Reply(s, VendorRcBogusArgs, 1)
    else
      var step := Try(cfg, s, input);
      if step.rc == EcSuccess then Reply(step.state, VendorRcSuccess, 0)
      else Reply(step.state, VendorRcInternalError, 1)
  }

  /** rma_challenge_response: an empty payload asks for a challenge, any other is a response. */
  function CommandReply(cfg: Config, s: AuthState, input: seq<byte>, capacity: nat, env: Env): (r: Reply)
    requires ConfigOk(cfg) && WellSized(cfg, s) && EnvOk(env)
    ensures |input| == 0 ==> r == GetChallengeReply(cfg, s, capacity, env)
    ensures |input| != 0 ==> r == ProcessResponseReply(cfg, s, input)
  {
    if |input| == 0 then GetChallengeReply(cfg, s, capacity, env)
    else ProcessResponseReply(cfg, s, input)
  }

  /** The file-static state of rma_auth.c and the functions that work on it. */
  class Authorizer {
    const cfg: Config
    const challenge: array<byte>
    const authcode: array<byte>
    var triesLeft: int
    var lastChallengeTime: int

    ghost function State(): AuthState
      reads this, challenge, authcode
    {
      AuthState(challenge[..], authcode[..], triesLeft, lastChallengeTime)
    }

    ghost predicate Valid()
      reads this, challenge, authcode
    {
      && ConfigOk(cfg)
      && challenge != authcode
      && challenge.Length == cfg.challengeBufSize
      && authcode.Length == cfg.authcodeBufSize
      && Inv(cfg, State())
    }

    /** The state at boot. */
    constructor (config: Config)
      requires ConfigOk(config)
      ensures Valid() && fresh(challenge) && fresh(authcode)
      ensures cfg == config && State() == Initial(config)
    {
      cfg := config;
      challenge := new byte[config.challengeBufSize](_ => 0);
      authcode := new byte[config.authcodeBufSize](_ => 0);
      triesLeft := 0;
      lastChallengeTime := 0;
    }

    /** rma_create_challenge, filling the record in place before encoding it. */
    method CreateChallenge(env: Env) returns (rv: EcCode)
      requires Valid() && EnvOk(env)
      modifies this, challenge, authcode
      ensures Valid()
      ensures Step(State(), rv) == Create(cfg, old(State()), env)
    {
      Memset(challenge);
      Memset(authcode);

      var t := env.now;
      if RateLimited(lastChallengeTime, t) {
        return EcErrorTimeout;
      }
      lastChallengeTime := t;

      if env.boardId.None? {
        return EcErrorUnknown;
      }
      var c := FillRecord(cfg, env);

      var ok := Base32Encode(cfg.prims, challenge, c[..], RECORD_BITS, CHALLENGE_PAD);
      if !ok {
        return EcErrorUnknown;
      }

      var secret := cfg.prims.x25519(env.ephemeral.privateKey, cfg.serverPubKey);
      var digest := cfg.prims.hmacSha256(secret, c[1..]);
      ok := Base32Encode(cfg.prims, authcode, digest, AUTHCODE_BITS, 0);
      if !ok {
        return EcErrorUnknown;
      }

      triesLeft := MAX_AUTHCODE_TRIES;
      return EcSuccess;
    }

    /** rma_get_challenge: the current contents of the challenge buffer. */
    function GetChallengeText(): (text: seq<byte>)
      reads this, challenge, authcode
      requires Valid()
      ensures |text| == cfg.challengeBufSize
      ensures text == State().challenge
    {
      challenge[..]
    }

    /** rma_try_authcode. */
    method TryAuthcode(code: seq<byte>) returns (rv: EcCode)
      requires Valid() && |code| >= RMA_AUTHCODE_CHARS
      modifies this, challenge, authcode
      ensures Valid()
      ensures Step(State(), rv) == Try(cfg, old(State()), code)
    {
      rv := EcErrorInval;

      if triesLeft == 0 {
        return EcErrorAccessDenied;
      }
      if authcode[0] == 0 {
        return EcErrorAccessDenied;
      }

      var differ := SafeMemcmp(authcode[..], code, RMA_AUTHCODE_CHARS);
      if differ {
        triesLeft := triesLeft - 1;
      } else {
        rv := EcSuccess;
        triesLeft := 0;
      }

      if triesLeft == 0 {
        Memset(challenge);
        Memset(authcode);
      }
    }

    /**
     * get_challenge: on success the first challengeBufSize - 1 bytes of the
     * challenge buffer are copied to the front of the response buffer.
     */
    method GetChallenge(buf: array<byte>, bufSize: nat, env: Env) returns (rc: VendorRc, responseSize: nat)
      requires Valid() && EnvOk(env)
      requires buf != challenge && buf != authcode && bufSize <= buf.Length
      modifies this, challenge, authcode, buf
      ensures Valid()
      ensures Reply(State(), rc, responseSize) == GetChallengeReply(cfg, old(State()), bufSize, env)
      ensures rc == VendorRcSuccess ==>
        buf[..] == challenge[..responseSize] + old(buf[responseSize..])
      ensures rc != VendorRcSuccess ==> buf[..] == old(buf[..])
    {
      if bufSize < challenge.Length {
        return VendorRcResponseTooBig, 1;
      }

      ghost var step := Create(cfg, State(), env);
      var rv := CreateChallenge(env);
      assert State() == step.state && rv == step.rc;
      if rv != EcSuccess {
        return VendorRcEc(rv), 1;
      }

      responseSize := challenge.Length - 1;
      CopyChallengeOut(buf, responseSize);
      rc := VendorRcSuccess;
    }

    /** memcpy(buf, rma_get_challenge(), n): the response buffer starts with n challenge bytes. */
    method CopyChallengeOut(buf: array<byte>, n: nat)
      requires Valid() && buf != challenge && buf != authcode
      requires n <= challenge.Length && n <= buf.Length
      modifies buf
      ensures buf[..] == challenge[..n] + old(buf[n..])
    {
      ghost var before := buf[..];
      Memcpy(buf, 0, GetChallengeText()[..n]);
      assert forall k :: 0 <= k < buf.Length ==> buf[k] == (challenge[..n] + before[n..])[k];
    }

    /** process_response: the payload is the first inputSize bytes of buf. */
    method ProcessResponse(buf: array<byte>, inputSize: nat) returns (rc: VendorRc, responseSize: nat)
      requires Valid() && inputSize <= buf.Length
      requires buf != challenge && buf != authcode
      modifies this, challenge, authcode
      ensures Valid()
      ensures Reply(State(), rc, responseSize) == ProcessResponseReply(cfg, old(State()), buf[..inputSize])
    {
      responseSize := 1;

      if inputSize != RMA_AUTHCODE_CHARS {
        return VendorRcBogusArgs, responseSize;
      }

      var rv := TryAuthcode(buf[..inputSize]);
      if rv == EcSuccess {
        responseSize := 0;
        return VendorRcSuccess, responseSize;
      }

      return VendorRcInternalError, responseSize;
    }

    /** rma_challenge_response: the handler of VENDOR_CC_RMA_CHALLENGE_RESPONSE. */
    method ChallengeResponse(buf: array<byte>, inputSize: nat, responseSize: nat, env: Env)
      returns (rc: VendorRc, newResponseSize: nat)
      requires Valid() && EnvOk(env)
      requires buf != challenge && buf != authcode
      requires inputSize <= buf.Length && responseSize <= buf.Length
      modifies this, challenge, authcode, buf
      ensures Valid()
      ensures Reply(State(), rc, newResponseSize)
           == CommandReply(cfg, old(State()), old(buf[..inputSize]), responseSize, env)
      ensures inputSize == 0 && rc == VendorRcSuccess ==>
        buf[..] == challenge[..newResponseSize] + old(buf[newResponseSize..])
      ensures !(inputSize == 0 && rc == VendorRcSuccess) ==> buf[..] == old(buf[..])
    {
      if inputSize == 0 {
        rc, newResponseSize := GetChallenge(buf, responseSize, env);
        return;
      }
      rc, newResponseSize := ProcessResponse(buf, inputSize);
    }
  }

  /**
   * The local `struct rma_challenge` of rma_create_challenge, zeroed and
   * then filled field by field in place.
   */
  method FillRecord(cfg: Config, env: Env) returns (c: array<byte>)
    requires ConfigOk(cfg) && EnvOk(env) && env.boardId.Some?
    ensures fresh(c)
    ensures c[..] == Serialize(RecordOf(cfg, env))
  {
    c := new byte[RECORD_SIZE](_ => 0);
    c[0] := VkidByte(RMA_CHALLENGE_VERSION, cfg.serverKeyId);

    var bid := env.boardId.value;
    Memcpy(c, BOARD_ID_OFFSET, bid);

    var deviceId := env.deviceId;
    if |deviceId| <= DEVICE_ID_SIZE {
      Memcpy(c, DEVICE_ID_OFFSET, deviceId);
    } else {
      Memcpy(c, DEVICE_ID_OFFSET, HashBuffer(cfg.prims, DEVICE_ID_SIZE, deviceId));
    }
    ghost var field := DeviceIdField(cfg.prims, deviceId);
    assert forall k :: 0 <= k < DEVICE_ID_SIZE ==> c[DEVICE_ID_OFFSET + k] == field[k];

    Memcpy(c, PUB_KEY_OFFSET, env.ephemeral.publicKey);

    ghost var record := RecordOf(cfg, env);
    assert record.deviceId == field;
    forall k | 0 <= k < RECORD_SIZE
      ensures c[k] == Serialize(record)[k]
    {
      SerializedAt(record, k);
      if k >= DEVICE_ID_OFFSET {
        assert c[DEVICE_ID_OFFSET + (k - DEVICE_ID_OFFSET)] == field[k - DEVICE_ID_OFFSET];
      } else if k >= BOARD_ID_OFFSET {
        assert c[BOARD_ID_OFFSET + (k - BOARD_ID_OFFSET)] == bid[k - BOARD_ID_OFFSET];
      }
    }
    SerializedAt(record, 0);
    assert c[..] == Serialize(record);
  }
}
