/**
 * What the authorizer promises over sequences of operations: the lockout
 * invariant survives any history, a challenge is redeemed at most once,
 * three wrong codes lock even the right one out, and the rate limit.
 */
module RmaProperties {
  import opened Bytes
  import opened Crypto
  import opened Challenge
  import opened RmaAuth

  /** One call into the core: a challenge request or an authcode attempt. */
  datatype Op = CreateOp(env: Env) | TryOp(code: seq<byte>)

  predicate OpOk(op: Op) {
    match op
    case CreateOp(env) => EnvOk(env)
    case TryOp(code) => |code| >= RMA_AUTHCODE_CHARS
  }

  function Apply(cfg: Config, s: AuthState, op: Op): Step
    requires ConfigOk(cfg) && WellSized(cfg, s) && OpOk(op)
  {
    match op
    case CreateOp(env) => Create(cfg, s, env)
    case TryOp(code) => Try(cfg, s, code)
  }

  /** Each operation keeps the invariant: with no tries left there is no authcode. */
  lemma {:induction false} ApplyKeepsInv(cfg: Config, s: AuthState, op: Op)
    requires ConfigOk(cfg) && Inv(cfg, s) && OpOk(op)
    ensures Inv(cfg, Apply(cfg, s, op).state)
  {
    match op
    case CreateOp(env) =>
      var r := Create(cfg, s, env);
      if r.rc == EcSuccess {
        assert r.state.triesLeft == MAX_AUTHCODE_TRIES;
      }
    case TryOp(code) =>
  }

  /** The state after a history of calls, starting from any state that satisfies the invariant. */
  function Run(cfg: Config, s: AuthState, ops: seq<Op>): (r: AuthState)
    requires ConfigOk(cfg) && Inv(cfg, s)
    requires forall i :: 0 <= i < |ops| ==> OpOk(ops[i])
    ensures Inv(cfg, r)
    decreases |ops|
  {
    if ops == [] then s
    else
      ApplyKeepsInv(cfg, s, ops[0]);
      Run(cfg, Apply(cfg, s, ops[0]).state, ops[1..])
  }

  /** Whatever happened since boot, no authcode is held while no tries are left. */
  lemma {:induction false} NoAuthcodeWithoutTries(cfg: Config, ops: seq<Op>)
    requires ConfigOk(cfg)
    requires forall i :: 0 <= i < |ops| ==> OpOk(ops[i])
    ensures var s := Run(cfg, Initial(cfg), ops);
      s.triesLeft == 0 ==> s.authcode == Zeros(cfg.authcodeBufSize) && !Armed(s)
  {
    var s := Run(cfg, Initial(cfg), ops);
    if s.triesLeft == 0 && cfg.authcodeBufSize > 0 {
      assert s.authcode[0] == 0;
    }
  }

  /** The results of a series of authcode attempts with no challenge request in between. */
  datatype Trace = Trace(state: AuthState, results: seq<EcCode>)

  function TryEach(cfg: Config, s: AuthState, codes: seq<seq<byte>>): (t: Trace)
    requires ConfigOk(cfg) && WellSized(cfg, s)
    requires forall i :: 0 <= i < |codes| ==> |codes[i]| >= RMA_AUTHCODE_CHARS
    ensures WellSized(cfg, t.state) && |t.results| == |codes|
    decreases |codes|
  {
    if codes == [] then Trace(s, [])
    else
      var first := Try(cfg, s, codes[0]);
      var rest := TryEach(cfg, first.state, codes[1..]);
      Trace(rest.state, [first.rc] + rest.results)
  }

  function Successes(results: seq<EcCode>): nat {
    if results == [] then 0
    else (if results[0] == EcSuccess then 1 else 0) + Successes(results[1..])
  }

  /** With no tries left every attempt is refused and nothing changes. */
  lemma {:induction false} LockedRefusesAll(cfg: Config, s: AuthState, codes: seq<seq<byte>>)
    requires ConfigOk(cfg) && WellSized(cfg, s) && s.triesLeft == 0
    requires forall i :: 0 <= i < |codes| ==> |codes[i]| >= RMA_AUTHCODE_CHARS
    ensures TryEach(cfg, s, codes).state == s
    ensures forall i :: 0 <= i < |codes| ==> TryEach(cfg, s, codes).results[i] == EcErrorAccessDenied
    ensures Successes(TryEach(cfg, s, codes).results) == 0
    decreases |codes|
  {
    if codes != [] {
      LockedRefusesAll(cfg, s, codes[1..]);
    }
  }

  /** Whatever codes are tried against one challenge, at most one attempt succeeds. */
  lemma {:induction false} AtMostOneSuccess(cfg: Config, s: AuthState, codes: seq<seq<byte>>)
    requires ConfigOk(cfg) && WellSized(cfg, s)
    requires forall i :: 0 <= i < |codes| ==> |codes[i]| >= RMA_AUTHCODE_CHARS
    ensures Successes(TryEach(cfg, s, codes).results) <= 1
    decreases |codes|
  {
    if codes != [] {
      var first := Try(cfg, s, codes[0]);
      if first.rc == EcSuccess {
        LockedRefusesAll(cfg, first.state, codes[1..]);
      } else {
        AtMostOneSuccess(cfg, first.state, codes[1..]);
      }
    }
  }

  /**
   * As many wrong codes as there are tries left use up every try, each
   * reported as a mismatch, and wipe both buffers.
   */
  lemma {:induction false} MismatchesExhaust(cfg: Config, s: AuthState, wrong: seq<seq<byte>>)
    requires ConfigOk(cfg) && WellSized(cfg, s) && Armed(s)
    requires |wrong| == s.triesLeft
    requires forall i :: 0 <= i < |wrong| ==>
      |wrong[i]| >= RMA_AUTHCODE_CHARS && wrong[i][..RMA_AUTHCODE_CHARS] != s.authcode[..RMA_AUTHCODE_CHARS]
    ensures var t := TryEach(cfg, s, wrong);
      && t.state == Wipe(cfg, s).(triesLeft := 0)
      && forall i :: 0 <= i < |wrong| ==> t.results[i] == EcErrorInval
    decreases |wrong|
  {
    var first := Try(cfg, s, wrong[0]);
    if first.state.triesLeft != 0 {
      MismatchesExhaust(cfg, first.state, wrong[1..]);
    }
  }

  /**
   * After a successful challenge, MAX_AUTHCODE_TRIES wrong codes leave both
   * buffers empty and the correct code is then refused.
   */
  lemma LockoutAfterMaxMismatches(cfg: Config, s: AuthState, env: Env, wrong: seq<seq<byte>>)
    requires ConfigOk(cfg) && WellSized(cfg, s) && EnvOk(env)
    requires Create(cfg, s, env).rc == EcSuccess
    requires |wrong| == MAX_AUTHCODE_TRIES
    requires forall i :: 0 <= i < |wrong| ==>
      |wrong[i]| >= RMA_AUTHCODE_CHARS && wrong[i][..RMA_AUTHCODE_CHARS] != ExpectedAuthcode(cfg, env)
    ensures var t := TryEach(cfg, Create(cfg, s, env).state, wrong);
      && t.state.challenge == Zeros(cfg.challengeBufSize)
      && t.state.authcode == Zeros(cfg.authcodeBufSize)
      && Try(cfg, t.state, ExpectedAuthcode(cfg, env)).rc == EcErrorAccessDenied
  {
    var created := Create(cfg, s, env).state;
    MismatchesExhaust(cfg, created, wrong);
  }

  /** The expected authcode, sent right after a successful challenge, succeeds once and only once. */
  lemma RedeemOnce(cfg: Config, s: AuthState, env: Env)
    requires ConfigOk(cfg) && WellSized(cfg, s) && EnvOk(env)
    requires Create(cfg, s, env).rc == EcSuccess
    ensures var first := Try(cfg, Create(cfg, s, env).state, ExpectedAuthcode(cfg, env));
      && first.rc == EcSuccess
      && first.state.authcode == Zeros(cfg.authcodeBufSize)
      && Try(cfg, first.state, ExpectedAuthcode(cfg, env)).rc == EcErrorAccessDenied
  {
  }

  /** Every failed challenge request leaves no authcode, so the next attempt is refused and changes nothing. */
  lemma FailedCreateRefusesTry(cfg: Config, s: AuthState, env: Env, code: seq<byte>)
    requires ConfigOk(cfg) && WellSized(cfg, s) && EnvOk(env) && |code| >= RMA_AUTHCODE_CHARS
    requires Create(cfg, s, env).rc != EcSuccess
    ensures var after := Create(cfg, s, env).state;
      Try(cfg, after, code) == Step(after, EcErrorAccessDenied)
  {
  }

  /** Since the clock and the last challenge time both start at zero, no challenge is made in the first ten seconds after boot. */
  lemma RefusedSoonAfterBoot(cfg: Config, env: Env)
    requires ConfigOk(cfg) && EnvOk(env) && env.now < CHALLENGE_INTERVAL
    ensures Create(cfg, Initial(cfg), env) == Step(Wipe(cfg, Initial(cfg)), EcErrorTimeout)
  {
  }

  /**
   * A request less than CHALLENGE_INTERVAL after an accepted one is refused
   * with the first timestamp kept, and, since the buffers are zeroed before
   * the rate check, the pending authcode is gone: it is refused afterwards.
   */
  lemma RateLimitedRequestRevokesPending(cfg: Config, s: AuthState, first: Env, second: Env)
    requires ConfigOk(cfg) && WellSized(cfg, s) && EnvOk(first) && EnvOk(second)
    requires Create(cfg, s, first).rc == EcSuccess
    requires first.now <= second.now < first.now + CHALLENGE_INTERVAL
    ensures var created := Create(cfg, s, first).state;
      var again := Create(cfg, created, second);
      && again.rc == EcErrorTimeout
      && again.state.lastChallengeTime == first.now
      && again.state.challenge == Zeros(cfg.challengeBufSize)
      && again.state.authcode == Zeros(cfg.authcodeBufSize)
      && Try(cfg, again.state, ExpectedAuthcode(cfg, first)).rc == EcErrorAccessDenied
  {
  }

  /**
   * Two accepted challenge requests: the authcode of the second succeeds,
   * and an authcode of the first that differs from it is refused.
   */
  lemma NewChallengeSupersedesOld(cfg: Config, s: AuthState, first: Env, second: Env)
    requires ConfigOk(cfg) && WellSized(cfg, s) && EnvOk(first) && EnvOk(second)
    requires Create(cfg, s, first).rc == EcSuccess
    requires Create(cfg, Create(cfg, s, first).state, second).rc == EcSuccess
    requires ExpectedAuthcode(cfg, first) != ExpectedAuthcode(cfg, second)
    ensures var latest := Create(cfg, Create(cfg, s, first).state, second).state;
      && Try(cfg, latest, ExpectedAuthcode(cfg, first)).rc == EcErrorInval
      && Try(cfg, latest, ExpectedAuthcode(cfg, second)).rc == EcSuccess
  {
  }

  /**
   * Assuming buffers sized exactly for the encoded text and its terminator,
   * the two encodings never fail: only the rate limit and the board id can
   * refuse a request.
   */
  lemma ExactBuffersNeverFailToEncode(cfg: Config, s: AuthState, env: Env)
    requires ConfigOk(cfg) && WellSized(cfg, s) && EnvOk(env)
    requires cfg.challengeBufSize == EncodedChars(RECORD_BITS, CHALLENGE_PAD) + 1
    requires cfg.authcodeBufSize == RMA_AUTHCODE_CHARS + 1
    ensures Create(cfg, s, env).rc == EcSuccess <==>
      !RateLimited(s.lastChallengeTime, env.now) && env.boardId.Some?
  {
  }

  /**
   * After a successful challenge request the authcode buffer starts with
   * the base32 rendering, without padding, of the leading 40 bits of the
   * HMAC keyed with X25519(ephemeral private key, server public key) over
   * the ephemeral public key, the board id and the device-id field.
   */
  lemma CreatedAuthcodeIsTruncatedHmac(cfg: Config, s: AuthState, env: Env)
    requires ConfigOk(cfg) && WellSized(cfg, s) && EnvOk(env)
    requires Create(cfg, s, env).rc == EcSuccess
    ensures env.boardId.Some?
    ensures Create(cfg, s, env).state.authcode[..RMA_AUTHCODE_CHARS] == cfg.prims.base32(
      cfg.prims.hmacSha256(
        cfg.prims.x25519(env.ephemeral.privateKey, cfg.serverPubKey),
        env.ephemeral.publicKey + env.boardId.value + DeviceIdField(cfg.prims, env.deviceId)),
      AUTHCODE_BITS, 0)
  {
  }

  /**
   * A successful challenge request answers with all of the challenge buffer
   * but its terminator: the encoded record, then the text's terminator and
   * the zeros that follow it.
   */
  lemma ChallengeReplyIsEncodedRecord(cfg: Config, s: AuthState, capacity: nat, env: Env)
    requires ConfigOk(cfg) && WellSized(cfg, s) && EnvOk(env)
    requires GetChallengeReply(cfg, s, capacity, env).rc == VendorRcSuccess
    ensures env.boardId.Some?
    ensures var r := GetChallengeReply(cfg, s, capacity, env);
      var n := EncodedChars(RECORD_BITS, CHALLENGE_PAD);
      && n <= r.responseSize
      && r.state.challenge[..n] == cfg.prims.base32(Serialize(RecordOf(cfg, env)), RECORD_BITS, CHALLENGE_PAD)
      && forall i :: n <= i < r.responseSize ==> r.state.challenge[i] == 0
  {
  }
}
