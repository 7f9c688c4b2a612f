/** The Node token helpers (`utils/jwt.utils.js`) over `jsonwebtoken`. A
    token is its payload, its `iat`/`exp` (whole seconds) and the key it was
    signed with. Access and refresh tokens carry the same payload and differ
    only in key and lifetime. */
module NodeJwt {
  import opened Common
  import opened NodeErrors

  /** The payload both services put in a token. */
  datatype Payload = Payload(id: string, email: string, username: string, role: string)

  /** A registered time claim as it is in the token: absent, a number of
      seconds, or a value of another type. */
  datatype TimeClaim = Unset | At(seconds: int) | NonNumeric

  /** What `jwt.verify` returns: the payload plus `iat`, `exp` and `nbf`. */
  datatype Decoded = Decoded(payload: Payload, iat: TimeClaim, exp: TimeClaim, nbf: TimeClaim)

  datatype NodeToken = Signed(decoded: Decoded, key: string) | Garbage(text: string)

  /** `server.config.js`: secrets from the environment, lifetimes
      defaulting to '24h' and '7d'. */
  datatype JwtConfig = JwtConfig(accessSecret: string, accessLifetime: int,
                                 refreshSecret: string, refreshLifetime: int)

  const DefaultAccessLifetime: int := 24 * 3600
  const DefaultRefreshLifetime: int := 7 * 24 * 3600

  /** `jwt.sign(payload, key, { expiresIn })` at time `now`. */
  function Sign(payload: Payload, key: string, expiresIn: int, now: int): (t: NodeToken)
    ensures t.Signed? && t.key == key && t.decoded == Decoded(payload, At(now), At(now + expiresIn), Unset)
  {
    Signed(Decoded(payload, At(now), At(now + expiresIn), Unset), key)
  }

  /** The time checks `jwt.verify` makes: an `nbf` must be a number not
      after now, an `exp` a number after now; an absent claim is not
      checked. */
  predicate Current(d: Decoded, now: int) {
    && (d.nbf.Unset? || (d.nbf.At? && d.nbf.seconds <= now))
    && (d.exp.Unset? || (d.exp.At? && now < d.exp.seconds))
  }

  /** `jwt.verify(token, key)`: `JsonWebTokenError` for text that is not a
      token, a wrong key or a time claim that is not a number,
      `NotBeforeError` while `now < nbf`, then `TokenExpiredError` once
      `now >= exp`. */
  function Verify(token: NodeToken, key: string, now: int): (r: Result<Decoded, JsError>)
    ensures r.Ok? <==> token.Signed? && token.key == key && Current(token.decoded, now)
    ensures r.Ok? ==> r.value == token.decoded
    ensures r.Err? ==> r.error.name in {"JsonWebTokenError", "NotBeforeError", "TokenExpiredError"} && !r.error.baseError
    ensures r == Err(NotBeforeError()) <==>
              token.Signed? && token.key == key && token.decoded.nbf.At? && now < token.decoded.nbf.seconds
  {
    match token
    case Garbage(_) => Err(JsonWebTokenError("jwt malformed"))
    case Signed(decoded, k) =>
      if k != key then Err(JsonWebTokenError("invalid signature"))
      else if decoded.nbf.NonNumeric? then Err(JsonWebTokenError("invalid nbf value"))
      else if decoded.nbf.At? && now < decoded.nbf.seconds then Err(NotBeforeError())
      else if decoded.exp.NonNumeric? then Err(JsonWebTokenError("invalid exp value"))
      else if decoded.exp.At? && now >= decoded.exp.seconds then Err(TokenExpiredError())
      else Ok(decoded)
  }

  /** A fresh access token verifies, with its own payload, exactly when
      its lifetime is positive. */
  function GenerateAccessToken(payload: Payload, cfg: JwtConfig, now: int): (t: NodeToken)
    ensures t.Signed? && t.decoded.payload == payload
    ensures VerifyAccessToken(t, cfg, now) == if cfg.accessLifetime > 0 then Ok(t.decoded) else Err(TokenExpiredError())
  {
    Sign(payload, cfg.accessSecret, cfg.accessLifetime, now)
  }

  function GenerateRefreshToken(payload: Payload, cfg: JwtConfig, now: int): (t: NodeToken)
    ensures t.Signed? && t.decoded.payload == payload
    ensures VerifyRefreshToken(t, cfg, now) == if cfg.refreshLifetime > 0 then Ok(t.decoded) else Err(TokenExpiredError())
  {
    Sign(payload, cfg.refreshSecret, cfg.refreshLifetime, now)
  }

  function VerifyAccessToken(token: NodeToken, cfg: JwtConfig, now: int): (r: Result<Decoded, JsError>)
    ensures r.Ok? <==> token.Signed? && token.key == cfg.accessSecret && Current(token.decoded, now)
    ensures r.Ok? ==> r.value == token.decoded
  {
    Verify(token, cfg.accessSecret, now)
  }

  function VerifyRefreshToken(token: NodeToken, cfg: JwtConfig, now: int): (r: Result<Decoded, JsError>)
    ensures r.Ok? <==> token.Signed? && token.key == cfg.refreshSecret && Current(token.decoded, now)
    ensures r.Ok? ==> r.value == token.decoded
  {
    Verify(token, cfg.refreshSecret, now)
  }

  /** A token verifies with its own key until its lifetime has passed, and
      then fails as expired. */
  lemma SignVerifyRoundTrip(payload: Payload, cfg: JwtConfig, issuedAt: int, now: int)
    requires issuedAt <= now
    ensures now < issuedAt + cfg.accessLifetime ==>
              VerifyAccessToken(GenerateAccessToken(payload, cfg, issuedAt), cfg, now)
              == Ok(Decoded(payload, At(issuedAt), At(issuedAt + cfg.accessLifetime), Unset))
    ensures now >= issuedAt + cfg.accessLifetime ==>
              VerifyAccessToken(GenerateAccessToken(payload, cfg, issuedAt), cfg, now) == Err(TokenExpiredError())
    ensures now < issuedAt + cfg.refreshLifetime ==>
              VerifyRefreshToken(GenerateRefreshToken(payload, cfg, issuedAt), cfg, now).Ok?
  {
  }

  /** Nothing but the key tells the two kinds apart: with distinct secrets
      each is refused where the other is expected; with equal secrets a
      refresh token passes as an access token. */
  lemma KindsSeparatedOnlyBySecret(payload: Payload, cfg: JwtConfig, issuedAt: int, now: int)
    requires issuedAt <= now < issuedAt + cfg.refreshLifetime
    ensures cfg.accessSecret != cfg.refreshSecret ==>
              VerifyAccessToken(GenerateRefreshToken(payload, cfg, issuedAt), cfg, now)
              == Err(JsonWebTokenError("invalid signature"))
              && VerifyRefreshToken(GenerateAccessToken(payload, cfg, issuedAt), cfg, now).Err?
    ensures cfg.accessSecret == cfg.refreshSecret ==>
              VerifyAccessToken(GenerateRefreshToken(payload, cfg, issuedAt), cfg, now).Ok?
  {
  }
}
