/** The Node authentication middleware (`middleware/auth.middleware.js`):
    a `Bearer` access token in the `Authorization` header is verified and
    its payload attached to the request; every failure is answered with 401.
    Turning the header's text into a token is the parameter `read`. */
module NodeAuthMiddleware {
  import opened Common
  import opened NodeErrors
  import opened NodeJwt

  const BearerPrefix: string := "Bearer "
  const NoToken: string := "No token provided"

  /** The JSON answer of a refused request: `success: false`, `data: {}`. */
  datatype Refusal = Refusal(status: int, message: string)

  /** The token text after `Bearer `; a missing or empty header, or one
      with another scheme, is refused. */
  function ExtractToken(header: Option<string>): (r: Result<string, JsError>)
    ensures r.Ok? <==> header.Some? && HasPrefix(header.value, BearerPrefix)
    ensures r.Ok? ==> BearerPrefix + r.value == header.value
    ensures r.Err? ==> r.error == Unauthorized(Some(NoToken))
  {
    if header.None? || !HasPrefix(header.value, BearerPrefix) then Err(Unauthorized(Some(NoToken)))
    else
      var token := header.value[|BearerPrefix|..];
      assert BearerPrefix + token == header.value[..|BearerPrefix|] + header.value[|BearerPrefix|..];
      Ok(token)
  }

  /** The `catch` block: an `Unauthorized` keeps its message, the two
      `jsonwebtoken` errors get fixed ones, anything else is an
      authentication failure; the status is always 401. */
  function RefusalFor(err: JsError): (r: Refusal)
    ensures r.status == 401
    ensures err.baseError && err.name == "Unauthorized" ==> r.message == err.message
    ensures !(err.baseError && err.name == "Unauthorized") ==>
              r.message == (if err.name == "JsonWebTokenError" then "Invalid token"
                            else if err.name == "TokenExpiredError" then "Token expired"
                            else "Authentication failed")
  {
    if err.baseError && err.name == "Unauthorized" then Refusal(401, err.message)
    else if err.name == "JsonWebTokenError" then Refusal(401, "Invalid token")
    else if err.name == "TokenExpiredError" then Refusal(401, "Token expired")
    else Refusal(401, "Authentication failed")
  }

  /** What `authenticate` decides for a header at time `now`. */
  function Verdict(header: Option<string>, read: string -> NodeToken, cfg: JwtConfig, now: int)
    : (r: Result<Decoded, Refusal>)
    ensures r.Ok? <==> ExtractToken(header).Ok? && VerifyAccessToken(read(ExtractToken(header).value), cfg, now).Ok?
    ensures r.Ok? ==> r.value == read(ExtractToken(header).value).decoded
    ensures r.Err? ==> r.error.status == 401
  {
    var token := ExtractToken(header);
    if token.Err? then Err(RefusalFor(token.error))
    else
      var decoded := VerifyAccessToken(read(token.value), cfg, now);
      if decoded.Err? then Err(RefusalFor(decoded.error)) else Ok(decoded.value)
  }

  /** The catch-all message is sent exactly for a correctly signed access
      token that is not active yet (`NotBeforeError`); every other refusal
      names its cause. */
  lemma CatchAllOnlyBeforeNotBefore(header: Option<string>, read: string -> NodeToken, cfg: JwtConfig, now: int)
    ensures var r := Verdict(header, read, cfg, now);
            r.Err? ==> r.error.message in {NoToken, "Invalid token", "Token expired", "Authentication failed"}
    ensures var r := Verdict(header, read, cfg, now);
            (r.Err? && r.error.message == "Authentication failed") <==>
              && ExtractToken(header).Ok?
              && VerifyAccessToken(read(ExtractToken(header).value), cfg, now) == Err(NotBeforeError())
  {
    var token := ExtractToken(header);
    if token.Ok? {
      var decoded := VerifyAccessToken(read(token.value), cfg, now);
      if decoded.Err? {
        assert decoded.error.name in {"JsonWebTokenError", "NotBeforeError", "TokenExpiredError"} && !decoded.error.baseError;
        if decoded.error.name == "NotBeforeError" {
          assert decoded.error == NotBeforeError();
        }
      }
    }
  }

  /** An access token, sent with the `Bearer` scheme, is accepted until it
      expires and refused as expired afterwards; a refresh token signed
      with a different secret is refused as invalid. */
  lemma AccessTokensAccepted(payload: Payload, text: string, read: string -> NodeToken, cfg: JwtConfig,
                             issuedAt: int, now: int)
    requires read(text) == GenerateAccessToken(payload, cfg, issuedAt) && issuedAt <= now
    ensures now < issuedAt + cfg.accessLifetime ==>
              Verdict(Some(BearerPrefix + text), read, cfg, now) == Ok(Decoded(payload, At(issuedAt), At(issuedAt + cfg.accessLifetime), Unset))
    ensures now >= issuedAt + cfg.accessLifetime ==>
              Verdict(Some(BearerPrefix + text), read, cfg, now) == Err(Refusal(401, "Token expired"))
  {
    var header := BearerPrefix + text;
    assert header[..|BearerPrefix|] == BearerPrefix;
    assert header[|BearerPrefix|..] == text;
  }

  lemma RefreshTokensRefused(payload: Payload, text: string, read: string -> NodeToken, cfg: JwtConfig,
                             issuedAt: int, now: int)
    requires read(text) == GenerateRefreshToken(payload, cfg, issuedAt) && cfg.accessSecret != cfg.refreshSecret
    ensures Verdict(Some(BearerPrefix + text), read, cfg, now) == Err(Refusal(401, "Invalid token"))
  {
    var header := BearerPrefix + text;
    assert header[..|BearerPrefix|] == BearerPrefix;
    assert header[|BearerPrefix|..] == text;
  }

  /** The part of a request the middleware reads and writes. */
  class Request {
    var authorization: Option<string>
    var user: Option<Decoded>

    constructor (authorization: Option<string>)
      ensures this.authorization == authorization && user.None?
    {
      this.authorization := authorization;
      user := None;
    }
  }

  /** `authenticate(req, res, next)`: on success `req.user` is set and
      `next()` runs (no refusal); otherwise the refusal is sent and the
      request is left as it was. */
  method Authenticate(req: Request, read: string -> NodeToken, cfg: JwtConfig, now: int)
    returns (refusal: Option<Refusal>)
    modifies req
    ensures req.authorization == old(req.authorization)
    ensures var v := Verdict(old(req.authorization), read, cfg, now);
            && (v.Ok? ==> refusal.None? && req.user == Some(v.value))
            && (v.Err? ==> refusal == Some(v.error) && req.user == old(req.user))
  {
    var token := ExtractToken(req.authorization);
    if token.Err? {
      return Some(RefusalFor(token.error));
    }
    var decoded := VerifyAccessToken(read(token.value), cfg, now);
    if decoded.Err? {
      return Some(RefusalFor(decoded.error));
    }
    req.user := Some(decoded.value);
    refusal := None;
  }
}
