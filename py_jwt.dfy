/** The Python token codec (`utils/jwt_utils.py`). A token is its claim set
    plus the key it was signed with; the wire encoding and the HMAC are not
    modelled. Times are whole seconds since the epoch (python-jose stores
    `exp` as an integer NumericDate). */
module PyJwt {
  import opened Common
  import opened PyExceptions

  /** A claim value: a string, or a NumericDate such as `exp`. */
  datatype ClaimValue = Text(s: string) | Time(t: int)

  type Claims = map<string, ClaimValue>

  /** An inbound token: either a well-formed signed token or text that
      does not parse as one. */
  datatype TokenString = Signed(claims: Claims, key: string) | Malformed(text: string)

  // Defaults from `config/auth_config.py`.
  const ACCESS_TOKEN_EXPIRE_MINUTES: int := 15
  const REFRESH_TOKEN_EXPIRE_DAYS: int := 7

  /** The lifetime used: `expires_delta` when it is truthy (a zero
      `timedelta` is falsy, so it also falls back to the default). */
  function Lifetime(expiresDelta: Option<int>, defaultSeconds: int): (secs: int)
    ensures expiresDelta.Some? && expiresDelta.value != 0 ==> secs == expiresDelta.value
    ensures expiresDelta.None? || expiresDelta.value == 0 ==> secs == defaultSeconds
  {
    if expiresDelta.Some? && expiresDelta.value != 0 then expiresDelta.value else defaultSeconds
  }

  /** `to_encode = data.copy(); to_encode.update({"exp": ..., "type": ...})`,
      then signed with the secret. */
  function Issue(data: Claims, tokenType: string, exp: int, secret: string): (t: TokenString)
    ensures t.Signed? && t.key == secret
    ensures t.claims.Keys == data.Keys + {"exp", "type"}
    ensures t.claims["exp"] == Time(exp) && t.claims["type"] == Text(tokenType)
    ensures forall k :: k in data && k != "exp" && k != "type" ==> t.claims[k] == data[k]
  {
    Signed(data["exp" := Time(exp)]["type" := Text(tokenType)], secret)
  }

  /** `create_access_token`. */
  function CreateAccessToken(data: Claims, expiresDelta: Option<int>, now: int, secret: string): (t: TokenString)
    ensures t.Signed? && t.key == secret
    ensures t.claims.Keys == data.Keys + {"exp", "type"}
    ensures t.claims["type"] == Text("access")
    ensures t.claims["exp"] == Time(now + Lifetime(expiresDelta, ACCESS_TOKEN_EXPIRE_MINUTES * 60))
    ensures forall k :: k in data && k != "exp" && k != "type" ==> t.claims[k] == data[k]
  {
    Issue(data, "access", now + Lifetime(expiresDelta, ACCESS_TOKEN_EXPIRE_MINUTES * 60), secret)
  }

  /** `create_refresh_token`. */
  function CreateRefreshToken(data: Claims, expiresDelta: Option<int>, now: int, secret: string): (t: TokenString)
    ensures t.Signed? && t.key == secret
    ensures t.claims.Keys == data.Keys + {"exp", "type"}
    ensures t.claims["type"] == Text("refresh")
    ensures t.claims["exp"] == Time(now + Lifetime(expiresDelta, REFRESH_TOKEN_EXPIRE_DAYS * 24 * 3600))
    ensures forall k :: k in data && k != "exp" && k != "type" ==> t.claims[k] == data[k]
  {
    Issue(data, "refresh", now + Lifetime(expiresDelta, REFRESH_TOKEN_EXPIRE_DAYS * 24 * 3600), secret)
  }

  /** Python's `int()` of a claim value: a NumericDate is already an
      integer; text is read when, stripped, it is an optional sign and
      decimal digits. */
  function IntOf(v: ClaimValue): (r: Option<int>)
    ensures v.Time? ==> r == Some(v.t)
    ensures v.Text? && IsIntegerText(PyStrip(v.s)) ==> r == Some(IntegerValue(PyStrip(v.s)))
  {
    match v
    case Time(t) => Some(t)
    case Text(s) =>
      var t := PyStrip(s);
      if IsIntegerText(t) then Some(IntegerValue(t))
      else if |t| > 1 && t[0] == '+' && IsIntegerText(t[1..]) && t[1] != '-' then Some(IntegerValue(t[1..]))
      else None
  }

  /** The registered claims python-jose's `jwt.decode` checks by default,
      with no audience, issuer, subject or access token given: `iat` and
      `nbf` must be integers, `nbf` not after now, `exp` an integer not
      before now, `sub` and `jti` strings, and neither `aud` nor
      `at_hash` may be present. */
  predicate ClaimsValid(claims: Claims, now: int) {
    && ("iat" in claims ==> IntOf(claims["iat"]).Some?)
    && ("nbf" in claims ==> IntOf(claims["nbf"]).Some? && IntOf(claims["nbf"]).value <= now)
    && ("exp" in claims ==> IntOf(claims["exp"]).Some? && now <= IntOf(claims["exp"]).value)
    && "aud" !in claims
    && ("sub" in claims ==> claims["sub"].Text?)
    && ("jti" in claims ==> claims["jti"].Text?)
    && "at_hash" !in claims
  }

  /** `decode_token`: the signature must match the secret; then the claim
      checks in python-jose's order (`iat`, `nbf`, `exp`, `aud`, `sub`,
      `jti`, `at_hash`), an expired `exp` being `ExpiredSignatureError`. */
  function DecodeToken(token: TokenString, secret: string, now: int): (r: Result<Claims, JwtError>)
    ensures r.Ok? <==> token.Signed? && token.key == secret && ClaimsValid(token.claims, now)
    ensures r.Ok? ==> r.value == token.claims
    ensures r == Err(Expired) ==> token.Signed? && "exp" in token.claims && IntOf(token.claims["exp"]).Some?
                                   && IntOf(token.claims["exp"]).value < now
  {
    match token
    case Malformed(_) => Err(MalformedToken)
    case Signed(claims, key) =>
      if key != secret then Err(BadSignature)
      else if "iat" in claims && IntOf(claims["iat"]).None? then Err(BadClaims)
      else if "nbf" in claims && IntOf(claims["nbf"]).None? then Err(BadClaims)
      else if "nbf" in claims && IntOf(claims["nbf"]).value > now then Err(BadClaims)
      else if "exp" in claims && IntOf(claims["exp"]).None? then Err(BadClaims)
      else if "exp" in claims && IntOf(claims["exp"]).value < now then Err(Expired)
      else if "aud" in claims then Err(BadClaims)
      else if "sub" in claims && !claims["sub"].Text? then Err(BadClaims)
      else if "jti" in claims && !claims["jti"].Text? then Err(BadClaims)
      else if "at_hash" in claims then Err(BadClaims)
      else Ok(claims)
  }

  /** The claims the library refuses: a subject that is not a string, any
      audience, a future `nbf`. */
  lemma RegisteredClaimsChecked(claims: Claims, secret: string, now: int, t: int)
    ensures "sub" in claims && claims["sub"].Time? ==> DecodeToken(Signed(claims, secret), secret, now).Err?
    ensures "aud" in claims ==> DecodeToken(Signed(claims, secret), secret, now).Err?
    ensures "nbf" in claims && claims["nbf"] == Time(t) && t > now ==>
              DecodeToken(Signed(claims, secret), secret, now) == Err(BadClaims)
  {
  }

  /** An `exp` sent as numeric text is read as its number. */
  lemma ExpTextRead(secret: string, now: int)
    ensures DecodeToken(Signed(map["exp" := Text("123")], secret), secret, now).Ok? <==> now <= 123
  {
    TextClaimRead();
  }

  lemma TextClaimRead()
    ensures IntOf(Text("123")) == Some(123)
  {
    StripDigits();
    DigitsRead();
  }

  lemma StripDigits()
    ensures PyStrip("123") == "123"
  {
    var s := "123";
    assert s[0] == '1' && s[|s| - 1] == '3';
    TrimUnpadded(s, PyIsSpace);
  }

  lemma DigitsRead()
    ensures IsIntegerText("123") && IntegerValue("123") == 123
  {
    assert "123"[..2] == "12" && "12"[..1] == "1" && "1"[..0] == "";
  }

  /** `verify_token_type`: `payload.get("type") == expected_type`. */
  predicate VerifyTokenType(payload: Claims, expected: string) {
    "type" in payload && payload["type"] == Text(expected)
  }

  lemma VerifyTokenTypeMissing(payload: Claims, expected: string)
    requires "type" !in payload
    ensures !VerifyTokenType(payload, expected)
  {
  }

  /** Issuing keeps the caller's registered claims and sets `exp`, so the
      issued claims pass exactly when the caller's other claims do and the
      expiry has not passed. */
  lemma IssuedClaimsValid(data: Claims, tokenType: string, exp: int, secret: string, now: int)
    ensures ClaimsValid(Issue(data, tokenType, exp, secret).claims, now) <==>
              ClaimsValid(data - {"exp"}, now) && now <= exp
  {
    var c := Issue(data, tokenType, exp, secret).claims;
    var d := data - {"exp"};
    assert forall k :: k != "exp" && k != "type" ==> (k in c <==> k in d) && (k in d ==> c[k] == d[k]);
  }

  /** Decoding a token this codec issued, with the same secret and no later
      than its expiry, gives back exactly the issued claim set, provided
      the caller's data holds no registered claim the library refuses. */
  lemma {:induction false} AccessTokenRoundTrip(data: Claims, expiresDelta: Option<int>, issuedAt: int, now: int, secret: string)
    requires ClaimsValid(data - {"exp"}, now)
    requires now <= issuedAt + Lifetime(expiresDelta, ACCESS_TOKEN_EXPIRE_MINUTES * 60)
    ensures var t := CreateAccessToken(data, expiresDelta, issuedAt, secret);
            DecodeToken(t, secret, now) == Ok(t.claims) && VerifyTokenType(t.claims, "access")
            && !VerifyTokenType(t.claims, "refresh")
  {
    IssuedClaimsValid(data, "access", issuedAt + Lifetime(expiresDelta, ACCESS_TOKEN_EXPIRE_MINUTES * 60), secret, now);
  }

  lemma {:induction false} RefreshTokenRoundTrip(data: Claims, expiresDelta: Option<int>, issuedAt: int, now: int, secret: string)
    requires ClaimsValid(data - {"exp"}, now)
    requires now <= issuedAt + Lifetime(expiresDelta, REFRESH_TOKEN_EXPIRE_DAYS * 24 * 3600)
    ensures var t := CreateRefreshToken(data, expiresDelta, issuedAt, secret);
            DecodeToken(t, secret, now) == Ok(t.claims) && VerifyTokenType(t.claims, "refresh")
            && !VerifyTokenType(t.claims, "access")
  {
    IssuedClaimsValid(data, "refresh", issuedAt + Lifetime(expiresDelta, REFRESH_TOKEN_EXPIRE_DAYS * 24 * 3600), secret, now);
  }

  /** A payload has at most one type: no token passes as both kinds. */
  lemma TokenTypesExclusive(payload: Claims, expected: string, other: string)
    requires expected != other
    ensures !(VerifyTokenType(payload, expected) && VerifyTokenType(payload, other))
  {
  }

  /** A token signed with another key, or decoded after its expiry, fails. */
  lemma DecodeRejects(data: Claims, tokenType: string, exp: int, key: string, secret: string, now: int)
    requires key != secret || exp < now
    ensures DecodeToken(Issue(data, tokenType, exp, key), secret, now).Err?
  {
  }

  /** The default lifetimes: fifteen minutes and seven days. */
  lemma DefaultLifetimes(data: Claims, now: int, secret: string)
    ensures CreateAccessToken(data, None, now, secret).claims["exp"] == Time(now + 900)
    ensures CreateRefreshToken(data, None, now, secret).claims["exp"] == Time(now + 604800)
    ensures CreateAccessToken(data, Some(0), now, secret).claims["exp"] == Time(now + 900)
  {
  }
}
