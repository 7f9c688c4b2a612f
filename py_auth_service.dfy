/** The Python authentication service (`services/auth_service.py`): a
    sequence of reads and writes against the user repository with early
    failures, and the token checks that guard the API. The clock, the new
    document id and the bcrypt salt are parameters. */
module PyAuthService {
  import opened Common
  import opened PyExceptions
  import opened PyUserModel
  import opened PyJwt
  import opened PyRepository
  import Bcrypt

  /** `BCRYPT_ROUNDS` of `config/auth_config.py`. */
  const BCRYPT_ROUNDS: nat := 12

  const InvalidCredentials := "Invalid email or password"
  const Deactivated := "Account is deactivated"

  /** `TokenResponse(access_token, refresh_token)`, whose `token_type`
      defaults to "bearer". */
  datatype TokenPair = TokenPair(accessToken: TokenString, refreshToken: TokenString, tokenType: string)

  /** Claims of the access token: subject id and role. */
  function AccessClaims(u: UserDoc): (c: Claims)
    ensures c.Keys == {"sub", "role"} && c["sub"] == Text(u.id) && c["role"] == Text(RoleValue(u.role))
  {
    map["sub" := Text(u.id), "role" := Text(RoleValue(u.role))]
  }

  /** Claims of the refresh token: the subject id only. */
  function RefreshClaims(u: UserDoc): (c: Claims)
    ensures c.Keys == {"sub"} && c["sub"] == Text(u.id)
  {
    map["sub" := Text(u.id)]
  }

  /** The pair of tokens issued for a user at `now`, with default lifetimes. */
  function IssueTokens(u: UserDoc, now: int, secret: string): (t: TokenPair)
    ensures t.accessToken.Signed? && t.refreshToken.Signed?
    ensures t.accessToken.claims.Keys == {"sub", "role", "exp", "type"}
    ensures t.refreshToken.claims.Keys == {"sub", "exp", "type"}
    ensures t.accessToken.claims["sub"] == t.refreshToken.claims["sub"] == Text(u.id)
    ensures t.accessToken.claims["role"] == Text(RoleValue(u.role)) && t.tokenType == "bearer"
  {
    TokenPair(CreateAccessToken(AccessClaims(u), None, now, secret),
              CreateRefreshToken(RefreshClaims(u), None, now, secret), "bearer")
  }

  /** The document registration stores: role "user" and a bcrypt hash of
      the password, plus the repository defaults. */
  function RegisteredDoc(userData: UserCreate, now: int, oid: string, salt: string): (d: UserDoc)
    ensures d.id == oid && d.email == userData.email && d.username == userData.username
    ensures d.role == User && d.isActive == Some(true) && d.passwordHash.cost == BCRYPT_ROUNDS
    ensures Bcrypt.Compare(userData.password, d.passwordHash)
  {
    Bcrypt.CompareOwnHash(userData.password, BCRYPT_ROUNDS, salt);
    NewDoc(NewUser(userData.email, userData.username, userData.fullName,
                   Bcrypt.HashPassword(userData.password, BCRYPT_ROUNDS, salt), Some(User)), now, oid)
  }

  /** The checks of `login_user` on the record found by email, in order:
      found, password, active. */
  function LoginCheck(found: Option<UserDoc>, password: string): (r: Result<UserDoc, Raised>)
    ensures r.Ok? <==> found.Some? && Bcrypt.Compare(password, found.value.passwordHash) && IsActive(found.value)
    ensures r.Ok? ==> r.value == found.value
    ensures r.Err? ==> r.error == AuthFailure(InvalidCredentials) || r.error == AuthFailure(Deactivated)
    ensures r == Err(AuthFailure(Deactivated)) ==> found.Some? && Bcrypt.Compare(password, found.value.passwordHash)
  {
    if found.None? then Err(AuthFailure(InvalidCredentials))
    else if !Bcrypt.Compare(password, found.value.passwordHash) then Err(AuthFailure(InvalidCredentials))
    else if !IsActive(found.value) then Err(AuthFailure(Deactivated))
    else Ok(found.value)
  }

  /** An unknown email and a wrong password are indistinguishable. */
  lemma LoginFailuresIndistinguishable(u: UserDoc, password: string)
    requires !Bcrypt.Compare(password, u.passwordHash)
    ensures LoginCheck(None, password) == LoginCheck(Some(u), password) == Err(AuthFailure(InvalidCredentials))
  {
  }

  /** A freshly registered user can log in with the registration password,
      and with another password exactly when it agrees with that one on the
      first 72 characters. */
  lemma RegisteredUserLogsIn(userData: UserCreate, now: int, oid: string, salt: string, other: string)
    ensures var d := RegisteredDoc(userData, now, oid, salt);
            LoginCheck(Some(d), userData.password) == Ok(d)
            && LoginCheck(Some(d), other)
               == if Bcrypt.Significant(other) == Bcrypt.Significant(userData.password) then Ok(d)
                  else Err(AuthFailure(InvalidCredentials))
  {
    Bcrypt.CompareOnlyOwnHash(userData.password, other, BCRYPT_ROUNDS, salt);
  }

  /** After a password change the new password logs in, and the old one
      still does exactly when it agrees with the new one on the first 72
      characters. */
  lemma ChangedPasswordTakesEffect(d: UserDoc, oldPassword: string, newPassword: string, salt: string, now: int)
    requires IsActive(d)
    ensures var e := d.(passwordHash := Bcrypt.HashPassword(newPassword, BCRYPT_ROUNDS, salt), updatedAt := now);
            LoginCheck(Some(e), newPassword) == Ok(e)
            && LoginCheck(Some(e), oldPassword)
               == if Bcrypt.Significant(oldPassword) == Bcrypt.Significant(newPassword) then Ok(e)
                  else Err(AuthFailure(InvalidCredentials))
  {
    Bcrypt.CompareOwnHash(newPassword, BCRYPT_ROUNDS, salt);
    Bcrypt.CompareOnlyOwnHash(newPassword, oldPassword, BCRYPT_ROUNDS, salt);
  }

  /** Python truthiness of a claim value: `None`, `""` and `0` are falsy. */
  predicate Truthy(v: Option<ClaimValue>) {
    match v
    case None => false
    case Some(Text(s)) => s != ""
    case Some(Time(t)) => t != 0
  }

  class AuthService {
    const repo: UserRepository
    const secret: string

    constructor (repo: UserRepository, secret: string)
      ensures this.repo == repo && this.secret == secret
    {
      this.repo := repo;
      this.secret := secret;
    }

    /** The common part of `refresh_access_token` and
        `verify_token_and_get_user`: decode, check the type, resolve the
        subject and require it to be active. Library failures of the decoder
        become `AuthenticationException(jwtMessage)`; the others escape. */
    function Authenticate(token: TokenString, expected: string, jwtMessage: string, now: int): (r: Result<UserDoc, Raised>)
      reads repo
      requires repo.Valid()
      ensures DecodeToken(token, secret, now).Err? ==> r == Err(AuthFailure(jwtMessage))
      ensures token.Signed? && "sub" in token.claims && token.claims["sub"].Time? ==> r == Err(AuthFailure(jwtMessage))
      ensures r.Ok? <==>
                (&& DecodeToken(token, secret, now).Ok?
                 && VerifyTokenType(token.claims, expected)
                 && "sub" in token.claims && token.claims["sub"].Text?
                 && IsObjectIdText(token.claims["sub"].s)
                 && Lower(token.claims["sub"].s) in repo.docs
                 && IsActive(repo.docs[Lower(token.claims["sub"].s)]))
      ensures r.Ok? ==> r.value == repo.docs[Lower(token.claims["sub"].s)]
    {
      var decoded := DecodeToken(token, secret, now);
      if decoded.Err? then Err(AuthFailure(jwtMessage))
      else
        var payload := decoded.value;
        var sub := if "sub" in payload then Some(payload["sub"]) else None;
        if !VerifyTokenType(payload, expected) then Err(AuthFailure("Invalid token type"))
        else if !Truthy(sub) then Err(AuthFailure("Invalid token payload"))
        else
          var found := repo.GetUserById(sub.value.s);
          if found.Err? then Err(found.error)
          else if found.value.None? then Err(AuthFailure("User not found"))
          else if !IsActive(found.value.value) then Err(AuthFailure(Deactivated))
          else Ok(found.value.value)
    }

    /** `refresh_access_token`: a new access token for the refresh token's
        subject. */
    function RefreshAccessToken(refreshToken: TokenString, now: int): (r: Result<TokenString, Raised>)
      reads repo
      requires repo.Valid()
      ensures DecodeToken(refreshToken, secret, now).Err? ==> r == Err(AuthFailure("Invalid or expired refresh token"))
      ensures r.Ok? <==> Authenticate(refreshToken, "refresh", "Invalid or expired refresh token", now).Ok?
      ensures r.Ok? ==>
                var u := Authenticate(refreshToken, "refresh", "Invalid or expired refresh token", now).value;
                r.value.Signed? && r.value.claims.Keys == {"sub", "role", "exp", "type"}
                && VerifyTokenType(r.value.claims, "access") && r.value.claims["sub"] == Text(u.id)
                && r.value.claims["role"] == Text(RoleValue(u.role))
    {
      var user := Authenticate(refreshToken, "refresh", "Invalid or expired refresh token", now);
      if user.Err? then Err(user.error)
      else Ok(CreateAccessToken(AccessClaims(user.value), None, now, secret))
    }

    /** `verify_token_and_get_user`. */
    function VerifyTokenAndGetUser(token: TokenString, now: int): (r: Result<UserDoc, Raised>)
      reads repo
      requires repo.Valid()
      ensures DecodeToken(token, secret, now).Err? ==> r == Err(AuthFailure("Invalid or expired token"))
      ensures r.Ok? ==> token.Signed? && VerifyTokenType(token.claims, "access") && r.value.id in repo.docs
                        && repo.docs[r.value.id] == r.value && IsActive(r.value)
    {
      Authenticate(token, "access", "Invalid or expired token", now)
    }

    /** `register_user`: email conflict, then username conflict, then hash,
        store and issue both tokens. A conflict stores nothing. */
    method RegisterUser(userData: UserCreate, now: int, oid: string, salt: string) returns (r: Result<TokenPair, Raised>)
      requires repo.Valid() && IsCanonicalObjectId(oid)
      modifies repo
      ensures repo.Valid()
      ensures EmailTaken(old(repo.docs), userData.email) ==>
                r == Err(ConflictFailure("Email already registered"))
      ensures !EmailTaken(old(repo.docs), userData.email) && UsernameTaken(old(repo.docs), userData.username) ==>
                r == Err(ConflictFailure("Username already taken"))
      ensures (!EmailTaken(old(repo.docs), userData.email) && !UsernameTaken(old(repo.docs), userData.username)
               && oid in old(repo.docs)) ==> r == Err(DuplicateKey("_id"))
      ensures r.Err? ==> repo.docs == old(repo.docs) && repo.order == old(repo.order)
      ensures (!EmailTaken(old(repo.docs), userData.email) && !UsernameTaken(old(repo.docs), userData.username)
               && oid !in old(repo.docs)) ==>
                var d := RegisteredDoc(userData, now, oid, salt);
                r == Ok(IssueTokens(d, now, secret))
                && repo.docs == old(repo.docs)[oid := d] && repo.order == old(repo.order) + [oid]
    {
      var existing := repo.GetUserByEmail(userData.email);
      if existing.Some? {
        return Err(ConflictFailure("Email already registered"));
      }
      existing := repo.GetUserByUsername(userData.username);
      if existing.Some? {
        return Err(ConflictFailure("Username already taken"));
      }
      var passwordHash := Bcrypt.HashPassword(userData.password, BCRYPT_ROUNDS, salt);
      var userDict := NewUser(userData.email, userData.username, userData.fullName, passwordHash, Some(User));
      var created := repo.CreateUser(userDict, now, oid);
      if created.Err? {
        return Err(created.error);
      }
      r := Ok(IssueTokens(created.value, now, secret));
    }

    /** `login_user`: the checks of `LoginCheck` on the record with that
        email; on success touches `last_login` of exactly that record and
        issues tokens built from it. */
    method LoginUser(email: string, password: string, now: int) returns (r: Result<TokenPair, Raised>)
      requires repo.Valid()
      modifies repo
      ensures repo.Valid() && repo.order == old(repo.order)
      ensures var check := LoginCheck(old(repo.GetUserByEmail(email)), password);
              && (check.Err? ==> r == Err(check.error) && repo.docs == old(repo.docs))
              && (check.Ok? ==>
                    r == Ok(IssueTokens(check.value, now, secret))
                    && repo.docs == old(repo.docs)[check.value.id := check.value.(lastLogin := Some(now))])
    {
      var user := repo.GetUserByEmail(email);
      var check := LoginCheck(user, password);
      if check.Err? {
        return Err(check.error);
      }
      var u := check.value;
      LowerIdempotent(u.id);
      var _ := repo.UpdateLastLogin(u.id, now);
      r := Ok(IssueTokens(u, now, secret));
    }

    /** `change_password`: missing user, then wrong old password; otherwise
        only `password_hash` (and `updated_at`) of that record change. */
    method ChangePassword(userId: string, oldPassword: string, newPassword: string, now: int, salt: string)
      returns (r: Result<bool, Raised>)
      requires repo.Valid()
      modifies repo
      ensures repo.Valid() && repo.order == old(repo.order)
      ensures !IsObjectIdText(userId) ==> r == Err(Other("InvalidId"))
      ensures IsObjectIdText(userId) && Lower(userId) !in old(repo.docs) ==> r == Err(NotFoundFailure("User not found"))
      ensures (IsObjectIdText(userId) && Lower(userId) in old(repo.docs)
               && !Bcrypt.Compare(oldPassword, old(repo.docs)[Lower(userId)].passwordHash)) ==>
                r == Err(AuthFailure("Current password is incorrect"))
      ensures r.Err? ==> repo.docs == old(repo.docs)
      ensures (IsObjectIdText(userId) && Lower(userId) in old(repo.docs)
               && Bcrypt.Compare(oldPassword, old(repo.docs)[Lower(userId)].passwordHash)) ==>
                var id := Lower(userId);
                r == Ok(true)
                && repo.docs == old(repo.docs)[id := old(repo.docs)[id].(
                                  passwordHash := Bcrypt.HashPassword(newPassword, BCRYPT_ROUNDS, salt),
                                  updatedAt := now)]
    {
      var found := repo.GetUserById(userId);
      if found.Err? {
        return Err(found.error);
      }
      if found.value.None? {
        return Err(NotFoundFailure("User not found"));
      }
      var user := found.value.value;
      if !Bcrypt.Compare(oldPassword, user.passwordHash) {
        return Err(AuthFailure("Current password is incorrect"));
      }
      var newPasswordHash := Bcrypt.HashPassword(newPassword, BCRYPT_ROUNDS, salt);
      var patch := Patch(None, None, None, Some(newPasswordHash));
      ghost var e := ApplyPatch(user, patch, now);
      SameKeysDoNotCollide(repo.docs, repo.order, e);
      var _ := repo.UpdateUser(userId, patch, now);
      r := Ok(true);
    }

    /** Tokens issued for a stored active user authenticate that user, each
        only where its own type is expected, until they expire. */
    lemma IssuedTokensAuthenticate(id: string, issuedAt: int, now: int)
      requires repo.Valid() && id in repo.docs && IsActive(repo.docs[id])
      requires issuedAt <= now <= issuedAt + ACCESS_TOKEN_EXPIRE_MINUTES * 60
      ensures var t := IssueTokens(repo.docs[id], issuedAt, secret);
              && VerifyTokenAndGetUser(t.accessToken, now) == Ok(repo.docs[id])
              && RefreshAccessToken(t.refreshToken, now).Ok?
              && VerifyTokenAndGetUser(t.refreshToken, now) == Err(AuthFailure("Invalid token type"))
              && RefreshAccessToken(t.accessToken, now) == Err(AuthFailure("Invalid token type"))
    {
      var u := repo.docs[id];
      LowerIdempotent(id);
      AccessTokenRoundTrip(AccessClaims(u), None, issuedAt, now, secret);
      RefreshTokenRoundTrip(RefreshClaims(u), None, issuedAt, now, secret);
    }

    /** A deactivated user is refused by every token check, whatever token
        is presented. */
    lemma DeactivatedUserRejected(token: TokenString, expected: string, jwtMessage: string, now: int)
      requires repo.Valid() && token.Signed? && "sub" in token.claims && token.claims["sub"].Text?
      requires var id := Lower(token.claims["sub"].s); id in repo.docs && !IsActive(repo.docs[id])
      ensures Authenticate(token, expected, jwtMessage, now).Err?
    {
    }
  }
}
