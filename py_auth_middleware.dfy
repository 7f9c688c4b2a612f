/** The FastAPI guards of `middleware/auth_middleware.py`. Each depends on
    the previous one: a failing dependency's exception propagates, and on
    success the guard hands on the user record unchanged. Extracting the
    bearer credentials from the `Authorization` header is done by FastAPI's
    `HTTPBearer` and is not modelled: the guards start from the token. */
module PyAuthMiddleware {
  import opened Common
  import opened PyExceptions
  import opened PyUserModel
  import opened PyJwt
  import opened PyRepository
  import opened PyAuthService

  /** `HTTPException(status_code, detail)`; `challenge` is the
      `WWW-Authenticate: Bearer` header. */
  datatype HttpException = HttpException(statusCode: int, detail: string, challenge: bool)

  const CouldNotValidate := "Could not validate credentials"

  /** The exception handlers of `get_current_user`. */
  function Unauthorized(e: Raised): (h: HttpException)
    ensures h.statusCode == 401 && h.challenge
    ensures e.App? && e.error.kind == Authentication ==> h.detail == e.error.message
    ensures !(e.App? && e.error.kind == Authentication) ==> h.detail == CouldNotValidate
  {
    if e.App? && e.error.kind == Authentication then HttpException(401, e.error.message, true)
    else HttpException(401, CouldNotValidate, true)
  }

  /** `get_current_user`. */
  function GetCurrentUser(auth: AuthService, token: TokenString, now: int): (r: Result<UserDoc, HttpException>)
    reads auth.repo
    requires auth.repo.Valid()
    ensures r.Err? ==> r.error.statusCode == 401
    ensures var v := auth.VerifyTokenAndGetUser(token, now);
            && (v.Ok? ==> r == Ok(v.value))
            && (v.Err? ==> r == Err(Unauthorized(v.error)))
  {
    var v := auth.VerifyTokenAndGetUser(token, now);
    if v.Ok? then Ok(v.value) else Err(Unauthorized(v.error))
  }

  /** The body of `get_current_active_user`, applied to the outcome of its
      dependency. */
  function ActiveGuard(current: Result<UserDoc, HttpException>): (r: Result<UserDoc, HttpException>)
    ensures current.Err? ==> r == current
    ensures current.Ok? && IsActive(current.value) ==> r == current
    ensures current.Ok? && !IsActive(current.value) ==> r == Err(HttpException(403, "Inactive user", false))
  {
    if current.Err? then current
    else if !IsActive(current.value) then Err(HttpException(403, "Inactive user", false))
    else current
  }

  /** The body of `require_admin`: the role must be exactly "admin". */
  function AdminGuard(current: Result<UserDoc, HttpException>): (r: Result<UserDoc, HttpException>)
    ensures current.Err? ==> r == current
    ensures current.Ok? && current.value.role == Admin ==> r == current
    ensures current.Ok? && current.value.role != Admin ==> r == Err(HttpException(403, "Admin access required", false))
  {
    if current.Err? then current
    else if RoleValue(current.value.role) != "admin" then Err(HttpException(403, "Admin access required", false))
    else current
  }

  function GetCurrentActiveUser(auth: AuthService, token: TokenString, now: int): (r: Result<UserDoc, HttpException>)
    reads auth.repo
    requires auth.repo.Valid()
    ensures r.Ok? ==> IsActive(r.value) && GetCurrentUser(auth, token, now) == r
  {
    ActiveGuard(GetCurrentUser(auth, token, now))
  }

  function RequireAdmin(auth: AuthService, token: TokenString, now: int): (r: Result<UserDoc, HttpException>)
    reads auth.repo
    requires auth.repo.Valid()
    ensures r.Ok? ==> IsActive(r.value) && r.value.role == Admin && GetCurrentUser(auth, token, now) == r
  {
    AdminGuard(GetCurrentActiveUser(auth, token, now))
  }

  /** The active check comes first: an inactive admin is refused as
      inactive, not let through on the role. */
  lemma InactiveAdminRejectedAsInactive(u: UserDoc)
    requires u.role == Admin && !IsActive(u)
    ensures AdminGuard(ActiveGuard(Ok(u))) == Err(HttpException(403, "Inactive user", false))
  {
  }

  /** Through the real dependency chain the 403 "Inactive user" answer is
      never produced: the token check already refuses deactivated accounts
      with 401 "Account is deactivated". */
  lemma InactiveUserSeesUnauthorized(auth: AuthService, token: TokenString, now: int)
    requires auth.repo.Valid()
    ensures GetCurrentActiveUser(auth, token, now) != Err(HttpException(403, "Inactive user", false))
    ensures RequireAdmin(auth, token, now) != Err(HttpException(403, "Inactive user", false))
  {
  }
}
