/** The Python user service's exception taxonomy (`utils/exceptions.py`) and
    the other exceptions its operations let escape. */
module PyExceptions {
  import opened Common

  /** `BaseCustomException` and its five subclasses. */
  datatype Kind = Base | Validation | Authentication | Authorization | NotFound | Conflict | Internal

  /** An application exception: its class, message and HTTP status code. */
  datatype AppError = AppError(kind: Kind, message: string, statusCode: int)

  /** The status code each subclass passes to the base constructor. */
  function StatusOf(k: Kind): int
    requires k != Base
  {
    match k
    case Validation => 400
    case Authentication => 401
    case Authorization => 403
    case NotFound => 404
    case Conflict => 409
    case Internal => 500
  }

  /** The message each subclass uses when none is given. */
  function DefaultMessage(k: Kind): string
    requires k != Base
  {
    match k
    case Validation => "Validation failed"
    case Authentication => "Authentication failed"
    case Authorization => "Authorization failed"
    case NotFound => "Resource not found"
    case Conflict => "Resource already exists"
    case Internal => "Internal server error"
  }

  /** `BaseCustomException(message, status_code=400)`. */
  function NewBase(message: string, statusCode: Option<int>): (e: AppError)
    ensures e.kind == Base && e.message == message
    ensures statusCode.None? ==> e.statusCode == 400
    ensures statusCode.Some? ==> e.statusCode == statusCode.value
  {
    AppError(Base, message, statusCode.GetOr(400))
  }

  /** A subclass constructor, with or without an explicit message. */
  function New(k: Kind, message: Option<string>): (e: AppError)
    requires k != Base
    ensures e.kind == k && e.statusCode == StatusOf(k)
    ensures e.message == message.GetOr(DefaultMessage(k))
  {
    AppError(k, message.GetOr(DefaultMessage(k)), StatusOf(k))
  }

  /** The subclass whose fixed status is `code`, if any. */
  function KindOfStatus(code: int): (k: Option<Kind>)
    ensures k.Some? ==> k.value != Base
  {
    if code == 400 then Some(Validation)
    else if code == 401 then Some(Authentication)
    else if code == 403 then Some(Authorization)
    else if code == 404 then Some(NotFound)
    else if code == 409 then Some(Conflict)
    else if code == 500 then Some(Internal)
    else None
  }

  /** Every subclass has its own status: the code identifies the class. */
  lemma StatusIdentifiesKind(k: Kind)
    requires k != Base
    ensures KindOfStatus(StatusOf(k)) == Some(k)
  {
  }

  /** Every code a subclass can carry is one of the six documented ones. */
  lemma StatusCodesAreFixed(k: Kind)
    requires k != Base
    ensures StatusOf(k) in {400, 401, 403, 404, 409, 500}
  {
  }

  /** The JWT library's failures (`jose.JWTError` and its subclasses). */
  datatype JwtError = MalformedToken | BadSignature | Expired | BadClaims

  /** What an operation of the Python service can raise: an application
      exception, a `JWTError`, a duplicate-key error from a unique index, or
      another library exception (`InvalidId`, `TypeError`, `KeyError`). */
  datatype Raised = App(error: AppError) | Jwt(jwt: JwtError) | DuplicateKey(field: string) | Other(name: string)

  function AuthFailure(message: string): Raised {
    App(New(Authentication, Some(message)))
  }

  function NotFoundFailure(message: string): Raised {
    App(New(NotFound, Some(message)))
  }

  function ConflictFailure(message: string): Raised {
    App(New(Conflict, Some(message)))
  }
}
