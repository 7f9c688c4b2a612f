/** Errors of the Node user service and its error-handling middleware
    (`utils/errorHandler.js`). A JavaScript error is a record of the
    properties the handler inspects. */
module NodeErrors {
  import opened Common

  /** `instanceof BaseError`, `name`, `statusCode`, `message`, `details`,
      the driver's `code` and the field names of `keyPattern`. */
  datatype JsError = JsError(
    baseError: bool,
    name: string,
    statusCode: int,
    message: string,
    details: Option<string>,
    code: Option<int>,
    keyPattern: seq<string>)

  /** `new NotFound(resourceName, resourceValue)`. */
  function NotFound(resourceName: string, resourceValue: string): (e: JsError)
    ensures e.baseError && e.statusCode == 404 && e.details == Some(resourceValue)
    ensures e.message == resourceName + " not found with value: " + resourceValue
  {
    JsError(true, "NotFound", 404, resourceName + " not found with value: " + resourceValue,
            Some(resourceValue), None, [])
  }

  /** `new Unauthorized(message = 'Unauthorized access')`. */
  function Unauthorized(message: Option<string>): (e: JsError)
    ensures e.baseError && e.name == "Unauthorized" && e.statusCode == 401
    ensures e.message == message.GetOr("Unauthorized access")
  {
    JsError(true, "Unauthorized", 401, message.GetOr("Unauthorized access"), None, None, [])
  }

  /** `new BadRequest(propertyName, details)`: a 400 `BaseError`. */
  function BadRequest(propertyName: string, details: string): (e: JsError)
    ensures e.baseError && e.name == "BadRequest" && e.statusCode == 400
    ensures e.message == details && e.details == Some(propertyName)
  {
    JsError(true, "BadRequest", 400, details, Some(propertyName), None, [])
  }

  /** The errors libraries throw: a Mongoose validation or cast error, a
      MongoDB duplicate-key error, and the two `jsonwebtoken` errors. */
  function ValidationError(message: string): JsError {
    JsError(false, "ValidationError", 500, message, None, None, [])
  }

  function CastError(value: string): JsError {
    JsError(false, "CastError", 500, "Cast to ObjectId failed for value \"" + value + "\"", None, None, [])
  }

  function DuplicateKey(field: string): JsError {
    JsError(false, "MongoServerError", 500, "E11000 duplicate key error", None, Some(11000), [field])
  }

  /** Mongoose's `ValidationError`, listing the failing paths' messages
      after `prefix`. */
  function ValidationFailed(prefix: string, messages: seq<string>): JsError {
    ValidationError(prefix + JoinText(messages, ", "))
  }

  /** `save()` of a loaded document whose record is gone. */
  function DocumentNotFound(id: string): JsError {
    JsError(false, "DocumentNotFoundError", 500, "No document found for query \"{ _id: '" + id + "' }\"",
            None, None, [])
  }

  function JsonWebTokenError(message: string): JsError {
    JsError(false, "JsonWebTokenError", 500, message, None, None, [])
  }

  function TokenExpiredError(): JsError {
    JsError(false, "TokenExpiredError", 500, "jwt expired", None, None, [])
  }

  function NotBeforeError(): JsError {
    JsError(false, "NotBeforeError", 500, "jwt not active", None, None, [])
  }

  /** The JSON error body: `success` is always false and `data` empty. */
  datatype ErrorResponse = ErrorResponse(status: int, message: string, error: Option<string>)

  /** `Object.keys(err.keyPattern)[0]`, which is `undefined` for an empty
      pattern. */
  function FirstKey(keyPattern: seq<string>): string {
    if keyPattern == [] then "undefined" else keyPattern[0]
  }

  /** `errorHandler`: the first matching rule decides. */
  function ErrorHandler(err: JsError): (r: ErrorResponse)
    ensures err.baseError ==> r == ErrorResponse(err.statusCode, err.message, err.details)
    ensures !err.baseError ==> r.error == Some(err.message)
    ensures !err.baseError && err.name == "ValidationError" ==> r.status == 400 && r.message == "Validation failed"
    ensures (!err.baseError && err.name != "ValidationError" && err.code == Some(11000)) ==>
              r.status == 409 && r.message == FirstKey(err.keyPattern) + " already exists"
    ensures (!err.baseError && err.name != "ValidationError" && err.code != Some(11000)) ==>
              r.status == (if err.name in {"JsonWebTokenError", "TokenExpiredError"} then 401 else 500)
              && r.message == (if err.name == "JsonWebTokenError" then "Invalid token"
                               else if err.name == "TokenExpiredError" then "Token expired"
                               else "Something went wrong")
    ensures r.status in {400, 401, 409, 500} || err.baseError
  {
    if err.baseError then ErrorResponse(err.statusCode, err.message, err.details)
    else if err.name == "ValidationError" then ErrorResponse(400, "Validation failed", Some(err.message))
    else if err.code == Some(11000) then
      ErrorResponse(409, FirstKey(err.keyPattern) + " already exists", Some(err.message))
    else if err.name == "JsonWebTokenError" then ErrorResponse(401, "Invalid token", Some(err.message))
    else if err.name == "TokenExpiredError" then ErrorResponse(401, "Token expired", Some(err.message))
    else ErrorResponse(500, "Something went wrong", Some(err.message))
  }

  /** The service's own errors pass through with their status; library
      errors get the fixed mapping. */
  lemma HandlerMapsLibraryErrors(field: string, message: string, value: string)
    ensures ErrorHandler(DuplicateKey(field)).status == 409
    ensures ErrorHandler(DuplicateKey(field)).message == field + " already exists"
    ensures ErrorHandler(ValidationError(message)) == ErrorResponse(400, "Validation failed", Some(message))
    ensures ErrorHandler(JsonWebTokenError(message)) == ErrorResponse(401, "Invalid token", Some(message))
    ensures ErrorHandler(TokenExpiredError()) == ErrorResponse(401, "Token expired", Some("jwt expired"))
    ensures ErrorHandler(NotBeforeError()) == ErrorResponse(500, "Something went wrong", Some("jwt not active"))
    ensures ErrorHandler(CastError(value)).status == 500
    ensures ErrorHandler(CastError(value)).message == "Something went wrong"
    ensures ErrorHandler(NotFound("User", value)).status == 404
    ensures ErrorHandler(Unauthorized(Some(message))) == ErrorResponse(401, message, None)
  {
  }

  /** The rule order matters: a `BaseError` is answered with its own status
      even when its name is that of a library error. */
  lemma BaseErrorCheckedFirst(statusCode: int, message: string)
    ensures ErrorHandler(JsError(true, "ValidationError", statusCode, message, None, Some(11000), ["email"])).status
            == statusCode
  {
  }
}
