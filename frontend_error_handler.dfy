/** The frontend's error normalisation (`utils/errorHandler.ts`): an Axios
    error, read as a JavaScript value, becomes a message, optional
    details and a status code; a status code becomes a fixed user-facing
    sentence. `JSON.stringify` is the parameter `stringify`. */
module FrontendErrorHandler {
  import opened Common

  /** `{ message, details?, statusCode? }`, an absent property being
      `undefined`. */
  datatype ApiError = ApiError(message: JsValue, details: JsValue, statusCode: JsValue)

  const DefaultMessage: string := "An error occurred"
  const NetworkMessage: string := "Network error - please check your connection"
  const UnexpectedMessage: string := "An unexpected error occurred"
  const StatusPrefix: string := "Request failed with status "

  /** A numeric status prints as its decimal text. */
  lemma StatusTextReadsBack(status: int)
    ensures IsIntegerText(JsString(Num(status))) && IntegerValue(JsString(Num(status))) == status
  {
    var t := JsString(Num(status));
    if status < 0 {
      NatTextValue(-status);
      assert t[1..] == NatText(-status);
    } else {
      NatTextValue(status);
    }
  }

  /** `parseApiError(error)`; reading a property of `null` or `undefined`
      throws, which is `None`. */
  function ParseApiError(error: JsValue, stringify: JsValue -> string): (r: Option<ApiError>)
    ensures r.None? <==> error == Undefined || error == Null
    ensures r.Some? && JsTruthy(Get(error, "response")) ==> r.value.statusCode == Get(Get(error, "response"), "status")
    ensures r.Some? && !JsTruthy(Get(error, "response")) && JsTruthy(Get(error, "request")) ==>
              r.value == ApiError(Str(NetworkMessage), Undefined, Num(0))
    ensures r.Some? && !JsTruthy(Get(error, "response")) && !JsTruthy(Get(error, "request")) ==>
              r.value == ApiError(if JsTruthy(Get(error, "message")) then Get(error, "message") else Str(UnexpectedMessage),
                                  Undefined, Num(500))
  {
    if error == Undefined || error == Null then None
    else
      var response := Get(error, "response");
      if JsTruthy(response) then Some(FromResponse(Get(response, "status"), Get(response, "data"), stringify))
      else if JsTruthy(Get(error, "request")) then Some(ApiError(Str(NetworkMessage), Undefined, Num(0)))
      else
        var message := Get(error, "message");
        Some(ApiError(if JsTruthy(message) then message else Str(UnexpectedMessage), Undefined, Num(500)))
  }

  /** The response branch: FastAPI's `detail` first, then Express's
      `error`/`message`, then a generic message naming the status. */
  function FromResponse(status: JsValue, data: JsValue, stringify: JsValue -> string): (r: ApiError)
    ensures r.statusCode == status
    ensures JsTruthy(Get(data, "detail")) ==>
              && r.message == (if Get(data, "detail").Str? then Get(data, "detail") else Str(DefaultMessage))
              && r.details == Str(stringify(Get(data, "detail")))
    ensures !JsTruthy(Get(data, "detail")) && (JsTruthy(Get(data, "error")) || JsTruthy(Get(data, "message"))) ==>
              && r.message == (if JsTruthy(Get(data, "message")) then Get(data, "message") else Str(DefaultMessage))
              && r.details == Get(data, "error")
    ensures !JsTruthy(Get(data, "detail")) && !JsTruthy(Get(data, "error")) && !JsTruthy(Get(data, "message")) ==>
              r.message == Str(StatusPrefix + JsString(status)) && r.details == Undefined
  {
    var detail := Get(data, "detail");
    if JsTruthy(data) && JsTruthy(detail) then
      ApiError(if detail.Str? then detail else Str(DefaultMessage), Str(stringify(detail)), status)
    else if JsTruthy(data) && (JsTruthy(Get(data, "error")) || JsTruthy(Get(data, "message"))) then
      var message := Get(data, "message");
      ApiError(if JsTruthy(message) then message else Str(DefaultMessage), Get(data, "error"), status)
    else ApiError(Str(StatusPrefix + JsString(status)), Undefined, status)
  }

  /** The three branches are told apart by the status code: 0 only for a
      request that got no answer, 500 for an error that is not an HTTP
      one, and the server's own status otherwise. */
  lemma StatusCodeNamesTheBranch(error: JsValue, stringify: JsValue -> string)
    requires ParseApiError(error, stringify).Some?
    ensures var r := ParseApiError(error, stringify).value;
            && (!JsTruthy(Get(error, "response")) ==> r.statusCode in {Num(0), Num(500)})
            && (!JsTruthy(Get(error, "response")) ==> (r.statusCode == Num(0) <==> JsTruthy(Get(error, "request"))))
  {
  }

  const BadRequestText: string := "Invalid request. Please check your input."
  const UnauthorizedText: string := "Authentication required. Please login."
  const ForbiddenText: string := "You do not have permission to perform this action."
  const NotFoundText: string := "Resource not found."
  const ConflictText: string := "Conflict - resource already exists."
  const ServerErrorText: string := "Server error. Please try again later."
  const FallbackText: string := "An error occurred. Please try again."

  const KnownCodes: set<int> := {400, 401, 403, 404, 409, 500}

  /** `getErrorMessage(statusCode)`: a strict comparison with six codes. */
  function GetErrorMessage(statusCode: JsValue): (m: string)
    ensures statusCode == Num(400) ==> m == BadRequestText
    ensures statusCode == Num(401) ==> m == UnauthorizedText
    ensures statusCode == Num(403) ==> m == ForbiddenText
    ensures statusCode == Num(404) ==> m == NotFoundText
    ensures statusCode == Num(409) ==> m == ConflictText
    ensures statusCode == Num(500) ==> m == ServerErrorText
    ensures !(statusCode.Num? && statusCode.n in KnownCodes) ==> m == FallbackText
  {
    if !statusCode.Num? then FallbackText
    else match statusCode.n
      case 400 => BadRequestText
      case 401 => UnauthorizedText
      case 403 => ForbiddenText
      case 404 => NotFoundText
      case 409 => ConflictText
      case 500 => ServerErrorText
      case _ => FallbackText
  }

  /** A network failure gets the generic sentence, a non-HTTP error the
      server-error one, and a status sent as text is not recognised. */
  lemma MessagesForParsedErrors(error: JsValue, stringify: JsValue -> string)
    requires ParseApiError(error, stringify).Some? && !JsTruthy(Get(error, "response"))
    ensures JsTruthy(Get(error, "request")) ==>
              GetErrorMessage(ParseApiError(error, stringify).value.statusCode) == FallbackText
    ensures !JsTruthy(Get(error, "request")) ==>
              GetErrorMessage(ParseApiError(error, stringify).value.statusCode) == ServerErrorText
    ensures GetErrorMessage(Str("404")) == FallbackText
  {
  }
}
