/** `utils/apiResponse.js` of the submission service: the response
    envelopes. The `timestamp` (the current time as ISO text) is a
    parameter; the `statusCode` parameters of `success` and `error` are
    accepted and then ignored by the source, so they are not part of the
    envelope. */
module ApiResponse {
  import opened Common

  datatype Pagination = Pagination(total: int, limit: int, offset: int, page: int, pages: int)

  datatype Envelope = Envelope(
    success: bool, message: string, data: JsValue, error: JsValue,
    pagination: Option<Pagination>, timestamp: string)

  const DefaultMessage: string := "Success"

  /** `ApiResponse.success(data, message = 'Success')`. */
  function Success(data: JsValue, message: Option<string>, timestamp: string): (r: Envelope)
    ensures r.success && r.error == Null && r.data == data && r.pagination.None?
    ensures r.message == message.GetOr(DefaultMessage) && r.timestamp == timestamp
  {
    Envelope(true, message.GetOr(DefaultMessage), data, Null, None, timestamp)
  }

  /** `ApiResponse.error(message, error = null, data = null)`: a falsy
      `data` becomes `null` and a falsy `error` falls back to the message. */
  function Error(message: string, error: JsValue, data: JsValue, timestamp: string): (r: Envelope)
    ensures !r.success && r.message == message && r.pagination.None? && r.timestamp == timestamp
    ensures r.data == (if JsTruthy(data) then data else Null)
    ensures r.error == (if JsTruthy(error) then error else Str(message))
  {
    Envelope(false, message, if JsTruthy(data) then data else Null,
             if JsTruthy(error) then error else Str(message), None, timestamp)
  }

  /** `Math.floor(offset / limit)` and `Math.ceil(total / limit)` for a
      positive limit, in integer arithmetic. */
  function FloorDiv(a: int, b: int): int
    requires b > 0
  {
    a / b
  }

  function CeilDiv(a: int, b: int): int
    requires b > 0
  {
    -((-a) / b)
  }

  /** `ApiResponse.paginated(data, total, limit, offset)`. The limit is
      positive: the query validator admits 1 to 100. */
  function Paginated(data: JsValue, total: int, limit: int, offset: int, message: Option<string>, timestamp: string)
    : (r: Envelope)
    requires limit >= 1
    ensures r.success && r.data == data && r.message == message.GetOr(DefaultMessage) && r.pagination.Some?
    ensures var p := r.pagination.value;
            && p.total == total && p.limit == limit && p.offset == offset
            && (p.page - 1) * limit <= offset < p.page * limit
            && (p.pages - 1) * limit < total <= p.pages * limit
  {
    var page := FloorDiv(offset, limit) + 1;
    var pages := CeilDiv(total, limit);
    Envelope(true, message.GetOr(DefaultMessage), data, Undefined,
             Some(Pagination(total, limit, offset, page, pages)), timestamp)
  }

  /** A multiple of a positive number keeps the sign of the multiplier. */
  lemma MultipleSign(q: int, b: int)
    requires b > 0
    ensures q >= 1 ==> q * b >= b
    ensures q <= 0 ==> q * b <= 0
    decreases if q >= 0 then q else -q
  {
    if q >= 1 {
      assert q * b == (q - 1) * b + b;
      MultipleSign(q - 1, b);
    } else if q < 0 {
      assert q * b == (q + 1) * b - b;
      MultipleSign(q + 1, b);
    }
  }

  /** From offset 0 the pages are numbered from 1, and the first `limit`
      offsets are on page 1. */
  lemma FirstPage(limit: int, offset: int)
    requires limit >= 1
    ensures var p := Paginated(Null, 0, limit, offset, None, "").pagination.value;
            && (offset >= 0 ==> p.page >= 1)
            && (0 <= offset < limit ==> p.page == 1)
  {
    var p := Paginated(Null, 0, limit, offset, None, "").pagination.value;
    MultipleSign(p.page, limit);
    MultipleSign(p.page - 1, limit);
  }

  /** An empty listing has no pages, any other at least one. */
  lemma PageCount(total: int, limit: int)
    requires limit >= 1
    ensures var p := Paginated(Null, total, limit, 0, None, "").pagination.value;
            && (total == 0 ==> p.pages == 0)
            && (total > 0 ==> p.pages >= 1)
  {
    var p := Paginated(Null, total, limit, 0, None, "").pagination.value;
    MultipleSign(p.pages, limit);
    MultipleSign(p.pages - 1, limit);
  }

  /** An offset inside the listing is on one of its pages. */
  lemma PageWithinCount(total: int, limit: int, offset: int)
    requires limit >= 1 && 0 <= offset < total
    ensures var p := Paginated(Null, total, limit, offset, None, "").pagination.value;
            1 <= p.page <= p.pages
  {
    var p := Paginated(Null, total, limit, offset, None, "").pagination.value;
    MultipleSign(p.page, limit);
    MultipleSign(p.page - p.pages, limit);
    assert (p.page - p.pages) * limit == (p.page - 1) * limit - (p.pages - 1) * limit - limit + limit;
  }
}
