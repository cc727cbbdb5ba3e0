/**
 * The HTTP error boundary (src/shared/http.ts): `jsonError` builds a plain-text response
 * and `handleHttpError` turns any thrown value into one.
 *
 * `new NextResponse(body, { status })` follows the `Response` constructor of the Fetch
 * Standard ("initialize a response"): the status is converted to a WebIDL `unsigned short`,
 * a status outside 200 to 599 throws a `RangeError`, and a null-body status (204, 205, 304)
 * given together with a body, as every call here gives one, throws a `TypeError`.
 */
module Http {
  import opened Wrappers
  import opened Errors

  /** The parts of a `NextResponse` the boundary decides: the status and the body text. */
  datatype Response = Response(status: int, body: string)

  /** The body sent for every error that is not an `AppError`. */
  const InternalServerError: string := "Internal server error"

  /** What the `Response` constructor throws for a status outside 200 to 599. */
  const StatusRangeError: Thrown := Foreign("RangeError")

  /** What the `Response` constructor throws for a null-body status given with a body. */
  const NullBodyStatusError: Thrown := Foreign("TypeError")

  /** The WebIDL conversion of an integer to `unsigned short`: its value modulo 2^16. */
  function ToUnsignedShort(n: int): (r: int)
    ensures 0 <= r < 0x1_0000
    ensures 0 <= n < 0x1_0000 ==> r == n
    ensures (r - n) % 0x1_0000 == 0
  {
    n % 0x1_0000
  }

  /** The statuses that forbid a response body. */
  predicate IsNullBodyStatus(code: int) {
    code == 101 || code == 103 || code == 204 || code == 205 || code == 304
  }

  /** `jsonError(message, status?)`: the body is the message and the status defaults to 500. */
  function JsonError(message: string, status: Option<int>): (r: Result<Response, Thrown>)
    ensures var code := ToUnsignedShort(match status case Some(c) => c case None => 500);
      && (r.Success? <==> 200 <= code <= 599 && !IsNullBodyStatus(code))
      && (r.Success? ==> r.value == Response(code, message))
      && (!(200 <= code <= 599) ==> r == Failure(StatusRangeError))
      && (200 <= code <= 599 && IsNullBodyStatus(code) ==> r == Failure(NullBodyStatusError))
    ensures status.None? ==> r == Success(Response(500, message))
  {
    var code := ToUnsignedShort(match status case Some(c) => c case None => 500);
    if !(200 <= code <= 599) then Failure(StatusRangeError)
    else if IsNullBodyStatus(code) then Failure(NullBodyStatusError)
    else Success(Response(code, message))
  }

  /**
   * `handleHttpError(error)`: an `AppError` is answered with its own status code and message,
   * unless the `Response` constructor rejects that status, in which case the constructor's
   * error escapes; anything else is answered with status 500 and a fixed body, so its message
   * never reaches the client.
   */
  function HandleHttpError(error: Thrown): (r: Result<Response, Thrown>)
    ensures IsAppError(error) && 200 <= error.error.statusCode <= 599 && !IsNullBodyStatus(error.error.statusCode) ==>
      r == Success(Response(error.error.statusCode, error.error.message))
    ensures IsAppError(error) ==> var code := ToUnsignedShort(error.error.statusCode);
      && (200 <= code <= 599 && !IsNullBodyStatus(code) ==> r == Success(Response(code, error.error.message)))
      && (!(200 <= code <= 599) ==> r == Failure(StatusRangeError))
      && (200 <= code <= 599 && IsNullBodyStatus(code) ==> r == Failure(NullBodyStatusError))
    ensures r.Failure? ==> IsAppError(error) && !IsAppError(r.error)
    ensures !IsAppError(error) ==> r == Success(Response(500, InternalServerError))
  {
    if IsAppError(error) then JsonError(error.error.message, Some(error.error.statusCode))
    else JsonError(InternalServerError, Some(500))
  }

  /** Each subclass of the taxonomy reaches the client with its fixed status and its message. */
  lemma TaxonomyStatuses(text: Option<string>, cause: Option<Thrown>)
    ensures HandleHttpError(App(NewValidationError(text, cause))) == Success(Response(400, NewValidationError(text, cause).message))
    ensures HandleHttpError(App(NewUnauthorizedError(text))) == Success(Response(401, NewUnauthorizedError(text).message))
    ensures HandleHttpError(App(NewNotFoundError(text))) == Success(Response(404, NewNotFoundError(text).message))
    ensures HandleHttpError(App(NewAppError(InternalServerError, None, cause))) == HandleHttpError(Foreign(InternalServerError))
    ensures text.None? ==> HandleHttpError(App(NewValidationError(text, cause))) == Success(Response(400, "Validation error"))
  {
  }

  /**
   * An `AppError` whose status the `Response` constructor rejects is not answered: 599 is
   * the last accepted status, 600 and 204 make `handleHttpError` itself throw, and 65936 wraps
   * around to 400.
   */
  lemma RejectedStatuses(message: string)
    ensures HandleHttpError(App(NewAppError(message, Some(599), None))) == Success(Response(599, message))
    ensures HandleHttpError(App(NewAppError(message, Some(600), None))) == Failure(StatusRangeError)
    ensures HandleHttpError(App(NewAppError(message, Some(204), None))) == Failure(NullBodyStatusError)
    ensures HandleHttpError(App(NewAppError(message, Some(65936), None))) == Success(Response(400, message))
  {
  }

  /** What a non-`AppError` says is never visible: any two of them get the same response. */
  lemma ForeignErrorsIndistinguishable(a: string, b: string)
    ensures HandleHttpError(Foreign(a)) == HandleHttpError(Foreign(b))
    ensures HandleHttpError(Foreign(a)).Success? && (HandleHttpError(Foreign(a)).value.body != a || a == InternalServerError)
  {
  }
}
