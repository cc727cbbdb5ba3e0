/**
 * The application's error taxonomy (src/shared/errors.ts): a base `AppError` carrying an
 * HTTP status code, three subclasses with fixed status codes and default messages, and the
 * `isAppError` type test. A thrown value is either one of these or anything else JavaScript
 * can throw.
 */
module Errors {
  import opened Wrappers

  /** The run-time class of an `AppError`; `name` is the class's name. */
  datatype ErrorClass = AppErrorClass | ValidationErrorClass | UnauthorizedErrorClass | NotFoundErrorClass

  /** An instance of `AppError` or of one of its subclasses; its fields are set once by the constructor. */
  datatype AppError = AppError(errorClass: ErrorClass, message: string, statusCode: int, cause: Option<Thrown>)

  /** Any value a `throw` can produce: an `AppError`, or some other value described by its message. */
  datatype Thrown = App(error: AppError) | Foreign(message: string)

  /** `this.constructor.name`. */
  function Name(e: AppError): (r: string)
  {
    match e.errorClass
    case AppErrorClass => "AppError"
    case ValidationErrorClass => "ValidationError"
    case UnauthorizedErrorClass => "UnauthorizedError"
    case NotFoundErrorClass => "NotFoundError"
  }

  /** `new AppError(message, statusCode?, cause?)`: the status code defaults to 500. */
  function NewAppError(message: string, statusCode: Option<int>, cause: Option<Thrown>): (e: AppError)
    ensures Name(e) == "AppError"
    ensures e.message == message && e.cause == cause
    ensures statusCode.Some? ==> e.statusCode == statusCode.value
    ensures statusCode.None? ==> e.statusCode == 500
  {
    AppError(AppErrorClass, message, match statusCode case Some(code) => code case None => 500, cause)
  }

  /** `new ValidationError(message?, cause?)`: always status 400, default message "Validation error". */
  function NewValidationError(message: Option<string>, cause: Option<Thrown>): (e: AppError)
    ensures Name(e) == "ValidationError"
    ensures e.statusCode == 400 && e.cause == cause
    ensures message.Some? ==> e.message == message.value
    ensures message.None? ==> e.message == "Validation error"
  {
    AppError(ValidationErrorClass, match message case Some(m) => m case None => "Validation error", 400, cause)
  }

  /** `new UnauthorizedError(message?)`: always status 401, default message "Unauthorized", no cause. */
  function NewUnauthorizedError(message: Option<string>): (e: AppError)
    ensures Name(e) == "UnauthorizedError"
    ensures e.statusCode == 401 && e.cause == None
    ensures message.Some? ==> e.message == message.value
    ensures message.None? ==> e.message == "Unauthorized"
  {
    AppError(UnauthorizedErrorClass, match message case Some(m) => m case None => "Unauthorized", 401, None)
  }

  /** `new NotFoundError(message?)`: always status 404, default message "Not found", no cause. */
  function NewNotFoundError(message: Option<string>): (e: AppError)
    ensures Name(e) == "NotFoundError"
    ensures e.statusCode == 404 && e.cause == None
    ensures message.Some? ==> e.message == message.value
    ensures message.None? ==> e.message == "Not found"
  {
    AppError(NotFoundErrorClass, match message case Some(m) => m case None => "Not found", 404, None)
  }

  /**
   * `error instanceof AppError`: true exactly for the instances of `AppError` and its
   * subclasses, whose names are those of the four classes of the taxonomy.
   */
  function IsAppError(error: Thrown): (r: bool)
    ensures r <==> exists e: AppError :: error == App(e)
    ensures r ==> Name(error.error) in ["AppError", "ValidationError", "UnauthorizedError", "NotFoundError"]
  {
    error.App?
  }

  /**
   * The type test accepts every value the four constructors build, whatever their arguments,
   * and rejects every value that is not an `AppError`.
   */
  lemma IsAppErrorExactlyForAppErrors(message: string, code: Option<int>, text: Option<string>, cause: Option<Thrown>, other: string)
    ensures IsAppError(App(NewAppError(message, code, cause)))
    ensures IsAppError(App(NewValidationError(text, cause)))
    ensures IsAppError(App(NewUnauthorizedError(text)))
    ensures IsAppError(App(NewNotFoundError(text)))
    ensures !IsAppError(Foreign(other))
  {
  }
}
