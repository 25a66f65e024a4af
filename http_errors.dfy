/**
 * The error taxonomy: each error class of the application fixes an HTTP
 * status code and a default message; a raised error carries its class and
 * the message it was constructed with. `Thrown` is what an exception filter
 * receives: an HttpException, another Error, or a non-Error value.
 */
module HttpErrors {
  import opened Wrappers
  import opened ValidationFormat

  datatype ErrorClass =
    | BadRequest
    | Forbidden
    | NotFound
    | MethodNotAllowed
    | RequestTimeout
    | RequestBodyTooLarge
    | UnsupportedMediaType
    | ValidationErrorException
    | UnprocessableContent
    | TooManyRequests
    | RequestHeaderFieldsTooLarge
    | UnsupportedTransferEncoding

  predicate IsClientError(status: int) { 400 <= status < 500 }

  /** The HTTP status each error class passes to its base constructor. */
  function Status(c: ErrorClass): (status: nat)
    ensures IsClientError(status) <==> c != UnsupportedTransferEncoding
    ensures status == 422 <==> c == ValidationErrorException || c == UnprocessableContent
  {
    match c
    case BadRequest => 400
    case Forbidden => 403
    case NotFound => 404
    case MethodNotAllowed => 405
    case RequestTimeout => 408
    case RequestBodyTooLarge => 413
    case UnsupportedMediaType => 415
    case ValidationErrorException => 422
    case UnprocessableContent => 422
    case TooManyRequests => 429
    case RequestHeaderFieldsTooLarge => 431
    case UnsupportedTransferEncoding => 501
  }

  /** Every class but ValidationErrorException has a default message. */
  predicate HasDefault(c: ErrorClass) { c != ValidationErrorException }

  function DefaultMessage(c: ErrorClass): string
    requires HasDefault(c)
  {
    match c
    case BadRequest => "Bad Request"
    case Forbidden => "Forbidden"
    case NotFound => "Not Found"
    case MethodNotAllowed => "Method Not Allowed"
    case RequestTimeout => "Request timed out."
    case RequestBodyTooLarge => "Request body too large"
    case UnsupportedMediaType => "Unsupported Media Type"
    case UnprocessableContent => "Unprocessable Content"
    case TooManyRequests => "Too many requests"
    case RequestHeaderFieldsTooLarge => "Request header fields too large"
    case UnsupportedTransferEncoding => "Transfer-Encoding is not supported"
  }

  /** A raised application error: its class and its message. */
  datatype AppError = AppError(cls: ErrorClass, message: string) {
    function status(): nat { Status(cls) }
  }

  /** `new XxxError(message?)`: the supplied message, or the class default. */
  function Raise(c: ErrorClass, message: Option<string>): (e: AppError)
    requires HasDefault(c)
    ensures e.cls == c && e.status() == Status(c)
    ensures message.Some? ==> e.message == message.value
    ensures message.None? ==> e.message == DefaultMessage(c)
  {
    AppError(c, message.GetOr(DefaultMessage(c)))
  }

  /** `new ValidationErrorException(errors)`: 422 with the formatted issues. */
  function RaiseValidation(errors: seq<ValidationError>): (e: AppError)
    ensures e.status() == 422
    ensures e.message == FormatIssues(errors)
  {
    AppError(ValidationErrorException, FormatIssues(errors))
  }

  /** Two classes share a status code only when both are the 422 classes. */
  lemma StatusDistinguishesClasses(a: ErrorClass, b: ErrorClass)
    requires Status(a) == Status(b)
    ensures a == b || (Status(a) == 422 && {a, b} == {ValidationErrorException, UnprocessableContent})
  {
  }

  /** What an exception filter is handed. */
  datatype Thrown =
    | HttpEx(status: nat, message: string, stack: string)
    | PlainError(message: string, stack: string)
    | NonError(text: string)

  /** An application error is an HttpException with its class's status and its message. */
  function AsThrown(e: AppError, stack: string): (t: Thrown)
    ensures t.HttpEx? && t.status == e.status() && t.message == e.message
  {
    HttpEx(e.status(), e.message, stack)
  }

  /**
   * `new ValidationException(errors, status?)` from the exceptions folder:
   * an HttpException whose status defaults to 500 and whose message is the
   * formatted issues.
   */
  function ValidationException(errors: seq<ValidationError>, status: Option<nat>, stack: string): (t: Thrown)
    ensures t.HttpEx? && t.message == FormatIssues(errors)
    ensures status.None? ==> t.status == 500
    ensures status.Some? ==> t.status == status.value
  {
    HttpEx(status.GetOr(500), FormatIssues(errors), stack)
  }
}
