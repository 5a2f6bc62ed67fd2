/** The response envelope of the mock API: `{ success: true, data }`, or
    `{ success: false, error: { code, message } }` with an HTTP status. */
module Api {

  datatype ErrorCode =
    | InvalidCredentials | EmailExists | NotFound | AlreadySubmitted | InvalidState | AlreadyReviewed
    | Unhandled  // an exception escaping the handler, which the mock service worker answers with 500
  {
    function Name(): string {
      match this
      case InvalidCredentials => "INVALID_CREDENTIALS"
      case EmailExists => "EMAIL_EXISTS"
      case NotFound => "NOT_FOUND"
      case AlreadySubmitted => "ALREADY_SUBMITTED"
      case InvalidState => "INVALID_STATE"
      case AlreadyReviewed => "ALREADY_REVIEWED"
      // A label of this model only: no handler sends it. The mock service worker
      // answers an escaping exception with its own 500 response, not a
      // `{ code, message }` body.
      case Unhandled => "UNHANDLED_EXCEPTION"
    }

    function Status(): nat {
      match this
      case InvalidCredentials => 401
      case NotFound => 404
      case Unhandled => 500
      case _ => 400
    }
  }

  datatype ApiError = ApiError(code: ErrorCode, message: string)

  datatype Result<T> = Ok(value: T) | Err(error: ApiError)

  /** A `TypeError` from reading a field of `undefined`. */
  const Thrown := ApiError(Unhandled, "TypeError")

  function HttpStatus<T>(r: Result<T>): (s: nat)
    ensures r.Ok? <==> s == 200
    ensures r.Err? && r.error.code == Unhandled ==> s == 500
    ensures r.Err? && r.error.code == InvalidCredentials ==> s == 401
    ensures r.Err? && r.error.code == NotFound ==> s == 404
    ensures r.Err? && r.error.code !in {InvalidCredentials, NotFound, Unhandled} ==> s == 400
  {
    match r
    case Ok(_) => 200
    case Err(e) => e.code.Status()
  }
}
