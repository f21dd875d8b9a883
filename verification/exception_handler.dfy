/** `GlobalExceptionHandler.handleException`: the HTTP status and the error
    body each exception kind is answered with. */
module ExceptionHandler {
  import opened Errors

  /** `ErrorResponse(errorCode, errorMessage)` */
  datatype ErrorResponse = ErrorResponse(errorCode: string, errorMessage: string)

  const NotFound: int := 404
  const Conflict: int := 409
  const BadRequest: int := 400
  const MethodNotAllowedStatus: int := 405
  const InternalServerError: int := 500

  /** Client errors carry the exception's own message; anything unexpected
      is answered with a fixed message that reveals nothing. */
  function HandleException(e: Error): (r: (int, ErrorResponse))
    ensures r.0 == NotFound <==> e.PackageNotFound?
    ensures r.0 == Conflict <==> e.PackageAlreadyExists?
    ensures r.0 == BadRequest <==> e.PackageValidation? || e.IllegalArgument?
    ensures r.0 == MethodNotAllowedStatus <==> e.MethodNotAllowed?
    ensures r.0 == InternalServerError <==> e.Unexpected?
    ensures r.0 == NotFound ==> r.1.errorCode == "PACKAGE_NOT_FOUND"
    ensures r.0 == Conflict ==> r.1.errorCode == "PACKAGE_ALREADY_EXISTS"
    ensures r.0 == BadRequest || r.0 == MethodNotAllowedStatus ==> r.1.errorCode == "VALIDATION_ERROR"
    ensures r.0 != InternalServerError ==> r.1.errorMessage == e.message
    ensures r.0 == InternalServerError ==> r.1 == ErrorResponse("INTERNAL_SERVER_ERROR", "An unexpected error occurred.")
  {
    match e
    case PackageNotFound(m) => (NotFound, ErrorResponse("PACKAGE_NOT_FOUND", m))
    case PackageAlreadyExists(m) => (Conflict, ErrorResponse("PACKAGE_ALREADY_EXISTS", m))
    case PackageValidation(m) => (BadRequest, ErrorResponse("VALIDATION_ERROR", m))
    case IllegalArgument(m) => (BadRequest, ErrorResponse("VALIDATION_ERROR", m))
    case MethodNotAllowed(m) => (MethodNotAllowedStatus, ErrorResponse("VALIDATION_ERROR", m))
    case Unexpected(_) => (InternalServerError, ErrorResponse("INTERNAL_SERVER_ERROR", "An unexpected error occurred."))
  }

  /** Two unexpected exceptions are indistinguishable to the client. */
  lemma UnexpectedIsOpaque(a: Error, b: Error)
    requires a.Unexpected? && b.Unexpected?
    ensures HandleException(a) == HandleException(b)
  {
  }
}
