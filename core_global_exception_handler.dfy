/** `io.github.siddharth177.bootcommons.core.exception.GlobalExceptionHandler`: the same
    three handlers over the `dto.ErrorResponse` envelope and the
    `exception.ResourceNotFoundException` of the `exception` package. Spring's choice of
    handler by type is the explicit match in `Dispatch`; the clock is the input `now`. */
module CoreGlobalExceptionHandler {
  import opened Wrappers
  import opened Http
  import opened Throwables
  import DtoErrorResponses

  /** `ResponseEntity<ErrorResponse>`: the handlers always give a body. */
  datatype Response = Response(body: DtoErrorResponse, status: Status)

  /** The fixed body message of the catch-all handler (this variant ends with a period). */
  const GenericMessage := "An unexpected error occurred."

  /** `handleResourceNotFoundException`: 404 via `ErrorResponse(NOT_FOUND, ex.getMessage())`. */
  function HandleResourceNotFoundException(ex: Throwable, now: Timestamp): (r: Response)
    requires ex.CoreResourceNotFound?
    ensures r.status == NOT_FOUND && r.body.statusCode == 404
    ensures r.body.message == ex.message && r.body.superMessage == ex.message
    ensures r.body.cause == None && r.body.timestamp == now
  {
    Response(DtoErrorResponses.WithoutCause(NOT_FOUND, ex.message, now), NOT_FOUND)
  }

  /** `handleErrorResponse`: the envelope passes through as the body. Its code came from an
      `HttpStatus`, so `HttpStatus.valueOf` always succeeds here. */
  function HandleErrorResponse(ex: DtoErrorResponse): (r: Response)
    ensures r.body == ex && r.status == ex.statusCode
  {
    match ValueOf(ex.statusCode)
    case Some(status) => Response(ex, status)
    case None => assert false; Response(ex, INTERNAL_SERVER_ERROR)
  }

  /** `handleGlobalException`: 500 with a fixed message; the failure itself is discarded. */
  function HandleGlobalException(ex: Throwable, now: Timestamp): (r: Response)
    ensures r.status == INTERNAL_SERVER_ERROR && r.body.statusCode == 500
    ensures r.body.message == Some(GenericMessage) && r.body.cause == None
    ensures r.body == DtoErrorResponse(INTERNAL_SERVER_ERROR, Some(GenericMessage), now, Some(GenericMessage), None)
  {
    Response(DtoErrorResponses.WithoutCause(INTERNAL_SERVER_ERROR, Some(GenericMessage), now), INTERNAL_SERVER_ERROR)
  }

  /** The handler Spring selects for `ex`: the most specific one whose type matches.
      Unlike the `exceptions` variant, every failure gets a response. No handler names an `Error` or another
      non-`Exception` throwable; such a throwable reaches `handleGlobalException` only
      because Spring 6's `DispatcherServlet` wraps it in a `ServletException` first. */
  function Dispatch(ex: Throwable, now: Timestamp): (r: Response)
    ensures r.body.statusCode == r.status
    ensures r.status == NOT_FOUND <==> ex.CoreResourceNotFound? || (ex.DtoEnvelope? && ex.dtoResponse.statusCode == 404)
    ensures ex.CoreResourceNotFound? ==> r == HandleResourceNotFoundException(ex, now)
    ensures ex.DtoEnvelope? ==> r.body == ex.dtoResponse
    ensures !ex.CoreResourceNotFound? && !ex.DtoEnvelope? ==> r == HandleGlobalException(ex, now)
  {
    match ex
    case CoreResourceNotFound(_) => HandleResourceNotFoundException(ex, now)
    case DtoEnvelope(response) => HandleErrorResponse(response)
    case _ => HandleGlobalException(ex, now)
  }

  /** Two different unhandled failures at the same instant give the same response. */
  lemma GlobalHidesFailure(ex1: Throwable, ex2: Throwable, now: Timestamp)
    requires !ex1.CoreResourceNotFound? && !ex1.DtoEnvelope?
    requires !ex2.CoreResourceNotFound? && !ex2.DtoEnvelope?
    ensures Dispatch(ex1, now) == Dispatch(ex2, now)
  {
  }
}
