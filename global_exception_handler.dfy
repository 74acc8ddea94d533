/** `io.github.siddharth177.bootcommons.exceptions.GlobalExceptionHandler`: the controller
    advice that turns an exception into an `exceptions.ErrorResponse` body and a status.
    Spring picks the handler by the exception's type; `Dispatch` makes that choice an
    explicit match. The clock is the input `now`. */
module GlobalExceptionHandler {
  import opened Wrappers
  import opened Http
  import opened Throwables
  import ErrorResponses

  /** `ResponseEntity<ErrorResponse>`: the handlers always give a body. */
  datatype Response = Response(body: ErrorResponse, status: Status)

  /** The fixed body message of the catch-all handler (this variant has no final period). */
  const GenericMessage := "An unexpected error occurred"

  /** `handleResourceNotFoundException`: 404, carrying the exception's own message. */
  function HandleResourceNotFoundException(ex: Throwable, now: Timestamp): (r: Response)
    requires ex.ResourceNotFound?
    ensures r.status == NOT_FOUND && r.body.statusCode == 404
    ensures r.body.message == ex.message
    ensures r.body.timestamp == Some(now)
  {
    Response(ErrorResponses.AllArgs(NOT_FOUND, ex.message, Some(now)), NOT_FOUND)
  }

  /** `handleErrorResponse`: the envelope itself is the body, and its code becomes the
      response status. `None` is the case where `HttpStatus.valueOf` throws. */
  function HandleErrorResponse(ex: ErrorResponse): (r: Option<Response>)
    ensures r.Some? <==> IsKnownCode(ex.statusCode)
    ensures r.Some? ==> r.value.body == ex && r.value.status == ex.statusCode
  {
    match ValueOf(ex.statusCode)
    case Some(status) => Some(Response(ex, status))
    case None => None
  }

  /** `handleGlobalException`: 500 with a fixed message; nothing of `ex` reaches the body. */
  function HandleGlobalException(ex: Throwable, now: Timestamp): (r: Response)
    ensures r.status == INTERNAL_SERVER_ERROR && r.body.statusCode == 500
    ensures r.body.message == Some(GenericMessage)
    ensures r.body == ErrorResponse(500, Some(GenericMessage), Some(now), None, None)
  {
    Response(ErrorResponses.AllArgs(INTERNAL_SERVER_ERROR, Some(GenericMessage), Some(now)), INTERNAL_SERVER_ERROR)
  }

  /** The handler Spring selects for `ex`: the most specific one whose type matches. No handler names an `Error` or another
      non-`Exception` throwable; such a throwable reaches `handleGlobalException` only
      because Spring 6's `DispatcherServlet` wraps it in a `ServletException` first. */
  function Dispatch(ex: Throwable, now: Timestamp): (r: Option<Response>)
    ensures r.None? <==> ex.Envelope? && !IsKnownCode(ex.response.statusCode)
    ensures r.Some? ==> r.value.body.statusCode == r.value.status
    ensures ex.ResourceNotFound? ==> r == Some(HandleResourceNotFoundException(ex, now))
    ensures ex.Envelope? && r.Some? ==> r.value.body == ex.response
    ensures !ex.ResourceNotFound? && !ex.Envelope? ==> r == Some(HandleGlobalException(ex, now))
  {
    match ex
    case ResourceNotFound(_) => Some(HandleResourceNotFoundException(ex, now))
    case Envelope(response) => HandleErrorResponse(response)
    case _ => Some(HandleGlobalException(ex, now))
  }

  /** The catch-all answer depends on the clock only: two different failures at the same
      instant give the same response, so no message or cause of theirs is exposed. */
  lemma GlobalHidesFailure(ex1: Throwable, ex2: Throwable, now: Timestamp)
    requires !ex1.ResourceNotFound? && !ex1.Envelope?
    requires !ex2.ResourceNotFound? && !ex2.Envelope?
    ensures Dispatch(ex1, now) == Dispatch(ex2, now)
  {
  }
}
