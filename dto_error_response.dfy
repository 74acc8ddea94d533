/** The constructors of `io.github.siddharth177.bootcommons.dto.ErrorResponse`.
    The clock reading `LocalDateTime.now()` is passed in as `now`. */
module DtoErrorResponses {
  import opened Wrappers
  import opened Http
  import opened Throwables

  /** `ErrorResponse(HttpStatus status, String message, Throwable cause)`. */
  function WithCause(status: Status, message: JavaString, cause: Throwable, now: Timestamp): (r: DtoErrorResponse)
    ensures r.statusCode == status
    ensures r.message == message && r.superMessage == message
    ensures r.cause == Some(cause)
    ensures r.timestamp == now
  {
    DtoErrorResponse(status, message, now, message, Some(cause))
  }

  /** `ErrorResponse(HttpStatus status, String message)`: no cause. */
  function WithoutCause(status: Status, message: JavaString, now: Timestamp): (r: DtoErrorResponse)
    ensures r.statusCode == status
    ensures r.message == message && r.superMessage == message
    ensures r.cause == None
    ensures r.timestamp == now
  {
    DtoErrorResponse(status, message, now, message, None)
  }

  /** The two constructors differ only in the cause. */
  lemma ConstructorsDifferOnlyInCause(status: Status, message: JavaString, cause: Throwable, now: Timestamp)
    ensures WithCause(status, message, cause, now).(cause := None) == WithoutCause(status, message, now)
    ensures WithCause(status, message, cause, now) != WithoutCause(status, message, now)
  {
  }
}
