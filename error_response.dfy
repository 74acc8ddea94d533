/** The constructors of `io.github.siddharth177.bootcommons.exceptions.ErrorResponse`.
    The clock reading `LocalDateTime.now()` is passed in as `now`. */
module ErrorResponses {
  import opened Wrappers
  import opened Http
  import opened Throwables

  /** `ErrorResponse(HttpStatus status, String message, Throwable cause)`. */
  function WithCause(status: Status, message: JavaString, cause: Throwable, now: Timestamp): (r: ErrorResponse)
    ensures r.statusCode == status && IsKnownCode(r.statusCode)
    ensures r.message == message && r.superMessage == message
    ensures r.cause == Some(cause)
    ensures r.timestamp == Some(now)
  {
    ErrorResponse(status, message, Some(now), message, Some(cause))
  }

  /** `ErrorResponse(HttpStatus status, String message)`: no cause. */
  function WithoutCause(status: Status, message: JavaString, now: Timestamp): (r: ErrorResponse)
    ensures r.statusCode == status && IsKnownCode(r.statusCode)
    ensures r.message == message && r.superMessage == message
    ensures r.cause == None
    ensures r.timestamp == Some(now)
  {
    ErrorResponse(status, message, Some(now), message, None)
  }

  /** The Lombok all-args constructor `ErrorResponse(int, String, LocalDateTime)`: it stores
      its arguments unchecked and calls the no-argument superclass constructor, so the
      throwable's own message and cause are `null`. */
  function AllArgs(statusCode: int, message: JavaString, timestamp: Option<Timestamp>): (r: ErrorResponse)
    ensures r.statusCode == statusCode && r.message == message && r.timestamp == timestamp
    ensures r.superMessage == None && r.cause == None
  {
    ErrorResponse(statusCode, message, timestamp, None, None)
  }

  /** An envelope built from an `HttpStatus` always has a status `HttpStatus.valueOf`
      accepts; the all-args constructor can produce one it rejects. */
  lemma StatusConstructorsGiveKnownCodes(status: Status, message: JavaString, cause: Throwable, now: Timestamp)
    ensures ValueOf(WithCause(status, message, cause, now).statusCode) == Some(status)
    ensures ValueOf(WithoutCause(status, message, now).statusCode) == Some(status)
    ensures ValueOf(AllArgs(600, message, Some(now)).statusCode) == None
  {
  }
}
