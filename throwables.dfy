/** The Java throwables the model passes around, including the two `ErrorResponse`
    envelopes, which are themselves `RuntimeException`s and may carry a cause. */
module Throwables {
  import opened Wrappers
  import opened Http

  /** A Java `String` reference: `None` is `null`. */
  type JavaString = Option<string>

  /** An instant read from `LocalDateTime.now()`. The clock is an input of the model,
      and nothing here relies on how two instants compare. */
  type Timestamp = int

  /** A throwable class as the exception aspect sees it: whether it is a subtype of
      `java.lang.Exception`, and whether reflection can find its public `(String)`
      constructor and create an instance with it. */
  datatype ThrowableClass = ThrowableClass(name: string, isException: bool, instantiable: bool)

  const RuntimeExceptionClass := ThrowableClass("java.lang.RuntimeException", true, true)

  datatype Throwable =
    /** `io.github.siddharth177.bootcommons.exceptions.ResourceNotFoundException` */
    | ResourceNotFound(message: JavaString)
    /** `io.github.siddharth177.bootcommons.exception.ResourceNotFoundException` */
    | CoreResourceNotFound(message: JavaString)
    /** `io.github.siddharth177.bootcommons.exceptions.ErrorResponse` */
    | Envelope(response: ErrorResponse)
    /** `io.github.siddharth177.bootcommons.dto.ErrorResponse` */
    | DtoEnvelope(dtoResponse: DtoErrorResponse)
    /** Any other throwable, by its class, message and cause. */
    | Raised(cls: ThrowableClass, message: JavaString, cause: Option<Throwable>)

  /** `exceptions.ErrorResponse`: three final fields, plus the message and cause held by
      its `RuntimeException` superclass. `superMessage` is that hidden detail message:
      Lombok's generated `getMessage()` returns the `message` field instead, so nothing
      reads `superMessage`, and `None` there does not mean `getMessage()` is `null`.
      The Lombok all-args constructor accepts any `int`, so `statusCode` is not
      necessarily a known status, and any reference may be `null`. */
  datatype ErrorResponse = ErrorResponse(
    statusCode: int,
    message: JavaString,
    timestamp: Option<Timestamp>,
    superMessage: JavaString,
    cause: Option<Throwable>)

  /** `dto.ErrorResponse`: the same shape (its Lombok `getMessage()` also returns the
      `message` field), but it is only built from an `HttpStatus`,
      so its status code is always known, and its timestamp always comes from the clock. */
  datatype DtoErrorResponse = DtoErrorResponse(
    statusCode: Status,
    message: JavaString,
    timestamp: Timestamp,
    superMessage: JavaString,
    cause: Option<Throwable>)
}
