/** `ExceptionAspect`: the two pieces of advice behind `@HandleException` and `@ThrowIf`.
    The SpEL evaluation of the `@ThrowIf` expression and the reflective construction of
    the configured throwable are inputs; the clock is the input `now`. Each advice either
    lets the intercepted call finish as it would have, or throws. */
module ExceptionAspect {
  import opened Wrappers
  import opened Http
  import opened Throwables
  import ErrorResponses
  import GlobalExceptionHandler
  import CoreGlobalExceptionHandler

  /** The attributes of a `@HandleException` annotation. */
  datatype HandleExceptionConfig = HandleExceptionConfig(statusCode: Status, message: string)

  /** `@HandleException` with no attributes given. */
  const DefaultHandleException := HandleExceptionConfig(INTERNAL_SERVER_ERROR, "An unexpected error occurred.")

  /** The attributes of a `@ThrowIf` annotation; `exception` has no default. */
  datatype ThrowIfConfig = ThrowIfConfig(expression: string, exception: ThrowableClass, message: string)

  /** The default of `@ThrowIf(message = …)`. */
  const DefaultThrowIfMessage := "Condition evaluated to true, throwing exception."

  /** What `getValue(context, Boolean.class)` gives for the expression: a `Boolean` that may
      be `null`, or the exception parsing or evaluating it throws. */
  datatype Evaluation = Evaluated(value: Option<bool>) | EvaluationFailed(error: Throwable)

  /** What the advice does once it has run. */
  datatype Advice = Proceeds | Throws(thrown: Throwable)

  const FallbackPrefix := "Condition met to throw exception, but failed to create the specified exception: "

  /** The `RuntimeException` thrown from the `catch` block. */
  function Fallback(message: string): (t: Throwable)
    ensures t.Raised? && t.cls == RuntimeExceptionClass && t.cause == None
    ensures t.message.Some? && |t.message.value| == |FallbackPrefix| + |message|
    ensures t.message.value[..|FallbackPrefix|] == FallbackPrefix
    ensures t.message.value[|FallbackPrefix|..] == message
  {
    Raised(RuntimeExceptionClass, Some(FallbackPrefix + message), None)
  }

  /** `handleException`: after-throwing advice. It never lets the call return; it throws an
      `exceptions.ErrorResponse` with the annotation's status and message, caused by `ex`. */
  function HandleException(config: HandleExceptionConfig, ex: Throwable, now: Timestamp): (r: Advice)
    ensures r.Throws? && r.thrown.Envelope?
    ensures r.thrown.response.statusCode == config.statusCode
    ensures r.thrown.response.message == Some(config.message)
    ensures r.thrown.response.cause == Some(ex)
    ensures r.thrown.response.timestamp == Some(now)
  {
    Throws(Envelope(ErrorResponses.WithCause(config.statusCode, Some(config.message), ex, now)))
  }

  /** `throwIf` as written: after-returning advice. Only `Boolean.TRUE` triggers it. The
      evaluation happens before the `try`, so its failure escapes unchanged. Inside the
      `try`, the `throw` of the new instance is itself caught by `catch (Exception e)`
      whenever the configured class is an `Exception`, so only non-`Exception` throwables
      escape as configured; everything else becomes the fallback `RuntimeException`. */
  function ThrowIf(config: ThrowIfConfig, evaluation: Evaluation): (r: Advice)
    ensures evaluation.EvaluationFailed? ==> r == Throws(evaluation.error)
    ensures evaluation.Evaluated? ==> (r.Throws? <==> evaluation.value == Some(true))
    ensures evaluation.Evaluated? && r.Throws? && (config.exception.isException || !config.exception.instantiable)
            ==> r.thrown == Fallback(config.message)
    ensures evaluation.Evaluated? ==>
              (r == Throws(Raised(config.exception, Some(config.message), None))
               <==> evaluation.value == Some(true) && !config.exception.isException && config.exception.instantiable)
  {
    match evaluation
    case EvaluationFailed(error) => Throws(error)
    case Evaluated(value) =>
      if value == Some(true) then
        var cls := config.exception;
        var created := Raised(cls, Some(config.message), None);
        if !cls.instantiable then Throws(Fallback(config.message))
        else if cls.isException then Throws(Fallback(config.message))
        else Throws(created)
      else Proceeds
  }

  /** `throwIf` as its comment intends: the fallback only when the configured throwable
      cannot be created. */
  function ThrowIfIntended(config: ThrowIfConfig, evaluation: Evaluation): (r: Advice)
    ensures evaluation.EvaluationFailed? ==> r == Throws(evaluation.error)
    ensures evaluation.Evaluated? ==> (r.Throws? <==> evaluation.value == Some(true))
    ensures evaluation.Evaluated? ==>
              (r == Throws(Raised(config.exception, Some(config.message), None))
               <==> evaluation.value == Some(true) && config.exception.instantiable)
    ensures evaluation.Evaluated? && r.Throws? && !config.exception.instantiable
            ==> r.thrown == Fallback(config.message)
  {
    match evaluation
    case EvaluationFailed(error) => Throws(error)
    case Evaluated(value) =>
      if value == Some(true) then
        if config.exception.instantiable then Throws(Raised(config.exception, Some(config.message), None))
        else Throws(Fallback(config.message))
      else Proceeds
  }

  /** With the annotation's defaults the envelope says 500, "An unexpected error occurred.". */
  lemma DefaultHandleExceptionEnvelope(ex: Throwable, now: Timestamp)
    ensures var r := HandleException(DefaultHandleException, ex, now);
            r.thrown.response.statusCode == 500
            && r.thrown.response.message == Some("An unexpected error occurred.")
  {
  }

  /** The `@ThrowIf` example of the annotation's own documentation: an
      `IllegalStateException` is requested, but the advice throws the fallback
      `RuntimeException` instead. */
  lemma ConfiguredExceptionIsReplaced()
    ensures var illegalState := ThrowableClass("java.lang.IllegalStateException", true, true);
            var config := ThrowIfConfig("#returnValue.isEmpty()", illegalState, "The returned list cannot be empty.");
            && ThrowIf(config, Evaluated(Some(true))) == Throws(Fallback("The returned list cannot be empty."))
            && ThrowIf(config, Evaluated(Some(true))) != Throws(Raised(illegalState, Some("The returned list cannot be empty."), None))
            && ThrowIfIntended(config, Evaluated(Some(true))) == Throws(Raised(illegalState, Some("The returned list cannot be empty."), None))
  {
  }

  /** Both versions agree except where a creatable `Exception` subtype is configured. */
  lemma IntendedDiffersOnlyForExceptions(config: ThrowIfConfig, evaluation: Evaluation)
    ensures ThrowIf(config, evaluation) != ThrowIfIntended(config, evaluation)
            <==> evaluation == Evaluated(Some(true)) && config.exception.isException && config.exception.instantiable
  {
  }

  /** With the default `@ThrowIf` message, a configured `Exception` subtype gives the
      fallback carrying the prefix and that default message. */
  lemma DefaultThrowIfFallback(expression: string, cls: ThrowableClass)
    requires cls.isException
    ensures ThrowIf(ThrowIfConfig(expression, cls, DefaultThrowIfMessage), Evaluated(Some(true)))
            == Throws(Raised(RuntimeExceptionClass, Some(FallbackPrefix + DefaultThrowIfMessage), None))
  {
  }

  /** The envelope thrown by `handleException` reaches the client through the `exceptions`
      handler with the annotation's status, and is itself the response body. */
  lemma HandledEnvelopeReachesClient(config: HandleExceptionConfig, ex: Throwable, thrownAt: Timestamp, now: Timestamp)
    ensures var envelope := HandleException(config, ex, thrownAt).thrown;
            GlobalExceptionHandler.Dispatch(envelope, now)
              == Some(GlobalExceptionHandler.Response(envelope.response, config.statusCode))
  {
  }

  /** The aspect throws the `exceptions` envelope, which the `core.exception` handler does
      not know: there it becomes the generic 500 and the annotation's status is lost. */
  lemma HandledEnvelopeUnderCoreHandler(config: HandleExceptionConfig, ex: Throwable, thrownAt: Timestamp, now: Timestamp)
    ensures var envelope := HandleException(config, ex, thrownAt).thrown;
            var r := CoreGlobalExceptionHandler.Dispatch(envelope, now);
            r.status == INTERNAL_SERVER_ERROR && r.body.message == Some(CoreGlobalExceptionHandler.GenericMessage)
  {
  }
}
