/** HTTP status codes as Spring's `HttpStatus` enum knows them, and the `ResponseEntity`
    (body plus status) that controllers and exception handlers return. */
module Http {
  import opened Wrappers

  /** The codes for which `HttpStatus.valueOf(int)` finds a constant (Spring Framework 6). */
  predicate IsKnownCode(code: int) {
    || 100 <= code <= 103
    || 200 <= code <= 208 || code == 226
    || (300 <= code <= 308 && code != 306)
    || 400 <= code <= 426 || code == 428 || code == 429 || code == 431 || code == 451
    || 500 <= code <= 511
  }

  /** An `HttpStatus` constant, identified with its `value()`. */
  type Status = code: int | IsKnownCode(code) witness 200

  const OK: Status := 200
  const CREATED: Status := 201
  const NO_CONTENT: Status := 204
  const NOT_FOUND: Status := 404
  const INTERNAL_SERVER_ERROR: Status := 500

  /** `HttpStatus.valueOf(code)`: the constant with that value, or `None` where Spring
      throws `IllegalArgumentException` for an unknown code. */
  function ValueOf(code: int): (r: Option<Status>)
    ensures r.Some? <==> IsKnownCode(code)
    ensures r.Some? ==> r.value == code
  {
    if IsKnownCode(code) then Some(code) else None
  }

  /** A `ResponseEntity<B>`: an optional body and the response status. */
  datatype ResponseEntity<+B> = ResponseEntity(body: Option<B>, status: Status)
}
