# boot-commons core, modelled in Dafny

boot-commons is a set of Spring Boot helpers. This project models the parts of it whose
behaviour can be stated without Spring itself:

- the generic CRUD controller (`GenericRestController`) and the ID-keyed store contract it
  drives (`IBaseService`), as classes whose methods change the store in place;
- the two `ErrorResponse` envelopes and the two `GlobalExceptionHandler`s that turn a
  failure into an envelope and an HTTP status, as datatypes and pure functions;
- the decision logic of `ExceptionAspect` (`@HandleException` and `@ThrowIf` advice), as
  pure functions returning "the call proceeds" or "the advice throws X";
- the `CacheService` contract, as a class backed by a map;
- the `nullOrEmpty` helpers of `Util`.

Java `null` is `None` of an `Option`; an exception an operation documents is a `Failure`
or `Fail` value. The clock (`LocalDateTime.now()`) is an input `now`; the result of the
SpEL expression and whether reflection can create the configured throwable are inputs too.
Spring's choice of exception handler by type is written as an explicit match (`Dispatch`).
`Http.IsKnownCode` lists the codes of Spring Framework 6's `HttpStatus` enum, for which
`HttpStatus.valueOf` succeeds; that enum is not part of this model.

Files: `wrappers.dfy` (Option, Result, Outcome), `http.dfy` (status codes, `ResponseEntity`),
`throwables.dfy` (the throwables and both envelope datatypes, which refer to each other
through the cause), then one file per source file.

## Model

| member | source | states |
|---|---|---|
| `ErrorResponses.WithCause` | src/main/java/io/github/siddharth177/bootcommons/exceptions/ErrorResponse.java:43-48 | status code is the status's value (so a known code), field and throwable message are both the argument, the cause is kept, the timestamp is the clock reading |
| `ErrorResponses.WithoutCause` | src/main/java/io/github/siddharth177/bootcommons/exceptions/ErrorResponse.java:56-61 | as above, with no cause |
| `ErrorResponses.AllArgs` | src/main/java/io/github/siddharth177/bootcommons/exceptions/ErrorResponse.java:17-34 | the three fields are stored unchecked; `getMessage()` returns the `message` field, while the superclass's hidden detail message and the cause are null |
| `ErrorResponses.StatusConstructorsGiveKnownCodes` | src/main/java/io/github/siddharth177/bootcommons/exceptions/ErrorResponse.java:17-61 | `HttpStatus.valueOf` accepts the code of an envelope built from an `HttpStatus`, and rejects one the all-args constructor can build |
| `DtoErrorResponses.WithCause` | src/main/java/io/github/siddharth177/bootcommons/dto/ErrorResponse.java:33-38 | status code is the status's value, field and throwable message are both the argument, the cause is kept, the timestamp is set once from the clock |
| `DtoErrorResponses.WithoutCause` | src/main/java/io/github/siddharth177/bootcommons/dto/ErrorResponse.java:40-45 | as above, with no cause |
| `DtoErrorResponses.ConstructorsDifferOnlyInCause` | src/main/java/io/github/siddharth177/bootcommons/dto/ErrorResponse.java:33-45 | the two constructors give the same envelope except for the cause |
| `GlobalExceptionHandler.HandleResourceNotFoundException` | src/main/java/io/github/siddharth177/bootcommons/exceptions/GlobalExceptionHandler.java:25-33 | response status and body code are 404, the body message is the exception's message |
| `GlobalExceptionHandler.HandleErrorResponse` | src/main/java/io/github/siddharth177/bootcommons/exceptions/GlobalExceptionHandler.java:42-45 | a response exists iff the envelope's code is a known status; then the envelope is the body and its code the status |
| `GlobalExceptionHandler.HandleGlobalException` | src/main/java/io/github/siddharth177/bootcommons/exceptions/GlobalExceptionHandler.java:53-61 | 500 with the fixed message "An unexpected error occurred" (no period), no cause |
| `GlobalExceptionHandler.Dispatch` | src/main/java/io/github/siddharth177/bootcommons/exceptions/GlobalExceptionHandler.java:25-61 | not-found goes to the 404 handler, an envelope to its own status, anything else to 500; in every branch the body's code equals the response status; no response only for an envelope with an unknown code |
| `GlobalExceptionHandler.GlobalHidesFailure` | src/main/java/io/github/siddharth177/bootcommons/exceptions/GlobalExceptionHandler.java:53-61 | two different unhandled failures at the same instant get the same response: nothing of theirs is exposed |
| `CoreGlobalExceptionHandler.HandleResourceNotFoundException` | src/main/java/io/github/siddharth177/bootcommons/core/exception/GlobalExceptionHandler.java:24-28 | 404 via the two-argument envelope constructor carrying the exception's message |
| `CoreGlobalExceptionHandler.HandleErrorResponse` | src/main/java/io/github/siddharth177/bootcommons/core/exception/GlobalExceptionHandler.java:37-40 | the envelope passes through as the body with its own code as status; it never fails, since a dto envelope's code always comes from an `HttpStatus` |
| `CoreGlobalExceptionHandler.HandleGlobalException` | src/main/java/io/github/siddharth177/bootcommons/core/exception/GlobalExceptionHandler.java:48-52 | 500 with "An unexpected error occurred." (with period), original failure discarded |
| `CoreGlobalExceptionHandler.Dispatch` | src/main/java/io/github/siddharth177/bootcommons/core/exception/GlobalExceptionHandler.java:24-52 | every failure gets a response whose body code equals its status; 404 iff not-found or a 404 envelope |
| `CoreGlobalExceptionHandler.GlobalHidesFailure` | src/main/java/io/github/siddharth177/bootcommons/core/exception/GlobalExceptionHandler.java:48-52 | two different unhandled failures at the same instant get the same response |
| `ExceptionAspect.Fallback` | src/main/java/io/github/siddharth177/bootcommons/aop/aspects/ExceptionAspect.java:76-80 | the fallback is a `RuntimeException` without cause whose message is the fixed prefix followed by the configured message |
| `ExceptionAspect.HandleException` | src/main/java/io/github/siddharth177/bootcommons/aop/aspects/ExceptionAspect.java:46-52 | never proceeds: always throws an `exceptions.ErrorResponse` with the annotation's status and message and the original throwable as cause |
| `ExceptionAspect.DefaultHandleExceptionEnvelope` | src/main/java/io/github/siddharth177/bootcommons/aop/annotations/HandleException.java:41-48 | with the annotation's defaults the envelope has status 500 and "An unexpected error occurred." |
| `ExceptionAspect.ThrowIf` | src/main/java/io/github/siddharth177/bootcommons/aop/aspects/ExceptionAspect.java:63-82 | an evaluation failure escapes unchanged; otherwise it throws iff the value is `Boolean.TRUE` (false and null proceed); a configured `Exception` subtype or an uncreatable class yields the fallback; the configured throwable escapes iff it is a creatable non-`Exception` |
| `ExceptionAspect.ThrowIfIntended` | src/main/java/io/github/siddharth177/bootcommons/aop/aspects/ExceptionAspect.java:73-80 | corrected advice: the configured throwable escapes iff the value is true and it can be created; the fallback only otherwise |
| `ExceptionAspect.ConfiguredExceptionIsReplaced` | src/main/java/io/github/siddharth177/bootcommons/aop/aspects/ExceptionAspect.java:73-80 | the documented `IllegalStateException` example throws the fallback as written, and the configured exception once corrected |
| `ExceptionAspect.IntendedDiffersOnlyForExceptions` | src/main/java/io/github/siddharth177/bootcommons/aop/aspects/ExceptionAspect.java:73-80 | as written and corrected differ exactly when the value is true and a creatable `Exception` subtype is configured |
| `ExceptionAspect.DefaultThrowIfFallback` | src/main/java/io/github/siddharth177/bootcommons/aop/annotations/ThrowIf.java:59 | with the default `@ThrowIf` message, a configured `Exception` subtype throws the fallback whose message is the prefix followed by that default |
| `ExceptionAspect.HandledEnvelopeReachesClient` | src/main/java/io/github/siddharth177/bootcommons/exceptions/GlobalExceptionHandler.java:42-45 | the envelope `handleException` throws reaches the client through the `exceptions` handler as the body, with the annotation's status |
| `ExceptionAspect.HandledEnvelopeUnderCoreHandler` | src/main/java/io/github/siddharth177/bootcommons/core/exception/GlobalExceptionHandler.java:48-52 | the `core.exception` handler does not know that envelope type: it answers 500 with its generic message |
| `BaseService.StoreAllKeys` | src/main/java/io/github/siddharth177/bootcommons/services/IBaseService.java:25-32 | after saving a batch exactly the old identifiers and the batch's identifiers are stored |
| `BaseService.StoreAllKeepsIds` | src/main/java/io/github/siddharth177/bootcommons/services/IBaseService.java:25-32 | saving a batch keeps every entity filed under its own identifier |
| `BaseService.StoreAllLastWins` | src/main/java/io/github/siddharth177/bootcommons/services/IBaseService.java:25-32 | an entity of the batch not replaced by a later one with the same identifier is the one stored |
| `BaseService.EntityService.Save` | src/main/java/io/github/siddharth177/bootcommons/services/IBaseService.java:17-23 | returns what persistence made of the entity (an input of the call, tied to the entity in no other way), stored under that result's own identifier; nothing else changes |
| `BaseService.EntityService.SaveAll` | src/main/java/io/github/siddharth177/bootcommons/services/IBaseService.java:25-32 | a null iterable is rejected with IllegalArgument and nothing changes; otherwise one saved entity per input (what persistence made of it), in order, stored as a sequence of saves |
| `BaseService.EntityService.FindById` | src/main/java/io/github/siddharth177/bootcommons/services/IBaseService.java:34-40 | present iff an entity with that identifier is stored, and then it is that entity |
| `BaseService.EntityService.ExistsById` | src/main/java/io/github/siddharth177/bootcommons/services/IBaseService.java:42-48 | true iff an entity with that identifier is stored |
| `BaseService.EntityService.FindAll` | src/main/java/io/github/siddharth177/bootcommons/services/IBaseService.java:50-55 | every stored entity exactly once: same count, same elements, no repeats |
| `BaseService.EntityService.FindAllById` | src/main/java/io/github/siddharth177/bootcommons/services/IBaseService.java:57-68 | a null iterable is rejected; otherwise exactly the stored entities among the identifiers, each once, never more than identifiers given |
| `BaseService.EntityService.Count` | src/main/java/io/github/siddharth177/bootcommons/services/IBaseService.java:70-75 | the number of stored identifiers |
| `BaseService.EntityService.DeleteById` | src/main/java/io/github/siddharth177/bootcommons/services/IBaseService.java:77-83 | a missing identifier fails with EmptyResultDataAccess and changes nothing; otherwise exactly that identifier is removed |
| `BaseService.EntityService.Delete` | src/main/java/io/github/siddharth177/bootcommons/services/IBaseService.java:85-91 | a null entity is rejected; otherwise exactly the entity's identifier is removed |
| `BaseService.EntityService.DeleteEntities` | src/main/java/io/github/siddharth177/bootcommons/services/IBaseService.java:93-99 | a null iterable is rejected; otherwise exactly the given entities' identifiers are removed |
| `BaseService.EntityService.DeleteAll` | src/main/java/io/github/siddharth177/bootcommons/services/IBaseService.java:101-104 | the store is empty afterwards |
| `GenericRestController.Controller.constructor` | src/main/java/io/github/siddharth177/bootcommons/controller/GenericRestController.java:32-34 | the controller drives exactly the store it is given |
| `GenericRestController.Controller.Create` | src/main/java/io/github/siddharth177/bootcommons/controller/GenericRestController.java:42-46 | one save of the body; 201 with what save returned; two posts of one body may store two entities |
| `GenericRestController.Controller.GetAll` | src/main/java/io/github/siddharth177/bootcommons/controller/GenericRestController.java:53-57 | 200 with every stored entity once; the store is not modified |
| `GenericRestController.Controller.GetById` | src/main/java/io/github/siddharth177/bootcommons/controller/GenericRestController.java:66-71 | 200 with the stored entity iff the identifier is stored, otherwise 404 with no body; the store is not modified |
| `GenericRestController.Controller.Update` | src/main/java/io/github/siddharth177/bootcommons/controller/GenericRestController.java:81-88 | a missing identifier gives 404 and no save; otherwise one save of the body under its own identifier (not necessarily the path's) and 200 with the result |
| `GenericRestController.Controller.Delete` | src/main/java/io/github/siddharth177/bootcommons/controller/GenericRestController.java:97-104 | a missing identifier gives 404 and no deletion; otherwise 204 with no body and the identifier is gone; deleteById's failure is unreachable; every status is 200, 201, 204 or 404 |
| `CacheService.MapCache.Save` | src/main/java/io/github/siddharth177/bootcommons/services/CacheService.java:11-18 | returns the saved value, which is then cached under the key; other keys unchanged |
| `CacheService.MapCache.Get` | src/main/java/io/github/siddharth177/bootcommons/services/CacheService.java:20-26 | the cached value, or null iff the key is absent |
| `CacheService.MapCache.Remove` | src/main/java/io/github/siddharth177/bootcommons/services/CacheService.java:28-33 | afterwards the key has no value; other keys unchanged |
| `CacheService.MapCache.Clear` | src/main/java/io/github/siddharth177/bootcommons/services/CacheService.java:35-38 | afterwards no key has a value |
| `CacheService.MapCache.Contains` | src/main/java/io/github/siddharth177/bootcommons/services/CacheService.java:40-46 | true iff the cache holds a value for the key |
| `Util.NullOrEmptyString` | src/main/java/com/github/bootcommons/utils/Util.java:16-18 | false iff the string is non-null and holds a character; defined for null |
| `Util.NullOrEmptyList` | src/main/java/com/github/bootcommons/utils/Util.java:20-22 | false iff the list is non-null and holds an element; defined for null |
| `Util.NullOrEmptyMap` | src/main/java/com/github/bootcommons/utils/Util.java:24-26 | false iff the map is non-null and has a key; defined for null |
| `Util.NullOrEmptySet` | src/main/java/com/github/bootcommons/utils/Util.java:28-30 | false iff the set is non-null and holds an element; defined for null |

## Findings

| source | as written | input that shows it | evidently intended | confidence | as-written member | corrected member |
|---|---|---|---|---|---|---|
| src/main/java/io/github/siddharth177/bootcommons/aop/aspects/ExceptionAspect.java:73-80 | the `throw` of the created exception sits inside `try … catch (Exception e)`, so every configured `Exception` subtype is caught and replaced by the fallback `RuntimeException` | `@ThrowIf(expression = "#returnValue.isEmpty()", exception = IllegalStateException.class, …)` on a method returning an empty list | throw the configured exception; fall back only when it cannot be created (the comment says "if instantiation fails") | high; not executed | `ExceptionAspect.ThrowIf`, shown by `ExceptionAspect.ConfiguredExceptionIsReplaced` | `ExceptionAspect.ThrowIfIntended`, related by `ExceptionAspect.IntendedDiffersOnlyForExceptions` |

## Left out

- `BaseService` is not part of this model: each method only delegates to a Spring Data `JpaRepository`. The store models the `IBaseService` contract instead, as a map from identifier to entity. Its loops in `FindAll` and `FindAllById` belong to that map-backed store, not to the source.
- `LoggingAspect` and `TimingAspect` only log and read the clock around `proceed()`. The logger calls in `ExceptionAspect` are left out too.
- Configuration classes (Swagger, CORS, AOP, the application class), `Auditable` (filled by JPA auditing), the marker annotations `Loggable` and `Timed`, `com.github.bootcommons.exceptions.ErrorResponse` and `Caches` only wire framework beans or hold constants.
- `Util.delay` is a `Thread.sleep`.
- SpEL parsing and evaluation, and the reflective constructor lookup, are inputs (`Evaluation`, `ThrowableClass.instantiable`). Anything the configured constructor throws, an `Error` included, reaches the advice wrapped in an `InvocationTargetException`. That is an `Exception`, so it gives the fallback, which `instantiable == false` covers. An `ExceptionInInitializerError` from initialising the configured class would escape the `catch`; that case is not modelled.
- The `ResourceNotFoundException` classes of the `exceptions` and `exception` packages are not part of this model. They are taken to be distinct classes that are not `ErrorResponse`s.
- `GlobalExceptionHandler.Dispatch`: when `HttpStatus.valueOf` throws inside `handleErrorResponse`, the model gives no response (`None`); what Spring then does is not modelled.
- What persistence makes of an entity on save is an input of `Save`, `SaveAll`, `Create` and `Update`. `SaveAll` requires one such result per entity of the batch.
- `ErrorResponses.WithCause`: the envelope constructors of both classes take a non-null `HttpStatus` and cause. A null status throws `NullPointerException` at `status.value()`; Java accepts a null cause. Neither case is modelled, and no modelled caller passes either.
- The clock's readings are inputs. Nothing is claimed about timestamps growing over successive envelopes.
- Identifiers and entities that the contract says must not be null are non-null Dafny values. Only the documented `IllegalArgumentException` cases are modelled: a null iterable, and a null entity for `delete`.
- `CacheService.MapCache.Get`: cached values are never null, so a null from `get` means only that the key is absent.
- `BaseService.EntityService.Count`: returns an unbounded natural; the overflow of Java's `long` is not modelled.
- `BaseService.EntityService.FindAll` and `FindAllById` return entities in the order of this store. The contract promises no order, and their ensures promise none.
