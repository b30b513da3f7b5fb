/** Failure-compatible wrappers shared by the whole model, and the Java
    exceptions the modelled code raises or lets through. A Java `null`
    is `None` wherever the source distinguishes it. */
module Wrappers {

  datatype Option<+T> = None | Some(value: T)

  /** Why an `IllegalArgumentException` was raised. */
  datatype Reason =
    | NullArgument            // Validate.notNull
    | EmptyArgument           // Validate.notEmpty
    | NoDestinationShards     // a rule record without shards
    | NeitherNamespaceNorSqlAction
    | BothNamespaceAndSqlAction
    | UnexpectedArgumentCount // the cache aspect on a call with != 1 argument
    | NullCacheMap
    | InvalidPoolSize         // the JDK rejects a thread pool or queue of this size

  /** The exceptions of the modelled code. The Spring data-access
      exceptions are the ones `IsDataAccess` accepts. */
  datatype Exception =
    | IllegalArgument(reason: Reason)
    | IndexOutOfBounds
    | NullPointer
    | SqlException(code: int)
    | DataAccess(code: int)
    | CannotGetJdbcConnection(cause: Exception)
    | ConcurrencyFailure(cause: Exception)

  /** Subclasses of Spring's DataAccessException. */
  predicate IsDataAccess(e: Exception) {
    e.DataAccess? || e.CannotGetJdbcConnection? || e.ConcurrencyFailure?
  }

  datatype Result<+T> = Success(value: T) | Failure(error: Exception) {
    predicate IsFailure() { Failure? }
    function PropagateFailure<U>(): Result<U>
      requires Failure?
    {
      Failure(error)
    }
    function Extract(): T
      requires Success?
    {
      value
    }
  }

  /** A call that returns nothing: it either completes or raises. */
  datatype Outcome = Pass | Fail(error: Exception) {
    predicate IsFailure() { Fail? }
    function PropagateFailure(): Outcome
      requires Fail?
    {
      this
    }
  }
}
