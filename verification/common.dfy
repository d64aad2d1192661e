/** Values shared by the gateway's modelled components: optional values,
    results with an error side, the Java throwables that cross component
    boundaries, and the one-shot asynchronous result handed to handlers. */
module Common {

  /** A Java reference that may be null. */
  datatype Option<+T> = None | Some(value: T) {
    /** The value, or the given fallback when absent. */
    function GetOr(default: T): T {
      match this
      case Some(v) => v
      case None => default
    }
  }

  /** A return value or the exception that replaced it. */
  datatype Result<+T, +E> = Ok(value: T) | Err(error: E)

  /** The throwables the modelled code creates or forwards. */
  datatype Throwable =
    | /** An `AbstractEngineException` subclass (PublishingException, RegistrationException, ...). */
      EngineException(className: string, message: string)
    | /** `new RuntimeException(cause)`: a generic wrapper keeping its cause. */
      RuntimeWrapper(cause: Throwable)
    | /** Any other throwable, named by its class. */
      OtherThrowable(className: string, message: string)

  /** `error instanceof AbstractEngineException`. */
  predicate IsEngineException(t: Throwable) {
    t.EngineException?
  }

  /** `IAsyncResult<T>`: what an async operation hands its result handler,
      built by `AsyncResultImpl.create(value)` or `AsyncResultImpl.create(error)`. */
  datatype AsyncResult<+T> = Success(value: T) | Failure(error: Throwable) {
    predicate IsError() {
      Failure?
    }
  }
}
