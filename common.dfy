/** Optional values and results shared by every module of the model. */
module Common {

  /** A value that may be absent (Python's `None`, a missing dictionary key). */
  datatype Option<+T> = None | Some(value: T) {
    function GetOr(default: T): T {
      match this
      case Some(v) => v
      case None => default
    }
  }

  /** The outcome of a step that either returns a value or raises an exception. */
  datatype Result<+T, +E> = Ok(value: T) | Raised(error: E)

  /** What a step may raise: the user's Ctrl-C, or any other exception by its class name. */
  datatype Exception = KeyboardInterrupt | Error(name: string)

  /** The exception a missing dictionary key raises. */
  const KeyError: Exception := Error("KeyError")

  /** The exception `ThreadPoolExecutor(max_workers=n)` raises when `n <= 0`. */
  const ValueError: Exception := Error("ValueError")

  /** Whether `ThreadPoolExecutor(max_workers=n)` accepts `n`. */
  predicate PoolAccepts(n: int) {
    n > 0
  }
}
