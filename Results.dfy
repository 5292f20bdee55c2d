/** Failure-carrying values that stand in for the exceptions and nullable
    results of the original program. */
module Results {

  /** A value that may be absent (a `null` reference or `FirstOrDefault` miss). */
  datatype Option<+T> = None | Some(value: T)

  /** A computed value, or the error that the original program would throw. */
  datatype Result<+T, +E> = Success(value: T) | Failure(error: E)

  /** An action that either completes or fails with an error, returning nothing. */
  datatype Outcome<+E> = Pass | Fail(error: E)
}
