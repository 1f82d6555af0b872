/** The outcome of an operation that may throw. */
module Results {
  datatype Result<+T, +E> = Success(value: T) | Failure(error: E)
}
