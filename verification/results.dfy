/** Failure-carrying values used across the model: `Option` for a value that may be
    missing (JavaScript's `undefined`, a `reduce` over an empty array) and `Result`
    for an operation that either succeeds or throws. */
module Results {

  datatype Option<T> = None | Some(value: T)

  datatype Result<T, E> = Success(value: T) | Failure(error: E)
}
