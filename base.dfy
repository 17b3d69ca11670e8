/** Optional values and fallible results, used for Swift's `T?` and `throws`. */
module Base {

  /** Swift's `Optional<T>`: `nil` is `None`. */
  datatype Option<+T> = None | Some(value: T)

  /** The outcome of an initialiser that `throws`. */
  datatype Result<+R, +E> = Success(value: R) | Failure(error: E)
}
