/** Optional values and the exceptions the library throws, as values. */
module Results {

  datatype Option<+T> = None | Some(value: T)

  /** The two .NET exception types whose handling the library distinguishes. */
  datatype Exception =
    | ApplicationException(message: string)
    | WebException(message: string)

  /** A computation that either returns a value or throws. */
  datatype Result<+T> = Success(value: T) | Failure(error: Exception)
}
