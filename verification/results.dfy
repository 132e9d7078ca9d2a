/** Optional values and failures, for the places where the source yields
    NaN or raises. */
module Results {

  datatype Option<T> = None | Some(value: T)

  datatype Result<T, E> = Success(value: T) | Failure(error: E)
}
