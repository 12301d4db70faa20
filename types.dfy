/** Value wrappers shared by every module: Java's Optional (and nullable references) and
    the two outcomes of a call that may throw. */
module Types {

  datatype Option<T> = None | Some(value: T)

  datatype Result<T, E> = Success(value: T) | Failure(error: E)
}
