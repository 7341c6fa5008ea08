/** Option and Result, the two wrappers the model uses for absent values and for the
    exceptions the constructors and lookups raise. */
module Wrappers {

  /** A Python `Optional[...]` argument: `None` or a value. */
  datatype Option<T> = None | Some(value: T)

  /** The outcome of a call that may raise: the returned value, or the exception raised. */
  datatype Result<T, E> = Success(value: T) | Failure(error: E)
}
