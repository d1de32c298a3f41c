/** Optional values and results with an error, as used throughout the model. */
module Wrappers {
  datatype Option<T> = None | Some(value: T)
  {
    /** Python's `d.get(key, default)`: the value when present, else the default. */
    function GetOr(default: T): T
    {
      if Some? then value else default
    }
  }

  datatype Result<T, E> = Success(value: T) | Failure(error: E)

  /** The Python exception classes the core catches or lets propagate. */
  datatype Exception = ValueError | TypeError | KeyError | OtherError
}
