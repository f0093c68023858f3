/** Optional values, where the program uses a missing map entry, a nil pointer or a flag, and
    results, where it returns an error or throws. */
module Wrappers {
  datatype Option<+T> = None | Some(value: T)

  datatype Result<+T, +E> = Ok(value: T) | Err(error: E)
}
