/** Optional values (a missing Redis key, a row that does not exist) and results with Go's error returns. */
module Options {
  datatype Option<+T> = None | Some(value: T)

  datatype Result<+T, +E> = Ok(value: T) | Err(error: E)
}
