/** Optional values and results; None is also an error that the model does not tell apart from others. */
module Results {
  datatype Option<T> = None | Some(value: T)

  datatype Result<T, E> = Ok(value: T) | Err(error: E)
}
