/** The source's exceptions and optional values, as data. */
module Results {
  datatype Result<+T, +E> = Ok(value: T) | Err(error: E)
  datatype Option<+T> = None | Some(value: T)
}
