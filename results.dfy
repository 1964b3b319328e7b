/** Option and Result values standing for Python's `None` and for raised exceptions. */
module Results {

  datatype Option<+T> = None | Some(value: T)

  /** `Ok(v)` is a normal return; `Err(e)` is an exception `e` that the caller sees. */
  datatype Result<+T, +E> = Ok(value: T) | Err(error: E)
}
