/** The Go convention of returning `(value, error)`, as a value-or-error datatype. */
module Results {

  /** `Ok(v)` is a `(v, nil)` return, `Err(e)` a return whose error is `e`. */
  datatype Result<+T, +E> = Ok(value: T) | Err(error: E)
}
