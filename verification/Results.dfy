/** The two failure-carrying datatypes used throughout: an optional value and a value-or-error. */
module Results {

  datatype Option<+T> = None | Some(value: T)

  datatype Result<+T, +E> = Ok(value: T) | Err(error: E)
}
