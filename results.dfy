/** The two failure-carrying wrappers the model uses in place of Go's `(value, error)`
    returns and nil pointers. */
module Results {

  datatype Option<+T> = None | Some(value: T)

  datatype Result<+T, +E> = Ok(value: T) | Err(error: E)
}
