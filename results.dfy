/** Option, Result and Outcome: the error paths of the model (Python exceptions become values). */
module Results {

  datatype Option<+T> = None | Some(value: T)

  /** A computation that either produced a value or raised an error. */
  datatype Result<+T, +E> = Ok(value: T) | Err(error: E)

  /** A check that either passed or raised an error (a Python function returning None or raising). */
  datatype Outcome<+E> = Pass | Fail(error: E)
}
