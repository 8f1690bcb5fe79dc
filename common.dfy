/** Failure-compatible wrappers shared by every module of the model.
    `Option` also stands for SQL NULL and pandas NaN: `None` is the missing value. */
module Common {

  datatype Option<+T> = None | Some(value: T)

  datatype Result<+T, +E> = Ok(value: T) | Err(error: E)

  /** The outcome of a statement run for its effect: it either completes or raises. */
  datatype Outcome<+E> = Pass | Fail(error: E)
}
