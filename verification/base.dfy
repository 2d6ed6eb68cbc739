/** Failure-carrying wrappers used throughout the model: `Option` for the
    source's `undefined`/`null` results and `Result` for a value or a thrown
    error. */
module Base {

  datatype Option<+T> = None | Some(value: T)

  datatype Result<+T, +E> = Ok(value: T) | Err(error: E)
}
