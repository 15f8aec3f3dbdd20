/** Success/failure wrappers used for Swift optionals and thrown errors. */
module Results {

  /** A Swift optional: `nil` or a value. */
  datatype Option<+T> = None | Some(value: T)

  /** The outcome of a Swift function that `throws`: a value or the error it threw. */
  datatype Result<+T, +E> = Ok(value: T) | Err(error: E)
}
