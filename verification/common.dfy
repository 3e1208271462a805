/** Small failure-compatible datatypes shared by the raster utility modules. */
module Common {

  /** A value that may be absent; stands for Python's `None`. */
  datatype Option<+T> = None | Some(value: T)

  /** The outcome of an operation that can raise: either a value or the error it raised. */
  datatype Result<+T, +E> = Ok(value: T) | Err(error: E)
}
