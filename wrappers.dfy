/** Optional values and results with an error, used where the source returns `null`,
    leaves an object key out, or reports a failure. */
module Wrappers {

  /** A value that may be absent: a missing key of a partial record, a `null` result,
      or a number parse that produced `NaN`. */
  datatype Option<+T> = None | Some(value: T)

  /** The outcome of an operation that can fail with an error of type `E`. */
  datatype Result<+T, +E> = Ok(value: T) | Err(error: E)
}
