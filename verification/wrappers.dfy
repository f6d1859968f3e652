/** Optional values and error-carrying results, used for JavaScript's
    `undefined`/`null` and for the early-return error paths of the pages. */
module Wrappers {

  /** A value that may be absent (`undefined` or `null` in the source). */
  datatype Option<+T> = None | Some(value: T)

  /** Either a value or the user-facing error message that replaces it. */
  datatype Result<+R, +E> = Success(value: R) | Failure(error: E)
}
