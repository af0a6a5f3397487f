/** Optional values and the outcome of a remote call.

    Every backend call of the application is awaited inside a try/catch; the
    model passes its outcome in as a `Result`: the decoded reply, or the
    message of the error the HTTP client threw. */
module Wrappers {

  /** A value that may be absent (`null` / `undefined` in the source). */
  datatype Option<+T> = None | Some(value: T)

  /** The outcome of one awaited remote call. */
  datatype Result<+T> = Success(value: T) | Failure(message: string)
}
