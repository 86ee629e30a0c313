/** Small value wrappers, and the user identifier and HTTP error shared by the whole model. */
module Base {

  /** An optional value: JavaScript's `undefined`/`null` versus a present value. */
  datatype Option<T> = None | Some(value: T)

  /** An operation that either yields a value or fails with an error. */
  datatype Result<T, E> = Ok(value: T) | Err(error: E)

  /** A user's `_id`, as the token subject and as a blog's author. */
  type UserId = string

  /** The `ApiError` the handlers throw: an HTTP status and a message. */
  datatype ApiError = ApiError(status: nat, message: string)
}
