/** Small failure-carrying datatypes shared by the other modules. */
module Base {

  /** A value that may be absent: a JavaScript `undefined`/`null` or a missing property. */
  datatype Option<+T> = None | Some(value: T)

  /** The settled state of a promise: resolved with a value, or rejected with an error message. */
  datatype Result<+T> = Success(value: T) | Failure(message: string)
}
