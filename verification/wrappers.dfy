/** Option and Result, the two failure-carrying datatypes the rest of the model uses. */
module Wrappers {

  /** A value that may be absent: JavaScript's `null`/`undefined` for a field or variable. */
  datatype Option<+T> = None | Some(value: T)

  /** The outcome of a step that can throw: a value, or the error that was thrown. */
  datatype Result<+R, +E> = Success(value: R) | Failure(error: E)
}

/** What the hosted database hands back to a client call, abstracted from the query builder. */
module Database {

  /** The answer to a read: the rows that the query would see, or a returned error. */
  datatype Read<+T> = Rows(value: T) | ReadError(message: string)

  /** The answer to a write that the client library returns (`{ error }`) rather than throws. */
  datatype Ack = Stored | DbError(message: string)

  /** A write call either returns an acknowledgement or throws (network failure and the like). */
  datatype Call = Returned(ack: Ack) | Threw(message: string)
}
