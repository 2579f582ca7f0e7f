/** Option and result types shared by the handshake model. */
module Wrappers {

  /** An optional value: the peer endpoint before the first Connect, an absent close reason. */
  datatype Option<+T> = None | Some(value: T)

  /** The outcome of a call that either returns a value or throws an error. */
  datatype Result<+R, +E> = Success(value: R) | Failure(error: E)
}
