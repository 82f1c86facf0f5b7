/** Option and Result, used for Java's null references and for exceptions. */
module Wrappers {

  /** None plays the role of a Java null reference. */
  datatype Option<+T> = None | Some(value: T)

  /** Failure carries an exception that the modelled code lets escape. */
  datatype Result<+R, +E> = Success(value: R) | Failure(error: E)
}
