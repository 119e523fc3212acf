/** Error values and failure-carrying results.  The Python source signals
    failure by raising an exception; the model returns the exception's class. */
module Wrappers {

  /** The exception classes the game engine raises. */
  datatype Error =
    | ValueError      // invalid construction or illegal move
    | SystemError     // internal consistency failure, or a player that never joined
    | IndexError      // taking the first element of an empty list
    | AttributeError  // calling a set method on a list

  datatype Result<+T> = Ok(value: T) | Err(error: Error)

  /** The result of an operation that returns nothing on success. */
  datatype Outcome = Pass | Fail(error: Error)
}
