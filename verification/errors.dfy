/**
 * The three protocol error kinds of the remote-control protocol, and the
 * result types every parsing and validation step returns instead of raising.
 *
 * In the source the kinds are exception classes, UnknownCommandError and
 * InvalidArgumentError both deriving from ProtocolError; here they are the
 * constructors of one datatype, so a caller sees which check failed.
 */
module Errors {

  datatype ErrorKind =
    | ProtocolError      // undecodable bytes or an empty line
    | UnknownCommand     // the command token is not recognised
    | InvalidArgument    // wrong argument count or argument type

  datatype Option<+T> = None | Some(value: T)

  /** The outcome of an operation that yields a value or raises one of the error kinds. */
  datatype Result<+T> = Ok(value: T) | Err(error: ErrorKind)

  /** The outcome of a check that yields nothing or raises one of the error kinds. */
  datatype Check = Pass | Fail(error: ErrorKind)
}
