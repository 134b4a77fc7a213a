/** Option and Result, used for PHP's nullable returns and for exceptions that escape a call. */
module Wrappers {

  /** `None` stands for PHP's NULL (or FALSE, where a builtin returns FALSE on failure). */
  datatype Option<+T> = None | Some(value: T)

  /** `Failure` stands for an exception that the modelled code lets propagate to its caller. */
  datatype Result<+T> = Success(value: T) | Failure(error: string)
}
