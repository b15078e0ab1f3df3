/** Failure-carrying wrappers and the loosely typed argument values the
    beam classes receive from their callers. */
module Common {

  /** An optional value; `None` stands for JavaScript's `null`, `undefined`
      and the `NaN` a conversion returns for an unknown unit. */
  datatype Option<+T> = None | Some(value: T)

  /** The outcome of an operation that may throw: `Failure` carries the
      message of the thrown error. */
  datatype Result<+T> = Success(value: T) | Failure(message: string)

  /** A constructor argument as a caller may pass it: a number or a string.
      Kind arguments are compared against string constants, so a number
      never names a kind. */
  datatype Arg = Num(num: real) | Str(str: string)
}
