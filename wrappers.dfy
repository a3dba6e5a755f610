/** Option, Result and Outcome, plus the two Python exception kinds the core raises. */
module Wrappers {

  datatype Option<T> = None | Some(value: T)

  /** The exceptions raised by the modelled code: `ValueError(msg)` and `KeyError(key)`. */
  datatype Error = ValueError(message: string) | KeyError(key: string)

  /** A value, or the exception that was raised instead of producing it. */
  datatype Result<T> = Success(value: T) | Failure(error: Error)

  /** A statement that either completes or raises. */
  datatype Outcome = Pass | Fail(error: Error)

  /** Python truthiness of an optional string: `None` and `""` are both falsy. */
  predicate Truthy(s: Option<string>) {
    s.Some? && s.value != ""
  }
}
