/** Failure-carrying datatypes used throughout the model: the Python code
    signals failure by raising, which the model turns into an explicit
    `Err` / `Fail` value. */
module Wrappers {

  datatype Option<+T> = None | Some(value: T)

  /** The outcome of an operation that returns a value or raises. */
  datatype Result<+R, +E> = Ok(value: R) | Err(error: E)

  /** The outcome of a validator that returns nothing or raises. */
  datatype Outcome<+E> = Pass | Fail(error: E)
}
