/** Failure-carrying values that stand for the exceptions of the catalog's code. */
module Wrappers {

  /** A possibly absent value; `None` also stands for a C# `null` reference. */
  datatype Option<+T> = None | Some(value: T)

  /** A value or the error the C# code would have thrown instead. */
  datatype Result<+T, +E> = Ok(value: T) | Err(error: E)

  /** The outcome of a `void` operation that can throw. */
  datatype Outcome<+E> = Pass | Fail(error: E)
}
