/** Small failure-carrying datatypes shared by the model. */
module Wrappers {

  /** A value that may be absent; `None` stands for a Java `null` reference. */
  datatype Option<+T> = None | Some(value: T)

  /** The result of a call that returns normally (`Pass`) or throws (`Fail`). */
  datatype Outcome<+E> = Pass | Fail(error: E)
}
