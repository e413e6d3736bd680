/** The two result shapes shared by every module. */
module Wrappers {

  /** A nullable column or a Python `None`. */
  datatype Option<+T> = None | Some(value: T)

  /** A call that either returns or raises. */
  datatype Outcome<+T, +E> = Done(value: T) | Raised(error: E)
}
