/** Failure-carrying values shared by every module. */
module Wrappers {

  /** A value that may be missing (Python's `None` where a call returns
      `Optional[...]`, or a parse that failed). */
  datatype Option<+T> = None | Some(value: T)

  /** The outcome of a Python computation that may raise: either its value,
      or an exception escaped (a `TypeError` from slicing `None`, an
      `AttributeError` from calling `.get` on a non-dict).  Which exception it
      was does not matter to any caller in this model: all of them end up in
      the catch-all handler of the REPL loop. */
  datatype Result<+T> = Ok(value: T) | Raised
}
