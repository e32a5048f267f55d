/** Option and Result types, and the Python exceptions the modelled code can raise. */
module Wrappers {

  datatype Option<+T> = None | Some(value: T)

  datatype Result<+T, +E> = Ok(value: T) | Err(error: E)

  /** The exception classes raised on the paths of the viewer that are modelled. */
  datatype PyException =
    | KeyError           // a dict lookup with a missing key
    | IndexError         // list index / .iloc[0] on an empty frame
    | ValueError         // int() of malformed text, max() of an empty sequence
    | TypeError          // an operand of the wrong type (float where range() needs an int)
    | NameError          // a module-level name that is not bound
    | UnboundLocalError  // a local read on a path that never assigned it

  /** A handler that either finishes or raises. */
  datatype Outcome = Pass | Fail(error: PyException)
}
