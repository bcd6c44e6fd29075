/** Optional values and outcomes shared by every model in this project. */
module Wrappers {

  datatype Option<+T> = None | Some(value: T)

  datatype Result<+T, +E> = Ok(value: T) | Err(error: E)

  /** How a lifecycle operation ends: completed, or stopped with evidence preserved. */
  datatype Outcome = Done | Refused
}
