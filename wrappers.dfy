/** The small failure-carrying datatypes the rest of the model uses. */
module Wrappers {

  /** A value that may be absent: `undefined`, `null` or a falsy field in the source. */
  datatype Option<+T> = None | Some(value: T)

  /** The outcome of an awaited call: the value it resolved to, or what it threw. */
  datatype Result<+T, +E> = Ok(value: T) | Err(error: E)
}
