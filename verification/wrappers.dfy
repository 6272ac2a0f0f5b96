/** Failure-carrying results used throughout the model. */
module Wrappers {

  /** A value that may be absent: a missing asset, a missing resource, no cursor. */
  datatype Option<T> = None | Some(value: T)

  /** The outcome of a system that can panic (an out-of-bounds index, a missing resource). */
  datatype Result<T> = Ok(value: T) | Panic(reason: string)
}
