/** Failure-compatible wrappers used for the codec's partial operations and the
    orchestrator's exceptions. */
module Wrappers {

  datatype Option<+T> = None | Some(value: T)

  datatype Result<+T, +E> = Ok(value: T) | Err(error: E)
}
