/** Option and Result, for the values that may be absent (a null rank) and the
    calls that raise in the source (a date strptime rejects, pop on an empty list). */
module Wrappers {

  datatype Option<+T> = None | Some(value: T)

  datatype Result<+R, +E> = Ok(value: R) | Err(error: E)
}
