/** Optional values and the outcome of a call that may raise. */
module Wrappers {

  datatype Option<+T> = None | Some(value: T)

  /** A Python call either returns a value or raises; `reason` is the exception's `str(e)`. */
  datatype Outcome<+T> = Ok(value: T) | Fail(reason: string)

  /** `str(e)` of the `IndexError` an out-of-range list index raises. */
  const IndexErrorReason := "list index out of range"
}
