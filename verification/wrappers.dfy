/** Optional values and the outcome of a JavaScript expression that may throw. */
module Wrappers {

  /** A value that may be absent (`undefined`, or an element the source never read). */
  datatype Option<+T> = None | Some(value: T)

  /** The outcome of evaluating JavaScript that may raise a `TypeError`: it either
      returns a value or throws, and a throw abandons the rest of the computation. */
  datatype Outcome<+T> = Returns(value: T) | Throws
}
