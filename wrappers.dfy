/** Optional values, and the outcome of a Python call that may raise. */
module Wrappers {

  /** A value that may be absent: a missing dictionary key, or Python's `None`. */
  datatype Option<+T> = None | Some(value: T) {
    function GetOr(default: T): T {
      match this
      case Some(v) => v
      case None => default
    }
  }

  /** The result of a Python call that either returns a value or raises.
      The model does not keep the kind of exception (KeyError, TypeError,
      AttributeError): none of the modelled callers catches them selectively. */
  datatype Outcome<+T> = Returned(value: T) | Raised
}
