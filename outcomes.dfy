/** Values shared by every module: Python's None-or-value, and the result of a
    Python call that either returns or raises. */
module Outcomes {

  /** A value that Python may hold as None. */
  datatype Option<+T> = None | Some(value: T) {
    function GetOr(default: T): T {
      match this
      case Some(v) => v
      case None => default
    }
  }

  /** What a Python call does: return a value, or raise an exception whose
      text is `message`: its `str()`, or for a Django `ValidationError` its
      `message` attribute. */
  datatype Outcome<+T> = Ok(value: T) | Raised(message: string)

  /** Python truthiness of an optional integer: None and 0 are falsy. */
  predicate TruthyInt(x: Option<int>) {
    x.Some? && x.value != 0
  }
}
