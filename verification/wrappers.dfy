/** The optional values that stand for a remote call that may fail softly. */
module Wrappers {

  /** `None` is the "unavailable" outcome of one call (an exception swallowed,
      a missing JSON field or a null); `Some` carries the decoded value. */
  datatype Option<+T> = None | Some(value: T) {

    /** The value, or `default` when the call was unavailable
        (the Python idiom `x or default`, `d.get(k, default)`). */
    function GetOr(default: T): T {
      match this
      case Some(v) => v
      case None => default
    }
  }
}
