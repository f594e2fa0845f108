/** Small failure-compatible wrapper used for the source's optional values. */
module Wrappers {

  /** An optional value: a missing dictionary key, `None`/`null`/`undefined`. */
  datatype Option<+T> = None | Some(value: T) {

    /** The value, or `default` when there is none (Python's `d.get(k, default)`). */
    function GetOr(default: T): T {
      match this
      case Some(v) => v
      case None => default
    }
  }
}
