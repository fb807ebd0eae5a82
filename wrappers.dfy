/** The optional-value datatype used throughout the model for JavaScript's
    "absent" (undefined / null / missing form field) and for failed lookups. */
module Wrappers {

  datatype Option<+T> = None | Some(value: T) {

    /** The value, or `default` when there is none (JavaScript's `??` on a typed field). */
    function GetOr(default: T): T {
      match this
      case Some(v) => v
      case None => default
    }
  }
}
