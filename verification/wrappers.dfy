/** The optional value used wherever the analysers return "nothing":
    a skipped exchange, a header that is absent, a `parseInt` that gives NaN. */
module Wrappers {

  datatype Option<+T> = None | Some(value: T) {

    /** The value, or `default` when there is none (JavaScript's `x || default`
        for values whose only falsy form is "absent"). */
    function GetOr(default: T): T {
      match this
      case Some(v) => v
      case None => default
    }
  }
}
