/** The optional value used throughout the model: a JavaScript value that may be
    `null`, `undefined` or `NaN` is a `None`. */
module Wrappers {

  datatype Option<+T> = None | Some(value: T) {

    /** The value, or `default` when there is none (JavaScript's `x || default`
        when `x` is only ever null or a value). */
    function GetOr(default: T): T {
      match this
      case Some(v) => v
      case None => default
    }
  }
}
