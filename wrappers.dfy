/** The optional-value datatype used throughout the model: JavaScript's
    `undefined` (an absent key, a failed lookup) is `None`. */
module Wrappers {

  datatype Option<+T> = None | Some(value: T) {

    /** The value, or `default` when there is none. */
    function GetOr(default: T): T {
      match this
      case Some(v) => v
      case None => default
    }
  }
}
