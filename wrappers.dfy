/** The optional value used throughout the model: TypeScript's `T | undefined`
    (an absent key, a failed `find`, a missing optional field). */
module Wrappers {

  datatype Option<+T> = None | Some(value: T) {

    /** The value, or `default` when absent (`x ?? default`). */
    function GetOr(default: T): T {
      match this
      case Some(v) => v
      case None => default
    }
  }
}
