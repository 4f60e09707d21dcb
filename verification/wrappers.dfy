/** The optional-value datatype shared by every module of the model: it stands
    for TypeScript's `undefined`/`null` wherever the source treats a value as
    possibly absent. */
module Wrappers {

  datatype Option<+T> = None | Some(value: T) {

    /** The value, or `default` when absent (TypeScript's `x ?? default`). */
    function GetOr(default: T): T {
      match this
      case Some(v) => v
      case None => default
    }
  }
}
