/** The optional values of the extension: TypeScript's `T | undefined` (and `T | null`,
    which the code folds into `undefined` with `??`). */
module Wrappers {

  datatype Option<+T> = None | Some(value: T) {

    /** The `??` operator: the value when present, otherwise the default. */
    function GetOr(default: T): T {
      match this
      case Some(v) => v
      case None => default
    }
  }
}
