/** The optional value used wherever the source has a nullable or possibly missing entry. */
module Wrappers {

  datatype Option<+T> = None | Some(value: T) {

    /** Returns the carried value, or `default` when there is none. */
    function GetOr(default: T): T {
      match this
      case Some(v) => v
      case None => default
    }
  }
}
