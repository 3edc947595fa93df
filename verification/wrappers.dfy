/** The optional-value datatype shared by the rest of the model. */
module Wrappers {

  /** A value that may be missing: an unreadable shard, a failed fetch, a
      malformed encoding. */
  datatype Option<+T> = None | Some(value: T) {

    /** Returns the wrapped value, or `default` when there is none. */
    function GetOr(default: T): T {
      match this
      case Some(v) => v
      case None => default
    }
  }
}
