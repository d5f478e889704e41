/** The optional value that stands for JavaScript `null`/`undefined`,
    Python `None` and C# `null` in the models. */
module Wrappers {
  datatype Option<+T> = None | Some(value: T) {
    function GetOr(default: T): T {
      match this
      case Some(v) => v
      case None => default
    }
  }
}
