/** Options: a value that may be missing (SQL NULL, an absent JSON field, a failed call). */
module Options {
  datatype Option<+T> = None | Some(value: T) {
    function GetOr(default: T): T {
      match this
      case Some(v) => v
      case None => default
    }
  }
}
