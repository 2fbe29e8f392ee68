/** Absent and present values: `null`, `undefined`, or an insert refused by a unique key. */
module Options {
  datatype Option<+T> = None | Some(value: T) {
    function GetOr(default: T): T {
      match this
      case Some(v) => v
      case None => default
    }
  }
}
