/** Values that may be missing: JavaScript's `null`/`undefined` and optional
    object properties are modelled as `None`. */
module Common {

  datatype Option<+T> = None | Some(value: T) {

    /** The value held, or `default` when there is none. */
    function GetOr(default: T): T {
      match this
      case Some(v) => v
      case None => default
    }
  }
}
