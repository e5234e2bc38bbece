/** Values that may be absent: JavaScript's `null` / `undefined` for a field or a prop. */
module Optional {

  datatype Option<+T> = None | Some(value: T) {

    /** The `??` operator: the value if present, otherwise the default. */
    function GetOr(default: T): T {
      match this
      case Some(v) => v
      case None => default
    }
  }
}
