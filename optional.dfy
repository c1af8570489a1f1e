/** The "value or nothing" results of the front end: JavaScript's `null` and
    `undefined` returns, and `||`-defaulted optional record fields. */
module Optional {

  datatype Option<+T> = None | Some(value: T) {

    /** The value, or `default` when there is none (JavaScript's `x || default`
        for a field that is either absent or holds a value). */
    function GetOr(default: T): (v: T) {
      match this
      case Some(v) => v
      case None => default
    }
  }
}
