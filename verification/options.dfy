/** An optional value, standing for a TypeScript value that may be `undefined` or `null`. */
module Options {

  datatype Option<+T> = None | Some(value: T) {
    /** `x ?? d`: the carried value, or the default when there is none. */
    function GetOr(default: T): T {
      match this
      case Some(v) => v
      case None => default
    }
  }
}
