/** A value that may be absent: JavaScript's `undefined`/`null` next to a present value. */
module Optional {

  datatype Option<+T> = None | Some(value: T) {

    /** The value when present, `default` otherwise (the `??` / `|| default` idiom). */
    function GetOr(default: T): T {
      match this
      case Some(v) => v
      case None => default
    }
  }
}
