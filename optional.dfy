/** Optional values: Python's `None` next to a present value. */
module Optional {

  datatype Option<+T> = None | Some(value: T) {

    /** Python's `x or default` when `x` may be None: the value if present, else the default. */
    function GetOr(default: T): T {
      match this
      case Some(v) => v
      case None => default
    }
  }
}
