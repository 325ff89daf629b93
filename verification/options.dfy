/** Nullable values: PHP's `null` next to a present value. */
module Options {

  datatype Option<+T> = None | Some(value: T) {

    /** `$x ?? $default` */
    function GetOr(default: T): (r: T)
      ensures Some? ==> r == value
      ensures None? ==> r == default
    {
      match this
      case Some(v) => v
      case None => default
    }

    /** `$x ?? $y` where `$y` may itself be null. */
    function OrElse(other: Option<T>): (r: Option<T>)
      ensures Some? ==> r == this
      ensures None? ==> r == other
    {
      if Some? then this else other
    }
  }
}
