/** The optional-value datatype, standing for JavaScript's `undefined`-or-value. */
module Options {

  datatype Option<+T> = None | Some(value: T) {

    /** The value, or `default` when absent: how a JavaScript default parameter treats `undefined`. */
    function GetOr(default: T): (r: T)
      ensures Some? ==> r == value
      ensures None? ==> r == default
    {
      match this
      case Some(v) => v
      case None => default
    }
  }
}
