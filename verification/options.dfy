/** A present-or-absent value: a nullable column, or a request parameter
    that was or was not submitted. */
module Options {

  datatype Option<+T> = None | Some(value: T) {

    /** The carried value, or `default` when absent. */
    function GetOr(default: T): T {
      match this
      case Some(v) => v
      case None => default
    }
  }
}
