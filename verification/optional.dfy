/** The "not a number" sentinel of the cost figures, as an explicit datatype:
    `None` is the undefined value the report shows as N/A, `Some(v)` a defined figure. */
module Optional {

  datatype Option<+T> = None | Some(value: T) {

    /** The defined value, or `default` when undefined. */
    function GetOr(default: T): T {
      match this
      case Some(v) => v
      case None => default
    }
  }
}
