/** The optional value used wherever the application reads a field that may be
    absent (`null`, `undefined`) or an operation that may fail without a message. */
module Wrappers {

  datatype Option<+T> = None | Some(value: T) {

    /** The value in Some, or the default when None. */
    function GetOr(default: T): T {
      match this
      case Some(v) => v
      case None => default
    }
  }
}
