/** The optional value used wherever the modelled code passes a nullable reference
    (`string`, `DateTime?`, `ConsoleColor?`). */
module Wrappers {

  datatype Option<+T> = None | Some(value: T) {

    /** The wrapped value, or `default` when there is none. */
    function GetOr(default: T): T {
      match this
      case Some(v) => v
      case None => default
    }
  }
}
