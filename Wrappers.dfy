/** The nullable values of the analyzer (a missing JSON key, a null symbol, a
    null returned by a parser) are modelled as Option. */
module Wrappers {

  datatype Option<+T> = None | Some(value: T) {

    /** Returns the value, or `default` when there is none (C#'s `??`). */
    function GetOr(default: T): T {
      match this
      case Some(v) => v
      case None => default
    }
  }
}
