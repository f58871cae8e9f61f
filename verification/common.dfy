/** Shared helper types: the model's stand-in for C# `null`. */
module Common {

  /** An optional value; `None` plays the role of a C# null reference. */
  datatype Option<+T> = None | Some(value: T) {

    /** The wrapped value, or `default` when there is none (C#'s `x ?? default`). */
    function GetOr(default: T): T {
      match this
      case Some(v) => v
      case None => default
    }
  }
}
