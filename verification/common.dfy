/** Small shared datatypes: an optional value, as JavaScript's `undefined`/`NaN` cases are modelled. */
module Common {

  /** A value that may be missing (an absent field, a `NaN` from `parseInt`, a missing DOM element). */
  datatype Option<+T> = None | Some(value: T) {

    /** The value, or `default` when there is none: JavaScript's `x || default` for a value that is never 0. */
    function GetOr(default: T): T {
      match this
      case Some(v) => v
      case None => default
    }
  }

  function Min(a: int, b: int): int { if a <= b then a else b }

  function Max(a: int, b: int): int { if a >= b then a else b }
}
