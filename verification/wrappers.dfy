/** Failure-carrying values shared by every module of the model. */
module Wrappers {

  /** A JavaScript value that may be `null`/`undefined` (None) or present (Some). */
  datatype Option<+T> = None | Some(value: T) {

    /** The value, or `default` when there is none. The callers model JavaScript's
        `x || default` on values that are absent or null, never another falsy value
        such as an empty string, so `||` and `??` coincide there. */
    function GetOr(default: T): T {
      match this
      case Some(v) => v
      case None => default
    }
  }

  /** A number field as the page holds it: the typed text and what `parseInt`
      or `parseFloat` makes of it, None standing for NaN. */
  datatype NumText<T> = NumText(text: string, parsed: Option<T>)
}
