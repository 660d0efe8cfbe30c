/** The optional value used wherever the application reads `null`, `undefined`
    or "not found". */
module Wrappers {

  datatype Option<+T> = None | Some(value: T) {

    /** The value, or `default` when absent (JavaScript's `x ?? default`). */
    function GetOr(default: T): T {
      match this
      case Some(v) => v
      case None => default
    }
  }

  /** A present, non-empty string: JavaScript truthiness of `string | null | undefined`. */
  predicate Given(v: Option<string>) {
    v.Some? && v.value != ""
  }

  /** `a || b` on optional strings. */
  function Or(a: Option<string>, b: Option<string>): (r: Option<string>)
    ensures Given(a) ==> r == a
    ensures !Given(a) ==> r == b
  {
    if Given(a) then a else b
  }
}
