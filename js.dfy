/** The few pieces of JavaScript semantics the components rely on:
    `null`/`undefined` (as `Option`), truthiness of an optional string,
    and `Math.round` on exact reals. */
module Js {

  /** A value that may be `null` or `undefined` (`None`). */
  datatype Option<+T> = None | Some(value: T)

  /** `if (s)` for an optional string: `undefined`, `null` and `""` are falsy. */
  predicate Truthy(s: Option<string>)
  {
    s.Some? && s.value != ""
  }

  /** `Math.round`: the nearest integer, halves going toward +infinity. */
  function Round(x: real): (r: int)
    ensures r as real - 0.5 <= x < r as real + 0.5
  {
    (x + 0.5).Floor
  }

  /** A part of a positive whole, as a real ratio, lies in [0, 1]. */
  lemma RatioInUnit(part: int, whole: int)
    requires whole > 0
    ensures 0 <= part <= whole ==> 0.0 <= part as real / whole as real <= 1.0
    ensures part == whole ==> part as real / whole as real == 1.0
    ensures part == 0 ==> part as real / whole as real == 0.0
  {
  }
}
