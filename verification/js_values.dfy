/**
 * The few JavaScript value shapes the widget's logic depends on: values that
 * may be `null`/`undefined`, the settlement of an awaited external call, and
 * the truthiness of strings and numbers.
 */
module JsValues {

  /** A value that may be `null` or `undefined` (`None`). */
  datatype Option<+T> = None | Some(value: T)

  /** How an awaited call into code outside the model settled. */
  datatype Reply<+T> = Returned(value: T) | Threw

  /**
   * A JavaScript `number` as far as truthiness and `toString` go: zero (also
   * negative zero), NaN, or any other value together with its `toString` text.
   * The arithmetic of floating point is not modelled.
   */
  datatype JsNumber = Zero | NaN | NonZero(text: string)

  /** `n.toString()` */
  function NumberText(n: JsNumber): string
  {
    match n
    case Zero => "0"
    case NaN => "NaN"
    case NonZero(t) => t
  }

  /** `!!n` for a `number | null` */
  predicate NumberTruthy(n: Option<JsNumber>)
  {
    n.Some? && n.value.NonZero?
  }

  /** `!!s` for a `string | null` */
  predicate StringTruthy(s: Option<string>)
  {
    s.Some? && s.value != ""
  }

  /** `s || ""` for a `string | null` */
  function OrEmpty(s: Option<string>): (r: string)
    ensures StringTruthy(s) ==> r == s.value
    ensures !StringTruthy(s) ==> r == ""
  {
    if s.Some? then s.value else ""
  }

  /** The text a template literal `${x}` produces for an optional string. */
  function Interpolate(s: Option<string>): string
  {
    if s.Some? then s.value else "undefined"
  }
}
