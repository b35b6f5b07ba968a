/** Values shared by the calculators: optional values, form text fields as the
    components read them, and two-decimal rounding. */
module Common {

  datatype Option<+T> = None | Some(value: T)

  /** A text field of a form. `Blank` is the empty string (falsy in the
      components' `!field` tests); `Text(p)` is non-empty text together with
      what `parseFloat` makes of it, `None` standing for NaN. */
  datatype Field = Blank | Text(parsed: Option<real>)

  /** `parseFloat(field)`: NaN (None) for the empty string. */
  function Parse(f: Field): Option<real>
  {
    match f
    case Blank => None
    case Text(p) => p
  }

  /** The JavaScript truthiness of a non-number field value. */
  predicate Present(f: Field)
  {
    f.Text?
  }

  /** `parseFloat(field) <= b`; every comparison with NaN is false. */
  predicate ParsedAtMost(f: Field, b: real)
  {
    Parse(f).Some? && Parse(f).value <= b
  }

  /** `parseFloat(field) < b`. */
  predicate ParsedBelow(f: Field, b: real)
  {
    Parse(f).Some? && Parse(f).value < b
  }

  /** `parseFloat(field) > b`. */
  predicate ParsedAbove(f: Field, b: real)
  {
    Parse(f).Some? && Parse(f).value > b
  }

  /** `Number.prototype.toFixed(2)` read back as a number, on the exact value:
      the nearest multiple of 0.01, ties away from zero. */
  function Round2(x: real): (r: real)
    ensures -0.005 <= r - x <= 0.005
    ensures x >= 0.0 ==> r >= 0.0
  {
    if x >= 0.0 then (x * 100.0 + 0.5).Floor as real / 100.0
    else -((-x * 100.0 + 0.5).Floor as real / 100.0)
  }

  /** Two-decimal rounding upwards: the least multiple of 0.01 not below x. */
  function Ceil2(x: real): (r: real)
    ensures x <= r < x + 0.01
  {
    var n := (x * 100.0).Floor;
    if n as real == x * 100.0 then n as real / 100.0 else (n + 1) as real / 100.0
  }
}
