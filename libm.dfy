/** Numeric foundation shared by every other module.

    Swift `Double` is modelled as Dafny `real`, so every arithmetic identity
    holds exactly; NaN, infinities and rounding are not modelled. The
    transcendental functions of Darwin's libm are not implemented here: they
    travel as function-valued fields of a `Libm` record that callers pass in,
    so nothing is assumed about them except the square-root law that a
    caller may demand through `SqrtLaw`. */
module Libm {

  /** The libm functions the program calls. */
  datatype Libm = Libm(
    sqrt: real -> real,
    cbrt: real -> real,
    sin: real -> real,
    cos: real -> real,
    tan: real -> real,
    acos: real -> real,
    atan2: (real, real) -> real,
    pow: (real, real) -> real,
    log: real -> real,
    log10: real -> real)

  /** The only law assumed of `sqrt`: on a non-negative argument it is
      non-negative and squares back to that argument. */
  ghost predicate SqrtLaw(m: Libm) {
    forall x: real {:trigger m.sqrt(x)} :: 0.0 <= x ==> 0.0 <= m.sqrt(x) && m.sqrt(x) * m.sqrt(x) == x
  }

  /** `M_PI` as the decimal literal of the double nearest to pi. */
  const Pi: real := 3.141592653589793

  /** `M_E` as the decimal literal of the double nearest to e. */
  const E: real := 2.718281828459045

  /** `DBL_MAX`: the largest finite double, (2 - 2^-52) * 2^1023. */
  const DblMax: real := 179769313486231570814527423731704356798070567525844996598917476803157260780028538760589558632766878171540458953514382464234321326889464182768467546703537516986049910576551282076245490090389328944075868508455133942304583236903222948165808559332123348274797826204144723168738177180919299881250404026184124858368.0

  function Abs(x: real): (r: real)
    ensures 0.0 <= r && (r == x || r == -x)
  {
    if x < 0.0 then -x else x
  }

  function Min(a: real, b: real): (r: real)
    ensures r <= a && r <= b && (r == a || r == b)
  {
    if a <= b then a else b
  }

  function Max(a: real, b: real): (r: real)
    ensures a <= r && b <= r && (r == a || r == b)
  {
    if a <= b then b else a
  }

  /** Real division. A zero divisor gives infinity or NaN in IEEE arithmetic;
      the model returns 0.0 there, and no property below relies on that value. */
  function Div(a: real, b: real): real {
    if b == 0.0 then 0.0 else a / b
  }

  /** Division undoes multiplication by a non-zero divisor. */
  lemma DivTimes(a: real, b: real)
    requires b != 0.0
    ensures Div(a, b) * b == a
  {
  }

  /** Conversion of a floored double to `Int`. Swift traps on values outside
      the 64-bit range; the model keeps the unbounded integer. */
  function Floor(x: real): (r: int)
    ensures r as real <= x < r as real + 1.0
  {
    x.Floor
  }

  /** C `fmod(x, 1)`: the fractional part, truncated toward zero. */
  function FmodOne(x: real): (r: real)
    ensures 0.0 <= x ==> 0.0 <= r < 1.0
    ensures x < 0.0 ==> -1.0 < r <= 0.0
  {
    if 0.0 <= x then x - x.Floor as real else x + (-x).Floor as real
  }

  /** Integer division as the program redefines it on `Int`: the floor of the
      real quotient (CreasePatternAnalyzer/utils.swift:39-41). */
  function FloorDiv(a: int, b: int): (q: int)
    requires b != 0
    ensures q as real <= a as real / b as real < q as real + 1.0
  {
    (a as real / b as real).Floor
  }

  /** For the positive divisors the program uses, floor division is Dafny's `/`. */
  lemma FloorDivPositive(a: int, b: int)
    requires 0 < b
    ensures FloorDiv(a, b) == a / b
  {
    var q := a / b;
    var r := a % b;
    assert a == b * q + r && 0 <= r < b;
    assert (a as real) / (b as real) == q as real + (r as real) / (b as real);
    assert 0.0 <= (r as real) / (b as real) < 1.0;
  }

  /** Ten to an integer power, exactly. */
  function Pow10(n: int): (r: real)
    ensures 0.0 < r
    decreases if n < 0 then -n else n
  {
    if n == 0 then 1.0
    else if n > 0 then 10.0 * Pow10(n - 1)
    else Pow10(n + 1) / 10.0
  }
}
