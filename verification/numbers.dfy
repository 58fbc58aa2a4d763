/** Numeric conventions of the two source languages, written out over unbounded numbers. */
module Numbers {

  /** Python's `int()` applied to a float: the integral part, rounding toward zero. */
  function TruncateTowardZero(x: real): (r: int)
    ensures 0.0 <= x ==> r as real <= x < r as real + 1.0
    ensures x < 0.0 ==> r as real - 1.0 < x <= r as real
  {
    if x >= 0.0 then x.Floor else -((-x).Floor)
  }

  /** Go's math.MaxFloat64, the largest finite float64, (2^53 - 1) * 2^971, written out exactly. */
  const MaxFloat64: real := 179769313486231570814527423731704356798070567525844996598917476803157260780028538760589558632766878171540458953514382464234321326889464182768467546703537516986049910576551282076245490090389328944075868508455133942304583236903222948165808559332123348274797826204144723168738177180919299881250404026184124858368.0
}
