/** Python's round() taken exactly: to the nearest integer or 1e-6, ties to even. */
module Rounding {

  function RoundHalfEven(x: real): (n: int)
    ensures -0.5 <= x - n as real <= 0.5
    ensures x - n as real == 0.5 || x - n as real == -0.5 ==> n % 2 == 0
  {
    var low := x.Floor;
    var gap := x - low as real;
    if gap < 0.5 || (gap == 0.5 && low % 2 == 0) then low else low + 1
  }

  /** The two clauses above leave exactly one integer. */
  lemma RoundingIsDetermined(x: real, n: int)
    requires -0.5 <= x - n as real <= 0.5
    requires x - n as real == 0.5 || x - n as real == -0.5 ==> n % 2 == 0
    ensures n == RoundHalfEven(x)
  {
    assert -1.0 <= (n - RoundHalfEven(x)) as real <= 1.0;
  }

  lemma RoundingIsMonotone(x: real, y: real)
    requires x <= y
    ensures RoundHalfEven(x) <= RoundHalfEven(y)
  {
  }

  /** At an even integer both half-way points round to it, so it is a threshold that can be read off `x`. */
  lemma EvenThresholds(x: real, half: int)
    ensures RoundHalfEven(x) <= 2 * half <==> x <= 2.0 * half as real + 0.5
    ensures RoundHalfEven(x) >= 2 * half <==> x >= 2.0 * half as real - 0.5
  {}

  /** round(x, 6) */
  function Round6(x: real): real
  {
    RoundHalfEven(x * 1000000.0) as real / 1000000.0
  }

  lemma Round6IsNear(x: real)
    ensures x - 0.0000005 <= Round6(x) <= x + 0.0000005
  {}

  lemma Round6IsMonotone(x: real, y: real)
    requires x <= y
    ensures Round6(x) <= Round6(y)
  {
    RoundingIsMonotone(x * 1000000.0, y * 1000000.0);
  }

  lemma Round6FixesIntegers(n: int)
    ensures Round6(n as real) == n as real
  {
    RoundingIsDetermined(n as real * 1000000.0, n * 1000000);
  }

  lemma FloorIsMonotone(x: real, y: real)
    requires x <= y
    ensures x.Floor <= y.Floor
  {}

  /** Rounded values sit on the 1e-6 grid, so flooring one discards at most 1 - 1e-6. */
  lemma FloorOfRound6(x: real)
    ensures Round6(x).Floor as real <= Round6(x) <= Round6(x).Floor as real + 0.999999
  {
    var k := RoundHalfEven(x * 1000000.0);
    var whole := Round6(x).Floor;
    assert k as real < (whole + 1) as real * 1000000.0;
    assert k < (whole + 1) * 1000000;
    assert k <= whole * 1000000 + 999999;
  }

  lemma FloorOfRound6AtLeast(n: int, x: real)
    requires n as real <= x
    ensures n <= Round6(x).Floor
  {
    Round6IsMonotone(n as real, x);
    Round6FixesIntegers(n);
    FloorIsMonotone(n as real, Round6(x));
  }

  lemma FloorAtLeast(r: real, n: int)
    ensures r.Floor >= n <==> r >= n as real
  {}

  lemma GridAtLeast(k: int, n: int)
    ensures k as real / 1000000.0 >= n as real <==> k >= n * 1000000
  {}

  lemma HalfAMillionthEarly(x: real, n: real)
    ensures x * 1000000.0 >= 2.0 * (n * 500000.0) - 0.5 <==> x >= n - 0.0000005
  {}

  lemma HalvesAreExact(n: int)
    ensures 2 * (n * 500000) == n * 1000000 && (n * 500000) as real == n as real * 500000.0
  {}

  lemma Round6IsOnTheGrid(x: real)
    ensures Round6(x) == RoundHalfEven(x * 1000000.0) as real / 1000000.0
  {}

  /** Exactly: the whole part of a rounded value reaches `n` half a millionth early. */
  lemma FloorOfRound6Exactly(n: int, x: real)
    ensures Round6(x).Floor >= n <==> x >= n as real - 0.0000005
  {
    hide RoundHalfEven;
    hide Round6;
    var rounded, k := Round6(x), RoundHalfEven(x * 1000000.0);
    FloorAtLeast(rounded, n);
    Round6IsOnTheGrid(x);
    GridAtLeast(k, n);
    EvenThresholds(x * 1000000.0, n * 500000);
    HalvesAreExact(n);
    HalfAMillionthEarly(x, n as real);
  }
}
