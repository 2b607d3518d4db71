/** Amounts rounded to two decimals, held as whole hundredths. */
module Money {

  /** Python's round on a tie goes to the even neighbour. */
  function RoundHalfEven(x: real): (r: int)
    ensures r as real - 0.5 <= x <= r as real + 0.5
    ensures x == r as real - 0.5 || x == r as real + 0.5 ==> r % 2 == 0
  {
    var f := x.Floor;
    var d := x - f as real;
    if d < 0.5 then f else if d > 0.5 then f + 1 else if f % 2 == 0 then f else f + 1
  }

  /** round(x, 2), in hundredths. */
  function Hundredths(x: real): (r: int)
    ensures IsRounded(r, 100.0 * x)
  {
    RoundHalfEven(x * 100.0)
  }

  /** The nearest whole number, the even one of two. */
  predicate IsRounded(r: int, x: real) {
    -0.5 <= r as real - x <= 0.5 && (r as real - x == -0.5 || r as real - x == 0.5 ==> r % 2 == 0)
  }

  /** There is only one. */
  lemma RoundedOnce(a: int, b: int, x: real)
    requires IsRounded(a, x) && IsRounded(b, x)
    ensures a == b
  {
    assert -1.0 <= (a - b) as real <= 1.0;
  }
}
