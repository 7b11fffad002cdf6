/**
  Monetary values are BigDecimal amounts of scale 2, held here as whole
  cents. Dividing a scale-2 amount by a whole number to scale 2 with
  RoundingMode.HALF_UP is dividing its cents and rounding to the nearest
  cent, a tie going away from zero.
 */
module Money {

  /** total.divide(BigDecimal.valueOf(d), 2, RoundingMode.HALF_UP), on cents. */
  function DivideHalfUp(n: int, d: int): (q: int)
    requires d >= 1
    // q is the nearest whole number to n / d; a tie rounds up for n >= 0 ...
    ensures n >= 0 ==> 2 * d * q - d <= 2 * n < 2 * d * q + d
    // ... and down (still away from zero) for n < 0
    ensures n < 0 ==> 2 * d * q - d < 2 * n <= 2 * d * q + d
    ensures n >= 0 ==> 0 <= q <= n
  {
    if n >= 0 then Magnitude(n, d) else -(Magnitude(-n, d) as int)
  }

  function Magnitude(n: nat, d: int): (q: nat)
    requires d >= 1
    ensures 2 * d * q - d <= 2 * n < 2 * d * q + d
    ensures q <= n
  {
    QuotientBounds(n, d);
    (2 * n + d) / (2 * d)
  }

  lemma QuotientBounds(n: nat, d: int)
    requires d >= 1
    ensures var q := (2 * n + d) / (2 * d); 2 * d * q <= 2 * n + d < 2 * d * q + 2 * d && q <= n
  {
    var q := (2 * n + d) / (2 * d);
    MultiplyMonotone(2 * n, 1, d);
    assert 2 * n + d < 2 * d * (n + 1);
    if q >= n + 1 {
      MultiplyMonotone(2 * d, n + 1, q);
      assert false;
    }
  }

  lemma MultiplyMonotone(k: nat, a: int, b: int)
    requires a <= b
    ensures k * a <= k * b
  {
    assert k * b - k * a == k * (b - a);
  }

  /** The rounding bracket pins the result down: no other whole number satisfies it. */
  lemma DivideHalfUpUnique(n: int, d: int, q': int)
    requires d >= 1
    requires n >= 0 ==> 2 * d * q' - d <= 2 * n < 2 * d * q' + d
    requires n < 0 ==> 2 * d * q' - d < 2 * n <= 2 * d * q' + d
    ensures q' == DivideHalfUp(n, d)
  {
    var q := DivideHalfUp(n, d);
    if q' < q {
      assert 2 * d * (q' + 1) == 2 * d * q' + 2 * d;
      MultiplyMonotone(2 * d, q' + 1, q);
      assert false;
    } else if q' > q {
      assert 2 * d * (q + 1) == 2 * d * q + 2 * d;
      MultiplyMonotone(2 * d, q + 1, q');
      assert false;
    }
  }

  /** 1.00 spread over 8 days is 0.125 a day, which HALF_UP rounds to 0.13. */
  lemma TieRoundsUp()
    ensures DivideHalfUp(100, 8) == 13
  {
  }
}
