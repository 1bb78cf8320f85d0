/** Small facts about integer division and the floor of a ratio, used by the
    level curve and the random-integer mapping. */
module Arithmetic {

  /** A product of a non-negative and a positive number is non-negative. */
  lemma {:induction false} ProductSign(x: int, b: nat)
    ensures x >= 0 ==> x * b >= 0
  {
    if b > 0 {
      ProductSign(x, b - 1);
      assert x * b == x * (b - 1) + x;
    }
  }

  /** If `c` copies of `b` fit in `a`, the quotient is at least `c`. */
  lemma DivLowerBound(a: int, b: int, c: int)
    requires b > 0 && a >= c * b
    ensures a / b >= c
  {
    var q, r := a / b, a % b;
    assert a == q * b + r && 0 <= r < b;
    assert (c - q - 1) * b == c * b - q * b - b;
    ProductSign(c - q - 1, b);
  }

  /** If `a` is below `c` copies of `b`, the quotient is below `c`. */
  lemma DivUpperBound(a: int, b: int, c: int)
    requires b > 0 && a < c * b
    ensures a / b < c
  {
    var q, r := a / b, a % b;
    assert a == q * b + r && 0 <= r < b;
    assert (q - c) * b == q * b - c * b;
    ProductSign(q - c, b);
  }

  /** The floor of the exact ratio a/b is the integer quotient (Dafny's `/`
      rounds towards minus infinity for a positive divisor). */
  lemma FloorOfRatio(a: int, b: int)
    requires b > 0
    ensures ((a as real) / (b as real)).Floor == a / b
  {
    var q, r := a / b, a % b;
    assert a == q * b + r && 0 <= r < b;
    var x := (a as real) / (b as real);
    assert x == (q as real) + (r as real) / (b as real);
    assert 0.0 <= (r as real) / (b as real) < 1.0;
  }

  /** Multiplying two ratios multiplies their numerators and their denominators. */
  lemma ProductOfRatios(p: real, q: real, a: real, b: real)
    requires q > 0.0 && b > 0.0
    ensures (p / q) * (a / b) == (p * a) / (q * b)
  {
    var x, y := p / q, a / b;
    assert p == x * q && a == y * b;
    assert p * a == (x * y) * (q * b);
  }
}
