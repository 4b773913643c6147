/** Integer division stated as an adjunction.

    Almost every number in this project is a floor or a ceiling of a quotient. The
    lemmas below turn comparisons with such a quotient into comparisons of products,
    the form in which the rest of the project reasons. */
module Arith {

  function Min(a: int, b: int): int {
    if a <= b then a else b
  }

  function Max(a: int, b: int): int {
    if a >= b then a else b
  }

  /** Divide, rounding up; the form used for every non-negative ceiling. */
  function CeilDiv(numerator: int, denominator: int): int
    requires denominator > 0
  {
    (numerator + denominator - 1) / denominator
  }

  lemma {:induction false} MulLe(a: int, b: int, c: int)
    requires a <= b && c >= 0
    ensures a * c <= b * c
    ensures c * a <= c * b
  {
    assert (b - a) * c >= 0;
  }

  lemma {:induction false} MulLt(a: int, b: int, c: int)
    requires a < b && c > 0
    ensures a * c < b * c
    ensures c * a < c * b
  {
    assert (b - a) * c > 0;
  }

  lemma {:induction false} MulNonNeg(a: int, b: int)
    requires a >= 0 && b >= 0
    ensures a * b >= 0
  {
  }

  /** A common positive factor can be cancelled from an inequality. */
  lemma {:induction false} CancelLe(a: int, b: int, c: int)
    requires c > 0 && a * c <= b * c
    ensures a <= b
  {
    if a > b {
      MulLt(b, a, c);
    }
  }

  lemma {:induction false} CancelLt(a: int, b: int, c: int)
    requires c > 0 && a * c < b * c
    ensures a < b
  {
    if a >= b {
      MulLe(b, a, c);
    }
  }

  /** `q` is at most the floor of `n/d` exactly when `q * d` is at most `n`. */
  lemma {:induction false} FloorGe(n: int, d: int, q: int)
    requires d > 0
    ensures q <= n / d <==> q * d <= n
  {
    var f := n / d;
    assert n == d * f + n % d;
    if q <= f {
      MulLe(q, f, d);
    } else {
      MulLe(f + 1, q, d);
      assert (f + 1) * d == d * f + d;
    }
  }

  /** The ceiling of `n/d` is at most `q` exactly when `n` is at most `q * d`. */
  lemma {:induction false} CeilLe(n: int, d: int, q: int)
    requires d > 0
    ensures CeilDiv(n, d) <= q <==> n <= q * d
  {
    FloorGe(n + d - 1, d, q + 1);
    assert (q + 1) * d == q * d + d;
  }

  /** The two products that bracket a floor. */
  lemma {:induction false} FloorBounds(n: int, d: int)
    requires d > 0
    ensures (n / d) * d <= n < (n / d + 1) * d
  {
    FloorGe(n, d, n / d);
    FloorGe(n, d, n / d + 1);
  }

  /** The two products that bracket a ceiling. */
  lemma {:induction false} CeilBounds(n: int, d: int)
    requires d > 0
    ensures (CeilDiv(n, d) - 1) * d < n <= CeilDiv(n, d) * d
  {
    CeilLe(n, d, CeilDiv(n, d));
    CeilLe(n, d, CeilDiv(n, d) - 1);
  }

  lemma {:induction false} FloorMono(n: int, n': int, d: int)
    requires d > 0 && n <= n'
    ensures n / d <= n' / d
  {
    FloorBounds(n, d);
    FloorGe(n', d, n / d);
  }

  lemma {:induction false} FloorNonNeg(n: int, d: int)
    requires d > 0 && n >= 0
    ensures n / d >= 0
  {
    FloorGe(n, d, 0);
  }

  /** A quotient is determined by the interval its products bracket. */
  lemma {:induction false} FloorIs(n: int, d: int, q: int)
    requires d > 0 && q * d <= n < (q + 1) * d
    ensures n / d == q
  {
    FloorGe(n, d, q);
    FloorGe(n, d, q + 1);
  }

  lemma {:induction false} MultipleOf(k: int, s: int)
    requires s > 0
    ensures (k * s) % s == 0
  {
    FloorIs(k * s, s, k);
    assert k * s == s * (k * s / s) + (k * s) % s;
  }

  lemma {:induction false} MultipleQuotient(a: int, s: int)
    requires s > 0 && a % s == 0
    ensures a == (a / s) * s
  {
  }

  lemma {:induction false} MultipleSum(a: int, b: int, s: int)
    requires s > 0 && a % s == 0 && b % s == 0
    ensures (a + b) % s == 0
  {
    MultipleQuotient(a, s);
    MultipleQuotient(b, s);
    assert a + b == (a / s + b / s) * s;
    MultipleOf(a / s + b / s, s);
  }
}
