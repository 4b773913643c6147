/** Implied probabilities in parts per million and their reciprocal decimal odds. */
module Price {
  import opened Arith

  /** Certainty, as an implied probability. */
  const PPM := 1_000_000

  /** Decimal odds of one, scaled by a million. */
  const ODDS_ONE := 1_000_000

  /** The product of a probability and its odds. */
  const RECIPROCAL := 1_000_000_000_000

  /** The largest amount of money an i64 can hold, in cents, and the smallest. */
  const CENTS_MAX := 0x7fff_ffff_ffff_ffff
  const CENTS_MIN := -0x8000_0000_0000_0000

  /** An implied probability. A larger one is a shorter price and pays less. */
  type Prob = p: int | 1 <= p <= PPM witness 1

  /** The quotient to the nearest whole, halves upward. */
  function DivRound(numerator: int, denominator: int): int
    requires denominator > 0
  {
    (numerator + denominator / 2) / denominator
  }

  /** The decimal odds of a probability, in micro-units. */
  function ToOdds(p: Prob): int {
    DivRound(RECIPROCAL, p)
  }

  /** The nearest amount of money to a value. */
  function ToCents(value: int): int {
    if value < CENTS_MIN then CENTS_MIN else if value > CENTS_MAX then CENTS_MAX else value
  }

  /** The gross return of a stake at a price, floored. */
  function GrossPayout(price: Prob, stake: int): int {
    stake * PPM / price
  }

  /** The gross return as it is reported: clamped into the range of money. */
  function Payout(price: Prob, stake: int): int {
    ToCents(GrossPayout(price, stake))
  }

  /** Rounding to nearest brackets the numerator within half a denominator. */
  lemma {:induction false} DivRoundBounds(n: int, d: int)
    requires d > 0
    ensures DivRound(n, d) * d <= n + d / 2 < DivRound(n, d) * d + d
  {
    FloorBounds(n + d / 2, d);
    var q := DivRound(n, d);
    assert (q + 1) * d == q * d + d;
  }

  /** Taking the rounded reciprocal twice is the identity, at every scale: no price
      on the probability side of one is moved by a trip through odds. */
  lemma {:induction false} ReciprocalRoundTrip(scale: int, p: int)
    requires 1 <= p <= scale
    ensures DivRound(scale * scale, p) >= scale
    ensures DivRound(scale * scale, DivRound(scale * scale, p)) == p
  {
    var n := scale * scale;
    var o := DivRound(n, p);
    DivRoundBounds(n, p);
    assert o >= scale by {
      MulLe(p, scale, scale);
      FloorGe(n + p / 2, p, scale);
    }
    assert p * o == o * p;
    assert (p + 1) * o == p * o + o;
    FloorIs(n + o / 2, o, p);
  }

  /** Every probability survives a trip through decimal odds. */
  lemma {:induction false} ProbOddsRoundTrip(p: Prob)
    ensures ODDS_ONE <= ToOdds(p)
    ensures DivRound(RECIPROCAL, ToOdds(p)) == p
  {
    ReciprocalRoundTrip(PPM, p);
  }

  /** Longer odds for a smaller probability. */
  lemma {:induction false} ToOddsAntitone(p: Prob, q: Prob)
    requires p <= q
    ensures ToOdds(q) <= ToOdds(p)
  {
    DivRoundBounds(RECIPROCAL, q);
    var o := ToOdds(q);
    assert o >= ODDS_ONE by { ProbOddsRoundTrip(q); }
    // o * p <= RECIPROCAL + p / 2, because o * (q - p) makes up for the smaller half.
    assert o * q == o * p + o * (q - p);
    MulLe(1, o, q - p);
    FloorGe(RECIPROCAL + p / 2, p, o);
    assert o * p <= RECIPROCAL + p / 2;
  }

  lemma {:induction false} GrossMono(price: Prob, a: int, b: int)
    requires a <= b
    ensures GrossPayout(price, a) <= GrossPayout(price, b)
    ensures Payout(price, a) <= Payout(price, b)
  {
    MulLe(a, b, PPM);
    FloorMono(a * PPM, b * PPM, price);
  }

  /** A stake never pays more than its price allows, clamped or not. */
  lemma {:induction false} PayoutBounds(price: Prob, stake: int)
    requires stake >= 0
    ensures 0 <= Payout(price, stake) <= GrossPayout(price, stake)
    ensures Payout(price, stake) * price <= GrossPayout(price, stake) * price <= stake * PPM
  {
    FloorNonNeg(stake * PPM, price);
    FloorBounds(stake * PPM, price);
    MulLe(Payout(price, stake), GrossPayout(price, stake), price);
  }
}
