/** What a venue takes, as a transformation from a quoted to an effective price. */
module Fees {
  import opened Arith
  import opened Price

  /** One hundred percent, in basis points. */
  const BPS := 10_000

  datatype Fee =
    | NoFee
    | CommissionBps(bps: nat)
    | StakeFeeBps(bps: nat)
    | MakerRebateBps(bps: nat)

  /** The part of decimal odds left once a commission is taken from the winnings. */
  function NetOdds(quoted: Prob, bps: nat): int {
    ODDS_ONE + (ToOdds(quoted) - ODDS_ONE) * (BPS - Min(bps, BPS)) / BPS
  }

  /** The commission form of the effective price. */
  function CommissionPrice(quoted: Prob, bps: nat): int
    requires NetOdds(quoted, bps) > 0
  {
    Min(CeilDiv(PPM * ODDS_ONE, NetOdds(quoted, bps)), PPM)
  }

  /** The effective price after the venue's cut. */
  function Effective(fee: Fee, quoted: Prob): Prob {
    match fee
    case NoFee => quoted
    case CommissionBps(bps) =>
      if bps == 0 then quoted
      else
        NetOddsBounds(quoted, bps);
        CommissionPriceInRange(quoted, bps);
        CommissionPrice(quoted, bps)
    case StakeFeeBps(bps) =>
      if bps == 0 then quoted
      else
        StakeFeeRaises(quoted, bps);
        Min(quoted * (BPS + bps) / BPS, PPM)
    case MakerRebateBps(bps) =>
      if bps == 0 then quoted
      else
        RebateLowers(quoted, bps);
        Max(quoted * (BPS - Min(bps, BPS)) / BPS, 1)
  }

  /** Net odds never fall below even money or rise above the quoted odds. */
  lemma {:induction false} NetOddsBounds(quoted: Prob, bps: nat)
    ensures ODDS_ONE <= NetOdds(quoted, bps) <= ToOdds(quoted)
  {
    ProbOddsRoundTrip(quoted);
    var profit := ToOdds(quoted) - ODDS_ONE;
    var kept := BPS - Min(bps, BPS);
    MulNonNeg(profit, kept);
    FloorNonNeg(profit * kept, BPS);
    MulLe(kept, BPS, profit);
    FloorMono(profit * kept, profit * BPS, BPS);
  }

  lemma {:induction false} CommissionPriceInRange(quoted: Prob, bps: nat)
    requires NetOdds(quoted, bps) >= ODDS_ONE
    ensures CommissionPrice(quoted, bps) == CeilDiv(RECIPROCAL, NetOdds(quoted, bps))
    ensures 1 <= CommissionPrice(quoted, bps) <= PPM
  {
    var net := NetOdds(quoted, bps);
    MulLe(ODDS_ONE, net, PPM);
    CeilLe(RECIPROCAL, net, PPM);
    CeilLe(RECIPROCAL, net, 0);
  }

  lemma {:induction false} StakeFeeRaises(quoted: Prob, bps: nat)
    ensures quoted <= quoted * (BPS + bps) / BPS
  {
    MulNonNeg(quoted, bps);
    assert quoted * (BPS + bps) == quoted * BPS + quoted * bps;
    FloorGe(quoted * (BPS + bps), BPS, quoted);
  }

  lemma {:induction false} RebateLowers(quoted: Prob, bps: nat)
    ensures 0 <= quoted * (BPS - Min(bps, BPS)) / BPS <= quoted
  {
    var kept := BPS - Min(bps, BPS);
    MulNonNeg(quoted, kept);
    FloorNonNeg(quoted * kept, BPS);
    MulLe(kept, BPS, quoted);
    FloorMono(quoted * kept, quoted * BPS, BPS);
  }

  /** A fee only ever makes a bet worse, although the reciprocal inside the commission
      form rounds to nearest; a rebate only ever makes it better. */
  lemma {:induction false} FeeDirection(fee: Fee, quoted: Prob)
    ensures fee.CommissionBps? || fee.StakeFeeBps? ==> quoted <= Effective(fee, quoted)
    ensures fee.MakerRebateBps? ==> Effective(fee, quoted) <= quoted
  {
    match fee
    case NoFee =>
    case CommissionBps(bps) =>
      if bps != 0 {
        CommissionNeverImproves(quoted, bps);
      }
    case StakeFeeBps(bps) => StakeFeeRaises(quoted, bps);
    case MakerRebateBps(bps) => RebateLowers(quoted, bps);
  }

  lemma {:induction false} CommissionNeverImproves(quoted: Prob, bps: nat)
    requires bps != 0
    ensures quoted <= Effective(CommissionBps(bps), quoted)
  {
    var net, odds := NetOdds(quoted, bps), ToOdds(quoted);
    NetOddsBounds(quoted, bps);
    CommissionPriceInRange(quoted, bps);
    DivRoundBounds(RECIPROCAL, quoted);
    // (quoted - 1) * odds < RECIPROCAL: one unit of price outweighs the rounding.
    assert (quoted - 1) * odds == odds * quoted - odds;
    MulLe(net, odds, quoted - 1);
    CeilLe(RECIPROCAL, net, quoted - 1);
  }

  /** The commission price is the least price whose product with the net odds covers
      the reciprocal constant: it never promises more than the net odds pay, and no
      smaller price has that property. */
  lemma {:induction false} CommissionIsLeastCoveringPrice(quoted: Prob, bps: nat, p: int)
    requires bps != 0
    ensures RECIPROCAL <= Effective(CommissionBps(bps), quoted) * NetOdds(quoted, bps)
    ensures RECIPROCAL <= p * NetOdds(quoted, bps) ==> Effective(CommissionBps(bps), quoted) <= p
  {
    var net := NetOdds(quoted, bps);
    NetOddsBounds(quoted, bps);
    CommissionPriceInRange(quoted, bps);
    CeilBounds(RECIPROCAL, net);
    CeilLe(RECIPROCAL, net, p);
  }

  /** A stake fee charges the whole rate, rounded down to a part per million, until the price
      is certain. */
  lemma {:induction false} StakeFeeIsFloor(quoted: Prob, bps: nat, p: int)
    ensures var e := Effective(StakeFeeBps(bps), quoted);
            p <= e <==> p <= PPM && p * BPS <= quoted * (BPS + bps)
  {
    FloorGe(quoted * (BPS + bps), BPS, p);
    if bps == 0 {
      assert quoted * (BPS + bps) == quoted * BPS;
    }
  }

  /** A rebate credits the whole rate, rounded down to a part per million, but no price falls
      below one. */
  lemma {:induction false} RebateIsFloor(quoted: Prob, bps: nat, p: int)
    ensures var e := Effective(MakerRebateBps(bps), quoted);
            p <= e <==> p <= 1 || p * BPS <= quoted * (BPS - Min(bps, BPS))
  {
    FloorGe(quoted * (BPS - Min(bps, BPS)), BPS, p);
    if bps == 0 {
      assert quoted * (BPS - Min(bps, BPS)) == quoted * BPS;
    }
  }

  /** A stake fee rounds up exactly when nothing is left to round or the price is certain. */
  lemma {:induction false} StakeFeeRoundsUpExactly(quoted: Prob, bps: nat)
    ensures Effective(StakeFeeBps(bps), quoted) == Min(CeilDiv(quoted * (BPS + bps), BPS), PPM)
            <==> quoted * bps % BPS == 0 || quoted * (BPS + bps) / BPS >= PPM
  {
    var n := quoted * (BPS + bps);
    assert n == quoted * BPS + quoted * bps;
    CeilAndFloor(n, quoted, quoted * bps);
    assert bps == 0 ==> quoted * bps == 0;
  }

  /** A rebate rounds up exactly when nothing is left to round or the price is the least. */
  lemma {:induction false} RebateRoundsUpExactly(quoted: Prob, bps: nat)
    ensures Effective(MakerRebateBps(bps), quoted) == Max(CeilDiv(quoted * (BPS - Min(bps, BPS)), BPS), 1)
            <==> quoted * Min(bps, BPS) % BPS == 0 || quoted * (BPS - Min(bps, BPS)) <= BPS
  {
    var taken := Min(bps, BPS);
    var n := quoted * (BPS - taken);
    assert n == quoted * BPS + -(quoted * taken);
    CeilAndFloor(n, quoted, -(quoted * taken));
    assert bps == 0 ==> quoted * taken == 0;
    MulNonNeg(quoted, BPS - taken);
  }

  /** The ceiling is the floor, or one more when the part of `n` below the multiple `q` of a
      whole does not divide. */
  lemma {:induction false} CeilAndFloor(n: int, q: int, r: int)
    requires n == q * BPS + r
    ensures CeilDiv(n, BPS) == n / BPS + if r % BPS == 0 then 0 else 1
    ensures (-r) % BPS == 0 <==> r % BPS == 0
  {
  }

  /** One part per million at one basis point: the stake fee is rounded away, and so is more
      than a rebate of the same rate takes from three. */
  lemma {:induction false} FeesCanRoundDown()
    ensures Effective(StakeFeeBps(1), 1) == 1 && Min(CeilDiv(1 * (BPS + 1), BPS), PPM) == 2
    ensures Effective(MakerRebateBps(1), 3) == 2 && Max(CeilDiv(3 * (BPS - 1), BPS), 1) == 3
  {
  }

  lemma {:induction false} NetOddsAntitone(p: Prob, q: Prob, bps: nat)
    requires p <= q
    ensures NetOdds(q, bps) <= NetOdds(p, bps)
  {
    ToOddsAntitone(p, q);
    var kept := BPS - Min(bps, BPS);
    MulLe(ToOdds(q) - ODDS_ONE, ToOdds(p) - ODDS_ONE, kept);
    FloorMono((ToOdds(q) - ODDS_ONE) * kept, (ToOdds(p) - ODDS_ONE) * kept, BPS);
  }

  /** Fees preserve the order of prices, whatever the schedule: the best quote before
      fees at one venue is the best quote after them. */
  lemma {:induction false} EffectiveMonotone(fee: Fee, p: Prob, q: Prob)
    requires p <= q
    ensures Effective(fee, p) <= Effective(fee, q)
  {
    match fee
    case NoFee =>
    case CommissionBps(bps) =>
      if bps != 0 {
        NetOddsBounds(p, bps);
        NetOddsBounds(q, bps);
        CommissionPriceInRange(p, bps);
        CommissionPriceInRange(q, bps);
        NetOddsAntitone(p, q, bps);
        var e := Effective(fee, q);
        CeilBounds(RECIPROCAL, NetOdds(q, bps));
        MulLe(NetOdds(q, bps), NetOdds(p, bps), e);
        CeilLe(RECIPROCAL, NetOdds(p, bps), e);
      }
    case StakeFeeBps(bps) =>
      if bps != 0 {
        MulLe(p, q, BPS + bps);
        FloorMono(p * (BPS + bps), q * (BPS + bps), BPS);
      }
    case MakerRebateBps(bps) =>
      if bps != 0 {
        var kept := BPS - Min(bps, BPS);
        MulLe(p, q, kept);
        FloorMono(p * kept, q * kept, BPS);
      }
  }
}
