/** Why the early exit at parity loses nothing, for any stakes over any levels. */
module Parity {
  import opened Arith
  import opened Price
  import opened WaterFill
  import opened Plans

  /** The stakes on the first `n` chunks whose group is below `k`. */
  function StakesBelow(items: seq<Chunk>, stakes: seq<int>, k: nat, n: nat): int
    requires n <= |items| && n <= |stakes|
  {
    if n == 0 then 0
    else StakesBelow(items, stakes, k, n - 1) + if items[n - 1].group < k then stakes[n - 1] else 0
  }

  /** The stakes on the first `n` chunks of one group. */
  function StakesOn(items: seq<Chunk>, stakes: seq<int>, group: nat, n: nat): int
    requires n <= |items| && n <= |stakes|
  {
    if n == 0 then 0
    else StakesOn(items, stakes, group, n - 1) + if items[n - 1].group == group then stakes[n - 1] else 0
  }

  /** The sum of the best prices of the first `k` groups. */
  function Overround(best: seq<Prob>, k: nat): int
    requires k <= |best|
  {
    if k == 0 then 0 else Overround(best, k - 1) + best[k - 1]
  }

  lemma {:induction false} StakesSplit(items: seq<Chunk>, stakes: seq<int>, k: nat, n: nat)
    requires n <= |items| && n <= |stakes|
    ensures StakesBelow(items, stakes, k + 1, n)
            == StakesBelow(items, stakes, k, n) + StakesOn(items, stakes, k, n)
  {
    if n > 0 {
      StakesSplit(items, stakes, k, n - 1);
    }
  }

  lemma {:induction false} StakesNone(items: seq<Chunk>, stakes: seq<int>, n: nat)
    requires n <= |items| && n <= |stakes|
    ensures StakesBelow(items, stakes, 0, n) == 0
  {
    if n > 0 {
      StakesNone(items, stakes, n - 1);
    }
  }

  lemma {:induction false} StakesAll(items: seq<Chunk>, stakes: seq<int>, k: nat, n: nat)
    requires n <= |items| && n <= |stakes|
    requires forall j :: 0 <= j < n ==> items[j].group < k
    ensures StakesBelow(items, stakes, k, n) == Total(stakes, n)
  {
    if n > 0 {
      StakesAll(items, stakes, k, n - 1);
    }
  }

  /** An outcome's payout, at its best price, costs at most what was staked on it. */
  lemma {:induction false} OutcomeCost(items: seq<Chunk>, stakes: seq<int>, group: nat, best: Prob, n: nat)
    requires n <= |items| && n <= |stakes|
    requires forall j :: 0 <= j < n && items[j].group == group ==> best <= items[j].price && stakes[j] >= 0
    ensures best * GroupPayout(items, stakes, group, n) <= StakesOn(items, stakes, group, n) * PPM
  {
    if n > 0 {
      OutcomeCost(items, stakes, group, best, n - 1);
      if items[n - 1].group == group {
        var c, stake := items[n - 1], stakes[n - 1];
        PayoutBounds(c.price, stake);
        MulLe(best, c.price, Payout(c.price, stake));
        AddTerm(best, GroupPayout(items, stakes, group, n - 1), Payout(c.price, stake),
                StakesOn(items, stakes, group, n - 1), stake, PPM);
      }
    }
  }

  /** A payout guaranteed in every one of the first `k` outcomes costs, at the best
      prices, at most what was staked on them. */
  lemma {:induction false} GuaranteeCost(
    items: seq<Chunk>, stakes: seq<int>, best: seq<Prob>, payout: int, k: nat)
    requires k <= |best| && |items| <= |stakes|
    requires forall j :: 0 <= j < |items| ==> stakes[j] >= 0
    requires forall j :: 0 <= j < |items| && items[j].group < k ==> best[items[j].group] <= items[j].price
    requires forall g :: 0 <= g < k ==> payout <= GroupPayout(items, stakes, g, |items|)
    ensures payout * Overround(best, k) <= StakesBelow(items, stakes, k, |items|) * PPM
  {
    StakesNone(items, stakes, |items|);
    if k > 0 {
      GuaranteeCost(items, stakes, best, payout, k - 1);
      OutcomeCost(items, stakes, k - 1, best[k - 1], |items|);
      StakesSplit(items, stakes, k - 1, |items|);
      var paid := GroupPayout(items, stakes, k - 1, |items|);
      MulLe(payout, paid, best[k - 1]);
      AddTerm(payout, Overround(best, k - 1), best[k - 1],
              StakesBelow(items, stakes, k - 1, |items|), StakesOn(items, stakes, k - 1, |items|), PPM);
    }
  }

  /** No plan escapes the overround. For any non-negative stakes over any chunks priced
      no better than `best`, a payout guaranteed in every outcome leaves a profit of at
      most `total * (PPM - overround) / overround`. */
  lemma {:induction false} ProfitBound(c: Chunks, best: seq<Prob>, stakes: seq<int>, payout: int)
    requires c.nGroups == |best| && |c.items| <= |stakes|
    requires forall j :: 0 <= j < |c.items| ==> stakes[j] >= 0
    requires forall j :: 0 <= j < |c.items| ==> c.items[j].group < |best| && best[c.items[j].group] <= c.items[j].price
    requires forall g :: 0 <= g < c.nGroups ==> payout <= GroupPayout(c.items, stakes, g, |c.items|)
    ensures (payout - Total(stakes, |c.items|)) * Overround(best, |best|)
            <= Total(stakes, |c.items|) * (PPM - Overround(best, |best|))
  {
    var total, o := Total(stakes, |c.items|), Overround(best, |best|);
    GuaranteeCost(c.items, stakes, best, payout, |best|);
    StakesAll(c.items, stakes, |best|, |c.items|);
    assert (payout - total) * o == payout * o - total * o;
    assert total * (PPM - o) == total * PPM - total * o;
  }

  /** At or above parity nothing profits. */
  lemma {:induction false} ParityExit(c: Chunks, best: seq<Prob>, stakes: seq<int>)
    requires 0 < c.nGroups == |best| && |c.items| <= |stakes|
    requires forall j :: 0 <= j < |c.items| ==> stakes[j] >= 0
    requires forall j :: 0 <= j < |c.items| ==> c.items[j].group < |best| && best[c.items[j].group] <= c.items[j].price
    requires Overround(best, |best|) >= PPM
    ensures Profit(c, stakes) <= 0
  {
    var total, o := Total(stakes, |c.items|), Overround(best, |best|);
    var worst := Worst(c, stakes, c.nGroups);
    WorstIsLeast(c, stakes, c.nGroups);
    TotalNonNeg(stakes, |c.items|);
    forall g | 0 <= g < c.nGroups
      ensures worst <= GroupPayout(c.items, stakes, g, |c.items|)
    {
      assert worst <= OutcomePayout(c, stakes, g);
      GroupPayoutNonNeg(c.items, stakes, g, |c.items|);
    }
    ProfitBound(c, best, stakes, worst);
    if worst > total {
      MulLt(0, worst - total, o);
      MulLe(PPM - o, 0, total);
    }
  }
}
