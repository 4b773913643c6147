/** The arbitrage planner: flatten, test the condition, seed, search, report. */
module Planner {
  import opened Arith
  import opened Price
  import opened WaterFill
  import opened Plans
  import opened Quotes
  import opened Flatten
  import opened Parity
  import opened Search

  // ---- The closed-form seed ----

  /** The best prices of the outcomes: chunk `g` is the best price of outcome `g`. */
  function BestPrices(c: Chunks): (best: seq<Prob>)
    requires c.nGroups <= |c.items|
    ensures |best| == c.nGroups && forall g :: 0 <= g < c.nGroups ==> best[g] == c.items[g].price
  {
    seq(c.nGroups, g requires 0 <= g < c.nGroups => c.items[g].price)
  }

  /** Their sum, which the parity test is about. */
  function BestOverround(c: Chunks): int
    requires c.nGroups <= |c.items|
  {
    Overround(BestPrices(c), c.nGroups)
  }

  /** The largest total stake the resting depth of the first `k` best prices allows. */
  function Ceiling(c: Chunks, overround: int, k: nat): int
    requires k <= |c.items|
  {
    if k == 0 then c.budget
    else Min(Ceiling(c, overround, k - 1), c.items[k - 1].resting * overround / c.items[k - 1].price)
  }

  /** The equal-payoff stake on one outcome's best price, floored to an increment. */
  function SeedStake(ck: Chunk, ceiling: int, overround: int): int
    requires overround > 0
  {
    RoundDownTo(ceiling * ck.price / overround, ck.increment)
  }

  /** The equal-payoff plan over best prices, when it stakes something on every outcome. */
  ghost predicate IsSeed(c: Chunks, overround: int, stakes: seq<int>)
    requires c.nGroups <= |c.items| <= MAX_CHUNKS && overround > 0
  {
    && |stakes| == MAX_CHUNKS
    && var ceiling := Ceiling(c, overround, c.nGroups);
       && ceiling > 0
       && (forall g :: 0 <= g < c.nGroups ==>
                         stakes[g] == SeedStake(c.items[g], ceiling, overround) && stakes[g] > 0)
       && (forall j :: c.nGroups <= j < MAX_CHUNKS ==> stakes[j] == 0)
  }

  /** The seed exists exactly when it would stake something everywhere. */
  ghost predicate SeedUsable(c: Chunks, overround: int)
    requires c.nGroups <= |c.items| && overround > 0
  {
    var ceiling := Ceiling(c, overround, c.nGroups);
    ceiling > 0 && forall g :: 0 <= g < c.nGroups ==> SeedStake(c.items[g], ceiling, overround) > 0
  }

  lemma {:induction false} CeilingIsLeast(c: Chunks, overround: int, k: nat)
    requires k <= |c.items|
    ensures Ceiling(c, overround, k) <= c.budget
    ensures forall g :: 0 <= g < k ==>
                          Ceiling(c, overround, k) <= c.items[g].resting * overround / c.items[g].price
  {
    if k > 0 {
      CeilingIsLeast(c, overround, k - 1);
    }
  }

  /** A seed stake fits the depth it was computed from. */
  lemma {:induction false} SeedStakeFits(ck: Chunk, ceiling: int, overround: int)
    requires overround > 0 && ceiling > 0 && ceiling <= ck.resting * overround / ck.price
    ensures 0 <= SeedStake(ck, ceiling, overround) <= ck.capacity
    ensures SeedStake(ck, ceiling, overround) % ck.increment == 0
    ensures SeedStake(ck, ceiling, overround) * overround <= ceiling * ck.price
  {
    var ideal := ceiling * ck.price / overround;
    FloorGe(ck.resting * overround, ck.price, ceiling);
    FloorGe(ck.resting * overround, overround, ck.resting);
    FloorIs(ck.resting * overround, overround, ck.resting);
    FloorMono(ceiling * ck.price, ck.resting * overround, overround);
    FloorNonNeg(ceiling * ck.price, overround);
    FloorMono(ideal, ck.resting, ck.increment);
    FloorNonNeg(ideal, ck.increment);
    MulLe(ideal / ck.increment, ck.resting / ck.increment, ck.increment);
    MulLe(0, ideal / ck.increment, ck.increment);
    MultipleOf(ideal / ck.increment, ck.increment);
    FloorBounds(ideal, ck.increment);
    MulLe(SeedStake(ck, ceiling, overround), ideal, overround);
    FloorBounds(ceiling * ck.price, overround);
  }

  lemma {:induction false} SeedWithinCeiling(c: Chunks, overround: int, ceiling: int, stakes: seq<int>, k: nat)
    requires k <= c.nGroups <= |c.items| && k <= |stakes|
    requires forall g :: 0 <= g < k ==> stakes[g] * overround <= ceiling * c.items[g].price
    ensures overround * Total(stakes, k) <= Overround(BestPrices(c), k) * ceiling
  {
    if k > 0 {
      SeedWithinCeiling(c, overround, ceiling, stakes, k - 1);
      AddTerm(overround, Total(stakes, k - 1), stakes[k - 1],
              Overround(BestPrices(c), k - 1), c.items[k - 1].price, ceiling);
    }
  }

  lemma {:induction false} TotalOfPrefix(stakes: seq<int>, k: nat, n: nat)
    requires k <= n <= |stakes| && forall j :: k <= j < n ==> stakes[j] == 0
    ensures Total(stakes, n) == Total(stakes, k)
  {
    if n > k {
      TotalOfPrefix(stakes, k, n - 1);
    }
  }

  /** Every seed stake is legal, and costs no more than its share of the ceiling. */
  lemma {:induction false} SeedLegal(c: Chunks, overround: int, stakes: seq<int>, j: nat)
    requires Grouped(c) && |c.items| <= MAX_CHUNKS && overround > 0 && IsSeed(c, overround, stakes)
    requires j < |c.items|
    ensures 0 <= stakes[j] <= c.items[j].capacity && stakes[j] % c.items[j].increment == 0
    ensures j < c.nGroups ==> stakes[j] * overround <= Ceiling(c, overround, c.nGroups) * c.items[j].price
  {
    if j < c.nGroups {
      CeilingIsLeast(c, overround, c.nGroups);
      SeedStakeFits(c.items[j], Ceiling(c, overround, c.nGroups), overround);
    }
  }

  /** The seed spends no more than the ceiling. */
  lemma {:induction false} SeedSpends(c: Chunks, overround: int, stakes: seq<int>)
    requires Grouped(c) && |c.items| <= MAX_CHUNKS && overround > 0 && IsSeed(c, overround, stakes)
    requires overround == BestOverround(c)
    ensures Total(stakes, c.nGroups) <= Ceiling(c, overround, c.nGroups)
  {
    var ceiling, total := Ceiling(c, overround, c.nGroups), Total(stakes, c.nGroups);
    forall g | 0 <= g < c.nGroups
      ensures stakes[g] * overround <= ceiling * c.items[g].price
    {
      SeedLegal(c, overround, stakes, g);
    }
    SeedWithinCeiling(c, overround, ceiling, stakes, c.nGroups);
    assert total * overround == overround * total && overround * ceiling == ceiling * overround;
    CancelLe(total, ceiling, overround);
  }

  /** The seed always lies inside depth, increments and budget. */
  lemma {:induction false} SeedAdmissible(c: Chunks, overround: int, stakes: seq<int>)
    requires Grouped(c) && |c.items| <= MAX_CHUNKS && overround > 0
    requires overround == BestOverround(c)
    requires IsSeed(c, overround, stakes)
    ensures Admissible(c, stakes)
    ensures Total(stakes, |c.items|) > 0
  {
    forall j | 0 <= j < |c.items|
      ensures 0 <= stakes[j] <= c.items[j].capacity && stakes[j] % c.items[j].increment == 0
    {
      SeedLegal(c, overround, stakes, j);
    }
    CeilingIsLeast(c, overround, c.nGroups);
    SeedSpends(c, overround, stakes);
    TotalOfPrefix(stakes, c.nGroups, |c.items|);
    TotalAtLeast(stakes, 0, |c.items|);
  }

  lemma {:induction false} TotalAtLeast(stakes: seq<int>, j: nat, n: nat)
    requires j < n <= |stakes| && forall i :: 0 <= i < n ==> stakes[i] >= 0
    ensures Total(stakes, n) >= stakes[j]
  {
    if j < n - 1 {
      TotalAtLeast(stakes, j, n - 1);
    } else {
      TotalNonNeg(stakes, n - 1);
    }
  }

  /** The seed: every outcome staked once, at its best price, for the same payout. */
  method Seed(c: Chunks, overround: int) returns (result: Option<seq<int>>)
    requires Grouped(c) && |c.items| <= MAX_CHUNKS && overround > 0
    ensures result.Some? <==> SeedUsable(c, overround)
    ensures result.Some? ==> IsSeed(c, overround, result.value)
  {
    var ceiling := c.budget;
    for group := 0 to c.nGroups
      invariant ceiling == Ceiling(c, overround, group)
    {
      ceiling := Min(ceiling, c.items[group].resting * overround / c.items[group].price);
    }
    if ceiling <= 0 {
      return None;
    }
    var stakes := new int[MAX_CHUNKS](_ => 0);
    for group := 0 to c.nGroups
      invariant forall g :: 0 <= g < group ==>
                              stakes[g] == SeedStake(c.items[g], ceiling, overround) && stakes[g] > 0
      invariant forall j :: group <= j < MAX_CHUNKS ==> stakes[j] == 0
    {
      var ideal := ceiling * c.items[group].price / overround;
      var stake := RoundDownTo(ideal, c.items[group].increment);
      if stake <= 0 {
        return None;
      }
      stakes[group] := stake;
    }
    return Some(stakes[..]);
  }

  // ---- The signal ----

  /** The staked chunks among the first `n`, with what each pays. */
  function Allocations(items: seq<Chunk>, stakes: seq<int>, n: nat): (a: seq<Allocation>)
    requires n <= |items| && n <= |stakes|
    ensures |a| <= n
  {
    if n == 0 then []
    else Allocations(items, stakes, n - 1)
         + if stakes[n - 1] <= 0 then []
           else [Allocation(items[n - 1].leg, stakes[n - 1], Payout(items[n - 1].price, stakes[n - 1]))]
  }

  /** The slots behind those allocations. */
  function AllocatedSlots(slots: seq<Slot>, stakes: seq<int>, n: nat): (a: seq<Slot>)
    requires n <= |slots| && n <= |stakes|
    ensures forall k :: 0 <= k < |a| ==> a[k] in slots[..n]
  {
    if n == 0 then []
    else
      assert slots[..n] == slots[..n - 1] + [slots[n - 1]];
      AllocatedSlots(slots, stakes, n - 1) + if stakes[n - 1] <= 0 then [] else [slots[n - 1]]
  }

  /** The sum of the first `k` allocated stakes. */
  function AllocatedStake(a: seq<Allocation>, k: nat): int
    requires k <= |a|
  {
    if k == 0 then 0 else AllocatedStake(a, k - 1) + a[k - 1].stake
  }

  /** What the first `k` allocations pay if an outcome lands. */
  function AllocatedPayout(a: seq<Allocation>, groupOf: seq<nat>, group: nat, k: nat): int
    requires k <= |a|
  {
    if k == 0 then 0
    else AllocatedPayout(a, groupOf, group, k - 1)
         + if a[k - 1].leg < |groupOf| && groupOf[a[k - 1].leg] == group then a[k - 1].payout else 0
  }

  /** An allocation stakes a positive number of increments within the depth of a level,
      and pays what the level's effective price pays. */
  ghost predicate DrawsOn(legs: seq<BookLeg>, s: Slot, a: Allocation) {
    && Usable(legs, s) && a.leg == s.0
    && 0 < a.stake <= legs[s.0].levels[s.1].size
    && a.stake % legs[s.0].increment == 0
    && a.payout == Payout(SlotPrice(legs, s), a.stake)
  }

  /** Everything a consumer of a signal may rely on. `slots` names the level each
      allocation draws on. */
  ghost predicate Sound(
    legs: seq<BookLeg>, groupOf: seq<nat>, nGroups: nat, budget: int, signal: Signal, slots: seq<Slot>)
    requires |legs| <= |groupOf|
  {
    var a := signal.allocations;
    && |a| == |slots| <= MAX_CHUNKS
    // Each allocation draws on a real level, at its effective price, within its size.
    && (forall k :: 0 <= k < |a| ==> DrawsOn(legs, slots[k], a[k]))
    // No level is drawn on twice.
    && Distinct(slots)
    && 0 < signal.totalStake == AllocatedStake(a, |a|) <= budget
    && 0 < signal.worstCaseProfit
    // Every outcome returns the stake and the profit, and some outcome returns no more.
    && (forall g :: 0 <= g < nGroups ==> OutcomeCovered(signal, groupOf, g))
    && (exists g :: 0 <= g < nGroups && OutcomeTight(signal, groupOf, g))
    && 0 < signal.overroundPpm < PPM
    && signal.worstCaseProfit * signal.overroundPpm <= signal.totalStake * (PPM - signal.overroundPpm)
    && signal.profitBps == Min(signal.worstCaseProfit * 10_000 / signal.totalStake, 0xffff_ffff)
  }

  ghost predicate OutcomeCovered(signal: Signal, groupOf: seq<nat>, group: nat) {
    && signal.worstCaseProfit
       <= AllocatedPayout(signal.allocations, groupOf, group, |signal.allocations|) - signal.totalStake
    && exists k :: 0 <= k < |signal.allocations| && Backs(signal.allocations[k], groupOf, group)
  }

  ghost predicate Backs(a: Allocation, groupOf: seq<nat>, group: nat) {
    a.leg < |groupOf| && groupOf[a.leg] == group
  }

  ghost predicate OutcomeTight(signal: Signal, groupOf: seq<nat>, group: nat) {
    signal.worstCaseProfit
    == ToCents(AllocatedPayout(signal.allocations, groupOf, group, |signal.allocations|)) - signal.totalStake
  }

  /** The signal a chosen plan is reported as. */
  function SignalOf(c: Chunks, overround: int, stakes: seq<int>): Signal
    requires |c.items| <= |stakes| && Total(stakes, |c.items|) > 0
  {
    var total, profit := Total(stakes, |c.items|), Profit(c, stakes);
    Signal(Allocations(c.items, stakes, |c.items|), overround, total, profit,
           Max(0, Min(profit * 10_000 / total, 0xffff_ffff)))
  }

  // ---- From a chosen plan to a sound signal ----

  /** What the planner has established about its input once it starts to search. */
  ghost predicate Prepared(legs: seq<BookLeg>, groupOf: seq<nat>, c: Chunks, slots: seq<Slot>) {
    && |legs| <= |groupOf|
    && Grouped(c) && |c.items| <= MAX_CHUNKS && 0 < c.budget <= CENTS_MAX
    && IsFlattening(legs, groupOf, c.nGroups, slots)
    && |slots| == |c.items|
    && (forall k :: 0 <= k < |slots| ==> Usable(legs, slots[k]) && c.items[k] == ChunkOf(legs, groupOf, slots[k]))
    && 0 < BestOverround(c) < PPM
  }

  lemma {:induction false} ChunkFaithful(legs: seq<BookLeg>, groupOf: seq<nat>, s: Slot, stake: int)
    requires |legs| <= |groupOf| && Usable(legs, s)
    requires var c := ChunkOf(legs, groupOf, s); 0 < stake <= c.capacity && stake % c.increment == 0
    ensures var c := ChunkOf(legs, groupOf, s); DrawsOn(legs, s, Allocation(c.leg, stake, Payout(c.price, stake)))
  {
    var leg := legs[s.0];
    FloorBounds(leg.levels[s.1].size, leg.increment);
  }

  lemma {:induction false} AllocationsFaithful(
    legs: seq<BookLeg>, groupOf: seq<nat>, c: Chunks, slots: seq<Slot>, stakes: seq<int>, n: nat)
    requires |legs| <= |groupOf| && |slots| == |c.items| && Legal(c.items, stakes) && n <= |c.items|
    requires forall k :: 0 <= k < |slots| ==> Usable(legs, slots[k]) && c.items[k] == ChunkOf(legs, groupOf, slots[k])
    ensures var a, s := Allocations(c.items, stakes, n), AllocatedSlots(slots, stakes, n);
            |a| == |s| && forall k :: 0 <= k < |a| ==> DrawsOn(legs, s[k], a[k])
  {
    if n > 0 {
      AllocationsFaithful(legs, groupOf, c, slots, stakes, n - 1);
      if stakes[n - 1] > 0 {
        ChunkFaithful(legs, groupOf, slots[n - 1], stakes[n - 1]);
      }
    }
  }

  lemma {:induction false} AllocationsTotal(items: seq<Chunk>, stakes: seq<int>, n: nat)
    requires n <= |items| && n <= |stakes| && forall j :: 0 <= j < n ==> stakes[j] >= 0
    ensures AllocatedStake(Allocations(items, stakes, n), |Allocations(items, stakes, n)|) == Total(stakes, n)
  {
    if n > 0 {
      AllocationsTotal(items, stakes, n - 1);
      var a, a' := Allocations(items, stakes, n - 1), Allocations(items, stakes, n);
      if stakes[n - 1] > 0 {
        assert a'[..|a|] == a;
        AllocatedStakePrefix(a, a', |a|);
      } else {
        assert a' == a;
      }
    }
  }

  lemma {:induction false} AllocatedStakePrefix(a: seq<Allocation>, a': seq<Allocation>, k: nat)
    requires k <= |a| <= |a'| && a'[..|a|] == a
    ensures AllocatedStake(a', k) == AllocatedStake(a, k)
  {
    if k > 0 {
      AllocatedStakePrefix(a, a', k - 1);
    }
  }

  lemma {:induction false} AllocatedPayoutPrefix(
    a: seq<Allocation>, a': seq<Allocation>, groupOf: seq<nat>, group: nat, k: nat)
    requires k <= |a| <= |a'| && a'[..|a|] == a
    ensures AllocatedPayout(a', groupOf, group, k) == AllocatedPayout(a, groupOf, group, k)
  {
    if k > 0 {
      AllocatedPayoutPrefix(a, a', groupOf, group, k - 1);
    }
  }

  /** Dropping the unstaked chunks changes no outcome's payout. */
  lemma {:induction false} AllocationsPay(
    items: seq<Chunk>, groupOf: seq<nat>, stakes: seq<int>, group: nat, n: nat)
    requires n <= |items| && n <= |stakes|
    requires forall j :: 0 <= j < n ==> stakes[j] >= 0
    requires forall j :: 0 <= j < n ==> items[j].leg < |groupOf| && items[j].group == groupOf[items[j].leg]
    ensures var a := Allocations(items, stakes, n);
            && AllocatedPayout(a, groupOf, group, |a|) == GroupPayout(items, stakes, group, n)
            && (GroupPayout(items, stakes, group, n) > 0 ==>
                  exists k :: 0 <= k < |a| && Backs(a[k], groupOf, group))
  {
    if n > 0 {
      AllocationsPay(items, groupOf, stakes, group, n - 1);
      var a, a' := Allocations(items, stakes, n - 1), Allocations(items, stakes, n);
      if stakes[n - 1] > 0 {
        assert a'[..|a|] == a;
        AllocatedPayoutPrefix(a, a', groupOf, group, |a|);
        if items[n - 1].group == group {
          assert Backs(a'[|a|], groupOf, group);
        } else if GroupPayout(items, stakes, group, n) > 0 {
          var k :| 0 <= k < |a| && Backs(a[k], groupOf, group);
          assert Backs(a'[k], groupOf, group);
        }
      } else {
        assert a' == a;
        PayoutBounds(items[n - 1].price, 0);
      }
    }
  }

  ghost predicate Distinct(slots: seq<Slot>) {
    forall i, k :: 0 <= i < k < |slots| ==> slots[i] != slots[k]
  }

  lemma {:induction false} AllocatedSlotsDistinct(slots: seq<Slot>, stakes: seq<int>, n: nat)
    requires n <= |slots| && n <= |stakes| && Distinct(slots)
    ensures Distinct(AllocatedSlots(slots, stakes, n))
  {
    if n > 0 {
      AllocatedSlotsDistinct(slots, stakes, n - 1);
      var s := AllocatedSlots(slots, stakes, n - 1);
      forall i | 0 <= i < |s|
        ensures s[i] != slots[n - 1]
      {
        assert s[i] in slots[..n - 1];
        var x :| 0 <= x < n - 1 && slots[x] == s[i];
      }
    }
  }

  /** Every outcome pays at least what a plan stakes and earns. */
  lemma {:induction false} ProfitIsCovered(c: Chunks, stakes: seq<int>, group: nat)
    requires Grouped(c) && Admissible(c, stakes) && c.budget <= CENTS_MAX && Profit(c, stakes) > 0
    requires group < c.nGroups
    ensures Profit(c, stakes) + Total(stakes, |c.items|) <= OutcomePayout(c, stakes, group)
    ensures Profit(c, stakes) + Total(stakes, |c.items|) <= GroupPayout(c.items, stakes, group, |c.items|)
  {
    ProfitExact(c, stakes);
    WorstIsLeast(c, stakes, c.nGroups);
    GroupPayoutNonNeg(c.items, stakes, group, |c.items|);
  }

  /** Some outcome pays no more than that. */
  lemma {:induction false} ProfitIsAttained(c: Chunks, stakes: seq<int>) returns (group: nat)
    requires Grouped(c) && Admissible(c, stakes) && c.budget <= CENTS_MAX && Profit(c, stakes) > 0
    ensures group < c.nGroups && Profit(c, stakes) + Total(stakes, |c.items|) == OutcomePayout(c, stakes, group)
  {
    ProfitExact(c, stakes);
    WorstAttained(c, stakes);
    group :| 0 <= group < c.nGroups && Worst(c, stakes, c.nGroups) == OutcomePayout(c, stakes, group);
  }

  /** An outcome's allocations pay what its chunks do, so it is backed and covered, and tightly
      when it is the worst. */
  lemma {:induction false} AllocationsCover(
    c: Chunks, groupOf: seq<nat>, stakes: seq<int>, overround: int, group: nat)
    requires Grouped(c) && Admissible(c, stakes) && c.budget <= CENTS_MAX && group < c.nGroups
    requires forall j :: 0 <= j < |c.items| ==>
                           c.items[j].leg < |groupOf| && c.items[j].group == groupOf[c.items[j].leg]
    requires Total(stakes, |c.items|) > 0 && Profit(c, stakes) > 0
    ensures var signal := SignalOf(c, overround, stakes);
            && OutcomeCovered(signal, groupOf, group)
            && (OutcomePayout(c, stakes, group) == Profit(c, stakes) + Total(stakes, |c.items|)
                ==> OutcomeTight(signal, groupOf, group))
  {
    ProfitIsCovered(c, stakes, group);
    AllocationsPay(c.items, groupOf, stakes, group, |c.items|);
  }

  lemma {:induction false} OutcomesCovered(c: Chunks, groupOf: seq<nat>, stakes: seq<int>, overround: int)
    requires Grouped(c) && Admissible(c, stakes) && c.budget <= CENTS_MAX
    requires forall j :: 0 <= j < |c.items| ==>
                           c.items[j].leg < |groupOf| && c.items[j].group == groupOf[c.items[j].leg]
    requires Total(stakes, |c.items|) > 0 && Profit(c, stakes) > 0
    ensures var signal := SignalOf(c, overround, stakes);
            && (forall g :: 0 <= g < c.nGroups ==> OutcomeCovered(signal, groupOf, g))
            && (exists g :: 0 <= g < c.nGroups && OutcomeTight(signal, groupOf, g))
  {
    var signal := SignalOf(c, overround, stakes);
    forall g | 0 <= g < c.nGroups
      ensures OutcomeCovered(signal, groupOf, g)
    {
      AllocationsCover(c, groupOf, stakes, overround, g);
    }
    var worst := ProfitIsAttained(c, stakes);
    AllocationsCover(c, groupOf, stakes, overround, worst);
    assert OutcomeTight(signal, groupOf, worst);
  }

  /** A plan's profit is within what the overround leaves. */
  lemma {:induction false} ProfitWithinParity(c: Chunks, stakes: seq<int>)
    requires Grouped(c) && Admissible(c, stakes) && c.budget <= CENTS_MAX && Profit(c, stakes) > 0
    requires forall j :: 0 <= j < |c.items| ==> BestPrices(c)[c.items[j].group] <= c.items[j].price
    ensures Profit(c, stakes) * BestOverround(c) <= Total(stakes, |c.items|) * (PPM - BestOverround(c))
  {
    var total, profit := Total(stakes, |c.items|), Profit(c, stakes);
    forall g | 0 <= g < c.nGroups
      ensures profit + total <= GroupPayout(c.items, stakes, g, |c.items|)
    {
      ProfitIsCovered(c, stakes, g);
    }
    ProfitBound(c, BestPrices(c), stakes, profit + total);
  }

  /** The allocations of a plan draw on distinct levels, within their sizes, and add up to what
      the plan stakes. */
  lemma {:induction false} AllocationsDraw(
    legs: seq<BookLeg>, groupOf: seq<nat>, c: Chunks, slots: seq<Slot>, stakes: seq<int>)
    requires Prepared(legs, groupOf, c, slots) && Admissible(c, stakes)
    ensures var a, s := Allocations(c.items, stakes, |c.items|), AllocatedSlots(slots, stakes, |slots|);
            && |a| == |s| <= MAX_CHUNKS && Distinct(s)
            && (forall k :: 0 <= k < |a| ==> DrawsOn(legs, s[k], a[k]))
            && AllocatedStake(a, |a|) == Total(stakes, |c.items|)
  {
    FlatteningDistinct(legs, groupOf, c.nGroups, slots);
    AllocationsFaithful(legs, groupOf, c, slots, stakes, |c.items|);
    AllocationsTotal(c.items, stakes, |c.items|);
    AllocatedSlotsDistinct(slots, stakes, |slots|);
  }

  /** Every admissible plan with a positive profit is reported as a sound signal. */
  lemma {:induction false} PlanIsSound(
    legs: seq<BookLeg>, groupOf: seq<nat>, c: Chunks, slots: seq<Slot>, stakes: seq<int>)
    requires Prepared(legs, groupOf, c, slots) && Admissible(c, stakes)
    requires Total(stakes, |c.items|) > 0 && Profit(c, stakes) > 0
    ensures Sound(legs, groupOf, c.nGroups, c.budget,
                  SignalOf(c, BestOverround(c), stakes),
                  AllocatedSlots(slots, stakes, |slots|))
  {
    AllocationsDraw(legs, groupOf, c, slots, stakes);
    OutcomesCovered(c, groupOf, stakes, BestOverround(c));
    BestBelowAll(legs, groupOf, c, slots);
    ProfitWithinParity(c, stakes);
    FloorNonNeg(Profit(c, stakes) * 10_000, Total(stakes, |c.items|));
  }

  /** Chunk `g` is no more expensive than any chunk of outcome `g`. */
  lemma {:induction false} BestBelowAll(legs: seq<BookLeg>, groupOf: seq<nat>, c: Chunks, slots: seq<Slot>)
    requires Prepared(legs, groupOf, c, slots)
    ensures forall j :: 0 <= j < |c.items| ==> BestPrices(c)[c.items[j].group] <= c.items[j].price
  {
    forall j | 0 <= j < |c.items|
      ensures BestPrices(c)[c.items[j].group] <= c.items[j].price
    {
      var g := c.items[j].group;
      assert IsBestSlot(legs, groupOf, g, slots[g]);
      assert Usable(legs, slots[j]) && groupOf[slots[j].0] == g;
    }
  }

  // ---- The planner ----

  /** What the planner did, for the reader of its contract: the chunks it searched over,
      the slots behind them, every plan it weighed, in order, the plan it kept, and the
      payout at which the search ended. */
  datatype Run = Run(
    chunks: Chunks, slots: seq<Slot>, offered: seq<seq<int>>, chosen: seq<int>, low: int)

  /** The first malformed leg: one with levels but no stake increment. */
  ghost predicate FirstMalformed(legs: seq<BookLeg>, i: nat) {
    && i < |legs| && legs[i].nLevels > 0 && legs[i].increment <= 0
    && forall k :: 0 <= k < i ==> !(legs[k].nLevels > 0 && legs[k].increment <= 0)
  }

  ghost predicate WellFormed(legs: seq<BookLeg>) {
    forall k :: 0 <= k < |legs| ==> !(legs[k].nLevels > 0 && legs[k].increment <= 0)
  }

  /** An outcome no usable level backs. */
  ghost predicate Unhedgeable(legs: seq<BookLeg>, groupOf: seq<nat>, group: nat)
    requires |legs| <= |groupOf|
  {
    forall t: Slot :: Usable(legs, t) ==> groupOf[t.0] != group
  }

  /** The best usable price of every outcome, and they sum to parity or more. */
  ghost predicate AtParity(legs: seq<BookLeg>, groupOf: seq<nat>, best: seq<Slot>)
    requires |legs| <= |groupOf|
  {
    && BestSlots(legs, groupOf, best)
    && Overround(SlotPrices(legs, best), |best|) >= PPM
  }

  ghost predicate BestSlots(legs: seq<BookLeg>, groupOf: seq<nat>, best: seq<Slot>)
    requires |legs| <= |groupOf|
    ensures BestSlots(legs, groupOf, best) ==> AllUsable(legs, best)
  {
    forall g :: 0 <= g < |best| ==> IsBestSlot(legs, groupOf, g, best[g])
  }

  predicate AllUsable(legs: seq<BookLeg>, slots: seq<Slot>) {
    forall i :: 0 <= i < |slots| ==> Usable(legs, slots[i])
  }

  /** What is weighed: the seed, when usable, and then what the halvings find. */
  ghost predicate Weighed(c: Chunks, offered: seq<seq<int>>)
    requires c.nGroups <= |c.items| <= MAX_CHUNKS && BestOverround(c) > 0
  {
    if SeedUsable(c, BestOverround(c)) then
      offered != [] && IsSeed(c, BestOverround(c), offered[0]) && offered[1..] == AllProbes(c)
    else offered == AllProbes(c)
  }

  /** The search as it ran: these plans were weighed, in this order, none of them beyond depth
      or budget; the search ended at a payout some weighed plan guarantees; and when the top of
      the range fits money that payout is the greatest whose water plan depth and budget allow,
      and that plan was weighed. */
  ghost predicate Searched(legs: seq<BookLeg>, groupOf: seq<nat>, run: Run) {
    var c := run.chunks;
    && Prepared(legs, groupOf, c, run.slots)
    && var o := BestOverround(c);
       && (forall i :: 0 <= i < |run.offered| ==> |run.offered[i]| == MAX_CHUNKS && Admissible(c, run.offered[i]))
       && Weighed(c, run.offered)
       && (run.low > 0 ==> OfferedPays(c, run.offered, 0, run.low))
       && (Highest(c, c.nGroups) < CENTS_MAX ==>
             && GreatestFeasible(c, run.low)
             && (run.low > 0 ==> OfferedFills(c, run.offered, 0, run.low)))
  }

  /** Plan the stakes of a market whose legs are grouped already. */
  method Plan(legs: seq<BookLeg>, groupOf: seq<nat>, nGroups: nat, budget: int)
    returns (result: Result<Option<Signal>, ArbError>, ghost run: Option<Run>)
    requires |legs| <= MAX_CHUNKS == |groupOf| && 0 < nGroups <= MAX_CHUNKS && budget <= CENTS_MAX
    requires forall i :: 0 <= i < |legs| ==> groupOf[i] < nGroups
    ensures result.Err? <==> !WellFormed(legs)
    ensures result.Err? ==> result.error.ZeroStakeIncrement? && FirstMalformed(legs, result.error.leg)
    ensures result.Ok? && run.None? ==>
              result.value.None?
              && (budget <= 0
                  || (exists g :: 0 <= g < nGroups && Unhedgeable(legs, groupOf, g))
                  || (exists best :: |best| == nGroups && AtParity(legs, groupOf, best)))
    ensures result.Ok? && run.Some? ==>
              && run.value.chunks.budget == budget && run.value.chunks.nGroups == nGroups
              && Searched(legs, groupOf, run.value)
    ensures result.Ok? && run.Some? ==>
              && var Run(c, slots, offered, chosen, low) := run.value;
              && (result.value.None? <==> forall i :: 0 <= i < |offered| ==> Profit(c, offered[i]) <= 0)
              && (result.value.Some? ==>
                    && FirstBest(c, offered, chosen)
                    && Total(chosen, |c.items|) > 0
                    && result.value.value == SignalOf(c, BestOverround(c), chosen)
                    && Sound(legs, groupOf, nGroups, budget, result.value.value,
                             AllocatedSlots(slots, chosen, |slots|)))
  {
    run := None;
    for i := 0 to |legs|
      invariant forall k :: 0 <= k < i ==> !(legs[k].nLevels > 0 && legs[k].increment <= 0)
    {
      if legs[i].nLevels > 0 && legs[i].increment <= 0 {
        return Err(ZeroStakeIncrement(i)), None;
      }
    }
    if budget <= 0 {
      return Ok(None), None;
    }
    var bestSlots, missing := PassOne(legs, groupOf, nGroups);
    if missing.Some? {
      assert Unhedgeable(legs, groupOf, missing.value);
      return Ok(None), None;
    }
    assert BestSlots(legs, groupOf, bestSlots);
    var overround := 0;
    for g := 0 to nGroups
      invariant overround == Overround(SlotPrices(legs, bestSlots), g)
      invariant overround >= g
    {
      overround := overround + SlotPrice(legs, bestSlots[g]);
    }
    if overround >= PPM {
      assert AtParity(legs, groupOf, bestSlots);
      return Ok(None), None;
    }
    var slots := PassTwo(legs, groupOf, bestSlots);
    FlatteningOf(legs, groupOf, bestSlots, slots);
    var c := Chunks(ChunksOf(legs, groupOf, slots), nGroups, budget);
    ChunksPrepared(legs, groupOf, bestSlots, slots, c);
    var signal;
    signal, run := SeekPlan(legs, groupOf, c, slots, overround);
    return Ok(signal), run;
  }

  /** The search, from the seed to the signal. */
  method SeekPlan(
    ghost legs: seq<BookLeg>, ghost groupOf: seq<nat>, c: Chunks, ghost slots: seq<Slot>, overround: int)
    returns (signal: Option<Signal>, ghost run: Option<Run>)
    requires Prepared(legs, groupOf, c, slots) && overround == BestOverround(c)
    ensures run.Some? && run.value.chunks == c && run.value.slots == slots && Searched(legs, groupOf, run.value)
    ensures var Run(_, _, offered, chosen, low) := run.value;
            && (signal.None? <==> forall i :: 0 <= i < |offered| ==> Profit(c, offered[i]) <= 0)
            && (signal.Some? ==>
                  && FirstBest(c, offered, chosen)
                  && Total(chosen, |c.items|) > 0
                  && signal.value == SignalOf(c, overround, chosen)
                  && Sound(legs, groupOf, c.nGroups, c.budget, signal.value, AllocatedSlots(slots, chosen, |slots|)))
  {
    var best := new Best(c);
    OfferSeed(c, overround, best);
    ghost var seeded := best.offered;
    var low := SearchPayout(c, best);
    SearchedSoFar(legs, groupOf, c, slots, seeded, best.offered, best.stakes, low);
    run := Some(Run(c, slots, best.offered, best.stakes, low));
    if !best.found || best.profit <= 0 {
      return None, run;
    }
    var found := Announce(legs, groupOf, c, slots, overround, best);
    return Some(found), run;
  }

  /** Weigh the seed first, if there is one. */
  method OfferSeed(c: Chunks, overround: int, best: Best)
    requires Grouped(c) && |c.items| <= MAX_CHUNKS && 0 < c.budget && 0 < overround < PPM
    requires overround == BestOverround(c) && best.Valid(c) && best.offered == []
    modifies best
    ensures best.Valid(c)
    ensures if SeedUsable(c, overround) then |best.offered| == 1 && IsSeed(c, overround, best.offered[0])
            else best.offered == []
  {
    var seed := Seed(c, overround);
    if seed.Some? {
      SeedAdmissible(c, overround, seed.value);
      best.Offer(c, seed.value);
    }
  }

  /** Report the plan kept. */
  method Announce(
    ghost legs: seq<BookLeg>, ghost groupOf: seq<nat>, c: Chunks, ghost slots: seq<Slot>, overround: int, best: Best)
    returns (signal: Signal)
    requires Prepared(legs, groupOf, c, slots) && overround == BestOverround(c)
    requires best.Valid(c) && best.found && best.profit > 0
    ensures Total(best.stakes, |c.items|) > 0 && signal == SignalOf(c, overround, best.stakes)
    ensures Sound(legs, groupOf, c.nGroups, c.budget, signal, AllocatedSlots(slots, best.stakes, |slots|))
  {
    PlanIsSound(legs, groupOf, c, slots, best.stakes);
    var allocations := Report(c.items, best.stakes);
    return Signal(allocations, overround, best.total, best.profit,
                  Max(0, Min(best.profit * 10_000 / best.total, 0xffff_ffff)));
  }

  /** List the staked chunks. */
  method Report(items: seq<Chunk>, stakes: seq<int>) returns (allocations: seq<Allocation>)
    requires |items| <= |stakes|
    ensures allocations == Allocations(items, stakes, |items|)
  {
    allocations := [];
    for j := 0 to |items|
      invariant allocations == Allocations(items, stakes, j)
    {
      if stakes[j] > 0 {
        allocations := allocations + [Allocation(items[j].leg, stakes[j], Payout(items[j].price, stakes[j]))];
      }
    }
  }

  /** The effective prices of some slots. */
  function SlotPrices(legs: seq<BookLeg>, slots: seq<Slot>): (prices: seq<Prob>)
    requires AllUsable(legs, slots)
    ensures |prices| == |slots| && forall i :: 0 <= i < |slots| ==> prices[i] == SlotPrice(legs, slots[i])
  {
    seq(|slots|, i requires 0 <= i < |slots| => SlotPrice(legs, slots[i]))
  }

  /** At parity nothing is lost by stopping: no non-negative stakes over any usable
      levels of the legs, however many and however often repeated, make a profit. */
  lemma {:induction false} NothingProfitsAtParity(
    legs: seq<BookLeg>, groupOf: seq<nat>, best: seq<Slot>, slots: seq<Slot>, stakes: seq<int>, budget: int)
    requires |legs| <= |groupOf| && |best| > 0 && AtParity(legs, groupOf, best)
    requires forall i :: 0 <= i < |legs| ==> groupOf[i] < |best|
    requires AllUsable(legs, slots) && |slots| <= |stakes| && forall j :: 0 <= j < |slots| ==> stakes[j] >= 0
    ensures Profit(Chunks(ChunksOf(legs, groupOf, slots), |best|, budget), stakes) <= 0
  {
    var c := Chunks(ChunksOf(legs, groupOf, slots), |best|, budget);
    var prices := SlotPrices(legs, best);
    forall j | 0 <= j < |slots|
      ensures c.items[j].group < |best| && prices[c.items[j].group] <= c.items[j].price
    {
      assert Usable(legs, slots[j]);
      assert IsBestSlot(legs, groupOf, groupOf[slots[j].0], best[groupOf[slots[j].0]]);
    }
    ParityExit(c, prices, stakes);
  }

  lemma {:induction false} FlatteningOf(legs: seq<BookLeg>, groupOf: seq<nat>, best: seq<Slot>, slots: seq<Slot>)
    requires |legs| <= |groupOf| && |best| <= MAX_CHUNKS
    requires forall g :: 0 <= g < |best| ==> IsBestSlot(legs, groupOf, g, best[g])
    requires slots == best + Take(Rest(legs, SlotSet(best), |legs|), MAX_CHUNKS - |best|)
    ensures IsFlattening(legs, groupOf, |best|, slots)
    ensures |slots| <= MAX_CHUNKS && forall k :: 0 <= k < |slots| ==> Usable(legs, slots[k])
    ensures forall g :: 0 <= g < |best| ==> slots[g] == best[g]
  {
    assert slots[..|best|] == best;
    assert slots[|best|..] == Take(Rest(legs, SlotSet(best), |legs|), MAX_CHUNKS - |best|);
    forall g | 0 <= g < |best|
      ensures IsBestSlot(legs, groupOf, g, slots[g])
    {
      assert slots[g] == best[g];
    }
    FlatteningDistinct(legs, groupOf, |best|, slots);
  }

  lemma {:induction false} ChunksPrepared(
    legs: seq<BookLeg>, groupOf: seq<nat>, best: seq<Slot>, slots: seq<Slot>, c: Chunks)
    requires |legs| <= |groupOf| && 0 < |best| <= MAX_CHUNKS
    requires forall i :: 0 <= i < |legs| ==> groupOf[i] < |best|
    requires BestSlots(legs, groupOf, best)
    requires IsFlattening(legs, groupOf, |best|, slots)
    requires forall g :: 0 <= g < |best| ==> slots[g] == best[g]
    requires |slots| <= MAX_CHUNKS && forall k :: 0 <= k < |slots| ==> Usable(legs, slots[k])
    requires c.items == ChunksOf(legs, groupOf, slots) && c.nGroups == |best| && 0 < c.budget <= CENTS_MAX
    requires 0 < Overround(SlotPrices(legs, best), |best|) < PPM
    ensures Prepared(legs, groupOf, c, slots)
    ensures BestPrices(c) == SlotPrices(legs, best)
  {
    var prices := SlotPrices(legs, best);
    forall k | 0 <= k < |slots|
      ensures c.items[k] == ChunkOf(legs, groupOf, slots[k]) && c.items[k].group < c.nGroups
      ensures k < |best| ==> c.items[k].group == k && c.items[k].price == prices[k]
    {
      assert k < |best| ==> IsBestSlot(legs, groupOf, k, slots[k]);
    }
    assert BestPrices(c) == prices;
    assert BestOverround(c) == Overround(prices, |best|);
  }

  lemma {:induction false} SearchedSoFar(
    legs: seq<BookLeg>, groupOf: seq<nat>, c: Chunks, slots: seq<Slot>,
    seeded: seq<seq<int>>, offered: seq<seq<int>>, chosen: seq<int>, low: int)
    requires Prepared(legs, groupOf, c, slots) && seeded <= offered
    requires forall i :: 0 <= i < |offered| ==> |offered[i]| == MAX_CHUNKS && Admissible(c, offered[i])
    requires if SeedUsable(c, BestOverround(c)) then |seeded| == 1 && IsSeed(c, BestOverround(c), seeded[0])
             else seeded == []
    requires offered == seeded + AllProbes(c)
    requires low > 0 ==> OfferedPays(c, offered, |seeded|, low)
    requires Highest(c, c.nGroups) < CENTS_MAX ==> GreatestFeasible(c, low)
    requires Highest(c, c.nGroups) < CENTS_MAX && low > 0 ==> OfferedFills(c, offered, |seeded|, low)
    ensures Searched(legs, groupOf, Run(c, slots, offered, chosen, low))
  {
    if low > 0 {
      var k :| |seeded| <= k < |offered| && PlanPays(c, offered[k], low);
      assert OfferedPays(c, offered, 0, low);
      if Highest(c, c.nGroups) < CENTS_MAX {
        var k' :| |seeded| <= k' < |offered| && WaterPlan(c, low, offered[k']);
        assert OfferedFills(c, offered, 0, low);
      }
    }
  }

  /** The kept plan never earns less than the seed, and is the seed unless it earns more. */
  lemma {:induction false} SeedNeverLoses(legs: seq<BookLeg>, groupOf: seq<nat>, run: Run, seed: seq<int>)
    requires Searched(legs, groupOf, run) && FirstBest(run.chunks, run.offered, run.chosen)
    requires IsSeed(run.chunks, BestOverround(run.chunks), seed)
    ensures Profit(run.chunks, seed) <= Profit(run.chunks, run.chosen)
    ensures run.chosen == seed || Profit(run.chunks, seed) < Profit(run.chunks, run.chosen)
  {
    var w :| IsFirstBest(run.chunks, run.offered, run.chosen, w);
    SeedUnique(run.chunks, BestOverround(run.chunks), seed, run.offered[0]);
  }

  lemma {:induction false} SeedUnique(c: Chunks, overround: int, a: seq<int>, b: seq<int>)
    requires c.nGroups <= |c.items| <= MAX_CHUNKS && overround > 0
    requires IsSeed(c, overround, a) && IsSeed(c, overround, b)
    ensures a == b
  {
    forall j | 0 <= j < MAX_CHUNKS
      ensures a[j] == b[j]
    {
    }
  }

  /** The kept plan earns at least what the water plan of the greatest feasible payout
      earns, whenever payouts fit money. */
  lemma {:induction false} BestFeasibleNeverLoses(legs: seq<BookLeg>, groupOf: seq<nat>, run: Run, plan: seq<int>)
    requires Searched(legs, groupOf, run) && FirstBest(run.chunks, run.offered, run.chosen)
    requires Highest(run.chunks, run.chunks.nGroups) < CENTS_MAX
    requires run.low > 0 && WaterPlan(run.chunks, run.low, plan)
    ensures GreatestFeasible(run.chunks, run.low)
    ensures Profit(run.chunks, plan) <= Profit(run.chunks, run.chosen)
    ensures run.low - Total(plan, |run.chunks.items|) <= Profit(run.chunks, run.chosen)
  {
    var c := run.chunks;
    var w :| IsFirstBest(c, run.offered, run.chosen, w);
    var k :| 0 <= k < |run.offered| && WaterPlan(c, run.low, run.offered[k]);
    AboveHighest(c, run.low);
    PlanAtTarget(c, run.low, plan, run.offered[k]);
    assert Profit(c, run.offered[k]) <= Profit(c, run.chosen);
  }

  lemma {:induction false} PlanAtTarget(c: Chunks, target: int, plan: seq<int>, weighed: seq<int>)
    requires Grouped(c) && 0 < target <= CENTS_MAX && c.budget <= CENTS_MAX
    requires WaterPlan(c, target, plan) && WaterPlan(c, target, weighed) && Admissible(c, weighed)
    ensures Profit(c, plan) == Profit(c, weighed)
    ensures target - Total(plan, |c.items|) <= Profit(c, plan)
  {
    WaterPlanUnique(c, target, plan, weighed);
    ProfitLocal(c, plan, weighed);
    WaterPlanGuarantees(c, target, weighed);
    ProfitExact(c, weighed);
  }

  lemma {:induction false} AboveHighest(c: Chunks, low: int)
    requires Grouped(c) && 0 < c.budget && Highest(c, c.nGroups) < CENTS_MAX
    requires low > 0 && FeasibleTarget(c, low)
    ensures low <= Highest(c, c.nGroups)
  {
    if low > Highest(c, c.nGroups) {
      AboveHighestInfeasible(c, low);
    }
  }

  /** A plan's profit only depends on the stakes of real chunks. */
  lemma {:induction false} ProfitLocal(c: Chunks, a: seq<int>, b: seq<int>)
    requires |c.items| <= |a| && |c.items| <= |b| && a[..|c.items|] == b[..|c.items|]
    ensures Profit(c, a) == Profit(c, b)
  {
    TotalLocal(a, b, |c.items|);
    WorstLocal(c, a, b, c.nGroups);
  }

  lemma {:induction false} WorstLocal(c: Chunks, a: seq<int>, b: seq<int>, k: nat)
    requires |c.items| <= |a| && |c.items| <= |b| && a[..|c.items|] == b[..|c.items|]
    ensures Worst(c, a, k) == Worst(c, b, k)
  {
    if k > 0 {
      WorstLocal(c, a, b, k - 1);
      forall j | 0 <= j < |c.items|
        ensures a[j] == b[j]
      {
        assert a[j] == a[..|c.items|][j] == b[..|c.items|][j];
      }
      GroupPayoutLocal(c.items, a, b, k - 1, |c.items|);
    }
  }

  // ---- Grouping legs by outcome ----

  /** The distinct outcomes of the first `n` legs, in order of first appearance. */
  function Outcomes(legs: seq<BookLeg>, n: nat): (o: seq<nat>)
    requires n <= |legs|
    ensures |o| <= n
  {
    if n == 0 then []
    else
      var o := Outcomes(legs, n - 1);
      if legs[n - 1].outcome in o then o else o + [legs[n - 1].outcome]
  }

  lemma {:induction false} OutcomesDistinct(legs: seq<BookLeg>, n: nat, a: nat, b: nat)
    requires n <= |legs| && a < b < |Outcomes(legs, n)|
    ensures Outcomes(legs, n)[a] != Outcomes(legs, n)[b]
  {
    var o := Outcomes(legs, n - 1);
    if b < |o| {
      OutcomesDistinct(legs, n - 1, a, b);
    } else {
      assert o[a] in o;
    }
  }

  /** Each leg's group is the position of its outcome among the distinct ones. */
  ghost predicate GroupsOutcomes(legs: seq<BookLeg>, groupOf: seq<nat>, n: nat, outcomes: seq<nat>) {
    && n <= |legs| && |legs| <= |groupOf|
    && forall i :: 0 <= i < n ==> groupOf[i] < |outcomes| && outcomes[groupOf[i]] == legs[i].outcome
  }

  /** Legs share a group exactly when they share an outcome. */
  lemma {:induction false} GroupsAreOutcomes(legs: seq<BookLeg>, groupOf: seq<nat>, i: nat, k: nat)
    requires GroupsOutcomes(legs, groupOf, |legs|, Outcomes(legs, |legs|)) && i < |legs| && k < |legs|
    ensures groupOf[i] == groupOf[k] <==> legs[i].outcome == legs[k].outcome
  {
    var n := |legs|;
    if groupOf[i] < groupOf[k] {
      OutcomesDistinct(legs, n, groupOf[i], groupOf[k]);
    } else if groupOf[k] < groupOf[i] {
      OutcomesDistinct(legs, n, groupOf[k], groupOf[i]);
    }
  }

  method FindOutcome(outcomes: seq<nat>, outcome: nat) returns (found: Option<nat>)
    ensures found.Some? ==> found.value < |outcomes| && outcomes[found.value] == outcome
    ensures found.None? ==> outcome !in outcomes
  {
    for g := 0 to |outcomes|
      invariant forall h :: 0 <= h < g ==> outcomes[h] != outcome
    {
      if outcomes[g] == outcome {
        return Some(g);
      }
    }
    return None;
  }

  /** Number the outcomes as they first appear, and give every leg the number of its own. */
  method GroupByOutcome(legs: seq<BookLeg>) returns (groupOf: array<nat>, outcomes: seq<nat>)
    requires |legs| <= MAX_CHUNKS
    ensures fresh(groupOf) && groupOf.Length == MAX_CHUNKS
    ensures outcomes == Outcomes(legs, |legs|)
    ensures GroupsOutcomes(legs, groupOf[..], |legs|, outcomes)
  {
    groupOf := new nat[MAX_CHUNKS](_ => 0);
    outcomes := [];
    for i := 0 to |legs|
      invariant outcomes == Outcomes(legs, i)
      invariant GroupsOutcomes(legs, groupOf[..], i, outcomes)
    {
      ghost var before := outcomes;
      var found := FindOutcome(outcomes, legs[i].outcome);
      if found.Some? {
        groupOf[i] := found.value;
      } else {
        outcomes := outcomes + [legs[i].outcome];
        groupOf[i] := |outcomes| - 1;
      }
    }
  }

  /** What a detection over `legs` established. Malformed input is reported; nothing is
      returned when an outcome has no usable level, when the best prices reach parity, or when
      no plan weighed makes a profit; and a signal is sound and is the first most profitable of
      the plans weighed. */
  ghost predicate IsDetection(
    legs: seq<BookLeg>, budget: int, result: Result<Option<Signal>, ArbError>, groupOf: seq<nat>, run: Option<Run>)
  {
    var n := |Outcomes(legs, |legs|)|;
    if |legs| < 2 || |legs| > MAX_CHUNKS then result == Err(LegCountOutOfRange(|legs|))
    else if n < 2 then result == Err(LegCountOutOfRange(n))
    else
      && |groupOf| == MAX_CHUNKS && GroupsOutcomes(legs, groupOf, |legs|, Outcomes(legs, |legs|))
      && (result.Err? <==> !WellFormed(legs))
      && (result.Err? ==> result.error.ZeroStakeIncrement? && FirstMalformed(legs, result.error.leg))
      && (result.Ok? && run.None? ==>
            && result.value.None?
            && (budget <= 0
                || (exists g :: 0 <= g < n && Unhedgeable(legs, groupOf, g))
                || (exists best :: |best| == n && AtParity(legs, groupOf, best))))
      && (result.Ok? && run.Some? ==>
            && run.value.chunks.nGroups == n && run.value.chunks.budget == budget
            && Searched(legs, groupOf, run.value)
            && (result.value.None? <==>
                  forall i :: 0 <= i < |run.value.offered| ==> Profit(run.value.chunks, run.value.offered[i]) <= 0))
      && (result.Ok? && result.value.Some? ==>
            && run.Some?
            && FirstBest(run.value.chunks, run.value.offered, run.value.chosen)
            && Total(run.value.chosen, |run.value.chunks.items|) > 0
            && result.value.value == SignalOf(run.value.chunks, BestOverround(run.value.chunks), run.value.chosen)
            && Sound(legs, groupOf, n, budget, result.value.value,
                     AllocatedSlots(run.value.slots, run.value.chosen, |run.value.slots|)))
  }

  /** A consumer may rely on the signal, whatever the planner did to find it. */
  ghost predicate SoundFor(legs: seq<BookLeg>, budget: int, signal: Signal) {
    exists groupOf, slots ::
      && |legs| <= |groupOf|
      && GroupsOutcomes(legs, groupOf, |legs|, Outcomes(legs, |legs|))
      && Sound(legs, groupOf, |Outcomes(legs, |legs|)|, budget, signal, slots)
  }

  /** Detect on the books of one market: group them by outcome and plan. */
  method DetectBook(legs: seq<BookLeg>, budget: int)
    returns (result: Result<Option<Signal>, ArbError>, ghost groupOf: seq<nat>, ghost run: Option<Run>)
    requires budget <= CENTS_MAX
    ensures result.Err? <==>
              !(2 <= |legs| <= MAX_CHUNKS) || |Outcomes(legs, |legs|)| < 2 || !WellFormed(legs)
    ensures result.Ok? && result.value.Some? ==> SoundFor(legs, budget, result.value.value)
    ensures IsDetection(legs, budget, result, groupOf, run)
  {
    groupOf, run := [], None;
    if |legs| < 2 || |legs| > MAX_CHUNKS {
      return Err(LegCountOutOfRange(|legs|)), groupOf, run;
    }
    var groups, outcomes := GroupByOutcome(legs);
    if |outcomes| < 2 {
      return Err(LegCountOutOfRange(|outcomes|)), groupOf, run;
    }
    groupOf := groups[..];
    result, run := Plan(legs, groups[..], |outcomes|, budget);
  }
}
