/** What a guaranteed payout costs: how the water plan compares with the cheapest plan. */
module Cost {
  import opened Arith
  import opened Price
  import opened WaterFill
  import opened Plans
  import opened Parity
  import opened Search

  /** A plan within budget pays no outcome more than the budget buys at the longest price. */
  lemma {:induction false} BudgetCapsPayouts(c: Chunks, stakes: seq<int>, group: nat)
    requires Admissible(c, stakes)
    ensures GroupPayout(c.items, stakes, group, |c.items|) <= c.budget * PPM / Cheapest(c.items, |c.items|)
  {
    var n, cheapest := |c.items|, Cheapest(c.items, |c.items|);
    OutcomeCost(c.items, stakes, group, cheapest, n);
    StakesOnWithinTotal(c.items, stakes, group, n);
    MulLe(StakesOn(c.items, stakes, group, n), c.budget, PPM);
    FloorGe(c.budget * PPM, cheapest, GroupPayout(c.items, stakes, group, n));
  }

  lemma {:induction false} StakesOnWithinTotal(items: seq<Chunk>, stakes: seq<int>, group: nat, n: nat)
    requires n <= |items| && n <= |stakes| && forall j :: 0 <= j < n ==> stakes[j] >= 0
    ensures StakesOn(items, stakes, group, n) <= Total(stakes, n)
  {
    if n > 0 {
      StakesOnWithinTotal(items, stakes, group, n - 1);
    }
  }

  // ---- One chunk an outcome ----

  /** Every outcome is backed by one chunk. */
  ghost predicate Single(c: Chunks) {
    Grouped(c) && |c.items| == c.nGroups
  }

  lemma {:induction false} OnlyMember(c: Chunks, group: nat)
    requires Single(c) && group < c.nGroups
    ensures Members(c.items, group, |c.items|) == [group] && GroupOf(c.items, group) == [c.items[group]]
  {
    OnlyMemberBelow(c, group, |c.items|);
  }

  lemma {:induction false} OnlyMemberBelow(c: Chunks, group: nat, n: nat)
    requires Single(c) && group < c.nGroups && n <= |c.items|
    ensures Members(c.items, group, n) == if group < n then [group] else []
  {
    if n > 0 {
      OnlyMemberBelow(c, group, n - 1);
    }
  }

  /** A chunk that carries a payout alone is asked for the least stake that buys it. */
  lemma {:induction false} NeedIsLeast(ck: Chunk, target: int, stake: int)
    requires target > 0 && stake % ck.increment == 0 && target <= GrossPayout(ck.price, stake)
    ensures Need(ck, target, ck.price) <= stake
  {
    FloorIs(target * ck.price + ck.price - 1, ck.price, target);
    FloorGe(stake * PPM, ck.price, target);
    CeilLe(target * ck.price, PPM, stake);
    MultipleQuotient(stake, ck.increment);
    CeilLe(CeilDiv(target * ck.price, PPM), ck.increment, stake / ck.increment);
    MulLe(CeilDiv(CeilDiv(target * ck.price, PPM), ck.increment), stake / ck.increment, ck.increment);
  }

  lemma {:induction false} AloneStake(c: Chunks, target: int, plan: seq<int>, group: nat)
    requires Single(c) && WaterPlan(c, target, plan) && group < c.nGroups
    ensures plan[group] == StakeAt(c.items[group], target, c.items[group].price)
  {
    OnlyMember(c, group);
    assert GroupFilled(c.items, group, target, plan);
    var g, ms := [c.items[group]], [group];
    var live :| IsLevel(g, live, target) && MatchesLevel(g, ms, live, target, plan);
    assert LivePrice(g, live, 1) == LivePrice(g, live, 0) + if live[0] then g[0].price else 0;
    AllLive(g, live, 1);
  }

  /** With one chunk an outcome, the water plan is the cheapest legal plan that pays the
      target, outcome by outcome. */
  lemma {:induction false} WaterPlanIsCheapest(c: Chunks, target: int, plan: seq<int>, other: seq<int>)
    requires Single(c) && target > 0 && WaterPlan(c, target, plan)
    requires Legal(c.items, other) && PlanPays(c, other, target)
    ensures forall j :: 0 <= j < |c.items| ==> plan[j] <= other[j]
    ensures Total(plan, |c.items|) <= Total(other, |c.items|)
  {
    forall j | 0 <= j < |c.items|
      ensures plan[j] <= other[j]
    {
      AloneStake(c, target, plan, j);
      PaysAlone(c, target, other, j);
      NeedIsLeast(c.items[j], target, other[j]);
    }
    TotalMono(plan, other, |c.items|);
  }

  lemma {:induction false} PaysAlone(c: Chunks, target: int, stakes: seq<int>, group: nat)
    requires Single(c) && target > 0 && group < c.nGroups
    requires Legal(c.items, stakes) && PlanPays(c, stakes, target)
    ensures target <= GrossPayout(c.items[group].price, stakes[group])
  {
    OnlyMember(c, group);
    GroupPayoutByMembers(c.items, stakes, group, |c.items|);
    assert MemberPayout(c.items, stakes, [group], 1)
           == MemberPayout(c.items, stakes, [group], 0) + Payout(c.items[group].price, stakes[group]);
    PayoutBounds(c.items[group].price, stakes[group]);
  }

  /** Then a target is feasible exactly when some plan within depth and budget pays it. */
  lemma {:induction false} FeasibleExactlyWhenPayable(c: Chunks, target: int)
    requires Single(c) && 0 < target <= CENTS_MAX
    ensures FeasibleTarget(c, target) <==> exists plan :: Admissible(c, plan) && PlanPays(c, plan, target)
  {
    if FeasibleTarget(c, target) {
      var plan: seq<int> :| |plan| == |c.items| && WaterPlan(c, target, plan) && Total(plan, |c.items|) <= c.budget;
      WaterPlanGuarantees(c, target, plan);
      assert Admissible(c, plan) && PlanPays(c, plan, target);
    }
    if exists plan :: Admissible(c, plan) && PlanPays(c, plan, target) {
      var other :| Admissible(c, other) && PlanPays(c, other, target);
      forall g | 0 <= g < c.nGroups
        ensures target <= Reach(GroupOf(c.items, g), |GroupOf(c.items, g)|)
      {
        OnlyMember(c, g);
        PaysAlone(c, target, other, g);
        GrossMono(c.items[g].price, other[g], c.items[g].capacity);
        assert Reach([c.items[g]], 1) == Reach([c.items[g]], 0) + FullPayout(c.items[g]);
      }
      DepthDecides(c, target);
      var plan: seq<int> :| |plan| == |c.items| && WaterPlan(c, target, plan);
      WaterPlanIsCheapest(c, target, plan, other);
    }
  }

  // ---- Several chunks an outcome ----

  const LONG: Chunk := ChunkData(0, 0, 300_000, 1, 1000, 1000)
  const OPPOSITE: Chunk := ChunkData(1, 1, 100_000, 1, 1000, 1000)
  const SHORT: Chunk := ChunkData(2, 0, 600_000, 1, 1000, 1000)
  const SPLIT := Chunks([LONG, OPPOSITE, SHORT], 2, 50)

  /** With two chunks on an outcome the water plan need not be the cheapest, and the search
      can pass over a target the budget affords: filling both chunks of the first outcome to
      100 costs 62 in all, while a plan of 40 pays every outcome 100. */
  lemma {:induction false} WaterCanBeDearer()
    ensures WaterPlan(SPLIT, 100, [11, 10, 41]) && Total([11, 10, 41], 3) == 62 > SPLIT.budget
    ensures Grouped(SPLIT) && !FeasibleTarget(SPLIT, 100)
    ensures Admissible(SPLIT, [30, 10, 0]) && Total([30, 10, 0], 3) == 40
    ensures PlanPays(SPLIT, [30, 10, 0], 100)
  {
    var water := [11, 10, 41];
    FillsBoth();
    FillsOpposite();
    forall group | 0 <= group < SPLIT.nGroups
      ensures GroupFilled(SPLIT.items, group, 100, water)
    {
      assert group == 0 || group == 1;
    }
    assert Total(water, 1) == 11 && Total(water, 2) == 21 && Total(water, 3) == 62;
    FeasibleMeansAffordable(SPLIT, 100, water);
    CheapPays();
  }

  lemma {:induction false} CheapPays()
    ensures Admissible(SPLIT, [30, 10, 0]) && Total([30, 10, 0], 3) == 40
    ensures PlanPays(SPLIT, [30, 10, 0], 100)
  {
    var items, cheap := SPLIT.items, [30, 10, 0];
    assert Total(cheap, 1) == 30 && Total(cheap, 2) == 40 && Total(cheap, 3) == 40;
    assert Payout(300_000, 30) == 100 && Payout(100_000, 10) == 100;
    assert items[0] == LONG && items[1] == OPPOSITE && items[2] == SHORT;
    assert GroupPayout(items, cheap, 0, 0) == GroupPayout(items, cheap, 1, 0) == 0;
    assert GroupPayout(items, cheap, 0, 1) == 100;
    assert GroupPayout(items, cheap, 0, 2) == GroupPayout(items, cheap, 0, 1);
    assert GroupPayout(items, cheap, 1, 1) == 0;
    assert GroupPayout(items, cheap, 1, 2) == GroupPayout(items, cheap, 1, 1) + Payout(items[1].price, cheap[1]);
    assert Payout(600_000, 0) == 0;
  }

  lemma {:induction false} FillsBoth()
    ensures GroupFilled(SPLIT.items, 0, 100, [11, 10, 41])
  {
    var items, g, live := SPLIT.items, [LONG, SHORT], [true, true];
    assert Members(items, 0, 1) == [0] && Members(items, 0, 2) == [0] && Members(items, 0, 3) == [0, 2];
    assert GroupOf(items, 0) == g;
    BothLive();
    assert MatchesLevel(g, [0, 2], live, 100, [11, 10, 41]);
  }

  /** Both chunks are live at 100, and these are their stakes. */
  lemma {:induction false} BothLive()
    ensures var g, live := [LONG, SHORT], [true, true];
            && IsLevel(g, live, 100) && Remaining(g, live, 100) == 100 && LivePrice(g, live, 2) == 900_000
    ensures StakeAt(LONG, 100, 900_000) == 11 && StakeAt(SHORT, 100, 900_000) == 41
  {
    var g, live := [LONG, SHORT], [true, true];
    assert LivePrice(g, live, 1) == LivePrice(g, live, 0) + g[0].price;
    assert LivePrice(g, live, 2) == LivePrice(g, live, 1) + g[1].price;
    AllLive(g, live, 2);
    assert Share(LONG, 100, 900_000) == 34 && Share(SHORT, 100, 900_000) == 67;
    FloorIs(LONG.capacity * PPM, LONG.price, 3333);
    FloorIs(SHORT.capacity * PPM, SHORT.price, 1666);
  }

  lemma {:induction false} FillsOpposite()
    ensures GroupFilled(SPLIT.items, 1, 100, [11, 10, 41])
  {
    var items, g, live := SPLIT.items, [OPPOSITE], [true];
    assert Members(items, 1, 1) == [] && Members(items, 1, 2) == [1] && Members(items, 1, 3) == [1];
    assert GroupOf(items, 1) == g;
    OppositeLive();
    assert MatchesLevel(g, [1], live, 100, [11, 10, 41]);
  }

  lemma {:induction false} OppositeLive()
    ensures var g, live := [OPPOSITE], [true];
            && IsLevel(g, live, 100) && Remaining(g, live, 100) == 100 && LivePrice(g, live, 1) == 100_000
    ensures StakeAt(OPPOSITE, 100, 100_000) == 10
  {
    var g, live := [OPPOSITE], [true];
    assert LivePrice(g, live, 1) == LivePrice(g, live, 0) + g[0].price;
    AllLive(g, live, 1);
    assert Share(OPPOSITE, 100, 100_000) == 100;
    FloorIs(OPPOSITE.capacity * PPM, OPPOSITE.price, 10_000);
  }
}
