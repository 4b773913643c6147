/** The search for the best plan: an incumbent that only more guaranteed profit can
    replace, and a binary search on the guaranteed payout. */
module Search {
  import opened Arith
  import opened Price
  import opened WaterFill
  import opened Plans
  import opened Quotes
  import opened Rounds
  import opened Sizing

  /** Total stake and worst outcome payout of a complete plan. */
  method Evaluate(c: Chunks, stakes: seq<int>) returns (total: int, worst: int)
    requires Grouped(c) && |c.items| <= |stakes|
    ensures total == Total(stakes, |c.items|)
    ensures worst == Worst(c, stakes, c.nGroups)
  {
    var groupPayout := new int[c.nGroups](_ => 0);
    total := 0;
    for j := 0 to |c.items|
      invariant total == Total(stakes, j)
      invariant forall g :: 0 <= g < c.nGroups ==> groupPayout[g] == GroupPayout(c.items, stakes, g, j)
    {
      total := total + stakes[j];
      var g := c.items[j].group;
      groupPayout[g] := groupPayout[g] + Payout(c.items[j].price, stakes[j]);
    }
    worst := I128_MAX;
    for g := 0 to c.nGroups
      invariant worst == Worst(c, stakes, g)
    {
      worst := Min(worst, ToCents(groupPayout[g]));
    }
  }

  /** A target's plan pays every outcome the target, within budget. */
  ghost predicate Succeeds(c: Chunks, target: int, stakes: seq<int>) {
    && IsPlanFor(c, target, stakes) && PlanPays(c, stakes, target)
    && Total(stakes, |c.items|) <= c.budget
  }

  /** What probing a target finds, for any target whatever. */
  ghost function ProbeOf(c: Chunks, target: int): Option<seq<int>> {
    if exists stakes :: Succeeds(c, target, stakes) then
      var stakes :| Succeeds(c, target, stakes);
      Some(stakes)
    else None
  }

  lemma {:induction false} ProbeFinds(c: Chunks, target: int, stakes: seq<int>)
    requires Grouped(c) && Succeeds(c, target, stakes)
    ensures ProbeOf(c, target) == Some(stakes)
  {
    PlanForUnique(c, target, stakes, ProbeOf(c, target).value);
  }

  /** An outcome its plan does not pay, or a plan beyond the budget, fails the probe. */
  lemma {:induction false} ProbeFails(c: Chunks, target: int, stakes: seq<int>, group: nat)
    requires Grouped(c) && |c.items| <= |stakes| && group < c.nGroups
    requires GroupPlanned(c.items, target, stakes, group)
    requires GroupPayout(c.items, stakes, group, |c.items|) < target
    ensures ProbeOf(c, target) == None
  {
    if exists other :: Succeeds(c, target, other) {
      var other :| Succeeds(c, target, other);
      PlannedPayout(c.items, target, stakes, other, group);
    }
  }

  lemma {:induction false} PlannedPayout(items: seq<Chunk>, target: int, a: seq<int>, b: seq<int>, group: nat)
    requires |items| <= |a| && |items| <= |b|
    requires GroupPlanned(items, target, a, group) && GroupPlanned(items, target, b, group)
    ensures GroupPayout(items, a, group, |items|) == GroupPayout(items, b, group, |items|)
  {
    var ms := Members(items, group, |items|);
    MembersAscend(items, group, |items|);
    forall j | 0 <= j < |items| && items[j].group == group
      ensures a[j] == b[j]
    {
      var k :| 0 <= k < |ms| && ms[k] == j;
      assert MemberStakes(ms, a)[k] == MemberStakes(ms, b)[k];
    }
    GroupPayoutLocal(items, a, b, group, |items|);
  }

  lemma {:induction false} ProbeTooDear(c: Chunks, target: int, stakes: seq<int>)
    requires Grouped(c) && IsPlanFor(c, target, stakes) && Total(stakes, |c.items|) > c.budget
    ensures ProbeOf(c, target) == None
  {
    if exists other :: Succeeds(c, target, other) {
      var other :| Succeeds(c, target, other);
      PlanForUnique(c, target, stakes, other);
    }
  }

  /** The water plan of `target`, if depth and budget allow it. Whatever the target, a
      plan that is returned is admissible and pays every outcome at least the target;
      for targets money can express, it is returned exactly when the target is feasible. */
  method Feasible(c: Chunks, target: int) returns (result: Option<seq<int>>)
    requires Grouped(c) && |c.items| <= MAX_CHUNKS && target > 0
    ensures result.Some? ==> |result.value| == MAX_CHUNKS && Admissible(c, result.value)
    ensures result.Some? ==> forall j :: |c.items| <= j < MAX_CHUNKS ==> result.value[j] == 0
    ensures result.Some? ==> forall g :: 0 <= g < c.nGroups ==>
                                           target <= GroupPayout(c.items, result.value, g, |c.items|)
    ensures target <= CENTS_MAX ==> (result.Some? <==> FeasibleTarget(c, target))
    ensures target <= CENTS_MAX && result.Some? ==> WaterPlan(c, target, result.value)
    ensures result == ProbeOf(c, target)
  {
    var stakes := new int[MAX_CHUNKS](_ => 0);
    for group := 0 to c.nGroups
      invariant SizedUpTo(c, group, target, stakes[..])
    {
      ghost var before := stakes[..];
      var paid := Distribute(c.items, group, target, stakes);
      if paid.None? {
        UnpaidGroup(c, target, before, stakes[..], group);
        return None;
      }
      SizedOneMore(c, group, target, before, stakes[..], paid.value);
    }
    var total := SumStakes(stakes, |c.items|);
    SizedPlan(c, target, stakes[..]);
    return if total > c.budget then None else Some(stakes[..]);
  }

  lemma {:induction false} SizedOneMore(
    c: Chunks, group: nat, target: int, before: seq<int>, stakes: seq<int>, paid: int)
    requires |before| == |stakes| && SizedUpTo(c, group, target, before) && target > 0
    requires Sizes(c.items, group, target, before, stakes, Some(paid))
    ensures SizedUpTo(c, group + 1, target, stakes)
  {
    OtherGroupsKept(c, group, target, before, stakes);
    forall j | 0 <= j < |c.items|
      ensures 0 <= stakes[j] <= c.items[j].capacity && stakes[j] % c.items[j].increment == 0
    {
      assert c.items[j].group != group ==> stakes[j] == before[j];
    }
  }

  /** With every group sized, the budget alone decides. */
  lemma {:induction false} SizedPlan(c: Chunks, target: int, stakes: seq<int>)
    requires Grouped(c) && |c.items| <= MAX_CHUNKS == |stakes| && SizedUpTo(c, c.nGroups, target, stakes)
    ensures Legal(c.items, stakes) && forall j :: |c.items| <= j < MAX_CHUNKS ==> stakes[j] == 0
    ensures ProbeOf(c, target) == if Total(stakes, |c.items|) > c.budget then None else Some(stakes)
    ensures target <= CENTS_MAX ==>
              WaterPlan(c, target, stakes) && (FeasibleTarget(c, target) <==> Total(stakes, |c.items|) <= c.budget)
  {
    if target <= CENTS_MAX {
      FeasibleMeansAffordable(c, target, stakes);
    }
    if Total(stakes, |c.items|) > c.budget {
      ProbeTooDear(c, target, stakes);
    } else {
      ProbeFinds(c, target, stakes);
    }
  }

  /** A group that depth cannot pay fails the whole target. */
  lemma {:induction false} UnpaidGroup(c: Chunks, target: int, before: seq<int>, stakes: seq<int>, group: nat)
    requires Grouped(c) && group < c.nGroups && target > 0 && |c.items| <= |before| == |stakes|
    requires Sizes(c.items, group, target, before, stakes, None)
    ensures ProbeOf(c, target) == None && (target <= CENTS_MAX ==> !FeasibleTarget(c, target))
  {
    ProbeFails(c, target, stakes, group);
    if target <= CENTS_MAX {
      DepthDecides(c, target);
    }
  }

  /** The first groups are sized, legally and to the target; the others are untouched. */
  ghost predicate SizedUpTo(c: Chunks, group: nat, target: int, stakes: seq<int>) {
    && |c.items| <= |stakes|
    && (forall j :: 0 <= j < |stakes| && (j >= |c.items| || c.items[j].group >= group) ==> stakes[j] == 0)
    && (forall j :: 0 <= j < |c.items| ==>
                      0 <= stakes[j] <= c.items[j].capacity && stakes[j] % c.items[j].increment == 0)
    && (forall g :: 0 <= g < group ==> target <= GroupPayout(c.items, stakes, g, |c.items|))
    && (forall g :: 0 <= g < group ==> GroupPlanned(c.items, target, stakes, g))
    && (target <= CENTS_MAX ==> forall g :: 0 <= g < group ==> GroupFilled(c.items, g, target, stakes))
  }

  method SumStakes(stakes: array<int>, n: nat) returns (total: int)
    requires n <= stakes.Length
    ensures total == Total(stakes[..], n)
  {
    total := 0;
    for j := 0 to n
      invariant total == Total(stakes[..], j)
    {
      total := total + stakes[j];
    }
  }

  lemma {:induction false} OtherGroupsKept(c: Chunks, group: nat, target: int, before: seq<int>, stakes: seq<int>)
    requires |c.items| <= |before| && |c.items| <= |stakes|
    requires forall j :: 0 <= j < |c.items| && c.items[j].group != group ==> stakes[j] == before[j]
    ensures forall g: nat :: g != group ==>
                               GroupPayout(c.items, stakes, g, |c.items|) == GroupPayout(c.items, before, g, |c.items|)
    ensures forall g: nat :: g != group && GroupFilled(c.items, g, target, before) ==>
                               GroupFilled(c.items, g, target, stakes)
    ensures forall g: nat :: g != group && GroupPlanned(c.items, target, before, g) ==>
                               GroupPlanned(c.items, target, stakes, g)
  {
    forall g: nat | g != group
      ensures GroupPayout(c.items, stakes, g, |c.items|) == GroupPayout(c.items, before, g, |c.items|)
      ensures GroupFilled(c.items, g, target, before) ==> GroupFilled(c.items, g, target, stakes)
      ensures GroupPlanned(c.items, target, before, g) ==> GroupPlanned(c.items, target, stakes, g)
    {
      var ms := Members(c.items, g, |c.items|);
      assert MemberStakes(ms, stakes) == MemberStakes(ms, before);
      GroupPayoutLocal(c.items, before, stakes, g, |c.items|);
      if GroupFilled(c.items, g, target, before) {
        OtherGroupKept(c.items, g, target, before, stakes);
      }
    }
  }

  lemma {:induction false} GroupPayoutLocal(items: seq<Chunk>, stakes: seq<int>, stakes': seq<int>, group: nat, n: nat)
    requires n <= |items| && n <= |stakes| && n <= |stakes'|
    requires forall j :: 0 <= j < n && items[j].group == group ==> stakes[j] == stakes'[j]
    ensures GroupPayout(items, stakes, group, n) == GroupPayout(items, stakes', group, n)
  {
    if n > 0 {
      GroupPayoutLocal(items, stakes, stakes', group, n - 1);
    }
  }

  lemma {:induction false} TotalLocal(stakes: seq<int>, stakes': seq<int>, n: nat)
    requires n <= |stakes| && n <= |stakes'| && stakes[..n] == stakes'[..n]
    ensures Total(stakes, n) == Total(stakes', n)
  {
    if n > 0 {
      assert stakes[..n - 1] == stakes[..n][..n - 1] == stakes'[..n - 1];
      assert stakes[n - 1] == stakes[..n][n - 1] == stakes'[n - 1];
      TotalLocal(stakes, stakes', n - 1);
    }
  }

  /** A water plan is affordable exactly when its target is feasible. */
  lemma {:induction false} FeasibleMeansAffordable(c: Chunks, target: int, stakes: seq<int>)
    requires Grouped(c) && WaterPlan(c, target, stakes)
    ensures FeasibleTarget(c, target) <==> Total(stakes, |c.items|) <= c.budget
  {
    var short := stakes[..|c.items|];
    forall g | 0 <= g < c.nGroups
      ensures GroupFilled(c.items, g, target, short)
    {
      OtherGroupKept(c.items, g, target, stakes, short);
    }
    TotalLocal(stakes, short, |c.items|);
    if FeasibleTarget(c, target) {
      var st: seq<int> :| |st| == |c.items| && WaterPlan(c, target, st) && Total(st, |c.items|) <= c.budget;
      WaterPlanUnique(c, target, stakes, st);
    }
  }

  /** The incumbent beats every plan offered: the earliest of the most profitable. */
  ghost predicate FirstBest(c: Chunks, offered: seq<seq<int>>, stakes: seq<int>) {
    exists w :: IsFirstBest(c, offered, stakes, w)
  }

  ghost predicate IsFirstBest(c: Chunks, offered: seq<seq<int>>, stakes: seq<int>, w: nat) {
    && w < |offered| && offered[w] == stakes
    && (forall i :: 0 <= i < |offered| ==> |c.items| <= |offered[i]|)
    && (forall i :: 0 <= i < |offered| ==> Profit(c, offered[i]) <= Profit(c, stakes))
    && (forall i :: 0 <= i < w ==> Profit(c, offered[i]) < Profit(c, stakes))
  }

  /** One more plan replaces the incumbent exactly when it earns strictly more. */
  lemma {:induction false} OneMoreOffer(c: Chunks, offered: seq<seq<int>>, stakes: seq<int>, candidate: seq<int>)
    requires |c.items| <= |candidate| && (offered != [] ==> FirstBest(c, offered, stakes))
    ensures offered == [] ==> FirstBest(c, offered + [candidate], candidate)
    ensures offered != [] ==>
              |c.items| <= |stakes|
              && FirstBest(
                   c, offered + [candidate], if Profit(c, candidate) > Profit(c, stakes) then candidate else stakes)
  {
    var all := offered + [candidate];
    if offered == [] {
      assert IsFirstBest(c, all, candidate, 0);
    } else {
      var w :| IsFirstBest(c, offered, stakes, w);
      if Profit(c, candidate) > Profit(c, stakes) {
        assert IsFirstBest(c, all, candidate, |offered|);
      } else {
        assert IsFirstBest(c, all, stakes, w);
      }
    }
  }

  /** The incumbent, and every plan it was chosen from. */
  class Best {
    var stakes: seq<int>
    var total: int
    var profit: int
    var found: bool
    /** Every plan with a positive stake that has been offered, in order. */
    ghost var offered: seq<seq<int>>

    ghost predicate Valid(c: Chunks)
      reads this
    {
      && |c.items| <= MAX_CHUNKS
      && (found <==> offered != [])
      && (!found ==> profit == 0)
      && (forall i :: 0 <= i < |offered| ==> |offered[i]| == MAX_CHUNKS && Admissible(c, offered[i]))
      && (forall i :: 0 <= i < |offered| ==> Total(offered[i], |c.items|) > 0)
      && (found ==> && |stakes| == MAX_CHUNKS
                    && total == Total(stakes, |c.items|)
                    && profit == Profit(c, stakes)
                    && FirstBest(c, offered, stakes))
    }

    constructor (ghost c: Chunks)
      requires |c.items| <= MAX_CHUNKS
      ensures Valid(c) && offered == []
    {
      stakes := seq(MAX_CHUNKS, _ => 0);
      total, profit, found, offered := 0, 0, false, [];
    }

    /** Recompute a candidate exactly and keep it if it earns strictly more. */
    method Offer(c: Chunks, candidate: seq<int>)
      requires Grouped(c) && |c.items| <= MAX_CHUNKS == |candidate| && Admissible(c, candidate)
      requires Valid(c)
      modifies this
      ensures Valid(c)
      ensures offered == if Total(candidate, |c.items|) > 0 then old(offered) + [candidate] else old(offered)
    {
      var sum, worst := Evaluate(c, candidate);
      if sum <= 0 {
        return;
      }
      var earned := ToCents(worst - sum);
      OneMoreOffer(c, offered, stakes, candidate);
      if !found || earned > profit {
        stakes, total, profit, found := candidate, sum, earned, true;
      }
      offered := offered + [candidate];
    }
  }

  function Pow2(n: nat): (p: nat)
    ensures p > 0
  {
    if n == 0 then 1 else 2 * Pow2(n - 1)
  }

  lemma {:induction false} Pow2Add(a: nat, b: nat)
    ensures Pow2(a + b) == Pow2(a) * Pow2(b)
  {
    if a > 0 {
      Pow2Add(a - 1, b);
    }
  }

  lemma {:induction false} Pow2Twice(n: nat, p: nat)
    requires Pow2(n) == p
    ensures Pow2(2 * n) == p * p
  {
    Pow2Add(n, n);
  }

  lemma {:induction false} Pow2Of96()
    ensures Pow2(96) == 0x1_0000_0000_0000_0000_0000_0000
  {
    assert Pow2(3) == 8;
    Pow2Twice(3, 8);
    Pow2Twice(6, 0x40);
    Pow2Twice(12, 0x1000);
    Pow2Twice(24, 0x100_0000);
    Pow2Twice(48, 0x1_0000_0000_0000);
  }

  /** The least price among the first `n` chunks, or one. */
  function Cheapest(items: seq<Chunk>, n: nat): (p: Prob)
    requires n <= |items|
    ensures forall j :: 0 <= j < n ==> p <= items[j].price
  {
    if n == 0 then PPM else Min(Cheapest(items, n - 1), items[n - 1].price)
  }

  function Capacities(items: seq<Chunk>): (s: seq<int>)
    ensures |s| == |items|
  {
    seq(|items|, j requires 0 <= j < |items| => items[j].capacity)
  }

  /** What a group is reported to pay at full depth. */
  function DepthPayout(c: Chunks, group: nat): int {
    GroupPayout(c.items, Capacities(c.items), group, |c.items|)
  }

  /** The top of the search range: what the budget buys at the longest price, or the
      least that any of the first `k` outcomes can be made to pay. */
  function Highest(c: Chunks, k: nat): int {
    if k == 0 then c.budget * PPM / Cheapest(c.items, |c.items|)
    else Min(Highest(c, k - 1), DepthPayout(c, k - 1))
  }

  lemma {:induction false} HighestIsLeast(c: Chunks, k: nat)
    ensures Highest(c, k) <= c.budget * PPM / Cheapest(c.items, |c.items|)
    ensures forall g :: 0 <= g < k ==> Highest(c, k) <= DepthPayout(c, g)
    ensures Highest(c, k) == c.budget * PPM / Cheapest(c.items, |c.items|)
            || exists g :: 0 <= g < k && Highest(c, k) == DepthPayout(c, g)
  {
    if k > 0 {
      HighestIsLeast(c, k - 1);
      if Highest(c, k) == DepthPayout(c, k - 1) {
        assert 0 <= k - 1 < k;
      }
    }
  }

  /** At full depth a group pays its reach, unless that is more than money can express. */
  lemma {:induction false} FullDepthPayout(items: seq<Chunk>, group: nat)
    ensures var g := GroupOf(items, group);
            var paid := GroupPayout(items, Capacities(items), group, |items|);
            0 <= paid <= Reach(g, |g|) && (paid < CENTS_MAX ==> paid == Reach(g, |g|))
  {
    GroupPayoutByMembers(items, Capacities(items), group, |items|);
    FullDepthSum(items, Members(items, group, |items|), |Members(items, group, |items|)|);
  }

  lemma {:induction false} FullDepthSum(items: seq<Chunk>, ms: seq<nat>, k: nat)
    requires k <= |ms| && forall i :: 0 <= i < |ms| ==> ms[i] < |items|
    ensures var g := seq(|ms|, i requires 0 <= i < |ms| => items[ms[i]]);
            var paid := MemberPayout(items, Capacities(items), ms, k);
            0 <= paid <= Reach(g, k) && (paid < CENTS_MAX ==> paid == Reach(g, k))
  {
    if k > 0 {
      FullDepthSum(items, ms, k - 1);
      PayoutBounds(items[ms[k - 1]].price, items[ms[k - 1]].capacity);
    }
  }

  /** Nothing above the range is feasible. */
  lemma {:induction false} AboveHighestInfeasible(c: Chunks, target: int)
    requires Grouped(c) && c.budget > 0 && Highest(c, c.nGroups) < target
    requires Highest(c, c.nGroups) < CENTS_MAX && target > 0
    ensures !FeasibleTarget(c, target)
  {
    HighestIsLeast(c, c.nGroups);
    if FeasibleTarget(c, target) {
      var stakes: seq<int> :| |stakes| == |c.items| && WaterPlan(c, target, stakes)
                              && Total(stakes, |c.items|) <= c.budget;
      DepthDecides(c, target);
      forall g | 0 <= g < c.nGroups
        ensures Highest(c, c.nGroups) != DepthPayout(c, g)
      {
        FullDepthPayout(c.items, g);
      }
      BudgetBounds(c, target, stakes);
    }
  }

  /** A plan within budget cannot pay more than the budget buys at the longest price. */
  lemma {:induction false} BudgetBounds(c: Chunks, target: int, stakes: seq<int>)
    requires Grouped(c) && WaterPlan(c, target, stakes) && Total(stakes, |c.items|) <= c.budget && target > 0
    ensures target <= c.budget * PPM / Cheapest(c.items, |c.items|)
  {
    WaterPlanGuarantees(c, target, stakes);
    assert GroupFilled(c.items, 0, target, stakes);
    var g, ms := GroupOf(c.items, 0), Members(c.items, 0, |c.items|);
    MembersAscend(c.items, 0, |c.items|);
    var live :| IsLevel(g, live, target) && MatchesLevel(g, ms, live, target, stakes);
    var r, s := Remaining(g, live, target), LivePrice(g, live, |g|);
    LevelPaysTarget(g, live, target);
    var cheapest := Cheapest(c.items, |c.items|);
    StakesBuyPayout(c.items, ms, stakes, r, s, cheapest, |ms|);
    MembersWithinTotal(c.items, stakes, 0, |c.items|);
    MulLe(target, LevelPayout(g, r, s, |g|), cheapest);
    MulLe(MemberStake(stakes, ms, |ms|), c.budget, PPM);
    FloorGe(c.budget * PPM, cheapest, target);
  }

  function MemberStake(stakes: seq<int>, ms: seq<nat>, k: nat): int
    requires k <= |ms| && forall i :: 0 <= i < |ms| ==> ms[i] < |stakes|
  {
    if k == 0 then 0 else MemberStake(stakes, ms, k - 1) + stakes[ms[k - 1]]
  }

  lemma {:induction false} StakesBuyPayout(
    items: seq<Chunk>, ms: seq<nat>, stakes: seq<int>, r: int, s: int, cheapest: Prob, k: nat)
    requires k <= |ms| && s > 0
    requires forall i :: 0 <= i < |ms| ==> ms[i] < |items| && ms[i] < |stakes|
    requires forall i :: 0 <= i < |ms| ==> cheapest <= items[ms[i]].price
    requires forall i :: 0 <= i < |ms| ==> 0 <= stakes[ms[i]] == StakeAt(items[ms[i]], r, s)
    ensures var g := seq(|ms|, i requires 0 <= i < |ms| => items[ms[i]]);
            cheapest * LevelPayout(g, r, s, k) <= MemberStake(stakes, ms, k) * PPM
  {
    if k > 0 {
      StakesBuyPayout(items, ms, stakes, r, s, cheapest, k - 1);
      var c, stake := items[ms[k - 1]], stakes[ms[k - 1]];
      PayoutBounds(c.price, stake);
      MulLe(cheapest, c.price, GrossPayout(c.price, stake));
      var g := seq(|ms|, i requires 0 <= i < |ms| => items[ms[i]]);
      AddTerm(cheapest, LevelPayout(g, r, s, k - 1), GrossPayout(c.price, stake),
              MemberStake(stakes, ms, k - 1), stake, PPM);
    }
  }

  lemma {:induction false} MembersWithinTotal(items: seq<Chunk>, stakes: seq<int>, group: nat, n: nat)
    requires n <= |items| <= |stakes| && forall j :: 0 <= j < n ==> stakes[j] >= 0
    ensures MemberStake(stakes, Members(items, group, n), |Members(items, group, n)|) <= Total(stakes, n)
  {
    if n > 0 {
      MembersWithinTotal(items, stakes, group, n - 1);
      var ms, ms' := Members(items, group, n - 1), Members(items, group, n);
      if items[n - 1].group == group {
        assert ms'[..|ms|] == ms;
        MemberStakePrefix(stakes, ms, ms', |ms|);
      } else {
        assert ms' == ms;
      }
    }
  }

  lemma {:induction false} MemberStakePrefix(stakes: seq<int>, ms: seq<nat>, ms': seq<nat>, k: nat)
    requires k <= |ms| <= |ms'| && ms == ms'[..|ms|] && forall i :: 0 <= i < |ms'| ==> ms'[i] < |stakes|
    ensures MemberStake(stakes, ms, k) == MemberStake(stakes, ms', k)
  {
    if k > 0 {
      MemberStakePrefix(stakes, ms, ms', k - 1);
    }
  }

  method CheapestPrice(items: seq<Chunk>) returns (cheapest: Prob)
    ensures cheapest == Cheapest(items, |items|)
  {
    cheapest := PPM;
    for j := 0 to |items|
      invariant cheapest == Cheapest(items, j)
    {
      cheapest := Min(cheapest, items[j].price);
    }
  }

  method HighestTarget(c: Chunks) returns (highest: int)
    ensures highest == Highest(c, c.nGroups)
  {
    var cheapest := CheapestPrice(c.items);
    highest := c.budget * PPM / cheapest;
    for group := 0 to c.nGroups
      invariant highest == Highest(c, group)
    {
      var reach := 0;
      for j := 0 to |c.items|
        invariant reach == GroupPayout(c.items, Capacities(c.items), group, j)
      {
        if c.items[j].group == group {
          reach := reach + Payout(c.items[j].price, c.items[j].capacity);
        }
      }
      highest := Min(highest, reach);
    }
  }

  /** `low` is the greatest feasible payout, or zero when none is. */
  ghost predicate GreatestFeasible(c: Chunks, low: int) {
    && low >= 0
    && (low > 0 ==> FeasibleTarget(c, low))
    && NoneAbove(c, low)
  }

  /** A plan offered at position `i` or later pays every outcome at least `target`. */
  ghost predicate OfferedPays(c: Chunks, offered: seq<seq<int>>, i: nat, target: int) {
    exists k :: i <= k < |offered| && PlanPays(c, offered[k], target)
  }

  ghost predicate PlanPays(c: Chunks, stakes: seq<int>, target: int) {
    && |c.items| <= |stakes|
    && forall g :: 0 <= g < c.nGroups ==> target <= GroupPayout(c.items, stakes, g, |c.items|)
  }

  /** A plan offered at position `i` or later is the water plan of `target`. */
  ghost predicate OfferedFills(c: Chunks, offered: seq<seq<int>>, i: nat, target: int) {
    exists k :: i <= k < |offered| && WaterPlan(c, target, offered[k])
  }

  /** The search range is narrow enough to be exhausted by the allowed halvings. */
  lemma {:induction false} RangeFits(c: Chunks)
    requires Grouped(c) && 0 < c.budget <= CENTS_MAX
    ensures 0 <= Highest(c, c.nGroups) < Pow2(MAX_SEARCH_STEPS)
  {
    HighestIsLeast(c, c.nGroups);
    var cheapest := Cheapest(c.items, |c.items|);
    FloorNonNeg(c.budget * PPM, cheapest);
    MulLe(1, cheapest, c.budget * PPM);
    FloorGe(c.budget * PPM, cheapest, c.budget * PPM + 1);
    Pow2Of96();
    forall g | 0 <= g < c.nGroups
      ensures DepthPayout(c, g) >= 0
    {
      FullDepthPayout(c.items, g);
    }
  }

  /** The plans weighed by at most `n` halvings of a range, in order. */
  ghost function Probes(c: Chunks, low: int, high: int, n: nat): seq<seq<int>>
    decreases n
  {
    if n == 0 || low >= high then []
    else
      var mid := low + (high - low + 1) / 2;
      var probe := ProbeOf(c, mid);
      if probe.Some? then [probe.value] + Probes(c, mid, high, n - 1) else Probes(c, low, mid - 1, n - 1)
  }

  /** The plans the whole search weighs. */
  ghost function AllProbes(c: Chunks): seq<seq<int>> {
    Probes(c, 0, Max(Highest(c, c.nGroups), 0), MAX_SEARCH_STEPS)
  }

  /** Halve the range of guaranteed payouts. The range always closes within the allowed
      halvings; every plan found on the way is offered to the incumbent; and when payouts
      fit money, the search ends at the greatest feasible target there is, with the plan
      of that very target among those offered. */
  method SearchPayout(c: Chunks, best: Best) returns (low: int)
    requires Grouped(c) && |c.items| <= MAX_CHUNKS && 0 < c.budget <= CENTS_MAX
    requires best.Valid(c)
    modifies best
    ensures best.Valid(c)
    ensures old(best.offered) <= best.offered
    ensures 0 <= low <= Highest(c, c.nGroups)
    ensures low > 0 ==> OfferedPays(c, best.offered, |old(best.offered)|, low)
    ensures Highest(c, c.nGroups) < CENTS_MAX ==> GreatestFeasible(c, low)
    ensures Highest(c, c.nGroups) < CENTS_MAX && low > 0 ==>
              OfferedFills(c, best.offered, |old(best.offered)|, low)
    ensures best.offered == old(best.offered) + AllProbes(c)
  {
    var highest := HighestTarget(c);
    RangeFits(c);
    low := 0;
    var high := Max(highest, 0);
    ghost var before := best.offered;
    NothingAbove(c);
    for step := 0 to MAX_SEARCH_STEPS
      invariant best.Valid(c) && Halving(c, before, best.offered, low, high, MAX_SEARCH_STEPS - step)
    {
      if low >= high {
        break;
      }
      low, high := HalveOnce(c, best, low, high, before, MAX_SEARCH_STEPS - step);
    }
    assert low == high;
  }

  /** How far the search has got, with `left` halvings to go: every plan offered since `before`
      is one the halvings find, the last of them pays `low`, and nothing pays more than `high`. */
  ghost predicate Halving(
    c: Chunks, before: seq<seq<int>>, offered: seq<seq<int>>, low: int, high: int, left: nat)
  {
    var highest := Highest(c, c.nGroups);
    && 0 <= low <= high <= highest && high - low < Pow2(left)
    && before <= offered
    && offered + Probes(c, low, high, left) == before + AllProbes(c)
    && (low > 0 ==> OfferedPays(c, offered, |before|, low))
    && (highest < CENTS_MAX ==>
          NoneAbove(c, high) && (low > 0 ==> FeasibleTarget(c, low) && OfferedFills(c, offered, |before|, low)))
  }

  /** Probe the middle of the range and keep the half that can hold the answer. */
  method HalveOnce(c: Chunks, best: Best, low: int, high: int, ghost before: seq<seq<int>>, ghost left: nat)
    returns (low': int, high': int)
    requires Grouped(c) && |c.items| <= MAX_CHUNKS && low < high && left > 0
    requires best.Valid(c) && Halving(c, before, best.offered, low, high, left)
    modifies best
    ensures best.Valid(c) && Halving(c, before, best.offered, low', high', left - 1)
  {
    var mid := low + (high - low + 1) / 2;
    ghost var offered := best.offered;
    Halved(low, high, mid, left - 1);
    var paid := Probe(c, best, mid, |before|);
    if paid {
      HalvedUp(c, before, offered, best.offered, low, high, left);
      return mid, high;
    }
    HalvedDown(c, before, offered, low, high, left);
    return low, mid - 1;
  }

  /** A probe that pays raises the range. */
  lemma {:induction false} HalvedUp(
    c: Chunks, before: seq<seq<int>>, offered: seq<seq<int>>, more: seq<seq<int>>, low: int, high: int, left: nat)
    requires Halving(c, before, offered, low, high, left) && low < high && left > 0
    requires var mid := low + (high - low + 1) / 2;
             && ProbeOf(c, mid).Some? && more == offered + [ProbeOf(c, mid).value]
             && OfferedPays(c, more, |before|, mid)
             && (mid <= CENTS_MAX ==> FeasibleTarget(c, mid) && OfferedFills(c, more, |before|, mid))
    ensures Halving(c, before, more, low + (high - low + 1) / 2, high, left - 1)
  {
    Halved(low, high, low + (high - low + 1) / 2, left - 1);
    ProbesStep(c, offered, low, high, left);
  }

  /** A probe that does not lowers it. */
  lemma {:induction false} HalvedDown(
    c: Chunks, before: seq<seq<int>>, offered: seq<seq<int>>, low: int, high: int, left: nat)
    requires Halving(c, before, offered, low, high, left) && low < high && left > 0
    requires var mid := low + (high - low + 1) / 2;
             ProbeOf(c, mid).None? && (mid <= CENTS_MAX ==> NoneAbove(c, mid - 1))
    ensures Halving(c, before, offered, low, low + (high - low + 1) / 2 - 1, left - 1)
  {
    Halved(low, high, low + (high - low + 1) / 2, left - 1);
    ProbesStep(c, offered, low, high, left);
  }

  /** One halving moves at most one plan from those to come to those offered. */
  lemma {:induction false} ProbesStep(c: Chunks, offered: seq<seq<int>>, low: int, high: int, left: nat)
    requires low < high && left > 0
    ensures var mid := low + (high - low + 1) / 2;
            var probe := ProbeOf(c, mid);
            offered + Probes(c, low, high, left)
            == if probe.Some? then (offered + [probe.value]) + Probes(c, mid, high, left - 1)
               else offered + Probes(c, low, mid - 1, left - 1)
  {
  }

  /** Whichever half is kept, it is less than half as wide. */
  lemma {:induction false} Halved(low: int, high: int, mid: int, left: nat)
    requires low < high && high - low < Pow2(left + 1) && mid == low + (high - low + 1) / 2
    ensures low < mid <= high
    ensures high - mid < Pow2(left) && mid - 1 - low < Pow2(left)
  {
    assert Pow2(left + 1) == 2 * Pow2(left);
  }

  ghost predicate NoneAbove(c: Chunks, high: int) {
    forall target :: target > high ==> !FeasibleTarget(c, target)
  }

  /** Probe one target, and offer the plan found for it. */
  method Probe(c: Chunks, best: Best, target: int, ghost n: nat) returns (paid: bool)
    requires Grouped(c) && |c.items| <= MAX_CHUNKS && target > 0
    requires best.Valid(c) && n <= |best.offered|
    modifies best
    ensures best.Valid(c) && n <= |best.offered| && old(best.offered) <= best.offered
    ensures !paid ==> best.offered == old(best.offered)
    ensures paid ==>
              && |best.offered| == |old(best.offered)| + 1 && OfferedPays(c, best.offered, n, target)
              && (target <= CENTS_MAX ==> FeasibleTarget(c, target) && OfferedFills(c, best.offered, n, target))
    ensures !paid && target <= CENTS_MAX ==> NoneAbove(c, target - 1)
    ensures paid <==> ProbeOf(c, target).Some?
    ensures best.offered == old(best.offered) + if paid then [ProbeOf(c, target).value] else []
  {
    var probe := Feasible(c, target);
    if probe.None? {
      if target <= CENTS_MAX {
        forall above | above > target - 1
          ensures !FeasibleTarget(c, above)
        {
          if FeasibleTarget(c, above) {
            FeasibleDownward(c, target, above);
          }
        }
      }
      return false;
    }
    OutcomesPaidAreStaked(c, probe.value, target);
    best.Offer(c, probe.value);
    assert best.offered[|best.offered| - 1] == probe.value;
    assert PlanPays(c, probe.value, target);
    return true;
  }

  lemma {:induction false} NothingAbove(c: Chunks)
    requires Grouped(c) && c.budget > 0 && 0 <= Highest(c, c.nGroups)
    ensures Highest(c, c.nGroups) < CENTS_MAX ==> NoneAbove(c, Highest(c, c.nGroups))
  {
    if Highest(c, c.nGroups) < CENTS_MAX {
      forall target | target > Highest(c, c.nGroups)
        ensures !FeasibleTarget(c, target)
      {
        AboveHighestInfeasible(c, target);
      }
    }
  }

  /** A plan that pays something stakes something. */
  lemma {:induction false} OutcomesPaidAreStaked(c: Chunks, stakes: seq<int>, target: int)
    requires Grouped(c) && Legal(c.items, stakes) && target > 0 && PlanPays(c, stakes, target)
    ensures Total(stakes, |c.items|) > 0
  {
    TotalNonNeg(stakes, |c.items|);
    if Total(stakes, |c.items|) == 0 {
      UnstakedPaysNothing(c.items, stakes, 0, |c.items|);
      assert false;
    }
  }

  lemma {:induction false} UnstakedPaysNothing(items: seq<Chunk>, stakes: seq<int>, group: nat, n: nat)
    requires n <= |items| <= |stakes|
    requires forall j :: 0 <= j < n && items[j].group == group ==> stakes[j] == 0
    ensures GroupPayout(items, stakes, group, n) == 0
  {
    if n > 0 {
      UnstakedPaysNothing(items, stakes, group, n - 1);
    }
  }
}
