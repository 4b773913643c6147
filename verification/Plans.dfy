/** What a plan over several outcome groups stakes, pays and earns, and what the
    payout targets a market can afford look like. */
module Plans {
  import opened Arith
  import opened Price
  import opened WaterFill

  /** The flattened chunk set a plan is built from. */
  datatype Chunks = Chunks(items: seq<Chunk>, nGroups: nat, budget: int)

  /** The initial value of a minimum over group payouts: the largest i128. */
  const I128_MAX := 0x7fff_ffff_ffff_ffff_ffff_ffff_ffff_ffff

  /** Every chunk backs a real group, and chunk `g` is group `g`'s best price. */
  ghost predicate Grouped(c: Chunks) {
    && 0 < c.nGroups <= |c.items|
    && (forall j :: 0 <= j < |c.items| ==> c.items[j].group < c.nGroups)
    && (forall g :: 0 <= g < c.nGroups ==> c.items[g].group == g)
  }

  /** The indices below `n` of the chunks in a group, in order. */
  function Members(items: seq<Chunk>, group: nat, n: nat): (ms: seq<nat>)
    requires n <= |items|
    ensures |ms| <= n
    ensures forall k :: 0 <= k < |ms| ==> ms[k] < n && items[ms[k]].group == group
  {
    if n == 0 then []
    else Members(items, group, n - 1) + if items[n - 1].group == group then [n - 1] else []
  }

  lemma {:induction false} MembersAscend(items: seq<Chunk>, group: nat, n: nat)
    requires n <= |items|
    ensures forall i, k :: 0 <= i < k < |Members(items, group, n)| ==>
                             Members(items, group, n)[i] < Members(items, group, n)[k]
    ensures forall j :: 0 <= j < n && items[j].group == group ==> j in Members(items, group, n)
  {
    if n > 0 {
      MembersAscend(items, group, n - 1);
    }
  }

  /** The chunks of a group, in order. */
  function GroupOf(items: seq<Chunk>, group: nat): seq<Chunk> {
    var ms := Members(items, group, |items|);
    seq(|ms|, k requires 0 <= k < |ms| => items[ms[k]])
  }

  /** The payout of the first `n` chunks that back `group`, each floored and clamped. */
  function GroupPayout(items: seq<Chunk>, stakes: seq<int>, group: nat, n: nat): int
    requires n <= |items| && n <= |stakes|
  {
    if n == 0 then 0
    else GroupPayout(items, stakes, group, n - 1)
         + if items[n - 1].group == group then Payout(items[n - 1].price, stakes[n - 1]) else 0
  }

  /** The sum of the first `n` stakes. */
  function Total(stakes: seq<int>, n: nat): int
    requires n <= |stakes|
  {
    if n == 0 then 0 else Total(stakes, n - 1) + stakes[n - 1]
  }

  /** What an outcome is reported to pay. */
  function OutcomePayout(c: Chunks, stakes: seq<int>, group: nat): int
    requires |c.items| <= |stakes|
  {
    ToCents(GroupPayout(c.items, stakes, group, |c.items|))
  }

  /** The least reported payout over the first `k` groups. */
  function Worst(c: Chunks, stakes: seq<int>, k: nat): int
    requires |c.items| <= |stakes|
  {
    if k == 0 then I128_MAX
    else Min(Worst(c, stakes, k - 1), OutcomePayout(c, stakes, k - 1))
  }

  /** The guaranteed profit of a plan: what the worst outcome pays, less every stake. */
  function Profit(c: Chunks, stakes: seq<int>): int
    requires |c.items| <= |stakes|
  {
    ToCents(Worst(c, stakes, c.nGroups) - Total(stakes, |c.items|))
  }

  /** Every stake is a whole number of increments within depth. */
  ghost predicate Legal(items: seq<Chunk>, stakes: seq<int>) {
    && |items| <= |stakes|
    && forall j :: 0 <= j < |items| ==>
                     0 <= stakes[j] <= items[j].capacity && stakes[j] % items[j].increment == 0
  }

  /** A legal plan within budget. */
  ghost predicate Admissible(c: Chunks, stakes: seq<int>) {
    Legal(c.items, stakes) && Total(stakes, |c.items|) <= c.budget
  }

  /** A group's stakes are those of its water level at `target`. */
  ghost predicate GroupFilled(items: seq<Chunk>, group: nat, target: int, stakes: seq<int>)
    requires |items| <= |stakes|
  {
    var g, ms := GroupOf(items, group), Members(items, group, |items|);
    exists live :: IsLevel(g, live, target) && MatchesLevel(g, ms, live, target, stakes)
  }

  ghost predicate MatchesLevel(
    g: seq<Chunk>, ms: seq<nat>, live: seq<bool>, target: int, stakes: seq<int>)
    requires |ms| == |g| && IsLevel(g, live, target)
    requires forall k :: 0 <= k < |ms| ==> ms[k] < |stakes|
  {
    forall k :: 0 <= k < |g| ==>
                  stakes[ms[k]] == StakeAt(g[k], Remaining(g, live, target), LivePrice(g, live, |g|))
  }

  /** Every group is filled to the same target: the plan the search probes. */
  ghost predicate WaterPlan(c: Chunks, target: int, stakes: seq<int>) {
    && |c.items| <= |stakes|
    && forall grp :: 0 <= grp < c.nGroups ==> GroupFilled(c.items, grp, target, stakes)
  }

  /** A payout whose water plan depth and budget allow. */
  ghost predicate FeasibleTarget(c: Chunks, target: int) {
    exists stakes: seq<int> ::
      |stakes| == |c.items| && WaterPlan(c, target, stakes) && Total(stakes, |c.items|) <= c.budget
  }

  // ---- Sums over a group, seen through its members ----

  function MemberPayout(items: seq<Chunk>, stakes: seq<int>, ms: seq<nat>, k: nat): int
    requires k <= |ms|
    requires forall i :: 0 <= i < |ms| ==> ms[i] < |items| && ms[i] < |stakes|
  {
    if k == 0 then 0
    else MemberPayout(items, stakes, ms, k - 1) + Payout(items[ms[k - 1]].price, stakes[ms[k - 1]])
  }

  lemma {:induction false} MemberPayoutPrefix(items: seq<Chunk>, stakes: seq<int>, ms: seq<nat>, ms': seq<nat>, k: nat)
    requires k <= |ms| <= |ms'| && ms == ms'[..|ms|]
    requires forall i :: 0 <= i < |ms'| ==> ms'[i] < |items| && ms'[i] < |stakes|
    ensures MemberPayout(items, stakes, ms, k) == MemberPayout(items, stakes, ms', k)
  {
    if k > 0 {
      MemberPayoutPrefix(items, stakes, ms, ms', k - 1);
    }
  }

  /** The filtered sum over all chunks is the sum over the group's members. */
  lemma {:induction false} GroupPayoutByMembers(items: seq<Chunk>, stakes: seq<int>, group: nat, n: nat)
    requires n <= |items| && n <= |stakes|
    ensures GroupPayout(items, stakes, group, n)
            == MemberPayout(items, stakes, Members(items, group, n), |Members(items, group, n)|)
  {
    if n > 0 {
      GroupPayoutByMembers(items, stakes, group, n - 1);
      var ms, ms' := Members(items, group, n - 1), Members(items, group, n);
      if items[n - 1].group == group {
        assert ms' == ms + [n - 1] && ms'[..|ms|] == ms;
        MemberPayoutPrefix(items, stakes, ms, ms', |ms|);
      } else {
        assert ms' == ms;
      }
    }
  }

  lemma {:induction false} GroupPayoutNonNeg(items: seq<Chunk>, stakes: seq<int>, group: nat, n: nat)
    requires n <= |items| <= |stakes|
    requires forall j :: 0 <= j < n ==> stakes[j] >= 0
    ensures GroupPayout(items, stakes, group, n) >= 0
    ensures forall j :: 0 <= j < n && items[j].group == group ==>
                          Payout(items[j].price, stakes[j]) <= GroupPayout(items, stakes, group, n)
  {
    if n > 0 {
      GroupPayoutNonNeg(items, stakes, group, n - 1);
      PayoutBounds(items[n - 1].price, stakes[n - 1]);
    }
  }

  lemma {:induction false} WorstIsLeast(c: Chunks, stakes: seq<int>, k: nat)
    requires |c.items| <= |stakes|
    ensures forall grp :: 0 <= grp < k ==>
                            Worst(c, stakes, k) <= OutcomePayout(c, stakes, grp)
    ensures Worst(c, stakes, k) == I128_MAX
            || exists grp :: 0 <= grp < k
                             && Worst(c, stakes, k) == OutcomePayout(c, stakes, grp)
    ensures k > 0 ==> Worst(c, stakes, k) <= CENTS_MAX
  {
    if k > 0 {
      WorstIsLeast(c, stakes, k - 1);
      var last := OutcomePayout(c, stakes, k - 1);
      assert last <= CENTS_MAX < I128_MAX;
      if Worst(c, stakes, k) == last {
        assert 0 <= k - 1 < k;
      }
    }
  }

  /** The worst outcome's payout is attained. */
  lemma {:induction false} WorstAttained(c: Chunks, stakes: seq<int>)
    requires |c.items| <= |stakes| && c.nGroups > 0
    ensures exists grp :: 0 <= grp < c.nGroups
                          && Worst(c, stakes, c.nGroups) == OutcomePayout(c, stakes, grp)
  {
    WorstIsLeast(c, stakes, c.nGroups);
  }

  /** Reported profit is exact for admissible plans: neither clamp of the difference bites. */
  lemma {:induction false} ProfitExact(c: Chunks, stakes: seq<int>)
    requires Legal(c.items, stakes) && c.nGroups > 0
    requires Total(stakes, |c.items|) <= CENTS_MAX
    ensures Profit(c, stakes) == Worst(c, stakes, c.nGroups) - Total(stakes, |c.items|)
  {
    TotalNonNeg(stakes, |c.items|);
    WorstIsLeast(c, stakes, c.nGroups);
    WorstAttained(c, stakes);
    var grp :| 0 <= grp < c.nGroups
               && Worst(c, stakes, c.nGroups) == OutcomePayout(c, stakes, grp);
    GroupPayoutNonNeg(c.items, stakes, grp, |c.items|);
  }

  lemma {:induction false} TotalNonNeg(stakes: seq<int>, n: nat)
    requires n <= |stakes|
    requires forall j :: 0 <= j < n ==> stakes[j] >= 0
    ensures Total(stakes, n) >= 0
    ensures forall j :: 0 <= j < n ==> stakes[j] <= Total(stakes, n)
  {
    if n > 0 {
      TotalNonNeg(stakes, n - 1);
    }
  }

  lemma {:induction false} TotalMono(stakes: seq<int>, stakes': seq<int>, n: nat)
    requires n <= |stakes| && n <= |stakes'|
    requires forall j :: 0 <= j < n ==> stakes[j] <= stakes'[j]
    ensures Total(stakes, n) <= Total(stakes', n)
  {
    if n > 0 {
      TotalMono(stakes, stakes', n - 1);
    }
  }

  // ---- Water plans ----

  /** A larger target stakes at least as much on every chunk of every group. */
  lemma {:induction false} WaterPlanMonotone(c: Chunks, target: int, target': int, stakes: seq<int>, stakes': seq<int>)
    requires Grouped(c) && target <= target'
    requires WaterPlan(c, target, stakes) && WaterPlan(c, target', stakes')
    ensures forall j :: 0 <= j < |c.items| ==> stakes[j] <= stakes'[j]
    ensures Total(stakes, |c.items|) <= Total(stakes', |c.items|)
  {
    forall j | 0 <= j < |c.items|
      ensures stakes[j] <= stakes'[j]
    {
      var grp := c.items[j].group;
      assert GroupFilled(c.items, grp, target, stakes);
      assert GroupFilled(c.items, grp, target', stakes');
      MembersAscend(c.items, grp, |c.items|);
      var g, ms := GroupOf(c.items, grp), Members(c.items, grp, |c.items|);
      var live :| IsLevel(g, live, target) && MatchesLevel(g, ms, live, target, stakes);
      var live' :| IsLevel(g, live', target') && MatchesLevel(g, ms, live', target', stakes');
      FillingIsMonotone(g, live, live', target, target');
      assert j in ms;
    }
    TotalMono(stakes, stakes', |c.items|);
  }

  /** A target determines its plan. */
  lemma {:induction false} WaterPlanUnique(c: Chunks, target: int, stakes: seq<int>, stakes': seq<int>)
    requires Grouped(c) && WaterPlan(c, target, stakes) && WaterPlan(c, target, stakes')
    ensures stakes[..|c.items|] == stakes'[..|c.items|]
    ensures Total(stakes, |c.items|) == Total(stakes', |c.items|)
  {
    WaterPlanMonotone(c, target, target, stakes, stakes');
    WaterPlanMonotone(c, target, target, stakes', stakes);
  }

  /** Depth alone decides whether a positive target has a plan. */
  lemma {:induction false} DepthDecides(c: Chunks, target: int)
    requires Grouped(c) && target > 0
    ensures (exists stakes: seq<int> :: |stakes| == |c.items| && WaterPlan(c, target, stakes))
            <==> forall grp :: 0 <= grp < c.nGroups ==>
                                 target <= Reach(GroupOf(c.items, grp), |GroupOf(c.items, grp)|)
  {
    if exists stakes: seq<int> :: |stakes| == |c.items| && WaterPlan(c, target, stakes) {
      var stakes: seq<int> :| |stakes| == |c.items| && WaterPlan(c, target, stakes);
      forall grp | 0 <= grp < c.nGroups
        ensures target <= Reach(GroupOf(c.items, grp), |GroupOf(c.items, grp)|)
      {
        assert GroupFilled(c.items, grp, target, stakes);
        MembersAscend(c.items, grp, |c.items|);
        var g, ms := GroupOf(c.items, grp), Members(c.items, grp, |c.items|);
        var live :| IsLevel(g, live, target) && MatchesLevel(g, ms, live, target, stakes);
        LevelWithinReach(g, live, target);
      }
    }
    if forall grp :: 0 <= grp < c.nGroups ==>
                       target <= Reach(GroupOf(c.items, grp), |GroupOf(c.items, grp)|) {
      var stakes := FillAll(c, target);
      assert WaterPlan(c, target, stakes);
    }
  }

  /** The plan of a target within reach of every group. */
  lemma {:induction false} FillAll(c: Chunks, target: int) returns (stakes: seq<int>)
    requires Grouped(c) && target > 0
    requires forall grp :: 0 <= grp < c.nGroups ==>
                             target <= Reach(GroupOf(c.items, grp), |GroupOf(c.items, grp)|)
    ensures |stakes| == |c.items| && WaterPlan(c, target, stakes)
  {
    stakes := seq(|c.items|, _ => 0);
    var done := 0;
    while done < c.nGroups
      invariant done <= c.nGroups && |stakes| == |c.items|
      invariant forall grp :: 0 <= grp < done ==> GroupFilled(c.items, grp, target, stakes)
    {
      var before := stakes;
      stakes := FillGroup(c.items, done, target, stakes);
      forall grp | 0 <= grp < done
        ensures GroupFilled(c.items, grp, target, stakes)
      {
        OtherGroupKept(c.items, grp, target, before, stakes);
      }
      done := done + 1;
    }
  }

  lemma {:induction false} FillGroup(
    items: seq<Chunk>, group: nat, target: int, stakes: seq<int>) returns (filled: seq<int>)
    requires |stakes| == |items| && 0 < target <= Reach(GroupOf(items, group), |GroupOf(items, group)|)
    ensures |filled| == |items| && GroupFilled(items, group, target, filled)
    ensures forall j :: 0 <= j < |items| && items[j].group != group ==> filled[j] == stakes[j]
  {
    MembersAscend(items, group, |items|);
    var g, ms := GroupOf(items, group), Members(items, group, |items|);
    var live := LevelExists(g, target);
    var r, s := Remaining(g, live, target), LivePrice(g, live, |g|);
    filled := seq(|items|, j requires 0 <= j < |items| =>
      if items[j].group == group then StakeAt(items[j], r, s) else stakes[j]);
    assert MatchesLevel(g, ms, live, target, filled);
  }

  /** A group's filling only depends on the stakes of its own chunks. */
  lemma {:induction false} OtherGroupKept(
    items: seq<Chunk>, group: nat, target: int, stakes: seq<int>, stakes': seq<int>)
    requires |items| <= |stakes| && |items| <= |stakes'|
    requires GroupFilled(items, group, target, stakes)
    requires forall j :: 0 <= j < |items| && items[j].group == group ==> stakes'[j] == stakes[j]
    ensures GroupFilled(items, group, target, stakes')
  {
    MembersAscend(items, group, |items|);
    var g, ms := GroupOf(items, group), Members(items, group, |items|);
    var live :| IsLevel(g, live, target) && MatchesLevel(g, ms, live, target, stakes);
    assert MatchesLevel(g, ms, live, target, stakes');
  }

  /** Feasibility is downward closed: below an affordable payout every positive payout
      is affordable. */
  lemma {:induction false} FeasibleDownward(c: Chunks, target: int, target': int)
    requires Grouped(c) && 0 < target <= target' && FeasibleTarget(c, target')
    ensures FeasibleTarget(c, target)
  {
    var stakes': seq<int> :| |stakes'| == |c.items| && WaterPlan(c, target', stakes')
                             && Total(stakes', |c.items|) <= c.budget;
    DepthDecides(c, target');
    DepthDecides(c, target);
    var stakes: seq<int> :| |stakes| == |c.items| && WaterPlan(c, target, stakes);
    WaterPlanMonotone(c, target, target', stakes, stakes');
  }

  lemma {:induction false} LevelRemaining(g: seq<Chunk>, live: seq<bool>, target: int)
    requires IsLevel(g, live, target) && target > 0
    ensures Remaining(g, live, target) > 0
  {
    if exists k :: 0 <= k < |g| && !live[k] {
      var k :| 0 <= k < |g| && !live[k];
      var r, s := Remaining(g, live, target), LivePrice(g, live, |g|);
      if r <= 0 {
        MulLe(r, 0, g[k].price);
        GrossNonNeg(g[k]);
        MulNonNeg(FullPayout(g[k]), s);
      }
    } else {
      AllLive(g, live, |g|);
    }
  }

  lemma {:induction false} GrossNonNeg(c: Chunk)
    ensures FullPayout(c) >= 0
  {
    PayoutBounds(c.price, c.capacity);
  }

  /** A water plan for a positive target is legal, stakes something on every chunk, and
      pays every outcome at least the target (or the most that money can report). */
  lemma {:induction false} WaterPlanGuarantees(c: Chunks, target: int, stakes: seq<int>)
    requires Grouped(c) && WaterPlan(c, target, stakes) && target > 0
    ensures Legal(c.items, stakes)
    ensures forall j :: 0 <= j < |c.items| ==> stakes[j] > 0
    ensures forall grp :: 0 <= grp < c.nGroups ==>
                            Min(target, CENTS_MAX) <= GroupPayout(c.items, stakes, grp, |c.items|)
    ensures Min(target, CENTS_MAX) <= Worst(c, stakes, c.nGroups)
  {
    forall j | 0 <= j < |c.items|
      ensures 0 < stakes[j] <= c.items[j].capacity && stakes[j] % c.items[j].increment == 0
    {
      var grp := c.items[j].group;
      assert GroupFilled(c.items, grp, target, stakes);
      MembersAscend(c.items, grp, |c.items|);
      var g, ms := GroupOf(c.items, grp), Members(c.items, grp, |c.items|);
      var live :| IsLevel(g, live, target) && MatchesLevel(g, ms, live, target, stakes);
      LevelRemaining(g, live, target);
      assert j in ms;
      StakeLegal(c.items[j], Remaining(g, live, target), LivePrice(g, live, |g|));
    }
    forall grp | 0 <= grp < c.nGroups
      ensures Min(target, CENTS_MAX) <= GroupPayout(c.items, stakes, grp, |c.items|)
    {
      FilledGroupPays(c.items, grp, target, stakes);
    }
    WorstIsLeast(c, stakes, c.nGroups);
    WorstAttained(c, stakes);
  }

  lemma {:induction false} FilledGroupPays(items: seq<Chunk>, group: nat, target: int, stakes: seq<int>)
    requires |items| <= |stakes| && GroupFilled(items, group, target, stakes) && target > 0
    ensures Min(target, CENTS_MAX) <= GroupPayout(items, stakes, group, |items|)
  {
    MembersAscend(items, group, |items|);
    var g, ms := GroupOf(items, group), Members(items, group, |items|);
    var live :| IsLevel(g, live, target) && MatchesLevel(g, ms, live, target, stakes);
    var r, s := Remaining(g, live, target), LivePrice(g, live, |g|);
    LevelPaysTarget(g, live, target);
    LevelRemaining(g, live, target);
    ClampedSum(items, stakes, ms, r, s, |ms|);
    GroupPayoutByMembers(items, stakes, group, |items|);
  }

  /** Clamping each payout cannot hide more than the clamp itself. */
  lemma {:induction false} ClampedSum(
    items: seq<Chunk>, stakes: seq<int>, ms: seq<nat>, r: int, s: int, k: nat)
    requires k <= |ms| && s > 0 && r > 0
    requires forall i :: 0 <= i < |ms| ==> ms[i] < |items| && ms[i] < |stakes|
    requires forall i :: 0 <= i < |ms| ==> stakes[ms[i]] == StakeAt(items[ms[i]], r, s)
    ensures var g := seq(|ms|, i requires 0 <= i < |ms| => items[ms[i]]);
            0 <= LevelPayout(g, r, s, k)
            && Min(LevelPayout(g, r, s, k), CENTS_MAX) <= MemberPayout(items, stakes, ms, k)
  {
    if k > 0 {
      ClampedSum(items, stakes, ms, r, s, k - 1);
      var c := items[ms[k - 1]];
      StakeLegal(c, r, s);
      PayoutBounds(c.price, stakes[ms[k - 1]]);
    }
  }
}
