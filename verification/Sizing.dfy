/** Sizing one payout target: the round-by-round water-filling of each outcome group,
    the repair step behind it, and the exact evaluation of a finished plan. */
module Sizing {
  import opened Arith
  import opened Price
  import opened WaterFill
  import opened Plans
  import opened Quotes
  import opened Rounds

  /** Below the clamp the two frozen sums agree. */
  lemma {:induction false} FrozenCentsExact(g: seq<Chunk>, live: seq<bool>, k: nat)
    requires k <= |g| == |live|
    requires forall i :: 0 <= i < k && !live[i] ==> FullPayout(g[i]) <= CENTS_MAX
    ensures FrozenCents(g, live, k) == FrozenPayout(g, live, k)
  {
    if k > 0 {
      FrozenCentsExact(g, live, k - 1);
      GrossNonNeg(g[k - 1]);
    }
  }

  /** The members of a group, in order. */
  method CollectMembers(items: seq<Chunk>, group: nat) returns (member: seq<nat>)
    ensures member == Members(items, group, |items|)
  {
    member := [];
    for j := 0 to |items|
      invariant member == Members(items, group, j)
    {
      if items[j].group == group {
        member := member + [j];
      }
    }
  }

  /** What the rounds know about the group they fill. */
  ghost predicate IsGroup(items: seq<Chunk>, member: seq<nat>, g: seq<Chunk>) {
    && |member| == |g|
    && (forall k :: 0 <= k < |g| ==> member[k] < |items| && items[member[k]] == g[k])
    && (forall i, k :: 0 <= i < k < |g| ==> member[i] < member[k])
  }

  /** The stakes of every member are legal. */
  ghost predicate LegalMembers(member: seq<nat>, g: seq<Chunk>, stakes: seq<int>)
    requires |member| == |g| && forall k :: 0 <= k < |g| ==> member[k] < |stakes|
  {
    forall k :: 0 <= k < |g| ==>
                  0 <= stakes[member[k]] <= g[k].capacity && stakes[member[k]] % g[k].increment == 0
  }

  /** One round's shares: every live chunk is staked at its share, and marked for
      freezing when its depth cannot take the whole of it. */
  method ShareOut(
    items: seq<Chunk>, member: seq<nat>, ghost g: seq<Chunk>, active: array<bool>,
    remaining: int, priceSum: int, stakes: array<int>, freeze: array<bool>) returns (cappedAny: bool)
    requires IsGroup(items, member, g) && |items| <= stakes.Length
    requires active.Length == freeze.Length == |g| && active != freeze
    requires remaining > 0 && priceSum > 0
    modifies stakes, freeze
    ensures forall k :: 0 <= k < |g| ==>
                          (freeze[k] <==> active[k] && Need(g[k], remaining, priceSum) > g[k].capacity)
    ensures forall k :: 0 <= k < |g| && active[k] ==> stakes[member[k]] == StakeAt(g[k], remaining, priceSum)
    ensures forall k :: 0 <= k < |g| && !active[k] ==> stakes[member[k]] == old(stakes[member[k]])
    ensures forall j :: 0 <= j < stakes.Length && j !in member ==> stakes[j] == old(stakes[j])
    ensures cappedAny <==> exists k :: 0 <= k < |g| && freeze[k]
  {
    cappedAny := false;
    for k := 0 to |member|
      invariant forall i :: 0 <= i < k ==>
                              (freeze[i] <==> active[i] && Need(g[i], remaining, priceSum) > g[i].capacity)
      invariant forall i :: 0 <= i < k && active[i] ==> stakes[member[i]] == StakeAt(g[i], remaining, priceSum)
      invariant forall i :: 0 <= i < |g| && (!active[i] || k <= i) ==> stakes[member[i]] == old(stakes[member[i]])
      invariant forall j :: 0 <= j < stakes.Length && j !in member ==> stakes[j] == old(stakes[j])
      invariant cappedAny <==> exists i :: 0 <= i < k && freeze[i]
    {
      freeze[k] := false;
      if active[k] {
        var j := member[k];
        var share := CeilDiv(remaining * items[j].price, priceSum);
        var need := RoundUpTo(CeilDiv(share * items[j].price, PPM), items[j].increment);
        if need > items[j].capacity {
          stakes[j] := items[j].capacity;
          freeze[k] := true;
          cappedAny := true;
        } else {
          stakes[j] := need;
        }
      }
    }
  }

  /** Retire the marked chunks and add what they pay to the frozen payout. */
  method FreezeCapped(
    items: seq<Chunk>, member: seq<nat>, ghost g: seq<Chunk>, active: array<bool>,
    freeze: array<bool>, stakes: array<int>, frozenPayout: int) returns (frozen: int)
    requires IsGroup(items, member, g) && |items| <= stakes.Length
    requires active.Length == freeze.Length == |g| && active != freeze
    requires frozenPayout == FrozenCents(g, active[..], |g|)
    requires forall k :: 0 <= k < |g| && freeze[k] ==> active[k] && stakes[member[k]] == g[k].capacity
    modifies active
    ensures forall k :: 0 <= k < |g| ==> (active[k] <==> old(active[k]) && !freeze[k])
    ensures frozen == FrozenCents(g, active[..], |g|)
  {
    frozen := frozenPayout;
    for k := 0 to |member|
      invariant forall i :: 0 <= i < k ==> (active[i] <==> old(active[i]) && !freeze[i])
      invariant forall i :: k <= i < |g| ==> active[i] == old(active[i])
      invariant frozen == FrozenCents(g, active[..], |g|)
    {
      if freeze[k] {
        FreezeOne(g, active[..], k, |g|);
        ghost var before := active[..];
        active[k] := false;
        assert active[..] == before[k := false];
        frozen := frozen + Payout(items[member[k]].price, stakes[member[k]]);
      }
    }
  }

  /** The outcome of the rounds for a target money can express: the group's water level,
      or every chunk at full depth when there is none. */
  ghost predicate RoundsResult(member: seq<nat>, g: seq<Chunk>, target: int, stakes: seq<int>)
    requires |member| == |g| && forall k :: 0 <= k < |g| ==> member[k] < |stakes|
  {
    if target <= Reach(g, |g|) then
      exists live :: IsLevel(g, live, target) && MatchesLevel(g, member, live, target, stakes)
    else
      forall k :: 0 <= k < |g| ==> stakes[member[k]] == g[k].capacity
  }

  /** What every round keeps: the frozen chunks sit at full depth, their payout has been
      taken off the target, and (for a target money can express) each of them is
      overwhelmed at the current level while something remains to be paid. */
  ghost predicate RoundInvariant(
    member: seq<nat>, g: seq<Chunk>, live: seq<bool>, target: int, remaining: int, stakes: seq<int>)
    requires |member| == |g| && forall k :: 0 <= k < |g| ==> member[k] < |stakes|
  {
    && |live| == |g|
    && remaining == target - FrozenCents(g, live, |g|)
    && (forall k :: 0 <= k < |g| && !live[k] ==> stakes[member[k]] == g[k].capacity)
    && (0 < target <= CENTS_MAX ==>
          && 0 < remaining
          && (forall k :: 0 <= k < |g| && !live[k] ==>
                            && FullPayout(g[k]) <= CENTS_MAX
                            && !Covers(g[k], Remaining(g, live, target), LivePrice(g, live, |g|))))
  }

  /** A round that freezes something preserves the invariant. */
  lemma {:induction false} RoundKeeps(
    member: seq<nat>, g: seq<Chunk>, live: seq<bool>, live': seq<bool>, target: int,
    remaining: int, remaining': int, stakes: seq<int>, stakes': seq<int>)
    requires |member| == |g| && forall k :: 0 <= k < |g| ==> member[k] < |stakes| && member[k] < |stakes'|
    requires RoundInvariant(member, g, live, target, remaining, stakes) && |live'| == |g|
    requires remaining > 0 && LivePrice(g, live, |g|) > 0
    requires forall k :: 0 <= k < |g| ==>
                           (live'[k] <==> live[k] && !(Need(g[k], remaining, LivePrice(g, live, |g|)) > g[k].capacity))
    requires exists k :: 0 <= k < |g| && live[k] && !live'[k]
    requires forall k :: 0 <= k < |g| && !live[k] ==> stakes'[member[k]] == stakes[member[k]]
    requires forall k :: 0 <= k < |g| && live[k] ==>
                           stakes'[member[k]] == StakeAt(g[k], remaining, LivePrice(g, live, |g|))
    requires remaining' == target - FrozenCents(g, live', |g|)
    ensures RoundInvariant(member, g, live', target, remaining', stakes')
  {
    if 0 < target <= CENTS_MAX {
      FrozenCentsExact(g, live, |g|);
      FrozenCentsNonNeg(g, live, |g|);
      forall k | 0 <= k < |g|
        ensures live'[k] <==> live[k] && Covers(g[k], remaining, LivePrice(g, live, |g|))
        ensures !live'[k] ==> FullPayout(g[k]) <= CENTS_MAX
      {
        NeedFits(g[k], remaining, LivePrice(g, live, |g|));
        if live[k] && !live'[k] {
          LivePriceNonNeg(g, live, |g|);
          ShareBounds(g[k], remaining, LivePrice(g, live, |g|));
          CeilLe(remaining * g[k].price, LivePrice(g, live, |g|), FullPayout(g[k]));
        }
      }
      FreezeRaisesLevel(g, live, live', target);
      FrozenCentsExact(g, live', |g|);
    }
  }

  lemma {:induction false} FrozenCentsNonNeg(g: seq<Chunk>, live: seq<bool>, k: nat)
    requires k <= |g| == |live|
    ensures FrozenCents(g, live, k) >= 0
  {
    if k > 0 {
      FrozenCentsNonNeg(g, live, k - 1);
      PayoutBounds(g[k - 1].price, g[k - 1].capacity);
    }
  }

  /** The stakes of a round are legal. */
  lemma {:induction false} RoundLegal(
    member: seq<nat>, g: seq<Chunk>, live: seq<bool>, remaining: int, stakes: seq<int>)
    requires |member| == |g| == |live| && forall k :: 0 <= k < |g| ==> member[k] < |stakes|
    requires remaining > 0 && LivePrice(g, live, |g|) > 0
    requires forall k :: 0 <= k < |g| && !live[k] ==> stakes[member[k]] == g[k].capacity
    requires forall k :: 0 <= k < |g| && live[k] ==>
                           stakes[member[k]] == StakeAt(g[k], remaining, LivePrice(g, live, |g|))
    ensures LegalMembers(member, g, stakes)
  {
    forall k | 0 <= k < |g|
      ensures 0 <= stakes[member[k]] <= g[k].capacity && stakes[member[k]] % g[k].increment == 0
    {
      StakeLegal(g[k], remaining, LivePrice(g, live, |g|));
      MultipleOf(g[k].resting / g[k].increment, g[k].increment);
    }
  }

  lemma {:induction false} FullDepthLegal(member: seq<nat>, g: seq<Chunk>, stakes: seq<int>)
    requires |member| == |g| && forall k :: 0 <= k < |g| ==> member[k] < |stakes|
    requires forall k :: 0 <= k < |g| ==> stakes[member[k]] == g[k].capacity
    ensures LegalMembers(member, g, stakes)
  {
    RestLegal(member, g, seq(|g|, _ => false), stakes);
  }

  lemma {:induction false} RestLegal(member: seq<nat>, g: seq<Chunk>, live: seq<bool>, stakes: seq<int>)
    requires |member| == |g| == |live| && forall k :: 0 <= k < |g| ==> member[k] < |stakes|
    requires forall k :: 0 <= k < |g| ==> stakes[member[k]] == if live[k] then 0 else g[k].capacity
    ensures LegalMembers(member, g, stakes)
  {
    forall k | 0 <= k < |g|
      ensures 0 <= stakes[member[k]] <= g[k].capacity && stakes[member[k]] % g[k].increment == 0
    {
      MultipleOf(g[k].resting / g[k].increment, g[k].increment);
    }
  }

  lemma {:induction false} NoneCounted(live: seq<bool>, k: nat)
    requires k <= |live|
    ensures FrozenCount(live, k) == 0 ==> forall i :: 0 <= i < k ==> live[i]
  {
    if k > 0 {
      NoneCounted(live, k - 1);
    }
  }

  /** A round that freezes nothing has found the level. */
  lemma {:induction false} RoundSettles(
    member: seq<nat>, g: seq<Chunk>, live: seq<bool>, target: int, remaining: int, stakes: seq<int>, stakes': seq<int>)
    requires |member| == |g| && forall k :: 0 <= k < |g| ==> member[k] < |stakes| && member[k] < |stakes'|
    requires RoundInvariant(member, g, live, target, remaining, stakes)
    requires remaining > 0 && LivePrice(g, live, |g|) > 0 && 0 < target <= CENTS_MAX
    requires forall k :: 0 <= k < |g| && live[k] ==> Need(g[k], remaining, LivePrice(g, live, |g|)) <= g[k].capacity
    requires forall k :: 0 <= k < |g| && !live[k] ==> stakes'[member[k]] == stakes[member[k]]
    requires forall k :: 0 <= k < |g| && live[k] ==>
                           stakes'[member[k]] == StakeAt(g[k], remaining, LivePrice(g, live, |g|))
    ensures RoundsResult(member, g, target, stakes')
  {
    FrozenCentsExact(g, live, |g|);
    forall k | 0 <= k < |g|
      ensures live[k] <==> Covers(g[k], remaining, LivePrice(g, live, |g|))
      ensures stakes'[member[k]] == StakeAt(g[k], remaining, LivePrice(g, live, |g|))
    {
      NeedFits(g[k], remaining, LivePrice(g, live, |g|));
    }
    assert IsLevel(g, live, target);
    LevelWithinReach(g, live, target);
    assert MatchesLevel(g, member, live, target, stakes');
  }

  /** With everything frozen and something left to pay, the target was out of reach. */
  lemma {:induction false} RoundsExhausted(
    member: seq<nat>, g: seq<Chunk>, live: seq<bool>, target: int, remaining: int, stakes: seq<int>)
    requires |member| == |g| && forall k :: 0 <= k < |g| ==> member[k] < |stakes|
    requires RoundInvariant(member, g, live, target, remaining, stakes)
    requires 0 < target <= CENTS_MAX
    requires forall k :: 0 <= k < |g| ==> !live[k]
    ensures RoundsResult(member, g, target, stakes)
  {
    FrozenCentsExact(g, live, |g|);
    NoneLive(g, live, |g|);
    AllFrozen(g, live, |g|);
  }

  lemma {:induction false} NoneLive(g: seq<Chunk>, live: seq<bool>, k: nat)
    requires k <= |g| == |live|
    requires forall i :: 0 <= i < k ==> !live[i]
    ensures LivePrice(g, live, k) == 0
  {
    if k > 0 {
      NoneLive(g, live, k - 1);
    }
  }

  lemma {:induction false} NoneFrozen(g: seq<Chunk>, live: seq<bool>, k: nat)
    requires k <= |g| == |live|
    requires forall i :: 0 <= i < k ==> live[i]
    ensures FrozenCents(g, live, k) == 0 && FrozenCount(live, k) == 0
  {
    if k > 0 {
      NoneFrozen(g, live, k - 1);
    }
  }

  /** Sum the live prices and count the live chunks. */
  method LivePriceSum(items: seq<Chunk>, member: seq<nat>, ghost g: seq<Chunk>, active: array<bool>)
    returns (priceSum: int, live: nat)
    requires IsGroup(items, member, g) && active.Length == |g|
    ensures priceSum == LivePrice(g, active[..], |g|)
    ensures live + FrozenCount(active[..], |g|) == |g|
  {
    priceSum, live := 0, 0;
    for k := 0 to |member|
      invariant priceSum == LivePrice(g, active[..], k)
      invariant live + FrozenCount(active[..], k) == k
    {
      if active[k] {
        priceSum := priceSum + items[member[k]].price;
        live := live + 1;
      }
    }
  }

  /** Nothing is left to pay, so what is still live stakes nothing. */
  method DropRest(
    member: seq<nat>, ghost g: seq<Chunk>, ghost items: seq<Chunk>, active: array<bool>, stakes: array<int>)
    requires IsGroup(items, member, g) && |items| <= stakes.Length && active.Length == |g|
    modifies stakes
    ensures forall k :: 0 <= k < |g| ==> stakes[member[k]] == if active[k] then 0 else old(stakes[member[k]])
    ensures forall j :: 0 <= j < stakes.Length && j !in member ==> stakes[j] == old(stakes[j])
  {
    for k := 0 to |member|
      invariant forall i :: 0 <= i < |g| ==>
                              stakes[member[i]] == if i < k && active[i] then 0 else old(stakes[member[i]])
      invariant forall j :: 0 <= j < stakes.Length && j !in member ==> stakes[j] == old(stakes[j])
    {
      if active[k] {
        stakes[member[k]] := 0;
      }
    }
  }

  /** The checks before a round: everything is frozen, or nothing is left to pay. */
  method StopsEarly(
    items: seq<Chunk>, member: seq<nat>, ghost g: seq<Chunk>, target: int, remaining: int,
    active: array<bool>, stakes: array<int>) returns (done: bool, priceSum: int)
    requires IsGroup(items, member, g) && |items| <= stakes.Length && active.Length == |g|
    requires RoundInvariant(member, g, active[..], target, remaining, stakes[..])
    modifies stakes
    ensures SameOutside(member, old(stakes[..]), stakes[..])
    ensures done ==> LegalMembers(member, g, stakes[..])
    ensures done && 0 < target <= CENTS_MAX ==> RoundsResult(member, g, target, stakes[..])
    ensures remaining <= 0 && FrozenCount(active[..], |g|) == 0 ==>
              done && forall k :: 0 <= k < |g| ==> stakes[member[k]] == 0
    ensures done ==> MemberStakes(member, stakes[..]) == Filled(g, active[..], target)
    ensures !done ==> stakes[..] == old(stakes[..]) && remaining > 0 && 0 < priceSum == LivePrice(g, active[..], |g|)
  {
    ghost var live0, stakes0 := active[..], stakes[..];
    var live;
    priceSum, live := LivePriceSum(items, member, g, active);
    if live == 0 {
      AllCounted(live0, |g|);
      FullDepthLegal(member, g, stakes0);
      if 0 < target <= CENTS_MAX {
        RoundsExhausted(member, g, live0, target, remaining, stakes0);
      }
      NoneLive(g, live0, |g|);
      EndsFilled(g, live0, target, MemberStakes(member, stakes0), MemberStakes(member, stakes[..]));
      return true, priceSum;
    }
    SomeLive(g, live0, |g|);
    if remaining <= 0 {
      DropRest(member, g, items, active, stakes);
      NoneCounted(live0, |g|);
      RestLegal(member, g, live0, stakes[..]);
      EndsFilled(g, live0, target, MemberStakes(member, stakes0), MemberStakes(member, stakes[..]));
      return true, priceSum;
    }
    done := false;
  }

  /** One round. It ends the filling, or freezes at least one more chunk. */
  method Round(
    items: seq<Chunk>, member: seq<nat>, ghost g: seq<Chunk>, target: int, remaining: int, frozenPayout: int,
    active: array<bool>, freeze: array<bool>, stakes: array<int>) returns (done: bool, frozen: int)
    requires IsGroup(items, member, g) && |items| <= stakes.Length
    requires active.Length == freeze.Length == |g| && active != freeze
    requires frozenPayout == FrozenCents(g, active[..], |g|)
    requires RoundInvariant(member, g, active[..], target, remaining, stakes[..])
    modifies active, freeze, stakes
    ensures SameOutside(member, old(stakes[..]), stakes[..])
    ensures LegalMembers(member, g, stakes[..])
    ensures done && 0 < target <= CENTS_MAX ==> RoundsResult(member, g, target, stakes[..])
    ensures remaining <= 0 && old(FrozenCount(active[..], |g|)) == 0 ==>
              done && forall k :: 0 <= k < |g| ==> stakes[member[k]] == 0
    ensures !done ==> frozen == FrozenCents(g, active[..], |g|)
    ensures !done ==> RoundInvariant(member, g, active[..], target, target - frozen, stakes[..])
    ensures !done ==> old(FrozenCount(active[..], |g|)) < FrozenCount(active[..], |g|)
    ensures done ==> MemberStakes(member, stakes[..]) == old(Filled(g, active[..], target))
    ensures !done ==> Filled(g, active[..], target) == old(Filled(g, active[..], target))
  {
    ghost var live0, stakes0 := active[..], stakes[..];
    frozen := frozenPayout;
    var priceSum;
    done, priceSum := StopsEarly(items, member, g, target, remaining, active, stakes);
    if done {
      return;
    }
    var cappedAny := ShareOut(items, member, g, active, remaining, priceSum, stakes, freeze);
    RoundLegal(member, g, live0, remaining, stakes[..]);
    if !cappedAny {
      RoundEnds(member, g, live0, target, remaining, stakes0, stakes[..]);
      return true, frozen;
    }
    frozen := FreezeCapped(items, member, g, active, freeze, stakes, frozenPayout);
    RoundGoesOn(member, g, live0, active[..], target, remaining, stakes0, stakes[..]);
    done := false;
  }

  /** A round that freezes nothing ends the filling. */
  lemma {:induction false} RoundEnds(
    member: seq<nat>, g: seq<Chunk>, live: seq<bool>, target: int, remaining: int, stakes: seq<int>, stakes': seq<int>)
    requires |member| == |g| && forall k :: 0 <= k < |g| ==> member[k] < |stakes| && member[k] < |stakes'|
    requires RoundInvariant(member, g, live, target, remaining, stakes)
    requires remaining > 0 && LivePrice(g, live, |g|) > 0
    requires forall k :: 0 <= k < |g| && live[k] ==> Need(g[k], remaining, LivePrice(g, live, |g|)) <= g[k].capacity
    requires forall k :: 0 <= k < |g| && !live[k] ==> stakes'[member[k]] == stakes[member[k]]
    requires forall k :: 0 <= k < |g| && live[k] ==>
                           stakes'[member[k]] == StakeAt(g[k], remaining, LivePrice(g, live, |g|))
    ensures 0 < target <= CENTS_MAX ==> RoundsResult(member, g, target, stakes')
    ensures MemberStakes(member, stakes') == Filled(g, live, target)
  {
    if 0 < target <= CENTS_MAX {
      RoundSettles(member, g, live, target, remaining, stakes, stakes');
    }
    EndsFilled(g, live, target, MemberStakes(member, stakes), MemberStakes(member, stakes'));
  }

  /** A round that freezes something leads to the same end. */
  lemma {:induction false} RoundGoesOn(
    member: seq<nat>, g: seq<Chunk>, live: seq<bool>, live': seq<bool>, target: int, remaining: int,
    stakes: seq<int>, stakes': seq<int>)
    requires |member| == |g| && forall k :: 0 <= k < |g| ==> member[k] < |stakes| && member[k] < |stakes'|
    requires RoundInvariant(member, g, live, target, remaining, stakes) && |live'| == |g|
    requires remaining > 0 && LivePrice(g, live, |g|) > 0
    requires forall k :: 0 <= k < |g| ==>
                           (live'[k] <==> live[k] && !(Need(g[k], remaining, LivePrice(g, live, |g|)) > g[k].capacity))
    requires exists k :: 0 <= k < |g| && live[k] && !live'[k]
    requires forall k :: 0 <= k < |g| && !live[k] ==> stakes'[member[k]] == stakes[member[k]]
    requires forall k :: 0 <= k < |g| && live[k] ==>
                           stakes'[member[k]] == StakeAt(g[k], remaining, LivePrice(g, live, |g|))
    ensures RoundInvariant(member, g, live', target, target - FrozenCents(g, live', |g|), stakes')
    ensures FrozenCount(live, |g|) < FrozenCount(live', |g|) && Filled(g, live', target) == Filled(g, live, target)
  {
    RoundKeeps(member, g, live, live', target, remaining, target - FrozenCents(g, live', |g|), stakes, stakes');
    CountGrows(live, live', |g|);
    FreezingKeepsEnd(g, live, live', target);
  }

  /** The rounds of one group: at most one per member, because each that does not end
      the loop freezes a chunk. */
  method FillRounds(
    items: seq<Chunk>, member: seq<nat>, ghost g: seq<Chunk>, target: int, stakes: array<int>)
    requires IsGroup(items, member, g) && |items| <= stakes.Length
    modifies stakes
    ensures LegalMembers(member, g, stakes[..])
    ensures SameOutside(member, old(stakes[..]), stakes[..])
    ensures 0 < target <= CENTS_MAX ==> RoundsResult(member, g, target, stakes[..])
    ensures target <= 0 ==> forall k :: 0 <= k < |g| ==> stakes[..][member[k]] == 0
    ensures MemberStakes(member, stakes[..]) == Filled(g, seq(|g|, _ => true), target)
  {
    var m := |member|;
    var active := new bool[m](_ => true);
    var freeze := new bool[m](_ => false);
    var remaining, frozenPayout := target, 0;
    NoneFrozen(g, active[..], m);
    assert active[..] == seq(m, _ => true);
    for round := 0 to m
      invariant frozenPayout == FrozenCents(g, active[..], m)
      invariant RoundInvariant(member, g, active[..], target, remaining, stakes[..])
      invariant round <= FrozenCount(active[..], m)
      invariant round == 0 ==> remaining == target && FrozenCount(active[..], m) == 0
      invariant Filled(g, active[..], target) == Filled(g, seq(m, _ => true), target)
      invariant round > 0 ==> target > 0 && LegalMembers(member, g, stakes[..])
      invariant forall j :: 0 <= j < stakes.Length && j !in member ==> stakes[j] == old(stakes[j])
    {
      var done;
      done, frozenPayout := Round(items, member, g, target, remaining, frozenPayout, active, freeze, stakes);
      if done {
        return;
      }
      remaining := target - frozenPayout;
    }
    AllCounted(active[..], m);
    NoneLive(g, active[..], m);
    if 0 < target <= CENTS_MAX {
      RoundsExhausted(member, g, active[..], target, remaining, stakes[..]);
    }
  }

  /** The member that buys the most payout per cent with one more increment. */
  method BestBump(items: seq<Chunk>, member: seq<nat>, ghost g: seq<Chunk>, stakes: array<int>)
    returns (best: Option<(nat, int, int)>, ghost at: nat)
    requires IsGroup(items, member, g) && |items| <= stakes.Length
    ensures best.None? ==> forall k :: 0 <= k < |g| ==> !HasRoom(g[k], stakes[member[k]])
    ensures best.Some? ==>
              && BestAmong(g, MemberStakes(member, stakes[..]), at, |g|)
              && best.value == (member[at], Gain(g[at], stakes[member[at]]), g[at].increment)
    ensures BestRoom(g, MemberStakes(member, stakes[..]), |g|) == if best.None? then None else Some(at)
  {
    ghost var view := MemberStakes(member, stakes[..]);
    best, at := None, 0;
    for i := 0 to |member|
      invariant BestRoom(g, view, i) == if best.None? then None else Some(at)
      invariant best.Some? ==> best.value == (member[at], Gain(g[at], view[at]), g[at].increment)
    {
      var j := member[i];
      var step := items[j].increment;
      if stakes[j] + step <= items[j].capacity {
        var gain := Payout(items[j].price, stakes[j] + step) - Payout(items[j].price, stakes[j]);
        if best.None? || gain * best.value.2 > best.value.1 * step {
          best, at := Some((j, gain, step)), i;
        }
      }
    }
    BestRoomIsBest(g, view, |g|);
  }

  lemma {:induction false} MemberPayoutBump(
    items: seq<Chunk>, stakes: seq<int>, member: seq<nat>, i: nat, stake: int, k: nat)
    requires i < |member| && k <= |member|
    requires forall a :: 0 <= a < |member| ==> member[a] < |items| && member[a] < |stakes|
    requires forall a, b :: 0 <= a < b < |member| ==> member[a] < member[b]
    ensures MemberPayout(items, stakes[member[i] := stake], member, k)
            == MemberPayout(items, stakes, member, k)
               + if i < k then Payout(items[member[i]].price, stake) - Payout(items[member[i]].price, stakes[member[i]])
                 else 0
  {
    if k > 0 {
      MemberPayoutBump(items, stakes, member, i, stake, k - 1);
    }
  }

  /** One repair step: the best bump, if any chunk has depth for one. */
  method BumpOnce(items: seq<Chunk>, member: seq<nat>, ghost g: seq<Chunk>, stakes: array<int>)
    returns (bumped: bool, gain: int)
    requires IsGroup(items, member, g) && |items| <= stakes.Length
    requires LegalMembers(member, g, stakes[..])
    modifies stakes
    ensures LegalMembers(member, g, stakes[..])
    ensures SameOutside(member, old(stakes[..]), stakes[..])
    ensures MemberPayout(items, stakes[..], member, |member|)
            == MemberPayout(items, old(stakes[..]), member, |member|) + gain
    ensures (forall k :: 0 <= k < |g| ==> old(stakes[..])[member[k]] == g[k].capacity) ==> !bumped
    ensures bumped <==> BestRoom(g, MemberStakes(member, old(stakes[..])), |g|).Some?
    ensures !bumped ==> stakes[..] == old(stakes[..]) && gain == 0
    ensures bumped ==> MemberStakes(member, stakes[..]) == Bumped(g, MemberStakes(member, old(stakes[..])))
  {
    var best, i := BestBump(items, member, g, stakes);
    if best.None? {
      return false, 0;
    }
    var (j, more, step) := best.value;
    ghost var before := stakes[..];
    BumpKeeps(items, member, g, before, i);
    stakes[j] := stakes[j] + step;
    assert stakes[..] == before[member[i] := before[member[i]] + g[i].increment];
    return true, more;
  }

  /** Changing one member's stake changes it alone. */
  lemma {:induction false} BumpedMember(member: seq<nat>, stakes: seq<int>, i: nat, stake: int)
    requires i < |member| && forall k :: 0 <= k < |member| ==> member[k] < |stakes|
    requires forall a, b :: 0 <= a < b < |member| ==> member[a] < member[b]
    ensures MemberStakes(member, stakes[member[i] := stake]) == MemberStakes(member, stakes)[i := stake]
  {
    forall k | 0 <= k < |member|
      ensures stakes[member[i] := stake][member[k]] == MemberStakes(member, stakes)[i := stake][k]
    {
      assert k < i ==> member[k] < member[i];
      assert i < k ==> member[i] < member[k];
    }
  }

  lemma {:induction false} PaidByMembers(items: seq<Chunk>, member: seq<nat>, g: seq<Chunk>, stakes: seq<int>, k: nat)
    requires IsGroup(items, member, g) && |items| <= |stakes| && k <= |g|
    ensures PaidBy(g, MemberStakes(member, stakes), k) == MemberPayout(items, stakes, member, k)
  {
    if k > 0 {
      PaidByMembers(items, member, g, stakes, k - 1);
    }
  }

  /** Close a gap the rounds left, one increment at a time, at most one per member. A
      plan that already pays, or has no depth left, is returned as it was. */
  method Repair(
    items: seq<Chunk>, member: seq<nat>, ghost g: seq<Chunk>, target: int, stakes: array<int>, paid: int)
    returns (payout: int)
    requires IsGroup(items, member, g) && |items| <= stakes.Length
    requires LegalMembers(member, g, stakes[..])
    requires paid == MemberPayout(items, stakes[..], member, |member|)
    modifies stakes
    ensures LegalMembers(member, g, stakes[..])
    ensures payout == MemberPayout(items, stakes[..], member, |member|)
    ensures SameOutside(member, old(stakes[..]), stakes[..])
    ensures target <= paid ==> stakes[..] == old(stakes[..])
    ensures (forall k :: 0 <= k < |g| ==> old(stakes[..])[member[k]] == g[k].capacity) ==>
              stakes[..] == old(stakes[..])
    ensures MemberStakes(member, stakes[..]) == Repaired(g, MemberStakes(member, old(stakes[..])), target, |g|)
  {
    payout := paid;
    ghost var start := stakes[..];
    for bumps := 0 to |member|
      invariant Repairing(items, member, g, target, start, stakes[..], payout, |g| - bumps)
    {
      var done;
      done, payout := RepairOnce(items, member, g, target, stakes, payout, start, |g| - bumps);
      if done {
        break;
      }
    }
    RepairDone(items, member, g, target, start, stakes[..], payout);
  }

  /** How far the repair has got: with `left` increments to go it ends where it would have. */
  ghost predicate Repairing(
    items: seq<Chunk>, member: seq<nat>, g: seq<Chunk>, target: int, start: seq<int>, now: seq<int>, payout: int,
    left: nat)
  {
    && IsGroup(items, member, g) && |items| <= |start| == |now|
    && LegalMembers(member, g, now) && SameOutside(member, start, now)
    && payout == MemberPayout(items, now, member, |member|)
    && Repaired(g, MemberStakes(member, now), target, left) == Repaired(g, MemberStakes(member, start), target, |g|)
  }

  /** A repair that had nothing to do changed nothing. */
  lemma {:induction false} RepairDone(
    items: seq<Chunk>, member: seq<nat>, g: seq<Chunk>, target: int, start: seq<int>, end: seq<int>, payout: int)
    requires Repairing(items, member, g, target, start, end, payout, 0)
    ensures MemberStakes(member, end) == Repaired(g, MemberStakes(member, start), target, |g|)
    ensures target <= MemberPayout(items, start, member, |member|) ==> end == start
    ensures (forall k :: 0 <= k < |g| ==> start[member[k]] == g[k].capacity) ==> end == start
  {
    PaidByMembers(items, member, g, start, |g|);
    RepairedUnchanged(g, MemberStakes(member, start), target, |g|);
    SameMembers(member, start, end);
  }

  /** Stop, or add one increment, on the way to the same end. */
  method RepairOnce(
    items: seq<Chunk>, member: seq<nat>, ghost g: seq<Chunk>, target: int, stakes: array<int>, paid: int,
    ghost start: seq<int>, ghost left: nat)
    returns (done: bool, payout: int)
    requires Repairing(items, member, g, target, start, stakes[..], paid, left) && left > 0
    modifies stakes
    ensures Repairing(items, member, g, target, start, stakes[..], payout, if done then 0 else left - 1)
  {
    PaidByMembers(items, member, g, stakes[..], |g|);
    RepairedUnchanged(g, MemberStakes(member, stakes[..]), target, left);
    if paid >= target {
      return true, paid;
    }
    var bumped, gain := BumpOnce(items, member, g, stakes);
    return !bumped, paid + gain;
  }

  /** Stakes that agree on the members and outside them agree. */
  lemma {:induction false} SameMembers(member: seq<nat>, a: seq<int>, b: seq<int>)
    requires SameOutside(member, a, b) && forall k :: 0 <= k < |member| ==> member[k] < |a|
    ensures MemberStakes(member, a) == MemberStakes(member, b) ==> a == b
  {
    if MemberStakes(member, a) == MemberStakes(member, b) {
      forall j | 0 <= j < |a|
        ensures a[j] == b[j]
      {
        if j in member {
          var k :| 0 <= k < |member| && member[k] == j;
          assert MemberStakes(member, a)[k] == MemberStakes(member, b)[k];
        }
      }
    }
  }

  ghost predicate SameOutside(member: seq<nat>, stakes: seq<int>, stakes': seq<int>) {
    |stakes| == |stakes'| && forall j :: 0 <= j < |stakes| && j !in member ==> stakes'[j] == stakes[j]
  }

  /** One more increment within depth is legal and adds its gain. */
  lemma {:induction false} BumpKeeps(items: seq<Chunk>, member: seq<nat>, g: seq<Chunk>, stakes: seq<int>, i: nat)
    requires IsGroup(items, member, g) && |items| <= |stakes| && i < |member|
    requires LegalMembers(member, g, stakes)
    requires stakes[member[i]] + g[i].increment <= g[i].capacity
    ensures var stakes' := stakes[member[i] := stakes[member[i]] + g[i].increment];
            && LegalMembers(member, g, stakes')
            && MemberPayout(items, stakes', member, |member|)
               == MemberPayout(items, stakes, member, |member|) + Gain(g[i], stakes[member[i]])
            && SameOutside(member, stakes, stakes')
            && MemberStakes(member, stakes')
               == MemberStakes(member, stakes)[i := stakes[member[i]] + g[i].increment]
  {
    var c, stake := g[i], stakes[member[i]];
    BumpedMember(member, stakes, i, stake + c.increment);
    MultipleSum(stake, c.increment, c.increment);
    MemberPayoutBump(items, stakes, member, i, stake + c.increment, |member|);
  }

  /** What sizing a group does to the stakes. It touches no other outcome, leaves the group
      legally staked and as its plan says, and succeeds exactly when that pays the target. For
      every positive target money can express it succeeds exactly when depth reaches the target:
      then the stakes are those of the water level, and otherwise full depth. */
  ghost predicate Sizes(
    items: seq<Chunk>, group: nat, target: int, before: seq<int>, after: seq<int>, result: Option<int>)
    requires |items| <= |before| == |after|
  {
    && (forall j :: 0 <= j < |after| && (j >= |items| || items[j].group != group) ==> after[j] == before[j])
    && (forall j :: 0 <= j < |items| && items[j].group == group ==>
                      0 <= after[j] <= items[j].capacity && after[j] % items[j].increment == 0)
    && GroupPlanned(items, target, after, group)
    && var paid := GroupPayout(items, after, group, |items|);
       && result == (if paid < target then None else Some(paid))
       && (target <= 0 ==> result.Some?)
       && (0 < target <= CENTS_MAX ==>
             && (result.Some? <==> target <= Reach(GroupOf(items, group), |GroupOf(items, group)|))
             && (result.Some? ==> GroupFilled(items, group, target, after))
             && (result.None? ==> forall j :: 0 <= j < |items| && items[j].group == group ==>
                                                after[j] == items[j].capacity))
  }

  /** Size a group for a target. */
  method Distribute(items: seq<Chunk>, group: nat, target: int, stakes: array<int>) returns (result: Option<int>)
    requires |items| <= stakes.Length
    modifies stakes
    ensures Sizes(items, group, target, old(stakes[..]), stakes[..], result)
  {
    var member := CollectMembers(items, group);
    MembersAscend(items, group, |items|);
    ghost var start := stakes[..];
    var payout := FillAndRepair(items, group, member, target, stakes);
    Distributed(items, group, target, start, stakes[..]);
    if payout < target {
      return None;
    }
    return Some(payout);
  }

  /** The rounds and then the repair step. */
  method FillAndRepair(items: seq<Chunk>, ghost group: nat, member: seq<nat>, target: int, stakes: array<int>)
    returns (payout: int)
    requires |items| <= stakes.Length && member == Members(items, group, |items|)
    requires IsGroup(items, member, GroupOf(items, group))
    modifies stakes
    ensures payout == MemberPayout(items, stakes[..], member, |member|)
    ensures Repairs(items, group, target, old(stakes[..]), stakes[..])
  {
    ghost var g, start := GroupOf(items, group), stakes[..];
    FillRounds(items, member, g, target, stakes);
    ghost var filled := stakes[..];
    payout := PayoutOf(items, member, stakes);
    payout := Repair(items, member, g, target, stakes, payout);
    OutsideTwice(member, start, filled, stakes[..]);
    assert RepairedFrom(items, member, g, target, start, filled, stakes[..]);
  }

  lemma {:induction false} OutsideTwice(member: seq<nat>, a: seq<int>, b: seq<int>, c: seq<int>)
    requires SameOutside(member, a, b) && SameOutside(member, b, c)
    ensures SameOutside(member, a, c)
  {
  }

  /** Some end of the rounds was repaired to these stakes. */
  ghost predicate Repairs(items: seq<Chunk>, group: nat, target: int, start: seq<int>, end: seq<int>) {
    exists filled ::
      RepairedFrom(items, Members(items, group, |items|), GroupOf(items, group), target, start, filled, end)
  }

  ghost predicate RepairedFrom(
    items: seq<Chunk>, member: seq<nat>, g: seq<Chunk>, target: int, start: seq<int>, filled: seq<int>, end: seq<int>)
  {
    && IsGroup(items, member, g) && |items| <= |start| == |filled| == |end|
    && LegalMembers(member, g, filled) && LegalMembers(member, g, end) && SameOutside(member, start, end)
    && MemberStakes(member, filled) == Filled(g, seq(|g|, _ => true), target)
    && MemberStakes(member, end) == Repaired(g, MemberStakes(member, filled), target, |g|)
    && (0 < target <= CENTS_MAX ==> RoundsResult(member, g, target, filled))
    && (target <= MemberPayout(items, filled, member, |member|) ==> end == filled)
    && ((forall k :: 0 <= k < |g| ==> filled[member[k]] == g[k].capacity) ==> end == filled)
  }

  /** What the rounds and the repair step leave of a group. */
  lemma {:induction false} Distributed(
    items: seq<Chunk>, group: nat, target: int, start: seq<int>, end: seq<int>)
    requires Repairs(items, group, target, start, end) && |items| <= |start| == |end|
    ensures var paid := MemberPayout(items, end, Members(items, group, |items|), |Members(items, group, |items|)|);
            Sizes(items, group, target, start, end, if paid < target then None else Some(paid))
  {
    var g, member := GroupOf(items, group), Members(items, group, |items|);
    var filled :| RepairedFrom(items, member, g, target, start, filled, end);
    OnlyMembersChanged(items, member, group, start, end);
    GroupPayoutByMembers(items, end, group, |items|);
    MemberPayoutBelow(items, end, member, g, |member|);
    if 0 < target <= CENTS_MAX {
      RoundsDecide(items, member, group, target, filled);
      assert end == filled;
      if target > Reach(g, |g|) {
        FullMembers(items, member, group, end);
      }
    }
  }

  lemma {:induction false} FullMembers(items: seq<Chunk>, member: seq<nat>, group: nat, stakes: seq<int>)
    requires |items| <= |stakes| && member == Members(items, group, |items|)
    requires forall k :: 0 <= k < |member| ==> stakes[member[k]] == items[member[k]].capacity
    ensures forall j :: 0 <= j < |items| && items[j].group == group ==> stakes[j] == items[j].capacity
  {
    MembersAscend(items, group, |items|);
    forall j | 0 <= j < |items| && items[j].group == group
      ensures stakes[j] == items[j].capacity
    {
      var k :| 0 <= k < |member| && member[k] == j;
    }
  }

  method PayoutOf(items: seq<Chunk>, member: seq<nat>, stakes: array<int>) returns (payout: int)
    requires forall k :: 0 <= k < |member| ==> member[k] < |items| && member[k] < stakes.Length
    ensures payout == MemberPayout(items, stakes[..], member, |member|)
  {
    payout := 0;
    for k := 0 to |member|
      invariant payout == MemberPayout(items, stakes[..], member, k)
    {
      payout := payout + Payout(items[member[k]].price, stakes[member[k]]);
    }
  }

  lemma {:induction false} OnlyMembersChanged(
    items: seq<Chunk>, member: seq<nat>, group: nat, start: seq<int>, stakes: seq<int>)
    requires |items| <= |stakes| && member == Members(items, group, |items|)
    requires SameOutside(member, start, stakes)
    requires IsGroup(items, member, GroupOf(items, group)) && LegalMembers(member, GroupOf(items, group), stakes)
    ensures forall j :: 0 <= j < |stakes| && (j >= |items| || items[j].group != group) ==> stakes[j] == start[j]
    ensures forall j :: 0 <= j < |items| && items[j].group == group ==>
                          0 <= stakes[j] <= items[j].capacity && stakes[j] % items[j].increment == 0
  {
    MembersAscend(items, group, |items|);
    forall j | 0 <= j < |items| && items[j].group == group
      ensures 0 <= stakes[j] <= items[j].capacity && stakes[j] % items[j].increment == 0
    {
      var k :| 0 <= k < |member| && member[k] == j;
      assert GroupOf(items, group)[k] == items[j];
    }
  }

  /** What the rounds leave for the repair step: nothing. Either the level already pays
      the target, or every chunk is at full depth and the target is out of reach. */
  lemma {:induction false} RoundsDecide(items: seq<Chunk>, member: seq<nat>, group: nat, target: int, stakes: seq<int>)
    requires |items| <= |stakes| && member == Members(items, group, |items|)
    requires var g := GroupOf(items, group);
             && IsGroup(items, member, g)
             && LegalMembers(member, g, stakes)
             && (0 < target <= CENTS_MAX ==> RoundsResult(member, g, target, stakes))
    ensures var g := GroupOf(items, group);
            0 < target <= CENTS_MAX ==>
              (target <= MemberPayout(items, stakes, member, |member|) <==> target <= Reach(g, |g|))
    ensures 0 < target <= CENTS_MAX && MemberPayout(items, stakes, member, |member|) < target ==>
              forall k :: 0 <= k < |member| ==> stakes[member[k]] == items[member[k]].capacity
    ensures MemberPayout(items, stakes, member, |member|) >= 0
  {
    var g := GroupOf(items, group);
    MemberPayoutBelow(items, stakes, member, g, |member|);
    if 0 < target <= CENTS_MAX && target <= Reach(g, |g|) {
      assert GroupFilled(items, group, target, stakes);
      FilledGroupPays(items, group, target, stakes);
      GroupPayoutByMembers(items, stakes, group, |items|);
    }
  }

  /** Legal stakes never pay more than full depth. */
  lemma {:induction false} MemberPayoutBelow(
    items: seq<Chunk>, stakes: seq<int>, member: seq<nat>, g: seq<Chunk>, k: nat)
    requires IsGroup(items, member, g) && |items| <= |stakes| && k <= |member|
    requires LegalMembers(member, g, stakes)
    ensures 0 <= MemberPayout(items, stakes, member, k) <= Reach(g, k)
  {
    if k > 0 {
      MemberPayoutBelow(items, stakes, member, g, k - 1);
      PayoutBounds(g[k - 1].price, stakes[member[k - 1]]);
      GrossMono(g[k - 1].price, stakes[member[k - 1]], g[k - 1].capacity);
    }
  }
}
