/** The stakes of one outcome group as a function of the target: the rounds that freeze
    overwhelmed chunks, and the repair step behind them. Together with the search range they
    determine every plan the search weighs. */
module Rounds {
  import opened Arith
  import opened Price
  import opened WaterFill
  import opened Plans
  import opened Quotes

  // ---- Frozen chunks ----

  /** Clamped full-depth payout of the frozen chunks among the first `k`. */
  function FrozenCents(g: seq<Chunk>, live: seq<bool>, k: nat): int
    requires k <= |g| == |live|
  {
    if k == 0 then 0
    else FrozenCents(g, live, k - 1) + if live[k - 1] then 0 else Payout(g[k - 1].price, g[k - 1].capacity)
  }

  function FrozenCount(live: seq<bool>, k: nat): (n: nat)
    requires k <= |live|
    ensures n <= k
  {
    if k == 0 then 0 else FrozenCount(live, k - 1) + if live[k - 1] then 0 else 1
  }

  lemma {:induction false} FreezeOne(g: seq<Chunk>, live: seq<bool>, i: nat, k: nat)
    requires i < |g| == |live| && k <= |g| && live[i]
    ensures FrozenCents(g, live[i := false], k)
            == FrozenCents(g, live, k) + if i < k then Payout(g[i].price, g[i].capacity) else 0
  {
    if k > 0 {
      FreezeOne(g, live, i, k - 1);
    }
  }

  lemma {:induction false} CountGrows(live: seq<bool>, live': seq<bool>, k: nat)
    requires k <= |live| == |live'|
    requires forall i :: 0 <= i < k && live'[i] ==> live[i]
    ensures FrozenCount(live, k) <= FrozenCount(live', k)
    ensures (exists i :: 0 <= i < k && live[i] && !live'[i]) ==> FrozenCount(live, k) < FrozenCount(live', k)
  {
    if k > 0 {
      CountGrows(live, live', k - 1);
    }
  }

  lemma {:induction false} AllCounted(live: seq<bool>, k: nat)
    requires k <= |live| && FrozenCount(live, k) == k
    ensures forall i :: 0 <= i < k ==> !live[i]
  {
    if k > 0 {
      AllCounted(live, k - 1);
    }
  }

  lemma {:induction false} SomeLive(g: seq<Chunk>, live: seq<bool>, k: nat)
    requires k <= |g| == |live| && FrozenCount(live, k) < k
    ensures LivePrice(g, live, k) > 0
  {
    LivePriceNonNeg(g, live, k - 1);
    if live[k - 1] {
    } else {
      SomeLive(g, live, k - 1);
    }
  }

  // ---- The rounds ----

  /** The stakes of a group's members. */
  function MemberStakes(member: seq<nat>, stakes: seq<int>): (r: seq<int>)
    requires forall k :: 0 <= k < |member| ==> member[k] < |stakes|
    ensures |r| == |member| && forall k :: 0 <= k < |r| ==> r[k] == stakes[member[k]]
  {
    seq(|member|, k requires 0 <= k < |member| => stakes[member[k]])
  }

  /** Frozen chunks stake their full depth; the live ones what a round gives them. */
  function RoundStakes(g: seq<Chunk>, live: seq<bool>, remaining: int, priceSum: int): (r: seq<int>)
    requires |g| == |live| && priceSum > 0
    ensures |r| == |g|
  {
    seq(|g|, k requires 0 <= k < |g| => if live[k] then StakeAt(g[k], remaining, priceSum) else g[k].capacity)
  }

  /** The chunks a round leaves live. */
  function StillLive(g: seq<Chunk>, live: seq<bool>, remaining: int, priceSum: int): (r: seq<bool>)
    requires |g| == |live| && priceSum > 0
    ensures |r| == |g|
  {
    seq(|g|, k requires 0 <= k < |g| => live[k] && Need(g[k], remaining, priceSum) <= g[k].capacity)
  }

  /** The stakes the rounds end at, from a set of live chunks on. */
  function Filled(g: seq<Chunk>, live: seq<bool>, target: int): (r: seq<int>)
    requires |g| == |live|
    ensures |r| == |g|
    decreases |g| - FrozenCount(live, |g|)
  {
    var remaining, priceSum := target - FrozenCents(g, live, |g|), LivePrice(g, live, |g|);
    if priceSum <= 0 then seq(|g|, k requires 0 <= k < |g| => g[k].capacity)
    else if remaining <= 0 then seq(|g|, k requires 0 <= k < |g| => if live[k] then 0 else g[k].capacity)
    else
      var next := StillLive(g, live, remaining, priceSum);
      if next == live then RoundStakes(g, live, remaining, priceSum)
      else
        SomeFrozen(live, next);
        CountGrows(live, next, |g|);
        Filled(g, next, target)
  }

  lemma {:induction false} SomeFrozen(live: seq<bool>, next: seq<bool>)
    requires |live| == |next| && next != live && forall k :: 0 <= k < |live| && next[k] ==> live[k]
    ensures exists k :: 0 <= k < |live| && live[k] && !next[k]
  {
    assert exists k :: 0 <= k < |live| && live[k] != next[k];
  }

  /** What the members are staked when the rounds end: everything is frozen, nothing is left to
      pay, or no live chunk is overwhelmed. */
  ghost predicate Ends(
    g: seq<Chunk>, live: seq<bool>, target: int, before: seq<int>, after: seq<int>)
    requires |g| == |live| == |before| == |after|
  {
    var remaining, priceSum := target - FrozenCents(g, live, |g|), LivePrice(g, live, |g|);
    && (forall k :: 0 <= k < |g| && !live[k] ==> before[k] == after[k] == g[k].capacity)
    && (priceSum > 0 ==>
          if remaining <= 0 then forall k :: 0 <= k < |g| && live[k] ==> after[k] == 0
          else
            forall k :: 0 <= k < |g| && live[k] ==>
                          && after[k] == StakeAt(g[k], remaining, priceSum)
                          && Need(g[k], remaining, priceSum) <= g[k].capacity)
  }

  lemma {:induction false} EndsFilled(
    g: seq<Chunk>, live: seq<bool>, target: int, before: seq<int>, after: seq<int>)
    requires |g| == |live| == |before| == |after| && Ends(g, live, target, before, after)
    ensures after == Filled(g, live, target)
  {
    var remaining, priceSum := target - FrozenCents(g, live, |g|), LivePrice(g, live, |g|);
    if priceSum <= 0 {
      NothingLive(g, live, |g|);
    } else if remaining > 0 {
      assert StillLive(g, live, remaining, priceSum) == live;
    }
  }

  /** Without a live price nothing is live. */
  lemma {:induction false} NothingLive(g: seq<Chunk>, live: seq<bool>, k: nat)
    requires k <= |g| == |live| && LivePrice(g, live, k) <= 0
    ensures forall i :: 0 <= i < k ==> !live[i]
  {
    if k > 0 {
      LivePriceNonNeg(g, live, k - 1);
      NothingLive(g, live, k - 1);
    }
  }

  /** A round that freezes some chunks leaves the end of the rounds as it was. */
  lemma {:induction false} FreezingKeepsEnd(g: seq<Chunk>, live: seq<bool>, next: seq<bool>, target: int)
    requires |g| == |live| == |next| && LivePrice(g, live, |g|) > 0 && target > FrozenCents(g, live, |g|)
    requires next == StillLive(g, live, target - FrozenCents(g, live, |g|), LivePrice(g, live, |g|))
    ensures Filled(g, next, target) == Filled(g, live, target) || next == live
  {
  }

  // ---- The repair step ----

  /** What one more increment on a chunk would add to its payout. */
  function Gain(c: Chunk, stake: int): int {
    Payout(c.price, stake + c.increment) - Payout(c.price, stake)
  }

  predicate HasRoom(c: Chunk, stake: int) {
    stake + c.increment <= c.capacity
  }

  /** What the first `k` chunks of a group pay. */
  function PaidBy(g: seq<Chunk>, stakes: seq<int>, k: nat): int
    requires k <= |g| == |stakes|
  {
    if k == 0 then 0 else PaidBy(g, stakes, k - 1) + Payout(g[k - 1].price, stakes[k - 1])
  }

  /** The first of the first `n` chunks with room whose next increment buys the most payout
      per cent. */
  function BestRoom(g: seq<Chunk>, stakes: seq<int>, n: nat): (best: Option<nat>)
    requires n <= |g| == |stakes|
    ensures best.Some? ==> best.value < n
  {
    if n == 0 then None
    else
      var best := BestRoom(g, stakes, n - 1);
      if !HasRoom(g[n - 1], stakes[n - 1]) then best
      else if best.None? then Some(n - 1)
      else
        if NoBetter(g, stakes, n - 1, best.value) then best else Some(n - 1)
  }

  /** Payout per cent is a transitive order: what loses to the incumbent loses to
      whatever beats the incumbent. */
  lemma {:induction false} BetterRatio(gain': int, step': int, bg: int, bs: int, gain: int, step: int)
    requires step' > 0 && bs > 0 && step > 0
    requires gain' * bs <= bg * step' && bg * step < gain * bs
    ensures gain' * step <= gain * step'
  {
    MulLe(gain' * bs, bg * step', step);
    MulLe(bg * step, gain * bs, step');
    assert (gain' * bs) * step == (gain' * step) * bs;
    assert (bg * step') * step == (bg * step) * step';
    assert (gain * bs) * step' == (gain * step') * bs;
    CancelLe(gain' * step, gain * step', bs);
  }

  /** Of the first `n` chunks, one with room for one more increment that buys the most payout
      per cent. */
  ghost predicate BestAmong(g: seq<Chunk>, stakes: seq<int>, i: nat, n: nat)
    requires |g| == |stakes|
  {
    && i < n <= |g| && HasRoom(g[i], stakes[i])
    && forall k :: 0 <= k < n && HasRoom(g[k], stakes[k]) ==> NoBetter(g, stakes, k, i)
  }

  /** Chunk `k` buys no more payout per cent than chunk `i`. */
  predicate NoBetter(g: seq<Chunk>, stakes: seq<int>, k: nat, i: nat)
    requires |g| == |stakes| && k < |g| && i < |g|
  {
    Gain(g[k], stakes[k]) * g[i].increment <= Gain(g[i], stakes[i]) * g[k].increment
  }

  /** The scan finds one, or there is none with room. */
  lemma {:induction false} BestRoomIsBest(g: seq<Chunk>, stakes: seq<int>, n: nat)
    requires n <= |g| == |stakes|
    ensures var best := BestRoom(g, stakes, n);
            if best.None? then forall k :: 0 <= k < n ==> !HasRoom(g[k], stakes[k])
            else BestAmong(g, stakes, best.value, n)
  {
    if n > 0 {
      BestRoomIsBest(g, stakes, n - 1);
      var best := BestRoom(g, stakes, n - 1);
      if best.Some? && HasRoom(g[n - 1], stakes[n - 1]) && !NoBetter(g, stakes, n - 1, best.value) {
        BeatsAll(g, stakes, best.value, n - 1);
      }
    }
  }

  /** A chunk that beats the incumbent beats all the incumbent beat. */
  lemma {:induction false} BeatsAll(g: seq<Chunk>, stakes: seq<int>, i: nat, n: nat)
    requires |g| == |stakes| && BestAmong(g, stakes, i, n) && n < |g|
    requires HasRoom(g[n], stakes[n]) && !NoBetter(g, stakes, n, i)
    ensures BestAmong(g, stakes, n, n + 1)
  {
    forall k | 0 <= k < n && HasRoom(g[k], stakes[k])
      ensures NoBetter(g, stakes, k, n)
    {
      assert NoBetter(g, stakes, k, i);
      BetterRatio(Gain(g[k], stakes[k]), g[k].increment, Gain(g[i], stakes[i]), g[i].increment,
                  Gain(g[n], stakes[n]), g[n].increment);
    }
  }

  /** One more increment where it buys most. */
  function Bumped(g: seq<Chunk>, stakes: seq<int>): (r: seq<int>)
    requires |g| == |stakes| && BestRoom(g, stakes, |g|).Some?
    ensures |r| == |g|
  {
    var i := BestRoom(g, stakes, |g|).value;
    stakes[i := stakes[i] + g[i].increment]
  }

  /** At most `n` increments, while the target is not paid and some chunk has room. */
  function Repaired(g: seq<Chunk>, stakes: seq<int>, target: int, n: nat): (r: seq<int>)
    requires |g| == |stakes|
    ensures |r| == |g|
    decreases n
  {
    if n == 0 || PaidBy(g, stakes, |g|) >= target || BestRoom(g, stakes, |g|).None? then stakes
    else Repaired(g, Bumped(g, stakes), target, n - 1)
  }

  /** A paid target, or full depth, leaves nothing to repair. */
  lemma {:induction false} RepairedUnchanged(g: seq<Chunk>, stakes: seq<int>, target: int, n: nat)
    requires |g| == |stakes|
    ensures PaidBy(g, stakes, |g|) >= target || BestRoom(g, stakes, |g|).None? ==>
              Repaired(g, stakes, target, n) == stakes
    ensures (forall k :: 0 <= k < |g| ==> stakes[k] == g[k].capacity) ==>
              BestRoom(g, stakes, |g|).None? && Repaired(g, stakes, target, n) == stakes
  {
    BestRoomIsBest(g, stakes, |g|);
  }

  /** The stakes of a group for a target. */
  function GroupPlan(g: seq<Chunk>, target: int): (r: seq<int>)
    ensures |r| == |g|
  {
    Repaired(g, Filled(g, seq(|g|, _ => true), target), target, |g|)
  }

  // ---- The plan of a target, over all groups ----

  /** Every group is staked as its plan says, and nothing else is. */
  ghost predicate IsPlanFor(c: Chunks, target: int, stakes: seq<int>) {
    && |c.items| <= MAX_CHUNKS == |stakes|
    && (forall group :: 0 <= group < c.nGroups ==> GroupPlanned(c.items, target, stakes, group))
    && (forall j :: |c.items| <= j < MAX_CHUNKS ==> stakes[j] == 0)
  }

  ghost predicate GroupPlanned(items: seq<Chunk>, target: int, stakes: seq<int>, group: nat)
    requires |items| <= |stakes|
  {
    MemberStakes(Members(items, group, |items|), stakes) == GroupPlan(GroupOf(items, group), target)
  }

  /** A target determines its plan, whether money can express it or not. */
  lemma {:induction false} PlanForUnique(c: Chunks, target: int, a: seq<int>, b: seq<int>)
    requires Grouped(c) && IsPlanFor(c, target, a) && IsPlanFor(c, target, b)
    ensures a == b
  {
    forall j | 0 <= j < MAX_CHUNKS
      ensures a[j] == b[j]
    {
      if j < |c.items| {
        var group := c.items[j].group;
        MembersAscend(c.items, group, |c.items|);
        var ms := Members(c.items, group, |c.items|);
        var k :| 0 <= k < |ms| && ms[k] == j;
        assert GroupPlanned(c.items, target, a, group) && GroupPlanned(c.items, target, b, group);
        assert MemberStakes(ms, a)[k] == MemberStakes(ms, b)[k];
      }
    }
  }
}
