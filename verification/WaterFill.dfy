/** The water level of one outcome group, and why it is unique and monotone.

    A group is the sequence of chunks that back one outcome. Asking the group for a
    payout target splits the target over the chunks in proportion to price; a chunk
    whose share exceeds what its depth can pay is frozen at full depth and the rest of
    the target is split again. This module states what that process converges to
    without mentioning rounds: a set of live chunks such that a chunk is live exactly
    when its share, at the level this very set produces, is within its depth. */
module WaterFill {
  import opened Arith
  import opened Price

  /** One (leg, level) chunk, fees already in the price. `resting` is the depth before
      it was floored to a whole number of increments. */
  datatype ChunkData = ChunkData(
    leg: nat, group: nat, price: Prob, increment: int, capacity: int, resting: int)

  /** A chunk takes at least one increment, and a whole number of them. */
  type Chunk = c: ChunkData | c.increment > 0 && c.capacity >= c.increment
                              && c.capacity == RoundDownTo(c.resting, c.increment)
    witness ChunkData(0, 0, 1, 1, 1, 1)

  /** `value` raised to a whole number of steps. */
  function RoundUpTo(value: int, step: int): int
    requires step > 0
  {
    CeilDiv(value, step) * step
  }

  /** `value` lowered to a whole number of steps. */
  function RoundDownTo(value: int, step: int): int
    requires step > 0
  {
    (value / step) * step
  }

  /** What a chunk pays at full depth. */
  function FullPayout(c: Chunk): int {
    GrossPayout(c.price, c.capacity)
  }

  /** A chunk's share of a payout of `remaining` split over prices summing to `priceSum`. */
  function Share(c: Chunk, remaining: int, priceSum: int): int
    requires priceSum > 0
  {
    CeilDiv(remaining * c.price, priceSum)
  }

  /** The stake that buys that share, rounded up to something the venue accepts. */
  function Need(c: Chunk, remaining: int, priceSum: int): int
    requires priceSum > 0
  {
    RoundUpTo(CeilDiv(Share(c, remaining, priceSum) * c.price, PPM), c.increment)
  }

  /** That stake, or full depth if it does not fit. */
  function StakeAt(c: Chunk, remaining: int, priceSum: int): int
    requires priceSum > 0
  {
    if Need(c, remaining, priceSum) > c.capacity then c.capacity else Need(c, remaining, priceSum)
  }

  /** Sum of the prices of the live chunks among the first `k`. */
  function LivePrice(g: seq<Chunk>, live: seq<bool>, k: nat): int
    requires k <= |g| == |live|
  {
    if k == 0 then 0 else LivePrice(g, live, k - 1) + if live[k - 1] then g[k - 1].price else 0
  }

  /** Full-depth payout of the frozen chunks among the first `k`. */
  function FrozenPayout(g: seq<Chunk>, live: seq<bool>, k: nat): int
    requires k <= |g| == |live|
  {
    if k == 0 then 0
    else FrozenPayout(g, live, k - 1) + if live[k - 1] then 0 else FullPayout(g[k - 1])
  }

  /** Full-depth payout of the first `k` chunks. */
  function Reach(g: seq<Chunk>, k: nat): int
    requires k <= |g|
  {
    if k == 0 then 0 else Reach(g, k - 1) + FullPayout(g[k - 1])
  }

  /** What is left of the target once the frozen chunks have paid. */
  function Remaining(g: seq<Chunk>, live: seq<bool>, target: int): int
    requires |g| == |live|
  {
    target - FrozenPayout(g, live, |g|)
  }

  /** Whether a chunk's depth covers its share at the level `remaining / priceSum`. */
  predicate Covers(c: Chunk, remaining: int, priceSum: int) {
    remaining * c.price <= FullPayout(c) * priceSum
  }

  /** The water level: live chunks are exactly those whose share fits their depth. */
  ghost predicate IsLevel(g: seq<Chunk>, live: seq<bool>, target: int) {
    && |g| == |live|
    && LivePrice(g, live, |g|) > 0
    && forall k :: 0 <= k < |g| ==>
                     (live[k] <==> Covers(g[k], Remaining(g, live, target), LivePrice(g, live, |g|)))
  }

  lemma {:induction false} LivePriceNonNeg(g: seq<Chunk>, live: seq<bool>, k: nat)
    requires k <= |g| == |live|
    ensures LivePrice(g, live, k) >= 0
    ensures forall i :: 0 <= i < k && live[i] ==> g[i].price <= LivePrice(g, live, k)
  {
    if k > 0 {
      LivePriceNonNeg(g, live, k - 1);
    }
  }

  /** With every chunk frozen, the frozen payout is the reach. */
  lemma {:induction false} AllFrozen(g: seq<Chunk>, live: seq<bool>, k: nat)
    requires k <= |g| == |live|
    requires LivePrice(g, live, k) == 0
    ensures FrozenPayout(g, live, k) == Reach(g, k)
  {
    if k > 0 {
      LivePriceNonNeg(g, live, k - 1);
      AllFrozen(g, live, k - 1);
    }
  }

  lemma {:induction false} AllLive(g: seq<Chunk>, live: seq<bool>, k: nat)
    requires k <= |g| == |live|
    requires forall i :: 0 <= i < k ==> live[i]
    ensures FrozenPayout(g, live, k) == 0
  {
    if k > 0 {
      AllLive(g, live, k - 1);
    }
  }

  /** Depth, share and stake agree on what fits: a chunk needs more than its depth
      exactly when its depth does not cover its share. */
  lemma {:induction false} NeedFits(c: Chunk, remaining: int, priceSum: int)
    requires priceSum > 0
    ensures Need(c, remaining, priceSum) <= c.capacity <==> Covers(c, remaining, priceSum)
  {
    var share := Share(c, remaining, priceSum);
    var cost := CeilDiv(share * c.price, PPM);
    var lots := c.resting / c.increment;
    CeilLe(cost, c.increment, lots);
    if CeilDiv(cost, c.increment) <= lots {
      MulLe(CeilDiv(cost, c.increment), lots, c.increment);
    } else {
      MulLt(lots, CeilDiv(cost, c.increment), c.increment);
    }
    assert Need(c, remaining, priceSum) <= c.capacity <==> cost <= c.capacity;
    CeilLe(share * c.price, PPM, c.capacity);
    FloorGe(c.capacity * PPM, c.price, share);
    CeilLe(remaining * c.price, priceSum, FullPayout(c));
  }

  /** A live chunk's share is part of what remains. */
  lemma {:induction false} ShareBounds(c: Chunk, remaining: int, priceSum: int)
    requires c.price <= priceSum && remaining > 0
    ensures 0 < Share(c, remaining, priceSum) <= remaining
  {
    MulLe(c.price, priceSum, remaining);
    CeilLe(remaining * c.price, priceSum, remaining);
    CeilLe(remaining * c.price, priceSum, 0);
    assert remaining * c.price > 0;
  }

  /** Whatever the level, a positive remainder buys a legal stake. */
  lemma {:induction false} StakeLegal(c: Chunk, remaining: int, priceSum: int)
    requires priceSum > 0 && remaining > 0
    ensures 0 < StakeAt(c, remaining, priceSum) <= c.capacity
    ensures StakeAt(c, remaining, priceSum) % c.increment == 0
  {
    var share := Share(c, remaining, priceSum);
    assert remaining * c.price > 0;
    CeilLe(remaining * c.price, priceSum, 0);
    assert share * c.price > 0;
    CeilLe(share * c.price, PPM, 0);
    var cost := CeilDiv(share * c.price, PPM);
    CeilLe(cost, c.increment, 0);
    assert CeilDiv(cost, c.increment) * c.increment > 0;
    MultipleOf(CeilDiv(cost, c.increment), c.increment);
    MultipleOf(c.resting / c.increment, c.increment);
  }

  /** A covered chunk pays at least its share. */
  lemma {:induction false} StakePays(c: Chunk, remaining: int, priceSum: int)
    requires priceSum > 0 && Covers(c, remaining, priceSum)
    ensures Share(c, remaining, priceSum) <= GrossPayout(c.price, StakeAt(c, remaining, priceSum))
    ensures remaining * c.price <= GrossPayout(c.price, StakeAt(c, remaining, priceSum)) * priceSum
  {
    var share := Share(c, remaining, priceSum);
    NeedFits(c, remaining, priceSum);
    CeilBounds(CeilDiv(share * c.price, PPM), c.increment);
    CeilLe(share * c.price, PPM, Need(c, remaining, priceSum));
    FloorGe(StakeAt(c, remaining, priceSum) * PPM, c.price, share);
    CeilLe(remaining * c.price, priceSum, GrossPayout(c.price, StakeAt(c, remaining, priceSum)));
  }

  lemma {:induction false} AddTerm(r: int, p: int, dp: int, w: int, dw: int, s: int)
    requires r * p <= w * s && r * dp <= dw * s
    ensures r * (p + dp) <= (w + dw) * s
  {
    assert r * (p + dp) == r * p + r * dp;
    assert (w + dw) * s == w * s + dw * s;
  }

  /** Freezing chunks that the level overwhelms pays out less than their share of the
      level, so it can only raise what the others must carry. */
  lemma {:induction false} FreezeSum(
    g: seq<Chunk>, live: seq<bool>, live': seq<bool>, r: int, s: int, k: nat)
    requires k <= |g| == |live| == |live'|
    requires forall i :: 0 <= i < k ==> (live'[i] <==> live[i] && Covers(g[i], r, s))
    ensures (FrozenPayout(g, live', k) - FrozenPayout(g, live, k)) * s
            <= r * (LivePrice(g, live, k) - LivePrice(g, live', k))
    ensures (exists i :: 0 <= i < k && live[i] && !live'[i]) ==>
              (FrozenPayout(g, live', k) - FrozenPayout(g, live, k)) * s
              < r * (LivePrice(g, live, k) - LivePrice(g, live', k))
  {
    if k > 0 {
      FreezeSum(g, live, live', r, s, k - 1);
      var c := g[k - 1];
      var dw := FrozenPayout(g, live', k - 1) - FrozenPayout(g, live, k - 1);
      var dp := LivePrice(g, live, k - 1) - LivePrice(g, live', k - 1);
      assert (dw + FullPayout(c)) * s == dw * s + FullPayout(c) * s;
      assert r * (dp + c.price) == r * dp + r * c.price;
    }
  }

  /** Each freeze strictly raises the level remaining / price-sum, leaves something to
      pay, and keeps every frozen chunk overwhelmed. */
  lemma {:induction false} FreezeRaisesLevel(g: seq<Chunk>, live: seq<bool>, live': seq<bool>, target: int)
    requires |g| == |live| == |live'|
    requires LivePrice(g, live, |g|) > 0 && Remaining(g, live, target) > 0
    requires forall i :: 0 <= i < |g| ==>
                           (live'[i] <==> live[i] && Covers(g[i], Remaining(g, live, target), LivePrice(g, live, |g|)))
    requires forall i :: 0 <= i < |g| && !live[i] ==>
                           !Covers(g[i], Remaining(g, live, target), LivePrice(g, live, |g|))
    requires exists i :: 0 <= i < |g| && live[i] && !live'[i]
    ensures Remaining(g, live', target) > 0
    ensures Remaining(g, live, target) * LivePrice(g, live', |g|)
            < Remaining(g, live', target) * LivePrice(g, live, |g|)
    ensures forall i :: 0 <= i < |g| && !live'[i] ==>
                          !Covers(g[i], Remaining(g, live', target), LivePrice(g, live', |g|))
  {
    var r, s := Remaining(g, live, target), LivePrice(g, live, |g|);
    var r', s' := Remaining(g, live', target), LivePrice(g, live', |g|);
    LivePriceNonNeg(g, live', |g|);
    FreezeSum(g, live, live', r, s, |g|);
    RaiseFromSum(r, s, r', s');
    forall i | 0 <= i < |g| && !live'[i]
      ensures !Covers(g[i], r', s')
    {
      StaysOverwhelmed(g[i], r, s, r', s');
    }
  }

  lemma {:induction false} RaiseFromSum(r: int, s: int, r': int, s': int)
    requires r > 0 && s > 0 && s' >= 0
    requires (r - r') * s < r * (s - s')
    ensures r' > 0 && r * s' < r' * s
  {
    assert (r - r') * s == r * s - r' * s;
    assert r * (s - s') == r * s - r * s';
    MulNonNeg(r, s');
    CancelLt(0, r', s);
  }

  /** A chunk overwhelmed at one level is overwhelmed at every higher level. */
  lemma {:induction false} StaysOverwhelmed(c: Chunk, r: int, s: int, r': int, s': int)
    requires s > 0 && s' >= 0 && r * s' <= r' * s && r' > 0
    requires !Covers(c, r, s)
    ensures !Covers(c, r', s')
  {
    if s' == 0 {
      assert r' * c.price > 0;
    } else if Covers(c, r', s') {
      StaysCovered(c, r, s, r', s');
    }
  }

  /** A chunk covered at one level is covered at every lower level. */
  lemma {:induction false} StaysCovered(c: Chunk, r: int, s: int, r': int, s': int)
    requires s > 0 && s' > 0 && r * s' <= r' * s
    requires Covers(c, r', s')
    ensures Covers(c, r, s)
  {
    var w, p := FullPayout(c), c.price;
    MulLe(r * s', r' * s, p);
    MulLe(r' * p, w * s', s);
    assert (r' * s) * p == (r' * p) * s;
    assert (r * s') * p == (r * p) * s';
    assert (w * s') * s == (w * s) * s';
    CancelLe(r * p, w * s, s');
  }

  /** The live chunks of a level can pay for what remains. */
  lemma {:induction false} LiveReach(g: seq<Chunk>, live: seq<bool>, r: int, s: int, k: nat)
    requires k <= |g| == |live|
    requires forall i :: 0 <= i < k && live[i] ==> Covers(g[i], r, s)
    ensures r * LivePrice(g, live, k) <= (Reach(g, k) - FrozenPayout(g, live, k)) * s
  {
    if k > 0 {
      LiveReach(g, live, r, s, k - 1);
      if live[k - 1] {
        AddTerm(r, LivePrice(g, live, k - 1), g[k - 1].price,
                Reach(g, k - 1) - FrozenPayout(g, live, k - 1), FullPayout(g[k - 1]), s);
      }
    }
  }

  /** A group has a level only for targets within its reach. */
  lemma {:induction false} LevelWithinReach(g: seq<Chunk>, live: seq<bool>, target: int)
    requires IsLevel(g, live, target)
    ensures target <= Reach(g, |g|)
  {
    var r, s := Remaining(g, live, target), LivePrice(g, live, |g|);
    LiveReach(g, live, r, s, |g|);
    CancelLe(r, Reach(g, |g|) - FrozenPayout(g, live, |g|), s);
  }

  /** What the extra frozen chunks of a smaller live set pay, measured at the level of
      a larger live set that covers them. */
  lemma {:induction false} SubsetSum(
    g: seq<Chunk>, live: seq<bool>, live': seq<bool>, r: int, s: int, k: nat)
    requires k <= |g| == |live| == |live'|
    requires forall i :: 0 <= i < k && live[i] ==> live'[i]
    requires forall i :: 0 <= i < k && live'[i] ==> Covers(g[i], r, s)
    ensures r * (LivePrice(g, live', k) - LivePrice(g, live, k))
            <= (FrozenPayout(g, live, k) - FrozenPayout(g, live', k)) * s
  {
    if k > 0 {
      SubsetSum(g, live, live', r, s, k - 1);
      var c := g[k - 1];
      var dp := LivePrice(g, live', k - 1) - LivePrice(g, live, k - 1);
      var dw := FrozenPayout(g, live, k - 1) - FrozenPayout(g, live', k - 1);
      if live'[k - 1] && !live[k - 1] {
        AddTerm(r, dp, c.price, dw, FullPayout(c), s);
      }
    }
  }

  /** A larger target has at least as high a level. */
  lemma {:induction false} LevelMonotone(g: seq<Chunk>, live: seq<bool>, live': seq<bool>, target: int, target': int)
    requires IsLevel(g, live, target) && IsLevel(g, live', target')
    requires target <= target'
    ensures Remaining(g, live, target) * LivePrice(g, live', |g|)
            <= Remaining(g, live', target') * LivePrice(g, live, |g|)
  {
    var r, s := Remaining(g, live, target), LivePrice(g, live, |g|);
    var r', s' := Remaining(g, live', target'), LivePrice(g, live', |g|);
    if r * s' > r' * s {
      forall i | 0 <= i < |g| && live[i]
        ensures live'[i]
      {
        StaysCovered(g[i], r', s', r, s);
      }
      SubsetSum(g, live, live', r', s', |g|);
      var dw := FrozenPayout(g, live, |g|) - FrozenPayout(g, live', |g|);
      LowerLevelPaysLess(r, s, r', s', dw);
    }
  }

  lemma {:induction false} LowerLevelPaysLess(r: int, s: int, r': int, s': int, dw: int)
    requires s' > 0 && r * s' > r' * s
    requires r' * (s' - s) <= dw * s'
    ensures r' - r - dw < 0
  {
    assert (r' - r - dw) * s' == r' * s' - r * s' - dw * s';
    assert r' * (s' - s) == r' * s' - r' * s;
    CancelLt(r' - r - dw, 0, s');
  }

  /** Water-filling is monotone. A larger target freezes every chunk the smaller one
      froze, and stakes at least as much on every chunk. */
  lemma {:induction false} FillingIsMonotone(
    g: seq<Chunk>, live: seq<bool>, live': seq<bool>, target: int, target': int)
    requires IsLevel(g, live, target) && IsLevel(g, live', target')
    requires target <= target'
    ensures forall i :: 0 <= i < |g| && live'[i] ==> live[i]
    ensures forall i :: 0 <= i < |g| ==>
                          StakeAt(g[i], Remaining(g, live, target), LivePrice(g, live, |g|))
                          <= StakeAt(g[i], Remaining(g, live', target'), LivePrice(g, live', |g|))
  {
    var r, s := Remaining(g, live, target), LivePrice(g, live, |g|);
    var r', s' := Remaining(g, live', target'), LivePrice(g, live', |g|);
    LevelMonotone(g, live, live', target, target');
    forall i | 0 <= i < |g|
      ensures live'[i] ==> live[i]
      ensures StakeAt(g[i], r, s) <= StakeAt(g[i], r', s')
    {
      if live'[i] {
        StaysCovered(g[i], r, s, r', s');
      }
      StakeMono(g[i], r, s, r', s');
    }
  }

  lemma {:induction false} StakeMono(c: Chunk, r: int, s: int, r': int, s': int)
    requires s > 0 && s' > 0 && r * s' <= r' * s
    ensures StakeAt(c, r, s) <= StakeAt(c, r', s')
  {
    var q := Share(c, r', s');
    CeilBounds(r' * c.price, s');
    MulLe(r * s', r' * s, c.price);
    MulLe(r' * c.price, q * s', s);
    assert (r' * s) * c.price == (r' * c.price) * s;
    assert (r * s') * c.price == (r * c.price) * s';
    assert (q * s') * s == (q * s) * s';
    CancelLe(r * c.price, q * s, s');
    CeilLe(r * c.price, s, q);
    MulLe(Share(c, r, s), q, c.price);
    FloorMono(Share(c, r, s) * c.price + PPM - 1, q * c.price + PPM - 1, PPM);
    var cost, cost' := CeilDiv(Share(c, r, s) * c.price, PPM), CeilDiv(q * c.price, PPM);
    FloorMono(cost + c.increment - 1, cost' + c.increment - 1, c.increment);
    MulLe(CeilDiv(cost, c.increment), CeilDiv(cost', c.increment), c.increment);
  }

  /** A target has one level: any two live sets that satisfy the definition agree. */
  lemma {:induction false} LevelUnique(g: seq<Chunk>, live: seq<bool>, live': seq<bool>, target: int)
    requires IsLevel(g, live, target) && IsLevel(g, live', target)
    ensures live == live'
  {
    FillingIsMonotone(g, live, live', target, target);
    FillingIsMonotone(g, live', live, target, target);
  }

  /** What the stakes of a level pay over the first `k` chunks. */
  function LevelPayout(g: seq<Chunk>, r: int, s: int, k: nat): int
    requires k <= |g| && s > 0
  {
    if k == 0 then 0
    else LevelPayout(g, r, s, k - 1) + GrossPayout(g[k - 1].price, StakeAt(g[k - 1], r, s))
  }

  lemma {:induction false} LevelPaysSum(g: seq<Chunk>, live: seq<bool>, r: int, s: int, k: nat)
    requires k <= |g| == |live| && s > 0
    requires forall i :: 0 <= i < k ==> (live[i] <==> Covers(g[i], r, s))
    ensures r * LivePrice(g, live, k) <= (LevelPayout(g, r, s, k) - FrozenPayout(g, live, k)) * s
  {
    if k > 0 {
      LevelPaysSum(g, live, r, s, k - 1);
      var c := g[k - 1];
      NeedFits(c, r, s);
      if live[k - 1] {
        var pay := GrossPayout(c.price, StakeAt(c, r, s));
        var w := LevelPayout(g, r, s, k - 1) - FrozenPayout(g, live, k - 1);
        StakePays(c, r, s);
        AddTerm(r, LivePrice(g, live, k - 1), c.price, w, pay, s);
      }
    }
  }

  /** The stakes of a level pay at least the target they were sized for. */
  lemma {:induction false} LevelPaysTarget(g: seq<Chunk>, live: seq<bool>, target: int)
    requires IsLevel(g, live, target)
    ensures target <= LevelPayout(g, Remaining(g, live, target), LivePrice(g, live, |g|), |g|)
  {
    var r, s := Remaining(g, live, target), LivePrice(g, live, |g|);
    LevelPaysSum(g, live, r, s, |g|);
    CancelLe(r, LevelPayout(g, r, s, |g|) - FrozenPayout(g, live, |g|), s);
  }

  lemma {:induction false} SubsetPrice(g: seq<Chunk>, live: seq<bool>, live': seq<bool>, k: nat)
    requires k <= |g| == |live| == |live'|
    requires forall i :: 0 <= i < k && live'[i] ==> live[i]
    ensures LivePrice(g, live', k) <= LivePrice(g, live, k)
    ensures (exists i :: 0 <= i < k && live[i] && !live'[i]) ==> LivePrice(g, live', k) < LivePrice(g, live, k)
  {
    if k > 0 {
      SubsetPrice(g, live, live', k - 1);
    }
  }

  /** Freezing until nothing more freezes reaches the level, from any set of chunks
      whose frozen members are overwhelmed. */
  lemma {:induction false} Settle(g: seq<Chunk>, live: seq<bool>, target: int) returns (settled: seq<bool>)
    requires |g| == |live| && target <= Reach(g, |g|)
    requires Remaining(g, live, target) > 0
    requires forall i :: 0 <= i < |g| && !live[i] ==>
                           !Covers(g[i], Remaining(g, live, target), LivePrice(g, live, |g|))
    ensures IsLevel(g, settled, target)
    decreases LivePrice(g, live, |g|)
  {
    LivePriceNonNeg(g, live, |g|);
    if LivePrice(g, live, |g|) == 0 {
      AllFrozen(g, live, |g|);
      assert false;
    }
    var r, s := Remaining(g, live, target), LivePrice(g, live, |g|);
    var live' := seq(|g|, i requires 0 <= i < |g| => live[i] && Covers(g[i], r, s));
    if exists i :: 0 <= i < |g| && live[i] && !live'[i] {
      FreezeRaisesLevel(g, live, live', target);
      SubsetPrice(g, live, live', |g|);
      LivePriceNonNeg(g, live', |g|);
      settled := Settle(g, live', target);
    } else {
      settled := live;
    }
  }

  /** A positive target has a level exactly when the group's depth reaches it. */
  lemma {:induction false} LevelExists(g: seq<Chunk>, target: int) returns (live: seq<bool>)
    requires 0 < target <= Reach(g, |g|)
    ensures IsLevel(g, live, target)
  {
    var all := seq(|g|, i => true);
    AllLive(g, all, |g|);
    live := Settle(g, all, target);
  }
}
