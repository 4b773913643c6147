/** The paper-trading simulator: every leg of a signal meets the price and depth found on
    arrival, a moved signal may be chased as a whole, and the result is accounted for by the
    outcome that pays least. */
module Simulator {
  import opened Arith
  import opened Price
  import opened Fees
  import opened Quotes
  import opened Fill

  const MAX_SIM_LEGS := MAX_CHUNKS

  // ---- Accounting ----

  datatype Pnl = Pnl(
    requested: int, filled: int, fees: int, worstPayout: int, realized: int, expected: int, slippage: int)

  /** The stakes filled, added with saturation. */
  function FilledSum(fills: seq<LegFill>, n: nat): int
    requires n <= |fills|
  {
    if n == 0 then 0 else ToCents(FilledSum(fills, n - 1) + fills[n - 1].filled)
  }

  function FeeSum(fills: seq<LegFill>, n: nat): int
    requires n <= |fills|
  {
    if n == 0 then 0 else ToCents(FeeSum(fills, n - 1) + fills[n - 1].feePaid)
  }

  /** The least net payout of any leg. */
  function LeastNet(fills: seq<LegFill>, n: nat): int
    requires n <= |fills|
  {
    if n == 0 then CENTS_MAX else Min(LeastNet(fills, n - 1), fills[n - 1].net)
  }

  function PnlOf(fills: seq<LegFill>, requested: int, expected: int): Pnl {
    var filled, worst := FilledSum(fills, |fills|), LeastNet(fills, |fills|);
    if filled <= 0 then Pnl(requested, 0, 0, 0, 0, expected, expected)
    else
      var realized := ToCents(worst - filled);
      Pnl(requested, filled, FeeSum(fills, |fills|), worst, realized, expected, ToCents(expected - realized))
  }

  method ComputePnl(fills: seq<LegFill>, requested: int, expected: int) returns (pnl: Pnl)
    ensures pnl == PnlOf(fills, requested, expected)
  {
    var filled, fees := 0, 0;
    for i := 0 to |fills|
      invariant filled == FilledSum(fills, i) && fees == FeeSum(fills, i)
    {
      filled := ToCents(filled + fills[i].filled);
      fees := ToCents(fees + fills[i].feePaid);
    }
    if filled <= 0 {
      return Pnl(requested, 0, 0, 0, 0, expected, expected);
    }
    var worst := CENTS_MAX;
    for i := 0 to |fills|
      invariant worst == LeastNet(fills, i)
    {
      worst := Min(worst, fills[i].net);
    }
    var realized := ToCents(worst - filled);
    return Pnl(requested, filled, fees, worst, realized, expected, ToCents(expected - realized));
  }

  /** The stakes filled, added exactly. */
  function Staked(fills: seq<LegFill>, n: nat): int
    requires n <= |fills|
  {
    if n == 0 then 0 else Staked(fills, n - 1) + fills[n - 1].filled
  }

  /** What the legs backing an outcome pay if it lands. */
  function Returned(fills: seq<LegFill>, outcome: nat, n: nat): int
    requires n <= |fills|
  {
    if n == 0 then 0
    else Returned(fills, outcome, n - 1) + if fills[n - 1].outcome == outcome then fills[n - 1].net else 0
  }

  /** What is left of an outcome's payout after every stake filled. */
  function Earned(fills: seq<LegFill>, outcome: nat): int {
    Returned(fills, outcome, |fills|) - Staked(fills, |fills|)
  }

  /** Fills are non-negative, and so are their payouts, and the stakes together fit money. */
  ghost predicate Sane(fills: seq<LegFill>) {
    && (forall i :: 0 <= i < |fills| ==> 0 <= fills[i].filled && 0 <= fills[i].net <= CENTS_MAX)
    && Staked(fills, |fills|) <= CENTS_MAX
  }

  lemma {:induction false} StakedMonotone(fills: seq<LegFill>, k: nat, n: nat)
    requires k <= n <= |fills| && forall i :: 0 <= i < |fills| ==> 0 <= fills[i].filled
    ensures Staked(fills, k) <= Staked(fills, n)
  {
    if k < n {
      StakedMonotone(fills, k, n - 1);
    }
  }

  /** Stakes are non-negative and together fit money. */
  ghost predicate StakesFit(fills: seq<LegFill>) {
    (forall i :: 0 <= i < |fills| ==> 0 <= fills[i].filled) && Staked(fills, |fills|) <= CENTS_MAX
  }

  lemma {:induction false} FilledSumExact(fills: seq<LegFill>, n: nat)
    requires StakesFit(fills) && n <= |fills|
    ensures FilledSum(fills, n) == Staked(fills, n) && 0 <= Staked(fills, n) <= CENTS_MAX
  {
    if n > 0 {
      FilledSumExact(fills, n - 1);
      StakedMonotone(fills, n, |fills|);
    }
  }

  lemma {:induction false} LeastNetBounds(fills: seq<LegFill>, n: nat)
    requires n <= |fills| && forall i :: 0 <= i < |fills| ==> fills[i].net <= CENTS_MAX
    ensures LeastNet(fills, n) <= CENTS_MAX
    ensures forall i :: 0 <= i < n ==> LeastNet(fills, n) <= fills[i].net
    ensures n > 0 ==> exists i :: 0 <= i < n && LeastNet(fills, n) == fills[i].net
  {
    if n > 0 {
      LeastNetBounds(fills, n - 1);
      if fills[n - 1].net >= LeastNet(fills, n - 1) && n > 1 {
        var i :| 0 <= i < n - 1 && LeastNet(fills, n - 1) == fills[i].net;
        assert LeastNet(fills, n) == fills[i].net;
      }
    }
  }

  lemma {:induction false} ReturnedBounds(fills: seq<LegFill>, outcome: nat, n: nat)
    requires n <= |fills| && forall i :: 0 <= i < |fills| ==> 0 <= fills[i].net
    ensures 0 <= Returned(fills, outcome, n)
    ensures forall i :: 0 <= i < n && fills[i].outcome == outcome ==> fills[i].net <= Returned(fills, outcome, n)
  {
    if n > 0 {
      ReturnedBounds(fills, outcome, n - 1);
    }
  }

  /** No two legs back the same outcome. */
  ghost predicate OnePerOutcome(fills: seq<LegFill>) {
    forall i, j :: 0 <= i < j < |fills| ==> fills[i].outcome != fills[j].outcome
  }

  lemma {:induction false} ReturnedAlone(fills: seq<LegFill>, i: nat, n: nat)
    requires n <= |fills| && i < |fills| && OnePerOutcome(fills)
    ensures Returned(fills, fills[i].outcome, n) == if i < n then fills[i].net else 0
  {
    if n > 0 {
      ReturnedAlone(fills, i, n - 1);
    }
  }

  /** The realized profit is the smallest payout of any leg less every stake filled, clamped. */
  lemma {:induction false} RealizedFromLeast(fills: seq<LegFill>, requested: int, expected: int)
    requires StakesFit(fills) && Staked(fills, |fills|) > 0
    ensures var pnl, n := PnlOf(fills, requested, expected), |fills|;
            && pnl.filled == Staked(fills, n)
            && pnl.realized == ToCents(LeastNet(fills, n) - Staked(fills, n))
  {
    FilledSumExact(fills, |fills|);
  }

  /** When payouts are not negative the realized profit needs no clamp. It never
      exceeds what any backed outcome earns, and with one leg an outcome it is what the worst
      of them earns. */
  lemma {:induction false} RealizedIsGuaranteed(fills: seq<LegFill>, requested: int, expected: int)
    requires Sane(fills) && Staked(fills, |fills|) > 0
    ensures var pnl, n := PnlOf(fills, requested, expected), |fills|;
            && pnl.filled == Staked(fills, n)
            && pnl.realized == LeastNet(fills, n) - Staked(fills, n)
            && (forall i :: 0 <= i < n ==> pnl.realized <= Earned(fills, fills[i].outcome))
            && (OnePerOutcome(fills) ==>
                  exists i :: 0 <= i < n && pnl.realized == Earned(fills, fills[i].outcome))
  {
    var n := |fills|;
    RealizedFromLeast(fills, requested, expected);
    LeastNetBounds(fills, n);
    forall i | 0 <= i < n
      ensures LeastNet(fills, n) <= Returned(fills, fills[i].outcome, n)
    {
      ReturnedBounds(fills, fills[i].outcome, n);
    }
    if OnePerOutcome(fills) {
      var i :| 0 <= i < n && LeastNet(fills, n) == fills[i].net;
      ReturnedAlone(fills, i, n);
      assert PnlOf(fills, requested, expected).realized == Earned(fills, fills[i].outcome);
    }
  }

  // ---- Classification ----

  datatype PhantomReason =
    | Moved(venue: nat)
    | NoDepth(venue: nat)
    | BrokenLeg(filledVenue: nat, failedVenue: nat)
    | AsymmetricFill
    | UnprofitableAfterCosts

  datatype Classification = CleanFill | ProportionalPartialFill | Phantom(reason: PhantomReason)

  /** How many of the first `n` fills took a stake. */
  function FilledCount(fills: seq<LegFill>, n: nat): (k: nat)
    requires n <= |fills|
    ensures k <= n
    ensures k == n <==> forall i :: 0 <= i < n ==> fills[i].filled > 0
    ensures k == 0 <==> forall i :: 0 <= i < n ==> fills[i].filled <= 0
  {
    if n == 0 then 0 else FilledCount(fills, n - 1) + if fills[n - 1].filled > 0 then 1 else 0
  }

  function UnfilledCount(fills: seq<LegFill>, n: nat): (k: nat)
    requires n <= |fills|
    ensures k == 0 <==> forall i :: 0 <= i < n ==> fills[i].filled != 0
  {
    if n == 0 then 0 else UnfilledCount(fills, n - 1) + if fills[n - 1].filled == 0 then 1 else 0
  }

  /** The venue of the last leg that took a stake, or that did not; zero when there is none. */
  function LastVenue(fills: seq<LegFill>, took: bool, n: nat): nat
    requires n <= |fills|
  {
    if n == 0 then 0
    else if (fills[n - 1].filled > 0) == took then fills[n - 1].venue
    else LastVenue(fills, took, n - 1)
  }

  /** Why the first unfilled leg failed. */
  function FirstFailure(fills: seq<LegFill>, i: nat): PhantomReason
    requires i <= |fills|
    decreases |fills| - i
  {
    if i == |fills| then UnprofitableAfterCosts
    else if fills[i].status.Unfilled? then
      if fills[i].status.reason.PriceMoved? then Moved(fills[i].venue) else NoDepth(fills[i].venue)
    else FirstFailure(fills, i + 1)
  }

  function Classify(fills: seq<LegFill>, pnl: Pnl): Classification {
    var n := |fills|;
    if forall i :: 0 <= i < n ==> fills[i].status.Filled? then
      if pnl.realized > 0 then CleanFill else Phantom(UnprofitableAfterCosts)
    else if FilledCount(fills, n) > 0 && UnfilledCount(fills, n) > 0 then
      Phantom(BrokenLeg(LastVenue(fills, true, n), LastVenue(fills, false, n)))
    else if FilledCount(fills, n) == n then
      if pnl.realized > 0 then ProportionalPartialFill else Phantom(AsymmetricFill)
    else Phantom(FirstFailure(fills, 0))
  }

  /** The classes are exact: clean means every stake filled at a profit, proportional means
      every leg filled in part at a profit, and a position with a leg missing is never either
      but is always reported broken. */
  lemma {:induction false} ClassesAreExact(fills: seq<LegFill>, pnl: Pnl)
    requires |fills| > 0 && forall i :: 0 <= i < |fills| ==> Coherent(fills[i]) && fills[i].requested > 0
    ensures Classify(fills, pnl).CleanFill?
            <==> pnl.realized > 0 && forall i :: 0 <= i < |fills| ==> fills[i].filled == fills[i].requested
    ensures Classify(fills, pnl).ProportionalPartialFill?
            <==> && pnl.realized > 0
                 && (forall i :: 0 <= i < |fills| ==> fills[i].filled > 0)
                 && exists i :: 0 <= i < |fills| && fills[i].filled < fills[i].requested
    ensures Classify(fills, pnl).Phantom? && Classify(fills, pnl).reason.BrokenLeg?
            <==> && (exists i :: 0 <= i < |fills| && fills[i].filled > 0)
                 && exists i :: 0 <= i < |fills| && fills[i].filled == 0
  {
  }

  // ---- The simulator ----

  datatype ChasePolicy = ChasePolicy(enabled: bool, maxChaseBps: nat)

  datatype SimConfig = SimConfig(chase: ChasePolicy, ttlNs: nat)

  datatype SimError = InvalidLegCount(n: nat) | ZeroStake(leg: nat)

  datatype Report = Report(classification: Classification, chased: bool, fills: seq<LegFill>, pnl: Pnl)

  /** What an attempt meets: the plan, and the price and raw depth each leg finds. */
  datatype Attempt = Attempt(sentNs: nat, signal: Signal, legs: seq<Leg>, prices: seq<Option<Prob>>, depths: seq<int>)

  /** A plan that can be simulated. */
  predicate Shaped(a: Attempt) {
    && 2 <= |a.legs| <= MAX_SIM_LEGS && |a.prices| == |a.depths| == |a.signal.allocations| == |a.legs|
  }

  predicate Staking(a: Attempt)
    requires Shaped(a)
  {
    forall i :: 0 <= i < |a.legs| ==> a.signal.allocations[i].stake > 0
  }

  function Arrives(t: LatencyTable, a: Attempt, i: nat): nat
    requires Shaped(a) && i < |a.legs|
  {
    ArrivalTime(t, a.sentNs, a.legs[i].venue)
  }

  /** What a leg does on its own. */
  function Lone(t: LatencyTable, a: Attempt, i: nat): LegFill
    requires Shaped(a) && i < |a.legs|
  {
    AtQuote(a.legs[i], a.signal.allocations[i].stake, a.prices[i],
            DepthOnArrival(t, a.legs[i].venue, a.depths[i]), Arrives(t, a, i))
  }

  /** What a leg does when the whole signal is chased. */
  function Chased(t: LatencyTable, a: Attempt, i: nat): LegFill
    requires Shaped(a) && i < |a.legs| && a.prices[i].Some?
  {
    AtDepth(a.legs[i], a.signal.allocations[i].stake, a.prices[i].value,
            DepthOnArrival(t, a.legs[i].venue, a.depths[i]), Arrives(t, a, i))
  }

  function LoneFills(t: LatencyTable, a: Attempt): (fills: seq<LegFill>)
    requires Shaped(a)
    ensures |fills| == |a.legs| && forall i :: 0 <= i < |fills| ==> fills[i] == Lone(t, a, i)
  {
    seq(|a.legs|, i requires 0 <= i < |a.legs| => Lone(t, a, i))
  }

  /** An adverse move relative to its quote, per ten thousand, rounded up. */
  function AdverseMove(quoted: Prob, found: Prob): int
    requires found >= quoted
  {
    CeilDiv((found - quoted) * BPS, quoted)
  }

  predicate WithinChase(leg: Leg, found: Option<Prob>, maxChaseBps: nat) {
    found.Some? && (found.value > leg.quoted ==> AdverseMove(leg.quoted, found.value) <= maxChaseBps)
  }

  /** The fee-adjusted overround of the first `n` legs at arrival. */
  function ArrivalOverround(a: Attempt, n: nat): int
    requires Shaped(a) && n <= |a.legs| && forall i :: 0 <= i < n ==> a.prices[i].Some?
  {
    if n == 0 then 0 else ArrivalOverround(a, n - 1) + Effective(a.legs[n - 1].fee, a.prices[n - 1].value)
  }

  /** The joint gate: no leg moved too far, and the arrival prices still leave an edge. */
  predicate Chaseable(a: Attempt, maxChaseBps: nat)
    requires Shaped(a)
  {
    && (forall i :: 0 <= i < |a.legs| ==> WithinChase(a.legs[i], a.prices[i], maxChaseBps))
    && ArrivalOverround(a, |a.legs|) < PPM
  }

  function ChasedFills(t: LatencyTable, a: Attempt): (fills: seq<LegFill>)
    requires Shaped(a) && forall i :: 0 <= i < |a.legs| ==> a.prices[i].Some?
    ensures |fills| == |a.legs| && forall i :: 0 <= i < |fills| ==> fills[i] == Chased(t, a, i)
  {
    seq(|a.legs|, i requires 0 <= i < |a.legs| => Chased(t, a, i))
  }

  predicate LegMoved(f: LegFill) {
    f.status.Unfilled? && f.status.reason.PriceMoved?
  }

  function LastArrival(t: LatencyTable, a: Attempt, n: nat): nat
    requires Shaped(a) && n <= |a.legs|
  {
    if n == 0 then 0 else Max(LastArrival(t, a, n - 1), Arrives(t, a, n - 1))
  }

  /** Chasing is tried when it is allowed, some leg moved, and the signal has not expired. */
  predicate TriesChase(t: LatencyTable, config: SimConfig, a: Attempt)
    requires Shaped(a)
  {
    && config.chase.enabled
    && (exists i :: 0 <= i < |a.legs| && LegMoved(Lone(t, a, i)))
    && (config.ttlNs == 0 || LastArrival(t, a, |a.legs|) - a.sentNs <= config.ttlNs)
  }

  predicate IsChased(t: LatencyTable, config: SimConfig, a: Attempt)
    requires Shaped(a)
  {
    TriesChase(t, config, a) && Chaseable(a, config.chase.maxChaseBps)
  }

  function FillsOf(t: LatencyTable, config: SimConfig, a: Attempt): seq<LegFill>
    requires Shaped(a)
  {
    if IsChased(t, config, a) then ChasedFills(t, a) else LoneFills(t, a)
  }

  function ReportOf(t: LatencyTable, config: SimConfig, a: Attempt): Report
    requires Shaped(a)
  {
    var fills := FillsOf(t, config, a);
    var pnl := PnlOf(fills, a.signal.totalStake, a.signal.worstCaseProfit);
    Report(Classify(fills, pnl), IsChased(t, config, a), fills, pnl)
  }

  /** Every simulated leg fills coherently, within the depth that reached the venue, and never
      beyond its quote unless the whole signal was chased, and then within the cap. */
  lemma {:induction false} LegsFillWithinLimits(t: LatencyTable, config: SimConfig, a: Attempt, i: nat)
    requires Shaped(a) && Staking(a) && i < |a.legs|
    ensures var f := FillsOf(t, config, a)[i];
            && Coherent(f) && f.requested == a.signal.allocations[i].stake
            && f.venue == a.legs[i].venue && f.outcome == a.legs[i].outcome
            && (f.filled > 0 ==>
                  && a.prices[i] == Some(f.fillPrice)
                  && f.filled <= DepthOnArrival(t, a.legs[i].venue, a.depths[i])
                  && (if IsChased(t, config, a)
                      then (f.fillPrice - a.legs[i].quoted) * BPS <= config.chase.maxChaseBps * a.legs[i].quoted
                      else f.fillPrice <= a.legs[i].quoted))
  {
    var leg, stake := a.legs[i], a.signal.allocations[i].stake;
    var depth := DepthOnArrival(t, leg.venue, a.depths[i]);
    if IsChased(t, config, a) {
      assert WithinChase(leg, a.prices[i], config.chase.maxChaseBps);
      var price := a.prices[i].value;
      DepthFills(leg, stake, price, depth, Arrives(t, a, i));
      MulNonNeg(config.chase.maxChaseBps, leg.quoted);
      if price > leg.quoted {
        CeilLe((price - leg.quoted) * BPS, leg.quoted, config.chase.maxChaseBps);
      }
    } else {
      QuoteFills(leg, stake, a.prices[i], depth, Arrives(t, a, i));
    }
  }

  /** Counters over every signal seen. */
  datatype Stats = Stats(
    signals: nat, attempted: nat, short: nat, clean: nat, partial: nat, phantoms: nat, broken: nat, chased: nat,
    filled: int, realized: int)

  function Recorded(s: Stats, r: Report): Stats {
    var k := r.classification;
    s.(signals := s.signals + 1,
       attempted := s.attempted + 1,
       clean := s.clean + if k.CleanFill? then 1 else 0,
       partial := s.partial + if k.ProportionalPartialFill? then 1 else 0,
       phantoms := s.phantoms + if k.Phantom? then 1 else 0,
       broken := s.broken + if k.Phantom? && k.reason.BrokenLeg? then 1 else 0,
       chased := s.chased + if r.chased then 1 else 0,
       filled := ToCents(s.filled + r.pnl.filled),
       realized := ToCents(s.realized + r.pnl.realized))
  }

  class Simulator {
    const latency: LatencyModel
    var config: SimConfig
    var stats: Stats

    /** Every signal was attempted or short of capital, and every attempt is in one class. */
    ghost predicate Valid()
      reads this, latency, latency.entries
    {
      && latency.Valid()
      && stats.signals == stats.attempted + stats.short
      && stats.attempted == stats.clean + stats.partial + stats.phantoms
      && stats.broken <= stats.phantoms && stats.chased <= stats.attempted
    }

    constructor (latency: LatencyModel, config: SimConfig)
      requires latency.Valid()
      ensures Valid() && this.latency == latency && this.config == config
    {
      this.latency, this.config := latency, config;
      stats := Stats(0, 0, 0, 0, 0, 0, 0, 0, 0, 0);
    }

    method RecordCapitalShort()
      requires Valid()
      modifies this`stats
      ensures Valid() && stats == old(stats).(signals := old(stats).signals + 1, short := old(stats).short + 1)
    {
      stats := stats.(signals := stats.signals + 1, short := stats.short + 1);
    }

    /** Simulate a signal against explicit arrival prices and depths. */
    method SimulateWithQuotes(a: Attempt) returns (result: Result<Report, SimError>)
      requires Valid()
      modifies this`stats
      ensures Valid()
      ensures result.Ok? <==> Shaped(a) && Staking(a)
      ensures result.Ok? ==>
                result.value == ReportOf(latency.Table(), config, a) && stats == Recorded(old(stats), result.value)
      ensures result.Err? ==> stats == old(stats)
      ensures result.Err? && result.error.ZeroStake? ==>
                Shaped(a) && result.error.leg < |a.legs| && a.signal.allocations[result.error.leg].stake <= 0
                && forall i :: 0 <= i < result.error.leg ==> a.signal.allocations[i].stake > 0
    {
      if !(2 <= |a.legs| <= MAX_SIM_LEGS) {
        return Err(InvalidLegCount(|a.legs|));
      }
      if |a.prices| != |a.legs| || |a.depths| != |a.legs| {
        return Err(InvalidLegCount(|a.prices|));
      }
      if |a.signal.allocations| != |a.legs| {
        return Err(InvalidLegCount(|a.signal.allocations|));
      }
      var results, last, unstaked := FirstPass(a);
      if unstaked.Some? {
        return Err(ZeroStake(unstaked.value));
      }
      var chased := MaybeChase(a, results, last);
      var report := Conclude(a, results[..|a.legs|], chased);
      return Ok(report);
    }

    /** Account for an attempt, classify it and record it. */
    method Conclude(a: Attempt, fills: seq<LegFill>, chased: bool) returns (report: Report)
      requires Valid() && Shaped(a)
      requires fills == FillsOf(latency.Table(), config, a) && chased == IsChased(latency.Table(), config, a)
      modifies this`stats
      ensures Valid() && report == ReportOf(latency.Table(), config, a) && stats == Recorded(old(stats), report)
    {
      var pnl := ComputePnl(fills, a.signal.totalStake, a.signal.worstCaseProfit);
      report := Report(Classify(fills, pnl), chased, fills, pnl);
      stats := Recorded(stats, report);
    }

    /** Chase the signal when some leg moved, chasing is allowed and it has not expired. */
    method MaybeChase(a: Attempt, results: array<LegFill>, last: nat) returns (chased: bool)
      requires Valid() && Shaped(a) && results.Length == MAX_SIM_LEGS
      requires last == LastArrival(latency.Table(), a, |a.legs|)
      requires forall i :: 0 <= i < |a.legs| ==> results[i] == Lone(latency.Table(), a, i)
      modifies results
      ensures Valid()
      ensures chased == IsChased(latency.Table(), config, a)
      ensures results[..|a.legs|] == FillsOf(latency.Table(), config, a)
    {
      var moved := exists i :: 0 <= i < |a.legs| && LegMoved(results[i]);
      chased := false;
      if config.chase.enabled && moved && (config.ttlNs == 0 || last - a.sentNs <= config.ttlNs) {
        chased := TryChase(a, results);
      }
    }

    /** Fill every leg on its own, up to the first without a stake. */
    method FirstPass(a: Attempt) returns (results: array<LegFill>, last: nat, unstaked: Option<nat>)
      requires Valid() && Shaped(a)
      ensures fresh(results) && results.Length == MAX_SIM_LEGS
      ensures unstaked.None? ==>
                && Staking(a) && last == LastArrival(latency.Table(), a, |a.legs|)
                && forall i :: 0 <= i < |a.legs| ==> results[i] == Lone(latency.Table(), a, i)
      ensures unstaked.Some? ==>
                && unstaked.value < |a.legs| && a.signal.allocations[unstaked.value].stake <= 0
                && forall i :: 0 <= i < unstaked.value ==> a.signal.allocations[i].stake > 0
    {
      var dummy := LegFill(0, 0, Unfilled(IncrementConstraint), PPM, 0, 0, 0, 0, 0, 0);
      results := new LegFill[MAX_SIM_LEGS](_ => dummy);
      last, unstaked := 0, None;
      for i := 0 to |a.legs|
        invariant forall k :: 0 <= k < i ==>
                              a.signal.allocations[k].stake > 0 && results[k] == Lone(latency.Table(), a, k)
        invariant last == LastArrival(latency.Table(), a, i)
      {
        if a.signal.allocations[i].stake <= 0 {
          return results, last, Some(i);
        }
        var fill, arrival := FillLeg(a, i);
        results[i] := fill;
        last := Max(last, arrival);
      }
    }

    /** Fill one leg on its own at what it finds on arrival. */
    method FillLeg(a: Attempt, i: nat) returns (fill: LegFill, arrival: nat)
      requires Valid() && Shaped(a) && i < |a.legs|
      ensures fill == Lone(latency.Table(), a, i) && arrival == Arrives(latency.Table(), a, i)
    {
      var profile := latency.ProfileFor(a.legs[i].venue);
      arrival := SaturatingAdd64(a.sentNs, SaturatingAdd64(profile.wireNs, profile.processingNs));
      var depth := EffectiveDepth(profile.frontRunBps, a.depths[i]);
      fill := AtQuote(a.legs[i], a.signal.allocations[i].stake, a.prices[i], depth, arrival);
    }

    /** Re-check every leg at its arrival price and refill all of them, or none. */
    method TryChase(a: Attempt, results: array<LegFill>) returns (chased: bool)
      requires Valid() && Shaped(a) && results.Length == MAX_SIM_LEGS
      modifies results
      ensures Valid()
      ensures chased == Chaseable(a, config.chase.maxChaseBps)
      ensures !chased ==> results[..] == old(results[..])
      ensures chased ==> forall i :: 0 <= i < |a.legs| ==> results[i] == Chased(latency.Table(), a, i)
    {
      var n := |a.legs|;
      var overround := 0;
      for i := 0 to n
        invariant forall k :: 0 <= k < i ==> WithinChase(a.legs[k], a.prices[k], config.chase.maxChaseBps)
        invariant overround == ArrivalOverround(a, i)
      {
        if a.prices[i].None? {
          return false;
        }
        var price := a.prices[i].value;
        if price > a.legs[i].quoted && AdverseMove(a.legs[i].quoted, price) > config.chase.maxChaseBps {
          return false;
        }
        overround := overround + Effective(a.legs[i].fee, price);
      }
      if overround >= PPM {
        return false;
      }
      for i := 0 to n
        invariant forall k :: 0 <= k < i ==> results[k] == Chased(latency.Table(), a, k)
      {
        var profile := latency.ProfileFor(a.legs[i].venue);
        var arrival := SaturatingAdd64(a.sentNs, SaturatingAdd64(profile.wireNs, profile.processingNs));
        var depth := EffectiveDepth(profile.frontRunBps, a.depths[i]);
        results[i] := AtDepth(a.legs[i], a.signal.allocations[i].stake, a.prices[i].value, depth, arrival);
      }
      return true;
    }
  }
}
