/** Detection and fill agree: a signal simulated at the quotes it was sized against fills
    whole and never realizes more than detection reported. */
module Agreement {
  import opened Arith
  import opened Price
  import opened Fees
  import opened Quotes
  import opened Fill
  import opened Slab
  import opened Flatten
  import opened Planner
  import opened Aggregator
  import opened Simulator
  import opened Bankroll

  /** At every venue, the share detection expects to survive and the share the simulator
      lets others take make up the whole. */
  ghost predicate Matched(config: MarketConfig, t: LatencyTable) {
    forall v :: 0 <= v < MAX_VENUES ==>
                  Min(config.survivalBps[v], BPS) + Min(ProfileOf(t, v).frontRunBps, BPS) == BPS
  }

  /** What the fill of an allocation pays: its payout narrowed to 64 bits. */
  function Narrowed(a: Allocation, leg: Leg): int {
    Truncate64(GrossPayout(Effective(leg.fee, leg.quoted), a.stake))
  }

  /** Detection and the fill reduce the payout of this stake to the same amount of money. */
  ghost predicate PayoutAgrees(a: Allocation, leg: Leg) {
    NarrowsToClamp(GrossPayout(Effective(leg.fee, leg.quoted), a.stake))
  }

  ghost predicate PayoutsAgree(allocations: seq<Allocation>, legs: seq<Leg>) {
    && |legs| == |allocations|
    && forall i :: 0 <= i < |legs| ==> PayoutAgrees(allocations[i], legs[i])
  }

  /** The signal sent at its own quotes, with the raw depth the plan carries. */
  function AtItsQuotes(sentNs: nat, signal: Signal, legs: seq<Leg>): Attempt {
    Attempt(sentNs, signal, legs,
            seq(|legs|, i requires 0 <= i < |legs| => Some(legs[i].quoted)),
            seq(|legs|, i requires 0 <= i < |legs| => legs[i].capacity))
  }

  /** A signal a detection over `plan` returned, with the execution legs rebuilt for it. */
  ghost predicate Detected(
    config: MarketConfig, cs: seq<Candidate>, plan: seq<nat>, scan: Scan, signal: Signal, legs: seq<Leg>)
  {
    && (forall k :: 0 <= k < |cs| ==> Faithful(config, cs[k]))
    && ScanOf(config, cs, plan, scan) && scan.result == Ok(Some(signal))
    && Mirrors(config, cs, plan, signal.allocations, legs)
  }

  /** The levels behind a signal's allocations. */
  function SlotsOf(scan: Scan): seq<Slot>
    requires scan.run.Some? && |scan.run.value.chosen| >= |scan.run.value.slots|
  {
    AllocatedSlots(scan.run.value.slots, scan.run.value.chosen, |scan.run.value.slots|)
  }

  lemma {:induction false} DetectedIsSound(
    config: MarketConfig, cs: seq<Candidate>, plan: seq<nat>, scan: Scan, signal: Signal, legs: seq<Leg>)
    requires Detected(config, cs, plan, scan, signal, legs)
    ensures scan.run.Some? && |scan.run.value.chosen| >= |scan.run.value.slots|
    ensures var n := |Outcomes(scan.legs, |scan.legs|)|;
            && n >= 2 && |scan.legs| <= |scan.groupOf|
            && GroupsOutcomes(scan.legs, scan.groupOf, |scan.legs|, Outcomes(scan.legs, |scan.legs|))
            && Sound(scan.legs, scan.groupOf, n, config.budget, signal, SlotsOf(scan))
  {
  }

  /** An allocation stakes within the surviving size of its candidate, and is paid at the
      candidate's effective price. */
  lemma {:induction false} AllocationSource(
    config: MarketConfig, cs: seq<Candidate>, plan: seq<nat>, scan: Scan, signal: Signal, legs: seq<Leg>, i: nat)
    requires Detected(config, cs, plan, scan, signal, legs) && i < |legs|
    ensures var a := signal.allocations[i];
            && a.leg < |scan.legs| && a.leg < |plan| && plan[a.leg] < |cs|
            && var c := cs[plan[a.leg]];
               && Faithful(config, c) && scan.legs[a.leg].outcome == c.outcome
               && 0 < a.stake <= c.size && a.payout == Payout(c.eff, a.stake)
  {
    DetectedIsSound(config, cs, plan, scan, signal, legs);
    DrawnFrom(config, cs, plan, scan, SlotsOf(scan)[i], signal.allocations[i]);
  }

  lemma {:induction false} DrawnFrom(
    config: MarketConfig, cs: seq<Candidate>, plan: seq<nat>, scan: Scan, slot: Slot, a: Allocation)
    requires ScanOf(config, cs, plan, scan) && DrawsOn(scan.legs, slot, a)
    requires forall k :: 0 <= k < |cs| ==> Faithful(config, cs[k])
    ensures a.leg < |scan.legs| && a.leg < |plan| && plan[a.leg] < |cs|
    ensures var c := cs[plan[a.leg]];
            && Faithful(config, c) && scan.legs[a.leg].outcome == c.outcome
            && 0 < a.stake <= c.size && a.payout == Payout(c.eff, a.stake)
  {
    assert scan.legs[slot.0] == LegOf(config, cs[plan[a.leg]]);
  }

  /** An allocation is reported to pay what its execution leg's effective price does, clamped:
      never less than its fill, and the same exactly when the two reductions agree. */
  lemma {:induction false} AllocationPays(
    config: MarketConfig, cs: seq<Candidate>, plan: seq<nat>, scan: Scan, signal: Signal, legs: seq<Leg>, i: nat)
    requires Detected(config, cs, plan, scan, signal, legs) && i < |legs|
    ensures var a := signal.allocations[i];
            && 0 <= a.payout <= CENTS_MAX && Narrowed(a, legs[i]) <= a.payout
            && (Narrowed(a, legs[i]) == a.payout <==> PayoutAgrees(a, legs[i]))
  {
    AllocationSource(config, cs, plan, scan, signal, legs, i);
    var a := signal.allocations[i];
    var gross := GrossPayout(Effective(legs[i].fee, legs[i].quoted), a.stake);
    FloorNonNeg(a.stake * PPM, Effective(legs[i].fee, legs[i].quoted));
    TruncateMeetsClamp(gross);
    TruncateIsNoMore(gross);
  }

  /** A stake within the surviving size fills whole at the quote, and for its effective
      payout exactly when that narrows to its clamp. */
  lemma {:induction false} SurvivingStakeFills(
    config: MarketConfig, c: Candidate, t: LatencyTable, stake: int, arrivalNs: nat)
    requires Faithful(config, c) && Matched(config, t) && 0 < stake <= c.size
    ensures var leg := ExecutionLeg(config, c);
            var f := AtQuote(leg, stake, Some(leg.quoted), DepthOnArrival(t, leg.venue, leg.capacity), arrivalNs);
            && f.status.Filled? && f.filled == stake && f.outcome == c.outcome
            && f.net == Truncate64(GrossPayout(c.eff, stake))
            && (f.net == Payout(c.eff, stake) <==> NarrowsToClamp(GrossPayout(c.eff, stake)))
            && 0 <= Payout(c.eff, stake) <= CENTS_MAX
  {
    DepthsAgree(config.survivalBps[c.venue], ProfileOf(t, c.venue).frontRunBps);
    FloorNonNeg(stake * PPM, c.eff);
    TruncateMeetsClamp(GrossPayout(c.eff, stake));
  }

  /** One allocation always fills whole, and pays what detection said it would exactly when
      the two reductions of its payout agree. */
  lemma {:induction false} AllocationFills(
    config: MarketConfig, cs: seq<Candidate>, plan: seq<nat>, scan: Scan, signal: Signal, legs: seq<Leg>,
    t: LatencyTable, i: nat, arrivalNs: nat)
    requires Detected(config, cs, plan, scan, signal, legs)
    requires Matched(config, t) && i < |legs|
    ensures var a, leg := signal.allocations[i], legs[i];
            var f := AtQuote(leg, a.stake, Some(leg.quoted), DepthOnArrival(t, leg.venue, leg.capacity), arrivalNs);
            && f.status.Filled? && f.filled == a.stake && f.net == Narrowed(a, leg)
            && (AtLeg(f, a, scan) <==> PayoutAgrees(a, leg))
  {
    AllocationSource(config, cs, plan, scan, signal, legs, i);
    SurvivingStakeFills(config, cs[plan[signal.allocations[i].leg]], t, signal.allocations[i].stake, arrivalNs);
  }

  /** A leg filled its whole allocation for the payout detection reported. */
  ghost predicate AtLeg(f: LegFill, a: Allocation, scan: Scan) {
    && f.status.Filled? && f.filled == a.stake && f.net == a.payout
    && a.stake > 0 && a.leg < |scan.legs| && f.outcome == scan.legs[a.leg].outcome
    && 0 <= f.net <= CENTS_MAX
  }

  ghost predicate AsPromised(fills: seq<LegFill>, signal: Signal, scan: Scan) {
    |fills| == |signal.allocations| && forall i :: 0 <= i < |fills| ==> AtLeg(fills[i], signal.allocations[i], scan)
  }

  lemma {:induction false} GroupOfOutcome(legs: seq<BookLeg>, groupOf: seq<nat>, x: nat, group: nat)
    requires GroupsOutcomes(legs, groupOf, |legs|, Outcomes(legs, |legs|))
    requires x < |legs| && group < |Outcomes(legs, |legs|)|
    ensures legs[x].outcome == Outcomes(legs, |legs|)[group] <==> groupOf[x] == group
  {
    if groupOf[x] < group {
      OutcomesDistinct(legs, |legs|, groupOf[x], group);
    } else if group < groupOf[x] {
      OutcomesDistinct(legs, |legs|, group, groupOf[x]);
    }
  }

  /** Every leg of the signal was filled whole, without chasing, for its narrowed payout. */
  ghost predicate AllFilled(r: Report, signal: Signal, legs: seq<Leg>) {
    !r.chased && FillsWhole(r.fills, signal, legs)
  }

  ghost predicate FillsWhole(fills: seq<LegFill>, signal: Signal, legs: seq<Leg>) {
    && |fills| == |signal.allocations| == |legs|
    && forall i :: 0 <= i < |fills| ==> FillsLeg(fills[i], signal.allocations[i], legs[i])
  }

  ghost predicate FillsLeg(f: LegFill, a: Allocation, leg: Leg) {
    f.status.Filled? && f.filled == a.stake > 0 && f.net == Narrowed(a, leg)
  }

  // ---- Realized profit ----

  /** No leg's payout narrows to less than the least payout reported for an outcome. */
  ghost predicate NarrowsNoLower(signal: Signal, legs: seq<Leg>) {
    && |legs| == |signal.allocations|
    && forall i :: 0 <= i < |legs| ==>
                     Narrowed(signal.allocations[i], legs[i]) >= signal.worstCaseProfit + signal.totalStake
  }

  /** Every leg's payout narrows to more than all the stakes. */
  ghost predicate NarrowsAboveStake(signal: Signal, legs: seq<Leg>) {
    && |legs| == |signal.allocations|
    && forall i :: 0 <= i < |legs| ==> Narrowed(signal.allocations[i], legs[i]) > signal.totalStake
  }

  /** No two legs of a plan back the same outcome. */
  ghost predicate Unsplit(legs: seq<Leg>) {
    forall i, j :: 0 <= i < j < |legs| ==> legs[i].outcome != legs[j].outcome
  }

  /** What an attempt realizes: never more than detection reported, and exactly that when no
      payout narrows too low; it is clean exactly when every payout still covers the stakes. */
  ghost predicate RealizesWithin(r: Report, signal: Signal, legs: seq<Leg>) {
    && r.pnl.filled == signal.totalStake
    && r.pnl.realized <= signal.worstCaseProfit
    && (r.pnl.realized == signal.worstCaseProfit <==> NarrowsNoLower(signal, legs))
    && (r.classification.CleanFill? <==> NarrowsAboveStake(signal, legs))
  }

  /** The attempt changes total capital by the worst-case profit of its signal. */
  ghost predicate PaysReported(r: Report, signal: Signal) {
    Credit(r.fills) - Staked(r.fills, |r.fills|) == signal.worstCaseProfit
  }

  lemma {:induction false} StakesAgree(fills: seq<LegFill>, signal: Signal, legs: seq<Leg>, k: nat)
    requires FillsWhole(fills, signal, legs) && k <= |fills|
    ensures Staked(fills, k) == AllocatedStake(signal.allocations, k)
  {
    if k > 0 {
      StakesAgree(fills, signal, legs, k - 1);
      assert FillsLeg(fills[k - 1], signal.allocations[k - 1], legs[k - 1]);
    }
  }

  /** What is left of the least payout, and what is credited, follow from the narrowed
      payouts. Leg `k` is one that pays no more than the least payout reported. */
  lemma {:induction false} NetsDecide(fills: seq<LegFill>, signal: Signal, legs: seq<Leg>, k: nat)
    requires FillsWhole(fills, signal, legs) && k < |legs| && 0 < signal.worstCaseProfit
    requires 0 < signal.totalStake == AllocatedStake(signal.allocations, |signal.allocations|) <= CENTS_MAX
    requires Narrowed(signal.allocations[k], legs[k]) <= signal.worstCaseProfit + signal.totalStake <= CENTS_MAX
    ensures var pnl := PnlOf(fills, signal.totalStake, signal.worstCaseProfit);
            && pnl.filled == signal.totalStake
            && pnl.realized <= signal.worstCaseProfit
            && (pnl.realized == signal.worstCaseProfit <==> NarrowsNoLower(signal, legs))
            && (pnl.realized > 0 <==> NarrowsAboveStake(signal, legs))
    ensures Credit(fills) - Staked(fills, |fills|) == signal.worstCaseProfit <==> NarrowsNoLower(signal, legs)
  {
    var n := |fills|;
    StakesAgree(fills, signal, legs, n);
    assert forall i :: 0 <= i < n ==> FillsLeg(fills[i], signal.allocations[i], legs[i]);
    RealizedFromLeast(fills, signal.totalStake, signal.worstCaseProfit);
    LeastNetBounds(fills, n);
    var w := WinnerOf(fills, n);
    assert w.Some? && fills[w.value].net <= fills[k].net;
  }

  /** The outcome that pays least: some allocation backs it. */
  lemma {:induction false} WorstOutcome(
    legs: seq<BookLeg>, groupOf: seq<nat>, n: nat, budget: int, signal: Signal, slots: seq<Slot>)
    returns (group: nat, k: nat)
    requires |legs| <= |groupOf| && Sound(legs, groupOf, n, budget, signal, slots)
    ensures group < n && k < |signal.allocations| && Backs(signal.allocations[k], groupOf, group)
    ensures ToCents(AllocatedPayout(signal.allocations, groupOf, group, |signal.allocations|))
            == signal.worstCaseProfit + signal.totalStake
    ensures 0 < signal.worstCaseProfit
    ensures 0 < signal.totalStake == AllocatedStake(signal.allocations, |signal.allocations|) <= budget
  {
    group :| group < n && OutcomeTight(signal, groupOf, group);
    assert OutcomeCovered(signal, groupOf, group);
    k :| k < |signal.allocations| && Backs(signal.allocations[k], groupOf, group);
  }

  /** An outcome is paid at least what any allocation backing it pays. */
  lemma {:induction false} PaidAtLeast(a: seq<Allocation>, groupOf: seq<nat>, group: nat, k: nat, n: nat)
    requires k < |a| && n <= |a| && Backs(a[k], groupOf, group)
    requires forall i :: 0 <= i < |a| ==> a[i].payout >= 0
    ensures AllocatedPayout(a, groupOf, group, n) >= if k < n then a[k].payout else 0
  {
    if n > 0 {
      PaidAtLeast(a, groupOf, group, k, n - 1);
    }
  }

  /** Some leg narrows to no more than the least payout reported for an outcome. */
  lemma {:induction false} WorstLeg(
    config: MarketConfig, cs: seq<Candidate>, plan: seq<nat>, scan: Scan, signal: Signal, legs: seq<Leg>)
    returns (k: nat)
    requires Detected(config, cs, plan, scan, signal, legs)
    ensures k < |legs| == |signal.allocations| && 0 < signal.worstCaseProfit
    ensures 0 < signal.totalStake == AllocatedStake(signal.allocations, |signal.allocations|) <= CENTS_MAX
    ensures Narrowed(signal.allocations[k], legs[k]) <= signal.worstCaseProfit + signal.totalStake <= CENTS_MAX
  {
    DetectedIsSound(config, cs, plan, scan, signal, legs);
    var g;
    g, k := WorstOutcome(
      scan.legs, scan.groupOf, |Outcomes(scan.legs, |scan.legs|)|, config.budget, signal, SlotsOf(scan));
    LeastLeg(config, cs, plan, scan, signal, legs, g, k);
  }

  /** A leg that backs an outcome narrows to no more than the outcome is reported to pay. */
  lemma {:induction false} LeastLeg(
    config: MarketConfig, cs: seq<Candidate>, plan: seq<nat>, scan: Scan, signal: Signal, legs: seq<Leg>,
    group: nat, k: nat)
    requires Detected(config, cs, plan, scan, signal, legs) && k < |legs|
    requires Backs(signal.allocations[k], scan.groupOf, group)
    ensures Narrowed(signal.allocations[k], legs[k])
            <= ToCents(AllocatedPayout(signal.allocations, scan.groupOf, group, |signal.allocations|)) <= CENTS_MAX
  {
    var a := signal.allocations;
    forall i | 0 <= i < |a|
      ensures 0 <= a[i].payout
    {
      AllocationPays(config, cs, plan, scan, signal, legs, i);
    }
    AllocationPays(config, cs, plan, scan, signal, legs, k);
    PaidAtLeast(a, scan.groupOf, group, k, |a|);
  }

  // ---- Agreement ----

  /** Detection and fill agree. A signal sent at its own quotes with its raw depths, at venues
      whose shares match, fills every leg whole without chasing, and never realizes more than
      the worst case detection reported. It realizes exactly that if and only if no payout
      narrows to less than the least one reported; it pays every leg what detection reported
      if and only if every payout narrows to its clamp. */
  lemma {:induction false} DetectionAndFillAgree(
    config: MarketConfig, cs: seq<Candidate>, plan: seq<nat>, scan: Scan, signal: Signal, legs: seq<Leg>,
    t: LatencyTable, sim: SimConfig, sentNs: nat)
    requires Detected(config, cs, plan, scan, signal, legs)
    requires Matched(config, t)
    ensures var a := AtItsQuotes(sentNs, signal, legs);
            && Shaped(a) && Staking(a)
            && var r := ReportOf(t, sim, a);
               && AllFilled(r, signal, legs) && RealizesWithin(r, signal, legs)
               && (AsPromised(r.fills, signal, scan) <==> PayoutsAgree(signal.allocations, legs))
               && (PaysReported(r, signal) <==> NarrowsNoLower(signal, legs))
  {
    FillsAsPromised(config, cs, plan, scan, signal, legs, t, sim, sentNs);
    var k := WorstLeg(config, cs, plan, scan, signal, legs);
    ReportDecided(t, sim, AtItsQuotes(sentNs, signal, legs), k);
  }

  /** A report of legs filled whole is decided by their narrowed payouts. */
  lemma {:induction false} ReportDecided(t: LatencyTable, sim: SimConfig, a: Attempt, k: nat)
    requires Shaped(a) && AllFilled(ReportOf(t, sim, a), a.signal, a.legs) && k < |a.legs|
    requires var s := a.signal;
             && 0 < s.worstCaseProfit && 0 < s.totalStake == AllocatedStake(s.allocations, |s.allocations|) <= CENTS_MAX
             && Narrowed(s.allocations[k], a.legs[k]) <= s.worstCaseProfit + s.totalStake <= CENTS_MAX
    ensures RealizesWithin(ReportOf(t, sim, a), a.signal, a.legs)
    ensures PaysReported(ReportOf(t, sim, a), a.signal) <==> NarrowsNoLower(a.signal, a.legs)
  {
    var fills := FillsOf(t, sim, a);
    assert forall i :: 0 <= i < |fills| ==> FillsLeg(fills[i], a.signal.allocations[i], a.legs[i]);
    NetsDecide(fills, a.signal, a.legs, k);
  }

  /** A detected signal makes a plan that can be simulated. */
  lemma {:induction false} DetectedCanBeSent(
    config: MarketConfig, cs: seq<Candidate>, plan: seq<nat>, scan: Scan, signal: Signal, legs: seq<Leg>, sentNs: nat)
    requires Detected(config, cs, plan, scan, signal, legs)
    ensures Shaped(AtItsQuotes(sentNs, signal, legs)) && Staking(AtItsQuotes(sentNs, signal, legs))
  {
    DetectedIsSound(config, cs, plan, scan, signal, legs);
    TwoAllocations(scan.legs, scan.groupOf, |Outcomes(scan.legs, |scan.legs|)|, config.budget, signal, SlotsOf(scan));
    forall i | 0 <= i < |legs|
      ensures signal.allocations[i].stake > 0
    {
      AllocationSource(config, cs, plan, scan, signal, legs, i);
    }
  }

  lemma {:induction false} FillsAsPromised(
    config: MarketConfig, cs: seq<Candidate>, plan: seq<nat>, scan: Scan, signal: Signal, legs: seq<Leg>,
    t: LatencyTable, sim: SimConfig, sentNs: nat)
    requires Detected(config, cs, plan, scan, signal, legs)
    requires Matched(config, t)
    ensures var a := AtItsQuotes(sentNs, signal, legs);
            && Shaped(a) && Staking(a) && !IsChased(t, sim, a) && AllFilled(ReportOf(t, sim, a), signal, legs)
            && (AsPromised(LoneFills(t, a), signal, scan) <==> PayoutsAgree(signal.allocations, legs))
  {
    var a := AtItsQuotes(sentNs, signal, legs);
    DetectedCanBeSent(config, cs, plan, scan, signal, legs, sentNs);
    LegsFill(config, cs, plan, scan, signal, legs, t, sentNs);
    WholeReport(t, sim, a, scan);
  }

  /** What the report of an attempt whose legs all fill says. */
  lemma {:induction false} WholeReport(t: LatencyTable, sim: SimConfig, a: Attempt, scan: Scan)
    requires Shaped(a)
    requires forall i :: 0 <= i < |a.legs| ==>
                           && FillsLeg(Lone(t, a, i), a.signal.allocations[i], a.legs[i])
                           && (AtLeg(Lone(t, a, i), a.signal.allocations[i], scan)
                               <==> PayoutAgrees(a.signal.allocations[i], a.legs[i]))
    ensures !IsChased(t, sim, a) && AllFilled(ReportOf(t, sim, a), a.signal, a.legs)
    ensures AsPromised(LoneFills(t, a), a.signal, scan) <==> PayoutsAgree(a.signal.allocations, a.legs)
  {
    NothingMoved(t, sim, a);
    assert forall i :: 0 <= i < |a.legs| ==> LoneFills(t, a)[i] == Lone(t, a, i);
  }

  lemma {:induction false} LegsFill(
    config: MarketConfig, cs: seq<Candidate>, plan: seq<nat>, scan: Scan, signal: Signal, legs: seq<Leg>,
    t: LatencyTable, sentNs: nat)
    requires Detected(config, cs, plan, scan, signal, legs) && Matched(config, t)
    requires Shaped(AtItsQuotes(sentNs, signal, legs)) && Staking(AtItsQuotes(sentNs, signal, legs))
    ensures var a := AtItsQuotes(sentNs, signal, legs);
            forall i :: 0 <= i < |legs| ==>
                          && FillsLeg(Lone(t, a, i), signal.allocations[i], legs[i])
                          && (AtLeg(Lone(t, a, i), signal.allocations[i], scan)
                              <==> PayoutAgrees(signal.allocations[i], legs[i]))
  {
    var a := AtItsQuotes(sentNs, signal, legs);
    forall i | 0 <= i < |legs|
      ensures FillsLeg(Lone(t, a, i), signal.allocations[i], legs[i])
      ensures AtLeg(Lone(t, a, i), signal.allocations[i], scan) <==> PayoutAgrees(signal.allocations[i], legs[i])
    {
      AllocationFills(config, cs, plan, scan, signal, legs, t, i, Arrives(t, a, i));
    }
  }

  /** Legs that fill on their own are not chased. */
  lemma {:induction false} NothingMoved(t: LatencyTable, sim: SimConfig, a: Attempt)
    requires Shaped(a) && forall i :: 0 <= i < |a.legs| ==> Lone(t, a, i).status.Filled?
    ensures !IsChased(t, sim, a) && ReportOf(t, sim, a).fills == LoneFills(t, a) && !ReportOf(t, sim, a).chased
  {
    assert forall i :: 0 <= i < |a.legs| ==> !LegMoved(Lone(t, a, i));
  }

  lemma {:induction false} TwoAllocations(
    legs: seq<BookLeg>, groupOf: seq<nat>, n: nat, budget: int, signal: Signal, slots: seq<Slot>)
    requires |legs| <= |groupOf| && n >= 2 && Sound(legs, groupOf, n, budget, signal, slots)
    ensures |signal.allocations| >= 2
  {
    assert OutcomeCovered(signal, groupOf, 0) && OutcomeCovered(signal, groupOf, 1);
    var j :| 0 <= j < |signal.allocations| && Backs(signal.allocations[j], groupOf, 0);
    var k :| 0 <= k < |signal.allocations| && Backs(signal.allocations[k], groupOf, 1);
    assert j != k;
  }

  /** The detection behind what an evaluation returned. */
  function ScanBehind(e: Evaluation, found: MarketSignal): Scan {
    if e.shopped.result == Ok(Some(found.signal)) then e.shopped else e.single
  }

  /** Execution legs rebuilt from the whole plan serve a detection over its prefix. */
  lemma {:induction false} PrefixMirrors(
    config: MarketConfig, cs: seq<Candidate>, plan: seq<nat>, n: nat, scan: Scan, signal: Signal, legs: seq<Leg>)
    requires n <= |plan| && ScanOf(config, cs, plan[..n], scan) && scan.result == Ok(Some(signal))
    requires Mirrors(config, cs, plan, signal.allocations, legs)
    ensures Mirrors(config, cs, plan[..n], signal.allocations, legs)
  {
    SignalLegsExist(config, cs, plan[..n], scan, signal);
  }

  lemma {:induction false} EvaluatedIsDetected(
    config: MarketConfig, quotes: MarketQuotes, e: Evaluation, found: MarketSignal)
    requires QuotesFor(config, quotes) && Evaluated(config, quotes, Ok(Some(found)), e)
    ensures Detected(config, e.candidates, e.plan, ScanBehind(e, found), found.signal, found.plan)
            || Detected(
                 config, e.candidates, e.plan[..config.outcomeCount], ScanBehind(e, found), found.signal, found.plan)
  {
    var cs, wide, narrow := e.candidates, e.plan, e.plan[..config.outcomeCount];
    assert Better(e.shopped.result.value, e.single.result.value) == Some(found.signal);
    if e.shopped.result == Ok(Some(found.signal)) {
      assert Detected(config, cs, wide, e.shopped, found.signal, found.plan);
    } else {
      PrefixMirrors(config, cs, wide, config.outcomeCount, e.single, found.signal, found.plan);
      assert Detected(config, cs, narrow, e.single, found.signal, found.plan);
    }
  }

  // ---- Unsplit signals ----

  /** An outcome that one allocation backs is paid by that one. */
  lemma {:induction false} PaidAlone(a: seq<Allocation>, groupOf: seq<nat>, group: nat, k: nat, n: nat)
    requires k < |a| && n <= |a|
    requires forall i :: 0 <= i < |a| ==> (Backs(a[i], groupOf, group) <==> i == k)
    ensures AllocatedPayout(a, groupOf, group, n) == if k < n then a[k].payout else 0
  {
    if n > 0 {
      PaidAlone(a, groupOf, group, k, n - 1);
      assert Backs(a[n - 1], groupOf, group) <==> n - 1 == k;
    }
  }

  lemma {:induction false} BacksAlone(
    config: MarketConfig, cs: seq<Candidate>, plan: seq<nat>, scan: Scan, signal: Signal, legs: seq<Leg>,
    group: nat, k: nat)
    requires Detected(config, cs, plan, scan, signal, legs) && Unsplit(legs) && k < |legs|
    requires |scan.legs| <= |scan.groupOf| && group < |Outcomes(scan.legs, |scan.legs|)|
    requires GroupsOutcomes(scan.legs, scan.groupOf, |scan.legs|, Outcomes(scan.legs, |scan.legs|))
    requires Backs(signal.allocations[k], scan.groupOf, group)
    ensures forall i :: 0 <= i < |legs| ==> (Backs(signal.allocations[i], scan.groupOf, group) <==> i == k)
  {
    var a := signal.allocations;
    AllocationSource(config, cs, plan, scan, signal, legs, k);
    GroupOfOutcome(scan.legs, scan.groupOf, a[k].leg, group);
    forall i | 0 <= i < |legs|
      ensures Backs(a[i], scan.groupOf, group) <==> i == k
    {
      AllocationSource(config, cs, plan, scan, signal, legs, i);
      GroupOfOutcome(scan.legs, scan.groupOf, a[i].leg, group);
    }
  }

  /** With one leg an outcome every leg is reported to pay at least the worst case. */
  lemma {:induction false} LegCoversWorst(
    config: MarketConfig, cs: seq<Candidate>, plan: seq<nat>, scan: Scan, signal: Signal, legs: seq<Leg>, i: nat)
    requires Detected(config, cs, plan, scan, signal, legs) && Unsplit(legs) && i < |legs|
    ensures signal.allocations[i].payout >= signal.worstCaseProfit + signal.totalStake
  {
    var a := signal.allocations;
    DetectedIsSound(config, cs, plan, scan, signal, legs);
    AllocationSource(config, cs, plan, scan, signal, legs, i);
    var g := scan.groupOf[a[i].leg];
    BacksAlone(config, cs, plan, scan, signal, legs, g, i);
    PaidAlone(a, scan.groupOf, g, i, |a|);
    assert OutcomeCovered(signal, scan.groupOf, g);
  }

  /** So a signal that splits no outcome and pays every leg what detection reported realizes
      exactly the reported worst case, as a clean fill. */
  lemma {:induction false} UnsplitNarrowsNoLower(
    config: MarketConfig, cs: seq<Candidate>, plan: seq<nat>, scan: Scan, signal: Signal, legs: seq<Leg>)
    requires Detected(config, cs, plan, scan, signal, legs) && Unsplit(legs)
    requires PayoutsAgree(signal.allocations, legs)
    ensures NarrowsNoLower(signal, legs) && NarrowsAboveStake(signal, legs)
  {
    DetectedIsSound(config, cs, plan, scan, signal, legs);
    forall i | 0 <= i < |legs|
      ensures Narrowed(signal.allocations[i], legs[i]) >= signal.worstCaseProfit + signal.totalStake
    {
      LegCoversWorst(config, cs, plan, scan, signal, legs, i);
      AllocationPays(config, cs, plan, scan, signal, legs, i);
      assert PayoutAgrees(signal.allocations[i], legs[i]);
    }
  }

  // ---- Whatever an evaluation returns ----

  /** The plan of the detection behind a signal. */
  lemma {:induction false} PlanBehind(
    config: MarketConfig, quotes: MarketQuotes, e: Evaluation, found: MarketSignal)
    returns (plan: seq<nat>)
    requires QuotesFor(config, quotes) && Evaluated(config, quotes, Ok(Some(found)), e)
    ensures Detected(config, e.candidates, plan, ScanBehind(e, found), found.signal, found.plan)
  {
    EvaluatedIsDetected(config, quotes, e, found);
    var scan, narrow := ScanBehind(e, found), e.plan[..config.outcomeCount];
    plan := if Detected(config, e.candidates, narrow, scan, found.signal, found.plan) then narrow else e.plan;
  }

  /** Whatever signal an evaluation of a market returns, the simulator fills every leg of its
      plan whole and never realizes more than the reported worst case, with the same exact
      conditions for realizing all of it and for paying every leg what detection reported. */
  lemma {:induction false} SignalFillsAsPromised(
    config: MarketConfig, quotes: MarketQuotes, e: Evaluation, found: MarketSignal,
    t: LatencyTable, sim: SimConfig, sentNs: nat)
    requires QuotesFor(config, quotes) && Evaluated(config, quotes, Ok(Some(found)), e)
    requires Matched(config, t)
    ensures var a := AtItsQuotes(sentNs, found.signal, found.plan);
            && Shaped(a) && Staking(a)
            && var r := ReportOf(t, sim, a);
               && AllFilled(r, found.signal, found.plan) && RealizesWithin(r, found.signal, found.plan)
               && (AsPromised(r.fills, found.signal, ScanBehind(e, found))
                   <==> PayoutsAgree(found.signal.allocations, found.plan))
    ensures Unsplit(found.plan) && PayoutsAgree(found.signal.allocations, found.plan) ==>
              NarrowsNoLower(found.signal, found.plan) && NarrowsAboveStake(found.signal, found.plan)
  {
    var plan := PlanBehind(config, quotes, e, found);
    var scan := ScanBehind(e, found);
    DetectionAndFillAgree(config, e.candidates, plan, scan, found.signal, found.plan, t, sim, sentNs);
    if Unsplit(found.plan) && PayoutsAgree(found.signal.allocations, found.plan) {
      UnsplitNarrowsNoLower(config, e.candidates, plan, scan, found.signal, found.plan);
    }
  }

  /** From detection to capital: trading such a signal at its quotes changes total capital by
      exactly the worst-case profit detection reported, if and only if no leg's payout narrows
      to less than the least payout reported. */
  lemma {:induction false} SignalPaysReported(
    config: MarketConfig, quotes: MarketQuotes, e: Evaluation, found: MarketSignal,
    t: LatencyTable, sim: SimConfig, sentNs: nat)
    requires QuotesFor(config, quotes) && Evaluated(config, quotes, Ok(Some(found)), e)
    requires Matched(config, t)
    ensures var a := AtItsQuotes(sentNs, found.signal, found.plan);
            Shaped(a) && (PaysReported(ReportOf(t, sim, a), found.signal) <==> NarrowsNoLower(found.signal, found.plan))
  {
    var plan := PlanBehind(config, quotes, e, found);
    DetectionAndFillAgree(
      config, e.candidates, plan, ScanBehind(e, found), found.signal, found.plan, t, sim, sentNs);
  }
}
