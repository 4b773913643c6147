# Arbkit: a verified model

This project models the core of a cross-venue arbitrage engine for prediction markets and
proves what its code is for. Prices are implied probabilities in parts per million, money is
whole cents, and every rounding step of the code is kept.

## What is modelled

**The planner** (`Price`, `Fees`, `WaterFill`, `Plans`, `Rounds`, `Sizing`, `Search`, `Parity`,
`Cost`, `Flatten`, `Planner`, `Determinism`). Several books are flattened into at most sixteen chunks, the best price of
each outcome first. If those prices reach parity the planner stops. Otherwise it weighs a
closed-form plan and then searches the guaranteed payout by halving; each probe fills every
outcome to the target like water, freezing the chunks whose depth is overwhelmed.

* `WaterFill` is the theory of one outcome. A *level* is a set of live chunks such that a chunk is
  live exactly when its share fits its depth. The rounding up of shares, of stakes and to
  increments cancels out of that test, so a level is a question about products only. Each freeze
  strictly raises remaining/price-sum; a target has one level, it has one exactly up to the
  full-depth payout, and a larger target freezes more and stakes more on every chunk.
* `Sizing` proves the in-place rounds against that theory: they reach the level, the repair step
  finds nothing to move, and sizing succeeds exactly when depth allows.
* `Rounds` states the stakes of a group as a function of the target, clamps and repair step
  included, and `Sizing` proves the code against it; `Search` lists the plans the halvings weigh.
* `Search` proves that 96 halvings suffice for every budget, and that the search ends at the
  greatest feasible target, that is the greatest whose water plan depth and budget allow, whenever
  the top of its range fits money.
* `Cost` compares the water plan with the cheapest plan.
* `Parity` proves that no stakes at all profit at or above parity, and bounds profit below it.
* `Planner` proves that a returned signal is sound and that the kept plan is the first most
  profitable of those weighed, the seed among them.
* `Determinism` proves that the same legs, quotes or books always give the same answer, to the cent.

**The lock-free ring** (`Ring`). Two threads take steps in any order; payload words move one at
a time and the turn is loaded and stored on its own. Every interleaving is one of a bounded FIFO
queue exactly when the capacity is at least two; a concrete run shows a one-slot ring overwriting
an unread item. The same code as a class, for callers that do not overlap, is `SpscRing`: it is
exact for every capacity, one included.

**Token ids** (`TokenId`). The 256-bit decimal parser, the printer over 64-bit limbs and the
bytewise printer. All are tied to one positional reading of digits, so parsing and printing invert
each other and the two printers agree.

**From books to capital** (`Book`, `Slab`, `Aggregator`, `Engine`, `Fill`, `Simulator`,
`Agreement`, `Bankroll`). A book is trusted exactly when the history of its feed says so. The
aggregator selects candidates and keeps the better of two detections; the simulator fills its legs
on arrival; the trade loop reserves, commits and settles capital. `Engine` composes the hot loop:
whatever it emits stands on quotes that are live in the history of the feed. `Agreement` joins the
two halves: any signal simulated at its own quotes fills whole and never realizes more than
detection reported, and it realizes exactly that if and only if no payout narrows too low.

**The execution boundary** (`Hedge`, `WriteAhead`, `Ledger`, `Reconcile`). Runs are stated as traces:
what every operation returned and the state after each. The risk gate conserves capital and stays
solvent at every moment of every session, with arbitrary venue answers. The write-ahead protocol
keeps every outstanding order on disk through failed commits and crashes, exactly as long as plans
use fresh ids. The ledger counts each distinct fill once. The reconciler closes each registration
once, and drops none exactly when no pass is refused.

`Histogram` proves that the percentile scan is an order statistic. `Arith` and `Quotes` hold shared
arithmetic and data.

## Where the code and its comments differ

* `crates/arbkit-core/src/lib.rs:29-30` says effective prices round up. Stake fees and rebates floor
  (`crates/arbkit-core/src/fee.rs:79-96`); only commissions round up. A stake fee rounds up exactly
  when nothing is left to round or the price reaches certainty, a rebate exactly when nothing is left
  or the price is the least (`Fees.StakeFeeRoundsUpExactly`, `Fees.RebateRoundsUpExactly`);
  `Fees.FeesCanRoundDown` has an input for each. The direction of every fee is proved all the same.
* `crates/arbkit-core/src/fee.rs:44-46` and `87-89` say that flooring never credits a rebate for more
  than it is worth. Flooring the price does: one basis point off three is two (`Fees.FeesCanRoundDown`),
  and no more is credited than the rebate is worth exactly where `Fees.RebateRoundsUpExactly` says.
* `crates/arbkit-core/src/arb.rs:336-337` and `463-464` say that a target is sized as cheaply as depth
  allows, and that no plan within the budget pays it when none is returned. With one chunk on every
  outcome both hold (`Cost.WaterPlanIsCheapest`, `Cost.FeasibleExactlyWhenPayable`). With more they
  need not: `Cost.WaterCanBeDearer` has a target the water plan reaches for 62 and another plan for
  40, within a budget of 50.
* Detection clamps a payout beyond what money can hold, and the fill narrows it to 64 bits
  (`crates/arbkit-core/src/arb.rs:272-274`, `crates/arbkit-sim/src/order.rs:197-201`). Every leg is paid
  what detection reported exactly when the two agree on every allocation
  (`Agreement.SignalFillsAsPromised`); `Fill.TruncationBreaksAPayout` has a stake on which they do not.
* `spsc_ring` accepts a capacity of one (`crates/arbkit-engine/src/ring.rs:84-87`), at which the ring
  is not a queue. `Ring.FifoExactlyFromTwo` gives the exact condition.
* `checkpoint` and `register_inflight` start from an empty state when the file does not load, so a
  failed load drops recorded orders. `WriteAhead.FailedLoadLosesOthers` and
  `WriteAhead.FailedLoadCheckpointLosesAll` say exactly when that loses an outstanding order;
  `WriteAhead.FailedLoadLosesAnOrder` is a whole run, from nothing, that loses one.
* A client order id depends only on market, venue and outcome
  (`crates/arbkit-exec/src/lib.rs:96-102`), so two orders on one id can be outstanding at once, and
  the store keeps one entry an id. A plan is safe exactly when neither of its ids is outstanding and
  the two differ (`WriteAhead.SafeExactlyWhenFresh`); `WriteAhead.ReusedIdLosesAnOrder` is a whole
  run, from nothing, that loses one.
* A poll whose fill matches no order leaves the reconciler's in-flight list drained
  (`crates/arbkit-exec/src/reconcile.rs:130-165`). A pass is refused exactly when some report finds no
  order in its turn (`Reconcile.Reconciler.Reconcile`), which cannot happen when the reports name
  registered clients (`Reconcile.NeverRefused`); `Reconcile.UnmatchedReportDropsTheOrder` is a pass
  that drops an order.

## Model

| member | source | states |
|---|---|---|
| Price.ReciprocalRoundTrip | crates/arbkit-core/src/price.rs:48-51 | at every scale, rounding the reciprocal to nearest twice gives back any price up to one |
| Price.ProbOddsRoundTrip | crates/arbkit-core/src/price.rs:140-192 | every probability survives conversion to decimal odds and back |
| Price.ToOddsAntitone | crates/arbkit-core/src/price.rs:140-142 | rounding keeps the order: a smaller probability never gets shorter odds |
| Fees.CommissionPriceInRange | crates/arbkit-core/src/fee.rs:64-78 | the cap at one never binds for commissions, and the price is never zero |
| Fees.CommissionIsLeastCoveringPrice | crates/arbkit-core/src/fee.rs:64-78 | the commission price times the net odds is at least 10^12, and no smaller price has that property |
| Fees.StakeFeeIsFloor | crates/arbkit-core/src/fee.rs:79-84 | a stake fee charges its whole rate rounded down, up to certainty: the price is pinned by products alone |
| Fees.RebateIsFloor | crates/arbkit-core/src/fee.rs:85-96 | a rebate credits its whole rate rounded down, and no price falls below one |
| Fees.StakeFeeRoundsUpExactly | crates/arbkit-core/src/fee.rs:79-84 | the exact prices and rates at which a stake fee rounds up, as the crate documentation says of every effective price |
| Fees.RebateRoundsUpExactly | crates/arbkit-core/src/fee.rs:85-96 | the same for rebates |
| Fees.FeesCanRoundDown | crates/arbkit-core/src/lib.rs:29-30 | a stake fee and a rebate that round down |
| Fees.FeeDirection | crates/arbkit-core/src/fee.rs:59-97 | commissions and stake fees never improve a price despite the round-to-nearest reciprocal; rebates never worsen it |
| Fees.EffectiveMonotone | crates/arbkit-core/src/fee.rs:59-97 | for every fee and rate, a longer quote stays at least as long after the fee |
| WaterFill.NeedFits | crates/arbkit-core/src/arb.rs:395-413 | three roundings later, a chunk needs more than its depth exactly when its share exceeds its full-depth payout, which is a comparison of products |
| WaterFill.FreezeRaisesLevel | crates/arbkit-core/src/arb.rs:370-424 | each freeze strictly raises remaining/price-sum, leaves something to pay, and keeps every frozen chunk overwhelmed |
| WaterFill.LevelExists | crates/arbkit-core/src/arb.rs:351-461 | a level exists for every target within the full-depth payout |
| WaterFill.LevelWithinReach | crates/arbkit-core/src/arb.rs:351-461 | and for no target beyond it |
| WaterFill.LevelUnique | crates/arbkit-core/src/arb.rs:351-461 | a target has one level |
| WaterFill.LevelPaysTarget | crates/arbkit-core/src/arb.rs:426-429 | the floored payouts of a level's stakes add up to at least the target |
| WaterFill.FillingIsMonotone | crates/arbkit-core/src/arb.rs:351-475 | a larger target freezes every chunk a smaller one freezes and stakes no less on any chunk |
| Plans.WaterPlanMonotone | crates/arbkit-core/src/arb.rs:465-475 | over all outcomes, the plan of a larger target costs at least as much |
| Plans.FeasibleDownward | crates/arbkit-core/src/arb.rs:465-475 | feasible targets are downward closed, the premise of the halving search |
| Plans.DepthDecides | crates/arbkit-core/src/arb.rs:351-475 | a positive target has a water plan exactly when every outcome's full-depth payout reaches it: depth alone decides, and below it only the budget can fail a probe |
| Plans.WaterPlanGuarantees | crates/arbkit-core/src/arb.rs:351-475 | the plan of a positive target is legal, stakes something on every chunk and pays every outcome the target |
| Plans.WaterPlanUnique | crates/arbkit-core/src/arb.rs:351-475 | any two plans filled to the same target stake the same on every chunk |
| Sizing.ShareOut | crates/arbkit-core/src/arb.rs:393-413 | one round stakes every live chunk its legal share or its full depth, and marks exactly the overwhelmed ones |
| Sizing.RoundKeeps | crates/arbkit-core/src/arb.rs:370-424 | a round that freezes keeps the invariant, in which something always remains to pay: frozen chunks never cover a positive target |
| Sizing.RoundSettles | crates/arbkit-core/src/arb.rs:414-416 | a round that freezes nothing has found the level |
| Sizing.RoundsExhausted | crates/arbkit-core/src/arb.rs:379-381 | everything frozen means the target was out of reach |
| Sizing.FillRounds | crates/arbkit-core/src/arb.rs:366-424 | as many rounds as members suffice: the stakes are the ones the target determines, for any target, and for those money can express the water level, or full depth everywhere |
| Sizing.RoundsDecide | crates/arbkit-core/src/arb.rs:426-460 | the repair step never moves a stake: after the rounds a group pays a positive target exactly when its depth does, and otherwise every chunk is full |
| Sizing.BestBump | crates/arbkit-core/src/arb.rs:439-451 | the cross-multiplied comparison finds a member buying the most payout per cent among those with depth left |
| Sizing.BumpOnce | crates/arbkit-core/src/arb.rs:435-455 | one repair adds one increment to a best member, stays legal, and adds its exact gain |
| Rounds.BestRoomIsBest | crates/arbkit-core/src/arb.rs:439-451 | the scan of the repair step finds a chunk with room that no other beats in payout per cent, or there is none with room |
| Sizing.Repair | crates/arbkit-core/src/arb.rs:431-455 | repairs keep stakes legal and the payout exact, end where the best increments one by one end, and move nothing when the target is paid or depth is spent |
| Sizing.Distribute | crates/arbkit-core/src/arb.rs:351-461 | the stakes are the ones the target determines and it succeeds exactly when they pay it; for positive targets money can express that is exactly within full-depth payout, with the stakes of the level, and full depth otherwise; other outcomes are untouched |
| Search.Evaluate | crates/arbkit-core/src/arb.rs:322-334 | one pass computes the exact stake and the exact smallest outcome payout |
| Search.Feasible | crates/arbkit-core/src/arb.rs:465-475 | whatever it returns is affordable and pays every outcome the target; for targets money can express it returns exactly when the target is feasible, and for all others exactly when the plan the target determines pays and fits the budget |
| Search.FeasibleMeansAffordable | crates/arbkit-core/src/arb.rs:465-475 | a target is feasible exactly when its water plan fits the budget, so below full depth only the budget can fail |
| Search.OneMoreOffer | crates/arbkit-core/src/arb.rs:508-521 | a tie never replaces the incumbent, which stays the first most profitable of everything offered |
| Search.Best.Offer | crates/arbkit-core/src/arb.rs:508-521 | the incumbent is always the first most profitable plan offered, with its exact total and profit |
| Search.AboveHighestInfeasible | crates/arbkit-core/src/arb.rs:780-793 | nothing above the search range is feasible, by depth or by the cheapest price |
| Search.BudgetBounds | crates/arbkit-core/src/arb.rs:780-784 | no target of an affordable water plan exceeds what the budget buys at the cheapest price |
| Cost.BudgetCapsPayouts | crates/arbkit-core/src/arb.rs:780-784 | an affordable plan of any kind pays no outcome more than the budget buys at the cheapest price |
| Cost.WaterPlanIsCheapest | crates/arbkit-core/src/arb.rs:336-337 | with one chunk an outcome, no legal plan that pays the target stakes less on any outcome |
| Cost.FeasibleExactlyWhenPayable | crates/arbkit-core/src/arb.rs:463-464 | then a target money can express is feasible exactly when some plan within depth and budget pays it everywhere |
| Cost.WaterCanBeDearer | crates/arbkit-core/src/arb.rs:463-464 | two chunks on one outcome and a target the budget affords that the search passes over |
| Search.RangeFits | crates/arbkit-core/src/arb.rs:777-796 | for every budget money can express, 96 halvings exhaust the range |
| Search.Probe | crates/arbkit-core/src/arb.rs:800-807 | a successful probe offers a plan that pays the target; a failed one rules out every larger target |
| Search.SearchPayout | crates/arbkit-core/src/arb.rs:777-808 | the plans offered are exactly those of the successful probes of the halvings, in order; when the top of the range fits money the search ends at the greatest feasible target, with its plan among them |
| Search.OutcomesPaidAreStaked | crates/arbkit-core/src/arb.rs:508-512 | a plan that pays something stakes something, so offers from the search are never dropped |
| Parity.GuaranteeCost | crates/arbkit-core/src/arb.rs:322-334 | a payout guaranteed in every outcome costs at least payout times overround |
| Parity.ProfitBound | crates/arbkit-core/src/arb.rs:712-718 | profit times overround is at most stake times (one less overround), for any non-negative stakes over any chunks |
| Parity.ParityExit | crates/arbkit-core/src/arb.rs:712-718 | at or above parity no stakes make a profit |
| Flatten.BestOfGroup | crates/arbkit-core/src/arb.rs:675-706 | pass one finds an outcome's cheapest usable level, the earliest among equals, or proves there is none |
| Flatten.PassTwo | crates/arbkit-core/src/arb.rs:720-742 | pass two adds exactly the other usable levels in scan order until sixteen chunks are used |
| Flatten.FlatteningDistinct | crates/arbkit-core/src/arb.rs:672-742 | no level is taken twice and none that cannot take a stake |
| Planner.Seed | crates/arbkit-core/src/arb.rs:751-775 | the closed-form plan exists exactly when it stakes something on every outcome |
| Planner.SeedAdmissible | crates/arbkit-core/src/arb.rs:751-775 | it always lies inside depth, increments and budget |
| Planner.SeedNeverLoses | crates/arbkit-core/src/arb.rs:744-812 | the final profit is at least the seed's, and the final stakes are the seed's unless it is strictly more |
| Planner.BestFeasibleNeverLoses | crates/arbkit-core/src/arb.rs:795-812 | the kept plan is at least as profitable as the plan at the greatest feasible target |
| Planner.PlanIsSound | crates/arbkit-core/src/arb.rs:814-840 | dropping unstaked chunks changes no total: every admissible profitable plan is reported as a sound signal |
| Planner.NothingProfitsAtParity | crates/arbkit-core/src/arb.rs:671-718 | at the parity exit nothing is lost: no stakes over any usable levels would have made a profit |
| Planner.Plan | crates/arbkit-core/src/arb.rs:644-840 | errors exactly on a leg without an increment, naming the first; returns nothing only for no budget, an unbacked outcome, parity or no profit; otherwise the first most profitable of the seed and the plans of the halvings, as a sound signal |
| Planner.GroupsAreOutcomes | crates/arbkit-core/src/arb.rs:544-577 | legs share a group exactly when they share an outcome |
| Planner.DetectBook | crates/arbkit-core/src/arb.rs:544-577 | the leg-count errors, and for the rest everything the planner promises, grouped by outcome |
| Determinism.DetectionsAgree | crates/arbkit-core/src/arb.rs:544-840 | any two detections over the same legs and budget give the same answer |
| Determinism.EvaluationsAgree | crates/arbkit-engine/src/aggregator.rs:147-262 | any two evaluations of the same quotes give the same answer, execution plan included |
| Determinism.AnswersAgree | crates/arbkit-engine/src/aggregator.rs:168-171 | the result is deterministic for a given state of the books |
| Ring.StepKeepsInv | crates/arbkit-engine/src/ring.rs:119-168 | every single step of either thread keeps the ring's invariant |
| Ring.RingIsBoundedFifo | crates/arbkit-engine/src/ring.rs:83-168 | in every interleaving the answers are those of a bounded FIFO queue, and what was popped is a prefix of what was pushed |
| Ring.NeverInTheSameSlot | crates/arbkit-engine/src/ring.rs:119-168 | past their turn checks, the two threads are never in the same slot |
| Ring.RefusalMeansFullOrEmpty | crates/arbkit-engine/src/ring.rs:119-160 | a push is refused exactly when the ring is full at the turn load, a pop exactly when it is empty |
| Ring.CapacityOneOverwrites | crates/arbkit-engine/src/ring.rs:84-87 | a run in which a one-slot ring accepts a second item over an unread first |
| Ring.FifoExactlyFromTwo | crates/arbkit-engine/src/ring.rs:83-168 | every interleaving is a queue's exactly when the capacity is at least two |
| Ring.SlotOfIsModulo | crates/arbkit-engine/src/ring.rs:119-124 | the slot of a position is the position modulo the capacity |
| Ring.SpscRing.TryPush | crates/arbkit-engine/src/ring.rs:119-132 | from two slots on it accepts exactly when not full, and appends; a ring of one slot accepts everything |
| Ring.SpscRing.TryPop | crates/arbkit-engine/src/ring.rs:154-168 | returns the oldest item and removes it, or nothing when empty; a ring of one slot delivers only while it holds exactly one item |
| TokenId.ShiftIn | crates/arbkit-match/src/catalog.rs:116-130 | the carry chain multiplies the 32 bytes by ten and adds a digit, and a carry out means 2^256 was reached |
| TokenId.ParseTokenId | crates/arbkit-match/src/catalog.rs:107-133 | fails on text that is not digits, and on digits exactly when the number is 2^256 or more; otherwise gives the bytes of that number |
| TokenId.DivideInPlace | crates/arbkit-match/src/catalog.rs:139-171 | in-place long division of big-endian digits gives the exact quotient and remainder, for limbs and for bytes |
| TokenId.ToDecimal | crates/arbkit-match/src/catalog.rs:139-171 | printing nineteen digits at a time gives exactly the decimal form |
| TokenId.ToDecimalBytewise | crates/arbkit-exec/examples/prod_trader.rs:383-404 | so does printing one digit at a time: the two printers agree on every id |
| TokenId.PrintThenParse | crates/arbkit-match/src/catalog.rs:107-171 | parsing the printed form of any id gives it back |
| TokenId.ParseThenPrint | crates/arbkit-match/src/catalog.rs:107-171 | printing a parsed text gives it without surrounding space and leading zeros |
| TokenId.ParsesDeterministic | crates/arbkit-match/src/catalog.rs:107-133 | the parser's contract leaves one possible result for every text |
| Book.SortByPrice | crates/arbkit-core/src/book.rs:83 | the same levels, best first |
| Book.OutcomeBook.ApplySnapshot | crates/arbkit-core/src/book.rs:80-87 | afterwards the book is trusted and holds the first eight levels, best first |
| Book.OutcomeBook.AcceptSeq | crates/arbkit-core/src/book.rs:94-102 | accepts exactly the next number on a trusted book; otherwise the book goes stale and shows nothing |
| Book.OutcomeBook.DepthTo | crates/arbkit-core/src/book.rs:141-147 | stopping at the first price beyond the limit gives the whole depth within it |
| Slab.FlatIndexBijective | crates/arbkit-engine/src/slab.rs:100-115 | addresses in range fill the array, no two of them the same place |
| Slab.LiveStep | crates/arbkit-engine/src/engine.rs:90-156 | how one event changes which snapshot a book is live since |
| Slab.StepTracks | crates/arbkit-engine/src/engine.rs:90-156 | one book, one event: it stays in step with its history |
| Slab.EngineSlab.Process | crates/arbkit-engine/src/engine.rs:90-156 | after every event each book is trusted exactly when a snapshot came, no covering halt followed and deltas were consecutive; books the event is not about are unchanged |
| Slab.EngineSlab.Levels | crates/arbkit-core/src/book.rs:129-135 | a reader sees nothing from an untrusted book, and otherwise the sorted truncation of the last update |
| Slab.EmitGate.Admitted | crates/arbkit-engine/src/slab.rs:196-207 | a market may emit exactly when the cooldown now in force has passed since its last mark |
| Slab.EmitGate.NoteEmit | crates/arbkit-engine/src/slab.rs:213-218 | an emission leaves a mark unless the clock read zero, and keeps the history spaced |
| Slab.EmissionsApart | crates/arbkit-engine/src/slab.rs:196-218 | any two emissions of a market are at least the cooldown in force at the later one apart, however often it was registered again, while it kept some cooldown |
| Engine.Engine.RegisterMarket | crates/arbkit-engine/src/slab.rs:118-134 | refused exactly for a market out of range or a number of outcomes out of range; a new cooldown leaves the last emission as it was |
| Engine.Engine.ProcessEvent | crates/arbkit-engine/src/engine.rs:79-188 | every event is timed and applied; a signal is emitted exactly when the cooldown allows and the books as they then stand give one; every leg of it is a quote of a book live in the history of the feed |
| Engine.SignalIsLive | crates/arbkit-engine/src/aggregator.rs:89-262 | whatever an evaluation returns is planned on quotes carried by the last update of a book whose snapshot was followed by no halt and no gap |
| Histogram.BinFloor | crates/arbkit-engine/src/histogram.rs:58-91 | the reported latency is never above the sample, and under 100 ms within 10 ns or one percent |
| Histogram.BinOrder | crates/arbkit-engine/src/histogram.rs:58-91 | the two bin maps are adjoint and the round trip of a bin is itself |
| Histogram.RankIsOrderStatistic | crates/arbkit-engine/src/histogram.rs:145-163 | the first bin whose running total reaches a rank is the bin of the sample of that rank in sorted order, and no other |
| Histogram.LatencyHistogram.AtRank | crates/arbkit-engine/src/histogram.rs:145-163 | the scan returns the bin latency of the sample of the given rank |
| Histogram.LatencyHistogram.Record | crates/arbkit-engine/src/histogram.rs:94-106 | bins, count, sum and extremes stay functions of the samples |
| Histogram.LatencyHistogram.BinsSumToCount | crates/arbkit-engine/src/histogram.rs:94-106 | the bins account for every sample |
| Fill.DepthsAgree | crates/arbkit-core/src/fill.rs:54-60 | detection's discount and the simulator's queue model agree at every depth exactly when the two shares make up the whole |
| Fill.EffectiveDepthBounds | crates/arbkit-sim/src/latency.rs:103-110 | transit never makes depth |
| Fill.ConfiguredProfiles | crates/arbkit-sim/src/latency.rs:138-167 | configuring a venue changes its profile and no other's, unless a full table ignores a new venue |
| Fill.LatencyModel.SetVenueProfile | crates/arbkit-sim/src/latency.rs:138-149 | the array of profiles becomes exactly the configured table |
| Fill.LatencyModel.ProfileFor | crates/arbkit-sim/src/latency.rs:159-167 | the scan finds the venue's profile or the default |
| Fill.DepthFills | crates/arbkit-sim/src/simulator.rs:325-381 | a fill is whole exactly when depth allows, otherwise the most whole increments depth allows |
| Fill.QuoteFills | crates/arbkit-sim/src/simulator.rs:298-383 | a leg fills whole exactly when a price no worse than its quote is found with enough depth, and never at a worse price |
| Fill.TruncateMeetsClamp | crates/arbkit-sim/src/order.rs:197-201 | narrowing to 64 bits and clamping give a payout the same value exactly while it fits, and beyond that once in 2^64 |
| Fill.TruncationBreaksAPayout | crates/arbkit-sim/src/order.rs:197-201 | a stake for which detection reports the largest amount of money and the fill pays a negative one |
| Fill.FillPays | crates/arbkit-sim/src/order.rs:173-216 | the net payout is the one detection reports exactly when the two reductions agree; when payouts fit, gross is net plus fee |
| Simulator.RealizedIsGuaranteed | crates/arbkit-sim/src/accounting.rs:43-101 | the realized profit never exceeds what any backed outcome earns, and with one leg an outcome it is what the worst of them earns |
| Simulator.ComputePnl | crates/arbkit-sim/src/accounting.rs:43-101 | the loops compute the saturating sums and the smallest payout |
| Simulator.ClassesAreExact | crates/arbkit-sim/src/simulator.rs:679-752 | clean means every stake filled at a profit, proportional every leg filled at a profit but not all whole, broken exactly a mix of filled and unfilled legs |
| Simulator.LegsFillWithinLimits | crates/arbkit-sim/src/simulator.rs:260-565 | every leg fills within the depth that arrived, at no worse than its quote, or within the chase cap when the whole signal was chased |
| Simulator.Simulator.TryChase | crates/arbkit-sim/src/simulator.rs:474-565 | every leg is refilled at arrival prices exactly when no leg moved too far and an edge is left; otherwise nothing changes |
| Simulator.Simulator.SimulateWithQuotes | crates/arbkit-sim/src/simulator.rs:260-456 | the errors, the report and the counters of an attempt; attempts and shortfalls make up the signals and classes make up the attempts |
| Aggregator.SelectionDistinct | crates/arbkit-engine/src/aggregator.rs:147-184 | no candidate is selected twice |
| Aggregator.ShoppedAreCheapest | crates/arbkit-engine/src/aggregator.rs:172-184 | nothing left out is cheaper than anything shopped for |
| Aggregator.Cover | crates/arbkit-engine/src/aggregator.rs:147-166 | fair coverage takes each outcome's best quote, or names an outcome without one |
| Aggregator.Shop | crates/arbkit-engine/src/aggregator.rs:172-184 | shopping takes the best remaining quote each time until chunks or quotes run out, keeping the covered prefix |
| Aggregator.Better | crates/arbkit-engine/src/aggregator.rs:213-228 | the signal kept is at least as profitable as both detections' |
| Aggregator.EvaluatePlan | crates/arbkit-engine/src/aggregator.rs:199-262 | the result traced to two detections, with an execution plan that mirrors the allocations one to one |
| Aggregator.EvaluateMarket | crates/arbkit-engine/src/aggregator.rs:89-262 | nothing for an inactive market or an unquoted outcome, otherwise what the two detections give |
| Aggregator.ReadMarket | crates/arbkit-engine/src/aggregator.rs:112-144 | quotes are read from the trusted books only |
| Agreement.AllocationFills | crates/arbkit-sim/src/simulator.rs:325-351 | an allocation always fills whole for its payout narrowed to 64 bits, and for the payout detection reported exactly when the two reductions of it agree |
| Agreement.DetectionAndFillAgree | crates/arbkit-engine/src/aggregator.rs:109-262 | a detected signal sent at its quotes fills whole without chasing and never realizes more than the reported worst case; it realizes all of it if and only if no payout narrows below the least reported, is clean if and only if every payout covers the stakes, and pays each leg as reported if and only if the reductions agree |
| Agreement.SignalFillsAsPromised | crates/arbkit-engine/src/aggregator.rs:89-262 | the same for whatever an evaluation returns; with no outcome split and every leg paid as reported, all of the reported profit is realized, as a clean fill |
| Agreement.SignalPaysReported | crates/arbkit-engine/examples/pipeline.rs:966-1033 | trading such a signal changes total capital by exactly the reported worst-case profit, if and only if no payout narrows below the least reported |
| Bankroll.OpenBankroll | crates/arbkit-sim/src/bankroll.rs:90-110 | refuses too many venues and negative balances, otherwise opens with nothing locked |
| Bankroll.Bankroll.Reserve | crates/arbkit-sim/src/bankroll.rs:140-153 | moves an amount the venue has, or changes nothing |
| Bankroll.Bankroll.CommitFill | crates/arbkit-sim/src/bankroll.rs:163-172 | releases the unfilled part, never more than is locked |
| Bankroll.ReserveAll | crates/arbkit-engine/examples/pipeline.rs:966-986 | reserves every leg exactly when all fit in order, otherwise restores every balance |
| Bankroll.CommitAll | crates/arbkit-engine/examples/pipeline.rs:1008-1015 | afterwards exactly the filled stakes are locked |
| Bankroll.SettleAll | crates/arbkit-engine/examples/pipeline.rs:1016-1033 | the first least-payout leg is credited and nothing stays locked |
| Bankroll.Trade | crates/arbkit-engine/examples/pipeline.rs:930-1036 | goes through exactly when well-formed and affordable; any other attempt leaves every balance as it was; nothing stays locked |
| Bankroll.TradeChangesCapital | crates/arbkit-engine/examples/pipeline.rs:1008-1033 | total capital never gains more than the least payout of a filled leg less every stake filled, and exactly that if and only if the balance credited has room for it |
| Bankroll.ChangeIsRealized | crates/arbkit-sim/src/accounting.rs:67-76 | when no leg is unfilled a trade earns at least the realized profit, and exactly that if and only if no payout is negative |
| Bankroll.RunTrades | crates/arbkit-engine/examples/pipeline.rs:930-1036 | attempt by attempt: each goes through exactly when well-formed and affordable at the balances the ones before it left, reports what the simulator does there, leaves the balances that follow, and leaves nothing locked |
| Bankroll.CapitalFollowsTrades | crates/arbkit-engine/examples/pipeline.rs:1008-1033 | over any run of trades total capital never gains more than the trades earned, and exactly that if and only if every balance credited had room |
| Hedge.AcceptedExactlyWithinLimits | crates/arbkit-exec/src/lib.rs:320-349 | the legs are accepted exactly when each is within the cap and within what its venue has left |
| Hedge.TradeAcceptedExactly | crates/arbkit-exec/src/lib.rs:320-349 | a trade is accepted exactly when the switch, the edge, the loss and open-trade caps and every leg allow it |
| Hedge.RiskGate.Preflight | crates/arbkit-exec/src/lib.rs:320-349 | reserves all legs and opens a trade, or gives the first objection and changes no balance |
| Hedge.RiskGate.Execute | crates/arbkit-exec/src/lib.rs:436-515 | a rejection or phantom leaves balances and open trades as they were; a fill or a failed unwind keeps both legs reserved; capital is conserved |
| Hedge.LossesAddUp | crates/arbkit-exec/src/lib.rs:364-370 | at every moment of a session the daily loss is the sum of the losses settled, clamped once: saturating step by step loses nothing and no profit takes a loss back |
| Hedge.LossCapStopsTrading | crates/arbkit-exec/src/lib.rs:320-370 | once losses reach the cap no hedge is sent for the rest of the session |
| Hedge.RunSession | crates/arbkit-exec/src/lib.rs:320-515 | operation by operation: each attempt returns what the state it meets decides, keeps legs out exactly after a fill or a failed unwind, and every operation leaves the state that follows |
| Hedge.CapitalConserved | crates/arbkit-exec/src/lib.rs:320-515 | after every operation of any session each venue has its opening balance less the legs of hedges filled or stuck |
| Hedge.SessionStaysSolvent | crates/arbkit-exec/src/lib.rs:320-515 | a session that starts with no venue overdrawn and the open-trade cap kept stays so after every operation |
| WriteAhead.RiskStateStore.RegisterInFlight | crates/arbkit-exec/src/state.rs:139-153 | once committed the order has exactly one entry, this one, and entries of other orders are as they were, or gone when the file did not load; a failed commit leaves the file |
| WriteAhead.RiskStateStore.Acknowledge | crates/arbkit-exec/src/state.rs:156-171 | marks the first entry of an order, or fails and leaves the file |
| WriteAhead.RiskStateStore.ClearInFlight | crates/arbkit-exec/src/state.rs:177-184 | once committed no entry of the order is left and those of every other order are the same, in order; it succeeds exactly when the file loads and commits, and otherwise leaves it |
| WriteAhead.RiskStateStore.Checkpoint | crates/arbkit-exec/src/state.rs:128-136 | once committed the limits are the live ones and the recorded orders exactly those that loaded |
| WriteAhead.EventKeepsInv | crates/arbkit-exec/examples/prod_trader.rs:1595-1657 | every event of the order protocol, a crash included, keeps the invariant |
| WriteAhead.WriteAheadSafety | crates/arbkit-exec/examples/prod_trader.rs:1595-1848 | at every point of every run from nothing, each order sent and not seen terminal has an entry of its own in the durable in-flight set |
| WriteAhead.FailedLoadLosesOthers | crates/arbkit-exec/src/state.rs:139-153 | registering over a file that does not load keeps protection exactly when no other order was outstanding |
| WriteAhead.FailedLoadCheckpointLosesAll | crates/arbkit-exec/src/state.rs:128-136 | a checkpoint over such a file keeps it exactly when nothing was outstanding |
| WriteAhead.FailedLoadLosesAnOrder | crates/arbkit-exec/src/state.rs:139-153 | a whole run from nothing, disciplined up to its last event, in which persisting a leg over a file that does not load leaves an outstanding order without an entry |
| WriteAhead.SafeExactlyWhenFresh | crates/arbkit-exec/src/lib.rs:96-102 | from any idle state every continuation of a plan stays safe if and only if its two ids differ and neither is outstanding |
| WriteAhead.ReusedIdLosesAnOrder | crates/arbkit-exec/examples/prod_trader.rs:1602-1634 | a whole run from nothing in which reusing an outstanding id leaves an outstanding order without an entry |
| Ledger.FoldIsExact | crates/arbkit-exec/src/state.rs:339-346 | a fold keeps both totals: the sums over distinct fills while they fit money, the clamped sums while the amounts have one sign |
| Ledger.StepKeepsTidy | crates/arbkit-exec/src/state.rs:299-348 | with client ids present and each venue id owned by one client, every operation keeps the totals equal to the sums over distinct fills |
| Ledger.EachFillCountsOnce | crates/arbkit-exec/src/state.rs:312-348 | over any operations, however often fills repeat, the totals are the sums over distinct fills for registered orders while the amounts fit money, and the clamped sums while they have one sign |
| Ledger.CountedAfterRegistration | crates/arbkit-exec/src/state.rs:312-348 | only the set of fills delivered matters, not their order or repetition |
| Ledger.ReplayAbsorbed | crates/arbkit-exec/src/state.rs:312-338 | without those premises a replay changes nothing exactly when every order it matches is the first one or has counted it |
| Ledger.ReconciliationLedger.ApplyFill | crates/arbkit-exec/src/state.rs:312-348 | refused exactly when no order matches; otherwise folded into a matching order once |
| Reconcile.PassBooks | crates/arbkit-exec/src/reconcile.rs:130-165 | after a pass the in-flight list, the registrations behind it and their fates agree again |
| Reconcile.PassSettles | crates/arbkit-exec/src/reconcile.rs:130-165 | each settlement closes a registration that was waiting, for its own client, on a terminal report |
| Reconcile.Reconciler.Register | crates/arbkit-exec/src/reconcile.rs:102-107 | the new registration goes last in flight in place of the client's waiting one, and is entered in the ledger |
| Reconcile.EnteredReplaces | crates/arbkit-exec/src/reconcile.rs:102-107 | a registration replaces exactly its client's waiting one |
| Reconcile.Reconciler.Reconcile | crates/arbkit-exec/src/reconcile.rs:130-165 | a pass succeeds exactly when every report finds an order in its turn: then exactly the acknowledged orders reported terminal settle and the rest keep their order; refused, it reports nothing and every order in flight is dropped |
| Reconcile.NeverRefused | crates/arbkit-exec/src/state.rs:312-348 | a pass whose reports name registered clients is never refused |
| Reconcile.UnmatchedReportDropsTheOrder | crates/arbkit-exec/src/reconcile.rs:145 | a report that names no client and another venue id drops the order in flight, whatever happens |
| Reconcile.RunReconciler | crates/arbkit-exec/src/reconcile.rs:102-165 | action by action: what each returns and leaves is a step of the reconciler, from nothing to where it ends |
| Reconcile.EachRegistrationClosesOnce | crates/arbkit-exec/src/reconcile.rs:102-165 | over any run the registrations are the orders entered, in order, and settlements and closed registrations match one to one, in order |
| Reconcile.NoneDroppedExactlyWhenClean | crates/arbkit-exec/src/reconcile.rs:130-165 | no registration of a run is dropped exactly when every pass succeeded |
| Reconcile.RunsKeepBooks | crates/arbkit-exec/src/reconcile.rs:102-165 | throughout a run a registration is waiting exactly when its order is in flight, and a client has at most one order in flight |
| Reconcile.RunsCountEachFillOnce | crates/arbkit-exec/src/state.rs:312-348 | the ledger of any run of passes counts each distinct fill once, when its operations are orderly |

## Left out

- Planner.Plan: not claimed to be globally optimal; the code itself calls the search a bounded heuristic. What is proved is optimal among the plans it weighs, and the exact end of the search.
- Search.SearchPayout: that the end of the search is the greatest feasible target is stated when the top of its range fits money. Above that the plans weighed and the signal are still determined exactly.
- Ledger.EachFillCountsOnce: amounts of both signs that together exceed money, where saturation depends on the order of the fills.
- Cost.WaterPlanIsCheapest: with several chunks on an outcome no condition for the water plan to be cheapest is given beyond the failing input.
- WriteAhead.WriteAheadSafety: assumes that a committed file loads and that the ids of a plan are fresh; what each failure of these loses is stated exactly.
- Hedge.LossesAddUp: negating the least 64-bit profit, which overflows in the code, is not modelled.
- Engine.Engine.ProcessEvent: the event's own clock reading is a parameter; counters by kind of event are not modelled.
- Histogram.LatencyHistogram.AtRank: takes the integer rank; turning a fraction into a rank is floating point.
- Ring.RingIsBoundedFifo: steps are sequentially consistent, which the acquire and release on the turn provide; positions do not wrap at 2^64.
- Book.OutcomeBook.AcceptSeq: sequence numbers do not wrap at 2^64.
- Bankroll.Trade: the loop without a bankroll, which only simulates, is not modelled separately.
- Reconcile.Reconciler.Reconcile: statuses are compared as values; folding their letter case is not modelled.
- The code's 128-bit intermediates are unbounded integers here; 64-bit truncation, saturation and clamping are modelled where the code does them.
- The bit mask of taken levels is a set, and the parallel chunk arrays are one sequence of records.
- The deprecated single-level `detect`, which only wraps its legs for the same planner.
- `simulate_signal` and the book-driven `evaluate_leg`: the same branches with the best price and depth read from a book.
- The Kalshi settlement fee, ratio and display helpers, phantom counters by reason, and statistics other than those in `Simulator.Stats`.
- `seed_in_flight`, raw-fill parsing, the rate limiter and the feed circuit breaker.
- HTTP adapters, signing, feeds, tapes, the stream writer and the dashboard; adapters, polls, store results and arrival quotes are arbitrary inputs here.
- Slot encodings, cache padding, serialization formats, labels, alias tables and ticker parsing.
