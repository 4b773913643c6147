/** The quotes a planner is offered and the signals it returns. */
module Quotes {
  import opened Price
  import opened Fees

  datatype Option<+T> = None | Some(value: T)

  datatype Result<+T, +E> = Ok(value: T) | Err(error: E)

  /** The most price levels one book retains. */
  const MAX_LEVELS := 8

  /** The most chunks a plan may stake. */
  const MAX_CHUNKS := 16

  /** The most halvings the payout search performs. */
  const MAX_SEARCH_STEPS := 96

  /** A price level and the cents it takes. */
  datatype Level = Level(price: Prob, size: int)

  /** What a venue quotes for an outcome. The array of levels always holds `MAX_LEVELS`
      entries; those past `nLevels` are ignored. */
  datatype BookLegData = BookLegData(
    venue: nat, outcome: nat, fee: Fee, increment: int, levels: seq<Level>, nLevels: nat)

  type BookLeg = leg: BookLegData | |leg.levels| == MAX_LEVELS
    witness BookLegData(0, 0, NoFee, 1, seq(MAX_LEVELS, _ => Level(PPM, 0)), 0)

  /** A stake on a leg, and its payout should the leg's outcome win. */
  datatype Allocation = Allocation(leg: nat, stake: int, payout: int)

  /** A tradeable arbitrage, sized and costed. */
  datatype Signal = Signal(
    allocations: seq<Allocation>, overroundPpm: int, totalStake: int, worstCaseProfit: int, profitBps: int)

  datatype ArbError = LegCountOutOfRange(n: nat) | ZeroStakeIncrement(leg: nat)
}
