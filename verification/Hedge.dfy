/** The execution boundary: risk limits, per-venue capital, and the two-leg hedge that is
    filled whole, unwound whole, or left reserved because an unwind failed. */
module Hedge {
  import opened Arith
  import opened Price
  import opened Quotes

  /** One leg of a hedge, as far as capital is concerned. */
  datatype ExecLeg = ExecLeg(venue: nat, stake: int, clientId: nat)

  datatype RiskConfig = RiskConfig(
    maxStakePerLeg: int, maxDailyLoss: int, maxOpenTrades: nat, minEdgeBps: nat, killSwitch: bool)

  datatype RiskRejection = KillSwitch | EdgeTooSmall | StakeCap | DailyLoss | OpenTrades | InsufficientCapital

  /** What the two adapters answer: the stake filled, or nothing when a submit fails; and
      whether each unwind works. Any combination may happen. */
  datatype Venues = Venues(first: Option<int>, second: Option<int>, unwindFirst: bool, unwindSecond: bool)

  datatype Outcome =
    | WrongLegCount
    | Rejected(reason: RiskRejection)
    | LiveFill(requested: int, filled: int)
    | LivePhantom(requested: int)
    | UnwindFailed(venue: nat)

  /** Available capital at a venue; a venue never mentioned has none. */
  function Balance(bankroll: map<nat, int>, venue: nat): int {
    if venue in bankroll then bankroll[venue] else 0
  }

  /** What a sequence of legs stakes at a venue. */
  function StakeOn(legs: seq<ExecLeg>, venue: nat): int {
    if legs == [] then 0
    else StakeOn(legs[..|legs| - 1], venue)
         + if legs[|legs| - 1].venue == venue then legs[|legs| - 1].stake else 0
  }

  lemma {:induction false} StakeOnConcat(a: seq<ExecLeg>, b: seq<ExecLeg>, venue: nat)
    ensures StakeOn(a + b, venue) == StakeOn(a, venue) + StakeOn(b, venue)
  {
    if b == [] {
      assert a + b == a;
    } else {
      assert (a + b)[..|a + b| - 1] == a + b[..|b| - 1];
      StakeOnConcat(a, b[..|b| - 1], venue);
    }
  }

  lemma {:induction false} StakeOnStep(legs: seq<ExecLeg>, k: nat, venue: nat)
    requires k < |legs|
    ensures StakeOn(legs[..k + 1], venue)
            == StakeOn(legs[..k], venue) + if legs[k].venue == venue then legs[k].stake else 0
  {
    assert legs[..k + 1][..k] == legs[..k];
  }

  /** The verdict on leg `k`, given what the legs before it reserve. */
  function LegVerdict(config: RiskConfig, bankroll: map<nat, int>, legs: seq<ExecLeg>, k: nat): Option<RiskRejection>
    requires k < |legs|
  {
    if legs[k].stake <= 0 || legs[k].stake > config.maxStakePerLeg then Some(StakeCap)
    else if Balance(bankroll, legs[k].venue) - StakeOn(legs[..k], legs[k].venue) < legs[k].stake then
      Some(InsufficientCapital)
    else None
  }

  /** The first objection to any of the legs from `k` on. */
  function LegsVerdict(config: RiskConfig, bankroll: map<nat, int>, legs: seq<ExecLeg>, k: nat): Option<RiskRejection>
    requires k <= |legs|
    decreases |legs| - k
  {
    if k == |legs| then None
    else if LegVerdict(config, bankroll, legs, k).Some? then LegVerdict(config, bankroll, legs, k)
    else LegsVerdict(config, bankroll, legs, k + 1)
  }

  /** The first objection to a trade: the global limits in order, then the legs in order. */
  function Verdict(
    config: RiskConfig, dailyLoss: int, openTrades: nat, bankroll: map<nat, int>, edgeBps: nat, legs: seq<ExecLeg>)
    : Option<RiskRejection>
  {
    if config.killSwitch then Some(KillSwitch)
    else if edgeBps < config.minEdgeBps then Some(EdgeTooSmall)
    else if dailyLoss >= config.maxDailyLoss then Some(DailyLoss)
    else if openTrades >= config.maxOpenTrades then Some(OpenTrades)
    else LegsVerdict(config, bankroll, legs, 0)
  }

  /** Both submits were accepted for exactly the stake requested. */
  predicate BothFilled(legs: seq<ExecLeg>, venues: Venues)
    requires |legs| == 2
  {
    venues.first == Some(legs[0].stake) && venues.second == Some(legs[1].stake)
  }

  /** How a hedge attempt ends. */
  function HedgeOutcome(
    config: RiskConfig, dailyLoss: int, openTrades: nat, bankroll: map<nat, int>,
    edgeBps: nat, legs: seq<ExecLeg>, venues: Venues): Outcome
  {
    if |legs| != 2 then WrongLegCount
    else
      var verdict := Verdict(config, dailyLoss, openTrades, bankroll, edgeBps, legs);
      var requested := legs[0].stake + legs[1].stake;
      if verdict.Some? then Rejected(verdict.value)
      else if BothFilled(legs, venues) then LiveFill(requested, requested)
      else if venues.first.Some? && !venues.unwindFirst then UnwindFailed(legs[0].venue)
      else if venues.second.Some? && !venues.unwindSecond then UnwindFailed(legs[1].venue)
      else LivePhantom(requested)
  }

  /** The account and risk state owned by the execution task. */
  class RiskGate {
    var config: RiskConfig
    var dailyLoss: int
    var openTrades: nat
    var bankroll: map<nat, int>
    /** The balances the gate was opened with. */
    ghost const opening: map<nat, int>
    /** The legs whose capital is out: hedges filled, or left by a failed unwind. */
    ghost var held: seq<ExecLeg>

    /** Capital is conserved: at every venue, what is available and what is out add up to
        what was brought in. */
    ghost predicate Conserved()
      reads this
    {
      && (forall v: nat :: Balance(bankroll, v) + StakeOn(held, v) == Balance(opening, v))
      && (forall v: nat :: Balance(opening, v) >= 0 ==> Balance(bankroll, v) >= 0)
      && openTrades <= config.maxOpenTrades && CENTS_MIN <= dailyLoss <= CENTS_MAX
    }

    ghost function State(): GateState
      reads this
    {
      GateState(config, dailyLoss, openTrades, bankroll, held)
    }

    constructor (config: RiskConfig, balances: map<nat, int>)
      ensures Conserved() && held == [] && openTrades == 0 && dailyLoss == 0
      ensures this.config == config && opening == balances && bankroll == balances
    {
      this.config, dailyLoss, openTrades, bankroll := config, 0, 0, balances;
      opening, held := balances, [];
    }

    /** Give reserved stakes back. */
    method Release(reserved: seq<ExecLeg>)
      modifies this`bankroll
      ensures forall v: nat :: Balance(bankroll, v) == old(Balance(bankroll, v)) + StakeOn(reserved, v)
    {
      for k := 0 to |reserved|
        invariant forall v: nat :: Balance(bankroll, v) == old(Balance(bankroll, v)) + StakeOn(reserved[..k], v)
      {
        var leg := reserved[k];
        forall v: nat { StakeOnStep(reserved, k, v); }
        bankroll := bankroll[leg.venue := Balance(bankroll, leg.venue) + leg.stake];
      }
      assert reserved[..|reserved|] == reserved;
    }

    /** Validate and reserve every leg, or reserve nothing. */
    method Preflight(edgeBps: nat, legs: seq<ExecLeg>) returns (verdict: Option<RiskRejection>)
      modifies this`bankroll, this`openTrades
      ensures verdict == old(Verdict(config, dailyLoss, openTrades, bankroll, edgeBps, legs))
      ensures verdict.Some? ==>
                openTrades == old(openTrades) && forall v: nat :: Balance(bankroll, v) == old(Balance(bankroll, v))
      ensures verdict.None? ==>
                && openTrades == old(openTrades) + 1 <= config.maxOpenTrades
                && (forall v: nat :: Balance(bankroll, v) == old(Balance(bankroll, v)) - StakeOn(legs, v))
                && (forall v: nat :: old(Balance(bankroll, v)) >= 0 ==> Balance(bankroll, v) >= 0)
    {
      if config.killSwitch {
        return Some(KillSwitch);
      }
      if edgeBps < config.minEdgeBps {
        return Some(EdgeTooSmall);
      }
      if dailyLoss >= config.maxDailyLoss {
        return Some(DailyLoss);
      }
      if openTrades >= config.maxOpenTrades {
        return Some(OpenTrades);
      }
      ghost var before := bankroll;
      for k := 0 to |legs|
        invariant forall v: nat :: Balance(bankroll, v) == Balance(before, v) - StakeOn(legs[..k], v)
        invariant forall v: nat :: Balance(before, v) >= 0 ==> Balance(bankroll, v) >= 0
        invariant LegsVerdict(config, before, legs, 0) == LegsVerdict(config, before, legs, k)
        invariant openTrades == old(openTrades)
      {
        var leg := legs[k];
        if leg.stake <= 0 || leg.stake > config.maxStakePerLeg {
          Release(legs[..k]);
          return Some(StakeCap);
        }
        var balance := Balance(bankroll, leg.venue);
        if balance < leg.stake {
          bankroll := bankroll[leg.venue := balance];
          Release(legs[..k]);
          return Some(InsufficientCapital);
        }
        forall v: nat { StakeOnStep(legs, k, v); }
        bankroll := bankroll[leg.venue := balance - leg.stake];
      }
      assert legs[..|legs|] == legs;
      openTrades := openTrades + 1;
      return None;
    }

    /** Return the capital of a failed hedge and close its trade. */
    method ReleaseTrade(legs: seq<ExecLeg>)
      modifies this`bankroll, this`openTrades
      ensures forall v: nat :: Balance(bankroll, v) == old(Balance(bankroll, v)) + StakeOn(legs, v)
      ensures openTrades == if old(openTrades) == 0 then 0 else old(openTrades) - 1
    {
      Release(legs);
      openTrades := if openTrades == 0 then 0 else openTrades - 1;
    }

    /** Record a settlement and close one trade. A loss counts in full up to the most that money
        can express, a profit never takes a loss back, and no settlement opens a trade. */
    method Settle(realizedProfit: int)
      requires Conserved()
      modifies this`dailyLoss, this`openTrades
      ensures Conserved()
      ensures old(dailyLoss) <= dailyLoss && openTrades <= old(openTrades)
      ensures GateStep(old(State()), Settlement(realizedProfit), None, State())
    {
      if realizedProfit < 0 {
        dailyLoss := ToCents(dailyLoss - realizedProfit);
      }
      openTrades := if openTrades == 0 then 0 else openTrades - 1;
    }

    /** Engage or release the kill switch. */
    method SetKillSwitch(engaged: bool)
      requires Conserved()
      modifies this`config
      ensures Conserved() && GateStep(old(State()), Switch(engaged), None, State())
    {
      config := config.(killSwitch := engaged);
    }

    /** Attempt a hedge: both legs are filled, or none is, unless an unwind fails. */
    method Execute(edgeBps: nat, legs: seq<ExecLeg>, venues: Venues) returns (outcome: Outcome)
      requires Conserved()
      modifies this`bankroll, this`openTrades, this`held
      ensures Conserved()
      ensures GateStep(old(State()), Attempt(edgeBps, legs, venues), Some(outcome), State())
    {
      if |legs| != 2 {
        return WrongLegCount;
      }
      var verdict := Preflight(edgeBps, legs);
      if verdict.Some? {
        return Rejected(verdict.value);
      }
      var requested := legs[0].stake + legs[1].stake;
      forall v: nat { StakeOnConcat(held, legs, v); }
      if venues.first == Some(legs[0].stake) && venues.second == Some(legs[1].stake) {
        held := held + legs;
        return LiveFill(requested, requested);
      }
      if venues.first.Some? {
        if !venues.unwindFirst {
          held := held + legs;
          return UnwindFailed(legs[0].venue);
        }
      }
      if venues.second.Some? {
        if !venues.unwindSecond {
          held := held + legs;
          return UnwindFailed(legs[1].venue);
        }
      }
      ReleaseTrade(legs);
      return LivePhantom(requested);
    }
  }

  /** Everything a session may do to a gate. */
  datatype Operation =
    | Attempt(edgeBps: nat, legs: seq<ExecLeg>, venues: Venues)
    | Settlement(realizedProfit: int)
    | Switch(engaged: bool)

  /** A gate and the legs whose capital is out. */
  datatype GateState = GateState(
    config: RiskConfig, dailyLoss: int, openTrades: nat, bankroll: map<nat, int>, held: seq<ExecLeg>)

  /** Capital stays out after a fill and after a failed unwind. */
  predicate StaysOut(outcome: Outcome) {
    outcome.LiveFill? || outcome.UnwindFailed?
  }

  /** One operation: what an attempt returns and where it leaves the balances of every venue,
      and what settlements and the switch change. */
  ghost predicate GateStep(s: GateState, op: Operation, outcome: Option<Outcome>, t: GateState) {
    match op
    case Attempt(edgeBps, legs, venues) =>
      var ended := HedgeOutcome(s.config, s.dailyLoss, s.openTrades, s.bankroll, edgeBps, legs, venues);
      var out := if StaysOut(ended) then legs else [];
      && outcome == Some(ended)
      && t.config == s.config && t.dailyLoss == s.dailyLoss && t.held == s.held + out
      && t.openTrades == (if StaysOut(ended) then s.openTrades + 1 else s.openTrades)
      && forall v: nat :: Balance(t.bankroll, v) == Balance(s.bankroll, v) - StakeOn(out, v)
    case Settlement(profit) =>
      && outcome == None
      && t == s.(dailyLoss := Min(s.dailyLoss + Max(-profit, 0), CENTS_MAX),
                 openTrades := if s.openTrades == 0 then 0 else s.openTrades - 1)
    case Switch(engaged) =>
      outcome == None && t == s.(config := s.config.(killSwitch := engaged))
  }

  /** A session: the state before each operation and after the last. */
  ghost predicate Session(operations: seq<Operation>, outcomes: seq<Option<Outcome>>, states: seq<GateState>) {
    && |outcomes| == |operations| && |states| == |operations| + 1
    && forall i :: 0 <= i < |operations| ==> SessionAt(operations, outcomes, states, i)
  }

  ghost predicate SessionAt(
    operations: seq<Operation>, outcomes: seq<Option<Outcome>>, states: seq<GateState>, i: nat)
    requires i < |operations| && i < |outcomes| && i + 1 < |states|
  {
    GateStep(states[i], operations[i], outcomes[i], states[i + 1])
  }

  /** Run a session: every operation meets the state the ones before it left, and returns and
      leaves what it should. */
  method RunSession(gate: RiskGate, operations: seq<Operation>)
    returns (outcomes: seq<Option<Outcome>>, ghost states: seq<GateState>)
    requires gate.Conserved()
    modifies gate
    ensures gate.Conserved()
    ensures Session(operations, outcomes, states)
    ensures states[0] == old(gate.State()) && states[|operations|] == gate.State()
  {
    outcomes, states := [], [gate.State()];
    for i := 0 to |operations|
      invariant gate.Conserved() && |outcomes| == i && |states| == i + 1
      invariant states[0] == old(gate.State()) && states[i] == gate.State()
      invariant forall k :: 0 <= k < i ==> SessionAt(operations, outcomes, states, k)
    {
      ghost var done, were := outcomes, states;
      var outcome := Perform(gate, operations[i]);
      outcomes, states := outcomes + [outcome], states + [gate.State()];
      forall k | 0 <= k <= i
        ensures SessionAt(operations, outcomes, states, k)
      {
        assert k < i ==> SessionAt(operations, done, were, k);
      }
    }
  }

  method Perform(gate: RiskGate, operation: Operation) returns (outcome: Option<Outcome>)
    requires gate.Conserved()
    modifies gate
    ensures gate.Conserved() && GateStep(old(gate.State()), operation, outcome, gate.State())
  {
    outcome := None;
    match operation {
      case Attempt(edgeBps, legs, venues) =>
        var ended := gate.Execute(edgeBps, legs, venues);
        outcome := Some(ended);
      case Settlement(profit) =>
        gate.Settle(profit);
      case Switch(engaged) =>
        gate.SetKillSwitch(engaged);
    }
  }

  /** The legs of the first `n` operations whose capital stayed out. */
  function LegsOut(operations: seq<Operation>, outcomes: seq<Option<Outcome>>, n: nat): seq<ExecLeg>
    requires n <= |operations| && n <= |outcomes|
  {
    if n == 0 then []
    else
      LegsOut(operations, outcomes, n - 1)
      + if operations[n - 1].Attempt? && outcomes[n - 1].Some? && StaysOut(outcomes[n - 1].value)
        then operations[n - 1].legs else []
  }

  /** What is safe about a state: no venue is overdrawn and the open-trade cap holds. */
  ghost predicate Solvent(s: GateState) {
    (forall v: nat :: Balance(s.bankroll, v) >= 0) && s.openTrades <= s.config.maxOpenTrades
  }

  /** Over any session, with any answers from the venues, capital is conserved at every venue
      after every operation: what is available and the legs of the hedges filled or stuck in a
      failed unwind add up to what was there. */
  lemma {:induction false} CapitalConserved(
    operations: seq<Operation>, outcomes: seq<Option<Outcome>>, states: seq<GateState>, n: nat, venue: nat)
    requires Session(operations, outcomes, states) && n <= |operations|
    ensures states[n].held == states[0].held + LegsOut(operations, outcomes, n)
    ensures Balance(states[n].bankroll, venue)
            == Balance(states[0].bankroll, venue) - StakeOn(LegsOut(operations, outcomes, n), venue)
  {
    if n == 0 {
      assert states[0].held + [] == states[0].held;
    } else {
      CapitalConserved(operations, outcomes, states, n - 1, venue);
      assert SessionAt(operations, outcomes, states, n - 1);
      var before, all := LegsOut(operations, outcomes, n - 1), LegsOut(operations, outcomes, n);
      var out := if operations[n - 1].Attempt? && StaysOut(outcomes[n - 1].value) then operations[n - 1].legs else [];
      assert all == before + out;
      assert (states[0].held + before) + out == states[0].held + (before + out);
      StakeOnConcat(before, out, venue);
    }
  }

  /** No operation overdraws a venue or passes the open-trade cap. */
  lemma {:induction false} StepStaysSolvent(s: GateState, op: Operation, outcome: Option<Outcome>, t: GateState)
    requires Solvent(s) && GateStep(s, op, outcome, t)
    ensures Solvent(t)
  {
    if op.Attempt? && StaysOut(outcome.value) {
      TradeAcceptedExactly(s.config, s.dailyLoss, s.openTrades, s.bankroll, op.edgeBps, op.legs);
      forall v: nat
        ensures StakeOn(op.legs, v) <= Balance(s.bankroll, v)
      {
        AcceptedIsCovered(s.config, s.bankroll, op.legs, v, |op.legs|);
      }
    }
  }

  /** Accepted legs together stake no more at a venue than it has. */
  lemma {:induction false} AcceptedIsCovered(
    config: RiskConfig, bankroll: map<nat, int>, legs: seq<ExecLeg>, venue: nat, n: nat)
    requires n <= |legs| && Balance(bankroll, venue) >= 0
    requires forall i :: 0 <= i < |legs| ==>
                           StakeOn(legs[..i + 1], legs[i].venue) <= Balance(bankroll, legs[i].venue)
    ensures StakeOn(legs[..n], venue) <= Balance(bankroll, venue)
    ensures n == |legs| ==> StakeOn(legs, venue) <= Balance(bankroll, venue)
  {
    assert legs[..|legs|] == legs;
    if n > 0 {
      AcceptedIsCovered(config, bankroll, legs, venue, n - 1);
      StakeOnStep(legs, n - 1, venue);
    }
  }

  /** A session that starts solvent stays so after every operation. */
  lemma {:induction false} SessionStaysSolvent(
    operations: seq<Operation>, outcomes: seq<Option<Outcome>>, states: seq<GateState>, n: nat)
    requires Session(operations, outcomes, states) && n <= |operations| && Solvent(states[0])
    ensures Solvent(states[n])
  {
    if n > 0 {
      SessionStaysSolvent(operations, outcomes, states, n - 1);
      assert SessionAt(operations, outcomes, states, n - 1);
      StepStaysSolvent(states[n - 1], operations[n - 1], outcomes[n - 1], states[n]);
    }
  }

  /** The losses among the first `n` operations. */
  function Losses(operations: seq<Operation>, n: nat): nat
    requires n <= |operations|
  {
    if n == 0 then 0
    else
      Losses(operations, n - 1)
      + if operations[n - 1].Settlement? then Max(-operations[n - 1].realizedProfit, 0) else 0
  }

  /** The daily loss is the sum of the losses settled, until it is the most money can express:
      saturating at every step clamps the sum, and no profit takes a loss back. */
  lemma {:induction false} LossesAddUp(
    operations: seq<Operation>, outcomes: seq<Option<Outcome>>, states: seq<GateState>, n: nat)
    requires Session(operations, outcomes, states) && n <= |operations| && states[0].dailyLoss <= CENTS_MAX
    ensures states[n].dailyLoss == Min(states[0].dailyLoss + Losses(operations, n), CENTS_MAX)
    ensures states[n].config.maxDailyLoss == states[0].config.maxDailyLoss
  {
    if n > 0 {
      LossesAddUp(operations, outcomes, states, n - 1);
      assert SessionAt(operations, outcomes, states, n - 1);
    }
  }

  /** Once losses reach the cap no hedge is sent for the rest of the session. */
  lemma {:induction false} LossCapStopsTrading(
    operations: seq<Operation>, outcomes: seq<Option<Outcome>>, states: seq<GateState>, k: nat, n: nat)
    requires Session(operations, outcomes, states) && k <= n < |operations| && states[0].dailyLoss <= CENTS_MAX
    requires states[k].dailyLoss >= states[k].config.maxDailyLoss && operations[n].Attempt?
    ensures outcomes[n].Some? && (outcomes[n].value.Rejected? || outcomes[n].value.WrongLegCount?)
  {
    LossesAddUp(operations, outcomes, states, k);
    LossesAddUp(operations, outcomes, states, n);
    LossesGrow(operations, k, n);
    assert SessionAt(operations, outcomes, states, n);
  }

  lemma {:induction false} LossesGrow(operations: seq<Operation>, k: nat, n: nat)
    requires k <= n <= |operations|
    ensures Losses(operations, k) <= Losses(operations, n)
  {
    if k < n {
      LossesGrow(operations, k, n - 1);
    }
  }

  /** The verdict accepts a trade exactly when every limit holds for every leg: no partial
      acceptance and no hidden objection. */
  lemma {:induction false} AcceptedExactlyWithinLimits(
    config: RiskConfig, bankroll: map<nat, int>, legs: seq<ExecLeg>, k: nat)
    requires k <= |legs|
    ensures LegsVerdict(config, bankroll, legs, k).None?
            <==> forall i :: k <= i < |legs| ==>
                               && 0 < legs[i].stake <= config.maxStakePerLeg
                               && StakeOn(legs[..i + 1], legs[i].venue) <= Balance(bankroll, legs[i].venue)
    decreases |legs| - k
  {
    if k < |legs| {
      AcceptedExactlyWithinLimits(config, bankroll, legs, k + 1);
      StakeOnStep(legs, k, legs[k].venue);
    }
  }

  /** A trade is accepted exactly when the switch is off, the edge is enough, losses and open
      trades are below their caps, and every leg fits. */
  lemma {:induction false} TradeAcceptedExactly(
    config: RiskConfig, dailyLoss: int, openTrades: nat, bankroll: map<nat, int>, edgeBps: nat, legs: seq<ExecLeg>)
    ensures Verdict(config, dailyLoss, openTrades, bankroll, edgeBps, legs).None?
            <==> && !config.killSwitch && config.minEdgeBps <= edgeBps
                 && dailyLoss < config.maxDailyLoss && openTrades < config.maxOpenTrades
                 && forall i :: 0 <= i < |legs| ==>
                                  && 0 < legs[i].stake <= config.maxStakePerLeg
                                  && StakeOn(legs[..i + 1], legs[i].venue) <= Balance(bankroll, legs[i].venue)
  {
    AcceptedExactlyWithinLimits(config, bankroll, legs, 0);
  }
}
