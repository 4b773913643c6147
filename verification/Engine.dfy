/** The engine's hot loop: one feed event updates the books it is about, is timed, and may emit
    a signal for its market. */
module Engine {
  import opened Fees
  import opened Quotes
  import opened Book
  import opened Slab
  import opened Histogram
  import opened Fill
  import opened Aggregator

  /** The market of an event that can trigger detection. */
  function Triggers(e: FeedEvent): Option<nat> {
    match e
    case Snapshot(at, _, _, _) => Some(at.market)
    case Delta(at, _, _, _) => Some(at.market)
    case Halt(market, _, _) => Some(market)
    case Trade(_) => None
    case Heartbeat => None
  }

  /** A quote was on a book that is live in a history: the book's last snapshot was followed by no
      covering halt and by consecutive deltas, and the last of these updates carried the quote. */
  ghost predicate LiveQuote(history: seq<FeedEvent>, a: Address, quote: Level) {
    && (exists i: nat :: LiveSince(history, a, i))
    && (exists k: nat :: LastUpdate(history, a, k) && quote in Carried(history[k]))
  }

  /** Every leg of a signal's plan is a live quote. */
  ghost predicate OnLiveQuotes(history: seq<FeedEvent>, market: nat, plan: seq<Leg>) {
    forall i :: 0 <= i < |plan| ==> LegIsLive(history, market, plan[i])
  }

  ghost predicate LegIsLive(history: seq<FeedEvent>, market: nat, leg: Leg) {
    LiveQuote(history, Address(market, leg.outcome, leg.venue), Level(leg.quoted, leg.capacity))
  }

  /** What a trusted book shows was carried by its last update. */
  lemma {:induction false} ShownIsLive(s: BookState, history: seq<FeedEvent>, a: Address, quote: Level)
    requires Tracks(s, history, a) && quote in s.levels
    ensures LiveQuote(history, a, quote)
  {
    var k: nat :| LastUpdate(history, a, k) && Arranged(s.levels, Carried(history[k]));
    assert quote in multiset(s.levels);
  }

  /** Every candidate is a level of the book it names. */
  lemma {:induction false} LevelCandidatesAreQuoted(
    config: MarketConfig, outcome: nat, venue: nat, levels: seq<Level>, n: nat)
    requires venue < MAX_VENUES && n <= |levels|
    ensures forall c :: c in LevelCandidates(config, outcome, venue, levels, n) ==>
                          c.outcome == outcome && c.venue == venue && Level(c.price, c.raw) in levels
  {
    if n > 0 {
      LevelCandidatesAreQuoted(config, outcome, venue, levels, n - 1);
    }
  }

  lemma {:induction false} VenueCandidatesAreQuoted(
    config: MarketConfig, outcome: nat, books: seq<seq<Level>>, n: nat)
    requires n <= |books| == MAX_VENUES
    ensures forall c :: c in VenueCandidates(config, outcome, books, n) ==>
                          c.outcome == outcome && c.venue < MAX_VENUES && Level(c.price, c.raw) in books[c.venue]
  {
    if n > 0 {
      VenueCandidatesAreQuoted(config, outcome, books, n - 1);
      LevelCandidatesAreQuoted(config, outcome, n - 1, books[n - 1], |books[n - 1]|);
    }
  }

  lemma {:induction false} CandidatesAreQuoted(config: MarketConfig, quotes: MarketQuotes, n: nat)
    requires QuotesFor(config, quotes) && n <= |quotes|
    ensures forall c :: c in Candidates(config, quotes, n) ==>
                          && c.outcome < n && c.venue < MAX_VENUES
                          && Level(c.price, c.raw) in quotes[c.outcome][c.venue]
  {
    if n > 0 {
      CandidatesAreQuoted(config, quotes, n - 1);
      VenueCandidatesAreQuoted(config, n - 1, quotes[n - 1], MAX_VENUES);
    }
  }

  /** The legs an evaluation returns are quotes of its market. */
  lemma {:induction false} PlanIsQuoted(
    config: MarketConfig, quotes: MarketQuotes, e: Evaluation, found: MarketSignal, i: nat)
    requires QuotesFor(config, quotes) && Evaluated(config, quotes, Ok(Some(found)), e) && i < |found.plan|
    ensures var leg := found.plan[i];
            && leg.outcome < config.outcomeCount && leg.venue < MAX_VENUES
            && Level(leg.quoted, leg.capacity) in quotes[leg.outcome][leg.venue]
  {
    CandidatesAreQuoted(config, quotes, |quotes|);
    var at := e.plan[found.signal.allocations[i].leg];
    assert e.candidates[at] in e.candidates;
  }

  /** Why a market's parameters are refused. */
  datatype RegistrationError = NoSuchMarket(market: nat, capacity: nat) | OutcomesOutOfRange(n: nat)

  /** The single-threaded engine. */
  class Engine {
    const slab: EngineSlab
    const gate: EmitGate
    const histogram: LatencyHistogram
    /** The markets' parameters, by market. */
    var configs: seq<MarketConfig>

    ghost function Repr(): set<object> {
      slab.Repr() + {slab, gate, gate.cooldown, gate.lastEmit, histogram, histogram.bins}
    }

    ghost predicate Valid()
      reads this, Repr()
    {
      && slab.Valid() && gate.Valid() && histogram.Valid()
      && |configs| == slab.markets == gate.markets
      && histogram.bins != gate.cooldown && histogram.bins != gate.lastEmit
    }

    constructor (markets: nat)
      ensures Valid() && slab.history == [] && gate.emissions == [] && histogram.samples == [] && fresh(Repr())
    {
      slab := new EngineSlab(markets);
      gate := new EmitGate(markets);
      histogram := new LatencyHistogram();
      configs := seq(markets, _ => UNREGISTERED);
    }

    /** Register a market's parameters; its last emission stays as it was. */
    method RegisterMarket(market: nat, config: ConfigData, cooldown: nat) returns (refusal: Option<RegistrationError>)
      requires Valid() && WellTyped(config)
      modifies this, gate.cooldown
      ensures Valid() && gate.emissions == old(gate.emissions)
      ensures refusal.None? <==> market < slab.markets && 2 <= config.outcomeCount <= MAX_OUTCOMES
      ensures refusal.None? ==>
                && configs == old(configs)[market := config]
                && gate.cooldown[..] == old(gate.cooldown[..])[market := cooldown]
      ensures refusal.Some? ==>
                && refusal.value == (if market >= slab.markets then NoSuchMarket(market, slab.markets)
                                     else OutcomesOutOfRange(config.outcomeCount))
                && configs == old(configs) && gate.cooldown[..] == old(gate.cooldown[..])
    {
      if market >= slab.markets {
        return Some(NoSuchMarket(market, slab.markets));
      }
      if !(2 <= config.outcomeCount <= MAX_OUTCOMES) {
        return Some(OutcomesOutOfRange(config.outcomeCount));
      }
      configs := configs[market := config];
      gate.SetCooldown(market, cooldown);
      return None;
    }

    /** What the engine knows: parameters, books, the history of the feed and of emissions, and
        the times taken. */
    ghost function State(): EngineState
      reads this, Repr()
      requires Valid()
    {
      EngineState(configs, gate.cooldown[..], slab.States(), slab.history, gate.emissions, histogram.samples)
    }

    /** Process one event. Every event is timed and applied to its books. A signal is emitted
        exactly when the event's market is out of its cooldown and evaluating it on the books
        as they then stand finds one, and its plan stands on quotes that are live in the history
        of the feed. */
    method ProcessEvent(e: FeedEvent, ingestNs: nat, nowNs: nat)
      returns (emitted: Option<MarketSignal>, ghost answer: Result<Option<MarketSignal>, ArbError>)
      requires Valid() && nowNs <= 0xffff_ffff_ffff_ffff
      modifies slab`history, slab.Repr(), gate`emissions, gate.lastEmit, histogram, histogram.bins
      ensures Valid()
      ensures Processed(old(State()), slab.markets, e, ingestNs, nowNs, emitted, answer, State())
    {
      ghost var s := State();
      Absorb(e, if nowNs < ingestNs then 0 else nowNs - ingestNs);
      ghost var m := State();
      emitted, answer := React(e, nowNs);
      ProcessedByParts(s, slab.markets, e, ingestNs, nowNs, emitted, answer, m, State());
    }

    /** Decide whether to emit, and record it. */
    method React(e: FeedEvent, nowNs: nat)
      returns (emitted: Option<MarketSignal>, ghost answer: Result<Option<MarketSignal>, ArbError>)
      requires Valid()
      modifies gate`emissions, gate.lastEmit
      ensures Valid() && Decided(old(State()), slab.markets, e, nowNs, emitted, answer)
      ensures Recorded(old(State()), e, nowNs, emitted, State())
    {
      ghost var s := State();
      emitted, answer := Decide(e, nowNs);
      if emitted.Some? {
        FoundMayEmit(s, slab.markets, e, nowNs, emitted, answer);
        Emit(Triggers(e).value, nowNs);
      }
    }

    /** Time an event and apply it to its books. */
    method Absorb(e: FeedEvent, serviceNs: nat)
      requires Valid() && serviceNs <= 0xffff_ffff_ffff_ffff
      modifies slab`history, slab.Repr(), histogram, histogram.bins
      ensures Valid() && Absorbed(old(State()), e, serviceNs, State())
    {
      histogram.Record(serviceNs);
      slab.Process(e);
    }

    /** Evaluate the event's market if it may emit. */
    method Decide(e: FeedEvent, nowNs: nat)
      returns (found: Option<MarketSignal>, ghost answer: Result<Option<MarketSignal>, ArbError>)
      requires Valid()
      ensures Valid() && State() == old(State()) && Decided(State(), slab.markets, e, nowNs, found, answer)
    {
      found, answer := None, Ok(None);
      if Triggers(e).Some? {
        var admitted := Admits(Triggers(e).value, nowNs);
        if admitted {
          var given := Evaluate(Triggers(e).value);
          found, answer := Found(given), given;
        }
      }
    }

    /** Whether a market is out of its cooldown. */
    method Admits(market: nat, nowNs: nat) returns (admitted: bool)
      requires Valid()
      ensures Valid() && State() == old(State())
      ensures admitted <==> MayEmitNow(State(), slab.markets, market, nowNs)
    {
      admitted := gate.Admitted(market, nowNs);
    }

    /** Evaluate a market on the books as they stand. */
    method Evaluate(market: nat) returns (answer: Result<Option<MarketSignal>, ArbError>)
      requires Valid() && market < slab.markets
      ensures Valid() && State() == old(State()) && |configs| == slab.markets
      ensures Answers(configs[market], State().states, slab.markets, market, answer)
      ensures Found(answer).Some? ==> OnLiveQuotes(State().history, market, Found(answer).value.plan)
    {
      answer := DetectOn(slab, configs[market], market);
      SignalIsLive(configs[market], slab.States(), slab.markets, market, slab.history, answer);
    }

    /** Record an emission. */
    method Emit(market: nat, nowNs: nat)
      requires Valid() && MayEmitNow(State(), slab.markets, market, nowNs)
      modifies gate`emissions, gate.lastEmit
      ensures Valid() && market < |old(State()).cooldown|
      ensures State() == WithEmission(old(State()), market, nowNs)
    {
      gate.NoteEmit(market, nowNs);
    }
  }

  datatype EngineState = EngineState(
    configs: seq<MarketConfig>, cooldown: seq<nat>, states: seq<BookState>, history: seq<FeedEvent>,
    emissions: seq<Emission>, samples: seq<nat>)

  /** The event's market may emit now. */
  ghost predicate MayEmit(s: EngineState, markets: nat, e: FeedEvent, nowNs: nat) {
    Triggers(e).Some? && |s.configs| == markets && MayEmitNow(s, markets, Triggers(e).value, nowNs)
  }

  /** A market is out of its cooldown. */
  ghost predicate MayEmitNow(s: EngineState, markets: nat, market: nat, nowNs: nat) {
    && market < markets == |s.cooldown|
    && WaitedOut(s.emissions, Emission(market, nowNs, s.cooldown[market]))
  }

  /** The event was timed and is in the history; the books are those of the new history. */
  ghost predicate Absorbed(s: EngineState, e: FeedEvent, serviceNs: nat, t: EngineState) {
    t == s.(states := t.states, history := s.history + [e], samples := s.samples + [serviceNs])
  }

  /** A signal is found exactly when the market may emit and evaluating it gives one, and then
      it stands on live quotes. */
  ghost predicate Decided(
    s: EngineState, markets: nat, e: FeedEvent, nowNs: nat, found: Option<MarketSignal>,
    answer: Result<Option<MarketSignal>, ArbError>)
  {
    && (MayEmit(s, markets, e, nowNs) ==>
          && Answers(s.configs[Triggers(e).value], s.states, markets, Triggers(e).value, answer)
          && found == Found(answer))
    && (!MayEmit(s, markets, e, nowNs) ==> found == None)
    && (found.Some? ==> OnLiveQuotes(s.history, Triggers(e).value, found.value.plan))
  }

  lemma {:induction false} FoundMayEmit(
    s: EngineState, markets: nat, e: FeedEvent, nowNs: nat, found: Option<MarketSignal>,
    answer: Result<Option<MarketSignal>, ArbError>)
    requires Decided(s, markets, e, nowNs, found, answer) && found.Some?
    ensures Triggers(e).Some? && MayEmitNow(s, markets, Triggers(e).value, nowNs)
  {
  }

  /** An emission is recorded under the cooldown in force. */
  ghost function WithEmission(s: EngineState, market: nat, nowNs: nat): EngineState
    requires market < |s.cooldown|
  {
    s.(emissions := s.emissions + [Emission(market, nowNs, s.cooldown[market])])
  }

  /** What is emitted is recorded. */
  ghost predicate Recorded(s: EngineState, e: FeedEvent, nowNs: nat, emitted: Option<MarketSignal>, t: EngineState) {
    if emitted.None? then t == s
    else
      && Triggers(e).Some? && Triggers(e).value < |s.cooldown|
      && t == WithEmission(s, Triggers(e).value, nowNs)
  }

  /** One event: what becomes of the engine and what is emitted. */
  ghost predicate Processed(
    s: EngineState, markets: nat, e: FeedEvent, ingestNs: nat, nowNs: nat, emitted: Option<MarketSignal>,
    answer: Result<Option<MarketSignal>, ArbError>, t: EngineState)
  {
    && t.configs == s.configs && t.cooldown == s.cooldown
    && t.history == s.history + [e]
    && t.samples == s.samples + [if nowNs < ingestNs then 0 else nowNs - ingestNs]
    && Decided(t.(emissions := s.emissions), markets, e, nowNs, emitted, answer)
    && (emitted.None? ==> t.emissions == s.emissions)
    && (emitted.Some? ==>
          && Triggers(e).value < |s.cooldown|
          && t.emissions
             == s.emissions + [Emission(Triggers(e).value, nowNs, s.cooldown[Triggers(e).value])])
  }

  lemma {:induction false} ProcessedByParts(
    s: EngineState, markets: nat, e: FeedEvent, ingestNs: nat, nowNs: nat, emitted: Option<MarketSignal>,
    answer: Result<Option<MarketSignal>, ArbError>, m: EngineState, t: EngineState)
    requires Absorbed(s, e, if nowNs < ingestNs then 0 else nowNs - ingestNs, m)
    requires Decided(m, markets, e, nowNs, emitted, answer) && Recorded(m, e, nowNs, emitted, t)
    ensures Processed(s, markets, e, ingestNs, nowNs, emitted, answer, t)
  {
    assert t.(emissions := s.emissions) == m;
  }

  /** What evaluating a market gives on the books as they stand. */
  ghost predicate Answers(
    config: MarketConfig, states: seq<BookState>, markets: nat, market: nat,
    answer: Result<Option<MarketSignal>, ArbError>)
  {
    exists quotes ::
      QuotesFor(config, quotes) && ReadOff(states, markets, market, quotes) && Evaluates(config, quotes, answer)
  }

  /** An error is no signal. */
  function Found(answer: Result<Option<MarketSignal>, ArbError>): Option<MarketSignal> {
    if answer.Ok? then answer.value else None
  }

  /** Evaluate a market on the books as they stand. */
  method DetectOn(slab: EngineSlab, config: MarketConfig, market: nat)
    returns (answer: Result<Option<MarketSignal>, ArbError>)
    requires slab.Healthy() && market < slab.markets
    ensures Answers(config, slab.States(), slab.markets, market, answer)
  {
    var quotes := ReadMarket(slab, market, config);
    answer := EvaluateMarket(config, quotes);
  }

  /** A signal evaluated on the books as they stand stands on live quotes. */
  lemma {:induction false} SignalIsLive(
    config: MarketConfig, states: seq<BookState>, markets: nat, market: nat, history: seq<FeedEvent>,
    answer: Result<Option<MarketSignal>, ArbError>)
    requires Answers(config, states, markets, market, answer) && AllTrack(states, markets, history)
    ensures Found(answer).Some? ==> OnLiveQuotes(history, market, Found(answer).value.plan)
  {
    if Found(answer).Some? {
      var quotes :| QuotesFor(config, quotes) && ReadOff(states, markets, market, quotes)
                    && Evaluates(config, quotes, answer);
      var e :| Evaluated(config, quotes, answer, e);
      QuotedIsLive(config, quotes, states, markets, market, history, e, Found(answer).value);
    }
  }

  lemma {:induction false} QuotedIsLive(
    config: MarketConfig, quotes: MarketQuotes, states: seq<BookState>, markets: nat, market: nat,
    history: seq<FeedEvent>, e: Evaluation, found: MarketSignal)
    requires QuotesFor(config, quotes) && ReadOff(states, markets, market, quotes)
    requires AllTrack(states, markets, history) && Evaluated(config, quotes, Ok(Some(found)), e)
    ensures OnLiveQuotes(history, market, found.plan)
  {
    forall i | 0 <= i < |found.plan|
      ensures LegIsLive(history, market, found.plan[i])
    {
      PlanIsQuoted(config, quotes, e, found, i);
      QuoteIsLive(states, markets, market, history, quotes, found.plan[i]);
    }
  }

  lemma {:induction false} QuoteIsLive(
    states: seq<BookState>, markets: nat, market: nat, history: seq<FeedEvent>, quotes: MarketQuotes, leg: Leg)
    requires ReadOff(states, markets, market, quotes) && AllTrack(states, markets, history)
    requires leg.outcome < |quotes| && leg.venue < |quotes[leg.outcome]| == MAX_VENUES
    requires Level(leg.quoted, leg.capacity) in quotes[leg.outcome][leg.venue]
    ensures LegIsLive(history, market, leg)
  {
    var a := Address(market, leg.outcome, leg.venue);
    assert OutcomeReadOff(states, markets, market, leg.outcome, quotes[leg.outcome]);
    ShownIsLive(Of(states, markets, a), history, a, Level(leg.quoted, leg.capacity));
  }

  /** A market nobody registered. */
  const UNREGISTERED: MarketConfig :=
    ConfigData(2, seq(MAX_VENUES, _ => NoFee), seq(MAX_VENUES, _ => 1), seq(MAX_VENUES, _ => 10_000), 100_000, false)
}
