/** From the books of a market to a signal: collect every live level at its discounted size,
    cover each outcome with its best quote, shop for the rest, and keep the better of the two
    plans detection finds. */
module Aggregator {
  import opened Price
  import opened Fees
  import opened Quotes
  import opened Fill
  import opened Book
  import opened Slab
  import opened Planner

  /** A market's parameters. Registration admits two to four outcomes. */
  datatype ConfigData = ConfigData(
    outcomeCount: nat, fees: seq<Fee>, increments: seq<int>, survivalBps: seq<nat>, budget: int, active: bool)

  /** One entry per venue, and a budget that is money. */
  predicate WellTyped(c: ConfigData) {
    && |c.fees| == MAX_VENUES && |c.increments| == MAX_VENUES && |c.survivalBps| == MAX_VENUES
    && c.budget <= CENTS_MAX
  }

  type MarketConfig = c: ConfigData | WellTyped(c) && 2 <= c.outcomeCount <= MAX_OUTCOMES
    witness ConfigData(2, seq(MAX_VENUES, _ => NoFee), seq(MAX_VENUES, _ => 1), seq(MAX_VENUES, _ => 10_000), 0, false)

  /** The levels of a market's books, by outcome and venue. */
  type MarketQuotes = seq<seq<seq<Level>>>

  predicate QuotesFor(config: MarketConfig, quotes: MarketQuotes) {
    |quotes| == config.outcomeCount && forall o :: 0 <= o < |quotes| ==> |quotes[o]| == MAX_VENUES
  }

  /** A quoted level worth considering, with its effective price and its surviving size. */
  datatype Candidate = Candidate(outcome: nat, venue: nat, price: Prob, eff: Prob, raw: int, size: int)

  function CandidateAt(config: MarketConfig, outcome: nat, venue: nat, level: Level): Candidate
    requires venue < MAX_VENUES
  {
    Candidate(outcome, venue, level.price, Effective(config.fees[venue], level.price), level.size,
              Discounted(config.survivalBps[venue], level.size))
  }

  /** The candidates among the first `n` levels of one book. */
  function LevelCandidates(
    config: MarketConfig, outcome: nat, venue: nat, levels: seq<Level>, n: nat): (cs: seq<Candidate>)
    requires venue < MAX_VENUES && n <= |levels|
    ensures forall k :: 0 <= k < |cs| ==> Faithful(config, cs[k]) && cs[k].outcome == outcome
  {
    if n == 0 then []
    else
      var c := CandidateAt(config, outcome, venue, levels[n - 1]);
      LevelCandidates(config, outcome, venue, levels, n - 1) + if c.size <= 0 then [] else [c]
  }

  function VenueCandidates(config: MarketConfig, outcome: nat, books: seq<seq<Level>>, n: nat): (cs: seq<Candidate>)
    requires n <= |books| == MAX_VENUES
    ensures forall k :: 0 <= k < |cs| ==> Faithful(config, cs[k]) && cs[k].outcome == outcome
  {
    if n == 0 then []
    else VenueCandidates(config, outcome, books, n - 1)
         + LevelCandidates(config, outcome, n - 1, books[n - 1], |books[n - 1]|)
  }

  /** The candidates of the first `n` outcomes, in scan order. */
  function Candidates(config: MarketConfig, quotes: MarketQuotes, n: nat): (cs: seq<Candidate>)
    requires QuotesFor(config, quotes) && n <= |quotes|
    ensures forall k :: 0 <= k < |cs| ==> Faithful(config, cs[k]) && cs[k].outcome < n
  {
    if n == 0 then []
    else Candidates(config, quotes, n - 1) + VenueCandidates(config, n - 1, quotes[n - 1], MAX_VENUES)
  }

  /** A candidate's derived fields follow from its level and its venue. */
  ghost predicate Faithful(config: MarketConfig, c: Candidate) {
    && c.venue < MAX_VENUES && c.size > 0
    && c.size == Discounted(config.survivalBps[c.venue], c.raw)
    && c.eff == Effective(config.fees[c.venue], c.price)
  }

  // ---- Selection ----

  /** The cheapest of an allowed set of candidates, the earliest among equals. */
  ghost predicate Cheapest(cs: seq<Candidate>, allowed: set<nat>, i: nat) {
    && i in allowed && i < |cs|
    && forall j: nat :: j in allowed && j < |cs| ==> cs[i].eff <= cs[j].eff && (j < i ==> cs[i].eff < cs[j].eff)
  }

  /** The candidates backing an outcome. */
  function Backing(cs: seq<Candidate>, outcome: nat): set<nat> {
    set i: nat | i < |cs| && cs[i].outcome == outcome
  }

  /** The candidates not yet in a plan. */
  function Unchosen(cs: seq<Candidate>, plan: seq<nat>): set<nat> {
    set i: nat | i < |cs| && i !in plan
  }

  /** The plan covers outcome `o` with its best quote at position `o`, then takes the best of
      what is left until the candidates or the chunks run out. */
  ghost predicate Selection(cs: seq<Candidate>, outcomes: nat, plan: seq<nat>) {
    && outcomes <= |plan| <= MAX_CHUNKS
    && (forall o :: 0 <= o < outcomes ==> Cheapest(cs, Backing(cs, o), plan[o]))
    && (forall k :: outcomes <= k < |plan| ==> Cheapest(cs, Unchosen(cs, plan[..k]), plan[k]))
    && (|plan| < MAX_CHUNKS ==> Unchosen(cs, plan) == {})
  }

  /** A selection never takes a candidate twice. */
  lemma {:induction false} SelectionDistinct(cs: seq<Candidate>, outcomes: nat, plan: seq<nat>)
    requires Selection(cs, outcomes, plan)
    ensures forall k :: 0 <= k < |plan| ==> plan[k] < |cs|
    ensures forall j, k :: 0 <= j < k < |plan| ==> plan[j] != plan[k]
  {
    forall k | 0 <= k < |plan|
      ensures plan[k] < |cs|
      ensures forall j :: 0 <= j < k ==> plan[j] != plan[k]
    {
      if k < outcomes {
        assert Cheapest(cs, Backing(cs, k), plan[k]);
        forall j | 0 <= j < k
          ensures plan[j] != plan[k]
        {
          assert Cheapest(cs, Backing(cs, j), plan[j]);
        }
      } else {
        assert Cheapest(cs, Unchosen(cs, plan[..k]), plan[k]);
        forall j | 0 <= j < k
          ensures plan[j] != plan[k]
        {
          assert plan[..k][j] in plan[..k];
        }
      }
    }
  }

  /** Nothing left out is cheaper than anything shopped for. */
  lemma {:induction false} ShoppedAreCheapest(cs: seq<Candidate>, outcomes: nat, plan: seq<nat>, k: nat, i: nat)
    requires Selection(cs, outcomes, plan) && outcomes <= k < |plan| && i < |cs| && i !in plan
    ensures cs[plan[k]].eff <= cs[i].eff
  {
    assert Cheapest(cs, Unchosen(cs, plan[..k]), plan[k]);
    assert i !in plan[..k];
  }

  /** Scan for the cheapest candidate that is allowed. */
  method FindCheapest(cs: seq<Candidate>, allowed: array<bool>) returns (best: Option<nat>)
    requires allowed.Length == |cs|
    ensures best.None? ==> forall i :: 0 <= i < |cs| ==> !allowed[i]
    ensures best.Some? ==> Cheapest(cs, Marked(allowed[..]), best.value)
  {
    best := None;
    for i := 0 to |cs|
      invariant best.None? ==> forall j :: 0 <= j < i ==> !allowed[j]
      invariant best.Some? ==>
                  && best.value < i && allowed[best.value]
                  && forall j :: 0 <= j < i && allowed[j] ==>
                                   && cs[best.value].eff <= cs[j].eff
                                   && (j < best.value ==> cs[best.value].eff < cs[j].eff)
    {
      if allowed[i] && (best.None? || cs[i].eff < cs[best.value].eff) {
        best := Some(i);
      }
    }
  }

  function Marked(flags: seq<bool>): set<nat> {
    set i: nat | i < |flags| && flags[i]
  }

  /** Fair coverage: the best quote of each outcome, or the first outcome without one. */
  method Cover(cs: seq<Candidate>, outcomes: nat) returns (plan: seq<nat>, missing: Option<nat>)
    ensures missing.None? ==>
              |plan| == outcomes && forall o :: 0 <= o < outcomes ==> Cheapest(cs, Backing(cs, o), plan[o])
    ensures missing.Some? ==> missing.value < outcomes && Backing(cs, missing.value) == {}
  {
    plan, missing := [], None;
    for o := 0 to outcomes
      invariant |plan| == o && forall k :: 0 <= k < o ==> Cheapest(cs, Backing(cs, k), plan[k])
    {
      var allowed := new bool[|cs|](i requires 0 <= i < |cs| => cs[i].outcome == o);
      var best := FindCheapest(cs, allowed);
      assert Marked(allowed[..]) == Backing(cs, o);
      if best.None? {
        return plan, Some(o);
      }
      plan := plan + [best.value];
    }
  }

  /** Line shopping: fill the remaining chunks in globally best order. */
  method Shop(cs: seq<Candidate>, outcomes: nat, covered: seq<nat>) returns (plan: seq<nat>)
    requires |covered| == outcomes <= MAX_CHUNKS
    requires forall o :: 0 <= o < outcomes ==> Cheapest(cs, Backing(cs, o), covered[o])
    ensures Selection(cs, outcomes, plan) && plan[..outcomes] == covered
  {
    plan := covered;
    var left := new bool[|cs|](i requires 0 <= i < |cs| => i !in covered);
    assert Marked(left[..]) == Unchosen(cs, plan);
    while |plan| < MAX_CHUNKS
      invariant outcomes <= |plan| <= MAX_CHUNKS && plan[..outcomes] == covered
      invariant Marked(left[..]) == Unchosen(cs, plan)
      invariant forall k :: outcomes <= k < |plan| ==> Cheapest(cs, Unchosen(cs, plan[..k]), plan[k])
    {
      var best := FindCheapest(cs, left);
      if best.None? {
        assert Marked(left[..]) == {};
        break;
      }
      ghost var before := left[..];
      left[best.value] := false;
      MarkedWithout(before, left[..], cs, plan, best.value);
      plan := Extended(cs, outcomes, plan, best.value);
    }
    forall o | 0 <= o < outcomes
      ensures Cheapest(cs, Backing(cs, o), plan[o])
    {
      assert plan[..outcomes][o] == covered[o];
    }
  }

  lemma {:induction false} MarkedWithout(
    before: seq<bool>, after: seq<bool>, cs: seq<Candidate>, plan: seq<nat>, i: nat)
    requires |before| == |cs| && i < |cs| && after == before[i := false] && Marked(before) == Unchosen(cs, plan)
    ensures Marked(after) == Unchosen(cs, plan + [i])
  {
    forall j: nat
      ensures j in Marked(after) <==> j in Unchosen(cs, plan + [i])
    {
      assert j in Marked(before) <==> j in Unchosen(cs, plan);
    }
  }

  /** One more chunk. */
  function Extended(cs: seq<Candidate>, outcomes: nat, plan: seq<nat>, i: nat): (r: seq<nat>)
    requires outcomes <= |plan| && Cheapest(cs, Unchosen(cs, plan), i)
    requires forall k :: outcomes <= k < |plan| ==> Cheapest(cs, Unchosen(cs, plan[..k]), plan[k])
    ensures r == plan + [i] && r[..outcomes] == plan[..outcomes]
    ensures forall k :: outcomes <= k < |r| ==> Cheapest(cs, Unchosen(cs, r[..k]), r[k])
  {
    var r := plan + [i];
    assert forall k :: 0 <= k <= |plan| ==> r[..k] == plan[..k];
    assert plan[..|plan|] == plan;
    r
  }

  // ---- Detection ----

  /** The one-level detection leg of a candidate. */
  function LegOf(config: MarketConfig, c: Candidate): BookLeg
    requires c.venue < MAX_VENUES
  {
    BookLegData(c.venue, c.outcome, config.fees[c.venue], config.increments[c.venue],
                [Level(c.price, c.size)] + seq(MAX_LEVELS - 1, _ => Level(PPM, 0)), 1)
  }

  function LegsOf(config: MarketConfig, cs: seq<Candidate>, plan: seq<nat>): (legs: seq<BookLeg>)
    requires forall k :: 0 <= k < |plan| ==> plan[k] < |cs| && cs[plan[k]].venue < MAX_VENUES
    ensures |legs| == |plan| && forall k :: 0 <= k < |plan| ==> legs[k] == LegOf(config, cs[plan[k]])
  {
    seq(|plan|, k requires 0 <= k < |plan| => LegOf(config, cs[plan[k]]))
  }

  /** The execution leg of a candidate: the raw size, since filling applies the discount. */
  function ExecutionLeg(config: MarketConfig, c: Candidate): Leg
    requires c.venue < MAX_VENUES
  {
    Leg(c.venue, c.outcome, c.price, config.fees[c.venue], c.raw, config.increments[c.venue])
  }

  /** The execution plan mirrors the allocations one to one. */
  ghost predicate Mirrors(
    config: MarketConfig, cs: seq<Candidate>, plan: seq<nat>, allocations: seq<Allocation>, legs: seq<Leg>)
  {
    && |legs| == |allocations|
    && forall i :: 0 <= i < |legs| ==>
                     && allocations[i].leg < |plan| && plan[allocations[i].leg] < |cs|
                     && cs[plan[allocations[i].leg]].venue < MAX_VENUES
                     && legs[i] == ExecutionLeg(config, cs[plan[allocations[i].leg]])
  }

  /** What one run of detection produced. */
  datatype Scan = Scan(
    legs: seq<BookLeg>, result: Result<Option<Signal>, ArbError>, groupOf: seq<nat>, run: Option<Run>)

  ghost predicate ScanOf(config: MarketConfig, cs: seq<Candidate>, plan: seq<nat>, scan: Scan) {
    && (forall k :: 0 <= k < |plan| ==> plan[k] < |cs| && cs[plan[k]].venue < MAX_VENUES)
    && scan.legs == LegsOf(config, cs, plan)
    && IsDetection(scan.legs, config.budget, scan.result, scan.groupOf, scan.run)
  }

  /** A signal with its execution plan. */
  datatype MarketSignal = MarketSignal(signal: Signal, plan: seq<Leg>)

  /** What an evaluation went through: the candidates, the selection, and both detections. */
  datatype Evaluation = Evaluation(candidates: seq<Candidate>, plan: seq<nat>, shopped: Scan, single: Scan)

  /** The more profitable signal; shopping never loses to the single best quotes. */
  function Better(shopped: Option<Signal>, single: Option<Signal>): (best: Option<Signal>)
    ensures best.None? <==> shopped.None? && single.None?
    ensures best == shopped || best == single
    ensures shopped.Some? ==> best.value.worstCaseProfit >= shopped.value.worstCaseProfit
    ensures single.Some? ==> best.value.worstCaseProfit >= single.value.worstCaseProfit
  {
    if shopped.None? then single
    else if single.Some? && single.value.worstCaseProfit > shopped.value.worstCaseProfit then single
    else shopped
  }

  /** What an evaluation returns, traced to its detections. */
  ghost predicate Evaluated(
    config: MarketConfig, quotes: MarketQuotes, result: Result<Option<MarketSignal>, ArbError>, e: Evaluation)
    requires QuotesFor(config, quotes)
  {
    && e.candidates == Candidates(config, quotes, |quotes|)
    && Selection(e.candidates, config.outcomeCount, e.plan)
    && ScanOf(config, e.candidates, e.plan, e.shopped)
    && (e.shopped.result.Ok? ==> ScanOf(config, e.candidates, e.plan[..config.outcomeCount], e.single))
    && (e.shopped.result.Err? ==> result == Err(e.shopped.result.error))
    && (e.shopped.result.Ok? && e.single.result.Err? ==> result == Err(e.single.result.error))
    && (result.Err? ==> e.shopped.result.Err? || e.single.result.Err?)
    && (result.Ok? ==>
          && e.shopped.result.Ok? && e.single.result.Ok?
          && var signal := Better(e.shopped.result.value, e.single.result.value);
             && (result.value.None? <==> signal.None?)
             && (result.value.Some? ==>
                   && result.value.value.signal == signal.value
                   && Mirrors(config, e.candidates, e.plan, signal.value.allocations, result.value.value.plan)))
  }

  /** Some outcome has no live quote. */
  ghost predicate Unquoted(config: MarketConfig, quotes: MarketQuotes)
    requires QuotesFor(config, quotes)
  {
    exists o :: 0 <= o < config.outcomeCount && Backing(Candidates(config, quotes, |quotes|), o) == {}
  }

  /** The result of an evaluation. */
  ghost predicate Evaluates(
    config: MarketConfig, quotes: MarketQuotes, result: Result<Option<MarketSignal>, ArbError>)
    requires QuotesFor(config, quotes)
  {
    if !config.active || Unquoted(config, quotes) then result == Ok(None)
    else exists e :: Evaluated(config, quotes, result, e)
  }

  /** Evaluate a market's quotes. Nothing is returned for an inactive market or without a live
      quote on every outcome; otherwise the better of the shopped and the single-quote plan. */
  method EvaluateMarket(config: MarketConfig, quotes: MarketQuotes)
    returns (result: Result<Option<MarketSignal>, ArbError>)
    requires QuotesFor(config, quotes)
    ensures Evaluates(config, quotes, result)
  {
    if !config.active {
      return Ok(None);
    }
    var cs := Collect(config, quotes);
    var covered, missing := Cover(cs, config.outcomeCount);
    if missing.Some? {
      assert Unquoted(config, quotes);
      return Ok(None);
    }
    assert !Unquoted(config, quotes) by {
      forall o | 0 <= o < config.outcomeCount
        ensures Backing(cs, o) != {}
      {
        assert Cheapest(cs, Backing(cs, o), covered[o]);
      }
    }
    var plan := Shop(cs, config.outcomeCount, covered);
    result := EvaluatePlan(config, quotes, cs, plan);
  }

  /** Run detection over some chunks of a selection. */
  method Detect(config: MarketConfig, cs: seq<Candidate>, plan: seq<nat>)
    returns (result: Result<Option<Signal>, ArbError>, ghost scan: Scan)
    requires forall k :: 0 <= k < |plan| ==> plan[k] < |cs| && cs[plan[k]].venue < MAX_VENUES
    ensures ScanOf(config, cs, plan, scan) && scan.result == result
    ensures result.Ok? && result.value.Some? ==>
              forall i :: 0 <= i < |result.value.value.allocations| ==> result.value.value.allocations[i].leg < |plan|
  {
    var legs := LegsOf(config, cs, plan);
    var found, groups, run := DetectBook(legs, config.budget);
    result := found;
    scan := Scan(legs, result, groups, run);
    if result.Ok? && result.value.Some? {
      SignalLegsExist(config, cs, plan, scan, result.value.value);
    }
  }

  /** Detect over the shopped plan and over its fair-coverage prefix, and keep the better. */
  method EvaluatePlan(config: MarketConfig, ghost quotes: MarketQuotes, cs: seq<Candidate>, plan: seq<nat>)
    returns (result: Result<Option<MarketSignal>, ArbError>)
    requires QuotesFor(config, quotes) && cs == Candidates(config, quotes, |quotes|)
    requires Selection(cs, config.outcomeCount, plan)
    ensures exists e :: Evaluated(config, quotes, result, e)
  {
    SelectionDistinct(cs, config.outcomeCount, plan);
    var shopped, wide := Detect(config, cs, plan);
    if shopped.Err? {
      result := Err(shopped.error);
      ghost var failed := Evaluation(cs, plan, wide, wide);
      assert Evaluated(config, quotes, result, failed);
      return;
    }
    var single, narrow := Detect(config, cs, plan[..config.outcomeCount]);
    ghost var e := Evaluation(cs, plan, wide, narrow);
    if single.Err? {
      result := Err(single.error);
      assert Evaluated(config, quotes, result, e);
      return;
    }
    var signal := Better(shopped.value, single.value);
    if signal.None? {
      result := Ok(None);
    } else {
      var legs := MirrorPlan(config, cs, plan, signal.value);
      result := Ok(Some(MarketSignal(signal.value, legs)));
    }
    assert Evaluated(config, quotes, result, e);
  }

  /** Collect every level with surviving depth. */
  method Collect(config: MarketConfig, quotes: MarketQuotes) returns (cs: seq<Candidate>)
    requires QuotesFor(config, quotes)
    ensures cs == Candidates(config, quotes, |quotes|)
  {
    cs := [];
    for o := 0 to config.outcomeCount
      invariant cs == Candidates(config, quotes, o)
    {
      ghost var before := cs;
      var more := CollectOutcome(config, o, quotes[o]);
      cs := cs + more;
    }
  }

  method CollectOutcome(config: MarketConfig, o: nat, books: seq<seq<Level>>) returns (cs: seq<Candidate>)
    requires |books| == MAX_VENUES
    ensures cs == VenueCandidates(config, o, books, MAX_VENUES)
  {
    cs := [];
    for v := 0 to MAX_VENUES
      invariant cs == VenueCandidates(config, o, books, v)
    {
      var more := CollectBook(config, o, v, books[v]);
      cs := cs + more;
    }
  }

  method CollectBook(config: MarketConfig, o: nat, v: nat, levels: seq<Level>) returns (cs: seq<Candidate>)
    requires v < MAX_VENUES
    ensures cs == LevelCandidates(config, o, v, levels, |levels|)
  {
    cs := [];
    for l := 0 to |levels|
      invariant cs == LevelCandidates(config, o, v, levels, l)
    {
      var size := Discounted(config.survivalBps[v], levels[l].size);
      if size > 0 {
        cs := cs + [Candidate(o, v, levels[l].price, Effective(config.fees[v], levels[l].price), levels[l].size, size)];
      }
    }
  }

  /** Rebuild one execution leg for each allocation of a signal. */
  method MirrorPlan(config: MarketConfig, cs: seq<Candidate>, plan: seq<nat>, signal: Signal)
    returns (legs: seq<Leg>)
    requires forall k :: 0 <= k < |plan| ==> plan[k] < |cs| && cs[plan[k]].venue < MAX_VENUES
    requires forall i :: 0 <= i < |signal.allocations| ==> signal.allocations[i].leg < |plan|
    ensures Mirrors(config, cs, plan, signal.allocations, legs)
  {
    legs := [];
    for i := 0 to |signal.allocations|
      invariant |legs| == i
      invariant forall k :: 0 <= k < i ==> legs[k] == ExecutionLeg(config, cs[plan[signal.allocations[k].leg]])
    {
      legs := legs + [ExecutionLeg(config, cs[plan[signal.allocations[i].leg]])];
    }
  }

  lemma {:induction false} SignalLegsExist(
    config: MarketConfig, cs: seq<Candidate>, plan: seq<nat>, scan: Scan, signal: Signal)
    requires ScanOf(config, cs, plan, scan) && scan.result == Ok(Some(signal))
    ensures forall i :: 0 <= i < |signal.allocations| ==> signal.allocations[i].leg < |scan.legs|
  {
    var run := scan.run.value;
    var slots := AllocatedSlots(run.slots, run.chosen, |run.slots|);
    forall i | 0 <= i < |signal.allocations|
      ensures signal.allocations[i].leg < |scan.legs|
    {
      assert DrawsOn(scan.legs, slots[i], signal.allocations[i]);
    }
  }

  /** Read a market's books off the slab: a stale book offers nothing. */
  method ReadMarket(slab: EngineSlab, market: nat, config: MarketConfig) returns (quotes: MarketQuotes)
    requires slab.Healthy() && market < slab.markets
    ensures QuotesFor(config, quotes)
    ensures ReadOff(slab.States(), slab.markets, market, quotes)
  {
    quotes := [];
    for o := 0 to config.outcomeCount
      invariant |quotes| == o && forall k :: 0 <= k < o ==> |quotes[k]| == MAX_VENUES
      invariant ReadOff(slab.States(), slab.markets, market, quotes)
    {
      var books := ReadOutcome(slab, market, o);
      quotes := quotes + [books];
    }
  }

  /** Quotes are what the books of a market tell their readers. */
  ghost predicate ReadOff(states: seq<BookState>, markets: nat, market: nat, quotes: MarketQuotes) {
    && |states| == markets * MAX_OUTCOMES * MAX_VENUES && market < markets && |quotes| <= MAX_OUTCOMES
    && forall o :: 0 <= o < |quotes| ==> OutcomeReadOff(states, markets, market, o, quotes[o])
  }

  /** One outcome's books, venue by venue. */
  ghost predicate OutcomeReadOff(
    states: seq<BookState>, markets: nat, market: nat, outcome: nat, books: seq<seq<Level>>)
    requires |states| == markets * MAX_OUTCOMES * MAX_VENUES && market < markets && outcome < MAX_OUTCOMES
  {
    |books| == MAX_VENUES
    && forall v :: 0 <= v < MAX_VENUES ==> books[v] == Of(states, markets, Address(market, outcome, v)).levels
  }

  method ReadOutcome(slab: EngineSlab, market: nat, outcome: nat) returns (books: seq<seq<Level>>)
    requires slab.Healthy() && market < slab.markets && outcome < MAX_OUTCOMES
    ensures OutcomeReadOff(slab.States(), slab.markets, market, outcome, books)
  {
    books := [];
    for v := 0 to MAX_VENUES
      invariant |books| == v
      invariant forall k :: 0 <= k < v ==>
                              books[k] == Of(slab.States(), slab.markets, Address(market, outcome, k)).levels
    {
      var levels := slab.LevelsAt(Address(market, outcome, v));
      books := books + [levels];
    }
  }
}
