/** Detection is a function of what it reads: the same books give the same answer, whatever
    the bounds, the budget and the depth. */
module Determinism {
  import opened Quotes
  import opened Plans
  import opened Search
  import opened Flatten
  import opened Planner
  import opened Book
  import opened Fill
  import opened Aggregator
  import opened Engine

  // ---- Grouping and flattening ----

  /** Two groupings number the outcomes of the legs alike. */
  ghost predicate SameGroups(legs: seq<BookLeg>, g: seq<nat>, h: seq<nat>) {
    |legs| <= |g| && |legs| <= |h| && forall i :: 0 <= i < |legs| ==> g[i] == h[i]
  }

  lemma {:induction false} GroupsAgree(legs: seq<BookLeg>, g: seq<nat>, h: seq<nat>)
    requires GroupsOutcomes(legs, g, |legs|, Outcomes(legs, |legs|))
    requires GroupsOutcomes(legs, h, |legs|, Outcomes(legs, |legs|))
    ensures SameGroups(legs, g, h)
  {
    forall i | 0 <= i < |legs|
      ensures g[i] == h[i]
    {
      if g[i] < h[i] {
        OutcomesDistinct(legs, |legs|, g[i], h[i]);
      } else if h[i] < g[i] {
        OutcomesDistinct(legs, |legs|, h[i], g[i]);
      }
    }
  }

  /** An outcome has one best slot. */
  lemma {:induction false} BestSlotUnique(
    legs: seq<BookLeg>, g: seq<nat>, h: seq<nat>, group: nat, s: Slot, t: Slot)
    requires SameGroups(legs, g, h) && IsBestSlot(legs, g, group, s) && IsBestSlot(legs, h, group, t)
    ensures s == t
  {
    assert Before(s, t) || Before(t, s) || s == t;
  }

  /** The legs determine the chunks. */
  lemma {:induction false} PreparedUnique(
    legs: seq<BookLeg>, g: seq<nat>, h: seq<nat>, a: Run, b: Run)
    requires SameGroups(legs, g, h)
    requires Prepared(legs, g, a.chunks, a.slots) && Prepared(legs, h, b.chunks, b.slots)
    requires a.chunks.nGroups == b.chunks.nGroups && a.chunks.budget == b.chunks.budget
    ensures a.slots == b.slots && a.chunks == b.chunks
  {
    var n := a.chunks.nGroups;
    forall i | 0 <= i < n
      ensures a.slots[i] == b.slots[i]
    {
      BestSlotUnique(legs, g, h, i, a.slots[i], b.slots[i]);
    }
    assert a.slots[..n] == b.slots[..n];
    assert a.slots == a.slots[..n] + a.slots[n..] && b.slots == b.slots[..n] + b.slots[n..];
    forall k | 0 <= k < |a.slots|
      ensures a.chunks.items[k] == b.chunks.items[k]
    {
      assert Usable(legs, a.slots[k]);
    }
    assert a.chunks.items == b.chunks.items;
  }

  // ---- One detection ----

  /** The chunks determine the plans weighed. */
  lemma {:induction false} WeighedUnique(c: Chunks, a: seq<seq<int>>, b: seq<seq<int>>)
    requires c.nGroups <= |c.items| <= MAX_CHUNKS && BestOverround(c) > 0
    requires Weighed(c, a) && Weighed(c, b)
    ensures a == b
  {
    if SeedUsable(c, BestOverround(c)) {
      SeedUnique(c, BestOverround(c), a[0], b[0]);
      assert a == [a[0]] + a[1..] && b == [b[0]] + b[1..];
    }
  }

  lemma {:induction false} FirstBestUnique(c: Chunks, offered: seq<seq<int>>, a: seq<int>, b: seq<int>)
    requires FirstBest(c, offered, a) && FirstBest(c, offered, b)
    ensures a == b
  {
    var v: nat :| IsFirstBest(c, offered, a, v);
    var w: nat :| IsFirstBest(c, offered, b, w);
    assert Profit(c, offered[v]) == Profit(c, offered[w]);
  }

  /** Detection does not stop before the search when it could search. */
  ghost predicate Stops(legs: seq<BookLeg>, groupOf: seq<nat>, n: nat, budget: int)
    requires |legs| <= |groupOf|
  {
    || budget <= 0
    || (exists g :: 0 <= g < n && Unhedgeable(legs, groupOf, g))
    || (exists best :: |best| == n && AtParity(legs, groupOf, best))
  }

  lemma {:induction false} PreparedGoesOn(legs: seq<BookLeg>, g: seq<nat>, h: seq<nat>, run: Run)
    requires SameGroups(legs, g, h) && Prepared(legs, g, run.chunks, run.slots)
    ensures !Stops(legs, h, run.chunks.nGroups, run.chunks.budget)
  {
    var n := run.chunks.nGroups;
    forall i | 0 <= i < n
      ensures !Unhedgeable(legs, h, i)
    {
      assert IsBestSlot(legs, g, i, run.slots[i]);
    }
    forall best: seq<Slot> | |best| == n && BestSlots(legs, h, best)
      ensures !AtParity(legs, h, best)
    {
      forall i | 0 <= i < n
        ensures BestPrices(run.chunks)[i] == SlotPrices(legs, best)[i]
      {
        assert IsBestSlot(legs, h, i, best[i]);
        BestSlotUnique(legs, g, h, i, run.slots[i], best[i]);
      }
      assert BestPrices(run.chunks) == SlotPrices(legs, best);
    }
  }

  /** Two searches of the same legs report the same signal. */
  lemma {:induction false} SearchesAgree(
    legs: seq<BookLeg>, g: seq<nat>, h: seq<nat>, a: Run, b: Run)
    requires SameGroups(legs, g, h) && Searched(legs, g, a) && Searched(legs, h, b)
    requires a.chunks.nGroups == b.chunks.nGroups && a.chunks.budget == b.chunks.budget
    ensures a.chunks == b.chunks && a.offered == b.offered
    ensures FirstBest(a.chunks, a.offered, a.chosen) && FirstBest(b.chunks, b.offered, b.chosen) ==>
              a.chosen == b.chosen
  {
    PreparedUnique(legs, g, h, a, b);
    WeighedUnique(a.chunks, a.offered, b.offered);
    if FirstBest(a.chunks, a.offered, a.chosen) && FirstBest(b.chunks, b.offered, b.chosen) {
      FirstBestUnique(a.chunks, a.offered, a.chosen, b.chosen);
    }
  }

  /** The first malformed leg is one leg. */
  lemma {:induction false} FirstMalformedUnique(legs: seq<BookLeg>, i: nat, j: nat)
    requires FirstMalformed(legs, i) && FirstMalformed(legs, j)
    ensures i == j
  {
  }

  /** Two detections on the same legs give the same answer: the same error, nothing, or the same
      signal to the cent. */
  lemma {:induction false} DetectionsAgree(
    legs: seq<BookLeg>, budget: int, r: Result<Option<Signal>, ArbError>, g: seq<nat>, a: Option<Run>,
    r': Result<Option<Signal>, ArbError>, h: seq<nat>, b: Option<Run>)
    requires IsDetection(legs, budget, r, g, a) && IsDetection(legs, budget, r', h, b)
    ensures r == r'
  {
    if 2 <= |legs| <= MAX_CHUNKS && |Outcomes(legs, |legs|)| >= 2 {
      if r.Err? {
        FirstMalformedUnique(legs, r.error.leg, r'.error.leg);
      } else {
        GroupsAgree(legs, g, h);
        RunsAgree(legs, budget, r.value, g, a, r'.value, h, b);
      }
    }
  }

  lemma {:induction false} RunsAgree(
    legs: seq<BookLeg>, budget: int, s: Option<Signal>, g: seq<nat>, a: Option<Run>,
    s': Option<Signal>, h: seq<nat>, b: Option<Run>)
    requires 2 <= |legs| <= MAX_CHUNKS && |Outcomes(legs, |legs|)| >= 2 && SameGroups(legs, g, h)
    requires IsDetection(legs, budget, Ok(s), g, a) && IsDetection(legs, budget, Ok(s'), h, b)
    ensures s == s'
  {
    if a.Some? {
      PreparedGoesOn(legs, g, h, a.value);
    }
    if b.Some? {
      PreparedGoesOn(legs, h, g, b.value);
    }
    if a.Some? && b.Some? {
      SearchesAgree(legs, g, h, a.value, b.value);
    }
  }

  // ---- One evaluation ----

  lemma {:induction false} CheapestUnique(cs: seq<Candidate>, allowed: set<nat>, i: nat, j: nat)
    requires Aggregator.Cheapest(cs, allowed, i) && Aggregator.Cheapest(cs, allowed, j)
    ensures i == j
  {
  }

  /** The candidates determine the selection, position by position. */
  lemma {:induction false} SelectionsAgree(cs: seq<Candidate>, outcomes: nat, p: seq<nat>, q: seq<nat>, n: nat)
    requires Selection(cs, outcomes, p) && Selection(cs, outcomes, q) && n <= |p| && n <= |q|
    ensures forall k :: 0 <= k < n ==> p[k] == q[k]
  {
    if n > 0 {
      SelectionsAgree(cs, outcomes, p, q, n - 1);
      SamePrefix(p, q, n - 1);
      NextAgrees(cs, outcomes, p, q, n - 1);
    }
  }

  lemma {:induction false} SamePrefix(p: seq<nat>, q: seq<nat>, n: nat)
    requires n <= |p| && n <= |q| && forall k :: 0 <= k < n ==> p[k] == q[k]
    ensures p[..n] == q[..n] && (n == |p| ==> q[..n] == p)
  {
  }

  lemma {:induction false} NextAgrees(cs: seq<Candidate>, outcomes: nat, p: seq<nat>, q: seq<nat>, k: nat)
    requires Selection(cs, outcomes, p) && Selection(cs, outcomes, q) && k < |p| && k < |q| && p[..k] == q[..k]
    ensures p[k] == q[k]
  {
    if k < outcomes {
      assert Aggregator.Cheapest(cs, Backing(cs, k), p[k]) && Aggregator.Cheapest(cs, Backing(cs, k), q[k]);
      CheapestUnique(cs, Backing(cs, k), p[k], q[k]);
    } else {
      CheapestUnique(cs, Unchosen(cs, p[..k]), p[k], q[k]);
    }
  }

  lemma {:induction false} SelectionUnique(cs: seq<Candidate>, outcomes: nat, p: seq<nat>, q: seq<nat>)
    requires Selection(cs, outcomes, p) && Selection(cs, outcomes, q)
    ensures p == q
  {
    if |p| < |q| {
      LongerImpossible(cs, outcomes, p, q);
    } else if |q| < |p| {
      LongerImpossible(cs, outcomes, q, p);
    } else {
      SelectionsAgree(cs, outcomes, p, q, |p|);
    }
  }

  /** A selection stops only when nothing is left to take. */
  lemma {:induction false} LongerImpossible(cs: seq<Candidate>, outcomes: nat, p: seq<nat>, q: seq<nat>)
    requires Selection(cs, outcomes, p) && Selection(cs, outcomes, q)
    ensures |p| >= |q|
  {
    if |p| < |q| {
      SelectionsAgree(cs, outcomes, p, q, |p|);
      SamePrefix(p, q, |p|);
      assert false;
    }
  }

  lemma {:induction false} ScansAgree(config: MarketConfig, cs: seq<Candidate>, plan: seq<nat>, a: Scan, b: Scan)
    requires ScanOf(config, cs, plan, a) && ScanOf(config, cs, plan, b)
    ensures a.result == b.result
  {
    DetectionsAgree(a.legs, config.budget, a.result, a.groupOf, a.run, b.result, b.groupOf, b.run);
  }

  lemma {:induction false} MirrorsAgree(
    config: MarketConfig, cs: seq<Candidate>, plan: seq<nat>, allocations: seq<Allocation>,
    a: seq<Leg>, b: seq<Leg>)
    requires Mirrors(config, cs, plan, allocations, a) && Mirrors(config, cs, plan, allocations, b)
    ensures a == b
  {
  }

  /** Two evaluations of the same quotes give the same answer. */
  lemma {:induction false} EvaluationsAgree(
    config: MarketConfig, quotes: MarketQuotes, r: Result<Option<MarketSignal>, ArbError>, e: Evaluation,
    r': Result<Option<MarketSignal>, ArbError>, e': Evaluation)
    requires QuotesFor(config, quotes) && Evaluated(config, quotes, r, e) && Evaluated(config, quotes, r', e')
    ensures r == r'
  {
    SelectionUnique(e.candidates, config.outcomeCount, e.plan, e'.plan);
    ScansAgree(config, e.candidates, e.plan, e.shopped, e'.shopped);
    if e.shopped.result.Ok? {
      ScansAgree(config, e.candidates, e.plan[..config.outcomeCount], e.single, e'.single);
      if r.Ok? && r.value.Some? {
        MirrorsAgree(config, e.candidates, e.plan, r.value.value.signal.allocations,
                     r.value.value.plan, r'.value.value.plan);
      }
    }
  }

  // ---- The state of the books ----

  lemma {:induction false} ReadingsAgree(
    states: seq<BookState>, markets: nat, market: nat, p: MarketQuotes, q: MarketQuotes)
    requires ReadOff(states, markets, market, p) && ReadOff(states, markets, market, q) && |p| == |q|
    ensures p == q
  {
    forall o | 0 <= o < |p|
      ensures p[o] == q[o]
    {
      assert OutcomeReadOff(states, markets, market, o, p[o]) && OutcomeReadOff(states, markets, market, o, q[o]);
    }
  }

  /** The state of the books and the parameters of a market determine what evaluating it gives,
      so also what the engine emits on an event. */
  lemma {:induction false} AnswersAgree(
    config: MarketConfig, states: seq<BookState>, markets: nat, market: nat,
    r: Result<Option<MarketSignal>, ArbError>, r': Result<Option<MarketSignal>, ArbError>)
    requires Answers(config, states, markets, market, r) && Answers(config, states, markets, market, r')
    ensures r == r'
  {
    var p :| QuotesFor(config, p) && ReadOff(states, markets, market, p) && Evaluates(config, p, r);
    var q :| QuotesFor(config, q) && ReadOff(states, markets, market, q) && Evaluates(config, q, r');
    ReadingsAgree(states, markets, market, p, q);
    if config.active && !Unquoted(config, p) {
      var e :| Evaluated(config, p, r, e);
      var e' :| Evaluated(config, p, r', e');
      EvaluationsAgree(config, p, r, e, r', e');
    }
  }
}
