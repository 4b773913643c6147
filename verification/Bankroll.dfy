/** Per-venue capital, and the trade loop that reserves it, simulates, commits what filled and
    settles on the outcome that pays least. */
module Bankroll {
  import opened Arith
  import opened Price
  import opened Quotes
  import opened Fill
  import opened Simulator

  const MAX_BANKROLL_VENUES := 32

  /** The sum of balances. */
  function SumOf(s: seq<int>): int {
    if s == [] then 0 else SumOf(s[..|s| - 1]) + s[|s| - 1]
  }

  lemma {:induction false} SumUpdate(s: seq<int>, i: nat, x: int)
    requires i < |s|
    ensures SumOf(s[i := x]) == SumOf(s) - s[i] + x
  {
    var init := s[..|s| - 1];
    if i == |s| - 1 {
      assert s[i := x][..|s| - 1] == init;
    } else {
      assert s[i := x][..|s| - 1] == init[i := x];
      SumUpdate(init, i, x);
    }
  }

  /** A stake to reserve, and what came of it. */
  datatype Order = Order(venue: nat, stake: int)

  /** What orders ask of a venue. */
  function Asked(orders: seq<Order>, venue: nat, n: nat): int
    requires n <= |orders|
  {
    if n == 0 then 0
    else Asked(orders, venue, n - 1) + if orders[n - 1].venue == venue then Max(orders[n - 1].stake, 0) else 0
  }

  /** What fills leave with a venue. */
  function Kept(fills: seq<LegFill>, venue: nat, n: nat): int
    requires n <= |fills|
  {
    if n == 0 then 0
    else Kept(fills, venue, n - 1) + if fills[n - 1].venue == venue then fills[n - 1].filled else 0
  }

  datatype BankrollError = TooManyVenues(n: nat) | NegativeInitialBalance(venue: nat, cents: int)

  /** Open a bankroll, refusing too many venues and the first negative balance. */
  method OpenBankroll(opening: seq<int>) returns (result: Result<Bankroll, BankrollError>)
    requires forall v :: 0 <= v < |opening| ==> opening[v] <= CENTS_MAX
    ensures result.Ok? <==> |opening| <= MAX_BANKROLL_VENUES && forall v :: 0 <= v < |opening| ==> opening[v] >= 0
    ensures result.Ok? ==>
              var b := result.value;
              && fresh(b) && fresh(b.available) && fresh(b.locked) && b.Valid() && b.Settled()
              && forall v :: 0 <= v < MAX_BANKROLL_VENUES ==> b.available[v] == if v < |opening| then opening[v] else 0
    ensures result.Err? && result.error.NegativeInitialBalance? ==>
              result.error.venue < |opening| && opening[result.error.venue] == result.error.cents < 0
  {
    if |opening| > MAX_BANKROLL_VENUES {
      return Err(TooManyVenues(|opening|));
    }
    for i := 0 to |opening|
      invariant forall v :: 0 <= v < i ==> opening[v] >= 0
    {
      if opening[i] < 0 {
        return Err(NegativeInitialBalance(i, opening[i]));
      }
    }
    var b := new Bankroll(opening);
    return Ok(b);
  }

  /** An amount of money that is not a debt. */
  predicate Amount(x: int) { 0 <= x <= CENTS_MAX }

  class Bankroll {
    const available: array<int>
    const locked: array<int>

    ghost predicate Valid()
      reads this, available, locked
    {
      && available.Length == MAX_BANKROLL_VENUES && locked.Length == MAX_BANKROLL_VENUES && available != locked
      && forall v :: 0 <= v < MAX_BANKROLL_VENUES ==> Amount(available[v]) && Amount(locked[v])
    }

    /** Nothing is locked anywhere. */
    ghost predicate Settled()
      reads this, locked
    {
      forall v :: 0 <= v < locked.Length ==> locked[v] == 0
    }

    constructor (opening: seq<int>)
      requires |opening| <= MAX_BANKROLL_VENUES && forall v :: 0 <= v < |opening| ==> Amount(opening[v])
      ensures Valid() && Settled() && fresh(available) && fresh(locked)
      ensures forall v :: 0 <= v < MAX_BANKROLL_VENUES ==> available[v] == if v < |opening| then opening[v] else 0
    {
      available := new int[MAX_BANKROLL_VENUES](v => if 0 <= v < |opening| then opening[v] else 0);
      locked := new int[MAX_BANKROLL_VENUES](_ => 0);
    }

    /** Move an amount from available to locked, or refuse and change nothing. */
    method Reserve(venue: nat, amount: int) returns (ok: bool)
      requires Valid()
      modifies available, locked
      ensures Valid()
      ensures ok == (venue < MAX_BANKROLL_VENUES && (amount <= 0 || old(available[venue]) >= amount))
      ensures forall v :: 0 <= v < MAX_BANKROLL_VENUES ==>
                            var moved := if ok && v == venue then Max(amount, 0) else 0;
                            available[v] == old(available[v]) - moved && locked[v] == ToCents(old(locked[v]) + moved)
    {
      if venue >= MAX_BANKROLL_VENUES {
        return false;
      }
      if amount <= 0 {
        return true;
      }
      if available[venue] < amount {
        return false;
      }
      available[venue] := available[venue] - amount;
      locked[venue] := ToCents(locked[venue] + amount);
      return true;
    }

    /** Release the unfilled part of a reservation, never more than is locked. */
    method CommitFill(venue: nat, unfilled: int)
      requires Valid()
      modifies available, locked
      ensures Valid()
      ensures forall v :: 0 <= v < MAX_BANKROLL_VENUES ==>
                            var back := if v == venue then Min(Max(unfilled, 0), old(locked[v])) else 0;
                            available[v] == ToCents(old(available[v]) + back) && locked[v] == old(locked[v]) - back
    {
      if venue >= MAX_BANKROLL_VENUES {
        return;
      }
      var refund := Min(Max(unfilled, 0), locked[venue]);
      locked[venue] := locked[venue] - refund;
      available[venue] := ToCents(available[venue] + refund);
    }

    /** A losing leg's collateral leaves. */
    method SettleLoss(venue: nat, collateral: int)
      requires Valid()
      modifies locked
      ensures Valid()
      ensures forall v :: 0 <= v < MAX_BANKROLL_VENUES ==>
                            locked[v] == old(locked[v])
                                         - if v == venue then Min(Max(collateral, 0), old(locked[v])) else 0
    {
      if venue >= MAX_BANKROLL_VENUES {
        return;
      }
      locked[venue] := locked[venue] - Min(Max(collateral, 0), locked[venue]);
    }

    /** A winning leg's collateral leaves and its payout is credited; friction is zero. */
    method SettleWin(venue: nat, collateral: int, payout: int)
      requires Valid()
      modifies available, locked
      ensures Valid()
      ensures forall v :: 0 <= v < MAX_BANKROLL_VENUES ==>
                            && locked[v] == old(locked[v])
                                            - (if v == venue then Min(Max(collateral, 0), old(locked[v])) else 0)
                            && available[v] == if v == venue then ToCents(old(available[v]) + Max(payout, 0))
                                               else old(available[v])
    {
      if venue >= MAX_BANKROLL_VENUES {
        return;
      }
      locked[venue] := locked[venue] - Min(Max(collateral, 0), locked[venue]);
      available[venue] := ToCents(available[venue] + Max(payout, 0));
    }
  }

  // ---- One trade ----

  /** The orders a signal's legs reserve. */
  function OrdersOf(a: Attempt): (orders: seq<Order>)
    requires |a.signal.allocations| == |a.legs|
    ensures |orders| == |a.legs|
  {
    seq(|a.legs|, i requires 0 <= i < |a.legs| => Order(a.legs[i].venue, a.signal.allocations[i].stake))
  }

  /** Every order fits what its venue has left after the orders before it. */
  ghost predicate Affordable(available: seq<int>, orders: seq<Order>)
    requires |available| == MAX_BANKROLL_VENUES
  {
    forall k :: 0 <= k < |orders| ==> OrderFits(available, orders, k)
  }

  ghost predicate OrderFits(available: seq<int>, orders: seq<Order>, k: nat)
    requires |available| == MAX_BANKROLL_VENUES && k < |orders|
  {
    && orders[k].venue < MAX_BANKROLL_VENUES
    && (orders[k].stake <= 0 || Asked(orders, orders[k].venue, k) + orders[k].stake <= available[orders[k].venue])
  }

  lemma {:induction false} AskedMonotone(orders: seq<Order>, venue: nat, k: nat, n: nat)
    requires k <= n <= |orders|
    ensures 0 <= Asked(orders, venue, k) <= Asked(orders, venue, n)
  {
    if k < n {
      AskedMonotone(orders, venue, k, n - 1);
    } else if n > 0 {
      AskedMonotone(orders, venue, n - 1, n - 1);
    }
  }

  /** The balances with the first `n` orders reserved. */
  ghost predicate Reserved(b: Bankroll, was: seq<int>, orders: seq<Order>, n: nat)
    reads b, b.available, b.locked
    requires n <= |orders|
  {
    && b.Valid() && |was| == MAX_BANKROLL_VENUES
    && forall v :: 0 <= v < MAX_BANKROLL_VENUES ==>
                     b.locked[v] == Asked(orders, v, n) && b.available[v] == was[v] - Asked(orders, v, n)
  }

  /** Give back the first `n` reservations, in order. */
  method ReleaseAll(b: Bankroll, orders: seq<Order>, n: nat, ghost was: seq<int>)
    requires n <= |orders| && Reserved(b, was, orders, n)
    requires forall v :: 0 <= v < |was| ==> Amount(was[v])
    modifies b.available, b.locked
    ensures b.Valid() && b.Settled() && b.available[..] == was
  {
    for k := 0 to n
      invariant b.Valid()
      invariant forall v :: 0 <= v < MAX_BANKROLL_VENUES ==>
                              && b.locked[v] == Asked(orders, v, n) - Asked(orders, v, k)
                              && b.available[v] == was[v] - (Asked(orders, v, n) - Asked(orders, v, k))
    {
      forall v: nat { AskedMonotone(orders, v, k + 1, n); }
      b.CommitFill(orders[k].venue, orders[k].stake);
    }
  }

  /** Reserve every leg, or leave the bankroll as it was. */
  method ReserveAll(b: Bankroll, orders: seq<Order>) returns (ok: bool)
    requires b.Valid() && b.Settled()
    modifies b.available, b.locked
    ensures ok == Affordable(old(b.available[..]), orders)
    ensures ok ==> Reserved(b, old(b.available[..]), orders, |orders|)
    ensures !ok ==> b.Valid() && b.Settled() && b.available[..] == old(b.available[..])
  {
    ghost var was := b.available[..];
    for k := 0 to |orders|
      invariant Reserved(b, was, orders, k)
      invariant forall j :: 0 <= j < k ==> OrderFits(was, orders, j)
    {
      ok := b.Reserve(orders[k].venue, orders[k].stake);
      if !ok {
        assert !OrderFits(was, orders, k);
        ReleaseAll(b, orders, k, was);
        return;
      }
      assert OrderFits(was, orders, k);
    }
    ok := true;
  }

  // ---- Settlement ----

  /** The first of the filled legs with the least payout. */
  function WinnerOf(fills: seq<LegFill>, n: nat): (w: Option<nat>)
    requires n <= |fills|
    ensures w.Some? ==> w.value < n && fills[w.value].filled > 0
    ensures w.None? <==> forall i :: 0 <= i < n ==> fills[i].filled <= 0
    ensures w.Some? ==> forall i :: 0 <= i < n && fills[i].filled > 0 ==> fills[w.value].net <= fills[i].net
  {
    if n == 0 then None
    else
      var w := WinnerOf(fills, n - 1);
      if fills[n - 1].filled <= 0 then w
      else if w.None? || fills[n - 1].net < fills[w.value].net then Some(n - 1)
      else w
  }

  /** What the least favourable outcome credits. */
  function Credit(fills: seq<LegFill>): int {
    var w := WinnerOf(fills, |fills|);
    if w.None? then 0 else Max(fills[w.value].net, 0)
  }

  /** What fills other than one leave with a venue. */
  function KeptBut(fills: seq<LegFill>, except: nat, venue: nat, n: nat): int
    requires n <= |fills|
  {
    if n == 0 then 0
    else KeptBut(fills, except, venue, n - 1)
         + if fills[n - 1].venue == venue && n - 1 != except then fills[n - 1].filled else 0
  }

  /** Fills that answer a plan's orders. */
  ghost predicate Answer(fills: seq<LegFill>, orders: seq<Order>) {
    && |fills| == |orders|
    && forall i :: 0 <= i < |fills| ==>
                     && fills[i].venue == orders[i].venue < MAX_BANKROLL_VENUES
                     && fills[i].requested == orders[i].stake > 0
                     && 0 <= fills[i].filled <= fills[i].requested
  }

  lemma {:induction false} KeptButMonotone(fills: seq<LegFill>, except: nat, venue: nat, k: nat, n: nat)
    requires k <= n <= |fills| && forall i :: 0 <= i < |fills| ==> 0 <= fills[i].filled
    ensures 0 <= KeptBut(fills, except, venue, k) <= KeptBut(fills, except, venue, n)
  {
    if k < n {
      KeptButMonotone(fills, except, venue, k, n - 1);
    } else if n > 0 {
      KeptButMonotone(fills, except, venue, n - 1, n - 1);
    }
  }

  lemma {:induction false} KeptButOne(fills: seq<LegFill>, except: nat, venue: nat, n: nat)
    requires n <= |fills|
    ensures KeptBut(fills, except, venue, n)
            == Kept(fills, venue, n) - if except < n && fills[except].venue == venue then fills[except].filled else 0
  {
    if n > 0 {
      KeptButOne(fills, except, venue, n - 1);
    }
  }

  lemma {:induction false} KeptWithinAsked(fills: seq<LegFill>, orders: seq<Order>, venue: nat, n: nat)
    requires Answer(fills, orders) && n <= |fills|
    ensures 0 <= Kept(fills, venue, n) <= Asked(orders, venue, n)
  {
    if n > 0 {
      KeptWithinAsked(fills, orders, venue, n - 1);
    }
  }

  /** Commit what filled and release what did not. */
  method CommitAll(b: Bankroll, fills: seq<LegFill>, ghost orders: seq<Order>, ghost was: seq<int>)
    requires Answer(fills, orders) && Reserved(b, was, orders, |orders|)
    requires forall v :: 0 <= v < |was| ==> Amount(was[v])
    modifies b.available, b.locked
    ensures b.Valid()
    ensures forall v :: 0 <= v < MAX_BANKROLL_VENUES ==>
                          b.locked[v] == Kept(fills, v, |fills|) && b.available[v] == was[v] - Kept(fills, v, |fills|)
  {
    var n := |fills|;
    for k := 0 to n
      invariant b.Valid()
      invariant forall v :: 0 <= v < MAX_BANKROLL_VENUES ==>
                              && b.locked[v] == Asked(orders, v, n) - Asked(orders, v, k) + Kept(fills, v, k)
                              && b.available[v] == was[v] - b.locked[v]
    {
      var at := fills[k].venue;
      AskedMonotone(orders, at, k + 1, n);
      KeptWithinAsked(fills, orders, at, k);
      b.CommitFill(fills[k].venue, fills[k].requested - fills[k].filled);
    }
  }

  /** Assume the least favourable outcome: one filled leg wins, the rest lose. */
  method SettleAll(b: Bankroll, fills: seq<LegFill>, ghost was: seq<int>)
    requires b.Valid() && |was| == MAX_BANKROLL_VENUES
    requires forall i :: 0 <= i < |fills| ==> 0 <= fills[i].filled && fills[i].venue < MAX_BANKROLL_VENUES
    requires forall v :: 0 <= v < MAX_BANKROLL_VENUES ==>
                           b.locked[v] == Kept(fills, v, |fills|) && b.available[v] == was[v] - Kept(fills, v, |fills|)
    modifies b.available, b.locked
    ensures b.Valid() && b.Settled()
    ensures forall v :: 0 <= v < MAX_BANKROLL_VENUES ==> b.available[v] == Final(was, fills, v)
  {
    var w := FindWinner(fills);
    var n := |fills|;
    if w.None? {
      forall v | 0 <= v < MAX_BANKROLL_VENUES
        ensures Kept(fills, v, n) == 0
      {
        NothingKept(fills, v, n);
      }
      return;
    }
    forall v | 0 <= v < MAX_BANKROLL_VENUES
      ensures KeptBut(fills, w.value, v, n)
              == Kept(fills, v, n) - if fills[w.value].venue == v then fills[w.value].filled else 0
      ensures KeptBut(fills, w.value, v, n) >= 0
    {
      KeptButOne(fills, w.value, v, n);
      KeptButMonotone(fills, w.value, v, n, n);
    }
    b.SettleWin(fills[w.value].venue, fills[w.value].filled, fills[w.value].net);
    ghost var credited := b.available[..];
    for k := 0 to n
      invariant b.Valid() && b.available[..] == credited
      invariant forall v :: 0 <= v < MAX_BANKROLL_VENUES ==>
                              b.locked[v] == KeptBut(fills, w.value, v, n) - KeptBut(fills, w.value, v, k)
    {
      if fills[k].filled > 0 && k != w.value {
        KeptButMonotone(fills, w.value, fills[k].venue, k + 1, n);
        b.SettleLoss(fills[k].venue, fills[k].filled);
      }
    }
    forall v | 0 <= v < MAX_BANKROLL_VENUES
      ensures b.available[v] == Final(was, fills, v)
    {
      assert b.available[v] == credited[v];
    }
  }

  method FindWinner(fills: seq<LegFill>) returns (w: Option<nat>)
    ensures w == WinnerOf(fills, |fills|)
  {
    w := None;
    for i := 0 to |fills|
      invariant w == WinnerOf(fills, i)
    {
      if fills[i].filled > 0 && (w.None? || fills[i].net < fills[w.value].net) {
        w := Some(i);
      }
    }
  }

  lemma {:induction false} NothingKept(fills: seq<LegFill>, venue: nat, n: nat)
    requires n <= |fills| && forall i :: 0 <= i < |fills| ==> fills[i].filled == 0
    ensures Kept(fills, venue, n) == 0
  {
    if n > 0 {
      NothingKept(fills, venue, n - 1);
    }
  }

  /** A venue's balance after a trade. */
  function Final(was: seq<int>, fills: seq<LegFill>, venue: nat): int
    requires venue < |was|
  {
    var w := WinnerOf(fills, |fills|);
    var left := was[venue] - Kept(fills, venue, |fills|);
    if w.Some? && fills[w.value].venue == venue then ToCents(left + Credit(fills)) else left
  }

  /** What a trade finds and leaves: balances, locked capital and the simulator's counters. */
  datatype Wallet = Wallet(available: seq<int>, locked: seq<int>, stats: Stats)

  /** Balances are money and nothing is locked. */
  ghost predicate AtRest(w: Wallet) {
    && |w.available| == |w.locked| == MAX_BANKROLL_VENUES
    && forall v :: 0 <= v < MAX_BANKROLL_VENUES ==> Amount(w.available[v]) && w.locked[v] == 0
  }

  /** A trade goes through exactly when its plan is well formed and every leg affordable. */
  ghost predicate GoesThrough(w: Wallet, a: Attempt)
    requires |w.available| == MAX_BANKROLL_VENUES
  {
    Shaped(a) && Staking(a) && Affordable(w.available, OrdersOf(a))
  }

  /** It then reports what the simulator does. */
  ghost function TradeReport(t: LatencyTable, config: SimConfig, w: Wallet, a: Attempt): Option<Report>
    requires |w.available| == MAX_BANKROLL_VENUES
  {
    if GoesThrough(w, a) then Some(ReportOf(t, config, a)) else None
  }

  /** Only a trade that goes through moves a balance; one short of capital is counted. */
  ghost function AfterTrade(t: LatencyTable, config: SimConfig, w: Wallet, a: Attempt): Wallet
    requires |w.available| == MAX_BANKROLL_VENUES
  {
    if GoesThrough(w, a) then
      var r := ReportOf(t, config, a);
      w.(available := seq(|w.available|, v requires 0 <= v < |w.available| => Final(w.available, r.fills, v)),
         stats := Recorded(w.stats, r))
    else if |a.legs| >= 2 && |a.signal.allocations| == |a.legs| && !Affordable(w.available, OrdersOf(a)) then
      w.(stats := w.stats.(signals := w.stats.signals + 1, short := w.stats.short + 1))
    else w
  }

  ghost function Holding(b: Bankroll, simulator: Simulator): Wallet
    reads b, b.available, b.locked, simulator
  {
    Wallet(b.available[..], b.locked[..], simulator.stats)
  }

  /** Reserve, simulate, commit, settle. A plan that is malformed, unaffordable or refused by
      the simulator leaves the bankroll as it was; either way nothing stays locked. */
  method Trade(b: Bankroll, simulator: Simulator, a: Attempt) returns (report: Option<Report>)
    requires b.Valid() && b.Settled() && simulator.Valid()
    modifies b.available, b.locked, simulator`stats
    ensures b.Valid() && b.Settled() && simulator.Valid()
    ensures report == TradeReport(simulator.latency.Table(), simulator.config, old(Holding(b, simulator)), a)
    ensures Holding(b, simulator)
            == AfterTrade(simulator.latency.Table(), simulator.config, old(Holding(b, simulator)), a)
  {
    if |a.legs| < 2 || |a.signal.allocations| != |a.legs| {
      return None;
    }
    ghost var was, t := b.available[..], simulator.latency.Table();
    var orders := OrdersOf(a);
    var ok := ReserveAll(b, orders);
    if !ok {
      simulator.RecordCapitalShort();
      assert b.locked[..] == old(b.locked[..]);
      return None;
    }
    var result := simulator.SimulateWithQuotes(a);
    if result.Err? {
      ReleaseAll(b, orders, |orders|, was);
      assert b.locked[..] == old(b.locked[..]);
      return None;
    }
    var fills := result.value.fills;
    FillsAnswer(t, simulator.config, a, was);
    CommitAll(b, fills, orders, was);
    SettleAll(b, fills, was);
    assert b.locked[..] == old(b.locked[..]);
    assert b.available[..] == AfterTrade(t, simulator.config, old(Holding(b, simulator)), a).available;
    return Some(result.value);
  }

  lemma {:induction false} FillsAnswer(t: LatencyTable, config: SimConfig, a: Attempt, was: seq<int>)
    requires Shaped(a) && Staking(a) && |was| == MAX_BANKROLL_VENUES && Affordable(was, OrdersOf(a))
    ensures Answer(FillsOf(t, config, a), OrdersOf(a))
  {
    forall i | 0 <= i < |a.legs|
      ensures Coherent(FillsOf(t, config, a)[i])
              && FillsOf(t, config, a)[i].venue == OrdersOf(a)[i].venue < MAX_BANKROLL_VENUES
      ensures FillsOf(t, config, a)[i].requested == OrdersOf(a)[i].stake > 0
    {
      LegsFillWithinLimits(t, config, a, i);
      assert OrderFits(was, OrdersOf(a), i);
    }
  }

  // ---- Capital over a run ----

  lemma {:induction false} KeptOverVenues(fills: seq<LegFill>, n: nat)
    requires n <= |fills| && forall i :: 0 <= i < |fills| ==> fills[i].venue < MAX_BANKROLL_VENUES
    ensures SumOf(seq(MAX_BANKROLL_VENUES, v requires 0 <= v < MAX_BANKROLL_VENUES => Kept(fills, v, n)))
            == Staked(fills, n)
  {
    if n == 0 {
      ZeroSum(seq(MAX_BANKROLL_VENUES, v requires 0 <= v < MAX_BANKROLL_VENUES => Kept(fills, v, 0)));
    } else {
      KeptOverVenues(fills, n - 1);
      var was := seq(MAX_BANKROLL_VENUES, v requires 0 <= v < MAX_BANKROLL_VENUES => Kept(fills, v, n - 1));
      var now := seq(MAX_BANKROLL_VENUES, v requires 0 <= v < MAX_BANKROLL_VENUES => Kept(fills, v, n));
      var at := fills[n - 1].venue;
      assert now == was[at := was[at] + fills[n - 1].filled];
      SumUpdate(was, at, was[at] + fills[n - 1].filled);
    }
  }

  lemma {:induction false} ZeroSum(s: seq<int>)
    requires forall i :: 0 <= i < |s| ==> s[i] == 0
    ensures SumOf(s) == 0
  {
    if s != [] {
      ZeroSum(s[..|s| - 1]);
    }
  }

  lemma {:induction false} SumDifference(a: seq<int>, b: seq<int>, c: seq<int>)
    requires |a| == |b| == |c| && forall i :: 0 <= i < |a| ==> a[i] == b[i] - c[i]
    ensures SumOf(a) == SumOf(b) - SumOf(c)
  {
    if a != [] {
      SumDifference(a[..|a| - 1], b[..|a| - 1], c[..|a| - 1]);
    }
  }

  /** The balance that takes a trade's credit has room for all of it. */
  ghost predicate CreditFits(was: seq<int>, fills: seq<LegFill>) {
    var w := WinnerOf(fills, |fills|);
    w.Some? ==>
      var v := fills[w.value].venue;
      v < |was| && was[v] - Kept(fills, v, |fills|) + Credit(fills) <= CENTS_MAX
  }

  /** A trade never adds more to total capital than the least payout of a filled leg less every
      stake filled, and adds exactly that if and only if the balance credited has room. */
  lemma {:induction false} TradeChangesCapital(was: seq<int>, now: seq<int>, fills: seq<LegFill>)
    requires |was| == |now| == MAX_BANKROLL_VENUES
    requires forall i :: 0 <= i < |fills| ==> fills[i].venue < MAX_BANKROLL_VENUES && 0 <= fills[i].filled
    requires forall v :: 0 <= v < MAX_BANKROLL_VENUES ==>
                           now[v] == Final(was, fills, v) && was[v] >= Kept(fills, v, |fills|)
    ensures SumOf(now) <= SumOf(was) + Credit(fills) - Staked(fills, |fills|)
    ensures SumOf(now) == SumOf(was) + Credit(fills) - Staked(fills, |fills|) <==> CreditFits(was, fills)
  {
    var n, w := |fills|, WinnerOf(fills, |fills|);
    var left := seq(|was|, v requires 0 <= v < |was| => was[v] - Kept(fills, v, n));
    LeftAfter(was, left, fills);
    if w.None? {
      assert now == left;
    } else {
      var at, credit := fills[w.value].venue, Credit(fills);
      forall v | 0 <= v < |left|
        ensures now[v] == if v == at then ToCents(left[v] + credit) else left[v]
      {
        assert now[v] == Final(was, fills, v);
      }
      CreditLands(left, now, at, credit);
    }
  }

  lemma {:induction false} LeftAfter(was: seq<int>, left: seq<int>, fills: seq<LegFill>)
    requires |was| == |left| == MAX_BANKROLL_VENUES
    requires forall i :: 0 <= i < |fills| ==> fills[i].venue < MAX_BANKROLL_VENUES && 0 <= fills[i].filled
    requires forall v :: 0 <= v < MAX_BANKROLL_VENUES ==> left[v] == was[v] - Kept(fills, v, |fills|)
    ensures SumOf(left) == SumOf(was) - Staked(fills, |fills|)
  {
    var kept := seq(MAX_BANKROLL_VENUES, v requires 0 <= v < MAX_BANKROLL_VENUES => Kept(fills, v, |fills|));
    KeptOverVenues(fills, |fills|);
    SumDifference(left, was, kept);
  }

  lemma {:induction false} CreditLands(left: seq<int>, now: seq<int>, at: nat, credit: int)
    requires |left| == |now| && at < |left| && credit >= 0 && left[at] >= 0
    requires forall v :: 0 <= v < |left| ==> now[v] == if v == at then ToCents(left[v] + credit) else left[v]
    ensures SumOf(now) == SumOf(left) - left[at] + Min(left[at] + credit, CENTS_MAX)
  {
    assert now == left[at := ToCents(left[at] + credit)];
    SumUpdate(left, at, ToCents(left[at] + credit));
  }

  /** When every leg filled something a trade earns at least the realized profit, and exactly
      that if and only if no payout is negative: a negative payout is not collected. */
  lemma {:induction false} ChangeIsRealized(fills: seq<LegFill>, requested: int, expected: int)
    requires |fills| > 0 && StakesFit(fills)
    requires forall i :: 0 <= i < |fills| ==> fills[i].filled > 0 && fills[i].net <= CENTS_MAX
    ensures var earned, realized := Credit(fills) - Staked(fills, |fills|), PnlOf(fills, requested, expected).realized;
            && earned >= realized
            && (earned == realized <==> forall i :: 0 <= i < |fills| ==> fills[i].net >= 0)
  {
    StakedMonotone(fills, 1, |fills|);
    assert Staked(fills, 1) == Staked(fills, 0) + fills[0].filled;
    RealizedFromLeast(fills, requested, expected);
    LeastNetBounds(fills, |fills|);
  }

  /** What one report earns. */
  function Change(report: Option<Report>): int {
    if report.None? then 0 else Credit(report.value.fills) - Staked(report.value.fills, |report.value.fills|)
  }

  /** What the reports of a run earn. */
  function Changes(reports: seq<Option<Report>>): int {
    if reports == [] then 0 else Changes(reports[..|reports| - 1]) + Change(reports[|reports| - 1])
  }

  /** The wallets of a run: before each attempt and after the last. */
  ghost predicate Trades(
    t: LatencyTable, config: SimConfig, attempts: seq<Attempt>, reports: seq<Option<Report>>, wallets: seq<Wallet>)
  {
    && |reports| == |attempts| && |wallets| == |attempts| + 1
    && (forall i :: 0 <= i <= |attempts| ==> RestsAt(wallets, i))
    && (forall i :: 0 <= i < |attempts| ==> TradesAt(t, config, attempts, reports, wallets, i))
  }

  ghost predicate RestsAt(wallets: seq<Wallet>, i: nat)
    requires i < |wallets|
  {
    AtRest(wallets[i])
  }

  /** Attempt `i` meets wallet `i`, reports what it should and leaves the next wallet. */
  ghost predicate TradesAt(
    t: LatencyTable, config: SimConfig, attempts: seq<Attempt>, reports: seq<Option<Report>>, wallets: seq<Wallet>,
    i: nat)
    requires i < |attempts| && i < |reports| && i + 1 < |wallets|
  {
    && |wallets[i].available| == MAX_BANKROLL_VENUES
    && reports[i] == TradeReport(t, config, wallets[i], attempts[i])
    && wallets[i + 1] == AfterTrade(t, config, wallets[i], attempts[i])
  }

  /** Attempt the trades one after another. Each meets what the ones before it left, and
      nothing is locked before or after any of them. */
  method RunTrades(b: Bankroll, simulator: Simulator, attempts: seq<Attempt>)
    returns (reports: seq<Option<Report>>, ghost wallets: seq<Wallet>)
    requires b.Valid() && b.Settled() && simulator.Valid()
    modifies b.available, b.locked, simulator`stats
    ensures b.Valid() && b.Settled() && simulator.Valid()
    ensures Trades(simulator.latency.Table(), simulator.config, attempts, reports, wallets)
    ensures wallets[0] == old(Holding(b, simulator)) && wallets[|attempts|] == Holding(b, simulator)
  {
    reports, wallets := [], [Holding(b, simulator)];
    ghost var t, config := simulator.latency.Table(), simulator.config;
    for i := 0 to |attempts|
      invariant b.Valid() && b.Settled() && simulator.Valid()
      invariant |reports| == i && |wallets| == i + 1
      invariant wallets[0] == old(Holding(b, simulator)) && wallets[i] == Holding(b, simulator)
      invariant Trades(t, config, attempts[..i], reports, wallets)
    {
      ghost var done, were := reports, wallets;
      var report := Trade(b, simulator, attempts[i]);
      reports, wallets := reports + [report], wallets + [Holding(b, simulator)];
      assert AtRest(Holding(b, simulator));
      TradesExtend(t, config, attempts[..i], done, were, attempts[i], report, Holding(b, simulator));
      assert attempts[..i + 1] == attempts[..i] + [attempts[i]];
    }
    assert attempts[..|attempts|] == attempts;
  }

  lemma {:induction false} TradesExtend(
    t: LatencyTable, config: SimConfig, attempts: seq<Attempt>, reports: seq<Option<Report>>, wallets: seq<Wallet>,
    a: Attempt, report: Option<Report>, w: Wallet)
    requires Trades(t, config, attempts, reports, wallets) && AtRest(w)
    requires |wallets[|attempts|].available| == MAX_BANKROLL_VENUES
    requires report == TradeReport(t, config, wallets[|attempts|], a)
    requires w == AfterTrade(t, config, wallets[|attempts|], a)
    ensures Trades(t, config, attempts + [a], reports + [report], wallets + [w])
  {
    forall i | 0 <= i <= |attempts| + 1
      ensures RestsAt(wallets + [w], i)
    {
      assert i <= |attempts| ==> RestsAt(wallets, i);
    }
    forall i | 0 <= i <= |attempts|
      ensures TradesAt(t, config, attempts + [a], reports + [report], wallets + [w], i)
    {
      assert i < |attempts| ==> TradesAt(t, config, attempts, reports, wallets, i);
    }
  }

  /** Every balance credited in the first `n` attempts had room. */
  ghost predicate CreditsFit(
    t: LatencyTable, config: SimConfig, attempts: seq<Attempt>, wallets: seq<Wallet>, n: nat)
    requires n <= |attempts| && n <= |wallets|
  {
    forall k :: 0 <= k < n ==> CreditFitsAt(t, config, attempts[k], wallets[k])
  }

  ghost predicate CreditFitsAt(t: LatencyTable, config: SimConfig, a: Attempt, w: Wallet) {
    |w.available| == MAX_BANKROLL_VENUES && GoesThrough(w, a) ==>
      CreditFits(w.available, ReportOf(t, config, a).fills)
  }

  /** Over any run of trades total capital never grows by more than what the trades earned, and
      moves by exactly that if and only if every balance credited had room. */
  lemma {:induction false} CapitalFollowsTrades(
    t: LatencyTable, config: SimConfig, attempts: seq<Attempt>, reports: seq<Option<Report>>, wallets: seq<Wallet>,
    n: nat)
    requires Trades(t, config, attempts, reports, wallets) && n <= |attempts|
    ensures SumOf(wallets[n].available) <= SumOf(wallets[0].available) + Changes(reports[..n])
    ensures SumOf(wallets[n].available) == SumOf(wallets[0].available) + Changes(reports[..n])
            <==> CreditsFit(t, config, attempts, wallets, n)
  {
    if n > 0 {
      var k := n - 1;
      assert reports[..n] == reports[..k] + [reports[k]];
      ChangesStep(reports[..k], reports[k]);
      CapitalFollowsTrades(t, config, attempts, reports, wallets, k);
      TradeAtMoves(t, config, attempts, reports, wallets, k);
      CreditsFitStep(t, config, attempts, wallets, k);
    }
  }

  lemma {:induction false} TradeAtMoves(
    t: LatencyTable, config: SimConfig, attempts: seq<Attempt>, reports: seq<Option<Report>>, wallets: seq<Wallet>,
    k: nat)
    requires Trades(t, config, attempts, reports, wallets) && k < |attempts|
    ensures SumOf(wallets[k + 1].available) <= SumOf(wallets[k].available) + Change(reports[k])
    ensures SumOf(wallets[k + 1].available) == SumOf(wallets[k].available) + Change(reports[k])
            <==> CreditFitsAt(t, config, attempts[k], wallets[k])
  {
    assert RestsAt(wallets, k) && TradesAt(t, config, attempts, reports, wallets, k);
    TradeMovesCapital(t, config, wallets[k], attempts[k]);
  }

  lemma {:induction false} CreditsFitStep(
    t: LatencyTable, config: SimConfig, attempts: seq<Attempt>, wallets: seq<Wallet>, n: nat)
    requires n < |attempts| && n < |wallets|
    ensures CreditsFit(t, config, attempts, wallets, n + 1)
            <==> CreditsFit(t, config, attempts, wallets, n) && CreditFitsAt(t, config, attempts[n], wallets[n])
  {
  }

  lemma {:induction false} ChangesStep(reports: seq<Option<Report>>, last: Option<Report>)
    ensures Changes(reports + [last]) == Changes(reports) + Change(last)
  {
    assert (reports + [last])[..|reports|] == reports;
  }

  /** One trade moves total capital by at most what it earns, and exactly that when the balance
      credited has room; an attempt that does not go through leaves it. */
  lemma {:induction false} TradeMovesCapital(t: LatencyTable, config: SimConfig, w: Wallet, a: Attempt)
    requires AtRest(w)
    ensures SumOf(AfterTrade(t, config, w, a).available) <= SumOf(w.available) + Change(TradeReport(t, config, w, a))
    ensures SumOf(AfterTrade(t, config, w, a).available) == SumOf(w.available) + Change(TradeReport(t, config, w, a))
            <==> CreditFitsAt(t, config, a, w)
  {
    if GoesThrough(w, a) {
      var fills := ReportOf(t, config, a).fills;
      FillsAnswer(t, config, a, w.available);
      AffordedKept(w.available, fills, a);
      TradeChangesCapital(w.available, AfterTrade(t, config, w, a).available, fills);
    }
  }

  lemma {:induction false} AffordedKept(was: seq<int>, fills: seq<LegFill>, a: Attempt)
    requires |was| == MAX_BANKROLL_VENUES && |a.signal.allocations| == |a.legs|
    requires Affordable(was, OrdersOf(a)) && Answer(fills, OrdersOf(a)) && forall v :: 0 <= v < |was| ==> was[v] >= 0
    ensures forall v :: 0 <= v < MAX_BANKROLL_VENUES ==> was[v] >= Kept(fills, v, |fills|)
  {
    forall v | 0 <= v < MAX_BANKROLL_VENUES
      ensures was[v] >= Kept(fills, v, |fills|)
    {
      KeptWithinAsked(fills, OrdersOf(a), v, |fills|);
      AskedWithin(was, OrdersOf(a), v, |fills|);
    }
  }

  lemma {:induction false} AskedWithin(was: seq<int>, orders: seq<Order>, venue: nat, n: nat)
    requires |was| == MAX_BANKROLL_VENUES && Affordable(was, orders) && n <= |orders|
    requires venue < |was| && was[venue] >= 0
    ensures Asked(orders, venue, n) <= was[venue]
  {
    if n > 0 {
      AskedWithin(was, orders, venue, n - 1);
      assert OrderFits(was, orders, n - 1);
    }
  }
}
