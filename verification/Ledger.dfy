/** The reconciliation ledger, which folds an at-least-once stream of fills into totals of
    money. */
module Ledger {
  import opened Price
  import opened Quotes

  /** A 16-byte idempotency key. The all-zero key stands in for an absent one. */
  type ClientId = nat
  const NO_CLIENT: ClientId := 0

  datatype Status = Open | Settled | Unwound | Canceled | Other(text: string)

  predicate IsTerminal(status: Status) {
    status.Settled? || status.Unwound? || status.Canceled?
  }

  /** What a venue says about one order. */
  datatype Fill = Fill(
    client: Option<ClientId>, venueOrder: string, filled: int, fee: int, profit: Option<int>, status: Status)

  /** What identifies a fill. The status is not part of it. */
  datatype Fingerprint = Fingerprint(
    key: ClientId, client: ClientId, venueOrder: string, filled: int, fee: int, profit: Option<int>)

  datatype Order = Order(client: ClientId, venueOrder: Option<string>, requested: int, filled: int, status: Status)

  datatype LedgerState = LedgerState(
    orders: map<ClientId, Order>, applied: set<Fingerprint>, fees: int, profit: int)

  const EMPTY := LedgerState(map[], {}, 0, 0)

  datatype LedgerOp =
    | Register(client: ClientId, venueOrder: Option<string>, stake: int)
    | Acknowledge(client: ClientId, id: string)
    | Deliver(fill: Fill)

  function PrintOf(key: ClientId, fill: Fill): Fingerprint {
    Fingerprint(
      key, if fill.client.Some? then fill.client.value else NO_CLIENT,
      fill.venueOrder, fill.filled, fill.fee, fill.profit)
  }

  /** An order is found by its venue id or by its client id. */
  predicate Hit(s: LedgerState, key: ClientId, fill: Fill) {
    key in s.orders
    && (s.orders[key].venueOrder == Some(fill.venueOrder) || fill.client == Some(s.orders[key].client))
  }

  function Registered(s: LedgerState, op: LedgerOp): LedgerState
    requires op.Register?
  {
    s.(orders := s.orders[op.client := Order(op.client, op.venueOrder, op.stake, 0, Open)])
  }

  function Acked(s: LedgerState, client: ClientId, id: string): LedgerState {
    if client in s.orders then s.(orders := s.orders[client := s.orders[client].(venueOrder := Some(id))]) else s
  }

  /** A fill folded into the order it was matched to, unless it was folded in before. */
  function Folded(s: LedgerState, key: ClientId, fill: Fill): LedgerState
    requires key in s.orders
  {
    var mark := PrintOf(key, fill);
    if mark in s.applied then s
    else
      LedgerState(
        s.orders[key := s.orders[key].(
            venueOrder := Some(fill.venueOrder), filled := fill.filled, status := fill.status)],
        s.applied + {mark},
        ToCents(s.fees + fill.fee),
        if fill.profit.Some? then ToCents(s.profit + fill.profit.value) else s.profit)
  }

  /** Some order matches a fill. */
  ghost predicate Matched(s: LedgerState, fill: Fill) {
    exists key :: Hit(s, key, fill)
  }

  /** One operation. Which of several matching orders a fill lands on is not determined. */
  ghost predicate LedgerStep(s: LedgerState, op: LedgerOp, t: LedgerState) {
    match op
    case Register(_, _, _) => t == Registered(s, op)
    case Acknowledge(client, id) => t == Acked(s, client, id)
    case Deliver(fill) =>
      if Matched(s, fill) then exists key :: Hit(s, key, fill) && t == Folded(s, key, fill)
      else t == s
  }

  /** The operations can take an empty ledger to `t`. */
  ghost predicate Reaches(ops: seq<LedgerOp>, t: LedgerState) {
    if ops == [] then t == EMPTY
    else
      var before, op := ops[..|ops| - 1], ops[|ops| - 1];
      exists s :: Reaches(before, s) && LedgerStep(s, op, t)
  }

  // ---- What the totals should be ----

  /** Client ids are present and each venue id belongs to one client. */
  ghost predicate Orderly(owner: string -> ClientId, op: LedgerOp) {
    match op
    case Register(client, venueOrder, _) => venueOrder.Some? ==> owner(venueOrder.value) == client
    case Acknowledge(client, id) => owner(id) == client
    case Deliver(fill) => fill.client == Some(owner(fill.venueOrder))
  }

  /** The clients registered so far. */
  function Known(ops: seq<LedgerOp>): set<ClientId> {
    set i | 0 <= i < |ops| && ops[i].Register? :: ops[i].client
  }

  /** The distinct fills delivered for clients already registered. */
  function Counted(ops: seq<LedgerOp>): set<Fingerprint> {
    if ops == [] then {}
    else
      var before, op := ops[..|ops| - 1], ops[|ops| - 1];
      if op.Deliver? && op.fill.client.Some? && op.fill.client.value in Known(before)
      then Counted(before) + {PrintOf(op.fill.client.value, op.fill)}
      else Counted(before)
  }

  function FeeOf(p: Fingerprint): int { p.fee }

  function ProfitOf(p: Fingerprint): int { if p.profit.Some? then p.profit.value else 0 }

  function SizeOf(p: Fingerprint): int { Abs(p.fee) + Abs(ProfitOf(p)) }

  function Abs(x: int): int { if x < 0 then -x else x }

  /** The sum of a measure over a set. */
  ghost function Sum(f: Fingerprint -> int, prints: set<Fingerprint>): int {
    if prints == {} then 0 else var p :| p in prints; f(p) + Sum(f, prints - {p})
  }

  lemma {:induction false} SumAdd(f: Fingerprint -> int, prints: set<Fingerprint>, p: Fingerprint)
    requires p !in prints
    ensures Sum(f, prints + {p}) == Sum(f, prints) + f(p)
    decreases prints
  {
    var all := prints + {p};
    var q :| q in all && Sum(f, all) == f(q) + Sum(f, all - {q});
    if q == p {
      assert all - {q} == prints;
    } else {
      assert all - {q} == (prints - {q}) + {p};
      SumAdd(f, prints - {q}, p);
      SumAdd(f, prints - {q}, q);
      assert (prints - {q}) + {q} == prints;
    }
  }

  lemma {:induction false} SumsWithinSize(prints: set<Fingerprint>)
    ensures Abs(Sum(FeeOf, prints)) <= Sum(SizeOf, prints)
    ensures Abs(Sum(ProfitOf, prints)) <= Sum(SizeOf, prints)
    decreases prints
  {
    if prints != {} {
      var p :| p in prints;
      var rest := prints - {p};
      assert rest + {p} == prints;
      SumAdd(FeeOf, rest, p);
      SumAdd(ProfitOf, rest, p);
      SumAdd(SizeOf, rest, p);
      SumsWithinSize(rest);
    }
  }

  /** A running total of a measure of distinct fills: their sum while all amounts together fit
      money, and the clamped sum while none of them is negative, or none positive. */
  ghost predicate Totals(f: Fingerprint -> int, prints: set<Fingerprint>, total: int) {
    && (Sum(SizeOf, prints) <= CENTS_MAX ==> total == Sum(f, prints))
    && ((forall p :: p in prints ==> f(p) >= 0) || (forall p :: p in prints ==> f(p) <= 0) ==>
          total == ToCents(Sum(f, prints)))
  }

  lemma {:induction false} SumSign(f: Fingerprint -> int, prints: set<Fingerprint>)
    ensures (forall p :: p in prints ==> f(p) >= 0) ==> Sum(f, prints) >= 0
    ensures (forall p :: p in prints ==> f(p) <= 0) ==> Sum(f, prints) <= 0
    decreases prints
  {
    if prints != {} {
      var p :| p in prints && Sum(f, prints) == f(p) + Sum(f, prints - {p});
      SumSign(f, prints - {p});
    }
  }

  /** One more distinct fill keeps a total. */
  lemma {:induction false} TotalsAdd(f: Fingerprint -> int, prints: set<Fingerprint>, total: int, p: Fingerprint)
    requires p !in prints && Totals(f, prints, total) && (f == FeeOf || f == ProfitOf)
    ensures Totals(f, prints + {p}, ToCents(total + f(p)))
  {
    SumAdd(f, prints, p);
    SumAdd(SizeOf, prints, p);
    SumsWithinSize(prints + {p});
    SumSign(f, prints);
    var all := prints + {p};
    assert p in all;
  }

  /** What the ledger keeps under orderly operations. */
  ghost predicate Tidy(owner: string -> ClientId, ops: seq<LedgerOp>, s: LedgerState) {
    && s.orders.Keys == Known(ops)
    && (forall k :: k in s.orders ==>
                      && s.orders[k].client == k
                      && (s.orders[k].venueOrder.Some? ==> owner(s.orders[k].venueOrder.value) == k))
    && s.applied == Counted(ops)
    && Totals(FeeOf, s.applied, s.fees) && Totals(ProfitOf, s.applied, s.profit)
  }

  lemma {:induction false} KnownStep(ops: seq<LedgerOp>, op: LedgerOp)
    ensures Known(ops + [op]) == if op.Register? then Known(ops) + {op.client} else Known(ops)
  {
    var all := ops + [op];
    assert all[|ops|] == op;
    forall c | c in Known(ops)
      ensures c in Known(all)
    {
      var i :| 0 <= i < |ops| && ops[i].Register? && ops[i].client == c;
      assert all[i] == ops[i];
    }
    assert forall i :: 0 <= i < |ops| ==> all[i] == ops[i];
  }

  /** Folding in a fill keeps both totals, whether or not it was counted before. */
  lemma {:induction false} FoldIsExact(s: LedgerState, key: ClientId, fill: Fill)
    requires key in s.orders && Totals(FeeOf, s.applied, s.fees) && Totals(ProfitOf, s.applied, s.profit)
    ensures var t := Folded(s, key, fill);
            && t.applied == s.applied + {PrintOf(key, fill)}
            && Totals(FeeOf, t.applied, t.fees) && Totals(ProfitOf, t.applied, t.profit)
  {
    var mark := PrintOf(key, fill);
    if mark in s.applied {
      assert s.applied + {mark} == s.applied;
    } else {
      TotalsAdd(FeeOf, s.applied, s.fees, mark);
      TotalsAdd(ProfitOf, s.applied, s.profit, mark);
      if fill.profit.None? {
        NothingAdded(s.applied, s.profit, mark);
      }
    }
  }

  /** A fill without a profit leaves the total as it was. */
  lemma {:induction false} NothingAdded(prints: set<Fingerprint>, total: int, p: Fingerprint)
    requires p !in prints && p.profit.None? && Totals(ProfitOf, prints, total)
    ensures Totals(ProfitOf, prints + {p}, total)
  {
    SumAdd(ProfitOf, prints, p);
    SumAdd(SizeOf, prints, p);
    assert p in prints + {p} && Abs(p.fee) >= 0;
  }

  /** Orderly operations keep the ledger tidy: a fill lands on its own client's order. */
  lemma {:induction false} StepKeepsTidy(
    owner: string -> ClientId, ops: seq<LedgerOp>, s: LedgerState, op: LedgerOp, t: LedgerState)
    requires Tidy(owner, ops, s) && Orderly(owner, op) && LedgerStep(s, op, t)
    ensures Tidy(owner, ops + [op], t)
  {
    KnownStep(ops, op);
    assert (ops + [op])[..|ops|] == ops;
    if op.Deliver? {
      DeliveryLands(owner, ops, s, op.fill, t);
    }
  }

  /** An orderly fill lands on its own client's order, or nowhere when there is none. */
  lemma {:induction false} DeliveryLands(
    owner: string -> ClientId, ops: seq<LedgerOp>, s: LedgerState, fill: Fill, t: LedgerState)
    requires Tidy(owner, ops, s) && Orderly(owner, Deliver(fill)) && LedgerStep(s, Deliver(fill), t)
    ensures fill.client.value in s.orders ==> t == Folded(s, fill.client.value, fill)
    ensures fill.client.value !in s.orders ==> t == s
    ensures fill.client.value in s.orders ==>
              && t.applied == s.applied + {PrintOf(fill.client.value, fill)}
              && Totals(FeeOf, t.applied, t.fees) && Totals(ProfitOf, t.applied, t.profit)
  {
    if exists key :: Hit(s, key, fill) {
      var key :| Hit(s, key, fill) && t == Folded(s, key, fill);
      assert key == fill.client.value;
      FoldIsExact(s, key, fill);
    } else if fill.client.value in s.orders {
      assert Hit(s, fill.client.value, fill);
    }
  }

  /** An order registered under a fill's client id always matches the fill. */
  lemma {:induction false} KnownIsMatched(ops: seq<LedgerOp>, s: LedgerState, client: ClientId)
    requires Reaches(ops, s) && client in Known(ops)
    ensures client in s.orders && s.orders[client].client == client
  {
    KnownAreKeys(ops, s);
  }

  lemma {:induction false} KnownAreKeys(ops: seq<LedgerOp>, s: LedgerState)
    requires Reaches(ops, s)
    ensures s.orders.Keys == Known(ops)
    ensures forall k :: k in s.orders ==> s.orders[k].client == k
  {
    if ops != [] {
      var before, op := ops[..|ops| - 1], ops[|ops| - 1];
      var r :| Reaches(before, r) && LedgerStep(r, op, s);
      KnownAreKeys(before, r);
      KnownStep(before, op);
      assert before + [op] == ops;
    }
  }

  /** Each fill counts once. However often and in whatever order the venues repeat
      themselves, the totals are the sums over the distinct fills delivered for registered
      orders while those amounts fit money, and the clamped sums while they have one sign. */
  lemma {:induction false} EachFillCountsOnce(owner: string -> ClientId, ops: seq<LedgerOp>, t: LedgerState)
    requires Reaches(ops, t)
    requires forall i :: 0 <= i < |ops| ==> Orderly(owner, ops[i])
    ensures Tidy(owner, ops, t)
    ensures Totals(FeeOf, Counted(ops), t.fees) && Totals(ProfitOf, Counted(ops), t.profit)
  {
    if ops != [] {
      var before, op := ops[..|ops| - 1], ops[|ops| - 1];
      var s :| Reaches(before, s) && LedgerStep(s, op, t);
      EachFillCountsOnce(owner, before, s);
      StepKeepsTidy(owner, before, s, op, t);
      assert before + [op] == ops;
    }
  }

  /** Once every order is registered, only the set of fills delivered matters, not their
      order nor how often each is repeated. */
  lemma {:induction false} CountedAfterRegistration(ops: seq<LedgerOp>, fills: seq<Fill>)
    requires forall i :: 0 <= i < |fills| ==> fills[i].client.Some? && fills[i].client.value in Known(ops)
    ensures Known(ops + Deliveries(fills)) == Known(ops)
    ensures Counted(ops + Deliveries(fills))
            == Counted(ops) + set f: Fill | f in fills && f.client.Some? :: PrintOf(f.client.value, f)
    decreases |fills|
  {
    if fills == [] {
      assert ops + Deliveries(fills) == ops;
    } else {
      var init, last := fills[..|fills| - 1], fills[|fills| - 1];
      assert fills == init + [last];
      CountedAfterRegistration(ops, init);
      var all := ops + Deliveries(fills);
      assert all == (ops + Deliveries(init)) + [Deliver(last)];
      assert all[..|all| - 1] == ops + Deliveries(init);
      KnownStep(ops + Deliveries(init), Deliver(last));
    }
  }

  function Deliveries(fills: seq<Fill>): seq<LedgerOp> {
    seq(|fills|, i requires 0 <= i < |fills| => Deliver(fills[i]))
  }

  /** Without those premises a replay changes nothing exactly when every order it could be
      matched to is the one it was folded into or has counted it already. */
  lemma {:induction false} ReplayAbsorbed(s: LedgerState, first: ClientId, fill: Fill)
    requires Hit(s, first, fill)
    ensures var t := Folded(s, first, fill);
            (forall again :: Hit(t, again, fill) ==> Folded(t, again, fill) == t)
            <==> (forall k :: Hit(s, k, fill) ==> k == first || PrintOf(k, fill) in s.applied)
  {
    var t := Folded(s, first, fill);
    assert forall k :: k != first ==> Hit(s, k, fill) == Hit(t, k, fill);
    forall k | k in t.orders
      ensures Folded(t, k, fill) == t <==> PrintOf(k, fill) in t.applied
    {
      if PrintOf(k, fill) !in t.applied {
        assert PrintOf(k, fill) in Folded(t, k, fill).applied;
      }
    }
  }

  // ---- The objects ----

  class ReconciliationLedger {
    var orders: map<ClientId, Order>
    var applied: set<Fingerprint>
    var fees: int
    var profit: int
    /** The operations performed so far. */
    ghost var ops: seq<LedgerOp>

    ghost function State(): LedgerState
      reads this
    {
      LedgerState(orders, applied, fees, profit)
    }

    ghost predicate Valid()
      reads this
    {
      Reaches(ops, State())
    }

    constructor ()
      ensures Valid() && ops == [] && State() == EMPTY
    {
      orders, applied, fees, profit, ops := map[], {}, 0, 0, [];
    }

    ghost method Note(op: LedgerOp, before: LedgerState)
      requires Reaches(ops, before) && LedgerStep(before, op, State())
      modifies this`ops
      ensures ops == old(ops) + [op] && Valid()
    {
      ops := ops + [op];
      assert ops[..|ops| - 1] == old(ops);
    }

    method Register(client: ClientId, venueOrder: Option<string>, stake: int)
      requires Valid()
      modifies this
      ensures Valid() && ops == old(ops) + [LedgerOp.Register(client, venueOrder, stake)]
      ensures State() == Registered(old(State()), LedgerOp.Register(client, venueOrder, stake))
    {
      orders := orders[client := Order(client, venueOrder, stake, 0, Open)];
      Note(LedgerOp.Register(client, venueOrder, stake), old(State()));
    }

    method Acknowledge(client: ClientId, id: string)
      requires Valid()
      modifies this
      ensures Valid() && ops == old(ops) + [LedgerOp.Acknowledge(client, id)]
      ensures State() == Acked(old(State()), client, id)
    {
      if client in orders {
        orders := orders[client := orders[client].(venueOrder := Some(id))];
      }
      Note(LedgerOp.Acknowledge(client, id), old(State()));
    }

    /** Apply a fill, or refuse it when no order matches. */
    method ApplyFill(fill: Fill) returns (ok: bool)
      requires Valid()
      modifies this
      ensures Valid() && ops == old(ops) + [Deliver(fill)]
      ensures LedgerStep(old(State()), Deliver(fill), State())
      ensures ok == old(Matched(State(), fill))
    {
      ghost var before := State();
      var matching := set key | key in orders
                                && (orders[key].venueOrder == Some(fill.venueOrder)
                                    || fill.client == Some(orders[key].client));
      assert forall key :: Hit(before, key, fill) <==> key in matching;
      ok := matching != {};
      if ok {
        var key :| key in matching;
        assert Hit(before, key, fill);
        var mark := PrintOf(key, fill);
        if mark !in applied {
          applied := applied + {mark};
          orders := orders[key := orders[key].(
              venueOrder := Some(fill.venueOrder), filled := fill.filled, status := fill.status)];
          fees := ToCents(fees + fill.fee);
          if fill.profit.Some? {
            profit := ToCents(profit + fill.profit.value);
          }
        }
        assert State() == Folded(before, key, fill);
      }
      Note(Deliver(fill), before);
    }
  }
}
