/** The reconciler, which polls the orders in flight and closes each registration once. */
module Reconcile {
  import opened Quotes
  import opened Ledger

  /** An order awaiting a terminal report. */
  datatype InFlight = InFlight(client: ClientId, venueOrder: Option<string>)

  /** What a settlement source answers for one order. */
  datatype Answer = Fails | Silent | Says(fill: Fill)

  /** What is reported the first time an order is terminal. */
  datatype Settlement = Settlement(client: ClientId, fill: Fill)

  /** What became of a registration. */
  datatype Fate = Waiting | Replaced | Closed | Dropped

  /** Only acknowledged orders are polled. */
  predicate Asked(order: InFlight) {
    order.venueOrder.Some? && order.venueOrder.value != ""
  }

  /** An answer that has to be folded into the ledger. */
  predicate Reports(order: InFlight, answer: Answer) {
    Asked(order) && answer.Says?
  }

  predicate Closes(order: InFlight, answer: Answer) {
    Reports(order, answer) && IsTerminal(answer.fill.status)
  }

  // ---- Positions in a list ----

  predicate Ascending(s: seq<nat>) {
    forall i, j :: 0 <= i < j < |s| ==> s[i] < s[j]
  }

  /** Every position is below `n`. */
  predicate Within(at: seq<nat>, n: nat) {
    forall j :: 0 <= j < |at| ==> at[j] < n
  }

  function Pick<T>(s: seq<T>, at: seq<nat>): (r: seq<T>)
    requires Within(at, |s|)
    ensures |r| == |at| && forall j :: 0 <= j < |at| ==> r[j] == s[at[j]]
  {
    seq(|at|, j requires 0 <= j < |at| => s[at[j]])
  }

  lemma {:induction false} PickAppend<T>(s: seq<T>, at: seq<nat>, i: nat)
    requires Within(at, |s|) && i < |s|
    ensures Within(at + [i], |s|) && Pick(s, at + [i]) == Pick(s, at) + [s[i]]
  {
  }

  function RemoveAt<T>(s: seq<T>, k: nat): (r: seq<T>)
    requires k < |s|
    ensures |r| == |s| - 1 && forall i :: 0 <= i < |r| ==> r[i] == if i < k then s[i] else s[i + 1]
  {
    s[..k] + s[k + 1..]
  }

  lemma {:induction false} AscendingWithout(s: seq<nat>, k: nat)
    requires k < |s| && Ascending(s)
    ensures Ascending(RemoveAt(s, k))
    ensures forall n :: n in RemoveAt(s, k) <==> n in s && n != s[k]
  {
    var r := RemoveAt(s, k);
    forall n | n in s && n != s[k]
      ensures n in r
    {
      var i :| 0 <= i < |s| && s[i] == n;
      assert r[if i < k then i else i - 1] == n;
    }
    forall n | n in r
      ensures n in s && n != s[k]
    {
      var i :| 0 <= i < |r| && r[i] == n;
      assert n == s[if i < k then i else i + 1];
    }
  }

  lemma {:induction false} PickContains(s: seq<nat>, at: seq<nat>)
    requires Ascending(s) && Within(at, |s|)
    ensures forall i :: 0 <= i < |s| ==> (s[i] in Pick(s, at) <==> i in at)
    ensures forall n :: n in Pick(s, at) ==> n in s
  {
    forall i | 0 <= i < |s|
      ensures s[i] in Pick(s, at) <==> i in at
    {
      if i in at {
        var j :| 0 <= j < |at| && at[j] == i;
        assert Pick(s, at)[j] == s[i];
      }
      if s[i] in Pick(s, at) {
        var j :| 0 <= j < |at| && Pick(s, at)[j] == s[i];
        assert at[j] == i;
      }
    }
  }

  /** Splitting an ascending list by complementary positions. */
  lemma {:induction false} PickSplits(s: seq<nat>, kept: seq<nat>, closed: seq<nat>)
    requires Ascending(s) && Ascending(kept) && Within(kept, |s|) && Within(closed, |s|)
    requires forall i :: 0 <= i < |s| ==> (i in kept <==> i !in closed)
    ensures Ascending(Pick(s, kept))
    ensures forall n :: n in Pick(s, kept) <==> n in s && n !in Pick(s, closed)
    ensures forall n :: n in Pick(s, closed) ==> n in s
  {
    PickContains(s, kept);
    PickContains(s, closed);
    forall n
      ensures n in Pick(s, kept) <==> n in s && n !in Pick(s, closed)
    {
      if n in s {
        var i :| 0 <= i < |s| && s[i] == n;
        assert n in Pick(s, kept) <==> i in kept;
        assert n in Pick(s, closed) <==> i in closed;
      }
    }
  }

  // ---- One pass, order by order ----

  /** The positions below `n` whose orders close, or those that do not, in order. */
  function Positions(orders: seq<InFlight>, answers: seq<Answer>, closing: bool, n: nat): (at: seq<nat>)
    requires n <= |orders| == |answers|
    ensures Ascending(at) && Within(at, n)
  {
    if n == 0 then []
    else
      Positions(orders, answers, closing, n - 1)
      + if Closes(orders[n - 1], answers[n - 1]) == closing then [n - 1] else []
  }

  /** Exactly the positions that close, or exactly those that do not. */
  lemma {:induction false} PositionsExact(orders: seq<InFlight>, answers: seq<Answer>, closing: bool, n: nat)
    requires n <= |orders| == |answers|
    ensures forall i :: 0 <= i < |orders| ==>
                          (i in Positions(orders, answers, closing, n)
                           <==> i < n && Closes(orders[i], answers[i]) == closing)
  {
    if n > 0 {
      PositionsExact(orders, answers, closing, n - 1);
    }
  }

  /** The orders a pass leaves in flight, in order. */
  function Kept(orders: seq<InFlight>, answers: seq<Answer>, n: nat): seq<InFlight>
    requires n <= |orders| == |answers|
  {
    Pick(orders, Positions(orders, answers, false, n))
  }

  lemma {:induction false} KeptStep(orders: seq<InFlight>, answers: seq<Answer>, n: nat)
    requires n < |orders| == |answers|
    ensures Kept(orders, answers, n + 1)
            == Kept(orders, answers, n) + if Closes(orders[n], answers[n]) then [] else [orders[n]]
  {
    if !Closes(orders[n], answers[n]) {
      PickAppend(orders, Positions(orders, answers, false, n), n);
    }
  }

  /** The settlements of one pass, in the order of the orders they close. */
  function Settlements(orders: seq<InFlight>, answers: seq<Answer>, n: nat): seq<Settlement>
    requires n <= |orders| == |answers|
  {
    if n == 0 then []
    else
      Settlements(orders, answers, n - 1)
      + if Closes(orders[n - 1], answers[n - 1]) then [Settlement(orders[n - 1].client, answers[n - 1].fill)] else []
  }

  /** What one answer delivers to the ledger. */
  function Delivered(order: InFlight, answer: Answer): seq<LedgerOp> {
    if Reports(order, answer) then [Deliver(answer.fill)] else []
  }

  /** What the first `n` answers deliver to the ledger. */
  function PassOps(orders: seq<InFlight>, answers: seq<Answer>, n: nat): seq<LedgerOp>
    requires n <= |orders| == |answers|
  {
    if n == 0 then []
    else PassOps(orders, answers, n - 1) + Delivered(orders[n - 1], answers[n - 1])
  }

  /** The settlements stand at the positions that close. */
  lemma {:induction false} SettledByPosition(orders: seq<InFlight>, answers: seq<Answer>, n: nat)
    requires n <= |orders| == |answers|
    ensures var at, settled := Positions(orders, answers, true, n), Settlements(orders, answers, n);
            && |settled| == |at|
            && forall j :: 0 <= j < |settled| ==>
                             answers[at[j]].Says? && settled[j] == Settlement(orders[at[j]].client, answers[at[j]].fill)
  {
    if n > 0 {
      SettledByPosition(orders, answers, n - 1);
      var was, now := Settlements(orders, answers, n - 1), Settlements(orders, answers, n);
      var at, at' := Positions(orders, answers, true, n - 1), Positions(orders, answers, true, n);
      if Closes(orders[n - 1], answers[n - 1]) {
        assert now == was + [Settlement(orders[n - 1].client, answers[n - 1].fill)] && at' == at + [n - 1];
      } else {
        assert now == was && at' == at;
      }
    }
  }

  // ---- The ledger through a pass ----

  /** An answer taken in its turn: a report finds an order to land on. */
  ghost predicate Turn(s: LedgerState, order: InFlight, answer: Answer, t: LedgerState) {
    if Reports(order, answer) then Matched(s, answer.fill) && LedgerStep(s, Deliver(answer.fill), t) else t == s
  }

  /** The ledger before each answer of a pass, as far as the pass got. */
  ghost predicate Turns(orders: seq<InFlight>, answers: seq<Answer>, turns: seq<LedgerState>) {
    && 0 < |turns| <= |orders| + 1 && |answers| == |orders|
    && forall i :: 0 <= i < |turns| - 1 ==> TurnAt(orders, answers, turns, i)
  }

  ghost predicate TurnAt(orders: seq<InFlight>, answers: seq<Answer>, turns: seq<LedgerState>, i: nat)
    requires i < |orders| == |answers| && i + 1 < |turns|
  {
    Turn(turns[i], orders[i], answers[i], turns[i + 1])
  }

  lemma {:induction false} TurnsExtend(
    orders: seq<InFlight>, answers: seq<Answer>, turns: seq<LedgerState>, t: LedgerState)
    requires Turns(orders, answers, turns) && |turns| <= |orders|
    requires Turn(turns[|turns| - 1], orders[|turns| - 1], answers[|turns| - 1], t)
    ensures Turns(orders, answers, turns + [t])
  {
    forall i | 0 <= i < |turns|
      ensures TurnAt(orders, answers, turns + [t], i)
    {
      assert i < |turns| - 1 ==> TurnAt(orders, answers, turns, i);
    }
  }

  lemma {:induction false} FirstTurn(orders: seq<InFlight>, answers: seq<Answer>, turns: seq<LedgerState>)
    requires Turns(orders, answers, turns) && |turns| > 1
    ensures Turn(turns[0], orders[0], answers[0], turns[1])
  {
    assert TurnAt(orders, answers, turns, 0);
  }

  /** The pass got through every answer. */
  ghost predicate Completed(orders: seq<InFlight>, turns: seq<LedgerState>) {
    |turns| == |orders| + 1
  }

  /** The pass stopped at a report that no order matched in its turn. */
  ghost predicate RefusedAt(orders: seq<InFlight>, answers: seq<Answer>, turns: seq<LedgerState>) {
    && 0 < |turns| <= |orders| == |answers|
    && var k := |turns| - 1;
       Reports(orders[k], answers[k]) && !Matched(turns[k], answers[k].fill)
  }

  /** How far a pass has got: the answers below `i` have been taken. */
  ghost predicate PassedTo(
    orders: seq<InFlight>, answers: seq<Answer>, i: nat, first: LedgerState, turns: seq<LedgerState>,
    before: seq<LedgerOp>, ops: seq<LedgerOp>, remaining: seq<InFlight>, settled: seq<Settlement>)
  {
    && i <= |orders| == |answers| && |turns| == i + 1 && turns[0] == first && Turns(orders, answers, turns)
    && ops == before + PassOps(orders, answers, i)
    && remaining == Kept(orders, answers, i) && settled == Settlements(orders, answers, i)
  }

  lemma {:induction false} PassedOne(
    orders: seq<InFlight>, answers: seq<Answer>, i: nat, first: LedgerState, turns: seq<LedgerState>,
    before: seq<LedgerOp>, ops: seq<LedgerOp>, remaining: seq<InFlight>, settled: seq<Settlement>, t: LedgerState)
    requires i < |orders| && PassedTo(orders, answers, i, first, turns, before, ops, remaining, settled)
    requires Turn(turns[i], orders[i], answers[i], t)
    ensures var closes := Closes(orders[i], answers[i]);
            PassedTo(orders, answers, i + 1, first, turns + [t], before, ops + Delivered(orders[i], answers[i]),
                     remaining + (if closes then [] else [orders[i]]),
                     settled + (if closes then [Settlement(orders[i].client, answers[i].fill)] else []))
  {
    PassOpsStep(orders, answers, i, before);
    KeptStep(orders, answers, i);
    TurnsExtend(orders, answers, turns, t);
  }

  /** Every report of a pass names a client registered before it. */
  ghost predicate NamesKnown(ops: seq<LedgerOp>, orders: seq<InFlight>, answers: seq<Answer>) {
    |answers| == |orders|
    && forall i :: 0 <= i < |orders| && Reports(orders[i], answers[i]) ==>
                     answers[i].fill.client.Some? && answers[i].fill.client.value in Known(ops)
  }

  lemma {:induction false} ReachesTurn(
    ops: seq<LedgerOp>, orders: seq<InFlight>, answers: seq<Answer>, turns: seq<LedgerState>, k: nat)
    requires Turns(orders, answers, turns) && k < |turns| && Reaches(ops, turns[0])
    ensures Reaches(ops + PassOps(orders, answers, k), turns[k])
  {
    if k == 0 {
      assert ops + [] == ops;
    } else {
      ReachesTurn(ops, orders, answers, turns, k - 1);
      assert TurnAt(orders, answers, turns, k - 1);
      var before := ops + PassOps(orders, answers, k - 1);
      PassOpsStep(orders, answers, k - 1, ops);
      if Reports(orders[k - 1], answers[k - 1]) {
        ReachesOne(before, turns[k - 1], Deliver(answers[k - 1].fill), turns[k]);
      } else {
        assert before + [] == before;
      }
    }
  }

  lemma {:induction false} ReachesOne(ops: seq<LedgerOp>, s: LedgerState, op: LedgerOp, t: LedgerState)
    requires Reaches(ops, s) && LedgerStep(s, op, t)
    ensures Reaches(ops + [op], t)
  {
    assert (ops + [op])[..|ops|] == ops;
  }

  /** A pass whose reports name registered clients is never refused. */
  lemma {:induction false} NeverRefused(
    ops: seq<LedgerOp>, orders: seq<InFlight>, answers: seq<Answer>, turns: seq<LedgerState>)
    requires Turns(orders, answers, turns) && Reaches(ops, turns[0]) && NamesKnown(ops, orders, answers)
    ensures !RefusedAt(orders, answers, turns)
  {
    var k := |turns| - 1;
    if k < |orders| && Reports(orders[k], answers[k]) {
      var client := answers[k].fill.client.value;
      ReachesTurn(ops, orders, answers, turns, k);
      KnownGrows(ops, PassOps(orders, answers, k));
      KnownIsMatched(ops + PassOps(orders, answers, k), turns[k], client);
      assert Hit(turns[k], client, answers[k].fill);
    }
  }

  // ---- Registrations ----

  /** Registrations, their fates, and the orders in flight agree. */
  ghost predicate Books(inFlight: seq<InFlight>, numbers: seq<nat>, clientOf: seq<ClientId>, fate: seq<Fate>) {
    && |fate| == |clientOf| && |numbers| == |inFlight| && Ascending(numbers)
    && (forall i :: 0 <= i < |numbers| ==> BackedBy(inFlight[i], numbers[i], clientOf))
    && WaitingAre(fate, numbers) && Distinct(inFlight)
  }

  /** The registration behind an order is one of its client's. */
  predicate BackedBy(order: InFlight, number: nat, clientOf: seq<ClientId>) {
    number < |clientOf| && order.client == clientOf[number]
  }

  /** Exactly these registrations wait. */
  ghost predicate WaitingAre(fate: seq<Fate>, numbers: seq<nat>) {
    forall n :: 0 <= n < |fate| ==> (fate[n] == Waiting <==> n in numbers)
  }

  /** A client has at most one order in flight. */
  ghost predicate Distinct(inFlight: seq<InFlight>) {
    forall i, j :: 0 <= i < j < |inFlight| ==> inFlight[i].client != inFlight[j].client
  }

  /** The orders in flight and the registrations behind them stay aligned when one goes. */
  lemma {:induction false} AlignedWithout(
    inFlight: seq<InFlight>, numbers: seq<nat>, clientOf: seq<ClientId>, k: nat)
    requires |numbers| == |inFlight| && k < |inFlight| && Distinct(inFlight)
    requires forall i :: 0 <= i < |numbers| ==> BackedBy(inFlight[i], numbers[i], clientOf)
    ensures var orders', numbers' := RemoveAt(inFlight, k), RemoveAt(numbers, k);
            && Distinct(orders')
            && forall i :: 0 <= i < |numbers'| ==> BackedBy(orders'[i], numbers'[i], clientOf)
  {
    var orders', numbers' := RemoveAt(inFlight, k), RemoveAt(numbers, k);
    forall i | 0 <= i < |orders'|
      ensures BackedBy(orders'[i], numbers'[i], clientOf)
    {
      var at := if i < k then i else i + 1;
      assert BackedBy(inFlight[at], numbers[at], clientOf);
    }
  }

  /** A replaced registration no longer waits, and the others wait as before. */
  lemma {:induction false} WaitingWithout(numbers: seq<nat>, fate: seq<Fate>, k: nat)
    requires Ascending(numbers) && k < |numbers| && numbers[k] < |fate| && WaitingAre(fate, numbers)
    ensures WaitingAre(fate[numbers[k] := Replaced], RemoveAt(numbers, k))
  {
    AscendingWithout(numbers, k);
  }

  /** The registration behind an order in flight is the only one of its client that waits. */
  lemma {:induction false} OnlyOneWaits(
    inFlight: seq<InFlight>, numbers: seq<nat>, clientOf: seq<ClientId>, fate: seq<Fate>, k: nat, n: nat)
    requires Books(inFlight, numbers, clientOf, fate) && k < |inFlight|
    requires n < |fate| && fate[n] == Waiting && clientOf[n] == inFlight[k].client
    ensures n == numbers[k]
  {
    var i :| 0 <= i < |numbers| && numbers[i] == n;
    assert BackedBy(inFlight[i], numbers[i], clientOf);
    assert i == k;
  }

  lemma {:induction false} BooksWithout(
    inFlight: seq<InFlight>, numbers: seq<nat>, clientOf: seq<ClientId>, fate: seq<Fate>, k: nat)
    requires Books(inFlight, numbers, clientOf, fate) && k < |inFlight|
    ensures numbers[k] < |fate|
    ensures Books(RemoveAt(inFlight, k), RemoveAt(numbers, k), clientOf, fate[numbers[k] := Replaced])
  {
    assert BackedBy(inFlight[k], numbers[k], clientOf);
    AlignedWithout(inFlight, numbers, clientOf, k);
    AscendingWithout(numbers, k);
    WaitingWithout(numbers, fate, k);
  }

  lemma {:induction false} BooksWith(
    inFlight: seq<InFlight>, numbers: seq<nat>, clientOf: seq<ClientId>, fate: seq<Fate>, order: InFlight)
    requires Books(inFlight, numbers, clientOf, fate)
    requires forall i :: 0 <= i < |inFlight| ==> inFlight[i].client != order.client
    ensures Books(inFlight + [order], numbers + [|fate|], clientOf + [order.client], fate + [Waiting])
  {
    var numbers' := numbers + [|fate|];
    assert numbers'[|numbers|] == |fate|;
    forall n | 0 <= n < |fate|
      ensures n in numbers' <==> n in numbers
    {
      if n in numbers {
        var i :| 0 <= i < |numbers| && numbers[i] == n;
        assert numbers'[i] == n;
      }
    }
  }

  /** The fates after a pass that closed some registrations. */
  function AfterPass(fate: seq<Fate>, closed: seq<nat>): (r: seq<Fate>)
    ensures |r| == |fate| && forall n :: 0 <= n < |r| ==> r[n] == if n in closed then Closed else fate[n]
  {
    seq(|fate|, n requires 0 <= n < |fate| => if n in closed then Closed else fate[n])
  }

  /** The fates after a pass that was refused. */
  function AfterDrain(fate: seq<Fate>): (r: seq<Fate>)
    ensures |r| == |fate| && forall n :: 0 <= n < |r| ==> r[n] == if fate[n] == Waiting then Dropped else fate[n]
  {
    seq(|fate|, n requires 0 <= n < |fate| => if fate[n] == Waiting then Dropped else fate[n])
  }

  /** A pass leaves the books in order. */
  lemma {:induction false} PassBooks(
    orders: seq<InFlight>, behind: seq<nat>, clientOf: seq<ClientId>, fate: seq<Fate>, answers: seq<Answer>)
    requires Books(orders, behind, clientOf, fate) && |answers| == |orders|
    ensures Books(Kept(orders, answers, |answers|), Pick(behind, Positions(orders, answers, false, |answers|)),
                  clientOf, AfterPass(fate, Pick(behind, Positions(orders, answers, true, |answers|))))
  {
    var keptAt := Positions(orders, answers, false, |answers|);
    PositionsExact(orders, answers, false, |answers|);
    PositionsExact(orders, answers, true, |answers|);
    PickSplits(behind, keptAt, Positions(orders, answers, true, |answers|));
  }

  /** A pass settles registrations that were waiting, each for its own client. */
  lemma {:induction false} PassSettles(
    orders: seq<InFlight>, behind: seq<nat>, clientOf: seq<ClientId>, fate: seq<Fate>, answers: seq<Answer>)
    requires Books(orders, behind, clientOf, fate) && |answers| == |orders|
    ensures var closed := Pick(behind, Positions(orders, answers, true, |answers|));
            var settled := Settlements(orders, answers, |answers|);
            && |settled| == |closed| && Ascending(closed)
            && forall j :: 0 <= j < |closed| ==> SettlesOne(settled[j], closed[j], clientOf, fate)
  {
    var at := Positions(orders, answers, true, |answers|);
    var closed, settled := Pick(behind, at), Settlements(orders, answers, |answers|);
    PositionsExact(orders, answers, true, |answers|);
    SettledByPosition(orders, answers, |answers|);
    forall j | 0 <= j < |closed|
      ensures SettlesOne(settled[j], closed[j], clientOf, fate)
    {
      assert at[j] in at;
      assert closed[j] in behind;
    }
  }

  /** A settlement closes a registration that was waiting, for its own client, on a terminal
      report. */
  ghost predicate SettlesOne(s: Settlement, n: nat, clientOf: seq<ClientId>, fate: seq<Fate>) {
    n < |fate| && n < |clientOf| && fate[n] == Waiting && s.client == clientOf[n] && IsTerminal(s.fill.status)
  }

  // ---- Runs ----

  /** What a caller may do. */
  datatype Action =
    | Enter(order: InFlight, stake: int)
    | Confirm(client: ClientId, id: string)
    | Poll(answers: seq<Answer>)

  /** What it gets back. */
  datatype Result = Entered | Confirmed | Polled(ok: bool, settled: seq<Settlement>)

  /** The reconciler and its ledger: the orders in flight, the registration behind each, the
      client and the fate of every registration, and the ledger with its operations. */
  datatype Moment = Moment(
    inFlight: seq<InFlight>, numbers: seq<nat>, clientOf: seq<ClientId>, fate: seq<Fate>,
    ledger: LedgerState, ops: seq<LedgerOp>)

  const START := Moment([], [], [], [], EMPTY, [])

  ghost predicate Sane(m: Moment) {
    Books(m.inFlight, m.numbers, m.clientOf, m.fate) && Reaches(m.ops, m.ledger)
  }

  /** The position of a client's order in flight, or the length of the list. */
  function IndexOf(inFlight: seq<InFlight>, client: ClientId): (k: nat)
    ensures k <= |inFlight| && (k < |inFlight| ==> inFlight[k].client == client)
    ensures forall i :: 0 <= i < k ==> inFlight[i].client != client
  {
    if inFlight == [] then 0
    else
      var k := IndexOf(inFlight[..|inFlight| - 1], client);
      if k < |inFlight| - 1 || inFlight[k].client == client then k else |inFlight|
  }

  /** A registration takes the place of its client's order in flight. */
  function AfterEnter(m: Moment, order: InFlight, stake: int): Moment
    requires Books(m.inFlight, m.numbers, m.clientOf, m.fate)
  {
    var k := IndexOf(m.inFlight, order.client);
    var op := LedgerOp.Register(order.client, order.venueOrder, stake);
    var taken := k < |m.inFlight|;
    Moment(
      (if taken then RemoveAt(m.inFlight, k) else m.inFlight) + [order],
      (if taken then RemoveAt(m.numbers, k) else m.numbers) + [|m.fate|],
      m.clientOf + [order.client],
      (if taken then m.fate[m.numbers[k] := Replaced] else m.fate) + [Waiting],
      Registered(m.ledger, op),
      m.ops + [op])
  }

  /** An acknowledgement marks the client's orders, in flight and in the ledger. */
  function AfterConfirm(m: Moment, client: ClientId, id: string): Moment {
    m.(inFlight := seq(|m.inFlight|, i requires 0 <= i < |m.inFlight| =>
         if m.inFlight[i].client == client then InFlight(client, Some(id)) else m.inFlight[i]),
       ledger := Acked(m.ledger, client, id),
       ops := m.ops + [LedgerOp.Acknowledge(client, id)])
  }

  /** One answer for each order in flight; a missing one is silence. */
  function Heard(inFlight: seq<InFlight>, answers: seq<Answer>): (heard: seq<Answer>)
    ensures |heard| == |inFlight|
  {
    seq(|inFlight|, i => if 0 <= i < |answers| then answers[i] else Silent)
  }

  /** A pass over the orders in flight. It succeeds exactly when every report finds an order
      in its turn: then the orders reported terminal settle and the rest stay. Refused, it
      reports nothing and drops every order in flight. */
  ghost predicate PassStep(
    m: Moment, heard: seq<Answer>, turns: seq<LedgerState>, ok: bool, settled: seq<Settlement>, m': Moment)
    requires Books(m.inFlight, m.numbers, m.clientOf, m.fate) && |heard| == |m.inFlight|
  {
    && Turns(m.inFlight, heard, turns) && turns[0] == m.ledger && m'.ledger == turns[|turns| - 1]
    && m'.clientOf == m.clientOf
    && (if ok then
          && Completed(m.inFlight, turns)
          && settled == Settlements(m.inFlight, heard, |heard|)
          && m'.inFlight == Kept(m.inFlight, heard, |heard|)
          && m'.numbers == Pick(m.numbers, Positions(m.inFlight, heard, false, |heard|))
          && m'.fate == AfterPass(m.fate, Pick(m.numbers, Positions(m.inFlight, heard, true, |heard|)))
          && m'.ops == m.ops + PassOps(m.inFlight, heard, |heard|)
        else
          && RefusedAt(m.inFlight, heard, turns)
          && settled == [] && m'.inFlight == [] && m'.numbers == []
          && m'.fate == AfterDrain(m.fate)
          && m'.ops == m.ops + PassOps(m.inFlight, heard, |turns|))
  }

  ghost predicate Stepped(m: Moment, action: Action, result: Result, m': Moment) {
    && Books(m.inFlight, m.numbers, m.clientOf, m.fate)
    && match action
       case Enter(order, stake) => result == Entered && m' == AfterEnter(m, order, stake)
       case Confirm(client, id) => result == Confirmed && m' == AfterConfirm(m, client, id)
       case Poll(answers) =>
         result.Polled?
         && exists turns :: PassStep(m, Heard(m.inFlight, answers), turns, result.ok, result.settled, m')
  }

  /** The moments of a run: every action takes each moment to the next. */
  ghost predicate Trace(actions: seq<Action>, results: seq<Result>, moments: seq<Moment>) {
    && |results| == |actions| && |moments| == |actions| + 1 && moments[0] == START
    && (forall i :: 0 <= i <= |actions| ==> SaneAt(moments, i))
    && (forall i :: 0 <= i < |actions| ==> StepAt(actions, results, moments, i))
  }

  ghost predicate SaneAt(moments: seq<Moment>, i: nat)
    requires i < |moments|
  {
    Sane(moments[i])
  }

  ghost predicate StepAt(actions: seq<Action>, results: seq<Result>, moments: seq<Moment>, i: nat)
    requires i < |actions| && i < |results| && i + 1 < |moments|
  {
    Stepped(moments[i], actions[i], results[i], moments[i + 1])
  }

  /** What one action adds: clients entered, settlements reported, registrations closed. */
  function ClientsOf(action: Action): seq<ClientId> {
    if action.Enter? then [action.order.client] else []
  }

  function SettledBy(result: Result): seq<Settlement> {
    if result.Polled? then result.settled else []
  }

  function ClosedBy(m: Moment, action: Action, result: Result): seq<nat> {
    if action.Poll? && result.Polled? && result.ok && |m.numbers| == |m.inFlight| then
      var heard := Heard(m.inFlight, action.answers);
      Pick(m.numbers, Positions(m.inFlight, heard, true, |heard|))
    else []
  }

  predicate Succeeds(result: Result) {
    result.Polled? ==> result.ok
  }

  /** The clients entered, in order. */
  function Clients(actions: seq<Action>, n: nat): seq<ClientId>
    requires n <= |actions|
  {
    if n == 0 then [] else Clients(actions, n - 1) + ClientsOf(actions[n - 1])
  }

  /** The settlements of all passes, in order. */
  function Log(results: seq<Result>, n: nat): seq<Settlement>
    requires n <= |results|
  {
    if n == 0 then [] else Log(results, n - 1) + SettledBy(results[n - 1])
  }

  /** The registrations the passes closed, in order. */
  function Closers(actions: seq<Action>, results: seq<Result>, moments: seq<Moment>, n: nat): seq<nat>
    requires n <= |actions| == |results| && n <= |moments|
  {
    if n == 0 then []
    else Closers(actions, results, moments, n - 1) + ClosedBy(moments[n - 1], actions[n - 1], results[n - 1])
  }

  /** Settlements and closed registrations match one to one, in order. */
  ghost predicate OneEach(fate: seq<Fate>, clientOf: seq<ClientId>, log: seq<Settlement>, closers: seq<nat>) {
    && |closers| == |log| && |fate| == |clientOf|
    && (forall j, k :: 0 <= j < k < |closers| ==> closers[j] != closers[k])
    && (forall j :: 0 <= j < |closers| ==> closers[j] < |fate| && log[j].client == clientOf[closers[j]])
    && (forall n :: 0 <= n < |fate| ==> (fate[n] == Closed <==> n in closers))
  }

  ghost predicate NoneDropped(fate: seq<Fate>) {
    forall n :: 0 <= n < |fate| ==> fate[n] != Dropped
  }

  /** Every pass so far succeeded. */
  ghost predicate Clean(results: seq<Result>, n: nat)
    requires n <= |results|
  {
    forall i :: 0 <= i < n ==> Succeeds(results[i])
  }

  /** A pass closes each of its registrations for the first time. */
  lemma {:induction false} OneEachClosed(
    before: seq<Fate>, clientOf: seq<ClientId>, log: seq<Settlement>, closers: seq<nat>,
    settled: seq<Settlement>, closed: seq<nat>)
    requires OneEach(before, clientOf, log, closers)
    requires |settled| == |closed| && Ascending(closed)
    requires forall j :: 0 <= j < |closed| ==> SettlesOne(settled[j], closed[j], clientOf, before)
    ensures OneEach(AfterPass(before, closed), clientOf, log + settled, closers + closed)
    ensures NoneDropped(AfterPass(before, closed)) <==> NoneDropped(before)
  {
    forall j, k | 0 <= j < k < |closers + closed|
      ensures (closers + closed)[j] != (closers + closed)[k]
    {
      if j < |closers| <= k {
        assert closers[j] in closers;
        assert SettlesOne(settled[k - |closers|], closed[k - |closers|], clientOf, before);
      }
    }
    forall n | n in closed
      ensures n < |before| && before[n] == Waiting
    {
      var j :| 0 <= j < |closed| && closed[j] == n;
      assert SettlesOne(settled[j], closed[j], clientOf, before);
    }
    var after := AfterPass(before, closed);
    forall n | 0 <= n < |before|
      ensures after[n] == Dropped <==> before[n] == Dropped
    {
    }
  }

  /** A registration settles nothing, and drops nothing when it replaces another. */
  lemma {:induction false} OneEachEntered(
    m: Moment, order: InFlight, stake: int, log: seq<Settlement>, closers: seq<nat>)
    requires Books(m.inFlight, m.numbers, m.clientOf, m.fate) && OneEach(m.fate, m.clientOf, log, closers)
    ensures var m' := AfterEnter(m, order, stake);
            OneEach(m'.fate, m'.clientOf, log, closers) && (NoneDropped(m'.fate) <==> NoneDropped(m.fate))
  {
    var m' := AfterEnter(m, order, stake);
    var k := IndexOf(m.inFlight, order.client);
    if k < |m.inFlight| {
      assert m.numbers[k] in m.numbers;
    }
    assert m'.fate[|m.fate|] == Waiting;
    forall n | 0 <= n < |m.fate|
      ensures m'.fate[n] == Closed <==> m.fate[n] == Closed
      ensures m'.fate[n] == Dropped <==> m.fate[n] == Dropped
    {
    }
  }

  /** A refused pass settles nothing, and drops at least the order it stopped at. */
  lemma {:induction false} OneEachDrained(
    m: Moment, heard: seq<Answer>, turns: seq<LedgerState>, log: seq<Settlement>, closers: seq<nat>)
    requires Books(m.inFlight, m.numbers, m.clientOf, m.fate) && OneEach(m.fate, m.clientOf, log, closers)
    requires RefusedAt(m.inFlight, heard, turns)
    ensures OneEach(AfterDrain(m.fate), m.clientOf, log, closers) && !NoneDropped(AfterDrain(m.fate))
  {
    var n := m.numbers[|turns| - 1];
    assert n in m.numbers;
    assert AfterDrain(m.fate)[n] == Dropped;
  }

  /** A poll settles and closes the same registrations, and drops some exactly when refused. */
  lemma {:induction false} OneEachPolled(
    m: Moment, heard: seq<Answer>, turns: seq<LedgerState>, ok: bool, settled: seq<Settlement>, m': Moment,
    log: seq<Settlement>, closers: seq<nat>)
    requires Books(m.inFlight, m.numbers, m.clientOf, m.fate) && |heard| == |m.inFlight|
    requires PassStep(m, heard, turns, ok, settled, m') && OneEach(m.fate, m.clientOf, log, closers)
    ensures m'.clientOf == m.clientOf
    ensures var closed := if ok then Pick(m.numbers, Positions(m.inFlight, heard, true, |heard|)) else [];
            OneEach(m'.fate, m'.clientOf, log + settled, closers + closed)
    ensures NoneDropped(m'.fate) <==> ok && NoneDropped(m.fate)
  {
    if ok {
      PassSettles(m.inFlight, m.numbers, m.clientOf, m.fate, heard);
      OneEachClosed(m.fate, m.clientOf, log, closers, settled,
                    Pick(m.numbers, Positions(m.inFlight, heard, true, |heard|)));
    } else {
      OneEachDrained(m, heard, turns, log, closers);
      assert log + [] == log && closers + [] == closers;
    }
  }

  /** One action adds its clients, and as many settlements as it closes registrations. */
  lemma {:induction false} StepAccounts(
    m: Moment, action: Action, result: Result, m': Moment, log: seq<Settlement>, closers: seq<nat>)
    requires Stepped(m, action, result, m') && OneEach(m.fate, m.clientOf, log, closers)
    ensures m'.clientOf == m.clientOf + ClientsOf(action)
    ensures OneEach(m'.fate, m'.clientOf, log + SettledBy(result), closers + ClosedBy(m, action, result))
    ensures NoneDropped(m'.fate) <==> Succeeds(result) && NoneDropped(m.fate)
  {
    if action.Poll? {
      var heard := Heard(m.inFlight, action.answers);
      var turns :| PassStep(m, heard, turns, result.ok, result.settled, m');
      OneEachPolled(m, heard, turns, result.ok, result.settled, m', log, closers);
    } else {
      assert log + [] == log && closers + [] == closers;
      if action.Enter? {
        OneEachEntered(m, action.order, action.stake, log, closers);
      }
    }
  }

  /** What holds after `n` actions of a run. */
  ghost predicate Accounts(actions: seq<Action>, results: seq<Result>, moments: seq<Moment>, n: nat)
    requires n <= |actions| == |results| && n < |moments|
  {
    var m := moments[n];
    && m.clientOf == Clients(actions, n)
    && OneEach(m.fate, m.clientOf, Log(results, n), Closers(actions, results, moments, n))
  }

  /** Over any run, with any answers, the settlements reported and the registrations closed
      match one to one and in order. The registrations are the orders entered; each is in
      flight, replaced by a later one of its client, closed by exactly one settlement, or
      dropped by a refused pass. */
  lemma {:induction false} EachRegistrationClosesOnce(
    actions: seq<Action>, results: seq<Result>, moments: seq<Moment>, n: nat)
    requires Trace(actions, results, moments) && n <= |actions|
    ensures Accounts(actions, results, moments, n)
  {
    if n == 0 {
      AccountsStart(actions, results, moments);
    } else {
      EachRegistrationClosesOnce(actions, results, moments, n - 1);
      TraceAt(actions, results, moments, n - 1);
      AccountsGrow(actions, results, moments, n);
    }
  }

  /** One action of a run keeps the accounts, and drops something only when it is refused. */
  lemma {:induction false} AccountsGrow(
    actions: seq<Action>, results: seq<Result>, moments: seq<Moment>, n: nat)
    requires 0 < n <= |actions| == |results| && n < |moments|
    requires Stepped(moments[n - 1], actions[n - 1], results[n - 1], moments[n])
    requires Accounts(actions, results, moments, n - 1)
    ensures Accounts(actions, results, moments, n)
    ensures NoneDropped(moments[n].fate) <==> Succeeds(results[n - 1]) && NoneDropped(moments[n - 1].fate)
  {
    var log, closers := Log(results, n - 1), Closers(actions, results, moments, n - 1);
    TraceAccounts(actions, results, moments, n, log, closers);
    AccountsExtend(actions, results, moments, n, log, closers);
  }

  /** No registration of a run is dropped exactly when every pass succeeded. */
  lemma {:induction false} NoneDroppedExactlyWhenClean(
    actions: seq<Action>, results: seq<Result>, moments: seq<Moment>, n: nat)
    requires Trace(actions, results, moments) && n <= |actions|
    ensures NoneDropped(moments[n].fate) <==> Clean(results, n)
  {
    if n > 0 {
      NoneDroppedExactlyWhenClean(actions, results, moments, n - 1);
      DropsExactlyWhenRefused(actions, results, moments, n);
      CleanStep(results, n - 1);
    }
  }

  lemma {:induction false} DropsExactlyWhenRefused(
    actions: seq<Action>, results: seq<Result>, moments: seq<Moment>, n: nat)
    requires Trace(actions, results, moments) && 0 < n <= |actions|
    ensures NoneDropped(moments[n].fate) <==> Succeeds(results[n - 1]) && NoneDropped(moments[n - 1].fate)
  {
    EachRegistrationClosesOnce(actions, results, moments, n - 1);
    TraceAt(actions, results, moments, n - 1);
    AccountsGrow(actions, results, moments, n);
  }

  lemma {:induction false} AccountsStart(actions: seq<Action>, results: seq<Result>, moments: seq<Moment>)
    requires |actions| == |results| && 0 < |moments| && moments[0] == START
    ensures Accounts(actions, results, moments, 0)
  {
    assert OneEach([], [], [], []);
  }

  /** Throughout a run each registration has one fate, and it is waiting exactly when its order
      is in flight; a client has at most one order in flight. */
  lemma {:induction false} RunsKeepBooks(actions: seq<Action>, results: seq<Result>, moments: seq<Moment>, n: nat)
    requires Trace(actions, results, moments) && n <= |actions|
    ensures Sane(moments[n])
  {
    assert SaneAt(moments, n);
  }

  lemma {:induction false} TraceAt(actions: seq<Action>, results: seq<Result>, moments: seq<Moment>, i: nat)
    requires Trace(actions, results, moments) && i < |actions|
    ensures Stepped(moments[i], actions[i], results[i], moments[i + 1])
  {
    assert StepAt(actions, results, moments, i);
  }

  /** What the action before moment `n` of a run adds to the accounts. */
  ghost predicate Added(
    actions: seq<Action>, results: seq<Result>, moments: seq<Moment>, n: nat, log: seq<Settlement>, closers: seq<nat>)
    requires 0 < n <= |actions| == |results| && n < |moments|
  {
    var m, m', action, result := moments[n - 1], moments[n], actions[n - 1], results[n - 1];
    && m'.clientOf == m.clientOf + ClientsOf(action)
    && OneEach(m'.fate, m'.clientOf, log + SettledBy(result), closers + ClosedBy(m, action, result))
  }

  lemma {:induction false} TraceAccounts(
    actions: seq<Action>, results: seq<Result>, moments: seq<Moment>, n: nat, log: seq<Settlement>, closers: seq<nat>)
    requires 0 < n <= |actions| == |results| && n < |moments|
    requires Stepped(moments[n - 1], actions[n - 1], results[n - 1], moments[n])
    requires OneEach(moments[n - 1].fate, moments[n - 1].clientOf, log, closers)
    ensures Added(actions, results, moments, n, log, closers)
    ensures NoneDropped(moments[n].fate) <==> Succeeds(results[n - 1]) && NoneDropped(moments[n - 1].fate)
  {
    StepAccounts(moments[n - 1], actions[n - 1], results[n - 1], moments[n], log, closers);
  }

  lemma {:induction false} AccountsExtend(
    actions: seq<Action>, results: seq<Result>, moments: seq<Moment>, n: nat, log: seq<Settlement>, closers: seq<nat>)
    requires 0 < n <= |actions| == |results| && n < |moments| && Accounts(actions, results, moments, n - 1)
    requires log == Log(results, n - 1) && closers == Closers(actions, results, moments, n - 1)
    requires Added(actions, results, moments, n, log, closers)
    ensures Accounts(actions, results, moments, n)
  {
    assert Clients(actions, n) == Clients(actions, n - 1) + ClientsOf(actions[n - 1]);
    assert Log(results, n) == log + SettledBy(results[n - 1]);
    assert Closers(actions, results, moments, n) == closers + ClosedBy(moments[n - 1], actions[n - 1], results[n - 1]);
  }

  lemma {:induction false} CleanStep(results: seq<Result>, n: nat)
    requires n < |results|
    ensures Clean(results, n + 1) <==> Clean(results, n) && Succeeds(results[n])
  {
  }

  // ---- A refused pass ----

  const LOST := Fill(None, "B", 100, 1, None, Settled)

  /** An order acknowledged as A, and a report about B that names no client: the pass is
      refused whatever happens, and the order is no longer in flight. */
  lemma {:induction false} UnmatchedReportDropsTheOrder(
    turns: seq<LedgerState>, ok: bool, settled: seq<Settlement>, m': Moment)
    requires var entered := AfterEnter(START, InFlight(1, None), 100);
             var m := AfterConfirm(entered, 1, "A");
             Books(m.inFlight, m.numbers, m.clientOf, m.fate) && PassStep(m, [Says(LOST)], turns, ok, settled, m')
    ensures !ok && settled == [] && m'.inFlight == [] && m'.fate == [Dropped]
  {
    var m := AfterConfirm(AfterEnter(START, InFlight(1, None), 100), 1, "A");
    assert m.inFlight == [InFlight(1, Some("A"))] && m.fate == [Waiting];
    assert "A" != "B" by {
      assert "A"[0] != "B"[0];
    }
    assert !Matched(m.ledger, LOST);
    assert Reports(m.inFlight[0], Says(LOST));
    assert forall t :: !Turn(m.ledger, m.inFlight[0], Says(LOST), t);
    if |turns| > 1 {
      FirstTurn(m.inFlight, [Says(LOST)], turns);
      assert false;
    }
  }

  // ---- The object ----

  /** Tracks registered orders until a venue reports them terminal. */
  class Reconciler {
    const ledger: ReconciliationLedger
    var inFlight: seq<InFlight>
    /** The client of every registration so far, what became of it, and which
        registration stands behind each order in flight. */
    ghost var clientOf: seq<ClientId>
    ghost var fate: seq<Fate>
    ghost var numbers: seq<nat>

    ghost function Now(): Moment
      reads this, ledger
    {
      Moment(inFlight, numbers, clientOf, fate, ledger.State(), ledger.ops)
    }

    /** Each registration has one fate, and it is waiting exactly when its order is in flight;
        a client has at most one order in flight. */
    ghost predicate Valid()
      reads this, ledger
    {
      Sane(Now())
    }

    constructor ()
      ensures Valid() && fresh(ledger) && Now() == START
    {
      ledger := new ReconciliationLedger();
      inFlight, clientOf, fate, numbers := [], [], [], [];
    }

    /** Register an order before it is sent; the same id again replaces the entry. */
    method Register(order: InFlight, stake: int)
      requires Valid()
      modifies this`inFlight, this`numbers, this`fate, this`clientOf, ledger
      ensures Valid() && Now() == AfterEnter(old(Now()), order, stake)
    {
      ghost var was := Now();
      EnteredBooks(was, order, stake);
      ledger.Register(order.client, order.venueOrder, stake);
      var k := 0;
      while k < |inFlight| && inFlight[k].client != order.client
        modifies {}
        invariant 0 <= k <= |inFlight|
        invariant forall i :: 0 <= i < k ==> inFlight[i].client != order.client
      {
        k := k + 1;
      }
      assert k == IndexOf(inFlight, order.client);
      ghost var next := AfterEnter(was, order, stake);
      inFlight := (if k < |inFlight| then RemoveAt(inFlight, k) else inFlight) + [order];
      numbers, clientOf, fate := next.numbers, next.clientOf, next.fate;
    }

    /** Record a venue order id for every in-flight entry of a client, and in the ledger. */
    method Acknowledge(client: ClientId, id: string)
      requires Valid()
      modifies this`inFlight, ledger
      ensures Valid() && Now() == AfterConfirm(old(Now()), client, id)
    {
      ghost var m, was := Now(), inFlight;
      ConfirmedBooks(m, client, id);
      for i := 0 to |inFlight|
        modifies this`inFlight
        invariant |inFlight| == |was|
        invariant forall j :: 0 <= j < |was| ==>
                                inFlight[j] == if j < i && was[j].client == client then InFlight(client, Some(id))
                                               else was[j]
      {
        if inFlight[i].client == client {
          inFlight := inFlight[i := inFlight[i].(venueOrder := Some(id))];
        }
      }
      assert inFlight == AfterConfirm(m, client, id).inFlight;
      ledger.Acknowledge(client, id);
    }

    /** Poll every acknowledged order. The pass succeeds exactly when every report finds an
        order in its turn. It is never refused, and loses nothing, when the reports name
        registered clients. */
    method Reconcile(answers: seq<Answer>)
      returns (ok: bool, settled: seq<Settlement>, ghost turns: seq<LedgerState>)
      requires Valid() && |answers| == |inFlight|
      modifies this`inFlight, this`numbers, this`fate, ledger
      ensures Valid() && PassStep(old(Now()), answers, turns, ok, settled, Now())
      ensures NamesKnown(old(ledger.ops), old(inFlight), answers) ==> ok
    {
      var orders := inFlight;
      ghost var behind, was := numbers, fate;
      inFlight, numbers, fate := [], [], AfterDrain(fate);
      var remaining: seq<InFlight>;
      ok, remaining, settled, turns := FoldReports(orders, answers);
      if NamesKnown(old(ledger.ops), orders, answers) {
        NeverRefused(old(ledger.ops), orders, answers, turns);
      }
      if ok {
        numbers := Pick(behind, Positions(orders, answers, false, |answers|));
        fate := AfterPass(was, Pick(behind, Positions(orders, answers, true, |answers|)));
        inFlight := remaining;
      }
      PassedBooks(old(Now()), answers, turns, ok, settled, Now());
    }

    /** Fold every report into the ledger, stopping at the first that no order matches. */
    method FoldReports(orders: seq<InFlight>, answers: seq<Answer>)
      returns (ok: bool, remaining: seq<InFlight>, settled: seq<Settlement>, ghost turns: seq<LedgerState>)
      requires ledger.Valid() && |answers| == |orders|
      modifies ledger
      ensures ledger.Valid() && Turns(orders, answers, turns)
      ensures turns[0] == old(ledger.State()) && turns[|turns| - 1] == ledger.State()
      ensures ok ==>
                && Completed(orders, turns)
                && remaining == Kept(orders, answers, |answers|)
                && settled == Settlements(orders, answers, |answers|)
                && ledger.ops == old(ledger.ops) + PassOps(orders, answers, |answers|)
      ensures !ok ==>
                && RefusedAt(orders, answers, turns)
                && remaining == [] && settled == []
                && ledger.ops == old(ledger.ops) + PassOps(orders, answers, |turns|)
    {
      remaining, settled, ok := [], [], true;
      turns := [ledger.State()];
      ghost var before, first := ledger.ops, ledger.State();
      assert before + [] == before;
      for i := 0 to |orders|
        invariant ok && ledger.Valid()
        invariant PassedTo(orders, answers, i, first, turns, before, ledger.ops, remaining, settled)
        invariant turns[i] == ledger.State()
      {
        var more: seq<InFlight>, done: seq<Settlement>;
        ghost var here := ledger.ops;
        ok, more, done := FoldReport(orders[i], answers[i]);
        if !ok {
          PassOpsStep(orders, answers, i, before);
          return false, [], [], turns;
        }
        PassedOne(orders, answers, i, first, turns, before, here, remaining, settled, ledger.State());
        remaining, settled := remaining + more, settled + done;
        turns := turns + [ledger.State()];
      }
    }

    /** Keep, settle, or fail on one order. */
    method FoldReport(order: InFlight, answer: Answer)
      returns (ok: bool, kept: seq<InFlight>, settled: seq<Settlement>)
      requires ledger.Valid()
      modifies ledger
      ensures ledger.Valid() && ledger.ops == old(ledger.ops) + Delivered(order, answer)
      ensures ok == (Reports(order, answer) ==> Matched(old(ledger.State()), answer.fill))
      ensures ok ==> Turn(old(ledger.State()), order, answer, ledger.State())
      ensures !ok ==> ledger.State() == old(ledger.State())
      ensures ok ==> kept == if Closes(order, answer) then [] else [order]
      ensures ok ==> settled == if Closes(order, answer) then [Settlement(order.client, answer.fill)] else []
    {
      ok, kept, settled := true, [order], [];
      if Reports(order, answer) {
        ok := ledger.ApplyFill(answer.fill);
        if IsTerminal(answer.fill.status) {
          kept, settled := [], [Settlement(order.client, answer.fill)];
        }
      }
    }
  }

  /** A registration keeps the books in order. */
  lemma {:induction false} EnteredBooks(m: Moment, order: InFlight, stake: int)
    requires Books(m.inFlight, m.numbers, m.clientOf, m.fate)
    ensures var m' := AfterEnter(m, order, stake);
            Books(m'.inFlight, m'.numbers, m'.clientOf, m'.fate)
  {
    var k := IndexOf(m.inFlight, order.client);
    if k < |m.inFlight| {
      BooksWithout(m.inFlight, m.numbers, m.clientOf, m.fate, k);
      var others := RemoveAt(m.inFlight, k);
      forall i | 0 <= i < |others|
        ensures others[i].client != order.client
      {
        assert others[i] == m.inFlight[if i < k then i else i + 1];
      }
      BooksWith(others, RemoveAt(m.numbers, k), m.clientOf, m.fate[m.numbers[k] := Replaced], order);
    } else {
      BooksWith(m.inFlight, m.numbers, m.clientOf, m.fate, order);
    }
  }

  /** A pass keeps them too, refused or not. */
  lemma {:induction false} PassedBooks(
    m: Moment, heard: seq<Answer>, turns: seq<LedgerState>, ok: bool, settled: seq<Settlement>, m': Moment)
    requires Books(m.inFlight, m.numbers, m.clientOf, m.fate) && |heard| == |m.inFlight|
    requires PassStep(m, heard, turns, ok, settled, m')
    ensures Books(m'.inFlight, m'.numbers, m'.clientOf, m'.fate)
  {
    if ok {
      PassBooks(m.inFlight, m.numbers, m.clientOf, m.fate, heard);
    }
  }

  /** An acknowledgement changes no order's client. */
  lemma {:induction false} ConfirmedBooks(m: Moment, client: ClientId, id: string)
    requires Books(m.inFlight, m.numbers, m.clientOf, m.fate)
    ensures Books(AfterConfirm(m, client, id).inFlight, m.numbers, m.clientOf, m.fate)
  {
    var marked := AfterConfirm(m, client, id).inFlight;
    assert forall i :: 0 <= i < |marked| ==> marked[i].client == m.inFlight[i].client;
  }

  /** A registration replaces exactly its client's waiting one. */
  lemma {:induction false} EnteredReplaces(m: Moment, order: InFlight, stake: int, n: nat)
    requires Books(m.inFlight, m.numbers, m.clientOf, m.fate) && n < |m.fate|
    ensures AfterEnter(m, order, stake).fate[n]
            == if m.fate[n] == Waiting && m.clientOf[n] == order.client then Replaced else m.fate[n]
  {
    var k := IndexOf(m.inFlight, order.client);
    if k < |m.inFlight| {
      assert m.numbers[k] in m.numbers;
      assert BackedBy(m.inFlight[k], m.numbers[k], m.clientOf);
    }
    if m.fate[n] == Waiting && m.clientOf[n] == order.client {
      WaitingIsInFlight(m, n);
      OnlyOneWaits(m.inFlight, m.numbers, m.clientOf, m.fate, k, n);
    }
  }

  lemma {:induction false} WaitingIsInFlight(m: Moment, n: nat)
    requires Books(m.inFlight, m.numbers, m.clientOf, m.fate) && n < |m.fate| && m.fate[n] == Waiting
    ensures IndexOf(m.inFlight, m.clientOf[n]) < |m.inFlight|
  {
    var i :| 0 <= i < |m.numbers| && m.numbers[i] == n;
    assert BackedBy(m.inFlight[i], m.numbers[i], m.clientOf);
  }

  lemma {:induction false} PassOpsStep(
    orders: seq<InFlight>, answers: seq<Answer>, i: nat, before: seq<LedgerOp>)
    requires i < |orders| == |answers|
    ensures before + PassOps(orders, answers, i + 1)
            == (before + PassOps(orders, answers, i)) + Delivered(orders[i], answers[i])
  {
  }

  lemma {:induction false} KnownGrows(before: seq<LedgerOp>, more: seq<LedgerOp>)
    ensures Known(before) <= Known(before + more)
  {
    var all := before + more;
    forall c | c in Known(before)
      ensures c in Known(all)
    {
      var i :| 0 <= i < |before| && before[i].Register? && before[i].client == c;
      assert all[i] == before[i];
    }
  }

  /** Perform the actions one after another. What comes back is what some run of the
      reconciler gives, action by action, and that run ends where the reconciler is. */
  method RunReconciler(reconciler: Reconciler, actions: seq<Action>)
    returns (results: seq<Result>, ghost moments: seq<Moment>)
    requires reconciler.Valid() && reconciler.Now() == START
    modifies reconciler, reconciler.ledger
    ensures reconciler.Valid()
    ensures Trace(actions, results, moments) && moments[|actions|] == reconciler.Now()
  {
    results, moments := [], [reconciler.Now()];
    for i := 0 to |actions|
      invariant reconciler.Valid() && |results| == i && |moments| == i + 1
      invariant moments[0] == START && moments[i] == reconciler.Now()
      invariant forall k :: 0 <= k <= i ==> SaneAt(moments, k)
      invariant forall k :: 0 <= k < i ==> StepAt(actions, results, moments, k)
    {
      ghost var done, were := results, moments;
      var result := Act(reconciler, actions[i]);
      results, moments := results + [result], moments + [reconciler.Now()];
      forall k | 0 <= k <= i + 1
        ensures SaneAt(moments, k)
      {
        assert k <= i ==> SaneAt(were, k);
      }
      forall k | 0 <= k <= i
        ensures StepAt(actions, results, moments, k)
      {
        assert k < i ==> StepAt(actions, done, were, k);
      }
    }
  }

  method Act(reconciler: Reconciler, action: Action) returns (result: Result)
    requires reconciler.Valid()
    modifies reconciler, reconciler.ledger
    ensures reconciler.Valid() && Stepped(old(reconciler.Now()), action, result, reconciler.Now())
  {
    match action {
      case Enter(order, stake) =>
        reconciler.Register(order, stake);
        result := Entered;
      case Confirm(client, id) =>
        reconciler.Acknowledge(client, id);
        result := Confirmed;
      case Poll(answers) =>
        var ok, settled, turns := reconciler.Reconcile(Heard(reconciler.inFlight, answers));
        result := Polled(ok, settled);
    }
  }

  /** The ledger of any run counts each distinct fill once, when the operations the run
      performed on it are orderly. */
  lemma {:induction false} RunsCountEachFillOnce(
    owner: string -> ClientId, actions: seq<Action>, results: seq<Result>, moments: seq<Moment>, n: nat)
    requires Trace(actions, results, moments) && n <= |actions|
    requires forall op :: op in moments[n].ops ==> Orderly(owner, op)
    ensures Tidy(owner, moments[n].ops, moments[n].ledger)
  {
    RunsKeepBooks(actions, results, moments, n);
    EachFillCountsOnce(owner, moments[n].ops, moments[n].ledger);
  }
}
