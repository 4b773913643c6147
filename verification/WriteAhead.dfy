/** The durable in-flight set and the runner's order protocol around it.

    Every store operation loads the file, changes it and commits it by rename; the load
    and the commit may each fail. The runner persists both legs of a plan before it sends
    either, and clears a leg when its settlement is seen or when the plan could not be
    persisted whole. The process may stop between any two steps. */
module WriteAhead {
  import opened Quotes

  type OrderId = nat

  /** An order that may have reached a venue. */
  datatype InFlight = InFlight(id: OrderId, stake: int, venueOrder: Option<nat>)

  /** What the state file holds. `risk` stands for the checkpointed limits and balances. */
  datatype Durable = Durable(risk: int, inFlight: seq<InFlight>)

  /** Whether the load and the commit of one store operation work. */
  datatype Io = Io(loads: bool, commits: bool)

  /** How many entries an order has. */
  function Count(orders: seq<InFlight>, id: OrderId): nat {
    if orders == [] then 0
    else Count(orders[..|orders| - 1], id) + if orders[|orders| - 1].id == id then 1 else 0
  }

  lemma {:induction false} CountAppend(orders: seq<InFlight>, order: InFlight)
    ensures forall id :: Count(orders + [order], id) == Count(orders, id) + if order.id == id then 1 else 0
  {
    assert (orders + [order])[..|orders|] == orders;
  }

  /** Marking entries does not change how many there are. */
  lemma {:induction false} SameCounts(a: seq<InFlight>, b: seq<InFlight>)
    requires |a| == |b| && forall i :: 0 <= i < |a| ==> a[i].id == b[i].id
    ensures forall id :: Count(a, id) == Count(b, id)
  {
    if a != [] {
      SameCounts(a[..|a| - 1], b[..|b| - 1]);
    }
  }

  /** The entries of the orders other than `id`, in order. */
  function Without(orders: seq<InFlight>, id: OrderId): (rest: seq<InFlight>)
    ensures forall x :: Count(rest, x) == if x == id then 0 else Count(orders, x)
  {
    if orders == [] then []
    else
      var init, last := orders[..|orders| - 1], orders[|orders| - 1];
      CountAppend(Without(init, id), last);
      if last.id == id then Without(init, id) else Without(init, id) + [last]
  }

  /** The entries of one order, in order. */
  function Entries(orders: seq<InFlight>, id: OrderId): seq<InFlight> {
    if orders == [] then []
    else
      var last := orders[|orders| - 1];
      Entries(orders[..|orders| - 1], id) + if last.id == id then [last] else []
  }

  /** One more entry at the end. */
  lemma {:induction false} EndWith(orders: seq<InFlight>, entry: InFlight, id: OrderId)
    ensures Entries(orders + [entry], id) == Entries(orders, id) + if entry.id == id then [entry] else []
    ensures Without(orders + [entry], id) == Without(orders, id) + if entry.id == id then [] else [entry]
  {
    assert (orders + [entry])[..|orders|] == orders;
  }

  /** What is left of a list without an order has no entry of it. */
  lemma {:induction false} WithoutDropsAll(orders: seq<InFlight>, id: OrderId)
    ensures Entries(Without(orders, id), id) == [] && Without(Without(orders, id), id) == Without(orders, id)
  {
    if orders != [] {
      var init, last := orders[..|orders| - 1], orders[|orders| - 1];
      WithoutDropsAll(init, id);
      if last.id != id {
        EndWith(Without(init, id), last, id);
      }
    }
  }

  /** The entries of every other order are as they were. */
  lemma {:induction false} WithoutKeepsOthers(orders: seq<InFlight>, id: OrderId, other: OrderId)
    requires other != id
    ensures Entries(Without(orders, id), other) == Entries(orders, other)
  {
    if orders != [] {
      var init, last := orders[..|orders| - 1], orders[|orders| - 1];
      WithoutKeepsOthers(init, id, other);
      if last.id != id {
        EndWith(Without(init, id), last, other);
      }
    }
  }

  /** Record a venue order id on every entry of an order. */
  function Acknowledged(orders: seq<InFlight>, id: OrderId, venueOrder: nat): (r: seq<InFlight>)
    ensures |r| == |orders| && forall x :: Count(r, x) == Count(orders, x)
    ensures forall i :: 0 <= i < |r| ==>
                          r[i] == if orders[i].id == id then orders[i].(venueOrder := Some(venueOrder)) else orders[i]
  {
    var r := seq(|orders|, i requires 0 <= i < |orders| =>
      if orders[i].id == id then orders[i].(venueOrder := Some(venueOrder)) else orders[i]);
    SameCounts(r, orders);
    r
  }

  /** The position of an order's first entry, or the length of the list. */
  function FirstOf(orders: seq<InFlight>, id: OrderId): (at: nat)
    ensures at <= |orders| && (at < |orders| ==> orders[at].id == id)
    ensures forall i :: 0 <= i < at ==> orders[i].id != id
  {
    if orders == [] then 0
    else
      var at := FirstOf(orders[..|orders| - 1], id);
      if at < |orders| - 1 || orders[at].id == id then at else |orders|
  }

  /** The first entry of an order gets the venue order id. */
  function FirstAcknowledged(orders: seq<InFlight>, id: OrderId, venueOrder: nat): (r: seq<InFlight>)
    ensures |r| == |orders| && forall x :: Count(r, x) == Count(orders, x)
  {
    var at := FirstOf(orders, id);
    if at == |orders| then orders
    else
      var r := orders[at := orders[at].(venueOrder := Some(venueOrder))];
      SameCounts(r, orders);
      r
  }

  /** A list with an order registered: its entry replaces any other of the same id. */
  function Registering(orders: seq<InFlight>, order: InFlight): seq<InFlight> {
    Without(orders, order.id) + [order]
  }

  // ---- Store operations as functions of the file ----

  /** What registering an order commits: the file as loaded, or a fresh state when it does
      not load, with the order replacing any entry of the same id. */
  function Registered(file: Option<Durable>, order: InFlight, loads: bool): Durable {
    var state := if loads && file.Some? then file.value else Durable(0, []);
    state.(inFlight := Registering(state.inFlight, order))
  }

  /** What a checkpoint commits: live limits over the stored orders. */
  function Checkpointed(file: Option<Durable>, risk: int, loads: bool): Durable {
    if loads && file.Some? then file.value.(risk := risk) else Durable(risk, [])
  }

  function Commit(file: Option<Durable>, next: Durable, commits: bool): Option<Durable> {
    if commits then Some(next) else file
  }

  /** What clearing an order leaves. */
  function Cleared(file: Option<Durable>, id: OrderId, io: Io): Option<Durable> {
    if io.loads && io.commits && file.Some? then
      Some(file.value.(inFlight := Without(file.value.inFlight, id)))
    else file
  }

  /** What acknowledging an order leaves. */
  function Marked(file: Option<Durable>, id: OrderId, venueOrder: nat, io: Io): Option<Durable> {
    if io.loads && io.commits && file.Some? then
      Some(file.value.(inFlight := FirstAcknowledged(file.value.inFlight, id, venueOrder)))
    else file
  }

  /** The atomic state file. */
  class RiskStateStore {
    var file: Option<Durable>

    constructor (file: Option<Durable>)
      ensures this.file == file
    {
      this.file := file;
    }

    /** Persist an order before it is sent. Once committed, the file holds exactly this entry of
        the order, last, and the entries of other orders as they were, unless the file did not
        load: then it holds nothing else. */
    method RegisterInFlight(order: InFlight, io: Io) returns (ok: bool)
      modifies this
      ensures ok == io.commits && (!ok ==> file == old(file))
      ensures file == Commit(old(file), Registered(old(file), order, io.loads), io.commits)
      ensures ok ==>
                && file.Some?
                && Entries(file.value.inFlight, order.id) == [order]
                && Without(file.value.inFlight, order.id)
                   == (if io.loads && old(file).Some? then Without(old(file).value.inFlight, order.id) else [])
                && (io.loads && old(file).Some? ==> file.value.risk == old(file).value.risk)
    {
      var state := Durable(0, []);
      if io.loads && file.Some? {
        state := file.value;
      }
      WithoutDropsAll(state.inFlight, order.id);
      EndWith(Without(state.inFlight, order.id), order, order.id);
      state := state.(inFlight := Without(state.inFlight, order.id) + [order]);
      if io.commits {
        file := Some(state);
      }
      ok := io.commits;
    }

    /** Persist an acknowledgement; fails without touching anything if the file does not load. */
    method Acknowledge(id: OrderId, venueOrder: nat, io: Io) returns (ok: bool)
      modifies this
      ensures ok == (io.loads && old(file).Some? && io.commits) && (!ok ==> file == old(file))
      ensures file == Marked(old(file), id, venueOrder, io)
      ensures ok ==>
                var orders, at := old(file).value.inFlight, FirstOf(old(file).value.inFlight, id);
                && file.Some? && file.value.risk == old(file).value.risk && |file.value.inFlight| == |orders|
                && forall i :: 0 <= i < |orders| ==>
                                 file.value.inFlight[i]
                                 == if i == at then orders[i].(venueOrder := Some(venueOrder)) else orders[i]
    {
      if !io.loads || file.None? {
        return false;
      }
      var orders := file.value.inFlight;
      var at := 0;
      while at < |orders| && orders[at].id != id
        invariant 0 <= at <= |orders| && forall i :: 0 <= i < at ==> orders[i].id != id
      {
        at := at + 1;
      }
      assert at == FirstOf(orders, id);
      if at < |orders| {
        orders := orders[at := orders[at].(venueOrder := Some(venueOrder))];
      }
      if io.commits {
        file := Some(file.value.(inFlight := orders));
      }
      ok := io.commits;
    }

    /** Remove a settled or rolled-back order: no entry of it is left, and the entries of other
        orders and the limits are as they were. Fails without touching anything if the file does
        not load. */
    method ClearInFlight(id: OrderId, io: Io) returns (ok: bool)
      modifies this
      ensures ok == (io.loads && old(file).Some? && io.commits) && (!ok ==> file == old(file))
      ensures file == Cleared(old(file), id, io)
      ensures ok ==>
                && file.Some? && file.value.risk == old(file).value.risk
                && Entries(file.value.inFlight, id) == []
                && forall other :: other != id ==>
                                     Entries(file.value.inFlight, other) == Entries(old(file).value.inFlight, other)
    {
      if !io.loads || file.None? {
        return false;
      }
      var orders := file.value.inFlight;
      WithoutDropsAll(orders, id);
      forall other | other != id
        ensures Entries(Without(orders, id), other) == Entries(orders, other)
      {
        WithoutKeepsOthers(orders, id, other);
      }
      if io.commits {
        file := Some(file.value.(inFlight := Without(orders, id)));
      }
      ok := io.commits;
    }

    /** Persist the limits: the recorded orders stay exactly as they were when the file loads,
        and are dropped when it does not. */
    method Checkpoint(risk: int, io: Io) returns (ok: bool)
      modifies this
      ensures ok == io.commits && (!ok ==> file == old(file))
      ensures file == Commit(old(file), Checkpointed(old(file), risk, io.loads), io.commits)
      ensures ok ==>
                && file.Some? && file.value.risk == risk
                && file.value.inFlight == (if io.loads && old(file).Some? then old(file).value.inFlight else [])
    {
      var state := Durable(risk, []);
      if io.loads && file.Some? {
        state := file.value.(risk := risk);
      }
      if io.commits {
        file := Some(state);
      }
      ok := io.commits;
    }
  }

  // ---- The runner ----

  /** Where the main loop is, with the two legs of the plan it is on. */
  datatype Phase =
    | Idle
    | Persisting(first: InFlight, second: InFlight, firstDone: bool)
    | RollingBack(leg: InFlight)
    | Prepared(first: InFlight, second: InFlight)
    | Sending(first: InFlight, second: InFlight, firstSent: bool, secondSent: bool)
    | Acking(first: InFlight, second: InFlight)
    | Clearing(settled: seq<OrderId>, done: nat)

  /** The whole system: the file, what the runner remembers, and the orders that were sent to
      a venue and not yet seen terminal, each counted under its id. */
  datatype System = System(file: Option<Durable>, memory: seq<InFlight>, phase: Phase, outstanding: multiset<OrderId>)

  /** Nothing on disk, nothing sent. */
  const START := System(None, [], Idle, multiset{})

  datatype Event =
    | Plan(first: InFlight, second: InFlight)         // a resolved two-leg plan
    | Persist(io: Io)                                 // register the next leg in the store
    | Rollback(io: Io)                                // clear the leg already persisted
    | Remember                                        // register both legs in memory
    | RiskReject                                      // the gate refuses the trade
    | TransmitFirst                                   // a leg reaches its venue
    | TransmitSecond
    | Ack(id: OrderId, venueOrder: nat, io: Io)       // record an order id, in memory and on disk
    | FinishPlan                                      // the attempt is over
    | SaveRisk(risk: int, io: Io)                     // checkpoint
    | Reconcile(settled: set<OrderId>)                // the venues report some orders terminal
    | ReconcileFails                                  // a poll leaves the in-flight list drained
    | Clear(io: Io)                                   // clear the next settled order
    | Crash(loads: bool)                              // stop and start again

  /** The orders of memory that are acknowledged and reported terminal, in order. */
  function Terminal(memory: seq<InFlight>, settled: set<OrderId>): seq<OrderId> {
    if memory == [] then []
    else
      var last := memory[|memory| - 1];
      Terminal(memory[..|memory| - 1], settled)
      + if last.venueOrder.Some? && last.id in settled then [last.id] else []
  }

  function Pending(memory: seq<InFlight>, settled: set<OrderId>): seq<InFlight> {
    if memory == [] then []
    else
      var last := memory[|memory| - 1];
      Pending(memory[..|memory| - 1], settled)
      + if last.venueOrder.Some? && last.id in settled then [] else [last]
  }

  /** One event of the main loop, or nothing when the loop is not at it. */
  function Next(s: System, e: Event): Option<System> {
    match e
    case Plan(first, second) =>
      if s.phase.Idle? then Some(s.(phase := Persisting(first, second, false))) else None
    case Persist(io) => AfterPersist(s, io)
    case Rollback(io) =>
      if s.phase.RollingBack? then Some(s.(file := Cleared(s.file, s.phase.leg.id, io), phase := Idle)) else None
    case Remember =>
      if s.phase.Prepared? then
        var first, second := s.phase.first, s.phase.second;
        Some(s.(memory := Registering(Registering(s.memory, first), second),
                phase := Sending(first, second, false, false)))
      else None
    case RiskReject =>
      if s.phase.Sending? && !s.phase.firstSent && !s.phase.secondSent then Some(s.(phase := Idle)) else None
    case TransmitFirst =>
      if s.phase.Sending? && !s.phase.firstSent then Some(AfterTransmit(s, s.phase.first.id, true, s.phase.secondSent))
      else None
    case TransmitSecond =>
      if s.phase.Sending? && !s.phase.secondSent then Some(AfterTransmit(s, s.phase.second.id, s.phase.firstSent, true))
      else None
    case Ack(id, venueOrder, io) => AfterAck(s, id, venueOrder, io)
    case FinishPlan =>
      if s.phase.Acking? then Some(s.(phase := Idle)) else None
    case SaveRisk(risk, io) =>
      if s.phase.Idle? || s.phase.Acking? then
        Some(s.(file := Commit(s.file, Checkpointed(s.file, risk, io.loads), io.commits)))
      else None
    case Reconcile(settled) => AfterReconcile(s, settled)
    case ReconcileFails =>
      if s.phase.Idle? then Some(s.(memory := [])) else None
    case Clear(io) => AfterClear(s, io)
    case Crash(loads) =>
      Some(s.(memory := if loads && s.file.Some? then s.file.value.inFlight else [], phase := Idle))
  }

  /** The next leg is registered in the store. A failed commit ends the plan, after clearing
      the first leg if that was the one persisted. */
  function AfterPersist(s: System, io: Io): Option<System> {
    match s.phase
    case Persisting(first, second, false) =>
      Some(s.(file := Commit(s.file, Registered(s.file, first, io.loads), io.commits),
              phase := if io.commits then Persisting(first, second, true) else Idle))
    case Persisting(first, second, true) =>
      Some(s.(file := Commit(s.file, Registered(s.file, second, io.loads), io.commits),
              phase := if io.commits then Prepared(first, second) else RollingBack(first)))
    case _ => None
  }

  /** A leg has reached its venue. */
  function AfterTransmit(s: System, id: OrderId, firstSent: bool, secondSent: bool): System
    requires s.phase.Sending?
  {
    var first, second := s.phase.first, s.phase.second;
    s.(outstanding := s.outstanding + multiset{id},
       phase := if firstSent && secondSent then Acking(first, second)
                else Sending(first, second, firstSent, secondSent))
  }

  /** An order id is recorded in memory, and on disk when the store works. */
  function AfterAck(s: System, id: OrderId, venueOrder: nat, io: Io): Option<System> {
    if s.phase.Acking? && (id == s.phase.first.id || id == s.phase.second.id) then
      Some(s.(memory := Acknowledged(s.memory, id, venueOrder), file := Marked(s.file, id, venueOrder, io)))
    else None
  }

  /** The orders reported terminal leave memory and are cleared next. */
  function AfterReconcile(s: System, settled: set<OrderId>): Option<System> {
    if s.phase.Idle? then
      var terminal := Terminal(s.memory, settled);
      Some(s.(memory := Pending(s.memory, settled),
              outstanding := s.outstanding - multiset(terminal),
              phase := Clearing(terminal, 0)))
    else None
  }

  /** The next settled order is cleared from the store. */
  function AfterClear(s: System, io: Io): Option<System> {
    if !s.phase.Clearing? then None
    else if s.phase.done >= |s.phase.settled| then Some(s.(phase := Idle))
    else
      Some(s.(file := Cleared(s.file, s.phase.settled[s.phase.done], io),
              phase := Clearing(s.phase.settled, s.phase.done + 1)))
  }

  /** A plan is fresh when its legs have ids of their own, and no order outstanding has either. */
  predicate Fresh(s: System, first: OrderId, second: OrderId) {
    first != second && s.outstanding[first] == 0 && s.outstanding[second] == 0
  }

  /** The two things the protocol relies on: a committed file can be read back, and plans are
      fresh. */
  ghost predicate Disciplined(s: System, e: Event) {
    match e
    case Plan(first, second) => Fresh(s, first.id, second.id)
    case Persist(io) => s.file.Some? ==> io.loads
    case SaveRisk(_, io) => s.file.Some? ==> io.loads
    case _ => true
  }

  /** How many entries an order has in the durable in-flight set. */
  function OnDisk(s: System, id: OrderId): nat {
    if s.file.Some? then Count(s.file.value.inFlight, id) else 0
  }

  /** The legs of a plan that are about to be sent under an id. */
  function AboutToSend(p: Phase, id: OrderId): nat {
    match p
    case Prepared(first, second) => (if first.id == id then 1 else 0) + if second.id == id then 1 else 0
    case Sending(first, second, firstSent, secondSent) =>
      (if !firstSent && first.id == id then 1 else 0) + if !secondSent && second.id == id then 1 else 0
    case _ => 0
  }

  /** Every order sent and not seen terminal has an entry of its own on disk. */
  ghost predicate Protected(s: System) {
    forall id :: s.outstanding[id] <= OnDisk(s, id)
  }

  /** What holds between events: everything sent and everything about to be sent has an entry
      of its own on disk, where no id stands twice; a plan being persisted is fresh, and what is
      about to be cleared is not outstanding. */
  ghost predicate Inv(s: System) {
    && (forall id :: s.outstanding[id] + AboutToSend(s.phase, id) <= OnDisk(s, id) <= 1)
    && match s.phase
       case Persisting(first, second, firstDone) =>
         Fresh(s, first.id, second.id) && (firstDone ==> OnDisk(s, first.id) == 1)
       case RollingBack(leg) => s.outstanding[leg.id] == 0
       case Clearing(settled, _) => forall i :: 0 <= i < |settled| ==> s.outstanding[settled[i]] == 0
       case _ => true
  }

  /** Registering leaves one entry of the order, and of every other what there was. */
  lemma {:induction false} RegisteredOnDisk(file: Option<Durable>, order: InFlight, loads: bool)
    ensures var orders := if loads && file.Some? then file.value.inFlight else [];
            forall id :: Count(Registered(file, order, loads).inFlight, id)
                         == if id == order.id then 1 else Count(orders, id)
  {
    var orders := if loads && file.Some? then file.value.inFlight else [];
    CountAppend(Without(orders, order.id), order);
  }

  lemma {:induction false} PersistKeeps(s: System, io: Io)
    requires Inv(s) && Disciplined(s, Persist(io)) && AfterPersist(s, io).Some?
    ensures Inv(AfterPersist(s, io).value)
  {
    RegisteredOnDisk(s.file, if s.phase.firstDone then s.phase.second else s.phase.first, io.loads);
  }

  lemma {:induction false} ReconcileKeeps(s: System, settled: set<OrderId>)
    requires Inv(s) && AfterReconcile(s, settled).Some?
    ensures Inv(AfterReconcile(s, settled).value)
  {
    var terminal := Terminal(s.memory, settled);
    forall i | 0 <= i < |terminal|
      ensures (s.outstanding - multiset(terminal))[terminal[i]] == 0
    {
      assert terminal[i] in multiset(terminal);
      assert s.outstanding[terminal[i]] <= OnDisk(s, terminal[i]) <= 1;
    }
  }

  /** Events that leave the store and the venues alone. */
  predicate Quiet(e: Event) {
    e.Plan? || e.Remember? || e.RiskReject? || e.FinishPlan? || e.ReconcileFails? || e.Crash?
  }

  lemma {:induction false} QuietKeeps(s: System, e: Event)
    requires Inv(s) && Quiet(e) && Disciplined(s, e) && Next(s, e).Some?
    ensures Inv(Next(s, e).value)
  {
    var t := Next(s, e).value;
    SameFile(s, t);
    forall id
      ensures t.outstanding[id] + AboutToSend(t.phase, id) <= OnDisk(t, id) <= 1
    {
      assert t.outstanding == s.outstanding && AboutToSend(t.phase, id) <= AboutToSend(s.phase, id);
    }
  }

  lemma {:induction false} StoreKeeps(s: System, e: Event)
    requires Inv(s) && (e.Rollback? || e.Ack? || e.SaveRisk? || e.Clear?) && Disciplined(s, e) && Next(s, e).Some?
    ensures Inv(Next(s, e).value)
  {
    match e
    case Rollback(io) => ClearKeeps(s, s.phase.leg.id, io);
    case Ack(id, venueOrder, io) => MarkKeeps(s, id, venueOrder, io);
    case SaveRisk(risk, io) => SaveRiskKeeps(s, risk, io);
    case Clear(io) =>
      if s.phase.done < |s.phase.settled| {
        ClearKeeps(s, s.phase.settled[s.phase.done], io);
      }
  }

  /** Every event keeps the invariant, when loads work and plans are fresh. */
  lemma {:induction false} EventKeepsInv(s: System, e: Event)
    requires Inv(s) && Disciplined(s, e) && Next(s, e).Some?
    ensures Inv(Next(s, e).value)
  {
    if Quiet(e) {
      QuietKeeps(s, e);
    } else if e.Persist? {
      PersistKeeps(s, e.io);
    } else if e.TransmitFirst? {
      TransmitKeeps(s, s.phase.first.id, true, s.phase.secondSent);
    } else if e.TransmitSecond? {
      TransmitKeeps(s, s.phase.second.id, s.phase.firstSent, true);
    } else if e.Reconcile? {
      ReconcileKeeps(s, e.settled);
    } else {
      StoreKeeps(s, e);
    }
  }

  /** Clearing an id that is not outstanding. */
  lemma {:induction false} ClearKeeps(s: System, id: OrderId, io: Io)
    requires Inv(s) && AboutToSend(s.phase, id) == 0 && s.outstanding[id] == 0
    ensures var t := s.(file := Cleared(s.file, id, io));
            forall x :: s.outstanding[x] + AboutToSend(s.phase, x) <= OnDisk(t, x) <= 1
  {
    var t := s.(file := Cleared(s.file, id, io));
    forall x
      ensures OnDisk(t, x) == OnDisk(s, x) || (x == id && OnDisk(t, x) == 0)
    {
      if s.file.Some? {
        var orders := s.file.value.inFlight;
        assert Count(Without(orders, id), x) == if x == id then 0 else Count(orders, x);
      }
    }
  }

  /** An acknowledgement leaves the ids on disk alone. */
  lemma {:induction false} MarkKeeps(s: System, id: OrderId, venueOrder: nat, io: Io)
    ensures forall x :: OnDisk(s.(file := Marked(s.file, id, venueOrder, io)), x) == OnDisk(s, x)
  {
    var t := s.(file := Marked(s.file, id, venueOrder, io));
    forall x
      ensures OnDisk(t, x) == OnDisk(s, x)
    {
      if s.file.Some? {
        var orders := s.file.value.inFlight;
        assert Count(FirstAcknowledged(orders, id, venueOrder), x) == Count(orders, x);
      }
    }
  }

  /** A checkpoint over a file that loads leaves the ids on disk alone. */
  lemma {:induction false} SaveRiskKeeps(s: System, risk: int, io: Io)
    requires s.file.Some? ==> io.loads
    ensures forall x ::
              OnDisk(s.(file := Commit(s.file, Checkpointed(s.file, risk, io.loads), io.commits)), x) == OnDisk(s, x)
  {
  }

  /** Where nothing moves, the ids on disk stay. */
  lemma {:induction false} SameFile(s: System, t: System)
    requires t.file == s.file
    ensures forall x :: OnDisk(t, x) == OnDisk(s, x)
  {
  }

  /** Sending a leg moves it from what is about to be sent to what is outstanding. */
  lemma {:induction false} TransmitKeeps(s: System, id: OrderId, firstSent: bool, secondSent: bool)
    requires Inv(s) && s.phase.Sending?
    requires || (!s.phase.firstSent && id == s.phase.first.id && firstSent && secondSent == s.phase.secondSent)
             || (!s.phase.secondSent && id == s.phase.second.id && secondSent && firstSent == s.phase.firstSent)
    ensures Inv(AfterTransmit(s, id, firstSent, secondSent))
  {
    var t := AfterTransmit(s, id, firstSent, secondSent);
    forall x
      ensures t.outstanding[x] + AboutToSend(t.phase, x) <= OnDisk(t, x) <= 1
    {
      assert OnDisk(t, x) == OnDisk(s, x);
    }
  }

  /** A run: the state after all of its events, if each could happen. */
  function Run(s: System, events: seq<Event>): Option<System>
    decreases |events|
  {
    if events == [] then Some(s)
    else if Next(s, events[0]).None? then None
    else Run(Next(s, events[0]).value, events[1..])
  }

  /** Every event of the run is disciplined where it happens. */
  ghost predicate DisciplinedRun(s: System, events: seq<Event>)
    decreases |events|
  {
    events == []
    || (&& Disciplined(s, events[0])
        && (Next(s, events[0]).Some? ==> DisciplinedRun(Next(s, events[0]).value, events[1..])))
  }

  lemma {:induction false} RunKeepsInv(s: System, events: seq<Event>)
    requires Inv(s) && DisciplinedRun(s, events) && Run(s, events).Some?
    ensures Inv(Run(s, events).value)
    decreases |events|
  {
    if events != [] {
      EventKeepsInv(s, events[0]);
      RunKeepsInv(Next(s, events[0]).value, events[1..]);
    }
  }

  lemma {:induction false} StartsSafe()
    ensures Inv(START)
  {
  }

  /** Write-ahead safety. At every point of every disciplined run, whatever commits fail
      and wherever the process stops, each order that was sent and not yet seen terminal has
      an entry of its own in the durable in-flight set. */
  lemma {:induction false} WriteAheadSafety(events: seq<Event>)
    requires DisciplinedRun(START, events) && Run(START, events).Some?
    ensures Protected(Run(START, events).value)
  {
    StartsSafe();
    RunKeepsInv(START, events);
  }

  // ---- Both conditions are needed ----

  /** Registering over a file that does not load keeps every outstanding order on disk exactly
      when there was none but one of that id. */
  lemma {:induction false} FailedLoadLosesOthers(s: System, order: InFlight)
    requires Protected(s)
    ensures Protected(s.(file := Some(Registered(s.file, order, false))))
            <==> forall id :: s.outstanding[id] <= if id == order.id then 1 else 0
  {
    var t := s.(file := Some(Registered(s.file, order, false)));
    RegisteredOnDisk(s.file, order, false);
    assert forall id :: OnDisk(t, id) == if id == order.id then 1 else 0;
  }

  /** A checkpoint over a file that does not load keeps them exactly when there was none. */
  lemma {:induction false} FailedLoadCheckpointLosesAll(s: System, risk: int)
    requires Protected(s)
    ensures Protected(s.(file := Some(Checkpointed(s.file, risk, false)))) <==> s.outstanding == multiset{}
  {
    var t := s.(file := Some(Checkpointed(s.file, risk, false)));
    assert forall id :: OnDisk(t, id) == 0;
    if Protected(t) {
      forall id
        ensures s.outstanding[id] == 0
      {
        assert s.outstanding[id] <= OnDisk(t, id);
      }
      assert s.outstanding == multiset{};
    }
  }

  /** Whatever follows a plan is protected, with loads working and later plans fresh. */
  ghost predicate SafeToPlan(s: System, first: InFlight, second: InFlight)
    requires s.phase.Idle?
  {
    forall events: seq<Event> ::
      var planned := s.(phase := Persisting(first, second, false));
      DisciplinedRun(planned, events) && Run(planned, events).Some? ==> Protected(Run(planned, events).value)
  }

  /** Freshness is exactly what a plan needs. From any idle state the invariant admits, every
      continuation of a plan stays protected if and only if the plan is fresh. */
  lemma {:induction false} SafeExactlyWhenFresh(s: System, first: InFlight, second: InFlight)
    requires Inv(s) && s.phase.Idle?
    ensures SafeToPlan(s, first, second) <==> Fresh(s, first.id, second.id)
  {
    var planned := s.(phase := Persisting(first, second, false));
    if Fresh(s, first.id, second.id) {
      EventKeepsInv(s, Plan(first, second));
      forall events: seq<Event> | DisciplinedRun(planned, events) && Run(planned, events).Some?
        ensures Protected(Run(planned, events).value)
      {
        RunKeepsInv(planned, events);
      }
    } else {
      var events, last := SendBoth(s, first, second);
      assert DisciplinedRun(planned, events);
      var id := if s.outstanding[second.id] > 0 then second.id else first.id;
      assert last.outstanding[id] > OnDisk(last, id);
    }
  }

  /** Persisting and sending both legs of a plan, without any failure. Each id then has one
      entry on disk, however many orders of it are outstanding. */
  lemma {:induction false} SendBoth(s: System, first: InFlight, second: InFlight)
    returns (events: seq<Event>, last: System)
    requires s.phase.Idle?
    ensures var planned := s.(phase := Persisting(first, second, false));
            DisciplinedRun(planned, events) && Run(planned, events) == Some(last)
    ensures last.phase == Acking(first, second)
    ensures last.outstanding == s.outstanding + multiset{first.id} + multiset{second.id}
    ensures OnDisk(last, first.id) == 1 && OnDisk(last, second.id) == 1
  {
    var works := Io(true, true);
    var file1 := Some(Registered(s.file, first, true));
    var file2 := Some(Registered(file1, second, true));
    RegisteredOnDisk(s.file, first, true);
    RegisteredOnDisk(file1, second, true);
    var s0 := s.(phase := Persisting(first, second, false));
    var s1 := s.(file := file1, phase := Persisting(first, second, true));
    var s2 := s.(file := file2, phase := Prepared(first, second));
    events, last := TransmitBoth(s2, first, second);
    assert AfterPersist(s1, works) == Some(s2);
    events := OneMore(s1, Persist(works), s2, events, last);
    assert AfterPersist(s0, works) == Some(s1);
    events := OneMore(s0, Persist(works), s1, events, last);
  }

  /** Sending both legs of a plan that is prepared. */
  lemma {:induction false} TransmitBoth(s: System, first: InFlight, second: InFlight)
    returns (events: seq<Event>, last: System)
    requires s.phase == Prepared(first, second)
    ensures DisciplinedRun(s, events) && Run(s, events) == Some(last)
    ensures last.phase == Acking(first, second) && last.file == s.file
    ensures last.outstanding == s.outstanding + multiset{first.id} + multiset{second.id}
  {
    var s1 := Next(s, Remember).value;
    var s2 := Next(s1, TransmitFirst).value;
    last := Next(s2, TransmitSecond).value;
    events := [];
    events := OneMore(s2, TransmitSecond, last, events, last);
    events := OneMore(s1, TransmitFirst, s2, events, last);
    events := OneMore(s, Remember, s1, events, last);
  }

  /** A run with one more event in front. */
  lemma {:induction false} OneMore(s: System, e: Event, t: System, events: seq<Event>, last: System)
    returns (more: seq<Event>)
    requires Next(s, e) == Some(t) && Run(t, events) == Some(last)
    ensures Run(s, more) == Some(last) && more == [e] + events
    ensures Disciplined(s, e) && DisciplinedRun(t, events) ==> DisciplinedRun(s, more)
  {
    more := [e] + events;
    assert more[1..] == events;
  }

  lemma {:induction false} RunThen(s: System, first: seq<Event>, more: seq<Event>, mid: System)
    requires Run(s, first) == Some(mid)
    ensures Run(s, first + more) == Run(mid, more)
    ensures DisciplinedRun(s, first) && DisciplinedRun(mid, more) ==> DisciplinedRun(s, first + more)
    decreases |first|
  {
    if first == [] {
      assert first + more == more;
    } else {
      assert (first + more)[0] == first[0] && (first + more)[1..] == first[1..] + more;
      RunThen(Next(s, first[0]).value, first[1..], more, mid);
    }
  }

  const LEG_A := InFlight(1, 100, None)
  const LEG_B := InFlight(2, 100, None)
  const LEG_C := InFlight(3, 100, None)
  const LEG_D := InFlight(4, 100, None)

  /** A whole run, disciplined up to its last event, in which persisting one leg over a file that
      does not load takes an outstanding order off the disk. */
  lemma {:induction false} FailedLoadLosesAnOrder() returns (events: seq<Event>, last: System)
    ensures DisciplinedRun(START, events) && Run(START, events + [Persist(Io(false, true))]) == Some(last)
    ensures LEG_A.id in last.outstanding && OnDisk(last, LEG_A.id) == 0
  {
    var planned := START.(phase := Persisting(LEG_A, LEG_B, false));
    var sent, mid := SendBoth(START, LEG_A, LEG_B);
    var idle, again := mid.(phase := Idle), mid.(phase := Persisting(LEG_C, LEG_D, false));
    var more := [];
    more := OneMore(idle, Plan(LEG_C, LEG_D), again, more, again);
    more := OneMore(mid, FinishPlan, idle, more, again);
    RunThen(planned, sent, more, mid);
    events := OneMore(START, Plan(LEG_A, LEG_B), planned, sent + more, again);
    last := AfterPersist(again, Io(false, true)).value;
    RegisteredOnDisk(again.file, LEG_C, false);
    assert Run(again, [Persist(Io(false, true))]) == Some(last) by {
      var only := OneMore(again, Persist(Io(false, true)), last, [], last);
    }
    RunThen(START, events, [Persist(Io(false, true))], again);
  }

  /** A whole run that loses an order. A plan is sent; a second plan reuses the id of its first
      leg while that is outstanding and cannot persist its own second leg; rolling back clears
      the order that was sent. */
  lemma {:induction false} ReusedIdLosesAnOrder() returns (events: seq<Event>, last: System)
    ensures Run(START, events) == Some(last)
    ensures LEG_A.id in last.outstanding && OnDisk(last, LEG_A.id) == 0
  {
    var planned := START.(phase := Persisting(LEG_A, LEG_B, false));
    var sent, mid := SendBoth(START, LEG_A, LEG_B);
    var reuse;
    reuse, last := ReuseAndRollBack(mid);
    RunThen(planned, sent, reuse, mid);
    events := OneMore(START, Plan(LEG_A, LEG_B), planned, sent + reuse, last);
  }

  lemma {:induction false} ReuseAndRollBack(s: System) returns (events: seq<Event>, last: System)
    requires s.phase.Acking?
    ensures Run(s, events) == Some(last) && last.outstanding == s.outstanding && OnDisk(last, LEG_A.id) == 0
  {
    var works, fails := Io(true, true), Io(true, false);
    var file := Some(Registered(s.file, LEG_A, true));
    var s1 := s.(phase := Idle);
    var s2 := s.(phase := Persisting(LEG_A, LEG_C, false));
    var s3 := s.(file := file, phase := Persisting(LEG_A, LEG_C, true));
    var s4 := s3.(phase := RollingBack(LEG_A));
    last := s4.(file := Cleared(file, LEG_A.id, works), phase := Idle);
    events := [];
    events := OneMore(s4, Rollback(works), last, events, last);
    assert AfterPersist(s3, fails) == Some(s4);
    events := OneMore(s3, Persist(fails), s4, events, last);
    assert AfterPersist(s2, works) == Some(s3);
    events := OneMore(s2, Persist(works), s3, events, last);
    events := OneMore(s1, Plan(LEG_A, LEG_C), s2, events, last);
    events := OneMore(s, FinishPlan, s1, events, last);
  }
}
