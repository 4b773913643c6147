/** The single-producer single-consumer ring, one memory access at a time.

    Each thread runs its own operation as a sequence of steps: load the slot's turn, copy
    the payload word by word in any order, store the new turn. Steps of the two threads
    interleave freely. Turns carry acquire and release ordering, so the steps may be
    taken in a single order; payload words carry none, so within one copy their order is
    left open. Turn numbers are unbounded here. */
module Ring {
  import opened Arith
  import opened Quotes

  /** A message: its payload words. */
  type Item = seq<int>

  datatype Slot = Slot(turn: nat, payload: Item)

  /** Where the producer is inside `try_push`. */
  datatype ProducerPc =
    | ProducerIdle
    | LoadingTurn(item: Item)
    | StoringWords(item: Item, todo: set<nat>)

  /** Where the consumer is inside `try_pop`. */
  datatype ConsumerPc =
    | ConsumerIdle
    | AwaitingTurn
    | LoadingWords(got: Item, todo: set<nat>)

  /** What the two callers observed, in the order the deciding steps were taken. */
  datatype Event = Pushed(item: Item) | PushFull(item: Item) | Popped(item: Item) | PopEmpty

  datatype State = State(
    slots: seq<Slot>, head: nat, tail: nat, producer: ProducerPc, consumer: ConsumerPc, history: seq<Event>)

  datatype Step =
    | CallPush(item: Item)  // enter try_push
    | LoadPushTurn          // read the turn of the head slot: full, or go on
    | StoreWord(word: nat)  // write one payload word
    | PublishTurn           // store head + 1 and advance the head
    | CallPop               // enter try_pop
    | LoadPopTurn           // read the turn of the tail slot: empty, or go on
    | LoadWord(word: nat)   // read one payload word
    | ReleaseTurn           // store tail + capacity and advance the tail

  /** The ring as created: slot `i` is free for the `i`-th push. */
  function Init(capacity: nat, width: nat): State {
    State(seq(capacity, i requires 0 <= i => Slot(i, seq(width, _ => 0))), 0, 0, ProducerIdle, ConsumerIdle, [])
  }

  /** All payload words of an item. */
  function Words(width: nat): (words: set<nat>)
    ensures forall k: nat :: k in words <==> k < width
  {
    if width == 0 then {} else Words(width - 1) + {width - 1}
  }

  /** The slot of a position: the position modulo the capacity, which for a power of two
      is the position masked by capacity - 1. */
  function SlotOf(i: nat, capacity: nat): (slot: nat)
    requires capacity > 0
    ensures slot < capacity
  {
    if i < capacity then i else SlotOf(i - capacity, capacity)
  }

  lemma {:induction false} SlotOfIsModulo(i: nat, capacity: nat)
    requires capacity > 0
    ensures SlotOf(i, capacity) == i % capacity
  {
    if i >= capacity {
      SlotOfIsModulo(i - capacity, capacity);
      var q := (i - capacity) / capacity;
      assert i - capacity == capacity * q + (i - capacity) % capacity;
      assert capacity * (q + 1) == capacity * q + capacity;
      ModuloIs(i, capacity, q + 1, (i - capacity) % capacity);
    } else {
      ModuloIs(i, capacity, 0, i);
    }
  }

  lemma {:induction false} ModuloIs(i: nat, capacity: nat, q: nat, r: nat)
    requires i == capacity * q + r && r < capacity
    ensures i % capacity == r
  {
    assert q * capacity == capacity * q && (q + 1) * capacity == capacity * q + capacity;
    FloorIs(i, capacity, q);
  }

  /** One step of either thread, or nothing when the thread is not at that step. */
  function Next(s: State, step: Step, width: nat): Option<State>
    requires |s.slots| > 0
  {
    var capacity := |s.slots|;
    var h, t := SlotOf(s.head, capacity), SlotOf(s.tail, capacity);
    match step
    case CallPush(item) =>
      if s.producer.ProducerIdle? && |item| == width then Some(s.(producer := LoadingTurn(item))) else None
    case LoadPushTurn =>
      if !s.producer.LoadingTurn? then None
      else if s.slots[h].turn == s.head then
        Some(s.(producer := StoringWords(s.producer.item, Words(width))))
      else
        Some(s.(producer := ProducerIdle, history := s.history + [PushFull(s.producer.item)]))
    case StoreWord(k) =>
      if s.producer.StoringWords? && k in s.producer.todo && k < |s.producer.item| && k < |s.slots[h].payload| then
        var slot := s.slots[h];
        var slot' := slot.(payload := slot.payload[k := s.producer.item[k]]);
        Some(s.(slots := s.slots[h := slot'],
                producer := StoringWords(s.producer.item, s.producer.todo - {k})))
      else None
    case PublishTurn =>
      if s.producer.StoringWords? && s.producer.todo == {} then
        Some(s.(slots := s.slots[h := s.slots[h].(turn := s.head + 1)],
                head := s.head + 1,
                producer := ProducerIdle,
                history := s.history + [Pushed(s.producer.item)]))
      else None
    case CallPop =>
      if s.consumer.ConsumerIdle? then Some(s.(consumer := AwaitingTurn)) else None
    case LoadPopTurn =>
      if !s.consumer.AwaitingTurn? then None
      else if s.slots[t].turn == s.tail + 1 then
        Some(s.(consumer := LoadingWords(seq(width, _ => 0), Words(width))))
      else
        Some(s.(consumer := ConsumerIdle, history := s.history + [PopEmpty]))
    case LoadWord(k) =>
      if s.consumer.LoadingWords? && k in s.consumer.todo && k < |s.consumer.got| && k < |s.slots[t].payload| then
        Some(s.(consumer := LoadingWords(s.consumer.got[k := s.slots[t].payload[k]], s.consumer.todo - {k})))
      else None
    case ReleaseTurn =>
      if s.consumer.LoadingWords? && s.consumer.todo == {} then
        Some(s.(slots := s.slots[t := s.slots[t].(turn := s.tail + capacity)],
                tail := s.tail + 1,
                consumer := ConsumerIdle,
                history := s.history + [Popped(s.consumer.got)]))
      else None
  }

  /** The state after a sequence of steps, if every one of them could be taken. */
  function Run(capacity: nat, width: nat, steps: seq<Step>): (r: Option<State>)
    requires capacity > 0
    ensures r.Some? ==> |r.value.slots| == capacity
  {
    if steps == [] then Some(Init(capacity, width))
    else
      var before := Run(capacity, width, steps[..|steps| - 1]);
      if before.None? then None else Next(before.value, steps[|steps| - 1], width)
  }

  // ---- The specification: a bounded first-in first-out queue ----

  /** The items accepted by a history, in order. */
  function PushedItems(history: seq<Event>): seq<Item> {
    if history == [] then []
    else
      var last := history[|history| - 1];
      PushedItems(history[..|history| - 1]) + if last.Pushed? then [last.item] else []
  }

  /** The items delivered by a history, in order. */
  function PoppedItems(history: seq<Event>): seq<Item> {
    if history == [] then []
    else
      var last := history[|history| - 1];
      PoppedItems(history[..|history| - 1]) + if last.Popped? then [last.item] else []
  }

  /** What a bounded FIFO queue holds after one answer, or nothing if it would not have
      given that answer. */
  function Answer(q: seq<Item>, e: Event, capacity: nat): Option<seq<Item>> {
    match e
    case Pushed(item) => if |q| < capacity then Some(q + [item]) else None
    case PushFull(_) => if |q| == capacity then Some(q) else None
    case Popped(item) => if |q| > 0 && q[0] == item then Some(q[1..]) else None
    case PopEmpty => if |q| == 0 then Some(q) else None
  }

  /** The contents of a bounded FIFO queue after a history, or nothing if some answer in
      it is not the one such a queue gives. */
  function Replay(history: seq<Event>, capacity: nat): Option<seq<Item>> {
    if history == [] then Some([])
    else
      var before := Replay(history[..|history| - 1], capacity);
      if before.None? then None else Answer(before.value, history[|history| - 1], capacity)
  }

  /** A queue that never misbehaved delivers a prefix of what it accepted. */
  lemma {:induction false} ReplayIsFifo(history: seq<Event>, capacity: nat)
    requires Replay(history, capacity).Some?
    ensures PushedItems(history) == PoppedItems(history) + Replay(history, capacity).value
    ensures |Replay(history, capacity).value| <= capacity
  {
    if history != [] {
      ReplayIsFifo(history[..|history| - 1], capacity);
    }
  }

  // ---- The invariant ----

  /** Positions tail .. head hold the items pushed there; the rest of the window is free. */
  ghost predicate Holds(slots: seq<Slot>, head: nat, tail: nat, pushed: seq<Item>) {
    && |slots| > 0 && |pushed| == head
    && tail <= head <= tail + |slots|
    && (forall i :: tail <= i < head ==> slots[SlotOf(i, |slots|)] == Slot(i + 1, pushed[i]))
    && (forall i :: head <= i < tail + |slots| ==> slots[SlotOf(i, |slots|)].turn == i)
  }

  /** The producer is past its turn check: its slot is free and holds the words copied. */
  ghost predicate ProducerOk(s: State, width: nat)
    requires |s.slots| > 0
  {
    match s.producer
    case ProducerIdle => true
    case LoadingTurn(item) => |item| == width
    case StoringWords(item, todo) =>
      && |item| == width && s.head < s.tail + |s.slots|
      && var payload := s.slots[SlotOf(s.head, |s.slots|)].payload;
         |payload| == width && forall k: nat :: k < width && k !in todo ==> payload[k] == item[k]
  }

  /** The consumer is past its turn check: its slot is full and it has the words copied. */
  ghost predicate ConsumerOk(s: State, width: nat, pushed: seq<Item>)
    requires |s.slots| > 0
  {
    match s.consumer
    case ConsumerIdle => true
    case AwaitingTurn => true
    case LoadingWords(got, todo) =>
      && |got| == width && s.tail < s.head <= |pushed| && |pushed[s.tail]| == width
      && forall k: nat :: k < width && k !in todo ==> got[k] == pushed[s.tail][k]
  }

  ghost predicate WideSlots(slots: seq<Slot>, width: nat) {
    forall i :: 0 <= i < |slots| ==> |slots[i].payload| == width
  }

  ghost predicate WideItems(items: seq<Item>, width: nat) {
    forall i :: 0 <= i < |items| ==> |items[i]| == width
  }

  ghost predicate Inv(s: State, width: nat) {
    var pushed := PushedItems(s.history);
    && Holds(s.slots, s.head, s.tail, pushed)
    && WideSlots(s.slots, width) && WideItems(pushed, width)
    && ProducerOk(s, width)
    && ConsumerOk(s, width, pushed)
    && Replay(s.history, |s.slots|) == Some(pushed[s.tail..])
  }

  /** Two positions less than a lap apart share a slot only if they are equal. */
  lemma {:induction false} SlotInjective(i: nat, j: nat, capacity: nat)
    requires capacity > 0 && i < j < i + capacity
    ensures SlotOf(i, capacity) != SlotOf(j, capacity)
  {
    if i >= capacity {
      SlotInjective(i - capacity, j - capacity, capacity);
    } else if j >= capacity {
      assert SlotOf(j, capacity) == j - capacity < i;
    }
  }

  /** Writing the slot of position `p` leaves every other position of the window alone. */
  lemma {:induction false} OthersKept(slots: seq<Slot>, tail: nat, p: nat, slot: Slot)
    requires |slots| > 0 && tail <= p < tail + |slots|
    ensures forall i :: tail <= i < tail + |slots| && i != p ==>
                          slots[SlotOf(p, |slots|) := slot][SlotOf(i, |slots|)] == slots[SlotOf(i, |slots|)]
  {
    forall i | tail <= i < tail + |slots| && i != p
      ensures slots[SlotOf(p, |slots|) := slot][SlotOf(i, |slots|)] == slots[SlotOf(i, |slots|)]
    {
      if i < p {
        SlotInjective(i, p, |slots|);
      } else {
        SlotInjective(p, i, |slots|);
      }
    }
  }

  lemma {:induction false} HistoryGrows(history: seq<Event>, e: Event, capacity: nat)
    ensures Replay(history, capacity).Some? ==>
              Replay(history + [e], capacity) == Answer(Replay(history, capacity).value, e, capacity)
    ensures PushedItems(history + [e])
            == if e.Pushed? then PushedItems(history) + [e.item] else PushedItems(history)
  {
    assert (history + [e])[..|history|] == history;
  }

  /** The turn of the head slot equals the head exactly when the ring has room. */
  lemma {:induction false} PushTurnDecides(slots: seq<Slot>, head: nat, tail: nat, pushed: seq<Item>)
    requires Holds(slots, head, tail, pushed) && |slots| >= 2
    ensures slots[SlotOf(head, |slots|)].turn == head <==> head < tail + |slots|
  {
    if head == tail + |slots| {
      assert SlotOf(head, |slots|) == SlotOf(tail, |slots|);
      assert slots[SlotOf(tail, |slots|)] == Slot(tail + 1, pushed[tail]);
    }
  }

  /** The turn of the tail slot is one past the tail exactly when the ring holds an item. */
  lemma {:induction false} PopTurnDecides(slots: seq<Slot>, head: nat, tail: nat, pushed: seq<Item>)
    requires Holds(slots, head, tail, pushed)
    ensures slots[SlotOf(tail, |slots|)].turn == tail + 1 <==> tail < head
  {
    if tail == head {
      assert slots[SlotOf(tail, |slots|)].turn == tail;
    }
  }

  /** Publishing into the free head slot appends. */
  lemma {:induction false} PublishHolds(slots: seq<Slot>, head: nat, tail: nat, pushed: seq<Item>, item: Item)
    requires Holds(slots, head, tail, pushed) && head < tail + |slots|
    ensures Holds(slots[SlotOf(head, |slots|) := Slot(head + 1, item)], head + 1, tail, pushed + [item])
  {
    OthersKept(slots, tail, head, Slot(head + 1, item));
  }

  /** Releasing the tail slot frees it for the next lap. */
  lemma {:induction false} ReleaseHolds(slots: seq<Slot>, head: nat, tail: nat, pushed: seq<Item>, payload: Item)
    requires Holds(slots, head, tail, pushed) && tail < head
    ensures Holds(slots[SlotOf(tail, |slots|) := Slot(tail + |slots|, payload)], head, tail + 1, pushed)
  {
    var slots' := slots[SlotOf(tail, |slots|) := Slot(tail + |slots|, payload)];
    OthersKept(slots, tail, tail, Slot(tail + |slots|, payload));
    assert SlotOf(tail + |slots|, |slots|) == SlotOf(tail, |slots|);
    forall i | head <= i < tail + 1 + |slots|
      ensures slots'[SlotOf(i, |slots|)].turn == i
    {
    }
  }

  lemma {:induction false} InitInv(capacity: nat, width: nat)
    requires capacity > 0
    ensures Inv(Init(capacity, width), width)
  {
    var s := Init(capacity, width);
    forall i | 0 <= i < capacity
      ensures s.slots[SlotOf(i, capacity)].turn == i
    {
    }
    assert PushedItems(s.history) == [];
  }

  /** Every step of either thread preserves the invariant, at capacity two or more. */
  lemma {:induction false} StepKeepsInv(s: State, step: Step, width: nat)
    requires Inv(s, width) && |s.slots| >= 2
    requires Next(s, step, width).Some?
    ensures Inv(Next(s, step, width).value, width)
  {
    match step
    case CallPush(item) =>
    case LoadPushTurn => LoadPushKeeps(s, width);
    case StoreWord(k) => StoreWordKeeps(s, k, width);
    case PublishTurn => PublishKeeps(s, width);
    case CallPop =>
    case LoadPopTurn => LoadPopKeeps(s, width);
    case LoadWord(k) => LoadWordKeeps(s, k, width);
    case ReleaseTurn => ReleaseKeeps(s, width);
  }

  lemma {:induction false} LoadPushKeeps(s: State, width: nat)
    requires Inv(s, width) && |s.slots| >= 2 && Next(s, LoadPushTurn, width).Some?
    ensures Inv(Next(s, LoadPushTurn, width).value, width)
  {
    PushTurnDecides(s.slots, s.head, s.tail, PushedItems(s.history));
    HistoryGrows(s.history, PushFull(s.producer.item), |s.slots|);
  }

  lemma {:induction false} LoadPopKeeps(s: State, width: nat)
    requires Inv(s, width) && |s.slots| >= 2 && Next(s, LoadPopTurn, width).Some?
    ensures Inv(Next(s, LoadPopTurn, width).value, width)
  {
    PopTurnDecides(s.slots, s.head, s.tail, PushedItems(s.history));
    HistoryGrows(s.history, PopEmpty, |s.slots|);
  }

  lemma {:induction false} StoreWordKeeps(s: State, k: nat, width: nat)
    requires Inv(s, width) && |s.slots| >= 2 && Next(s, StoreWord(k), width).Some?
    ensures Inv(Next(s, StoreWord(k), width).value, width)
  {
    var h := SlotOf(s.head, |s.slots|);
    var slot := s.slots[h].(payload := s.slots[h].payload[k := s.producer.item[k]]);
    OthersKept(s.slots, s.tail, s.head, slot);
  }

  lemma {:induction false} LoadWordKeeps(s: State, k: nat, width: nat)
    requires Inv(s, width) && |s.slots| >= 2 && Next(s, LoadWord(k), width).Some?
    ensures Inv(Next(s, LoadWord(k), width).value, width)
  {
    assert s.slots[SlotOf(s.tail, |s.slots|)] == Slot(s.tail + 1, PushedItems(s.history)[s.tail]);
  }

  lemma {:induction false} PublishKeeps(s: State, width: nat)
    requires Inv(s, width) && |s.slots| >= 2 && Next(s, PublishTurn, width).Some?
    ensures Inv(Next(s, PublishTurn, width).value, width)
  {
    var pushed := PushedItems(s.history);
    var item := s.producer.item;
    HeadSlotFilled(s, width);
    PublishHolds(s.slots, s.head, s.tail, pushed, item);
    HistoryGrows(s.history, Pushed(item), |s.slots|);
    assert (pushed + [item])[s.tail..] == pushed[s.tail..] + [item];
    PublishKeepsConsumer(s, width, pushed, item);
  }

  /** With no word left to copy, the head slot holds the item. */
  lemma {:induction false} HeadSlotFilled(s: State, width: nat)
    requires |s.slots| > 0 && ProducerOk(s, width) && s.producer.StoringWords? && s.producer.todo == {}
    ensures s.slots[SlotOf(s.head, |s.slots|)].payload == s.producer.item && |s.producer.item| == width
    ensures WideSlots(s.slots, width) ==>
              WideSlots(s.slots[SlotOf(s.head, |s.slots|) := Slot(s.head + 1, s.producer.item)], width)
  {
  }

  /** The item being read stays where it was. */
  lemma {:induction false} PublishKeepsConsumer(s: State, width: nat, pushed: seq<Item>, item: Item)
    requires |s.slots| > 0 && ConsumerOk(s, width, pushed) && s.head == |pushed|
    requires Next(s, PublishTurn, width).Some?
    ensures ConsumerOk(Next(s, PublishTurn, width).value, width, pushed + [item])
  {
    if s.consumer.LoadingWords? {
      assert (pushed + [item])[s.tail] == pushed[s.tail];
    }
  }

  lemma {:induction false} ReleaseKeeps(s: State, width: nat)
    requires Inv(s, width) && |s.slots| >= 2 && Next(s, ReleaseTurn, width).Some?
    ensures Inv(Next(s, ReleaseTurn, width).value, width)
  {
    var pushed := PushedItems(s.history);
    var got := s.consumer.got;
    var t := SlotOf(s.tail, |s.slots|);
    var slots' := s.slots[t := Slot(s.tail + |s.slots|, s.slots[t].payload)];
    var s' := State(slots', s.head, s.tail + 1, s.producer, ConsumerIdle, s.history + [Popped(got)]);
    assert Next(s, ReleaseTurn, width) == Some(s');
    WordsRead(s, width, pushed);
    ReleaseHolds(s.slots, s.head, s.tail, pushed, s.slots[t].payload);
    HistoryGrows(s.history, Popped(got), |s.slots|);
    TailAdvances(pushed, s.tail, got, |s.slots|);
    ReleaseKeepsProducer(s, width);
  }

  /** With no word left to copy, the consumer has the oldest item. */
  lemma {:induction false} WordsRead(s: State, width: nat, pushed: seq<Item>)
    requires |s.slots| > 0 && ConsumerOk(s, width, pushed) && s.consumer.LoadingWords? && s.consumer.todo == {}
    ensures s.tail < |pushed| && s.consumer.got == pushed[s.tail]
    ensures var t := SlotOf(s.tail, |s.slots|);
            WideSlots(s.slots, width) ==>
              WideSlots(s.slots[t := Slot(s.tail + |s.slots|, s.slots[t].payload)], width)
  {
  }

  /** Freeing the tail slot leaves the slot the producer is filling alone. */
  lemma {:induction false} ReleaseKeepsProducer(s: State, width: nat)
    requires |s.slots| > 0 && s.tail <= s.head <= s.tail + |s.slots| && ProducerOk(s, width)
    requires Next(s, ReleaseTurn, width).Some? && s.tail < s.head
    ensures ProducerOk(Next(s, ReleaseTurn, width).value, width)
  {
    if s.producer.StoringWords? {
      SlotInjective(s.tail, s.head, |s.slots|);
    }
  }

  lemma {:induction false} TailAdvances(pushed: seq<Item>, tail: nat, got: Item, capacity: nat)
    requires tail < |pushed| && pushed[tail] == got
    ensures Answer(pushed[tail..], Popped(got), capacity) == Some(pushed[tail + 1..])
  {
    assert pushed[tail..][1..] == pushed[tail + 1..];
  }

  // ---- Every run ----

  lemma {:induction false} RunKeepsInv(capacity: nat, width: nat, steps: seq<Step>)
    requires capacity >= 2 && Run(capacity, width, steps).Some?
    ensures Inv(Run(capacity, width, steps).value, width)
  {
    if steps == [] {
      InitInv(capacity, width);
    } else {
      var before := steps[..|steps| - 1];
      RunKeepsInv(capacity, width, before);
      StepKeepsInv(Run(capacity, width, before).value, steps[|steps| - 1], width);
    }
  }

  /** The ring refines a bounded FIFO queue. In every interleaving, the answers the two
      threads received are those of a queue of that capacity: nothing is lost, repeated,
      reordered or torn, and what was popped is a prefix of what was pushed. */
  lemma {:induction false} RingIsBoundedFifo(capacity: nat, width: nat, steps: seq<Step>)
    requires capacity >= 2 && Run(capacity, width, steps).Some?
    ensures var s := Run(capacity, width, steps).value;
            && Replay(s.history, capacity).Some?
            && PoppedItems(s.history) <= PushedItems(s.history)
            && |Replay(s.history, capacity).value| == s.head - s.tail
  {
    RunKeepsInv(capacity, width, steps);
    ReplayIsFifo(Run(capacity, width, steps).value.history, capacity);
  }

  /** The two threads are never inside the same slot: the producer past its turn check and
      the consumer past its own work on different slots. */
  lemma {:induction false} NeverInTheSameSlot(capacity: nat, width: nat, steps: seq<Step>)
    requires capacity >= 2 && Run(capacity, width, steps).Some?
    ensures var s := Run(capacity, width, steps).value;
            s.producer.StoringWords? && s.consumer.LoadingWords? ==>
              SlotOf(s.head, capacity) != SlotOf(s.tail, capacity)
  {
    RunKeepsInv(capacity, width, steps);
    var s := Run(capacity, width, steps).value;
    if s.producer.StoringWords? && s.consumer.LoadingWords? {
      SlotInjective(s.tail, s.head, capacity);
    }
  }

  /** What the turn loads decide: a push is refused exactly when `capacity` items are held
      at that moment, a pop exactly when none is. */
  lemma {:induction false} RefusalMeansFullOrEmpty(capacity: nat, width: nat, steps: seq<Step>)
    requires capacity >= 2 && Run(capacity, width, steps).Some?
    ensures var s := Run(capacity, width, steps).value;
            && (s.producer.LoadingTurn? ==>
                  (Next(s, LoadPushTurn, width).value.producer.ProducerIdle? <==> s.head - s.tail == capacity))
            && (s.consumer.AwaitingTurn? ==>
                  (Next(s, LoadPopTurn, width).value.consumer.ConsumerIdle? <==> s.head == s.tail))
  {
    RunKeepsInv(capacity, width, steps);
    var s := Run(capacity, width, steps).value;
    if s.producer.LoadingTurn? {
      PushTurnDecides(s.slots, s.head, s.tail, PushedItems(s.history));
    }
    PopTurnDecides(s.slots, s.head, s.tail, PushedItems(s.history));
  }

  // ---- Capacity one ----

  lemma {:induction false} RunAppends(capacity: nat, width: nat, steps: seq<Step>, step: Step)
    requires capacity > 0
    ensures Run(capacity, width, steps + [step])
            == if Run(capacity, width, steps).None? then None
               else Next(Run(capacity, width, steps).value, step, width)
  {
    assert (steps + [step])[..|steps|] == steps;
  }

  /** A one-slot ring accepts a second item over the first: the published turn of the only
      slot is already the turn the next push waits for. */
  lemma {:induction false} CapacityOneOverwrites() returns (steps: seq<Step>)
    ensures Run(1, 1, steps).Some?
    ensures Run(1, 1, steps).value.history == [Pushed([7]), Pushed([8])]
    ensures Replay(Run(1, 1, steps).value.history, 1) == None
  {
    var s0 := Init(1, 1);
    steps := [];
    assert Run(1, 1, steps) == Some(s0);
    var s := s0;
    steps, s := Take1(steps, s, CallPush([7]));
    steps, s := Take1(steps, s, LoadPushTurn);
    steps, s := Take1(steps, s, StoreWord(0));
    assert s.producer.todo == {};
    steps, s := Take1(steps, s, PublishTurn);
    steps, s := Take1(steps, s, CallPush([8]));
    steps, s := Take1(steps, s, LoadPushTurn);
    steps, s := Take1(steps, s, StoreWord(0));
    assert s.producer.todo == {};
    steps, s := Take1(steps, s, PublishTurn);
    HistoryGrows([], Pushed([7]), 1);
    HistoryGrows([Pushed([7])], Pushed([8]), 1);
    assert [] + [Pushed([7])] == [Pushed([7])];
    assert [Pushed([7])] + [Pushed([8])] == [Pushed([7]), Pushed([8])];
  }

  lemma {:induction false} Take1(steps: seq<Step>, s: State, step: Step) returns (steps': seq<Step>, s': State)
    requires Run(1, 1, steps) == Some(s) && |s.slots| == 1 && Next(s, step, 1).Some?
    ensures steps' == steps + [step] && Run(1, 1, steps') == Some(s') && |s'.slots| == 1
    ensures Next(s, step, 1) == Some(s')
  {
    RunAppends(1, 1, steps, step);
    steps', s' := steps + [step], Next(s, step, 1).value;
  }

  /** Every interleaving is that of a bounded FIFO queue exactly when the ring has at
      least two slots. */
  lemma {:induction false} FifoExactlyFromTwo(capacity: nat)
    requires capacity >= 1
    ensures (forall width: nat, steps: seq<Step> :: Run(capacity, width, steps).Some? ==>
                                                      Replay(Run(capacity, width, steps).value.history, capacity).Some?)
            <==> capacity >= 2
  {
    if capacity >= 2 {
      forall width: nat, steps: seq<Step> | Run(capacity, width, steps).Some?
        ensures Replay(Run(capacity, width, steps).value.history, capacity).Some?
      {
        RingIsBoundedFifo(capacity, width, steps);
      }
    } else {
      var steps := CapacityOneOverwrites();
      assert Run(1, 1, steps).Some?;
    }
  }

  // ---- The operations, uninterrupted ----

  /** A ring of one slot: its turn is always the one the next push waits for, so a push never
      waits, and what was last pushed lies over everything before it. */
  ghost predicate HoldsOne(slots: seq<Slot>, head: nat, tail: nat, pushed: seq<Item>) {
    && |slots| == 1 && tail <= head == |pushed| && slots[0].turn == head
    && (head > 0 ==> slots[0].payload == pushed[head - 1])
  }

  /** The ring with both handles, for callers that do not overlap. */
  class SpscRing {
    const slots: array<Slot>
    var head: nat
    var tail: nat
    /** Every item ever accepted. */
    ghost var pushed: seq<Item>

    ghost predicate Valid()
      reads this, slots
    {
      HoldsOne(slots[..], head, tail, pushed) || (slots.Length >= 2 && Holds(slots[..], head, tail, pushed))
    }

    /** The items accepted and not yet delivered, oldest first. */
    ghost function Contents(): seq<Item>
      requires Valid()
      reads this, slots
    {
      pushed[tail..]
    }

    constructor (capacity: nat)
      requires capacity >= 1
      ensures Valid() && Contents() == [] && slots.Length == capacity && fresh(slots)
    {
      slots := new Slot[capacity](i requires i >= 0 => Slot(i, []));
      head, tail, pushed := 0, 0, [];
      new;
      forall i | 0 <= i < capacity
        ensures slots[..][SlotOf(i, capacity)].turn == i
      {
      }
    }

    /** Append an item, or refuse it because the ring is full. A ring of one slot refuses
        nothing, and then holds items it can no longer deliver. */
    method TryPush(item: Item) returns (accepted: bool)
      requires Valid()
      modifies this, slots
      ensures Valid()
      ensures accepted <==> |old(Contents())| < slots.Length || slots.Length == 1
      ensures Contents() == if accepted then old(Contents()) + [item] else old(Contents())
    {
      var idx := SlotOf(head, slots.Length);
      ghost var before, were := slots[..], pushed;
      PushAnswer(before, head, tail, pushed);
      if slots[idx].turn == head {
        if slots.Length >= 2 {
          PublishHolds(before, head, tail, pushed, item);
        }
        slots[idx] := slots[idx].(payload := item);
        slots[idx] := slots[idx].(turn := head + 1);
        assert slots[..] == before[idx := Slot(head + 1, item)];
        head, pushed := head + 1, pushed + [item];
        assert pushed[tail..] == were[tail..] + [item];
        accepted := true;
      } else {
        accepted := false;
      }
    }

    /** Deliver the oldest item, or nothing because the ring is empty. A ring of one slot
        delivers only while it holds exactly one item. */
    method TryPop() returns (item: Option<Item>)
      requires Valid()
      modifies this, slots
      ensures Valid()
      ensures item == if Delivers(old(Contents()), slots.Length) then Some(old(Contents())[0]) else None
      ensures Contents() == if Delivers(old(Contents()), slots.Length) then old(Contents())[1..] else old(Contents())
    {
      var idx := SlotOf(tail, slots.Length);
      ghost var before := slots[..];
      PopAnswer(before, head, tail, pushed);
      if slots[idx].turn == tail + 1 {
        var got := slots[idx].payload;
        if slots.Length >= 2 {
          ReleaseHolds(before, head, tail, pushed, got);
        }
        slots[idx] := slots[idx].(turn := tail + slots.Length);
        assert slots[..] == before[idx := Slot(tail + slots.Length, got)];
        tail := tail + 1;
        item := Some(got);
      } else {
        item := None;
      }
    }
  }

  /** A pop delivers when something is held, and in a ring of one slot exactly one item. */
  predicate Delivers(held: seq<Item>, capacity: nat) {
    held != [] && (capacity == 1 ==> |held| == 1)
  }

  lemma {:induction false} PushAnswer(slots: seq<Slot>, head: nat, tail: nat, pushed: seq<Item>)
    requires HoldsOne(slots, head, tail, pushed) || (|slots| >= 2 && Holds(slots, head, tail, pushed))
    ensures tail <= |pushed|
    ensures slots[SlotOf(head, |slots|)].turn == head <==> |pushed[tail..]| < |slots| || |slots| == 1
  {
    if |slots| >= 2 {
      PushTurnDecides(slots, head, tail, pushed);
    }
  }

  lemma {:induction false} PopAnswer(slots: seq<Slot>, head: nat, tail: nat, pushed: seq<Item>)
    requires HoldsOne(slots, head, tail, pushed) || (|slots| >= 2 && Holds(slots, head, tail, pushed))
    ensures tail <= |pushed|
    ensures slots[SlotOf(tail, |slots|)].turn == tail + 1 <==> Delivers(pushed[tail..], |slots|)
    ensures Delivers(pushed[tail..], |slots|) ==> slots[SlotOf(tail, |slots|)].payload == pushed[tail]
  {
    if |slots| >= 2 {
      PopTurnDecides(slots, head, tail, pushed);
    }
  }
}
