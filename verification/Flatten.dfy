/** Flattening several books into the chunks one plan may stake into: first the best
    usable level of every outcome, then the rest of the depth while chunks last. */
module Flatten {
  import opened Arith
  import opened Price
  import opened Fees
  import opened WaterFill
  import opened Quotes

  /** A level of a leg: the leg's index and the level's. */
  type Slot = (nat, nat)

  /** How many of a leg's levels are looked at. */
  function UsableLevels(leg: BookLeg): nat {
    Min(leg.nLevels, MAX_LEVELS)
  }

  /** A level's quote with its book's fee applied. */
  function EffectivePpm(leg: BookLeg, l: nat): Prob
    requires l < MAX_LEVELS
  {
    Effective(leg.fee, leg.levels[l].price)
  }

  /** The whole increments in a level's depth, if there is at least one.
      For a negative depth the floor differs from truncation, but neither is tradeable. */
  function UsableCapacity(leg: BookLeg, l: nat): Option<int>
    requires l < MAX_LEVELS
  {
    if leg.increment <= 0 then None
    else if RoundDownTo(leg.levels[l].size, leg.increment) < leg.increment then None
    else Some(RoundDownTo(leg.levels[l].size, leg.increment))
  }

  /** Whether a slot exists and can take a stake. */
  predicate Usable(legs: seq<BookLeg>, s: Slot) {
    s.0 < |legs| && s.1 < UsableLevels(legs[s.0]) && UsableCapacity(legs[s.0], s.1).Some?
  }

  function SlotPrice(legs: seq<BookLeg>, s: Slot): Prob
    requires Usable(legs, s)
  {
    EffectivePpm(legs[s.0], s.1)
  }

  /** Scan order: legs first, levels within a leg. */
  predicate Before(s: Slot, t: Slot) {
    s.0 < t.0 || (s.0 == t.0 && s.1 < t.1)
  }

  /** The chunk of a slot. */
  function ChunkOf(legs: seq<BookLeg>, groupOf: seq<nat>, s: Slot): Chunk
    requires Usable(legs, s) && |legs| <= |groupOf|
  {
    var leg := legs[s.0];
    ChunkData(s.0, groupOf[s.0], SlotPrice(legs, s), leg.increment,
              UsableCapacity(leg, s.1).value, leg.levels[s.1].size)
  }

  /** The best usable slot of an outcome: no usable slot of the outcome is cheaper, and
      none scanned before it is as cheap. */
  ghost predicate IsBestSlot(legs: seq<BookLeg>, groupOf: seq<nat>, group: nat, s: Slot)
    requires |legs| <= |groupOf|
  {
    && Usable(legs, s) && groupOf[s.0] == group
    && forall t: Slot :: Usable(legs, t) && groupOf[t.0] == group ==>
                           && SlotPrice(legs, s) <= SlotPrice(legs, t)
                           && (Before(t, s) ==> SlotPrice(legs, s) < SlotPrice(legs, t))
  }

  /** The usable slots not in `taken` among the first `l` levels of leg `i`, in order. */
  function LegRest(legs: seq<BookLeg>, taken: set<Slot>, i: nat, l: nat): seq<Slot>
    requires i < |legs| && l <= UsableLevels(legs[i])
  {
    if l == 0 then []
    else LegRest(legs, taken, i, l - 1)
         + if Usable(legs, (i, l - 1)) && (i, l - 1) !in taken then [(i, l - 1)] else []
  }

  /** The same over the first `n` legs. */
  function Rest(legs: seq<BookLeg>, taken: set<Slot>, n: nat): seq<Slot>
    requires n <= |legs|
  {
    if n == 0 then []
    else Rest(legs, taken, n - 1) + LegRest(legs, taken, n - 1, UsableLevels(legs[n - 1]))
  }

  /** Slots in scan order, each usable and not taken before. */
  ghost predicate Scanned(legs: seq<BookLeg>, taken: set<Slot>, r: seq<Slot>) {
    && (forall k :: 0 <= k < |r| ==> Usable(legs, r[k]) && r[k] !in taken)
    && (forall a, b :: 0 <= a < b < |r| ==> Before(r[a], r[b]))
  }

  lemma {:induction false} LegRestScanned(legs: seq<BookLeg>, taken: set<Slot>, i: nat, l: nat)
    requires i < |legs| && l <= UsableLevels(legs[i])
    ensures Scanned(legs, taken, LegRest(legs, taken, i, l))
    ensures forall s :: s in LegRest(legs, taken, i, l) ==> s.0 == i && s.1 < l
  {
    if l > 0 {
      LegRestScanned(legs, taken, i, l - 1);
    }
  }

  lemma {:induction false} RestScanned(legs: seq<BookLeg>, taken: set<Slot>, n: nat)
    requires n <= |legs|
    ensures Scanned(legs, taken, Rest(legs, taken, n))
    ensures forall s :: s in Rest(legs, taken, n) ==> s.0 < n
  {
    if n > 0 {
      RestScanned(legs, taken, n - 1);
      LegRestScanned(legs, taken, n - 1, UsableLevels(legs[n - 1]));
    }
  }

  /** The first `k` slots of a sequence, or all of them. */
  function Take(slots: seq<Slot>, k: nat): seq<Slot> {
    if |slots| <= k then slots else slots[..k]
  }

  function SlotSet(slots: seq<Slot>): set<Slot> {
    set s | s in slots
  }

  /** What the flattening selects: the best slot of every outcome, in outcome order, then
      every other usable slot in scan order until the chunks run out. */
  ghost predicate IsFlattening(legs: seq<BookLeg>, groupOf: seq<nat>, nGroups: nat, slots: seq<Slot>)
    requires |legs| <= |groupOf|
  {
    && nGroups <= |slots|
    && nGroups <= MAX_CHUNKS
    && (forall g :: 0 <= g < nGroups ==> IsBestSlot(legs, groupOf, g, slots[g]))
    && slots[nGroups..] == Take(Rest(legs, SlotSet(slots[..nGroups]), |legs|), MAX_CHUNKS - nGroups)
  }

  /** The chunks of a sequence of slots. */
  function ChunksOf(legs: seq<BookLeg>, groupOf: seq<nat>, slots: seq<Slot>): seq<Chunk>
    requires |legs| <= |groupOf| && forall k :: 0 <= k < |slots| ==> Usable(legs, slots[k])
  {
    seq(|slots|, k requires 0 <= k < |slots| => ChunkOf(legs, groupOf, slots[k]))
  }

  /** A flattening never takes a level twice, and takes none that is not usable. */
  lemma {:induction false} FlatteningDistinct(legs: seq<BookLeg>, groupOf: seq<nat>, nGroups: nat, slots: seq<Slot>)
    requires |legs| <= |groupOf| && IsFlattening(legs, groupOf, nGroups, slots)
    ensures |slots| <= MAX_CHUNKS
    ensures forall k :: 0 <= k < |slots| ==> Usable(legs, slots[k])
    ensures forall a, b :: 0 <= a < b < |slots| ==> slots[a] != slots[b]
  {
    var taken := SlotSet(slots[..nGroups]);
    var rest := Rest(legs, taken, |legs|);
    RestScanned(legs, taken, |legs|);
    assert slots == slots[..nGroups] + slots[nGroups..];
    forall k | 0 <= k < |slots|
      ensures Usable(legs, slots[k])
      ensures k >= nGroups ==> slots[k] == rest[k - nGroups]
    {
      if k < nGroups {
        assert IsBestSlot(legs, groupOf, k, slots[k]);
      } else {
        assert slots[k] == slots[nGroups..][k - nGroups];
      }
    }
    forall a, b | 0 <= a < b < |slots|
      ensures slots[a] != slots[b]
    {
      if b < nGroups {
        assert IsBestSlot(legs, groupOf, a, slots[a]) && IsBestSlot(legs, groupOf, b, slots[b]);
      } else if a < nGroups {
        assert slots[a] in taken;
      } else {
        assert Before(rest[a - nGroups], rest[b - nGroups]);
      }
    }
  }

  /** Pass one for one outcome: its best usable level. */
  method BestOfGroup(legs: seq<BookLeg>, groupOf: seq<nat>, group: nat) returns (best: Option<Slot>)
    requires |legs| <= |groupOf|
    ensures best.Some? ==> IsBestSlot(legs, groupOf, group, best.value)
    ensures best.None? ==> forall t: Slot :: Usable(legs, t) ==> groupOf[t.0] != group
  {
    best := None;
    for i := 0 to |legs|
      invariant BestBefore(legs, groupOf, group, (i, 0), best)
    {
      if groupOf[i] == group {
        best := BestOfLeg(legs, groupOf, group, i, best);
      }
    }
  }

  /** Scan one leg of the outcome. */
  method BestOfLeg(legs: seq<BookLeg>, groupOf: seq<nat>, group: nat, i: nat, incumbent: Option<Slot>)
    returns (best: Option<Slot>)
    requires |legs| <= |groupOf| && i < |legs| && groupOf[i] == group
    requires BestBefore(legs, groupOf, group, (i, 0), incumbent)
    ensures BestBefore(legs, groupOf, group, (i + 1, 0), best)
  {
    best := incumbent;
    for l := 0 to UsableLevels(legs[i])
      invariant BestBefore(legs, groupOf, group, (i, l), best)
    {
      if UsableCapacity(legs[i], l).Some? {
        var price := EffectivePpm(legs[i], l);
        if best.None? || price < SlotPrice(legs, best.value) {
          best := Some((i, l));
        }
      }
    }
  }

  /** The best slot of the group among those scanned before `end`. */
  ghost predicate BestBefore(legs: seq<BookLeg>, groupOf: seq<nat>, group: nat, end: Slot, best: Option<Slot>)
    requires |legs| <= |groupOf|
  {
    && (best.None? ==> forall t: Slot :: Usable(legs, t) && Before(t, end) ==> groupOf[t.0] != group)
    && (best.Some? ==>
          && Usable(legs, best.value) && groupOf[best.value.0] == group && Before(best.value, end)
          && forall t: Slot :: Usable(legs, t) && groupOf[t.0] == group && Before(t, end) ==>
                                 && SlotPrice(legs, best.value) <= SlotPrice(legs, t)
                                 && (Before(t, best.value) ==> SlotPrice(legs, best.value) < SlotPrice(legs, t)))
  }

  /** Pass one: the best level of every outcome, or the first outcome that has none. */
  method PassOne(legs: seq<BookLeg>, groupOf: seq<nat>, nGroups: nat)
    returns (slots: seq<Slot>, missing: Option<nat>)
    requires |legs| <= |groupOf|
    ensures missing.None? ==>
              |slots| == nGroups && forall g :: 0 <= g < nGroups ==> IsBestSlot(legs, groupOf, g, slots[g])
    ensures missing.Some? ==>
              missing.value < nGroups && forall t: Slot :: Usable(legs, t) ==> groupOf[t.0] != missing.value
  {
    slots := [];
    for group := 0 to nGroups
      invariant |slots| == group && forall g :: 0 <= g < group ==> IsBestSlot(legs, groupOf, g, slots[g])
    {
      var best := BestOfGroup(legs, groupOf, group);
      if best.None? {
        return slots, Some(group);
      }
      slots := slots + [best.value];
    }
    missing := None;
  }

  /** Pass two: levels not yet taken, in scan order, while chunks are left. */
  method PassTwo(legs: seq<BookLeg>, groupOf: seq<nat>, best: seq<Slot>) returns (slots: seq<Slot>)
    requires |legs| <= |groupOf| && |best| <= MAX_CHUNKS
    ensures slots == best + Take(Rest(legs, SlotSet(best), |legs|), MAX_CHUNKS - |best|)
  {
    slots := best;
    var taken := SlotSet(best);
    ghost var given := taken;
    for i := 0 to |legs|
      invariant slots == best + Take(Rest(legs, given, i), MAX_CHUNKS - |best|)
      invariant AgreeFrom(taken, given, (i, 0))
    {
      slots, taken := TakeLeg(legs, i, slots, taken, best, given, Rest(legs, given, i));
    }
  }

  /** From a slot on, nothing has been taken since. */
  ghost predicate AgreeFrom(taken: set<Slot>, given: set<Slot>, s: Slot) {
    forall t: Slot :: !Before(t, s) ==> (t in taken <==> t in given)
  }

  lemma {:induction false} AgreeFurther(taken: set<Slot>, given: set<Slot>, s: Slot, next: Slot)
    requires AgreeFrom(taken, given, s) && Before(s, next)
    ensures AgreeFrom(taken, given, next) && AgreeFrom(taken + {s}, given, next)
  {
  }

  /** Take what one leg adds, stopping when the chunks run out. */
  method TakeLeg(
    legs: seq<BookLeg>, i: nat, slots: seq<Slot>, taken: set<Slot>,
    ghost best: seq<Slot>, ghost given: set<Slot>, ghost before: seq<Slot>)
    returns (slots': seq<Slot>, taken': set<Slot>)
    requires i < |legs| && |best| <= MAX_CHUNKS
    requires slots == best + Take(before, MAX_CHUNKS - |best|)
    requires AgreeFrom(taken, given, (i, 0))
    ensures slots' == best + Take(before + LegRest(legs, given, i, UsableLevels(legs[i])), MAX_CHUNKS - |best|)
    ensures AgreeFrom(taken', given, (i + 1, 0))
  {
    slots', taken' := slots, taken;
    ghost var room := MAX_CHUNKS - |best|;
    ghost var added: seq<Slot> := [];
    assert before + added == before;
    var l := 0;
    while l < UsableLevels(legs[i]) && |slots'| < MAX_CHUNKS
      invariant 0 <= l <= UsableLevels(legs[i])
      invariant added == LegRest(legs, given, i, l) && slots' == best + Take(before + added, room)
      invariant AgreeFrom(taken', given, (i, l))
    {
      AgreeFurther(taken', given, (i, l), (i, l + 1));
      if (i, l) !in taken' && UsableCapacity(legs[i], l).Some? {
        OneMoreTaken(before, added, (i, l), room);
        added := added + [(i, l)];
        slots' := slots' + [(i, l)];
        taken' := taken' + {(i, l)};
      }
      l := l + 1;
    }
    if |slots'| == MAX_CHUNKS {
      FullStays(legs, given, i, l, before, room);
    }
    AgreeFurther(taken', given, (i, l), (i + 1, 0));
  }

  lemma {:induction false} OneMoreTaken(before: seq<Slot>, added: seq<Slot>, s: Slot, room: nat)
    requires |Take(before + added, room)| < room
    ensures Take(before + (added + [s]), room) == Take(before + added, room) + [s]
  {
    assert before + (added + [s]) == (before + added) + [s];
  }

  /** Once the chunks have run out, scanning the rest of a leg adds nothing. */
  lemma {:induction false} FullStays(legs: seq<BookLeg>, taken: set<Slot>, i: nat, l: nat, before: seq<Slot>, room: nat)
    requires i < |legs| && l <= UsableLevels(legs[i])
    requires |Take(before + LegRest(legs, taken, i, l), room)| == room
    ensures Take(before + LegRest(legs, taken, i, UsableLevels(legs[i])), room)
            == Take(before + LegRest(legs, taken, i, l), room)
    decreases UsableLevels(legs[i]) - l
  {
    if l < UsableLevels(legs[i]) {
      assert (before + LegRest(legs, taken, i, l + 1))[..room] == (before + LegRest(legs, taken, i, l))[..room];
      FullStays(legs, taken, i, l + 1, before, room);
    }
  }
}
