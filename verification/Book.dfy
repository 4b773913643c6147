/** The levels a venue quotes for an outcome: fixed capacity, sorted best first, and stale whenever
    the sequence of updates has been broken. */
module Book {
  import opened Price
  import opened Quotes

  predicate SortedByPrice(levels: seq<Level>) {
    forall i, j :: 0 <= i < j < |levels| ==> levels[i].price <= levels[j].price
  }

  /** The same levels, best first. Ties may be in any order. */
  predicate Arranged(levels: seq<Level>, raw: seq<Level>) {
    SortedByPrice(levels) && multiset(levels) == multiset(raw)
  }

  /** Put one more level behind every level at least as good. */
  method Insert(sorted: seq<Level>, level: Level) returns (r: seq<Level>)
    requires SortedByPrice(sorted)
    ensures Arranged(r, sorted + [level])
  {
    var k := 0;
    while k < |sorted| && sorted[k].price <= level.price
      invariant 0 <= k <= |sorted|
      invariant forall j :: 0 <= j < k ==> sorted[j].price <= level.price
    {
      k := k + 1;
    }
    r := sorted[..k] + [level] + sorted[k..];
    InsertedSame(sorted, level, k);
    InsertedSorted(sorted, level, k);
  }

  /** Nothing is lost or added. */
  lemma {:induction false} InsertedSame(sorted: seq<Level>, level: Level, k: nat)
    requires k <= |sorted|
    ensures multiset(sorted[..k] + [level] + sorted[k..]) == multiset(sorted + [level])
  {
    assert sorted == sorted[..k] + sorted[k..];
  }

  /** The order holds around the place of the new level. */
  lemma {:induction false} InsertedSorted(sorted: seq<Level>, level: Level, k: nat)
    requires SortedByPrice(sorted) && k <= |sorted|
    requires forall j :: 0 <= j < k ==> sorted[j].price <= level.price
    requires forall j :: k <= j < |sorted| ==> level.price <= sorted[j].price
    ensures SortedByPrice(sorted[..k] + [level] + sorted[k..])
  {
    var front, back := sorted[..k] + [level], sorted[k..];
    assert SortedByPrice(front) && SortedByPrice(back);
    forall i, j | 0 <= i < |front| && 0 <= j < |back|
      ensures front[i].price <= back[j].price
    {
      assert back[j] == sorted[k + j];
    }
  }

  method SortByPrice(raw: seq<Level>) returns (sorted: seq<Level>)
    ensures Arranged(sorted, raw) && |sorted| == |raw|
  {
    sorted := [];
    for i := 0 to |raw|
      invariant Arranged(sorted, raw[..i])
    {
      ghost var before := sorted;
      sorted := Insert(sorted, raw[i]);
      assert raw[..i + 1] == raw[..i] + [raw[i]];
      assert multiset(sorted) == multiset(before) + multiset{raw[i]};
    }
    assert raw[..|raw|] == raw;
    assert |multiset(sorted)| == |sorted| && |multiset(raw)| == |raw|;
  }

  /** What a book tells its readers. */
  datatype BookState = BookState(stale: bool, lastSeq: nat, levels: seq<Level>)

  function Size(levels: seq<Level>, limit: Prob): int {
    if levels == [] then 0
    else Size(levels[..|levels| - 1], limit)
         + if levels[|levels| - 1].price <= limit then levels[|levels| - 1].size else 0
  }

  /** Beyond a price that is too short, a sorted book holds nothing within the limit. */
  lemma {:induction false} NothingBehind(levels: seq<Level>, limit: Prob, k: nat)
    requires SortedByPrice(levels) && k < |levels| && levels[k].price > limit
    ensures Size(levels, limit) == Size(levels[..k], limit)
  {
    var init := levels[..|levels| - 1];
    if k < |init| {
      NothingBehind(init, limit, k);
      assert init[..k] == levels[..k];
    }
  }

  class OutcomeBook {
    const slots: array<Level>
    var len: nat
    var stale: bool
    var lastSeq: nat

    ghost predicate Valid()
      reads this, slots
    {
      slots.Length == MAX_LEVELS && len <= MAX_LEVELS && SortedByPrice(slots[..len])
    }

    ghost function State(): BookState
      reads this, slots
      requires Valid()
    {
      BookState(stale, lastSeq, if stale then [] else slots[..len])
    }

    /** A new book knows nothing, which is not the same as being empty. */
    constructor ()
      ensures Valid() && fresh(slots) && State() == BookState(true, 0, [])
    {
      slots := new Level[MAX_LEVELS](_ => Level(PPM, 0));
      len, stale, lastSeq := 0, true, 0;
    }

    /** Replace the whole book, dropping what does not fit, and trust it. */
    method ApplySnapshot(levels: seq<Level>, seqNo: nat)
      requires Valid()
      modifies this, slots
      ensures Valid() && !stale && lastSeq == seqNo
      ensures Arranged(State().levels, if |levels| <= MAX_LEVELS then levels else levels[..MAX_LEVELS])
    {
      var take := if |levels| <= MAX_LEVELS then |levels| else MAX_LEVELS;
      var sorted := SortByPrice(levels[..take]);
      forall i | 0 <= i < take {
        slots[i] := sorted[i];
      }
      assert slots[..take] == sorted;
      len, lastSeq, stale := take, seqNo, false;
      assert levels[..|levels|] == levels;
    }

    /** Accept the next update in sequence, or go stale for good. */
    method AcceptSeq(seqNo: nat) returns (ok: bool)
      requires Valid()
      modifies this`len, this`stale, this`lastSeq
      ensures Valid() && ok == (!old(stale) && seqNo == old(lastSeq) + 1)
      ensures ok ==> State() == old(State()).(lastSeq := seqNo)
      ensures !ok ==> State() == BookState(true, old(lastSeq), [])
    {
      if stale || seqNo != lastSeq + 1 {
        stale, len := true, 0;
        return false;
      }
      lastSeq := seqNo;
      return true;
    }

    method MarkStale()
      requires Valid()
      modifies this`len, this`stale
      ensures Valid() && State() == BookState(true, lastSeq, [])
    {
      stale, len := true, 0;
    }

    /** The best level: no level on the book has a longer price. */
    method Best() returns (best: Option<Level>)
      requires Valid()
      ensures best.None? <==> State().levels == []
      ensures best.Some? ==>
                best.value in State().levels && forall l :: l in State().levels ==> best.value.price <= l.price
    {
      if stale || len == 0 {
        return None;
      }
      assert slots[0] == slots[..len][0];
      return Some(slots[0]);
    }

    /** The stake absorbable within a limit: stopping at the first price beyond it misses
        nothing. */
    method DepthTo(limit: Prob) returns (depth: int)
      requires Valid()
      ensures depth == Size(State().levels, limit)
    {
      depth := 0;
      if stale {
        return;
      }
      ghost var levels := slots[..len];
      var i := 0;
      while i < len && slots[i].price <= limit
        invariant 0 <= i <= len && depth == Size(levels[..i], limit)
      {
        assert levels[..i + 1][..i] == levels[..i];
        depth := depth + slots[i].size;
        i := i + 1;
      }
      if i < len {
        NothingBehind(levels, limit, i);
      }
      assert levels[..len] == levels;
    }
  }
}
