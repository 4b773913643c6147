/** The engine's books, addressed by market, outcome and venue in one flat array, and how
    feed events change them. */
module Slab {
  import opened Price
  import opened Quotes
  import opened Book

  const MAX_OUTCOMES := 4
  const MAX_VENUES := 8

  /** Where a book lives. */
  datatype Address = Address(market: nat, outcome: nat, venue: nat)

  type Depth = levels: seq<Level> | |levels| == MAX_LEVELS
    witness seq(MAX_LEVELS, _ => Level(PPM, 0))

  datatype FeedEvent =
    | Snapshot(at: Address, seqNo: nat, levels: Depth, numLevels: nat)
    | Delta(at: Address, seqNo: nat, level: Level, isDelete: bool)
    | Trade(market: nat)
    | Halt(market: nat, outcome: Option<nat>, venue: nat)
    | Heartbeat

  // ---- Addressing ----

  predicate InRange(a: Address, markets: nat) {
    a.market < markets && a.outcome < MAX_OUTCOMES && a.venue < MAX_VENUES
  }

  /** The position of a book, or nothing when the address is out of range. */
  function FlatIndex(a: Address, markets: nat): Option<nat> {
    if InRange(a, markets) then Some((a.market * MAX_OUTCOMES + a.outcome) * MAX_VENUES + a.venue) else None
  }

  /** Addresses in range take up the whole array, no two of them the same place. */
  lemma {:induction false} FlatIndexBijective(markets: nat, a: Address, i: nat)
    ensures InRange(a, markets) ==>
              && FlatIndex(a, markets).value < markets * MAX_OUTCOMES * MAX_VENUES
              && Unflatten(FlatIndex(a, markets).value) == a
    ensures i < markets * MAX_OUTCOMES * MAX_VENUES ==>
              InRange(Unflatten(i), markets) && FlatIndex(Unflatten(i), markets) == Some(i)
  {
    if InRange(a, markets) {
      Digits(a.market, a.outcome, a.venue, (a.market * 4 + a.outcome) * 8 + a.venue);
    }
    Digits(i / 32, i / 8 % 4, i % 8, i);
  }

  /** A position is a market, an outcome and a venue written as digits. */
  lemma {:induction false} Digits(m: int, o: int, v: int, i: int)
    requires 0 <= o < 4 && 0 <= v < 8
    ensures i == (m * 4 + o) * 8 + v <==> m == i / 32 && o == i / 8 % 4 && v == i % 8
  {
    assert i == i / 8 * 8 + i % 8;
    assert i / 8 == i / 32 * 4 + i / 8 % 4;
  }

  function Unflatten(i: nat): Address {
    Address(i / (MAX_OUTCOMES * MAX_VENUES), i / MAX_VENUES % MAX_OUTCOMES, i % MAX_VENUES)
  }

  // ---- What an event means for one book ----

  predicate SnapshotAt(e: FeedEvent, a: Address) { e.Snapshot? && e.at == a }

  predicate DeltaAt(e: FeedEvent, a: Address) { e.Delta? && e.at == a }

  predicate HaltsAt(e: FeedEvent, a: Address) {
    e.Halt? && e.market == a.market && e.venue == a.venue && (e.outcome.None? || e.outcome.value == a.outcome)
  }

  /** The levels an update carries. */
  function Carried(e: FeedEvent): seq<Level>
    requires e.Snapshot? || e.Delta?
  {
    match e
    case Snapshot(_, _, levels, n) => if n <= MAX_LEVELS then levels[..n] else levels
    case Delta(_, _, level, isDelete) => if isDelete then [] else [level]
  }

  ghost predicate BookStep(s: BookState, e: FeedEvent, a: Address, t: BookState) {
    if SnapshotAt(e, a) then !t.stale && t.lastSeq == e.seqNo && Arranged(t.levels, Carried(e))
    else if DeltaAt(e, a) then
      if s.stale || e.seqNo != s.lastSeq + 1 then t == BookState(true, s.lastSeq, [])
      else !t.stale && t.lastSeq == e.seqNo && Arranged(t.levels, Carried(e))
    else if HaltsAt(e, a) then t == BookState(true, s.lastSeq, [])
    else t == s
  }

  // ---- What a history means for one book ----

  /** The deltas for a book in `history[from..upTo]`. */
  function Deltas(history: seq<FeedEvent>, a: Address, from: nat, upTo: nat): nat
    requires from <= upTo <= |history|
  {
    if from == upTo then 0
    else Deltas(history, a, from, upTo - 1) + if DeltaAt(history[upTo - 1], a) then 1 else 0
  }

  /** Event `i` is the book's last snapshot, no halt has covered the book since, and the
      deltas since carry the consecutive numbers after its own. */
  ghost predicate LiveSince(history: seq<FeedEvent>, a: Address, i: nat) {
    && i < |history| && SnapshotAt(history[i], a)
    && forall j :: i < j < |history| ==>
                     && !SnapshotAt(history[j], a) && !HaltsAt(history[j], a)
                     && (DeltaAt(history[j], a) ==>
                           history[j].seqNo == history[i].seqNo + 1 + Deltas(history, a, i + 1, j))
  }

  /** Event `k` is the last to update the book. */
  ghost predicate LastUpdate(history: seq<FeedEvent>, a: Address, k: nat) {
    && k < |history| && (SnapshotAt(history[k], a) || DeltaAt(history[k], a))
    && forall j :: k < j < |history| ==> !SnapshotAt(history[j], a) && !DeltaAt(history[j], a)
  }

  /** A book is trusted exactly when its history keeps it live, and it then shows the levels
      of the last update, best first. */
  ghost predicate Tracks(s: BookState, history: seq<FeedEvent>, a: Address) {
    && (!s.stale <==> exists i: nat :: LiveSince(history, a, i))
    && (s.stale ==> s.levels == [])
    && (forall i: nat :: LiveSince(history, a, i) ==>
          s.lastSeq == history[i].seqNo + Deltas(history, a, i + 1, |history|))
    && (!s.stale ==> exists k: nat :: LastUpdate(history, a, k) && Arranged(s.levels, Carried(history[k])))
  }

  lemma {:induction false} DeltasPrefix(history: seq<FeedEvent>, e: FeedEvent, a: Address, from: nat, upTo: nat)
    requires from <= upTo <= |history|
    ensures Deltas(history + [e], a, from, upTo) == Deltas(history, a, from, upTo)
    decreases upTo
  {
    if from < upTo {
      DeltasPrefix(history, e, a, from, upTo - 1);
    }
  }

  /** How one more event changes which snapshot the book is live since. */
  lemma {:induction false} LiveStep(history: seq<FeedEvent>, e: FeedEvent, a: Address, i: nat)
    requires i < |history|
    ensures LiveSince(history + [e], a, i)
            <==> && LiveSince(history, a, i) && !SnapshotAt(e, a) && !HaltsAt(e, a)
                 && (DeltaAt(e, a) ==> e.seqNo == history[i].seqNo + 1 + Deltas(history, a, i + 1, |history|))
    ensures Deltas(history + [e], a, i + 1, |history| + 1)
            == Deltas(history, a, i + 1, |history|) + if DeltaAt(e, a) then 1 else 0
  {
    var all := history + [e];
    forall j {:trigger Deltas(all, a, i + 1, j)} | i < j <= |history|
      ensures Deltas(all, a, i + 1, j) == Deltas(history, a, i + 1, j)
    {
      DeltasPrefix(history, e, a, i + 1, j);
    }
    assert all[|history|] == e;
    assert forall j :: 0 <= j < |history| ==> all[j] == history[j];
  }

  lemma {:induction false} UpdateStep(history: seq<FeedEvent>, e: FeedEvent, a: Address, k: nat)
    requires LastUpdate(history, a, k)
    ensures !SnapshotAt(e, a) && !DeltaAt(e, a) ==> LastUpdate(history + [e], a, k)
  {
    assert forall j :: 0 <= j < |history| ==> (history + [e])[j] == history[j];
  }

  lemma {:induction false} UpdateNow(history: seq<FeedEvent>, e: FeedEvent, a: Address)
    requires SnapshotAt(e, a) || DeltaAt(e, a)
    ensures LastUpdate(history + [e], a, |history|) && (history + [e])[|history|] == e
    ensures SnapshotAt(e, a) ==> LiveSince(history + [e], a, |history|)
  {
  }

  /** Staleness is a function of history: every event keeps a book in step with it. */
  lemma {:induction false} StepTracks(s: BookState, history: seq<FeedEvent>, a: Address, e: FeedEvent, t: BookState)
    requires Tracks(s, history, a) && BookStep(s, e, a, t)
    ensures Tracks(t, history + [e], a)
  {
    var all := history + [e];
    forall i: nat | i < |history|
      ensures LiveSince(all, a, i)
              <==> && LiveSince(history, a, i) && !SnapshotAt(e, a) && !HaltsAt(e, a)
                   && (DeltaAt(e, a) ==> e.seqNo == s.lastSeq + 1)
      ensures LiveSince(all, a, i) ==> t.lastSeq == all[i].seqNo + Deltas(all, a, i + 1, |all|)
    {
      LiveStep(history, e, a, i);
    }
    if SnapshotAt(e, a) || DeltaAt(e, a) {
      UpdateNow(history, e, a);
    } else {
      LiveOnlyFromSnapshots(history, e, a);
    }
    StaleTracks(s, history, a, e, t);
    if !t.stale {
      LevelsTrack(s, history, a, e, t);
    }
  }

  lemma {:induction false} LiveOnlyFromSnapshots(history: seq<FeedEvent>, e: FeedEvent, a: Address)
    requires !SnapshotAt(e, a)
    ensures !LiveSince(history + [e], a, |history|)
  {
  }

  lemma {:induction false} StaleTracks(s: BookState, history: seq<FeedEvent>, a: Address, e: FeedEvent, t: BookState)
    requires Tracks(s, history, a) && BookStep(s, e, a, t)
    ensures !t.stale <==> exists i: nat :: LiveSince(history + [e], a, i)
  {
    var all := history + [e];
    if SnapshotAt(e, a) {
      UpdateNow(history, e, a);
    } else {
      LiveOnlyFromSnapshots(history, e, a);
      if !t.stale {
        var i: nat :| LiveSince(history, a, i);
        LiveStep(history, e, a, i);
      }
      if exists i: nat :: LiveSince(all, a, i) {
        var i: nat :| LiveSince(all, a, i);
        LiveStep(history, e, a, i);
      }
    }
  }

  lemma {:induction false} LevelsTrack(s: BookState, history: seq<FeedEvent>, a: Address, e: FeedEvent, t: BookState)
    requires Tracks(s, history, a) && BookStep(s, e, a, t) && !t.stale
    ensures exists k: nat :: LastUpdate(history + [e], a, k) && Arranged(t.levels, Carried((history + [e])[k]))
  {
    if SnapshotAt(e, a) || DeltaAt(e, a) {
      UpdateNow(history, e, a);
    } else {
      var k: nat :| LastUpdate(history, a, k) && Arranged(s.levels, Carried(history[k]));
      UpdateStep(history, e, a, k);
      assert (history + [e])[k] == history[k];
    }
  }

  // ---- The slab ----

  /** Apply an event to a book it is about. */
  method UpdateBook(book: OutcomeBook, e: FeedEvent, ghost a: Address)
    requires book.Valid() && (SnapshotAt(e, a) || DeltaAt(e, a) || HaltsAt(e, a))
    modifies book, book.slots
    ensures book.Valid() && BookStep(old(book.State()), e, a, book.State())
  {
    if e.Snapshot? {
      book.ApplySnapshot(if e.numLevels <= MAX_LEVELS then e.levels[..e.numLevels] else e.levels, e.seqNo);
    } else if e.Delta? {
      var inSequence := book.AcceptSeq(e.seqNo);
      if inSequence {
        if e.isDelete {
          book.ApplySnapshot([], e.seqNo);
        } else {
          book.ApplySnapshot([e.level], e.seqNo);
        }
      }
    } else {
      book.MarkStale();
    }
  }

  /** The state of the book at an address. */
  ghost function Of(states: seq<BookState>, markets: nat, a: Address): BookState
    requires |states| == markets * MAX_OUTCOMES * MAX_VENUES && InRange(a, markets)
  {
    FlatIndexBijective(markets, a, 0);
    states[FlatIndex(a, markets).value]
  }

  /** Every book is in step with the history of events about it. */
  ghost predicate AllTrack(states: seq<BookState>, markets: nat, history: seq<FeedEvent>) {
    && |states| == markets * MAX_OUTCOMES * MAX_VENUES
    && forall a :: InRange(a, markets) ==> Tracks(Of(states, markets, a), history, a)
  }

  /** An event changed every book as it should. */
  ghost predicate AllStep(before: seq<BookState>, e: FeedEvent, after: seq<BookState>, markets: nat) {
    && |before| == |after| == markets * MAX_OUTCOMES * MAX_VENUES
    && forall a :: InRange(a, markets) ==> BookStep(Of(before, markets, a), e, a, Of(after, markets, a))
  }

  lemma {:induction false} AllStepsTrack(
    before: seq<BookState>, e: FeedEvent, after: seq<BookState>, markets: nat, history: seq<FeedEvent>)
    requires AllTrack(before, markets, history) && AllStep(before, e, after, markets)
    ensures AllTrack(after, markets, history + [e])
  {
    forall a | InRange(a, markets)
      ensures Tracks(Of(after, markets, a), history + [e], a)
    {
      StepTracks(Of(before, markets, a), history, a, e, Of(after, markets, a));
    }
  }

  class EngineSlab {
    const books: seq<OutcomeBook>
    const markets: nat
    /** Every event processed so far. */
    ghost var history: seq<FeedEvent>

    ghost function Repr(): set<object> {
      (set i | 0 <= i < |books| :: books[i] as object) + (set i | 0 <= i < |books| :: books[i].slots as object)
    }

    /** The books are separate objects with separate storage. */
    ghost predicate Separate() {
      && |books| == markets * MAX_OUTCOMES * MAX_VENUES
      && forall i, j :: 0 <= i < j < |books| ==> books[i] != books[j] && books[i].slots != books[j].slots
    }

    ghost predicate Healthy()
      reads Repr()
    {
      Separate() && forall i :: 0 <= i < |books| ==> books[i].Valid()
    }

    /** What each book tells its readers, by position. */
    ghost function States(): (states: seq<BookState>)
      reads Repr()
      requires Healthy()
      ensures |states| == |books|
    {
      seq(|books|, i requires 0 <= i < |books| && Healthy() reads Repr() => books[i].State())
    }

    ghost predicate Valid()
      reads this, Repr()
    {
      Healthy() && AllTrack(States(), markets, history)
    }

    constructor (markets: nat)
      ensures Valid() && this.markets == markets && history == [] && fresh(Repr())
    {
      var all: seq<OutcomeBook> := [];
      var total := markets * MAX_OUTCOMES * MAX_VENUES;
      for i := 0 to total
        invariant |all| == i
        invariant forall j :: 0 <= j < i ==> fresh(all[j]) && fresh(all[j].slots)
        invariant forall j :: 0 <= j < i ==> all[j].Valid() && all[j].State() == BookState(true, 0, [])
        invariant forall j, k :: 0 <= j < k < i ==> all[j] != all[k] && all[j].slots != all[k].slots
      {
        var book := new OutcomeBook();
        all := all + [book];
      }
      books, history := all, [];
      this.markets := markets;
      new;
      forall a | InRange(a, markets)
        ensures Tracks(Of(States(), markets, a), history, a)
      {
        FlatIndexBijective(markets, a, 0);
      }
    }

    /** Apply an event to the book at a position, leaving the rest alone. */
    method UpdateIndex(i: nat, e: FeedEvent, ghost a: Address)
      requires Healthy() && i < |books| && (SnapshotAt(e, a) || DeltaAt(e, a) || HaltsAt(e, a))
      modifies Repr()
      ensures Healthy()
      ensures BookStep(old(States())[i], e, a, States()[i])
      ensures forall j :: 0 <= j < |books| && j != i ==> States()[j] == old(States())[j]
    {
      assert forall j :: 0 <= j < |books| && j != i ==> books[j] != books[i] && books[j].slots != books[i].slots;
      UpdateBook(books[i], e, a);
    }

    /** Apply an event to the book at an address, if there is one. */
    method UpdateAt(a: Address, e: FeedEvent)
      requires Healthy() && (SnapshotAt(e, a) || DeltaAt(e, a) || HaltsAt(e, a))
      modifies Repr()
      ensures Healthy()
      ensures forall b :: InRange(b, markets) ==>
                            if b == a then BookStep(old(Of(States(), markets, b)), e, a, Of(States(), markets, b))
                            else Of(States(), markets, b) == old(Of(States(), markets, b))
    {
      var at := FlatIndex(a, markets);
      if at.Some? {
        FlatIndexBijective(markets, a, 0);
        UpdateIndex(at.value, e, a);
        forall b | InRange(b, markets) && b != a
          ensures Of(States(), markets, b) == old(Of(States(), markets, b))
        {
          FlatIndexBijective(markets, b, 0);
          assert FlatIndex(b, markets).value != at.value;
        }
      }
    }

    /** Apply an event to every book it covers. Afterwards each book is still a function of
        its own history: trusted exactly when a snapshot came, no halt since covered it, and
        its deltas followed one another. */
    method Process(e: FeedEvent)
      requires Valid()
      modifies this`history, Repr()
      ensures Valid() && history == old(history) + [e]
      ensures AllStep(old(States()), e, States(), markets)
    {
      ghost var before := States();
      Dispatch(e);
      AllStepsTrack(before, e, States(), markets, history);
      history := history + [e];
    }

    method Dispatch(e: FeedEvent)
      requires Healthy()
      modifies Repr()
      ensures Healthy()
      ensures AllStep(old(States()), e, States(), markets)
    {
      match e {
        case Snapshot(at, _, _, _) => UpdateAt(at, e);
        case Delta(at, _, _, _) => UpdateAt(at, e);
        case Trade(_) =>
        case Halt(market, outcome, venue) =>
          if outcome.Some? {
            UpdateAt(Address(market, outcome.value, venue), e);
          } else {
            HaltAll(market, venue, e);
          }
        case Heartbeat =>
      }
    }

    /** Halt a venue's book for every outcome of a market. */
    method HaltAll(market: nat, venue: nat, e: FeedEvent)
      requires Healthy() && e == Halt(market, None, venue)
      modifies Repr()
      ensures Healthy()
      ensures AllStep(old(States()), e, States(), markets)
    {
      ghost var before := States();
      for o := 0 to MAX_OUTCOMES
        invariant Healthy()
        invariant forall a :: InRange(a, markets) ==>
                                if a.outcome < o then BookStep(Of(before, markets, a), e, a, Of(States(), markets, a))
                                else Of(States(), markets, a) == Of(before, markets, a)
      {
        UpdateAt(Address(market, o, venue), e);
      }
    }

    /** The levels at an address in range. */
    method LevelsAt(a: Address) returns (levels: seq<Level>)
      requires Healthy() && InRange(a, markets)
      ensures levels == Of(States(), markets, a).levels
    {
      FlatIndexBijective(markets, a, 0);
      var at := FlatIndex(a, markets).value;
      assert books[at].Valid();
      var book := books[at];
      return if book.stale then [] else book.slots[..book.len];
    }

    /** The levels a reader sees at an address, explained by the history alone. */
    method Levels(a: Address) returns (levels: Option<seq<Level>>)
      requires Valid()
      ensures levels.None? <==> !InRange(a, markets)
      ensures levels.Some? && (forall i: nat :: !LiveSince(history, a, i)) ==> levels.value == []
      ensures levels.Some? && (exists i: nat :: LiveSince(history, a, i)) ==>
                exists k: nat :: LastUpdate(history, a, k) && Arranged(levels.value, Carried(history[k]))
    {
      if FlatIndex(a, markets).None? {
        return None;
      }
      var found := LevelsAt(a);
      return Some(found);
    }
  }

  /** An emission: its market, its clock reading, and the cooldown in force when it was made. */
  datatype Emission = Emission(market: nat, at: nat, cooldown: nat)

  /** The clock reading that last marked a market: that of its last emission at a reading other
      than zero, or zero when there is none. */
  function LastMark(emissions: seq<Emission>, market: nat): nat {
    if emissions == [] then 0
    else
      var last := emissions[|emissions| - 1];
      if last.market == market && last.at != 0 then last.at else LastMark(emissions[..|emissions| - 1], market)
  }

  /** The cooldown then in force has passed since the market's last mark. */
  predicate WaitedOut(before: seq<Emission>, e: Emission) {
    e.cooldown == 0 || LastMark(before, e.market) == 0 || e.at >= LastMark(before, e.market) + e.cooldown
  }

  ghost predicate Spaced(emissions: seq<Emission>) {
    forall j :: 0 <= j < |emissions| ==> WaitedOut(emissions[..j], emissions[j])
  }

  lemma {:induction false} SpacedMore(emissions: seq<Emission>, e: Emission)
    requires Spaced(emissions) && WaitedOut(emissions, e)
    ensures Spaced(emissions + [e])
    ensures forall m :: LastMark(emissions + [e], m)
                        == if m == e.market && e.at != 0 then e.at else LastMark(emissions, m)
  {
    var all := emissions + [e];
    assert all[..|emissions|] == emissions;
    forall j | 0 <= j < |all|
      ensures WaitedOut(all[..j], all[j])
    {
      if j < |emissions| {
        assert all[..j] == emissions[..j] && all[j] == emissions[j];
      }
    }
  }

  lemma {:induction false} SpacedPrefix(emissions: seq<Emission>, n: nat)
    requires Spaced(emissions) && n <= |emissions|
    ensures Spaced(emissions[..n])
  {
    forall j | 0 <= j < n
      ensures WaitedOut(emissions[..n][..j], emissions[..n][j])
    {
      assert emissions[..n][..j] == emissions[..j];
    }
  }

  /** The market kept some cooldown for all of its emissions after `i`. */
  ghost predicate Cooled(emissions: seq<Emission>, market: nat, i: nat) {
    forall k :: i < k < |emissions| && emissions[k].market == market ==> emissions[k].cooldown > 0
  }

  /** While a market has some cooldown its marks only grow. */
  lemma {:induction false} MarksGrow(emissions: seq<Emission>, i: nat)
    requires Spaced(emissions) && i < |emissions| && emissions[i].at != 0 && Cooled(emissions, emissions[i].market, i)
    ensures emissions[i].at <= LastMark(emissions, emissions[i].market)
    decreases |emissions|
  {
    var init, last := emissions[..|emissions| - 1], emissions[|emissions| - 1];
    if i < |init| {
      SpacedPrefix(emissions, |init|);
      MarksGrow(init, i);
      assert WaitedOut(init, last);
    }
  }

  /** Any two emissions of a market are at least the cooldown in force at the later one apart,
      as long as the market had some cooldown in between. */
  lemma {:induction false} EmissionsApart(emissions: seq<Emission>, i: nat, j: nat)
    requires Spaced(emissions) && i < j < |emissions| && emissions[i].market == emissions[j].market
    requires emissions[i].at != 0 && Cooled(emissions, emissions[i].market, i)
    ensures emissions[j].at >= emissions[i].at + emissions[j].cooldown
  {
    var before := emissions[..j];
    SpacedPrefix(emissions, j);
    MarksGrow(before, i);
    assert WaitedOut(before, emissions[j]);
  }

  /** When each market last emitted a signal, and how long it must then stay silent.
      Registering a market again changes its cooldown, but not when it last emitted. */
  class EmitGate {
    const markets: nat
    const cooldown: array<nat>
    const lastEmit: array<nat>
    /** The emissions so far. */
    ghost var emissions: seq<Emission>

    ghost predicate Valid()
      reads this, cooldown, lastEmit
    {
      && cooldown.Length == lastEmit.Length == markets && cooldown != lastEmit
      && Spaced(emissions)
      && forall m :: 0 <= m < markets ==> lastEmit[m] == LastMark(emissions, m)
    }

    constructor (markets: nat)
      ensures Valid() && emissions == [] && this.markets == markets && fresh(cooldown) && fresh(lastEmit)
    {
      this.markets := markets;
      cooldown := new nat[markets](_ => 0);
      lastEmit := new nat[markets](_ => 0);
      emissions := [];
    }

    /** Register a market's cooldown. */
    method SetCooldown(market: nat, ns: nat)
      requires Valid() && market < markets
      modifies cooldown
      ensures Valid() && cooldown[..] == old(cooldown[..])[market := ns]
    {
      cooldown[market] := ns;
    }

    /** Whether a market may emit now. */
    method Admitted(market: nat, now: nat) returns (admitted: bool)
      requires Valid()
      ensures admitted <==> market < markets && WaitedOut(emissions, Emission(market, now, cooldown[market]))
    {
      if market >= markets {
        return false;
      }
      if cooldown[market] == 0 {
        return true;
      }
      var last := lastEmit[market];
      var since := if now < last then 0 else now - last;
      return !(last != 0 && since < cooldown[market]);
    }

    /** Record an emission; a reading of zero leaves no mark. */
    method NoteEmit(market: nat, now: nat)
      requires Valid() && market < markets && WaitedOut(emissions, Emission(market, now, cooldown[market]))
      modifies this`emissions, lastEmit
      ensures Valid() && emissions == old(emissions) + [Emission(market, now, cooldown[market])]
    {
      SpacedMore(emissions, Emission(market, now, cooldown[market]));
      if now != 0 {
        lastEmit[market] := now;
      }
      emissions := emissions + [Emission(market, now, cooldown[market])];
    }
  }
}
