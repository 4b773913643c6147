/** What reaches a venue and what it fills: depth lost in transit, arrival times, and the
    fill of one leg at the price found on arrival. */
module Fill {
  import opened Arith
  import opened Price
  import opened Fees
  import opened Quotes

  const U64_MAX := 0xffff_ffff_ffff_ffff

  /** The most venues with a profile of their own. */
  const MAX_CONFIGURED_VENUES := 32

  // ---- Depth in transit ----

  /** The depth detection sizes against: what survives of a resting size, floored. */
  function Discounted(survivalBps: nat, raw: int): int {
    if raw <= 0 then 0 else raw * Min(survivalBps, BPS) / BPS
  }

  /** The depth an arriving order finds once faster orders have taken their share. */
  function EffectiveDepth(frontRunBps: nat, raw: int): int {
    if raw <= 0 then 0 else raw * (BPS - Min(frontRunBps, BPS)) / BPS
  }

  /** Detection and fill agree on depth for every size exactly when the surviving and the
      lost shares, each capped at the whole, add up to the whole. */
  lemma {:induction false} DepthsAgree(survivalBps: nat, frontRunBps: nat)
    ensures (forall raw :: Discounted(survivalBps, raw) == EffectiveDepth(frontRunBps, raw))
            <==> Min(survivalBps, BPS) + Min(frontRunBps, BPS) == BPS
  {
    assert Discounted(survivalBps, BPS) == Min(survivalBps, BPS);
    assert EffectiveDepth(frontRunBps, BPS) == BPS - Min(frontRunBps, BPS);
  }

  /** Transit never makes depth. */
  lemma {:induction false} EffectiveDepthBounds(frontRunBps: nat, raw: int)
    ensures 0 <= EffectiveDepth(frontRunBps, raw) <= Max(raw, 0)
  {
    if raw > 0 {
      var kept := BPS - Min(frontRunBps, BPS);
      MulNonNeg(raw, kept);
      FloorNonNeg(raw * kept, BPS);
      MulLe(kept, BPS, raw);
      FloorMono(raw * kept, raw * BPS, BPS);
    }
  }

  // ---- Latency ----

  datatype LatencyProfile = LatencyProfile(wireNs: nat, processingNs: nat, frontRunBps: nat)

  /** Profiles by venue, in the order configured, and the one for all other venues. */
  datatype LatencyTable = LatencyTable(entries: seq<(nat, LatencyProfile)>, other: LatencyProfile)

  /** The position of a venue's profile, or the length of the table. */
  function Find(entries: seq<(nat, LatencyProfile)>, venue: nat): (i: nat)
    ensures i <= |entries| && (i < |entries| ==> entries[i].0 == venue)
    ensures forall j :: 0 <= j < i ==> entries[j].0 != venue
  {
    if entries == [] then 0
    else if entries[0].0 == venue then 0
    else
      var i := Find(entries[1..], venue);
      assert forall j :: 0 < j < |entries| ==> entries[j] == entries[1..][j - 1];
      i + 1
  }

  /** Where a venue is found depends on the venues alone. */
  lemma {:induction false} FindByKeys(a: seq<(nat, LatencyProfile)>, b: seq<(nat, LatencyProfile)>, venue: nat)
    requires |a| == |b| && forall i :: 0 <= i < |a| ==> a[i].0 == b[i].0
    ensures Find(a, venue) == Find(b, venue)
  {
    var i, j := Find(a, venue), Find(b, venue);
    assert i < |a| ==> b[i].0 == venue;
    assert j < |b| ==> a[j].0 == venue;
  }

  function ProfileOf(t: LatencyTable, venue: nat): LatencyProfile {
    var i := Find(t.entries, venue);
    if i < |t.entries| then t.entries[i].1 else t.other
  }

  /** The table after a venue is configured. */
  function Configured(t: LatencyTable, venue: nat, profile: LatencyProfile): LatencyTable {
    var i := Find(t.entries, venue);
    if i < |t.entries| then t.(entries := t.entries[i := (venue, profile)])
    else if |t.entries| < MAX_CONFIGURED_VENUES then t.(entries := t.entries + [(venue, profile)])
    else t
  }

  /** Configuring a venue changes its profile and no other venue's, unless the table is full
      of others. */
  lemma {:induction false} ConfiguredProfiles(t: LatencyTable, venue: nat, profile: LatencyProfile, v: nat)
    ensures ProfileOf(Configured(t, venue, profile), v)
            == if v == venue && (Find(t.entries, venue) < |t.entries| || |t.entries| < MAX_CONFIGURED_VENUES)
               then profile else ProfileOf(t, v)
  {
    var i := Find(t.entries, venue);
    var u := Configured(t, venue, profile);
    if i < |t.entries| {
      FindByKeys(t.entries, u.entries, v);
    } else if |t.entries| < MAX_CONFIGURED_VENUES {
      var j, k := Find(u.entries, v), Find(t.entries, v);
      assert k < |t.entries| ==> u.entries[k] == t.entries[k];
      assert j < |t.entries| ==> u.entries[j] == t.entries[j];
      assert u.entries[|t.entries|].0 == venue;
    }
  }

  function SaturatingAdd64(a: nat, b: nat): nat {
    Min(a + b, U64_MAX)
  }

  function ArrivalTime(t: LatencyTable, sent: nat, venue: nat): nat {
    var p := ProfileOf(t, venue);
    SaturatingAdd64(sent, SaturatingAdd64(p.wireNs, p.processingNs))
  }

  function DepthOnArrival(t: LatencyTable, venue: nat, raw: int): int {
    EffectiveDepth(ProfileOf(t, venue).frontRunBps, raw)
  }

  /** The fixed table of venue profiles, scanned in order. */
  class LatencyModel {
    const entries: array<(nat, LatencyProfile)>
    const other: LatencyProfile
    var count: nat

    ghost predicate Valid()
      reads this
    {
      entries.Length == MAX_CONFIGURED_VENUES && count <= MAX_CONFIGURED_VENUES
    }

    ghost function Table(): LatencyTable
      reads this, entries
      requires Valid()
    {
      LatencyTable(entries[..count], other)
    }

    constructor (other: LatencyProfile)
      ensures Valid() && Table() == LatencyTable([], other) && fresh(entries)
    {
      entries := new (nat, LatencyProfile)[MAX_CONFIGURED_VENUES](_ => (0, LatencyProfile(0, 0, 0)));
      this.other := other;
      count := 0;
    }

    /** Set a venue's profile; a new venue is ignored once the table is full. */
    method SetVenueProfile(venue: nat, profile: LatencyProfile)
      requires Valid()
      modifies this, entries
      ensures Valid() && Table() == Configured(old(Table()), venue, profile)
    {
      ghost var before := entries[..count];
      var i := 0;
      while i < count && entries[i].0 != venue
        invariant 0 <= i <= count
        invariant forall j :: 0 <= j < i ==> before[j].0 != venue
      {
        i := i + 1;
      }
      assert i == Find(before, venue);
      if i < count {
        entries[i] := (venue, profile);
        assert entries[..count] == before[i := (venue, profile)];
      } else if count < MAX_CONFIGURED_VENUES {
        entries[count] := (venue, profile);
        count := count + 1;
        assert entries[..count] == before + [(venue, profile)];
      }
    }

    method ProfileFor(venue: nat) returns (profile: LatencyProfile)
      requires Valid()
      ensures profile == ProfileOf(Table(), venue)
    {
      for i := 0 to count
        invariant forall j :: 0 <= j < i ==> entries[j].0 != venue
      {
        if entries[i].0 == venue {
          return entries[i].1;
        }
      }
      return other;
    }
  }

  // ---- One leg ----

  /** An execution leg: the quote a stake was sized against. */
  datatype Leg = Leg(venue: nat, outcome: nat, quoted: Prob, fee: Fee, capacity: int, increment: int)

  datatype UnfilledReason =
    | PriceMoved(expected: Prob, current: Option<Prob>)
    | DepthExhausted(available: int, requested: int)
    | IncrementConstraint

  /** A partial fill of a leg here always means that the depth ran out. */
  datatype FillStatus = Filled | PartiallyFilled(filled: int, unfilled: int) | Unfilled(reason: UnfilledReason)

  datatype LegFill = LegFill(
    venue: nat, outcome: nat, status: FillStatus, fillPrice: Prob, requested: int, filled: int,
    gross: int, feePaid: int, net: int, arrivalNs: nat)

  /** Narrowing to 64 bits keeps the low bits. */
  function Truncate64(value: int): int {
    (value - CENTS_MIN) % 0x1_0000_0000_0000_0000 + CENTS_MIN
  }

  /** Clamping and narrowing give a payout the same value exactly while money can hold it,
      and beyond that once in 2^64. */
  ghost predicate NarrowsToClamp(gross: int) {
    gross <= CENTS_MAX || (gross - CENTS_MAX) % 0x1_0000_0000_0000_0000 == 0
  }

  lemma {:induction false} TruncateMeetsClamp(gross: int)
    requires gross >= CENTS_MIN
    ensures Truncate64(gross) == ToCents(gross) <==> NarrowsToClamp(gross)
  {
    var width := 0x1_0000_0000_0000_0000;
    FloorBounds(gross - CENTS_MIN, width);
    if gross > CENTS_MAX {
      assert gross - CENTS_MIN == (gross - CENTS_MAX) + (width - 1);
    }
  }

  /** Narrowing never gives a payout more than clamping does. */
  lemma {:induction false} TruncateIsNoMore(gross: int)
    requires gross >= CENTS_MIN
    ensures CENTS_MIN <= Truncate64(gross) <= ToCents(gross)
  {
    TruncateMeetsClamp(gross);
  }

  /** A stake detection reports the largest payout for, and which a fill pays something else. */
  lemma {:induction false} TruncationBreaksAPayout()
    ensures var gross := GrossPayout(1, 10_000_000_000_000);
            && ToCents(gross) == CENTS_MAX
            && Truncate64(gross) == 10_000_000_000_000_000_000 - 0x1_0000_0000_0000_0000 < 0
  {
  }

  function NotFilled(leg: Leg, requested: int, price: Prob, reason: UnfilledReason, arrivalNs: nat): LegFill {
    LegFill(leg.venue, leg.outcome, Unfilled(reason), price, requested, 0, 0, 0, 0, arrivalNs)
  }

  /** The payouts of a filled stake, before and after the venue's cut, both floored. */
  function ComputeFill(
    leg: Leg, requested: int, filled: int, price: Prob, status: FillStatus, arrivalNs: nat): LegFill {
    if filled <= 0 then NotFilled(leg, requested, price, DepthExhausted(0, requested), arrivalNs)
    else
      var gross := Truncate64(GrossPayout(price, filled));
      var net := Truncate64(GrossPayout(Effective(leg.fee, price), filled));
      LegFill(leg.venue, leg.outcome, status, price, requested, filled, gross, ToCents(gross - net), net, arrivalNs)
  }

  /** What an effective depth fills of a stake at an acceptable price. */
  function AtDepth(leg: Leg, requested: int, price: Prob, depth: int, arrivalNs: nat): LegFill {
    if depth <= 0 then NotFilled(leg, requested, price, DepthExhausted(0, requested), arrivalNs)
    else if depth >= requested then ComputeFill(leg, requested, requested, price, Filled, arrivalNs)
    else
      var increment := Max(leg.increment, 1);
      var fillable := depth / increment * increment;
      if fillable <= 0 then NotFilled(leg, requested, price, IncrementConstraint, arrivalNs)
      else ComputeFill(leg, requested, fillable, price, PartiallyFilled(fillable, requested - fillable), arrivalNs)
  }

  /** What a leg fills at the price found on arrival, refusing a worse one. */
  function AtQuote(leg: Leg, requested: int, found: Option<Prob>, depth: int, arrivalNs: nat): LegFill {
    match found
    case None => NotFilled(leg, requested, leg.quoted, PriceMoved(leg.quoted, None), arrivalNs)
    case Some(price) =>
      if price > leg.quoted then NotFilled(leg, requested, leg.quoted, PriceMoved(leg.quoted, found), arrivalNs)
      else AtDepth(leg, requested, price, depth, arrivalNs)
  }

  /** The status says what was filled, and nothing is filled beyond the request. */
  ghost predicate Coherent(f: LegFill) {
    && 0 <= f.filled <= f.requested
    && (f.status.Unfilled? <==> f.filled == 0)
    && (f.status.Filled? <==> f.filled == f.requested)
    && (f.status.PartiallyFilled? ==> f.status.filled == f.filled && f.status.unfilled == f.requested - f.filled)
    && (f.filled == 0 ==> f.net == 0)
    && f.net <= CENTS_MAX
  }

  /** A fill is coherent, within the depth, and either whole or the most whole increments
      the depth allows. */
  lemma {:induction false} DepthFills(leg: Leg, requested: int, price: Prob, depth: int, arrivalNs: nat)
    requires requested > 0
    ensures var f := AtDepth(leg, requested, price, depth, arrivalNs);
            && Coherent(f) && f.requested == requested && f.venue == leg.venue && f.outcome == leg.outcome
            && f.filled <= Max(depth, 0)
            && (f.status.Filled? <==> depth >= requested)
            && (!f.status.Filled? ==>
                  && f.filled % Max(leg.increment, 1) == 0
                  && Max(depth, 0) < f.filled + Max(leg.increment, 1))
  {
    var increment := Max(leg.increment, 1);
    if 0 < depth < requested {
      FloorBounds(depth, increment);
      FloorNonNeg(depth, increment);
      MulNonNeg(depth / increment, increment);
      MultipleOf(depth / increment, increment);
    }
  }

  /** A leg fills exactly when a price no worse than the quote is found with enough depth
      behind it; it never fills at a worse price. */
  lemma {:induction false} QuoteFills(leg: Leg, requested: int, found: Option<Prob>, depth: int, arrivalNs: nat)
    requires requested > 0
    ensures var f := AtQuote(leg, requested, found, depth, arrivalNs);
            && Coherent(f) && f.requested == requested && f.venue == leg.venue && f.outcome == leg.outcome
            && (f.status.Filled? <==> found.Some? && found.value <= leg.quoted && depth >= requested)
            && (f.filled > 0 ==> found == Some(f.fillPrice) && f.fillPrice <= leg.quoted && f.filled <= depth)
  {
    if found.Some? {
      DepthFills(leg, requested, found.value, depth, arrivalNs);
    }
  }

  /** A filled leg pays what its effective price pays exactly when that narrows to its clamp.
      When both payouts fit money the fee is their difference, and without a rebate it is
      never negative. */
  lemma {:induction false} FillPays(
    leg: Leg, requested: int, filled: int, price: Prob, status: FillStatus, arrivalNs: nat)
    requires filled > 0
    ensures var f := ComputeFill(leg, requested, filled, price, status, arrivalNs);
            var net, gross := GrossPayout(Effective(leg.fee, price), filled), GrossPayout(price, filled);
            && (f.net == Payout(Effective(leg.fee, price), filled) <==> NarrowsToClamp(net))
            && (net <= CENTS_MAX && gross <= CENTS_MAX ==>
                  && f.gross == f.net + f.feePaid
                  && (!leg.fee.MakerRebateBps? ==> 0 <= f.net <= f.gross))
  {
    var e := Effective(leg.fee, price);
    FloorNonNeg(filled * PPM, price);
    FloorNonNeg(filled * PPM, e);
    FeeDirection(leg.fee, price);
    TruncateMeetsClamp(GrossPayout(e, filled));
    if !leg.fee.MakerRebateBps? {
      FloorBounds(filled * PPM, e);
      MulLe(price, e, GrossPayout(e, filled));
      FloorGe(filled * PPM, price, GrossPayout(e, filled));
    }
  }
}
