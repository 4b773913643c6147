/** A latency histogram with fixed bins of growing width, and the percentile it reports. */
module Histogram {
  const NUM_BINS := 4601

  /** The bin of a latency in nanoseconds. */
  function LatencyToBin(ns: nat): nat {
    if ns < 10_000 then ns / 10
    else if ns < 100_000 then 1000 + (ns - 10_000) / 100
    else if ns < 1_000_000 then 1900 + (ns - 100_000) / 1_000
    else if ns < 10_000_000 then 2800 + (ns - 1_000_000) / 10_000
    else if ns < 100_000_000 then 3700 + (ns - 10_000_000) / 100_000
    else 4600
  }

  /** The latency a bin stands for. */
  function BinToLatency(bin: nat): nat {
    if bin < 1000 then bin * 10
    else if bin < 1900 then 10_000 + (bin - 1000) * 100
    else if bin < 2800 then 100_000 + (bin - 1900) * 1_000
    else if bin < 3700 then 1_000_000 + (bin - 2800) * 10_000
    else if bin < 4600 then 10_000_000 + (bin - 3700) * 100_000
    else 100_000_000
  }

  /** A bin stands for the least latency in it, so the reported value is never above the
      sample; below 100 ms it is within 10 ns or one percent of it. */
  lemma {:induction false} BinFloor(ns: nat)
    ensures LatencyToBin(ns) < NUM_BINS
    ensures BinToLatency(LatencyToBin(ns)) <= ns
    ensures var gap := ns - BinToLatency(LatencyToBin(ns));
            ns < 100_000_000 ==> gap < 10 || gap * 100 < ns
  {
  }

  /** Bins keep latencies in order, and the bin of a bin's own latency is itself. */
  lemma {:induction false} BinOrder(bin: nat, ns: nat)
    requires bin < NUM_BINS
    ensures LatencyToBin(BinToLatency(bin)) == bin
    ensures BinToLatency(bin) <= ns <==> bin <= LatencyToBin(ns)
  {
  }

  lemma {:induction false} BinMonotone(a: nat, b: nat)
    requires a <= b
    ensures LatencyToBin(a) <= LatencyToBin(b)
  {
    BinFloor(a);
    BinOrder(LatencyToBin(a), b);
  }

  function Total(samples: seq<nat>): nat {
    if samples == [] then 0 else Total(samples[..|samples| - 1]) + samples[|samples| - 1]
  }

  /** How many samples fall in one bin. */
  function InBin(samples: seq<nat>, bin: nat): nat {
    if samples == [] then 0
    else InBin(samples[..|samples| - 1], bin) + if LatencyToBin(samples[|samples| - 1]) == bin then 1 else 0
  }

  /** How many samples fall below a bin. */
  function Below(samples: seq<nat>, bin: nat): (n: nat)
    ensures n <= |samples|
  {
    if samples == [] then 0
    else Below(samples[..|samples| - 1], bin) + if LatencyToBin(samples[|samples| - 1]) < bin then 1 else 0
  }

  lemma {:induction false} BelowNext(samples: seq<nat>, bin: nat)
    ensures Below(samples, bin + 1) == Below(samples, bin) + InBin(samples, bin)
  {
    if samples != [] {
      BelowNext(samples[..|samples| - 1], bin);
    }
  }

  lemma {:induction false} BelowEnds(samples: seq<nat>)
    ensures Below(samples, 0) == 0 && Below(samples, NUM_BINS) == |samples|
  {
    if samples != [] {
      BinFloor(samples[|samples| - 1]);
      BelowEnds(samples[..|samples| - 1]);
    }
  }

  lemma {:induction false} BelowConcat(a: seq<nat>, b: seq<nat>, bin: nat)
    ensures Below(a + b, bin) == Below(a, bin) + Below(b, bin)
  {
    if b == [] {
      assert a + b == a;
    } else {
      assert (a + b)[..|a + b| - 1] == a + b[..|b| - 1];
      BelowConcat(a, b[..|b| - 1], bin);
    }
  }

  predicate Sorted(s: seq<nat>) {
    forall i, j :: 0 <= i < j < |s| ==> s[i] <= s[j]
  }

  /** Counting does not depend on the order of the samples. */
  lemma {:induction false} BelowPermutes(a: seq<nat>, b: seq<nat>, bin: nat)
    requires multiset(a) == multiset(b)
    ensures |a| == |b| && Below(a, bin) == Below(b, bin)
    decreases |a|
  {
    assert |multiset(a)| == |a| && |multiset(b)| == |b|;
    if a != [] {
      var init, last := a[..|a| - 1], a[|a| - 1];
      assert a == init + [last];
      assert last in multiset(b);
      var k :| 0 <= k < |b| && b[k] == last;
      assert b == b[..k] + [last] + b[k + 1..];
      assert multiset(init) == multiset(a) - multiset{last};
      assert multiset(b[..k] + b[k + 1..]) == multiset(b) - multiset{last};
      BelowPermutes(init, b[..k] + b[k + 1..], bin);
      BelowConcat(b[..k], b[k + 1..], bin);
      BelowConcat(b[..k] + [last], b[k + 1..], bin);
      BelowConcat(b[..k], [last], bin);
      BelowConcat(init, [last], bin);
    }
  }

  /** In sorted samples those below a bin come first. */
  lemma {:induction false} BelowIsPrefix(sorted: seq<nat>, bin: nat, k: nat)
    requires Sorted(sorted) && k < |sorted|
    ensures LatencyToBin(sorted[k]) < bin <==> k < Below(sorted, bin)
  {
    var init, last := sorted[..|sorted| - 1], sorted[|sorted| - 1];
    BinMonotone(sorted[k], last);
    if LatencyToBin(last) < bin {
      AllBelow(sorted, bin);
    } else if k < |init| {
      BelowIsPrefix(init, bin, k);
    }
  }

  lemma {:induction false} AllBelow(sorted: seq<nat>, bin: nat)
    requires Sorted(sorted) && sorted != [] && LatencyToBin(sorted[|sorted| - 1]) < bin
    ensures Below(sorted, bin) == |sorted|
  {
    var init := sorted[..|sorted| - 1];
    if init != [] {
      BinMonotone(init[|init| - 1], sorted[|sorted| - 1]);
      AllBelow(init, bin);
    }
  }

  /** The first bin whose running total reaches a rank holds the sample of that rank. */
  lemma {:induction false} RankIsOrderStatistic(samples: seq<nat>, sorted: seq<nat>, bin: nat, rank: nat)
    requires Sorted(sorted) && multiset(sorted) == multiset(samples)
    requires 1 <= rank <= |samples|
    ensures |sorted| == |samples|
    ensures Below(samples, bin) < rank <= Below(samples, bin + 1) <==> LatencyToBin(sorted[rank - 1]) == bin
  {
    BelowPermutes(sorted, samples, bin);
    BelowPermutes(sorted, samples, bin + 1);
    BelowIsPrefix(sorted, bin, rank - 1);
    BelowIsPrefix(sorted, bin + 1, rank - 1);
  }

  /** The sum of the first `n` bins. */
  function BinSum(bins: seq<nat>, n: nat): nat
    requires n <= |bins|
  {
    if n == 0 then 0 else BinSum(bins, n - 1) + bins[n - 1]
  }

  /** Each bin counts its samples. */
  ghost predicate Binned(bins: seq<nat>, samples: seq<nat>) {
    |bins| == NUM_BINS && forall b :: 0 <= b < NUM_BINS ==> bins[b] == InBin(samples, b)
  }

  lemma {:induction false} BinnedMore(bins: seq<nat>, samples: seq<nat>, ns: nat)
    requires Binned(bins, samples)
    ensures LatencyToBin(ns) < NUM_BINS
    ensures Binned(bins[LatencyToBin(ns) := bins[LatencyToBin(ns)] + 1], samples + [ns])
    ensures Total(samples + [ns]) == Total(samples) + ns
  {
    BinFloor(ns);
    assert (samples + [ns])[..|samples|] == samples;
  }

  lemma {:induction false} BinSumIsBelow(bins: seq<nat>, samples: seq<nat>, n: nat)
    requires Binned(bins, samples) && n <= NUM_BINS
    ensures BinSum(bins, n) == Below(samples, n)
  {
    if n == 0 {
      BelowEnds(samples);
    } else {
      BinSumIsBelow(bins, samples, n - 1);
      BelowNext(samples, n - 1);
    }
  }

  class LatencyHistogram {
    const bins: array<nat>
    var count: nat
    var sum: nat
    var min: nat
    var max: nat
    /** The latencies recorded since the last reset. */
    ghost var samples: seq<nat>

    ghost predicate Valid()
      reads this, bins
    {
      && bins.Length == NUM_BINS && count == |samples|
      && Binned(bins[..], samples)
      && sum == Total(samples)
      && (if samples == [] then min == 0xffff_ffff_ffff_ffff && max == 0 else min in samples && max in samples)
      && (forall ns :: ns in samples ==> min <= ns <= max)
    }

    constructor ()
      ensures Valid() && samples == [] && fresh(bins)
    {
      bins := new nat[NUM_BINS](_ => 0);
      count, sum, min, max, samples := 0, 0, 0xffff_ffff_ffff_ffff, 0, [];
    }

    /** Record one latency, which a 64-bit counter can hold. */
    method Record(ns: nat)
      requires Valid() && ns <= 0xffff_ffff_ffff_ffff
      modifies this, bins
      ensures Valid() && samples == old(samples) + [ns]
    {
      BinnedMore(bins[..], samples, ns);
      ghost var before := bins[..];
      var bin := LatencyToBin(ns);
      bins[bin] := bins[bin] + 1;
      assert bins[..] == before[bin := before[bin] + 1];
      count, sum := count + 1, sum + ns;
      if ns < min {
        min := ns;
      }
      if ns > max {
        max := ns;
      }
      samples := samples + [ns];
      assert ns in samples && forall x :: x in samples <==> x in old(samples) || x == ns;
    }

    /** The percentile at an integer rank: the bin latency of the sample of that rank, in any
        sorted order of the samples. */
    method AtRank(rank: nat, ghost sorted: seq<nat>) returns (ns: nat)
      requires Valid() && (samples != [] ==> 1 <= rank <= |samples|)
      requires Sorted(sorted) && multiset(sorted) == multiset(samples)
      ensures samples == [] ==> ns == 0
      ensures samples != [] ==>
                && |sorted| == |samples|
                && ns == BinToLatency(LatencyToBin(sorted[rank - 1])) <= sorted[rank - 1]
    {
      if count == 0 {
        return 0;
      }
      var accumulated := 0;
      for bin := 0 to NUM_BINS
        invariant accumulated == BinSum(bins[..], bin) < rank
      {
        accumulated := accumulated + bins[bin];
        if accumulated >= rank {
          BinSumIsBelow(bins[..], samples, bin);
          BinSumIsBelow(bins[..], samples, bin + 1);
          RankIsOrderStatistic(samples, sorted, bin, rank);
          BinFloor(sorted[rank - 1]);
          return BinToLatency(bin);
        }
      }
      BinSumIsBelow(bins[..], samples, NUM_BINS);
      BelowEnds(samples);
      assert false;
    }

    /** The bins account for every sample. */
    lemma {:induction false} BinsSumToCount()
      requires Valid()
      ensures BinSum(bins[..], NUM_BINS) == count
    {
      BinSumIsBelow(bins[..], samples, NUM_BINS);
      BelowEnds(samples);
    }
  }
}
