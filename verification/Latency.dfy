/**
  Aggregated latency statistics (latency_monitor.py), over exact numbers: a bounded window of
  samples per target and percentiles by linear interpolation.
*/
module Latency {
  import opened Sorting

  // ---- Percentiles ----

  /** Linear interpolation of a list at a fractional index. */
  function At(s: seq<real>, index: real): real
    requires s != [] && 0.0 <= index <= (|s| - 1) as real
  {
    var lower := index.Floor;
    var upper := if lower as real == index then lower else lower + 1;
    if lower == upper then s[lower]
    else
      var weight := index - lower as real;
      s[lower] * (1.0 - weight) + s[upper] * weight
  }

  function IndexOf(n: nat, percentile: real): (index: real)
    requires n > 0 && 0.0 <= percentile <= 100.0
    ensures 0.0 <= index <= (n - 1) as real
  {
    var share := percentile / 100.0;
    var last := (n - 1) as real;
    assert 0.0 <= share <= 1.0;
    ProductBounds(share, last);
    share * last
  }

  lemma ProductBounds(share: real, x: real)
    requires 0.0 <= share <= 1.0 && 0.0 <= x
    ensures 0.0 <= share * x <= x
  {
    assert (1.0 - share) * x >= 0.0;
  }

  function Percentile(sorted: seq<real>, percentile: real): real
    requires 0.0 <= percentile <= 100.0
  {
    if sorted == [] then 0.0 else At(sorted, IndexOf(|sorted|, percentile))
  }

  /** Between two neighbours the interpolation moves from one to the other. */
  lemma Blend(a: real, b: real, v: real, w: real)
    requires a <= b && 0.0 <= v <= w <= 1.0
    ensures a <= a * (1.0 - v) + b * v <= a * (1.0 - w) + b * w <= b
  {
    assert (b - a) * v >= 0.0;
    assert (b - a) * (w - v) >= 0.0;
    assert (b - a) * (1.0 - w) >= 0.0;
  }

  lemma AtBounds(s: seq<real>, index: real)
    requires s != [] && Ordered(s) && 0.0 <= index <= (|s| - 1) as real
    ensures var lower := index.Floor;
      s[lower] <= At(s, index) <= (if lower + 1 < |s| then s[lower + 1] else s[lower])
    ensures s[0] <= At(s, index) <= s[|s| - 1]
  {
    var lower := index.Floor;
    if lower as real == index {
      assert lower + 1 < |s| ==> s[lower] <= s[lower + 1];
    } else {
      assert lower + 1 < |s| && s[lower] <= s[lower + 1];
      Blend(s[lower], s[lower + 1], index - lower as real, index - lower as real);
    }
  }

  lemma AtMonotone(s: seq<real>, x: real, y: real)
    requires s != [] && Ordered(s) && 0.0 <= x <= y <= (|s| - 1) as real
    ensures At(s, x) <= At(s, y)
  {
    var i, j := x.Floor, y.Floor;
    AtBounds(s, x);
    AtBounds(s, y);
    if i < j {
      assert s[i + 1] <= s[j];
    } else if x != y {
      if x != i as real {
        Blend(s[i], s[i + 1], x - i as real, y - i as real);
      }
    }
  }

  lemma PercentileMonotone(s: seq<real>, p: real, q: real)
    requires s != [] && Ordered(s) && 0.0 <= p <= q <= 100.0
    ensures s[0] <= Percentile(s, p) <= Percentile(s, q) <= s[|s| - 1]
  {
    var last := (|s| - 1) as real;
    assert (q / 100.0 - p / 100.0) * last >= 0.0;
    AtMonotone(s, IndexOf(|s|, p), IndexOf(|s|, q));
    AtBounds(s, IndexOf(|s|, p));
    AtBounds(s, IndexOf(|s|, q));
  }

  /** `statistics.median` of an already sorted list. */
  function Median(sorted: seq<real>): real
    requires sorted != []
  {
    var n := |sorted|;
    if n % 2 == 1 then sorted[n / 2] else (sorted[n / 2 - 1] + sorted[n / 2]) / 2.0
  }

  /** The 50th percentile is the median. */
  lemma MedianIsFiftieth(s: seq<real>)
    requires s != []
    ensures Percentile(s, 50.0) == Median(s)
  {
    var n := |s|;
    var index := IndexOf(n, 50.0);
    assert index == 0.5 * (n - 1) as real;
    if n % 2 == 1 {
      assert index == (n / 2) as real;
    } else {
      assert index == (n / 2 - 1) as real + 0.5;
      assert index.Floor == n / 2 - 1;
    }
  }

  // ---- Statistics ----

  datatype Sample = Sample(latency: real, packetLoss: real, success: bool)

  datatype Stats = Stats(min: real, max: real, mean: real, median: real, p95: real, p99: real, lossRate: real,
      count: nat)

  function Successful(samples: seq<Sample>): seq<real> {
    if samples == [] then []
    else
      var before := Successful(samples[..|samples| - 1]);
      if samples[|samples| - 1].success then before + [samples[|samples| - 1].latency] else before
  }

  function Losses(samples: seq<Sample>): (losses: seq<real>)
    ensures |losses| == |samples|
  {
    seq(|samples|, i requires 0 <= i < |samples| => samples[i].packetLoss)
  }

  function Mean(s: seq<real>): real
    requires s != []
  {
    Sum(s) / (|s| as real)
  }

  function StatsOf(samples: seq<Sample>): Stats
    requires Successful(samples) != [] && samples != []
  {
    var latencies := Successful(samples);
    var sorted := Sorted(latencies);
    SortedIsOrderedPermutation(latencies);
    Stats(Min(latencies), Max(latencies), Mean(latencies), Median(sorted),
          Percentile(sorted, 95.0), Percentile(sorted, 99.0), Mean(Losses(samples)), |samples|)
  }

  ghost predicate Coherent(s: Stats) {
    s.min <= s.median <= s.p95 <= s.p99 <= s.max && s.min <= s.mean <= s.max
  }

  lemma {:induction false} SumBounds(s: seq<real>, low: real, high: real)
    requires forall x :: x in s ==> low <= x <= high
    ensures low * (|s| as real) <= Sum(s) <= high * (|s| as real)
  {
    if s != [] {
      var front, last := s[..|s| - 1], s[|s| - 1];
      assert last in s && forall x :: x in front ==> x in s;
      SumBounds(front, low, high);
      assert |s| as real == |front| as real + 1.0;
      assert low * (|s| as real) == low * (|front| as real) + low;
      assert high * (|s| as real) == high * (|front| as real) + high;
    }
  }

  lemma MeanBounds(s: seq<real>)
    requires s != []
    ensures Min(s) <= Mean(s) <= Max(s)
  {
    MinMaxBound(s);
    SumBounds(s, Min(s), Max(s));
    var n := |s| as real;
    DivideBounds(Sum(s), n, Min(s), Max(s));
  }

  lemma DivideBounds(sum: real, n: real, low: real, high: real)
    requires n > 0.0 && low * n <= sum <= high * n
    ensures low <= sum / n <= high
  {
    var q := sum / n;
    assert (q - low) * n == sum - low * n;
    assert (high - q) * n == high * n - sum;
    QuotientSign(q - low, n);
    QuotientSign(high - q, n);
  }

  lemma QuotientSign(x: real, n: real)
    requires n > 0.0 && x * n >= 0.0
    ensures x >= 0.0
  {
  }

  /** Whatever the samples, the figures are in order. */
  lemma StatsCoherent(samples: seq<Sample>)
    requires samples != [] && Successful(samples) != []
    ensures Coherent(StatsOf(samples))
  {
    var latencies := Successful(samples);
    var sorted := Sorted(latencies);
    SortedIsOrderedPermutation(latencies);
    SortedEnds(latencies);
    MedianIsFiftieth(sorted);
    PercentileMonotone(sorted, 50.0, 95.0);
    PercentileMonotone(sorted, 95.0, 99.0);
    MeanBounds(latencies);
  }

  // ---- The monitor ----

  function Suffix(samples: seq<Sample>, n: nat): seq<Sample> {
    if |samples| <= n then samples else samples[|samples| - n..]
  }

  function SamplesOf(samples: map<string, seq<Sample>>, target: string): seq<Sample> {
    if target in samples then samples[target] else []
  }

  /** A zero window never trims: Python's `[-0:]` is the whole list. */
  function Kept(samples: seq<Sample>, window: nat): seq<Sample> {
    if |samples| > window && window > 0 then samples[|samples| - window..] else samples
  }

  type Figures = map<string, Stats>

  ghost predicate AllCoherent(stats: Figures) {
    forall target :: target in stats ==> Coherent(stats[target])
  }

  /** The figures after an update: a target whose window holds no success keeps the ones it has. */
  function Updated(stats: Figures, target: string, samples: seq<Sample>): Figures {
    if Successful(samples) == [] then stats else stats[target := StatsOf(samples)]
  }

  lemma UpdatedCoherent(stats: Figures, target: string, samples: seq<Sample>)
    requires AllCoherent(stats)
    ensures AllCoherent(Updated(stats, target, samples))
  {
    if Successful(samples) != [] {
      StatsCoherent(samples);
    }
  }

  class LatencyMonitor {
    const sampleWindow: nat
    var samples: map<string, seq<Sample>>
    var stats: Figures

    ghost predicate Valid()
      reads this
    {
      AllCoherent(stats)
    }

    constructor (sampleWindow: nat)
      ensures this.sampleWindow == sampleWindow && samples == map[] && stats == map[] && Valid()
    {
      this.sampleWindow := sampleWindow;
      samples, stats := map[], map[];
    }

    method AddSample(target: string, sample: Sample)
      requires Valid()
      modifies this
      ensures Valid()
      ensures samples == old(samples)[target := Kept(SamplesOf(old(samples), target) + [sample], sampleWindow)]
      ensures stats == Updated(old(stats), target, samples[target])
    {
      Append(target, sample);
      UpdateStats(target);
    }

    method Append(target: string, sample: Sample)
      modifies this`samples
      ensures samples == old(samples)[target := Kept(SamplesOf(old(samples), target) + [sample], sampleWindow)]
    {
      var list := (if target in samples then samples[target] else []) + [sample];
      if |list| > sampleWindow {
        if sampleWindow > 0 {
          list := list[|list| - sampleWindow..];
        }
      }
      samples := samples[target := list];
    }

    method UpdateStats(target: string)
      requires Valid()
      modifies this`stats
      ensures Valid()
      ensures stats == Updated(old(stats), target, SamplesOf(samples, target))
    {
      var list := if target in samples then samples[target] else [];
      if list == [] {
        return;
      }
      var latencies := Successful(list);
      if latencies == [] {
        return;
      }
      UpdatedCoherent(stats, target, list);
      stats := stats[target := StatsOf(list)];
    }
  }

  /** One target's list after a run of samples. */
  function Window(added: seq<Sample>, window: nat): seq<Sample> {
    if added == [] then []
    else Kept(Window(added[..|added| - 1], window) + [added[|added| - 1]], window)
  }

  lemma KeptSuffix(added: seq<Sample>, last: Sample, window: nat)
    requires window >= 1
    ensures Kept(Suffix(added, window) + [last], window) == Suffix(added + [last], window)
  {
    var dropped := if |added| <= window then 0 else |added| - window;
    assert Suffix(added, window) == added[dropped..];
    assert added[dropped..] + [last] == (added + [last])[dropped..];
  }

  /** With a window of at least one, what is kept is exactly the last `window` samples ever added. */
  lemma {:induction false} WindowIsSuffix(added: seq<Sample>, window: nat)
    requires window >= 1
    ensures Window(added, window) == Suffix(added, window)
  {
    if added != [] {
      var front, last := added[..|added| - 1], added[|added| - 1];
      assert added == front + [last];
      WindowIsSuffix(front, window);
      KeptSuffix(front, last, window);
    }
  }
}
