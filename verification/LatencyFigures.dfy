/** What the stored latency figures say about the samples, without naming how they are computed. */
module LatencyFigures {
  import opened Sorting
  import opened Latency

  /** `x` divides the step from `s[k]` to `s[k + 1]` as `percent` percent of the way through the list falls in it. */
  ghost predicate Divides(s: seq<real>, percent: nat, k: nat, x: real)
    requires k + 1 < |s|
  {
    var share := percent * (|s| - 1) - 100 * k;
    100.0 * x == s[k] * (100 - share) as real + s[k + 1] * share as real
  }

  lemma IndexInHundredths(n: nat, percent: nat)
    requires n > 0 && percent <= 100
    ensures 100.0 * IndexOf(n, percent as real) == (percent * (n - 1)) as real
  {
    var p, last := percent as real, (n - 1) as real;
    assert IndexOf(n, p) == p / 100.0 * last;
    assert 100.0 * (p / 100.0 * last) == p * last;
    assert p * last == (percent * (n - 1)) as real;
  }

  lemma FloorBetween(index: real, k: int)
    requires k as real <= index < (k + 1) as real
    ensures index.Floor == k
  {
  }

  /** The percentile lies where the percentage falls between two neighbours. */
  lemma PercentileFalls(s: seq<real>, percent: nat, k: nat)
    requires percent <= 100 && k + 1 < |s| && 100 * k <= percent * (|s| - 1) < 100 * (k + 1)
    ensures Divides(s, percent, k, Percentile(s, percent as real))
  {
    var index := IndexOf(|s|, percent as real);
    IndexInHundredths(|s|, percent);
    var share := percent * (|s| - 1) - 100 * k;
    assert 100.0 * index == (100 * k + share) as real;
    FloorBetween(index, k);
    var weight := index - k as real;
    assert 100.0 * weight == share as real;
    if share == 0 {
      assert index == k as real;
      assert Percentile(s, percent as real) == s[k];
    } else {
      var x := Percentile(s, percent as real);
      assert x == s[k] * (1.0 - weight) + s[k + 1] * weight;
      Scale(s[k], s[k + 1], weight, share);
    }
  }

  lemma Scale(a: real, b: real, weight: real, share: int)
    requires 100.0 * weight == share as real
    ensures 100.0 * (a * (1.0 - weight) + b * weight) == a * (100 - share) as real + b * share as real
  {
    assert 100.0 * (a * (1.0 - weight)) == a * (100.0 - 100.0 * weight);
    assert 100.0 * (b * weight) == b * (100.0 * weight);
  }

  /** At the ends there is nothing to divide: one sample, or the hundredth percentile. */
  lemma PercentileEnds(s: seq<real>, percent: nat)
    requires s != [] && percent <= 100 && (|s| == 1 || percent == 100)
    ensures Percentile(s, percent as real) == s[|s| - 1]
  {
    IndexInHundredths(|s|, percent);
    assert IndexOf(|s|, percent as real) == (|s| - 1) as real;
  }

  // ---- The figures ----

  lemma {:induction false} SuccessfulMembers(samples: seq<Sample>, x: real)
    ensures x in Successful(samples)
       <==> exists i :: 0 <= i < |samples| && samples[i].success && samples[i].latency == x
  {
    if samples != [] {
      var front := samples[..|samples| - 1];
      SuccessfulMembers(front, x);
      assert forall i :: 0 <= i < |front| ==> front[i] == samples[i];
    }
  }

  lemma MeanIsAverage(s: seq<real>)
    requires s != []
    ensures IsAverage(Mean(s), s)
  {
    QuotientTimes(Sum(s), |s| as real);
  }

  /** The mean is over the successes, the loss rate over all samples. */
  lemma AveragesMeaning(samples: seq<Sample>)
    requires Successful(samples) != [] && samples != []
    ensures var f := StatsOf(samples);
      f.count == |samples| && IsAverage(f.mean, Successful(samples)) && IsAverage(f.lossRate, Losses(samples))
    ensures forall i :: 0 <= i < |samples| ==> Losses(samples)[i] == samples[i].packetLoss
  {
    AverageFields(samples);
    MeanIsAverage(Successful(samples));
    MeanIsAverage(Losses(samples));
  }

  lemma AverageFields(samples: seq<Sample>)
    requires Successful(samples) != [] && samples != []
    ensures var f := StatsOf(samples);
      f.count == |samples| && f.mean == Mean(Successful(samples)) && f.lossRate == Mean(Losses(samples))
  {
  }

  lemma ExtremesMeaning(samples: seq<Sample>, s: seq<real>)
    requires Successful(samples) != [] && Arrangement(s, Successful(samples))
    ensures s != [] && StatsOf(samples).min == s[0] && StatsOf(samples).max == s[|s| - 1]
  {
    ArrangementIsSorted(s, Successful(samples));
    SortedEnds(Successful(samples));
  }

  /** The median is the middle success, or halfway between the two in the middle. */
  lemma MedianMeaning(samples: seq<Sample>, s: seq<real>)
    requires Successful(samples) != [] && Arrangement(s, Successful(samples))
    ensures var median := StatsOf(samples).median;
      if |s| % 2 == 1 then median == s[|s| / 2] else |s| > 1 && 2.0 * median == s[|s| / 2 - 1] + s[|s| / 2]
  {
    ArrangementIsSorted(s, Successful(samples));
  }

  /** The 95th and 99th percentiles lie where 95 and 99 percent of the way through the sorted successes fall. */
  lemma PercentilesMeaning(samples: seq<Sample>, s: seq<real>, j: nat, k: nat)
    requires Successful(samples) != [] && Arrangement(s, Successful(samples))
    ensures |s| == 1 ==> StatsOf(samples).p95 == s[0] && StatsOf(samples).p99 == s[0]
    ensures j + 1 < |s| && 100 * j <= 95 * (|s| - 1) < 100 * (j + 1) ==> Divides(s, 95, j, StatsOf(samples).p95)
    ensures k + 1 < |s| && 100 * k <= 99 * (|s| - 1) < 100 * (k + 1) ==> Divides(s, 99, k, StatsOf(samples).p99)
  {
    ArrangementIsSorted(s, Successful(samples));
    if |s| == 1 {
      PercentileEnds(s, 95);
      PercentileEnds(s, 99);
    }
    if j + 1 < |s| && 100 * j <= 95 * (|s| - 1) < 100 * (j + 1) {
      PercentileFalls(s, 95, j);
    }
    if k + 1 < |s| && 100 * k <= 99 * (|s| - 1) < 100 * (k + 1) {
      PercentileFalls(s, 99, k);
    }
  }
}
