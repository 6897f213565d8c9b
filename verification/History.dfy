/** Resampling a history to a number of buckets, and the plot data made from it.  Samples are reals. */
module History {
  import opened Arithmetic

  /** The sum of h[low..high]. */
  function Sum(h: seq<real>, low: nat, high: nat): real
    requires low <= high <= |h|
    decreases high - low
  {
    if low == high then 0.0 else Sum(h, low, high - 1) + h[high - 1]
  }

  lemma {:induction false} SumSplit(h: seq<real>, low: nat, mid: nat, high: nat)
    requires low <= mid <= high <= |h|
    ensures Sum(h, low, high) == Sum(h, low, mid) + Sum(h, mid, high)
    decreases high - mid
  {
    if mid < high {
      SumSplit(h, low, mid, high - 1);
    }
  }

  // ----- slices -----

  /** Where the visible samples start: the newest `visible` ones. */
  function Start(h: seq<real>, visible: nat): nat
    requires visible <= |h|
  {
    |h| - visible
  }

  /** The first sample of a bucket, counted from the window start. */
  function Offset(bucket: nat, visible: nat, count: nat): nat
    requires count > 0
  {
    (bucket * visible) / count
  }

  function SliceLow(h: seq<real>, bucket: nat, visible: nat, count: nat): nat
    requires count > 0 && visible <= |h|
  {
    Start(h, visible) + Offset(bucket, visible, count)
  }

  /** At least one sample, otherwise up to the next bucket's first one. */
  function SliceHigh(h: seq<real>, bucket: nat, visible: nat, count: nat): nat
    requires count > 0 && visible <= |h|
  {
    Max(SliceLow(h, bucket, visible, count) + 1, Start(h, visible) + Offset(bucket + 1, visible, count))
  }

  lemma QuotientBounds(x: nat, n: nat)
    requires n > 0
    ensures (x / n) * n <= x < (x / n) * n + n
  {
  }

  lemma StepBounds(x: nat, v: nat, n: nat, a: nat, b: nat)
    requires a * n <= x < a * n + n && b * n <= x + v < b * n + n
    ensures a <= b && (n <= v ==> a + 1 <= b) && (v <= n ==> b <= a + 1)
  {
    MulOrder(b, a, n);
    MulOrder(a + 1, b, n);
    assert (a + 1) * n == a * n + n;
  }

  lemma QuotientStep(x: nat, v: nat, n: nat)
    requires n > 0
    ensures x / n <= (x + v) / n
    ensures n <= v ==> x / n + 1 <= (x + v) / n
    ensures v <= n ==> (x + v) / n <= x / n + 1
  {
    QuotientBounds(x, n);
    QuotientBounds(x + v, n);
    StepBounds(x, v, n, x / n, (x + v) / n);
  }

  lemma OffsetStep(bucket: nat, visible: nat, count: nat)
    requires count > 0
    ensures Offset(bucket, visible, count) <= Offset(bucket + 1, visible, count)
    ensures count <= visible ==> Offset(bucket, visible, count) + 1 <= Offset(bucket + 1, visible, count)
    ensures visible <= count ==> Offset(bucket + 1, visible, count) <= Offset(bucket, visible, count) + 1
  {
    assert (bucket + 1) * visible == bucket * visible + visible;
    QuotientStep(bucket * visible, visible, count);
  }

  lemma OffsetEnds(bucket: nat, visible: nat, count: nat)
    requires count > 0
    ensures Offset(0, visible, count) == 0
    ensures Offset(count, visible, count) == visible
    ensures bucket < count && visible > 0 ==> Offset(bucket, visible, count) < visible
  {
    DivModIs(count * visible, count, visible, 0);
    DivModIs(0, count, 0, 0);
    QuotientBounds(bucket * visible, count);
    MulOrder(bucket, count, visible);
    MulOrder(visible, Offset(bucket, visible, count), count);
    assert count * visible == visible * count;
  }

  lemma SliceInWindow(h: seq<real>, bucket: nat, visible: nat, count: nat)
    requires 0 < visible <= |h| && bucket < count
    ensures Start(h, visible) <= SliceLow(h, bucket, visible, count) < SliceHigh(h, bucket, visible, count) <= |h|
  {
    OffsetEnds(bucket, visible, count);
    OffsetEnds(bucket + 1, visible, count);
    hide Offset;
  }

  /** The mean of one bucket. */
  function BucketMean(h: seq<real>, bucket: nat, visible: nat, count: nat): real
    requires 0 < visible <= |h| && bucket < count
  {
    SliceInWindow(h, bucket, visible, count);
    var low, high := SliceLow(h, bucket, visible, count), SliceHigh(h, bucket, visible, count);
    Sum(h, low, high) / (high - low) as real
  }

  function Resampled(h: seq<real>, count: nat, maxVisible: int): (r: seq<real>)
    ensures |r| == count
  {
    if maxVisible <= 0 || h == [] then seq(count, _ => 0.0)
    else
      var visible: nat := Min(maxVisible, |h|);
      seq(count, b requires 0 <= b < count => BucketMean(h, b, visible, count))
  }

  method ResampleHistory(h: seq<real>, count: nat, maxVisible: int) returns (samples: seq<real>)
    ensures samples == Resampled(h, count, maxVisible)
  {
    samples := seq(count, _ => 0.0);
    if count <= 0 || maxVisible <= 0 || h == [] {
      return;
    }
    var visible: nat := Min(maxVisible, |h|);
    var start := |h| - visible;
    hide Offset;
    var bucket := 0;
    while bucket < count
      invariant 0 <= bucket <= count && |samples| == count
      invariant forall b | 0 <= b < bucket :: samples[b] == BucketMean(h, b, visible, count)
    {
      SliceInWindow(h, bucket, visible, count);
      var sliceStart := start + Offset(bucket, visible, count);
      var sliceEnd := start + Offset(bucket + 1, visible, count);
      var end := Max(sliceStart + 1, sliceEnd);
      var sum := 0.0;
      var n := 0;
      var index := sliceStart;
      while index < end && index < |h|
        invariant sliceStart <= index <= end && n == index - sliceStart
        invariant sum == Sum(h, sliceStart, index)
      {
        sum := sum + h[index];
        n := n + 1;
        index := index + 1;
      }
      if n > 0 {
        samples := samples[bucket := sum / n as real];
      }
      bucket := bucket + 1;
    }
  }

  // ----- what resampling keeps -----

  /** Bucket ends meet bucket starts. */
  ghost predicate Contiguous(h: seq<real>, visible: nat, count: nat)
    requires count > 0 && visible <= |h|
  {
    forall b | 0 <= b < count - 1 :: SliceHigh(h, b, visible, count) == SliceLow(h, b + 1, visible, count)
  }

  lemma {:induction false} ContiguousOffsets(h: seq<real>, visible: nat, count: nat, bucket: nat)
    requires 0 < visible <= |h| && bucket < count && Contiguous(h, visible, count)
    ensures Offset(bucket, visible, count) >= bucket
  {
    hide Offset;
    if bucket > 0 {
      ContiguousOffsets(h, visible, count, bucket - 1);
      assert SliceHigh(h, bucket - 1, visible, count) == SliceLow(h, bucket - 1 + 1, visible, count);
    }
  }

  /** The slices are non-empty and cover exactly the newest samples; they are disjoint and contiguous
      exactly when there are no more buckets than samples. */
  lemma SlicesPartitionWindow(h: seq<real>, visible: nat, count: nat)
    requires 0 < visible <= |h| && count > 0
    ensures SliceLow(h, 0, visible, count) == Start(h, visible)
    ensures SliceHigh(h, count - 1, visible, count) == |h|
    ensures Contiguous(h, visible, count) <==> count <= visible
  {
    OffsetEnds(0, visible, count);
    OffsetEnds(count - 1, visible, count);
    hide Offset;
    OffsetStep(count - 1, visible, count);
    if count <= visible {
      forall b | 0 <= b < count - 1
        ensures SliceHigh(h, b, visible, count) == SliceLow(h, b + 1, visible, count)
      {
        OffsetStep(b, visible, count);
      }
    }
    if Contiguous(h, visible, count) {
      ContiguousOffsets(h, visible, count, count - 1);
    }
  }

  /** With more buckets than samples every bucket repeats a single sample. */
  lemma SingleSampleBuckets(h: seq<real>, visible: nat, count: nat, bucket: nat)
    requires 0 < visible <= |h| && visible <= count && bucket < count
    ensures var low := SliceLow(h, bucket, visible, count);
            low < |h| && BucketMean(h, bucket, visible, count) == h[low]
  {
    SliceInWindow(h, bucket, visible, count);
    OffsetStep(bucket, visible, count);
    hide Offset;
    var low := SliceLow(h, bucket, visible, count);
    assert SliceHigh(h, bucket, visible, count) == low + 1;
    assert Sum(h, low, low + 1) == h[low];
  }

  /** A bucket's mean weighted by its number of samples. */
  function WeightedMean(h: seq<real>, visible: nat, count: nat, bucket: nat): real
    requires 0 < visible <= |h| && bucket < count
  {
    (SliceHigh(h, bucket, visible, count) - SliceLow(h, bucket, visible, count)) as real *
    BucketMean(h, bucket, visible, count)
  }

  /** The sum of the first k weighted means. */
  function WeightedSum(h: seq<real>, visible: nat, count: nat, k: nat): real
    requires 0 < visible <= |h| && k <= count && count > 0
  {
    if k == 0 then 0.0 else WeightedSum(h, visible, count, k - 1) + WeightedMean(h, visible, count, k - 1)
  }

  lemma MeanTimesLength(sum: real, n: nat)
    requires n > 0
    ensures n as real * (sum / n as real) == sum
  {
  }

  lemma WeightedMeanIsSum(h: seq<real>, visible: nat, count: nat, bucket: nat)
    requires 0 < visible <= |h| && bucket < count
    ensures var low, high := SliceLow(h, bucket, visible, count), SliceHigh(h, bucket, visible, count);
            low < high <= |h| && WeightedMean(h, visible, count, bucket) == Sum(h, low, high)
  {
    SliceInWindow(h, bucket, visible, count);
    hide SliceLow, SliceHigh, Sum;
    var low, high := SliceLow(h, bucket, visible, count), SliceHigh(h, bucket, visible, count);
    MeanTimesLength(Sum(h, low, high), high - low);
  }

  lemma {:induction false} WeightedSumIsSum(h: seq<real>, visible: nat, count: nat, k: nat)
    requires 0 < visible <= |h| && 0 < k <= count <= visible
    ensures var high := SliceHigh(h, k - 1, visible, count);
            Start(h, visible) <= high <= |h| &&
            WeightedSum(h, visible, count, k) == Sum(h, Start(h, visible), high)
  {
    hide SliceLow, SliceHigh, Sum, WeightedMean;
    SlicesPartitionWindow(h, visible, count);
    SliceInWindow(h, k - 1, visible, count);
    WeightedMeanIsSum(h, visible, count, k - 1);
    SumSplit(h, Start(h, visible), SliceLow(h, k - 1, visible, count), SliceHigh(h, k - 1, visible, count));
    if k == 1 {
      EmptySum(h, Start(h, visible));
      assert WeightedSum(h, visible, count, 0) == 0.0;
    } else {
      WeightedSumIsSum(h, visible, count, k - 1);
      assert SliceHigh(h, k - 2, visible, count) == SliceLow(h, k - 2 + 1, visible, count);
    }
  }

  lemma EmptySum(h: seq<real>, low: nat)
    requires low <= |h|
    ensures Sum(h, low, low) == 0.0
  {
  }

  /** Conservation: the weighted bucket means add up to the sum of the visible window. */
  lemma ResamplingConserves(h: seq<real>, visible: nat, count: nat)
    requires 0 < count <= visible <= |h|
    ensures WeightedSum(h, visible, count, count) == Sum(h, Start(h, visible), |h|)
  {
    SlicesPartitionWindow(h, visible, count);
    WeightedSumIsSum(h, visible, count, count);
  }

  lemma {:induction false} SumBounds(h: seq<real>, low: nat, high: nat, least: real, most: real)
    requires low <= high <= |h| && forall i | low <= i < high :: least <= h[i] <= most
    ensures (high - low) as real * least <= Sum(h, low, high) <= (high - low) as real * most
    decreases high - low
  {
    if low < high {
      SumBounds(h, low, high - 1, least, most);
      assert (high - low) as real == (high - 1 - low) as real + 1.0;
    }
  }

  lemma QuotientOfBounds(sum: real, n: real, least: real, most: real)
    requires n > 0.0 && n * least <= sum <= n * most
    ensures least <= sum / n <= most
  {
    assert sum == n * (sum / n);
    var q := sum / n;
    assert n * (q - least) >= 0.0 && n * (most - q) >= 0.0;
  }

  /** Every bucket mean lies between any bounds of the window. */
  lemma MeansStayInRange(h: seq<real>, visible: nat, count: nat, bucket: nat, least: real, most: real)
    requires 0 < visible <= |h| && bucket < count
    requires forall i | Start(h, visible) <= i < |h| :: least <= h[i] <= most
    ensures least <= BucketMean(h, bucket, visible, count) <= most
  {
    SliceInWindow(h, bucket, visible, count);
    hide Offset;
    var low, high := SliceLow(h, bucket, visible, count), SliceHigh(h, bucket, visible, count);
    SumBounds(h, low, high, least, most);
    QuotientOfBounds(Sum(h, low, high), (high - low) as real, least, most);
  }

  // ----- the resampled list itself -----

  /** A bucket starts at the last sample that its share of the window reaches. */
  lemma SliceStartIs(h: seq<real>, visible: nat, count: nat, bucket: nat)
    requires 0 < visible <= |h| && bucket < count
    ensures var k := SliceLow(h, bucket, visible, count) - (|h| - visible);
            k * count <= bucket * visible < (k + 1) * count
  {
    QuotientBounds(bucket * visible, count);
  }

  /** How many samples a bucket takes. */
  function SliceLength(h: seq<real>, visible: nat, count: nat, bucket: nat): nat
    requires 0 < visible <= |h| && bucket < count
  {
    SliceInWindow(h, bucket, visible, count);
    SliceHigh(h, bucket, visible, count) - SliceLow(h, bucket, visible, count)
  }

  /** The sum of the first k values, each as often as its bucket takes samples. */
  function LengthWeighted(r: seq<real>, h: seq<real>, visible: nat, k: nat): real
    requires 0 < visible <= |h| && k <= |r|
  {
    if k == 0 then 0.0
    else LengthWeighted(r, h, visible, k - 1) + SliceLength(h, visible, |r|, k - 1) as real * r[k - 1]
  }

  lemma {:induction false} LengthWeightedIs(h: seq<real>, visible: nat, r: seq<real>, k: nat)
    requires 0 < visible <= |h| && k <= |r| && |r| > 0
    requires forall b | 0 <= b < |r| :: r[b] == BucketMean(h, b, visible, |r|)
    ensures LengthWeighted(r, h, visible, k) == WeightedSum(h, visible, |r|, k)
  {
    hide BucketMean, SliceLow, SliceHigh;
    if k > 0 {
      LengthWeightedIs(h, visible, r, k - 1);
    }
  }

  /** Conservation for the list itself: with at most as many buckets as visible samples, the length-weighted values
      add up to the newest samples, as many of them as are to be visible. */
  lemma ResampledConserves(h: seq<real>, count: nat, maxVisible: int)
    requires h != [] && 0 < count <= maxVisible && count <= |h|
    ensures var visible: nat := if maxVisible < |h| then maxVisible else |h|;
            LengthWeighted(Resampled(h, count, maxVisible), h, visible, count) == Sum(h, |h| - visible, |h|)
  {
    var visible: nat := if maxVisible < |h| then maxVisible else |h|;
    LengthWeightedIs(h, visible, Resampled(h, count, maxVisible), count);
    ResamplingConserves(h, visible, count);
    hide LengthWeighted, WeightedSum, Sum;
  }

  /** Nothing to show: all zero. */
  lemma ResampledNothing(h: seq<real>, count: nat, maxVisible: int)
    requires h == [] || maxVisible <= 0
    ensures forall b | 0 <= b < count :: Resampled(h, count, maxVisible)[b] == 0.0
  {
  }

  // ----- plot data -----

  function SamplePoints(maxPlotCols: int): nat {
    Max(1, maxPlotCols / 2)
  }

  function RawSamples(gpu: seq<real>, secondary: seq<real>, refreshMs: int): nat {
    Min(Min(|gpu|, |secondary|), Max(1, 60000 / Max(100, refreshMs)))
  }

  /** C++ truncates the quotient, which the floor of one hides for negative intervals. */
  function VisibleSeconds(points: nat, refreshMs: int): (seconds: int)
    ensures 1 <= seconds <= 60
  {
    Min(60, Max(1, points * refreshMs / 1000))
  }

  /** The samples used: as many as both histories have, and no more than a minute of them at the refresh interval,
      which counts as a tenth of a second at least. */
  lemma RawSamplesAre(gpu: seq<real>, secondary: seq<real>, refreshMs: int)
    ensures var raw := RawSamples(gpu, secondary, refreshMs);
            var interval := if refreshMs < 100 then 100 else refreshMs;
            && raw <= |gpu| && raw <= |secondary| && (raw <= 1 || raw * interval <= 60000)
            && (raw == |gpu| || raw == |secondary| || (raw >= 1 && (raw + 1) * interval > 60000))
  {
    var interval := if refreshMs < 100 then 100 else refreshMs;
    QuotientBounds(60000, interval);
    var most := Max(1, 60000 / interval);
    var raw := RawSamples(gpu, secondary, refreshMs);
    if raw > 1 {
      MulOrder(raw, 60000 / interval, interval);
    }
  }

  /** The whole seconds that the plotted points cover, but at least one and at most sixty. */
  lemma VisibleSecondsAre(points: nat, refreshMs: nat)
    ensures var seconds := VisibleSeconds(points, refreshMs);
            && (seconds == 60 || points * refreshMs < 1000 * (seconds + 1))
            && (seconds == 1 || 1000 * seconds <= points * refreshMs)
  {
    QuotientBounds(points * refreshMs, 1000);
  }

  /** The pairs of lines fit into the plot exactly when it does not have one column. */
  lemma PlotFits(maxPlotCols: int)
    requires maxPlotCols > 0
    ensures 2 * SamplePoints(maxPlotCols) <= maxPlotCols <==> maxPlotCols != 1
    ensures SamplePoints(maxPlotCols) >= 1
  {
  }

  /** Writes two value lists interleaved from a cell on.  A write past the end of the plot is not performed but
      reported. */
  method FillPlot(plot: array<real>, sampleStart: nat, util: seq<real>, secondary: seq<real>) returns (inBounds: bool)
    requires |util| == |secondary|
    modifies plot
    ensures inBounds <==> util == [] || 2 * (sampleStart + |util|) <= plot.Length
    ensures forall i | 0 <= i < plot.Length && !(2 * sampleStart <= i < 2 * (sampleStart + |util|)) ::
              plot[i] == old(plot[i])
    ensures forall s | 0 <= s < |util| ::
              && (2 * (sampleStart + s) < plot.Length ==> plot[2 * (sampleStart + s)] == util[s])
              && (2 * (sampleStart + s) + 1 < plot.Length ==> plot[2 * (sampleStart + s) + 1] == secondary[s])
  {
    inBounds := true;
    var sample := 0;
    while sample < |util|
      invariant 0 <= sample <= |util|
      invariant inBounds <==> sample == 0 || 2 * (sampleStart + sample) <= plot.Length
      invariant forall i | 0 <= i < plot.Length && !(2 * sampleStart <= i < 2 * (sampleStart + sample)) ::
                  plot[i] == old(plot[i])
      invariant forall s | 0 <= s < sample ::
                  && (2 * (sampleStart + s) < plot.Length ==> plot[2 * (sampleStart + s)] == util[s])
                  && (2 * (sampleStart + s) + 1 < plot.Length ==> plot[2 * (sampleStart + s) + 1] == secondary[s])
    {
      var offset := (sampleStart + sample) * 2;
      if offset < plot.Length {
        plot[offset] := util[sample];
      }
      if offset + 1 < plot.Length {
        plot[offset + 1] := secondary[sample];
      } else {
        inBounds := false;
      }
      sample := sample + 1;
    }
  }

  /** Fills the newest end of the interleaved plot and leaves the rest zero.  All writes stay inside the plot
      exactly when it does not receive data in a single column. */
  method PopulateNvtopPlotData(gpu: seq<real>, secondary: seq<real>, refreshMs: int, maxPlotCols: int)
    returns (plot: array<real>, visibleSeconds: int, inBounds: bool)
    ensures fresh(plot) && plot.Length == Max(0, maxPlotCols)
    ensures inBounds <==> maxPlotCols != 1 || RawSamples(gpu, secondary, refreshMs) == 0
    ensures maxPlotCols <= 0 ==> visibleSeconds == 0
    ensures maxPlotCols > 0 ==> visibleSeconds == VisibleSeconds(SamplePoints(maxPlotCols), refreshMs)
    ensures var points, raw := SamplePoints(maxPlotCols), RawSamples(gpu, secondary, refreshMs);
            var filled := if maxPlotCols <= 0 then 0 else Min(points, raw);
            && (forall i | 0 <= i < plot.Length && !(2 * (points - filled) <= i < 2 * points) :: plot[i] == 0.0)
            && (filled > 0 && inBounds ==> 2 * points <= plot.Length)
            && (forall s | 0 <= s < filled ::
                  && (2 * (points - filled + s) < plot.Length ==>
                        plot[2 * (points - filled + s)] == Resampled(gpu, filled, raw)[s])
                  && (2 * (points - filled + s) + 1 < plot.Length ==>
                        plot[2 * (points - filled + s) + 1] == Resampled(secondary, filled, raw)[s]))
  {
    hide Resampled, SamplePoints, RawSamples, VisibleSeconds;
    plot := new real[Max(0, maxPlotCols)](_ => 0.0);
    inBounds := true;
    if maxPlotCols <= 0 {
      visibleSeconds := 0;
      return;
    }
    var points := SamplePoints(maxPlotCols);
    var raw := RawSamples(gpu, secondary, refreshMs);
    visibleSeconds := VisibleSeconds(points, refreshMs);
    if raw <= 0 {
      return;
    }
    PlotFits(maxPlotCols);
    var filled: nat := Min(points, raw);
    var utilValues := ResampleHistory(gpu, filled, raw);
    var secondaryValues := ResampleHistory(secondary, filled, raw);
    inBounds := FillPlot(plot, points - filled, utilValues, secondaryValues);
  }
}
