/** Moving averages, Wilder smoothing and the indicators built on them: each single-pass
    loop against the window or the recurrence it stands for. */
module Indicators {
  import opened Prelude

  /** One daily bar; dates are day numbers. */
  datatype Candle = Candle(date: int, open: real, high: real, low: real, close: real, volume: int)

  function Sum(xs: seq<real>): real {
    if xs == [] then 0.0 else Sum(xs[..|xs| - 1]) + xs[|xs| - 1]
  }

  function Mean(xs: seq<real>): real
    requires xs != []
  {
    Sum(xs) / |xs| as real
  }

  // ---- simple moving average ----

  lemma {:induction false} SumFromFront(xs: seq<real>)
    requires xs != []
    ensures Sum(xs) == xs[0] + Sum(xs[1..])
  {
    if |xs| == 1 {
      assert Sum(xs[..0]) == 0.0;
    } else {
      SumFromFront(xs[..|xs| - 1]);
      assert xs[1..][..|xs| - 2] == xs[..|xs| - 1][1..];
    }
  }

  /** Moving a window one place to the right. */
  lemma WindowSlides(xs: seq<real>, from: nat, to: nat)
    requires from <= to < |xs|
    ensures Sum(xs[from..to + 1]) == Sum(xs[from..to]) + xs[to]
    ensures Sum(xs[from + 1..to + 1]) == Sum(xs[from..to + 1]) - xs[from]
  {
    assert xs[from..to + 1][..to - from] == xs[from..to];
    SumFromFront(xs[from..to + 1]);
    assert xs[from..to + 1][1..] == xs[from + 1..to + 1];
  }

  /** One running sum gives the mean of every full window. */
  method Sma(values: seq<real>, window: int) returns (out: Option<seq<Option<real>>>)
    ensures out.None? <==> window <= 0
    ensures out.Some? ==> |out.value| == |values|
    ensures out.Some? ==> forall i :: 0 <= i < |values| ==>
      out.value[i] == if i >= window - 1 then Some(Mean(values[i - window + 1..i + 1])) else None
  {
    if window <= 0 { return None; }
    var averages: seq<Option<real>> := [];
    var running := 0.0;
    for i := 0 to |values|
      invariant |averages| == i
      invariant running == Sum(values[MaxInt(i - window, 0)..i])
      invariant forall k :: 0 <= k < i ==>
        averages[k] == if k >= window - 1 then Some(Mean(values[k - window + 1..k + 1])) else None
    {
      WindowSlides(values, MaxInt(i - window, 0), i);
      running := running + values[i];
      if i >= window {
        running := running - values[i - window];
      }
      averages := averages + [if i >= window - 1 then Some(running / window as real) else None];
    }
    out := Some(averages);
  }

  // ---- Wilder smoothing ----

  /** The next average: the new value counts one part in `period`. */
  function Smoothed(average: real, x: real, period: nat): real
    requires period >= 1
  {
    (average * (period - 1) as real + x) / period as real
  }

  /** The average after i values: the plain mean of the first `period`, then each value
      counts one part in `period`. */
  function Wilder(xs: seq<real>, period: nat, i: nat): real
    requires 1 <= period <= i <= |xs|
  {
    if i == period then Mean(xs[..period])
    else Smoothed(Wilder(xs, period, i - 1), xs[i - 1], period)
  }

  ghost predicate Within(xs: seq<real>, n: nat, lo: real, hi: real)
    requires n <= |xs|
  {
    forall k :: 0 <= k < n ==> lo <= xs[k] <= hi
  }

  lemma Quotient(total: real, n: nat, lo: real, hi: real)
    requires n > 0 && lo * n as real <= total <= hi * n as real
    ensures lo <= total / n as real <= hi
  {
  }

  lemma OneMore(a: real, n: nat)
    ensures a * (n + 1) as real == a * n as real + a
  {
  }

  /** n copies of one value, added up. */
  function Copies(a: real, n: nat): real {
    if n == 0 then 0.0 else Copies(a, n - 1) + a
  }

  lemma {:induction false} CopiesIsProduct(a: real, n: nat)
    ensures Copies(a, n) == a * n as real
  {
    if n > 0 {
      CopiesIsProduct(a, n - 1);
      OneMore(a, n - 1);
    }
  }

  lemma {:induction false} SumWithin(xs: seq<real>, lo: real, hi: real)
    requires Within(xs, |xs|, lo, hi)
    ensures Copies(lo, |xs|) <= Sum(xs) <= Copies(hi, |xs|)
  {
    if xs != [] {
      SumWithin(xs[..|xs| - 1], lo, hi);
    }
  }

  lemma MeanWithin(xs: seq<real>, lo: real, hi: real)
    requires xs != [] && Within(xs, |xs|, lo, hi)
    ensures lo <= Mean(xs) <= hi
  {
    SumWithin(xs, lo, hi);
    CopiesIsProduct(lo, |xs|);
    CopiesIsProduct(hi, |xs|);
    Quotient(Sum(xs), |xs|, lo, hi);
  }

  lemma ScaledBy(a: real, b: real, w: real)
    requires a <= b && w >= 0.0
    ensures a * w <= b * w
  {
  }

  lemma WeightsWithin(average: real, x: real, w: real, lo: real, hi: real)
    requires lo <= average <= hi && lo <= x <= hi && w >= 0.0
    ensures lo * (w + 1.0) <= average * w + x <= hi * (w + 1.0)
  {
    ScaledBy(lo, average, w);
    ScaledBy(average, hi, w);
    assert lo * (w + 1.0) == lo * w + lo;
    assert hi * (w + 1.0) == hi * w + hi;
  }

  lemma SmoothedWithin(average: real, x: real, period: nat, lo: real, hi: real)
    requires period >= 1 && lo <= average <= hi && lo <= x <= hi
    ensures lo <= Smoothed(average, x, period) <= hi
  {
    var w := (period - 1) as real;
    WeightsWithin(average, x, w, lo, hi);
    assert period as real == w + 1.0;
    Quotient(average * w + x, period, lo, hi);
  }

  /** A smoothed value lies between the smallest and the largest value seen. */
  lemma {:induction false} WilderStaysWithin(xs: seq<real>, period: nat, i: nat, lo: real, hi: real)
    requires 1 <= period <= i <= |xs| && Within(xs, i, lo, hi)
    ensures lo <= Wilder(xs, period, i) <= hi
  {
    if i == period {
      MeanWithin(xs[..period], lo, hi);
    } else {
      WilderStaysWithin(xs, period, i - 1, lo, hi);
      SmoothedWithin(Wilder(xs, period, i - 1), xs[i - 1], period, lo, hi);
    }
  }

  lemma {:induction false} SumOfNonNegative(xs: seq<real>)
    requires forall k :: 0 <= k < |xs| ==> xs[k] >= 0.0
    ensures Sum(xs) >= 0.0
    ensures Sum(xs) == 0.0 <==> forall k :: 0 <= k < |xs| ==> xs[k] == 0.0
  {
    if xs != [] {
      SumOfNonNegative(xs[..|xs| - 1]);
    }
  }

  lemma MeanSign(xs: seq<real>)
    requires xs != [] && forall k :: 0 <= k < |xs| ==> xs[k] >= 0.0
    ensures Mean(xs) >= 0.0
    ensures Mean(xs) == 0.0 <==> forall k :: 0 <= k < |xs| ==> xs[k] == 0.0
  {
    SumOfNonNegative(xs);
    QuotientSign(Sum(xs), |xs|);
  }

  /** The oldest value that still counts after i values: with a period of one only the last
      does, otherwise nothing is ever forgotten. */
  function Oldest(period: nat, i: nat): nat
    requires 1 <= period <= i
  {
    if period == 1 then i - 1 else 0
  }

  /** A smoothed average of non-negative values is zero exactly when all that count are. */
  lemma {:induction false} WilderIsZeroIff(xs: seq<real>, period: nat, i: nat)
    requires 1 <= period <= i <= |xs| && forall k :: 0 <= k < |xs| ==> xs[k] >= 0.0
    ensures Wilder(xs, period, i) >= 0.0
    ensures Wilder(xs, period, i) == 0.0 <==> forall k :: Oldest(period, i) <= k < i ==> xs[k] == 0.0
  {
    if i == period {
      MeanSign(xs[..period]);
    } else {
      WilderIsZeroIff(xs, period, i - 1);
      SmoothedSign(Wilder(xs, period, i - 1), xs[i - 1], period);
    }
  }

  lemma QuotientSign(total: real, n: nat)
    requires n > 0 && total >= 0.0
    ensures total / n as real >= 0.0 && (total / n as real == 0.0 <==> total == 0.0)
  {
  }

  lemma ProductSign(a: real, b: real)
    requires a >= 0.0 && b > 0.0
    ensures a * b >= 0.0 && (a * b == 0.0 <==> a == 0.0)
  {
  }

  lemma SmoothedSign(average: real, x: real, period: nat)
    requires period >= 1 && average >= 0.0 && x >= 0.0
    ensures Smoothed(average, x, period) >= 0.0
    ensures period >= 2 ==> (Smoothed(average, x, period) == 0.0 <==> average == 0.0 && x == 0.0)
    ensures period == 1 ==> Smoothed(average, x, period) == x
  {
    if period > 1 {
      ProductSign(average, (period - 1) as real);
    }
    QuotientSign(average * (period - 1) as real + x, period);
  }

  // ---- average true range ----

  function TrueRange(c: Candle, previous: Candle): real {
    Max(c.high - c.low, Max(Abs(c.high - previous.close), Abs(c.low - previous.close)))
  }

  function TrueRanges(candles: seq<Candle>): (r: seq<real>)
    ensures |r| == MaxInt(|candles| - 1, 0)
    ensures forall k {:trigger r[k]} :: 0 <= k < |r| ==> r[k] == TrueRange(candles[k + 1], candles[k]) && r[k] >= 0.0
  {
    if candles == [] then [] else
      seq(|candles| - 1, k requires 0 <= k < |candles| - 1 => TrueRange(candles[k + 1], candles[k]))
  }

  /** The first loop of the ATR. */
  method CollectTrueRanges(candles: seq<Candle>) returns (ranges: seq<real>)
    requires candles != []
    ensures ranges == TrueRanges(candles)
  {
    ranges := [];
    for i := 1 to |candles|
      invariant |ranges| == i - 1
      invariant forall k :: 0 <= k < i - 1 ==> ranges[k] == TrueRange(candles[k + 1], candles[k])
    {
      ranges := ranges + [TrueRange(candles[i], candles[i - 1])];
    }
  }

  /** Bar i carries the average of the i true ranges up to it. */
  method Atr(candles: seq<Candle>, period: int) returns (out: Option<seq<Option<real>>>)
    ensures out.None? <==> period <= 0
    ensures out.Some? ==> |out.value| == |candles|
    ensures out.Some? ==> forall i :: 0 <= i < |candles| ==>
      out.value[i] == if i >= period then Some(Wilder(TrueRanges(candles), period, i)) else None
  {
    if period <= 0 { return None; }
    if |candles| < period + 1 { return Some(seq(|candles|, _ => None)); }
    var ranges := CollectTrueRanges(candles);
    var averages := SmoothAll(ranges, period);
    out := Some(averages);
  }

  /** The second loop: one running average, written at each bar from `period` on. */
  method SmoothAll(ranges: seq<real>, period: nat) returns (averages: seq<Option<real>>)
    requires 1 <= period <= |ranges|
    ensures |averages| == |ranges| + 1
    ensures forall i :: 0 <= i <= |ranges| ==> averages[i] == if i >= period then Some(Wilder(ranges, period, i)) else None
  {
    averages := seq(|ranges| + 1, _ => None);
    var average := Mean(ranges[..period]);
    averages := averages[period := Some(average)];
    for i := period + 1 to |ranges| + 1
      invariant |averages| == |ranges| + 1 && average == Wilder(ranges, period, i - 1)
      invariant forall k :: 0 <= k <= |ranges| ==>
        averages[k] == if period <= k < i then Some(Wilder(ranges, period, k)) else None
    {
      average := Smoothed(average, ranges[i - 1], period);
      averages := averages[i := Some(average)];
    }
  }

  /** The smoothed range lies between the smallest and the largest true range seen so far. */
  lemma AtrStaysWithin(candles: seq<Candle>, period: nat, i: nat, lo: real, hi: real)
    requires 1 <= period <= i < |candles|
    requires forall k :: 1 <= k <= i ==> lo <= TrueRange(candles[k], candles[k - 1]) <= hi
    ensures lo <= Wilder(TrueRanges(candles), period, i) <= hi
  {
    var ranges := TrueRanges(candles);
    forall k | 0 <= k < i ensures lo <= ranges[k] <= hi {
      assert ranges[k] == TrueRange(candles[k + 1], candles[(k + 1) - 1]);
    }
    WilderStaysWithin(ranges, period, i, lo, hi);
  }

  /** The last average, or a fallback when there are too few bars. */
  function LatestAtr(candles: seq<Candle>, period: nat): real
    requires period >= 1
  {
    if |candles| > period then Wilder(TrueRanges(candles), period, |candles| - 1)
    else if candles == [] then 1.0
    else if |candles| == 1 then candles[0].close * 0.02
    else Mean(TrueRanges(candles))
  }

  /** The latest ATR is a true range's size: between any bounds on the true ranges of the
      bars given, and so never negative unless its one-bar fallback sees a negative close. */
  lemma LatestAtrStaysWithin(candles: seq<Candle>, period: nat, lo: real, hi: real)
    requires period >= 1 && |candles| >= 2
    requires forall k :: 1 <= k < |candles| ==> lo <= TrueRange(candles[k], candles[k - 1]) <= hi
    ensures lo <= LatestAtr(candles, period) <= hi
  {
    var ranges := TrueRanges(candles);
    forall k | 0 <= k < |ranges| ensures lo <= ranges[k] <= hi {
      assert ranges[k] == TrueRange(candles[k + 1], candles[(k + 1) - 1]);
    }
    if |candles| > period {
      WilderStaysWithin(ranges, period, |candles| - 1, lo, hi);
    } else {
      MeanWithin(ranges, lo, hi);
    }
  }

  lemma {:induction false} AverageOfNonNegative(xs: seq<real>, period: nat, i: nat)
    requires 1 <= period <= i <= |xs| && forall k :: 0 <= k < |xs| ==> xs[k] >= 0.0
    ensures Wilder(xs, period, i) >= 0.0
  {
    if i == period {
      MeanSign(xs[..period]);
    } else {
      AverageOfNonNegative(xs, period, i - 1);
      SmoothedSign(Wilder(xs, period, i - 1), xs[i - 1], period);
    }
  }

  lemma LatestAtrIsNotNegative(candles: seq<Candle>, period: nat)
    requires period >= 1
    ensures LatestAtr(candles, period) < 0.0 <==> |candles| == 1 && candles[0].close < 0.0
  {
    var ranges := TrueRanges(candles);
    if |candles| > period {
      AverageOfNonNegative(ranges, period, |candles| - 1);
    } else if |candles| > 1 {
      MeanSign(ranges);
    }
  }

  // ---- relative strength index ----

  function RsiFromAverages(gain: real, loss: real): real
    requires gain >= 0.0 && loss >= 0.0
  {
    if loss == 0.0 then 100.0 else 100.0 - 100.0 / (1.0 + gain / loss)
  }

  function Gains(values: seq<real>): (r: seq<real>)
    ensures |r| == MaxInt(|values| - 1, 0)
    ensures forall k {:trigger r[k]} :: 0 <= k < |r| ==> r[k] == Max(values[k + 1] - values[k], 0.0)
  {
    if values == [] then [] else
      seq(|values| - 1, k requires 0 <= k < |values| - 1 => Max(values[k + 1] - values[k], 0.0))
  }

  function Losses(values: seq<real>): (r: seq<real>)
    ensures |r| == MaxInt(|values| - 1, 0)
    ensures forall k {:trigger r[k]} :: 0 <= k < |r| ==> r[k] == Max(values[k] - values[k + 1], 0.0)
  {
    if values == [] then [] else
      seq(|values| - 1, k requires 0 <= k < |values| - 1 => Max(values[k] - values[k + 1], 0.0))
  }

  function RsiAt(values: seq<real>, period: nat, i: nat): real
    requires 1 <= period <= i < |values|
  {
    AverageOfNonNegative(Gains(values), period, i);
    AverageOfNonNegative(Losses(values), period, i);
    RsiFromAverages(Wilder(Gains(values), period, i), Wilder(Losses(values), period, i))
  }

  /** The first loop of the index. */
  method SplitChanges(values: seq<real>, period: nat) returns (gains: seq<real>, losses: seq<real>)
    requires period < |values|
    ensures gains == Gains(values)[..period] && losses == Losses(values)[..period]
  {
    ghost var allGains, allLosses := Gains(values), Losses(values);
    gains, losses := [], [];
    for i := 1 to period + 1
      invariant gains == allGains[..i - 1] && losses == allLosses[..i - 1]
    {
      var change := values[i] - values[i - 1];
      assert allGains[..i] == allGains[..i - 1] + [allGains[i - 1]];
      assert allLosses[..i] == allLosses[..i - 1] + [allLosses[i - 1]];
      gains, losses := gains + [Max(change, 0.0)], losses + [Max(-change, 0.0)];
    }
  }

  method Rsi(values: seq<real>, period: int) returns (out: Option<seq<Option<real>>>)
    ensures out.None? <==> period <= 0
    ensures out.Some? ==> |out.value| == |values|
    ensures out.Some? ==> forall i :: 0 <= i < |values| ==>
      out.value[i] == if i >= period then Some(RsiAt(values, period, i)) else None
  {
    if period <= 0 { return None; }
    if |values| < period + 1 { return Some(seq(|values|, _ => None)); }
    var gains, losses := SplitChanges(values, period);
    var indices := IndexAll(values, period, gains, losses);
    out := Some(indices);
  }

  /** The second loop: two running averages and their index, bar by bar. */
  method IndexAll(values: seq<real>, period: nat, gains: seq<real>, losses: seq<real>)
    returns (indices: seq<Option<real>>)
    requires 1 <= period < |values|
    requires gains == Gains(values)[..period] && losses == Losses(values)[..period]
    ensures |indices| == |values|
    ensures forall i :: 0 <= i < |values| ==> indices[i] == if i >= period then Some(RsiAt(values, period, i)) else None
  {
    ghost var allGains, allLosses := Gains(values), Losses(values);
    indices := seq(|values|, _ => None);
    var gain, loss := Mean(gains), Mean(losses);
    var index := IndexFrom(values, period, period, gain, loss);
    indices := indices[period := Some(index)];
    for i := period + 1 to |values|
      invariant |indices| == |values|
      invariant gain == Wilder(allGains, period, i - 1) && loss == Wilder(allLosses, period, i - 1)
      invariant forall k :: 0 <= k < |values| ==>
        indices[k] == if period <= k < i then Some(RsiAt(values, period, k)) else None
    {
      gain, loss, index := NextIndex(values, period, i, gain, loss);
      indices := indices[i := Some(index)];
    }
  }

  /** One round of that loop. */
  method NextIndex(values: seq<real>, period: nat, i: nat, gain: real, loss: real)
    returns (up: real, down: real, index: real)
    requires 1 <= period < i < |values|
    requires gain == Wilder(Gains(values), period, i - 1) && loss == Wilder(Losses(values), period, i - 1)
    ensures up == Wilder(Gains(values), period, i) && down == Wilder(Losses(values), period, i)
    ensures index == RsiAt(values, period, i)
  {
    var change := values[i] - values[i - 1];
    up, down := Smoothed(gain, Max(change, 0.0), period), Smoothed(loss, Max(-change, 0.0), period);
    index := IndexFrom(values, period, i, up, down);
  }

  /** The index of two averages that the loop has kept. */
  method IndexFrom(values: seq<real>, period: nat, i: nat, gain: real, loss: real) returns (index: real)
    requires 1 <= period <= i < |values|
    requires gain == Wilder(Gains(values), period, i) && loss == Wilder(Losses(values), period, i)
    ensures index == RsiAt(values, period, i)
  {
    AverageOfNonNegative(Gains(values), period, i);
    AverageOfNonNegative(Losses(values), period, i);
    index := RsiFromAverages(gain, loss);
  }

  /** The index is the share of gains in all movement, in percent. */
  lemma RsiIsShareOfGains(gain: real, loss: real)
    requires gain >= 0.0 && loss >= 0.0
    ensures 0.0 <= RsiFromAverages(gain, loss) <= 100.0
    ensures gain + loss > 0.0 ==> RsiFromAverages(gain, loss) * (gain + loss) == 100.0 * gain
    ensures RsiFromAverages(gain, loss) == 100.0 <==> loss == 0.0
    ensures RsiFromAverages(gain, loss) == 0.0 <==> gain == 0.0 && loss > 0.0
  {
    if loss > 0.0 {
      var ratio := gain / loss;
      QuotientOfNonNegative(gain, loss);
      assert ratio * loss == gain;
      var rest := 100.0 / (1.0 + ratio);
      assert rest * (1.0 + ratio) == 100.0;
      assert rest * loss + rest * gain == 100.0 * loss by {
        assert rest * (1.0 + ratio) * loss == rest * loss + rest * (ratio * loss);
      }
      assert 0.0 < rest <= 100.0;
    }
  }

  lemma QuotientOfNonNegative(a: real, b: real)
    requires a >= 0.0 && b > 0.0
    ensures a / b >= 0.0 && (a / b == 0.0 <==> a == 0.0)
  {
  }

  /** The series did not fall (did not rise) between two moments. */
  predicate NeverFell(values: seq<real>, from: nat, to: nat)
    requires to < |values|
  {
    forall k :: from <= k < to ==> values[k] <= values[k + 1]
  }

  predicate NeverRose(values: seq<real>, from: nat, to: nat)
    requires to < |values|
  {
    forall k :: from <= k < to ==> values[k] >= values[k + 1]
  }

  lemma ChangesVanish(values: seq<real>, from: nat, to: nat)
    requires to < |values|
    ensures (forall k :: from <= k < to ==> Losses(values)[k] == 0.0) <==> NeverFell(values, from, to)
    ensures (forall k :: from <= k < to ==> Gains(values)[k] == 0.0) <==> NeverRose(values, from, to)
  {
    var gains, losses := Gains(values), Losses(values);
    assert forall k :: from <= k < to ==> (losses[k] == 0.0 <==> values[k] <= values[k + 1]);
    assert forall k :: from <= k < to ==> (gains[k] == 0.0 <==> values[k] >= values[k + 1]);
  }

  /** The index stays in range, is 100 exactly when the series never fell, and 0 exactly
      when it fell but never rose, over all the changes that count. */
  lemma RsiExtremes(values: seq<real>, period: nat, i: nat)
    requires 1 <= period <= i < |values|
    ensures var from := Oldest(period, i);
            && 0.0 <= RsiAt(values, period, i) <= 100.0
            && (RsiAt(values, period, i) == 100.0 <==> NeverFell(values, from, i))
            && (RsiAt(values, period, i) == 0.0 <==> NeverRose(values, from, i) && !NeverFell(values, from, i))
  {
    WilderIsZeroIff(Gains(values), period, i);
    WilderIsZeroIff(Losses(values), period, i);
    RsiIsShareOfGains(Wilder(Gains(values), period, i), Wilder(Losses(values), period, i));
    ChangesVanish(values, Oldest(period, i), i);
  }
}
