/** `calculate_atr`: the per-candle true range and its rolling mean. */
module Atr {
  import opened NanReal

  /** One OHLC price candle. The timestamp is not kept: candles are
      identified by their position, oldest first. */
  datatype Candle = Candle(open: real, high: real, low: real, close: real)

  /** `close.shift(1)` at position i. */
  function PrevClose(candles: seq<Candle>, i: nat): Num
    requires i < |candles|
  {
    if i == 0 then None else Some(candles[i - 1].close)
  }

  /** The true range at position i, as the code computes it:
      `np.maximum(high - low, |high - prevClose|, |low - prevClose|)` passes
      the third operand in numpy's `out` slot, so only the first two terms
      take part in the maximum. This model keeps that two-term maximum.
      NaN propagates through `np.maximum`, so position 0 is undefined. */
  function TrueRange(candles: seq<Candle>, i: nat): (r: Num)
    requires i < |candles|
    ensures r.Some? <==> i > 0
    ensures r.Some? ==> r.value >= candles[i].high - candles[i].low
    ensures r.Some? ==> r.value >= Abs(Some(candles[i].high - candles[i - 1].close)).value
    ensures r.Some? ==> r.value == candles[i].high - candles[i].low
                        || r.value == Abs(Some(candles[i].high - candles[i - 1].close)).value
    ensures r.Some? ==> r.value >= 0.0
  {
    var c := candles[i];
    NpMaximum(Some(c.high - c.low), Abs(Sub(Some(c.high), PrevClose(candles, i))))
  }

  /** The true-range series, aligned with the candles. */
  function TrueRanges(candles: seq<Candle>): (tr: seq<Num>)
    ensures |tr| == |candles|
  {
    seq(|candles|, i requires 0 <= i < |candles| => TrueRange(candles, i))
  }

  /** Number of defined (non-NaN) entries of a window. */
  function Observed(xs: seq<Num>): (k: nat)
    ensures k <= |xs|
  {
    if |xs| == 0 then 0
    else Observed(xs[..|xs| - 1]) + (if xs[|xs| - 1].Some? then 1 else 0)
  }

  /** Sum of the defined entries of a window. */
  function ObservedSum(xs: seq<Num>): real {
    if |xs| == 0 then 0.0
    else ObservedSum(xs[..|xs| - 1]) + (if xs[|xs| - 1].Some? then xs[|xs| - 1].value else 0.0)
  }

  /** `xs.rolling(window).mean()` at position i. With no `min_periods`
      argument pandas requires `window` observations, so the mean is
      defined only when the last `window` entries up to i are all defined. */
  function RollingMean(xs: seq<Num>, window: nat, i: nat): (r: Num)
    requires 1 <= window && i < |xs|
    ensures r.Some? ==> i + 1 >= window
  {
    if i + 1 < window then None
    else
      var w := xs[i + 1 - window .. i + 1];
      if Observed(w) >= window then Some(ObservedSum(w) / window as real) else None
  }

  /** `calculate_atr(high, low, close, period)`. */
  function AverageTrueRange(candles: seq<Candle>, period: nat): (atr: seq<Num>)
    requires period >= 1
    ensures |atr| == |candles|
  {
    var tr := TrueRanges(candles);
    seq(|candles|, i requires 0 <= i < |candles| => RollingMean(tr, period, i))
  }

  /** Sum of the true ranges at positions lo .. hi-1 (all of them defined). */
  function TrueRangeSum(candles: seq<Candle>, lo: nat, hi: nat): real
    requires 1 <= lo && hi <= |candles|
    decreases hi
  {
    if hi <= lo then 0.0 else TrueRangeSum(candles, lo, hi - 1) + TrueRange(candles, hi - 1).value
  }

  /** A window is fully observed exactly when each of its entries is defined. */
  lemma {:induction false} ObservedAll(xs: seq<Num>)
    ensures Observed(xs) == |xs| <==> forall k :: 0 <= k < |xs| ==> xs[k].Some?
  {
    if |xs| > 0 {
      var init := xs[..|xs| - 1];
      ObservedAll(init);
      assert forall k :: 0 <= k < |init| ==> init[k] == xs[k];
    }
  }

  /** Over a window of true ranges that starts after position 0, the
      observed sum is the sum of the true ranges. */
  lemma {:induction false} ObservedSumIsTrueRangeSum(candles: seq<Candle>, lo: nat, hi: nat)
    requires 1 <= lo <= hi <= |candles|
    ensures ObservedSum(TrueRanges(candles)[lo..hi]) == TrueRangeSum(candles, lo, hi)
  {
    var tr := TrueRanges(candles);
    if lo < hi {
      ObservedSumIsTrueRangeSum(candles, lo, hi - 1);
      assert tr[lo..hi][..hi - lo - 1] == tr[lo..hi - 1];
    }
  }

  /** With pandas' default `min_periods = window`, a rolling mean is defined
      exactly when the window fits and each of its entries is defined. */
  lemma RollingMeanDefinedExactly(xs: seq<Num>, window: nat, i: nat)
    requires 1 <= window && i < |xs|
    ensures RollingMean(xs, window, i).Some?
            <==> i + 1 >= window && forall k :: i + 1 - window <= k <= i ==> xs[k].Some?
  {
    if i + 1 >= window {
      var w := xs[i + 1 - window .. i + 1];
      ObservedAll(w);
      assert forall k :: 0 <= k < |w| ==> w[k] == xs[i + 1 - window + k];
    }
  }

  /** The ATR is undefined up to and including position period-1 and
      defined from position `period` on. */
  lemma AtrDefinedExactly(candles: seq<Candle>, period: nat, i: nat)
    requires period >= 1 && i < |candles|
    ensures AverageTrueRange(candles, period)[i].Some? <==> i >= period
  {
    var tr := TrueRanges(candles);
    assert AverageTrueRange(candles, period)[i] == RollingMean(tr, period, i);
    if i + 1 >= period {
      var lo := i + 1 - period;
      var w := tr[lo .. i + 1];
      ObservedAll(w);
      if lo >= 1 {
        forall k | 0 <= k < |w| ensures w[k].Some? {
          assert w[k] == TrueRange(candles, lo + k);
        }
      } else {
        assert w[0] == TrueRange(candles, 0);
      }
    }
  }

  /** Where defined, the ATR is the mean of the `period` most recent true ranges. */
  lemma AtrIsMean(candles: seq<Candle>, period: nat, i: nat)
    requires period >= 1 && period <= i < |candles|
    ensures AverageTrueRange(candles, period)[i]
            == Some(TrueRangeSum(candles, i + 1 - period, i + 1) / period as real)
  {
    AtrDefinedExactly(candles, period, i);
    ObservedSumIsTrueRangeSum(candles, i + 1 - period, i + 1);
  }

  /** True ranges are non-negative, so their sums are. */
  lemma {:induction false} TrueRangeSumNonNegative(candles: seq<Candle>, lo: nat, hi: nat)
    requires 1 <= lo && hi <= |candles|
    ensures TrueRangeSum(candles, lo, hi) >= 0.0
    decreases hi
  {
    if lo < hi {
      TrueRangeSumNonNegative(candles, lo, hi - 1);
    }
  }

  /** The ATR is never negative where it is defined. */
  lemma AtrNonNegative(candles: seq<Candle>, period: nat, i: nat)
    requires period >= 1 && i < |candles|
    ensures AverageTrueRange(candles, period)[i].Some? ==> AverageTrueRange(candles, period)[i].value >= 0.0
  {
    AtrDefinedExactly(candles, period, i);
    if i >= period {
      AtrIsMean(candles, period, i);
      TrueRangeSumNonNegative(candles, i + 1 - period, i + 1);
    }
  }
}
