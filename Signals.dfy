/** `ut_bot_alerts`: the volatility loss, the trailing stop over the closes,
    the crossover series and the buy/sell series derived from them. */
module Signals {
  import opened NanReal
  import opened Atr
  import opened TrailingStop

  /** The `Close` column. */
  function Closes(candles: seq<Candle>): (src: seq<real>)
    ensures |src| == |candles|
    ensures forall i :: 0 <= i < |candles| ==> src[i] == candles[i].close
  {
    seq(|candles|, i requires 0 <= i < |candles| => candles[i].close)
  }

  /** `nLoss = a * xATR`. */
  function NLoss(candles: seq<Candle>, a: real, c: nat): (nLoss: seq<Num>)
    requires c >= 1
    ensures |nLoss| == |candles|
  {
    var atr := AverageTrueRange(candles, c);
    seq(|candles|, i requires 0 <= i < |candles| => Mul(Some(a), atr[i]))
  }

  /** The trailing-stop series `ut_bot_alerts` builds. */
  function StopSeries(candles: seq<Candle>, a: real, c: nat): (stop: seq<Num>)
    requires c >= 1
    ensures |stop| == |candles|
  {
    Stops(Closes(candles), NLoss(candles, a, c))
  }

  /** `ewm(alpha=alpha, adjust=False).mean()` at position t:
      y[0] = x[0] and y[t] = (1 - alpha) * y[t-1] + alpha * x[t]. */
  function EwmAt(xs: seq<real>, alpha: real, t: nat): (y: real)
    requires t < |xs|
    ensures alpha == 1.0 ==> y == xs[t]
  {
    if t == 0 then xs[0] else (1.0 - alpha) * EwmAt(xs, alpha, t - 1) + alpha * xs[t]
  }

  function Ewm(xs: seq<real>, alpha: real): (ys: seq<real>)
    ensures |ys| == |xs|
  {
    seq(|xs|, t requires 0 <= t < |xs| => EwmAt(xs, alpha, t))
  }

  /** The smoothing factor pandas derives from `span`. */
  function SpanAlpha(span: real): real
    requires span >= 1.0
  {
    2.0 / (span + 1.0)
  }

  /** `(ema > stop) & (ema.shift(1) <= stop.shift(1))` at position i. */
  predicate CrossedAbove(ema: seq<real>, stop: seq<Num>, i: nat)
    requires |stop| == |ema| && i < |ema|
  {
    var prevEma := if i == 0 then None else Some(ema[i - 1]);
    Gt(Some(ema[i]), stop[i]) && Le(prevEma, Shifted(stop, i))
  }

  /** `(ema < stop) & (ema.shift(1) >= stop.shift(1))` at position i. */
  predicate CrossedBelow(ema: seq<real>, stop: seq<Num>, i: nat)
    requires |stop| == |ema| && i < |ema|
  {
    var prevEma := if i == 0 then None else Some(ema[i - 1]);
    Lt(Some(ema[i]), stop[i]) && Ge(prevEma, Shifted(stop, i))
  }

  /** A crossing in either direction compares two defined stops, so none
      happens at position 0; the two directions exclude each other. */
  lemma CrossingNeedsTwoStops(ema: seq<real>, stop: seq<Num>, i: nat)
    requires |stop| == |ema| && i < |ema|
    ensures CrossedAbove(ema, stop, i) ==> i >= 1 && stop[i].Some? && stop[i - 1].Some?
    ensures CrossedBelow(ema, stop, i) ==> i >= 1 && stop[i].Some? && stop[i - 1].Some?
    ensures !(CrossedAbove(ema, stop, i) && CrossedBelow(ema, stop, i))
  {
  }

  /** The two boolean series `ut_bot_alerts` returns. */
  datatype Alerts = Alerts(buy: seq<bool>, sell: seq<bool>)

  /** `buy = (src > stop) & above` and `sell = (src < stop) & below`. */
  function BuySell(src: seq<real>, ema: seq<real>, stop: seq<Num>): (r: Alerts)
    requires |ema| == |src| && |stop| == |src|
    ensures |r.buy| == |src| && |r.sell| == |src|
  {
    Alerts(
      seq(|src|, i requires 0 <= i < |src| => Gt(Some(src[i]), stop[i]) && CrossedAbove(ema, stop, i)),
      seq(|src|, i requires 0 <= i < |src| => Lt(Some(src[i]), stop[i]) && CrossedBelow(ema, stop, i)))
  }

  /** What `ut_bot_alerts(data, a, c)` returns, as a function of the candles. */
  function UtBot(candles: seq<Candle>, a: real, c: nat): (r: Alerts)
    requires c >= 1
    ensures |r.buy| == |candles| && |r.sell| == |candles|
  {
    var src := Closes(candles);
    BuySell(src, Ewm(src, SpanAlpha(1.0)), StopSeries(candles, a, c))
  }

  /** `ut_bot_alerts`: the stop loop, then the vectorised signal expressions. */
  method UtBotAlerts(candles: seq<Candle>, a: real, c: nat) returns (buy: seq<bool>, sell: seq<bool>)
    requires c >= 1
    ensures Alerts(buy, sell) == UtBot(candles, a, c)
  {
    var src := Closes(candles);
    var nLoss := NLoss(candles, a, c);
    var stop := ComputeStops(src, nLoss);
    var ema := Ewm(src, SpanAlpha(1.0));
    var alerts := BuySell(src, ema, stop);
    buy, sell := alerts.buy, alerts.sell;
  }

  /** An exponential average with smoothing factor 1 is the series itself;
      `span = 1` gives that factor. */
  lemma EwmSpanOneIsIdentity(xs: seq<real>)
    ensures SpanAlpha(1.0) == 1.0
    ensures Ewm(xs, SpanAlpha(1.0)) == xs
  {
    forall t | 0 <= t < |xs| ensures EwmAt(xs, 1.0, t) == xs[t] {
      if t > 0 {
        assert EwmAt(xs, 1.0, t) == 0.0 * EwmAt(xs, 1.0, t - 1) + 1.0 * xs[t];
      }
    }
  }

  /** The volatility loss is undefined before position c, defined from c
      on, and non-negative when the multiplier is. */
  lemma NLossDefinedExactly(candles: seq<Candle>, a: real, c: nat, i: nat)
    requires c >= 1 && i < |candles|
    ensures NLoss(candles, a, c)[i].Some? <==> i >= c
    ensures a >= 0.0 && i >= c ==> NLoss(candles, a, c)[i].value >= 0.0
  {
    AtrDefinedExactly(candles, c, i);
    AtrNonNegative(candles, c, i);
  }

  /** The stop is undefined for every position before c and defined from c on. */
  lemma StopDefinedExactly(candles: seq<Candle>, a: real, c: nat, i: nat)
    requires c >= 1 && i < |candles|
    ensures StopSeries(candles, a, c)[i].Some? <==> i >= c
  {
    var src, nLoss := Closes(candles), NLoss(candles, a, c);
    if i < c {
      forall j | 0 <= j < c && j < |candles| ensures nLoss[j].None? {
        NLossDefinedExactly(candles, a, c, j);
      }
      StopUndefinedUntilLoss(src, nLoss, c, i);
    } else {
      forall j | c <= j < |candles| ensures nLoss[j].Some? {
        NLossDefinedExactly(candles, a, c, j);
      }
      StopDefinedFromLoss(src, nLoss, c, i);
    }
  }

  /** The first defined stop is `close[c] + a * ATR[c]`: it comes from the
      last branch, since every comparison against the undefined stop[c-1]
      is false. */
  lemma FirstStop(candles: seq<Candle>, a: real, c: nat)
    requires 1 <= c < |candles|
    ensures AverageTrueRange(candles, c)[c].Some?
    ensures StopSeries(candles, a, c)[c].Some?
    ensures StopSeries(candles, a, c)[c].value == candles[c].close + a * AverageTrueRange(candles, c)[c].value
  {
    var src, nLoss := Closes(candles), NLoss(candles, a, c);
    forall j | 0 <= j < c ensures nLoss[j].None? {
      NLossDefinedExactly(candles, a, c, j);
    }
    StopUndefinedUntilLoss(src, nLoss, c, c);
    StopSeriesAt(candles, a, c, c);
    AtrDefinedExactly(candles, c, c);
    var atr := AverageTrueRange(candles, c);
    assert nLoss[c] == Mul(Some(a), atr[c]);
  }

  /** The stop series read at i is the recurrence at i. */
  lemma StopSeriesAt(candles: seq<Candle>, a: real, c: nat, i: nat)
    requires c >= 1 && i < |candles|
    ensures StopSeries(candles, a, c)[i] == StopAt(Closes(candles), NLoss(candles, a, c), i)
  {
  }

  /** With a >= 0, wherever the loss is defined the stop sits on the side of
      the close that the branch taken selects. */
  lemma StopSide(candles: seq<Candle>, a: real, c: nat, i: nat)
    requires c >= 1 && a >= 0.0 && c <= i < |candles|
    ensures StopSeries(candles, a, c)[i].Some?
    ensures Gt(Some(candles[i].close), StopSeries(candles, a, c)[i - 1])
            ==> StopSeries(candles, a, c)[i].value <= candles[i].close
    ensures !Gt(Some(candles[i].close), StopSeries(candles, a, c)[i - 1])
            ==> StopSeries(candles, a, c)[i].value >= candles[i].close
  {
    var src, nLoss := Closes(candles), NLoss(candles, a, c);
    var stop := StopSeries(candles, a, c);
    StopSeriesAt(candles, a, c, i);
    StopSeriesAt(candles, a, c, i - 1);
    NLossDefinedExactly(candles, a, c, i);
    StopOnSideOfPrice(src, nLoss, i);
  }

  /** Buy and sell are never both true, and position 0 carries neither. */
  lemma BuySellExclusive(candles: seq<Candle>, a: real, c: nat, i: nat)
    requires c >= 1 && i < |candles|
    ensures !(UtBot(candles, a, c).buy[i] && UtBot(candles, a, c).sell[i])
    ensures i == 0 ==> !UtBot(candles, a, c).buy[i] && !UtBot(candles, a, c).sell[i]
  {
  }

  /** Since the smoothed series is the close itself, a buy is exactly a close
      above the stop after a close at or below the previous stop. */
  lemma BuyCharacterised(candles: seq<Candle>, a: real, c: nat, i: nat)
    requires c >= 1 && i < |candles|
    ensures UtBot(candles, a, c).buy[i]
            <==> i >= 1 && Gt(Some(candles[i].close), StopSeries(candles, a, c)[i])
                        && Le(Some(candles[i - 1].close), StopSeries(candles, a, c)[i - 1])
  {
    EwmSpanOneIsIdentity(Closes(candles));
  }

  /** Likewise a sell is exactly a close below the stop after a close at or
      above the previous stop. */
  lemma SellCharacterised(candles: seq<Candle>, a: real, c: nat, i: nat)
    requires c >= 1 && i < |candles|
    ensures UtBot(candles, a, c).sell[i]
            <==> i >= 1 && Lt(Some(candles[i].close), StopSeries(candles, a, c)[i])
                        && Ge(Some(candles[i - 1].close), StopSeries(candles, a, c)[i - 1])
  {
    EwmSpanOneIsIdentity(Closes(candles));
  }

  /** No signal can occur before position c + 1: both stops it compares
      against must be defined. */
  lemma NoSignalDuringWarmUp(candles: seq<Candle>, a: real, c: nat, i: nat)
    requires c >= 1 && i <= c && i < |candles|
    ensures !UtBot(candles, a, c).buy[i] && !UtBot(candles, a, c).sell[i]
  {
    if i >= 1 {
      StopDefinedExactly(candles, a, c, i - 1);
    }
  }

  /** A flat series (high = low = close = p throughout) has zero true range,
      so its ATR is 0 wherever it is defined, its stop equals the close from
      position c on, and it yields no buy and no sell anywhere. */
  lemma FlatSeriesHasNoAlerts(candles: seq<Candle>, p: real, a: real, c: nat)
    requires c >= 1
    requires forall i :: 0 <= i < |candles| ==> candles[i].high == p && candles[i].low == p && candles[i].close == p
    ensures forall i :: c <= i < |candles| ==> AverageTrueRange(candles, c)[i] == Some(0.0)
    ensures forall i :: c <= i < |candles| ==> StopSeries(candles, a, c)[i] == Some(p)
    ensures forall i :: 0 <= i < |candles| ==> !UtBot(candles, a, c).buy[i] && !UtBot(candles, a, c).sell[i]
  {
    FlatAtrIsZero(candles, p, c);
    FlatStopSeries(candles, p, a, c);
    forall i | 0 <= i < |candles| ensures !UtBot(candles, a, c).buy[i] && !UtBot(candles, a, c).sell[i] {
      StopDefinedExactly(candles, a, c, i);
    }
  }

  lemma FlatAtrIsZero(candles: seq<Candle>, p: real, c: nat)
    requires c >= 1
    requires forall i :: 0 <= i < |candles| ==> candles[i].high == p && candles[i].low == p && candles[i].close == p
    ensures forall i :: c <= i < |candles| ==> AverageTrueRange(candles, c)[i] == Some(0.0)
  {
    forall i | c <= i < |candles| ensures AverageTrueRange(candles, c)[i] == Some(0.0) {
      AtrIsMean(candles, c, i);
      FlatTrueRangeSumIsZero(candles, p, i + 1 - c, i + 1);
    }
  }

  lemma FlatStopSeries(candles: seq<Candle>, p: real, a: real, c: nat)
    requires c >= 1
    requires forall i :: 0 <= i < |candles| ==> candles[i].high == p && candles[i].low == p && candles[i].close == p
    requires forall i :: c <= i < |candles| ==> AverageTrueRange(candles, c)[i] == Some(0.0)
    ensures forall i :: c <= i < |candles| ==> StopSeries(candles, a, c)[i] == Some(p)
  {
    var src, nLoss := Closes(candles), NLoss(candles, a, c);
    forall i | 0 <= i < |candles| ensures nLoss[i].Some? <==> i >= c {
      NLossDefinedExactly(candles, a, c, i);
    }
    forall i | c <= i < |candles| ensures nLoss[i].Some? && nLoss[i].value == 0.0 {
      assert nLoss[i] == Mul(Some(a), AverageTrueRange(candles, c)[i]);
    }
    forall i | c <= i < |candles| ensures StopSeries(candles, a, c)[i] == Some(p) {
      FlatStop(src, nLoss, p, c, i);
      StopSeriesAt(candles, a, c, i);
    }
  }

  lemma {:induction false} FlatTrueRangeSumIsZero(candles: seq<Candle>, p: real, lo: nat, hi: nat)
    requires 1 <= lo && hi <= |candles|
    requires forall i :: 0 <= i < |candles| ==> candles[i].high == p && candles[i].low == p && candles[i].close == p
    ensures TrueRangeSum(candles, lo, hi) == 0.0
    decreases hi
  {
    if lo < hi {
      FlatTrueRangeSumIsZero(candles, p, lo, hi - 1);
    }
  }


  /** On a strictly rising close series, with a >= 0, no position carries a
      sell: a sell needs the previous close at or above the previous stop
      and the close below the new stop, which a rising close rules out. */
  lemma RisingSeriesHasNoSell(candles: seq<Candle>, a: real, c: nat, i: nat)
    requires c >= 1 && a >= 0.0 && i < |candles|
    requires forall j :: 1 <= j < |candles| ==> candles[j - 1].close < candles[j].close
    ensures !UtBot(candles, a, c).sell[i]
  {
    SellCharacterised(candles, a, c, i);
    var stop := StopSeries(candles, a, c);
    if i >= 1 && Ge(Some(candles[i - 1].close), stop[i - 1]) {
      var src, nLoss := Closes(candles), NLoss(candles, a, c);
      StopSeriesAt(candles, a, c, i);
      StopSeriesAt(candles, a, c, i - 1);
      NLossDefinedExactly(candles, a, c, i);
      RisingCloseNotBelowStop(src, nLoss, i);
    }
  }
}
