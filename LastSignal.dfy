/** The resolution step of `get_last_signal`: find the newest `True` of the
    buy and of the sell series, count the candles since it, and pick the
    more recent kind. Candles are identified by position; since timestamps
    strictly increase, comparing timestamp labels is comparing positions. */
module LastSignal {
  import opened NanReal
  import opened Atr
  import opened Signals

  /** `series.iloc[::-1]`. */
  function Reverse(s: seq<bool>): (r: seq<bool>)
    ensures |r| == |s|
    ensures forall k :: 0 <= k < |s| ==> r[k] == s[|s| - 1 - k]
    ensures true in r <==> true in s
  {
    var r := seq(|s|, k requires 0 <= k < |s| => s[|s| - 1 - k]);
    assert forall k :: 0 <= k < |s| ==> s[k] == r[|s| - 1 - k];
    r
  }

  /** `idxmax` position of a boolean series holding a `True`: its first `True`. */
  function FirstTrue(s: seq<bool>): (p: nat)
    requires true in s
    ensures p < |s| && s[p]
    ensures forall j :: 0 <= j < p ==> !s[j]
  {
    if s[0] then 0 else 1 + FirstTrue(s[1..])
  }

  /** `series.iloc[::-1].idxmax() if series.any() else None`, as a position
      of the original series. */
  function LastTrue(s: seq<bool>): (r: Option<nat>)
    ensures r.Some? ==> r.value < |s|
  {
    if true in s then Some(|s| - 1 - FirstTrue(Reverse(s))) else None
  }

  /** Number of `False` entries: `(s == False).cumsum()` at the last position. */
  function CountFalse(s: seq<bool>): (n: nat)
    ensures n <= |s|
  {
    if |s| == 0 then 0 else CountFalse(s[..|s| - 1]) + (if s[|s| - 1] then 0 else 1)
  }

  /** `(series.iloc[::-1] == False).cumsum()[at]`: the running count of
      the reversed series read at the reversed position of label `at`. */
  function FalseCountAt(s: seq<bool>, at: nat): (n: nat)
    requires at < |s|
    ensures n <= |s| - at
  {
    CountFalse(Reverse(s)[..|s| - at])
  }

  /** The resolved outcome; the message text is not modelled. */
  datatype Signal = NoSignal | Buy(candlesAgo: nat) | Sell(candlesAgo: nat)

  /** The decision of `get_last_signal` over the two series. */
  function Resolve(buy: seq<bool>, sell: seq<bool>): (r: Signal)
    ensures r.NoSignal? <==> !(true in buy) && !(true in sell)
    ensures r.Buy? ==> true in buy && r.candlesAgo < |buy|
    ensures r.Sell? ==> true in sell && r.candlesAgo < |sell|
  {
    var lastBuy, lastSell := LastTrue(buy), LastTrue(sell);
    var buyCount := if lastBuy.Some? then FalseCountAt(buy, lastBuy.value) else 0;
    var sellCount := if lastSell.Some? then FalseCountAt(sell, lastSell.value) else 0;
    if lastBuy.None? && lastSell.None? then NoSignal
    else if lastBuy.None? then Sell(sellCount)
    else if lastSell.None? then Buy(buyCount)
    else if lastBuy.value > lastSell.value then Buy(buyCount)
    else Sell(sellCount)
  }

  /** The resolved position is the largest one holding `True`; there is none
      exactly when the series holds no `True`. */
  lemma LastTrueIsLargest(s: seq<bool>)
    ensures LastTrue(s).None? <==> forall k :: 0 <= k < |s| ==> !s[k]
    ensures LastTrue(s).Some? ==>
              LastTrue(s).value < |s| && s[LastTrue(s).value]
              && forall j :: LastTrue(s).value < j < |s| ==> !s[j]
  {
    if true in s {
      var r := Reverse(s);
      var p := FirstTrue(r);
      assert s[|s| - 1 - p] == r[p];
      forall j | |s| - 1 - p < j < |s| ensures !s[j] {
        assert s[j] == r[|s| - 1 - j];
      }
    }
  }

  lemma {:induction false} CountFalseAllFalse(s: seq<bool>)
    requires forall k :: 0 <= k < |s| ==> !s[k]
    ensures CountFalse(s) == |s|
  {
    if |s| > 0 {
      CountFalseAllFalse(s[..|s| - 1]);
    }
  }

  /** The count reported for the last `True` is the number of entries after
      it, all of them `False`. */
  lemma FalseCountIsCandlesSince(s: seq<bool>)
    requires true in s
    ensures LastTrue(s).value < |s|
    ensures FalseCountAt(s, LastTrue(s).value) == |s| - 1 - LastTrue(s).value
    ensures forall j :: LastTrue(s).value < j < |s| ==> !s[j]
  {
    LastTrueIsLargest(s);
    var idx := LastTrue(s).value;
    var r := Reverse(s);
    var w := r[..|s| - idx];
    var before := w[..|w| - 1];
    assert w[|w| - 1] == s[idx];
    forall k | 0 <= k < |before| ensures !before[k] {
      assert before[k] == s[|s| - 1 - k];
    }
    CountFalseAllFalse(before);
  }

  /** The decision: no signal exactly when neither series holds a `True`; a
      reported buy (sell) is the newest signal of either kind, at the
      position `candlesAgo` candles before the last one, with no buy and no
      sell after it. The later index wins when both kinds are present. */
  lemma ResolveIsMostRecent(buy: seq<bool>, sell: seq<bool>)
    requires |buy| == |sell|
    ensures Resolve(buy, sell) == NoSignal
            <==> (forall k :: 0 <= k < |buy| ==> !buy[k]) && (forall k :: 0 <= k < |sell| ==> !sell[k])
    ensures Resolve(buy, sell).Buy? ==>
              var i := |buy| - 1 - Resolve(buy, sell).candlesAgo;
              0 <= i < |buy| && buy[i] && LastTrue(buy) == Some(i)
              && forall j :: i < j < |buy| ==> !buy[j] && !sell[j]
    ensures Resolve(buy, sell).Sell? ==>
              var i := |sell| - 1 - Resolve(buy, sell).candlesAgo;
              0 <= i < |sell| && sell[i] && LastTrue(sell) == Some(i)
              && forall j :: i < j < |sell| ==> !buy[j] && !sell[j]
  {
    LastTrueIsLargest(buy);
    LastTrueIsLargest(sell);
    if true in buy {
      FalseCountIsCandlesSince(buy);
    }
    if true in sell {
      FalseCountIsCandlesSince(sell);
    }
  }

  /** Where the reported signal stands: `candlesAgo` candles before the newest one. */
  lemma ResolvedPosition(buy: seq<bool>, sell: seq<bool>)
    requires |buy| == |sell|
    ensures Resolve(buy, sell).Buy? ==>
              Resolve(buy, sell).candlesAgo < |buy| && buy[|buy| - 1 - Resolve(buy, sell).candlesAgo]
    ensures Resolve(buy, sell).Sell? ==>
              Resolve(buy, sell).candlesAgo < |sell| && sell[|sell| - 1 - Resolve(buy, sell).candlesAgo]
  {
    ResolveIsMostRecent(buy, sell);
  }

  /** Ten candles with a single buy at position 5 and no sell resolve to
      "Buy, 4 candles ago". */
  lemma TenCandleScenario()
    ensures Resolve([false, false, false, false, false, true, false, false, false, false],
                    [false, false, false, false, false, false, false, false, false, false])
            == Buy(4)
  {
    var buy := [false, false, false, false, false, true, false, false, false, false];
    var sell := [false, false, false, false, false, false, false, false, false, false];
    ResolveIsMostRecent(buy, sell);
    assert buy[5];
    assert !Resolve(buy, sell).Sell?;
  }

  /** `get_last_signal` after the fetch, with the settings it uses (a = 3, c = 6). */
  method GetLastSignal(candles: seq<Candle>) returns (signal: Signal)
    ensures signal == Resolve(UtBot(candles, 3.0, 6).buy, UtBot(candles, 3.0, 6).sell)
  {
    var buy, sell := UtBotAlerts(candles, 3.0, 6);
    signal := Resolve(buy, sell);
  }

  /** A reported buy is a close crossing above the trailing stop at position
      `n - 1 - candlesAgo`. */
  lemma LastBuyIsCrossAbove(candles: seq<Candle>, a: real, c: nat)
    requires c >= 1
    requires Resolve(UtBot(candles, a, c).buy, UtBot(candles, a, c).sell).Buy?
    ensures var i := |candles| - 1 - Resolve(UtBot(candles, a, c).buy, UtBot(candles, a, c).sell).candlesAgo;
            1 <= i < |candles|
            && Gt(Some(candles[i].close), StopSeries(candles, a, c)[i])
            && Le(Some(candles[i - 1].close), StopSeries(candles, a, c)[i - 1])
  {
    var alerts := UtBot(candles, a, c);
    ResolvedPosition(alerts.buy, alerts.sell);
    var r := Resolve(alerts.buy, alerts.sell);
    var i := |candles| - 1 - r.candlesAgo;
    assert 0 <= i < |candles| && alerts.buy[i];
    BuyCharacterised(candles, a, c, i);
  }

  /** A reported sell is a close crossing below the trailing stop at position
      `n - 1 - candlesAgo`. */
  lemma LastSellIsCrossBelow(candles: seq<Candle>, a: real, c: nat)
    requires c >= 1
    requires Resolve(UtBot(candles, a, c).buy, UtBot(candles, a, c).sell).Sell?
    ensures var i := |candles| - 1 - Resolve(UtBot(candles, a, c).buy, UtBot(candles, a, c).sell).candlesAgo;
            1 <= i < |candles|
            && Lt(Some(candles[i].close), StopSeries(candles, a, c)[i])
            && Ge(Some(candles[i - 1].close), StopSeries(candles, a, c)[i - 1])
  {
    var alerts := UtBot(candles, a, c);
    ResolvedPosition(alerts.buy, alerts.sell);
    var r := Resolve(alerts.buy, alerts.sell);
    var i := |candles| - 1 - r.candlesAgo;
    assert 0 <= i < |candles| && alerts.sell[i];
    SellCharacterised(candles, a, c, i);
  }

  /** A flat price series resolves to "No Signal". */
  lemma FlatSeriesResolvesToNoSignal(candles: seq<Candle>, p: real, a: real, c: nat)
    requires c >= 1
    requires forall i :: 0 <= i < |candles| ==> candles[i].high == p && candles[i].low == p && candles[i].close == p
    ensures Resolve(UtBot(candles, a, c).buy, UtBot(candles, a, c).sell) == NoSignal
  {
    FlatSeriesHasNoAlerts(candles, p, a, c);
    ResolveIsMostRecent(UtBot(candles, a, c).buy, UtBot(candles, a, c).sell);
  }

  /** What the data source hands to `process_symbol`: candles, or a failure. */
  datatype Fetch = Fetched(candles: seq<Candle>) | FetchFailed(cause: string)

  /** The outcome of `process_symbol`; the message strings are not modelled. */
  datatype Outcome = Signalled(signal: Signal) | Error(cause: string)

  /** `process_symbol`: a failed fetch becomes an error outcome for that
      symbol alone; otherwise the resolved signal is reported. */
  method ProcessSymbol(fetch: Fetch) returns (outcome: Outcome)
    ensures fetch.FetchFailed? ==> outcome == Error(fetch.cause)
    ensures fetch.Fetched? ==>
              outcome == Signalled(Resolve(UtBot(fetch.candles, 3.0, 6).buy, UtBot(fetch.candles, 3.0, 6).sell))
  {
    match fetch
    case FetchFailed(cause) =>
      outcome := Error(cause);
    case Fetched(candles) =>
      var signal := GetLastSignal(candles);
      outcome := Signalled(signal);
  }

  /** On a strictly rising close series, with a >= 0, the resolved last
      signal is never a sell. */
  lemma RisingSeriesNeverResolvesToSell(candles: seq<Candle>, a: real, c: nat)
    requires c >= 1 && a >= 0.0
    requires forall j :: 1 <= j < |candles| ==> candles[j - 1].close < candles[j].close
    ensures !Resolve(UtBot(candles, a, c).buy, UtBot(candles, a, c).sell).Sell?
  {
    var alerts := UtBot(candles, a, c);
    forall i | 0 <= i < |candles| ensures !alerts.sell[i] {
      RisingSeriesHasNoSell(candles, a, c, i);
    }
    ResolvedPosition(alerts.buy, alerts.sell);
  }
}
