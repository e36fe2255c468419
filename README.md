# UT Bot trailing-stop signal, modelled in Dafny

This project models the indicator logic of a small trading-signal script
(`main.py`). For each symbol it fetches recent price candles and computes a
volatility-adjusted trailing stop (the "UT Bot" indicator). From that stop
it derives buy and sell crossover series, then reports the most recent
signal and how many candles ago it occurred.

The model has five modules, following the script's own structure:

- `NanReal` (NanReal.dfy): pandas floats with NaN made explicit.
  `Option<real>` holds a value, and `None` is NaN. Every comparison with a
  NaN side is false. Arithmetic and `np.maximum` propagate NaN. Python's
  built-in `max`/`min` keep their first argument unless the second compares
  greater (resp. smaller).
- `Atr` (Atr.dfy): `calculate_atr`. It models the per-candle true range and
  the rolling mean. `rolling(window).mean()` is modelled with pandas' default
  `min_periods = window`.
- `TrailingStop` (TrailingStop.dfy): the four-case recurrence in the loop of
  `ut_bot_alerts`. It is a recursive specification `StopAt` plus a method,
  `ComputeStops`. The method writes an all-NaN array in place, one position
  at a time, and is proved equal to the specification.
- `Signals` (Signals.dfy): the rest of `ut_bot_alerts`. This covers
  `nLoss = a * ATR`, the exponential average `ewm(span=1, adjust=False)`
  (modelled as its recurrence and proved to be the identity), the crossover
  series and the buy/sell series.
- `LastSignal` (LastSignal.dfy): the resolution in `get_last_signal`. It
  models `idxmax` on the reversed series, the `(s == False).cumsum()` count
  and the decision between buy and sell. It also models `process_symbol` on
  a fetch result given as input.

Prices are `real` numbers. Candles are identified by position. Timestamps
strictly increase, so comparing the timestamp labels returned by `idxmax`
is the same as comparing positions.

Where the code departs from the textbook ATR / UT Bot definitions, the
model follows the code:

- The true range is a two-term maximum, `max(high - low, |high - prevClose|)`.
  In `np.maximum(x, y, z)` the third operand sits in numpy's `out` slot, so
  `|low - prevClose|` never takes part. The standard (Wilder) true range is
  a three-term maximum.
- The true range at position 0 is NaN, because `close.shift(1)` is NaN
  there. It is not `high - low`.
- The stop series has no seed: position 0 is NaN. So the stop is NaN up to
  position c-1. The first defined value is `stop[c] = close[c] + a*ATR[c]`,
  from the last branch of the update. For a >= 0 this first stop lies at or
  above the close, so on a rising series the stop is not always below
  price. Even so, a strictly rising close series with a >= 0 never yields a
  sell, and its last signal never resolves to one (`RisingSeriesHasNoSell`,
  `RisingSeriesNeverResolvesToSell`).
- A series shorter than two candles is not an error. It gives "No Signal".
- There is no sorting or ranking of results anywhere in the code.

## Model

| member | source | states |
|---|---|---|
| NanReal.NpMaximum | main.py:17 | `np.maximum` is NaN exactly when either argument is NaN; otherwise it is the larger of the two. |
| NanReal.PyMax | main.py:32 | Python's `max` returns one of its arguments; with a NaN on either side it returns the first; with both defined it is at least each of them. |
| NanReal.PyMin | main.py:34 | Python's `min` returns one of its arguments; with a NaN on either side it returns the first; with both defined it is at most each of them. |
| Atr.TrueRange | main.py:17 | True range is undefined exactly at position 0. Elsewhere it is at least `high-low` and at least `abs(high-prevClose)`, equals one of the two, and is non-negative. |
| Atr.RollingMean | main.py:18 | A rolling mean is never defined before the window fits, i.e. before position window-1. |
| Atr.RollingMeanDefinedExactly | main.py:18 | With the default `min_periods = window`, the rolling mean at i is defined exactly when i+1 >= window and every entry of the window is defined. |
| Atr.AverageTrueRange | main.py:16-19 | One ATR value per candle, aligned with the index; its definedness and value are stated by `AtrDefinedExactly` and `AtrIsMean`. |
| Atr.ObservedAll | main.py:18 | A rolling window counts as fully observed (count = window size) exactly when every one of its entries is defined. |
| Atr.ObservedSumIsTrueRangeSum | main.py:17-18 | Over a window starting after position 0, the rolling sum of observed values equals the sum of the true ranges. |
| Atr.AtrDefinedExactly | main.py:16-19 | `ATR[i]` is defined exactly when i >= period. |
| Atr.AtrIsMean | main.py:18 | Where defined, `ATR[i]` is the sum of the true ranges at i-period+1..i divided by period. |
| Atr.AtrNonNegative | main.py:17-18 | A defined ATR is never negative. |
| TrailingStop.Step | main.py:30-38 | One update of the four-case recurrence: a defined nLoss always gives a defined stop; an undefined nLoss after an undefined stop gives an undefined stop. |
| TrailingStop.Stops | main.py:27-38 | One stop per close, aligned with the index, each given by the recurrence `TrailingStop.StopAt` (NaN at 0, then `Step` from the previous stop); the loop `ComputeStops` is proved equal to it, and the `StopAt` lemmas below state its properties. |
| TrailingStop.ComputeStops | main.py:27-38 | The in-place loop over an all-NaN array returns exactly the recurrence series `Stops`, position by position. |
| TrailingStop.StopUndefinedUntilLoss | main.py:27-38 | While nLoss is NaN, the stop stays NaN. At the first position where nLoss is defined, the stop is `close + nLoss`, from the last branch. |
| TrailingStop.StopDefinedFromLoss | main.py:30-38 | Once nLoss is defined from some position on, the stop is defined from there on. |
| TrailingStop.StopTightensWithinTrend | main.py:31-34 | Both closes above the previous stop give `stop[i] >= stop[i-1]`. Both below give `stop[i] <= stop[i-1]`. |
| TrailingStop.StopOnSideOfPrice | main.py:30-38 | With a defined nLoss >= 0, the stop is defined. It is `<= close[i]` when `close[i] > stop[i-1]`, and `>= close[i]` otherwise. |
| TrailingStop.RisingCloseNotBelowStop | main.py:30-38 | If the close rises from a previous close at or above the previous stop, and nLoss is NaN or non-negative, the new close is not below the new stop. |
| TrailingStop.FlatStop | main.py:30-38 | A constant close with nLoss NaN before some position and 0 from there on keeps the stop equal to the close from that position on. |
| Signals.NLoss | main.py:25 | One nLoss value per candle; `NLossDefinedExactly` states where it is defined and its sign. |
| Signals.EwmAt | main.py:47 | With smoothing factor 1, the `adjust=False` exponential average at t is the input at t. |
| Signals.Ewm | main.py:47 | One smoothed value per input value. |
| Signals.EwmSpanOneIsIdentity | main.py:47 | `span = 1` gives smoothing factor 1, and the `adjust=False` exponential average is then the close series itself. |
| Signals.NLossDefinedExactly | main.py:24-25 | `nLoss[i]` is defined exactly when i >= c, and is non-negative when a >= 0. |
| Signals.StopDefinedExactly | main.py:24-38 | The stop is undefined for every i < c and defined for every i >= c. |
| Signals.FirstStop | main.py:27-38 | The first defined stop is `stop[c] = close[c] + a*ATR[c]`. |
| Signals.StopSide | main.py:25-38 | For a >= 0 and i >= c, the stop is on the side of the close that the branch selects. |
| Signals.CrossingNeedsTwoStops | main.py:48-49 | About `Signals.CrossedAbove` and `Signals.CrossedBelow`: a crossing above or below compares two defined stops, at i and i-1, so none occurs at position 0; the two directions never hold together. |
| Signals.BuySell | main.py:48-52 | One buy and one sell flag per candle, built from the crossover predicates `Signals.CrossedAbove` and `Signals.CrossedBelow`; `BuyCharacterised` and `SellCharacterised` state what each flag means. |
| Signals.UtBot | main.py:22-54 | One buy and one sell flag per candle; `BuyCharacterised` and `SellCharacterised` state what each flag means. |
| Signals.UtBotAlerts | main.py:22-54 | The method (loop plus vectorised expressions) returns exactly the buy and sell series of the specification `UtBot`. |
| Signals.BuySellExclusive | main.py:48-52 | `buy[i]` and `sell[i]` are never both true, and both are false at position 0. |
| Signals.BuyCharacterised | main.py:47-51 | `buy[i]` holds iff i >= 1, `close[i] > stop[i]` and `close[i-1] <= stop[i-1]`. |
| Signals.SellCharacterised | main.py:47-52 | `sell[i]` holds iff i >= 1, `close[i] < stop[i]` and `close[i-1] >= stop[i-1]`. |
| Signals.NoSignalDuringWarmUp | main.py:27-52 | No buy or sell occurs at any position i <= c. |
| Signals.FlatSeriesHasNoAlerts | main.py:16-52 | For a flat series (high = low = close = p): ATR is 0 wherever defined, the stop equals p from c on, and no buy or sell occurs. |
| Signals.FlatAtrIsZero | main.py:16-19 | For a flat series (high = low = close = p) the ATR is 0 wherever it is defined. |
| Signals.FlatStopSeries | main.py:24-38 | For a flat series the stop equals p from position c on. |
| Signals.RisingSeriesHasNoSell | main.py:24-52 | On a strictly rising close series with a >= 0, no position carries a sell. |
| LastSignal.FirstTrue | main.py:62-63 | The `idxmax` position of a boolean series holding a `True` is its first `True`. |
| LastSignal.LastTrue | main.py:62-63 | The resolved position, when present, is a position of the series. |
| LastSignal.LastTrueIsLargest | main.py:62-63 | The reversed-`idxmax` label is undefined iff there is no `True`. Otherwise it is the largest position holding `True`. |
| LastSignal.CountFalse | main.py:66-67 | The number of `False` entries is at most the length of the series. |
| LastSignal.FalseCountAt | main.py:66-67 | The cumsum count read at label `at` is at most the number of entries from `at` to the end. |
| LastSignal.FalseCountIsCandlesSince | main.py:66-67 | The cumsum count at the last `True` equals `n-1-idx`, and every entry after idx is `False`. |
| LastSignal.Resolve | main.py:69-79 | "No Signal" exactly when neither series holds a `True`; a reported Buy (Sell) means the buy (sell) series holds a `True` and its count is less than the series length. |
| LastSignal.ResolveIsMostRecent | main.py:62-79 | "No Signal" iff neither series has a `True`. A reported Buy(k)/Sell(k) sits at position n-1-k, is the last `True` of its series, and has no buy or sell after it; so the later index wins. |
| LastSignal.TenCandleScenario | main.py:62-79 | A single buy at position 5 of ten candles, with no sell, resolves to Buy with count 4. |
| LastSignal.GetLastSignal | main.py:57-79 | After the fetch, the method returns the resolution of the a = 3, c = 6 buy/sell series. |
| LastSignal.LastBuyIsCrossAbove | main.py:47-79 | A reported Buy(k) is a close crossing above the stop at position n-1-k. |
| LastSignal.LastSellIsCrossBelow | main.py:47-79 | A reported Sell(k) is a close crossing below the stop at position n-1-k. |
| LastSignal.FlatSeriesResolvesToNoSignal | main.py:16-79 | A flat price series resolves to "No Signal". |
| LastSignal.RisingSeriesNeverResolvesToSell | main.py:24-79 | On a strictly rising close series with a >= 0, the last signal is never resolved as a sell. |
| LastSignal.ProcessSymbol | main.py:82-87 | A failed fetch becomes an Error outcome carrying its cause. Fetched candles give the resolved signal. |

## Left out

- `fetch_stock_data` (network access to the market-data provider, timezone conversion): the candles, or the failure, are an input of `ProcessSymbol`.
- `main`: the thread pool and printing in completion order are concurrency and I/O. No ordering of results exists to model.
- The `pos` series in `ut_bot_alerts`: it is computed but never returned or used.
- The unused parameter `h` of `ut_bot_alerts`, and the `open` price, which nothing reads.
- The f-string messages of `get_last_signal` and `process_symbol`: outcomes are the datatypes `Signal` and `Outcome`.
- IEEE floating-point rounding: prices are reals, and only NaN is modelled.
- The contents of the `out`-slot array of `np.maximum`: the call overwrites the series `|low - prevClose|` with its result and returns that same object as `tr`, so only the values of `|low - prevClose|` are lost, and the model keeps the two-term result.
- Timestamps: candles are identified by position, which relies on timestamps being strictly increasing (so `idxmax` labels compare like positions).
- LastSignal.ProcessSymbol: one fetch failure stands for every exception `process_symbol` catches. An exception raised inside the indicator code is not modelled, because the modelled computation has no failing path.
- Atr.AverageTrueRange and the members built on it require a window of at least 1. A zero window is never passed by the code (it uses 6).
