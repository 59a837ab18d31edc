# Signal engine of the MA-crossover / RSI trading bot

This project models the signal engine of `server/ma_rsi_mt5_bot.py` in Dafny and proves
properties of it. The bot polls MetaTrader 5 for recent bars. For each symbol it computes
two simple moving averages of the closes (20 and 50 bars) and a 14-bar Wilder-style RSI.
It places a buy when the short average crosses above the long one while the RSI is below
70, and a sell when it crosses below while the RSI is above 30.

The model works over exact reals. A NaN in a pandas series is `None` in an
`Option<real>`, and a Python comparison with NaN is false.

- `Wrappers` (`wrappers.dfy`): the `Option` type.
- `RealFacts` (`real_facts.dfy`): small lemmas of real arithmetic. Each one isolates one
  non-linear step.
- `Indicators` (`indicators.dfy`): `sma` and `rsi`.
  - `Sma` is `rolling(period).mean()`, with pandas' default of a full window.
  - `Diff`, `Negate` and `ClipLow` are `diff`, negation and `clip(lower=0)`.
  - `Ewm` and `EwmAt` are `ewm(alpha, adjust=False).mean()`, a recurrence seeded with
    the first defined sample.
  - `RsiValue` is `100 - 100/(1+rs)`, including what IEEE division does for `x/0`.
  - `Rsi` assembles the aligned series.
  - Gains, losses and their averages are kept on the defined part of the series.
    Entry `k` belongs to close index `k + 1`, because pandas' `diff` leaves index 0 NaN.
- `Signal` (`signal.dfy`): `compute_signal`. `DetectSignal` is the decision on the three
  series that `compute_signal` reads through `iloc[-2]` and `iloc[-1]`. `ComputeSignal`
  composes it with the indicators. `Params` holds the periods and thresholds, and
  `Configured` is the instance at lines 26-32.

Three behaviours of the code that differ from what one might expect:

- When the smoothed gain and loss are both 0 (a flat price history), the code computes
  `0/0`, so the RSI is NaN. One might expect 100 there. A NaN RSI fails both filters, so no order results
  (`RsiValue`, `RsiUndefinedIff`, `UndefinedRsiNoSignal`).
- One might expect a typed "insufficient data" error. There is none. With no more bars than the longer period,
  an average read at index -2 or -1 is NaN and the answer is no order (`ComputeSignal`).
  Fewer than two bars make `iloc[-2]` raise, and that is a precondition.
- One might expect "equal, then above, then below" to give at most one signal. The code
  gives two: a buy on the first step and a sell on the second, because the second step's
  `prev_s >= prev_l` holds with `>` (`ExampleEqualAboveBelow`).
  A buy cannot be followed by a buy on the next bar, nor a sell by a sell
  (`NoRepeatOnNextBar`). This holds from one bar to the next only. The bot evaluates every
  60 seconds (lines 37, 111) on 30-minute bars (line 24), so successive evaluations usually
  read the same last two bars and give the same order again. The code does no
  de-duplication across polls.

## Model

| member | source | states |
|---|---|---|
| `Indicators.SmaAt` | server/ma_rsi_mt5_bot.py:42-43 | definition with no contract of its own: the rolling mean at index i, NaN until the window is full; its properties are carried by `SmaIsWindowMean` and `SmaSlide` |
| `Indicators.Sma` | server/ma_rsi_mt5_bot.py:42-43 | the rolling mean has one entry per close; entry i is defined exactly when i >= period - 1 |
| `Indicators.SmaIsWindowMean` | server/ma_rsi_mt5_bot.py:42-43 | a defined entry times the period is the sum of the `period` closes ending at i |
| `Indicators.SmaConstant` | server/ma_rsi_mt5_bot.py:42-43 | a constant series c has mean c wherever it is defined, and NaN before the window fills |
| `Indicators.SmaWithinWindow` | server/ma_rsi_mt5_bot.py:42-43 | the mean lies between any lower and upper bound of the closes in its window |
| `Indicators.SmaSlide` | server/ma_rsi_mt5_bot.py:42-43 | moving one bar on adds (newest - dropped) / period to the mean, the running-sum form of the rolling mean |
| `Indicators.SmaIgnoresOlderHistory` | server/ma_rsi_mt5_bot.py:42-43 | prepending older bars leaves every defined mean unchanged |
| `Indicators.Diff` | server/ma_rsi_mt5_bot.py:46 | one difference per step between consecutive closes |
| `Indicators.DiffTelescopes` | server/ma_rsi_mt5_bot.py:46 | the differences are undone by a running sum: close[i] = close[0] + the sum of the first i differences |
| `Indicators.Negate` | server/ma_rsi_mt5_bot.py:48 | each entry is the negation of its input |
| `Indicators.ClipLow` | server/ma_rsi_mt5_bot.py:47-48 | each entry is max(v, 0): non-negative, at least v, and equal to v or 0 |
| `Indicators.Gains` | server/ma_rsi_mt5_bot.py:47 | one non-negative gain per step |
| `Indicators.Losses` | server/ma_rsi_mt5_bot.py:48 | one non-negative loss per step |
| `Indicators.GainLossSplit` | server/ma_rsi_mt5_bot.py:46-48 | gain and loss are >= 0, at most one is non-zero, and gain - loss = close[k+1] - close[k]; loss is 0 iff the step does not fall, gain is 0 iff it does not rise |
| `Indicators.LossesAreMirroredGains` | server/ma_rsi_mt5_bot.py:47-48 | the losses of a series are the gains of its negation |
| `Indicators.EwmNonNeg` | server/ma_rsi_mt5_bot.py:49-50 | the smoothed value of non-negative samples is non-negative |
| `Indicators.EwmAt` | server/ma_rsi_mt5_bot.py:49-50 | definition with no contract of its own: the `adjust=False` recurrence at index k; its properties are carried by `EwmRecurrence` and `EwmWithin` |
| `Indicators.Ewm` | server/ma_rsi_mt5_bot.py:49-50 | the smoothed series is aligned with its input and stays non-negative on non-negative input |
| `Indicators.EwmWithin` | server/ma_rsi_mt5_bot.py:49-50 | the smoothed value stays within any bounds of the samples seen so far |
| `Indicators.EwmZeroIff` | server/ma_rsi_mt5_bot.py:49-50 | for alpha < 1, a smoothed value of non-negative samples is 0 iff every sample so far is 0 |
| `Indicators.EwmPositive` | server/ma_rsi_mt5_bot.py:49-50 | a positive newest sample gives a positive smoothed value |
| `Indicators.Alpha` | server/ma_rsi_mt5_bot.py:49-50 | alpha = 1/period lies in (0, 1], and below 1 for period >= 2 |
| `Indicators.AvgGain` | server/ma_rsi_mt5_bot.py:49 | the smoothed gains are aligned with the differences and >= 0 |
| `Indicators.AvgLoss` | server/ma_rsi_mt5_bot.py:50 | the smoothed losses are aligned with the differences and >= 0 |
| `Indicators.EwmRecurrence` | server/ma_rsi_mt5_bot.py:49-50 | the smoothed series starts at the first sample and each later entry blends the new sample with the previous entry by alpha and 1 - alpha |
| `Indicators.SmoothingRecurrence` | server/ma_rsi_mt5_bot.py:46-50 | the averages are seeded with the gain and loss at index 1, then follow avg[i] = alpha*x[i] + (1-alpha)*avg[i-1] |
| `Indicators.RatioForm` | server/ma_rsi_mt5_bot.py:51-52 | for a positive loss, 100 - 100/(1 + g/l) = 100*g/(g+l), which lies in [0, 100) and is 0 iff g = 0 |
| `Indicators.RsiValue` | server/ma_rsi_mt5_bot.py:51-52 | undefined iff both averages are 0; otherwise in [0, 100]; 100*g/(g+l) when the loss is positive; 100 iff loss = 0 < gain; 0 iff gain = 0 < loss |
| `Indicators.Rsi` | server/ma_rsi_mt5_bot.py:45-52 | the RSI has one entry per close, is undefined at index 0, and every defined value lies in [0, 100] |
| `Indicators.RsiAt` | server/ma_rsi_mt5_bot.py:51-52 | the RSI at i >= 1 is the ratio of the smoothed gain and loss at i |
| `Indicators.AvgLossZeroIff` | server/ma_rsi_mt5_bot.py:48-50 | for period >= 2, the smoothed loss at i is 0 iff the closes up to i never fall |
| `Indicators.AvgGainZeroIff` | server/ma_rsi_mt5_bot.py:47-49 | for period >= 2, the smoothed gain at i is 0 iff the closes up to i never rise |
| `Indicators.RsiUndefinedIff` | server/ma_rsi_mt5_bot.py:46-52 | for period >= 2, the RSI at i >= 1 is NaN iff all closes up to i are equal |
| `Indicators.RsiFullIff` | server/ma_rsi_mt5_bot.py:46-52 | for period >= 2, the RSI at i >= 1 is 100 iff the closes up to i never fall and close[i] > close[0] |
| `Indicators.RsiZeroIff` | server/ma_rsi_mt5_bot.py:46-52 | for period >= 2, the RSI at i >= 1 is 0 iff the closes up to i never rise and close[i] < close[0] |
| `Indicators.RsiOfRisingSeries` | server/ma_rsi_mt5_bot.py:46-52 | a strictly rising series has RSI exactly 100 from index 1 on, for every period |
| `Indicators.RsiValueMirror` | server/ma_rsi_mt5_bot.py:51-52 | exchanging gain and loss turns the ratio v into 100 - v, and keeps an undefined ratio undefined |
| `Indicators.MirroredAverages` | server/ma_rsi_mt5_bot.py:46-50 | negating the prices exchanges the smoothed gain and the smoothed loss |
| `Indicators.RsiMirror` | server/ma_rsi_mt5_bot.py:45-52 | the RSI of the negated prices is 100 minus the RSI, with the same undefined entries |
| `Signal.Le` | server/ma_rsi_mt5_bot.py:70-77 | Python's `<=` on floats: false whenever either side is NaN (also used by `UndefinedRsiNoSignal`) |
| `Signal.Lt` | server/ma_rsi_mt5_bot.py:70-77 | Python's `<` on floats: false whenever either side is NaN (also used by `UndefinedRsiNoSignal`) |
| `Signal.Ge` | server/ma_rsi_mt5_bot.py:70-77 | Python's `>=` on floats: false whenever either side is NaN (also used by `UndefinedRsiNoSignal`) |
| `Signal.Gt` | server/ma_rsi_mt5_bot.py:70-77 | Python's `>` on floats: false whenever either side is NaN (also used by `UndefinedRsiNoSignal`) |
| `Signal.Last` | server/ma_rsi_mt5_bot.py:64-68 | definition with no contract of its own: `iloc[-1]`, the last entry; its meaning is carried by `DetectSignal` |
| `Signal.Prev` | server/ma_rsi_mt5_bot.py:64-68 | definition with no contract of its own: `iloc[-2]`, the entry before the last; its meaning is carried by `DetectSignal` |
| `Signal.Bullish` | server/ma_rsi_mt5_bot.py:70 | definition with no contract of its own: at or below at -2, strictly above at -1; its properties are carried by `CrossoversExclusive` and `CrossoverAntisymmetric` |
| `Signal.Bearish` | server/ma_rsi_mt5_bot.py:71 | definition with no contract of its own: at or above at -2, strictly below at -1; its properties are carried by `CrossoversExclusive` and `CrossoverAntisymmetric` |
| `Signal.DetectSignal` | server/ma_rsi_mt5_bot.py:64-79 | buy iff the values at -2 and -1 and the last RSI are all defined, prev_s <= prev_l, last_s > last_l and rsi < overbought; sell iff all are defined, prev_s >= prev_l, last_s < last_l and rsi > oversold |
| `Signal.ComputeSignal` | server/ma_rsi_mt5_bot.py:57-79 | with at least two bars, and no more bars than the longer moving-average period, the result is no order |
| `Signal.CrossoversExclusive` | server/ma_rsi_mt5_bot.py:70-71 | a bullish and a bearish crossover never hold together |
| `Signal.CrossoverAntisymmetric` | server/ma_rsi_mt5_bot.py:70-71 | exchanging the short and long averages turns bullish into bearish and back |
| `Signal.SignalAntisymmetric` | server/ma_rsi_mt5_bot.py:70-77 | with the averages exchanged, a buy becomes a sell when the RSI is also above oversold, and a sell becomes a buy when it is also below overbought |
| `Signal.SignalIsLocal` | server/ma_rsi_mt5_bot.py:64-79 | the decision depends only on the averages at -2 and -1 and the RSI at -1 |
| `Signal.NoCrossoverNoSignal` | server/ma_rsi_mt5_bot.py:70-79 | equal last averages, or the short average strictly on one side at both samples, give no order |
| `Signal.TouchThenSeparateIsCrossover` | server/ma_rsi_mt5_bot.py:70-77 | a touch at -2 followed by strict separation at -1 buys or sells, given an RSI between the thresholds |
| `Signal.UndefinedRsiNoSignal` | server/ma_rsi_mt5_bot.py:68-79 | a NaN last RSI gives no order |
| `Signal.NoRepeatOnNextBar` | server/ma_rsi_mt5_bot.py:70-77 | a buy cannot be followed by a buy on the next bar, nor a sell by a sell |
| `Signal.ConfiguredIsValid` | server/ma_rsi_mt5_bot.py:26-32 | the configured periods are positive, 30 < 70, and 20 < 50 < 200 |
| `Signal.LookbackDefinesAverages` | server/ma_rsi_mt5_bot.py:26-28 | with at least 200 bars, both configured averages are defined at the last two bars |
| `Signal.FlatMarketNoSignal` | server/ma_rsi_mt5_bot.py:57-79 | a constant price series never gives an order, for any valid parameters |
| `Signal.ExampleBuyAndFilteredBuy` | server/ma_rsi_mt5_bot.py:70-79 | short 9 then 11 against a flat 10 buys at RSI 50, and gives no order at RSI 75 |
| `Signal.ExampleEqualAverages` | server/ma_rsi_mt5_bot.py:70-79 | averages equal at both samples give no order, whatever the RSI |
| `Signal.ExampleEqualAboveBelow` | server/ma_rsi_mt5_bot.py:70-79 | equal, then above, then below buys on the first step and sells on the second |

## Left out

- The MetaTrader 5 session: initialisation, shutdown, `get_rates`, `buy` and `sell` (lines
  12-18, 90, 101-105, 113-118). These are calls into a library that is not part of this
  model.
- The polling loop `run_bot` (lines 84-111): the loop over symbols, the empty-data check,
  the `DataFrame` construction, the sleep and the swallowed exceptions. These are I/O and
  scheduling. The model takes the closing prices as a parameter.
- Logging, the symbol list, the timeframe, and the lot, stop-loss, take-profit and sleep
  constants (lines 8-9, 23-24, 34-37). None of them feeds the signal.
- IEEE floating point. The model computes over exact reals. NaN appears only where the code
  produces it: an unfilled window, index 0 of the RSI, and `0/0` in the RSI. Rounding,
  overflow and underflow are not modelled.
- `Indicators.Ewm`: pandas' handling of NaN after the first defined sample is not modelled.
  Only a leading NaN occurs here, because every close is a defined real.
- The default `period=14` of `rsi` (line 45) is not modelled. The model takes the period as a parameter, and `compute_signal` always passes `RSI_PERIOD` (line 62).
- A period of 0 is not modelled (`Params.Valid`). For the RSI, `1/period` raises at line 49.
  For the moving averages, pandas accepts `rolling(0)` and would give an all-NaN mean, and
  `compute_signal` would then return no order. The SMA periods are excluded only because
  the bot never uses 0.
- `Indicators.RsiUndefinedIff`, `Indicators.RsiFullIff`, `Indicators.RsiZeroIff`,
  `Indicators.AvgLossZeroIff` and `Indicators.AvgGainZeroIff` are stated for period >= 2.
  For period 1 the averages are just the last gain and loss, so these characterisations
  are false. The configured RSI period is 14.
