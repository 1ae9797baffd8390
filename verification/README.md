# Volatility-targeting backtest, modelled in Dafny

`volatility_exposure.py` backtests a volatility-targeting strategy on one price series. It:

- turns daily closes into returns;
- estimates an annualised rolling volatility;
- sets each day's exposure to `target_vol / vol`, capped at `cap`;
- applies yesterday's exposure to today's return;
- treats days without a position as earning 0;
- compounds the strategy and the raw returns into value curves, with profit curves and total returns beside them.

This project models that chain, from dropping missing closes (line 8) to the final values and total returns (lines 51–54), as pure functions over position-aligned sequences.

- An entry `None` stands for NaN.
- Arithmetic is exact `real` arithmetic.
- The sample standard deviation is abstract. It is a parameter `std` of type `Series.Dispersion`: any statistic of a window that is never negative.
- `252 ** 0.5` is the constant `Stages.AnnFactor`, `15.874507866387544`: the shortest decimal that reads back as the double the script computes, not that double's exact binary value.

Three modules, one per file:

- `Series` (`series.dfy`): the pandas operations the script uses.
  - `dropna`, `pct_change`, `rolling(w).std()`, scalar multiplication, `shift(1)`, element-wise product, `fillna`, `1 + s`, `s - 1`, `cumprod`.
  - A `Product` reference definition for `cumprod`.
- `Stages` (`stages.dfy`): the script's stages.
  - Returns, annualised volatility, capped exposure, lagged scaled returns, value curve, profit, final value and total return.
  - The lemmas about each stage.
- `Backtest` (`backtest.dfy`):
  - `Config` holds the window, the target and the cap. The script's values are the constant `Backtest.Script`.
  - `Run` holds every series of one run.
  - The whole pipeline, and the end-to-end properties: window gating, lag, a flat curve before the window fills (the first 60 days with the script's settings), and no look-ahead.

Two behaviours of the code that the model keeps:

- **Zero volatility.** `target_vol / 0.0` is `+inf` in floating point, and `clip(upper=cap)` turns it into `cap`. So a day of zero volatility has the exposure `cap`; it is not undefined.
- **Short windows.** pandas' rolling standard deviation uses `min_periods = window` and the sample deviation (ddof = 1). The deviation of a single point is NaN. So with a window below two, no volatility, exposure or scaled return is ever defined, and the strategy stays in cash throughout.

## Model

| member | source | states |
|---|---|---|
| Series.DropNa | volatility_exposure.py:8 | Keeps only defined entries: the result is no longer than the input and every value comes from it. A NaN-free series is unchanged. A series whose only NaN is its first entry loses exactly that entry, and the others shift down by one. |
| Series.DropNaOne | volatility_exposure.py:8 | On one entry, a number is kept and NaN is dropped. |
| Series.DropNaFirst | volatility_exposure.py:8 | A non-empty series, with or without a tail appended, loses NaN from its first entry and then from the rest. |
| Series.DropNaAppend | volatility_exposure.py:8 | Dropping NaN from two joined series is dropping it from each and joining the results. With the one-entry case this fixes the result on every input, gaps anywhere: the defined values in their original order. |
| Series.PctChange | volatility_exposure.py:13 | Same length as the input. The first entry is NaN; entry `i + 1` is `s[i+1] / s[i] - 1`. |
| Series.RollingStd | volatility_exposure.py:19 | Entry `t` is defined iff `2 <= window <= t + 1`. It is then the non-negative statistic of the `window` values ending at `t`. |
| Series.Scale | volatility_exposure.py:20 | Keeps definedness entry by entry and multiplies each value by the scalar. A positive scalar preserves non-negativity both ways. |
| Series.Shift | volatility_exposure.py:34 | Same length; the first entry is NaN; entry `t` is the input's entry `t - 1`. |
| Series.Times | volatility_exposure.py:34 | Entry `t` is defined iff the first operand's entry is, and is then the product of the two entries. |
| Series.OnePlus | volatility_exposure.py:43-44 | `1 + s`: same length, and each entry less one is the input's entry. |
| Series.MinusOne | volatility_exposure.py:45-46 | `s - 1`: same length, and each entry plus one is the input's entry. |
| Series.FillNa | volatility_exposure.py:42 | Same length; NaN becomes the fill value and numbers are kept. |
| Series.OnePlusMinusOne | volatility_exposure.py:43-46 | `1 + s` and `s - 1` undo each other, in both orders. |
| Series.CumProd | volatility_exposure.py:43-44 | The running product: same length, starts at the first factor, and each entry is the previous one times the current factor. |
| Series.CumProdIsPrefixProduct | volatility_exposure.py:43-44 | Entry `t` of the running product equals `Product` of the first `t + 1` factors. |
| Series.CumProdPrefix | volatility_exposure.py:43-44 | The running product of a prefix is the prefix of the running product. |
| Series.ProductAppend | volatility_exposure.py:43-44 | The product of a concatenation is the product of the products. |
| Series.FillZeroCompoundsLikeDrop | volatility_exposure.py:42-43 | Compounding `1 + r` over the zero-filled series gives the same product as compounding over the defined entries alone: a NaN day contributes a factor of 1. |
| Stages.Returns | volatility_exposure.py:13 | For positive closes: the series is one entry shorter than the prices (empty for no prices), and return `i` is `prices[i+1] / prices[i] - 1`. |
| Stages.AnnualizedVol | volatility_exposure.py:18-20 | Defined exactly from index `window - 1` on (window at least two). It is never negative, and equals the window's deviation times `AnnFactor`. |
| Stages.Exposure | volatility_exposure.py:26-29 | Defined exactly where the volatility is, and never above the cap. It equals the cap iff the volatility is 0 or the ratio reaches the cap; otherwise it equals `target_vol / vol`. There is no lower clamp, yet a positive cap keeps it positive. |
| Stages.Scaled | volatility_exposure.py:34-37 | The first entry is NaN. Entry `t` is defined iff exposure `t - 1` is, and is then exposure `t - 1` times return `t`. |
| Stages.ScaledReadsOnlyLaggedExposure | volatility_exposure.py:34-37 | Scaled entry `t` depends only on exposure `t - 1` and return `t`. Any two inputs that agree there give the same entry, whatever they hold elsewhere, exposure `t` included. |
| Stages.HeldDayReturn | volatility_exposure.py:34-42 | When exposure `t - 1` is defined, the zero-filled scaled return of day `t` is that exposure times return `t`. |
| Stages.Portfolio | volatility_exposure.py:43-44 | The value curve has the returns' length. It starts at `1 + r[0]` and grows each day by `1 + r[t]`. |
| Stages.PortfolioIsProduct | volatility_exposure.py:43-44 | Value `t` equals the product of `1 + r[i]` over days `i <= t`. |
| Stages.PortfolioFlatWhileZero | volatility_exposure.py:42-43 | While every return so far is 0, the value is 1. |
| Stages.Profit | volatility_exposure.py:45-46 | Profit plus one is the value, entry by entry; adding one back gives the value curve. |
| Stages.FinalValue | volatility_exposure.py:51-54 | Defined iff the curve is non-empty. It is then a value of the curve, and the total return is this final value less one, times 100; with `TotalReturnPct` that makes it the curve's last value. |
| Stages.TotalReturnPct | volatility_exposure.py:53-54 | Defined iff the curve is non-empty. Then `pct / 100 + 1` is the curve's last value. |
| Stages.TotalReturnIsCompoundedGrowth | volatility_exposure.py:43-54 | The total return of a value curve is the product of all growth factors, minus 1, times 100. |
| Stages.CompoundedReturnsTelescope | volatility_exposure.py:13-44 | Compounding the returns of any positive price series gives, on day `t`, `prices[t+1] / prices[0]`. |
| Stages.BuyAndHold | volatility_exposure.py:13-44 | The benchmark curve on day `t` is the close of day `t + 1` over the first close. |
| Stages.FilledCurveCompoundsDefinedDays | volatility_exposure.py:42-43 | The last value of the zero-filled strategy curve is the compounded growth of the defined scaled returns alone. |
| Stages.ReturnsPrefix | volatility_exposure.py:13 | Returns computed from the closes up to day `k` are the first `k - 1` returns of the full series. |
| Stages.AnnualizedVolPrefix | volatility_exposure.py:19-20 | Volatility computed from a prefix of the returns is the prefix of the volatility. |
| Stages.ExposurePrefix | volatility_exposure.py:27-29 | Exposure computed from a prefix of the volatility is the prefix of the exposure. |
| Stages.ScaledPrefix | volatility_exposure.py:34 | Scaled returns computed from prefixes of the exposure and returns are the prefix of the scaled returns. |
| Stages.PortfolioPrefix | volatility_exposure.py:43-44 | The value curve of a prefix of the returns is the prefix of the value curve. |
| Backtest.Positions | volatility_exposure.py:18-29 | Each day's position is defined iff `2 <= window <= t + 1`, and never exceeds the cap. |
| Backtest.StrategyReturns | volatility_exposure.py:34-42 | Has the returns' length. Every day before the window has filled (and every day, for a window under two) earns exactly 0. |
| Backtest.StrategyCurve | volatility_exposure.py:42-43 | Has the returns' length. It stays at 1 on every day before the window has filled. |
| Backtest.ScaledWindowGating | volatility_exposure.py:19-34 | A scaled return exists on day `t` iff `2 <= window <= t`: one day later than the volatility. |
| Backtest.StrategyReturnAfterWindow | volatility_exposure.py:34-42 | Once the window has filled, the previous day's position exists, and the day's strategy return is that position times the day's return. |
| Backtest.Pipeline | volatility_exposure.py:13-46 | Every series of a run is on the returns' index: one day shorter than the prices. Each series is the stage applied to the series it reads in the script. The run's profit curves add back to its value curves. |
| Backtest.Backtest | volatility_exposure.py:8-46 | The run's prices are the feed's closes with the missing ones dropped. They are positive, come from the feed, and are the feed's closes in order when none is missing. The run's returns, strategy curve and benchmark curve are computed from those prices. |
| Backtest.ScriptFlatFirstDays | volatility_exposure.py:18-43 | With the script's settings (window 60, target 0.2, cap 3), the strategy earns 0 and its value stays at 1 for the first 60 days of returns. |
| Backtest.StrategyCompoundsDefinedDays | volatility_exposure.py:42-43 | The strategy's final value is the compounded growth of the days on which it held a position. |
| Backtest.StrategyPrefix | volatility_exposure.py:18-43 | Positions, strategy returns and the strategy curve computed from the returns up to day `k` agree with the full computation up to that day. |
| Backtest.NoLookAhead | volatility_exposure.py:13-44 | The returns, positions, strategy curve and benchmark curve computed from the closes up to day `k` equal those computed from all the closes, up to that day: the backtest never reads a later close. |

## Left out

- The price download (`yf.download`, line 8) is network I/O through a foreign library. The model starts from a given sequence of closes, possibly with gaps.
- All printing (`print`, `head`, `tail`) is console output and carries no computation.
- The square root and sample variance inside `std()`, and the computation of `252 ** 0.5`. The deviation is an abstract non-negative parameter; the factor is the constant the script evaluates to.
- Floating-point rounding, and `inf`/NaN arithmetic beyond the zero-volatility case, which is modelled. A target volatility of 0 or below (`0/0` is NaN; a negative target yields `-inf`) is excluded by requiring a positive target.
- Zero or negative closes: `pct_change` would divide by zero, and a close is a positive price. Closes are required to be positive.
- Calling `iloc[-1]` on an empty curve raises an error in the script. The model returns no value instead.
- pandas' date index: every series comes from one index, so a series is a plain position-aligned sequence.
- Annualised return, Sharpe ratio and drawdown are computed nowhere in the script.
- The comment on line 24 speaks of a 15% target while the value is `0.2`. The target is a positive parameter, and `Backtest.Script` holds `0.2`.
