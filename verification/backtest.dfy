/** The volatility-targeting backtest as one pipeline, from the feed's
    closing prices to the strategy and benchmark value curves, and the
    properties that hold of a whole run. */
module Backtest {
  import opened Series
  import opened Stages

  /** The parameters of a run: the rolling window in days, the annualised
      volatility target and the exposure cap. */
  datatype Config = Config(window: nat, targetVol: real, cap: real)

  /** The values the script fixes: a 60-day window, a target of 0.2 and a
      cap of 3. */
  const Script: Config := Config(60, 0.2, 3.0)

  /** Every series a run builds, all on the returns' date index except
      the prices, which keep the one extra first day. */
  datatype Run = Run(
    prices: seq<real>,
    daily: seq<real>,
    vol: seq<Option<real>>,
    exposure: seq<Option<real>>,
    scaled: seq<Option<real>>,
    filled: seq<real>,
    strategy: seq<real>,
    benchmark: seq<real>,
    strategyProfit: seq<real>,
    benchmarkProfit: seq<real>)

  /** Every close the feed does report is positive. */
  predicate PositiveCloses(closes: seq<Option<real>>) {
    forall i :: 0 <= i < |closes| && closes[i].Some? ==> closes[i].value > 0.0
  }

  /** The position of each day: the capped inverse-volatility exposure
      computed from the returns up to that day. Defined exactly from day
      `window - 1` on (for a window of at least two), and never above the
      cap. */
  function Positions(daily: seq<real>, cfg: Config, std: Dispersion): (e: seq<Option<real>>)
    requires cfg.targetVol > 0.0
    ensures |e| == |daily|
    ensures forall t :: 0 <= t < |e| ==> (e[t].Some? <==> 2 <= cfg.window <= t + 1)
    ensures forall t :: 0 <= t < |e| && e[t].Some? ==> e[t].value <= cfg.cap
  {
    Exposure(AnnualizedVol(daily, cfg.window, std), cfg.targetVol, cfg.cap)
  }

  /** The strategy's daily returns as compounded: scaled returns with the
      undefined days filled with 0. Before the window has filled (or with a
      window under two) the strategy is out of the market and earns 0. */
  function StrategyReturns(daily: seq<real>, cfg: Config, std: Dispersion): (f: seq<real>)
    requires cfg.targetVol > 0.0
    ensures |f| == |daily|
    ensures forall t :: 0 <= t < |f| && !(2 <= cfg.window <= t) ==> f[t] == 0.0
  {
    FillNa(Scaled(Positions(daily, cfg, std), daily), 0.0)
  }

  /** The strategy's value curve. Before the window fills it stays at the
      unit stake. */
  function StrategyCurve(daily: seq<real>, cfg: Config, std: Dispersion): (v: seq<real>)
    requires cfg.targetVol > 0.0
    ensures |v| == |daily|
    ensures forall t :: 0 <= t < |v| && t < cfg.window ==> v[t] == 1.0
  {
    var f := StrategyReturns(daily, cfg, std);
    forall t | 0 <= t < |f| && t < cfg.window
      ensures Portfolio(f)[t] == 1.0
    {
      PortfolioFlatWhileZero(f, t);
    }
    Portfolio(f)
  }

  /** With the script's own settings, the strategy sits in cash, its
      value at the unit stake, for the first 60 days of returns. */
  lemma ScriptFlatFirstDays(daily: seq<real>, std: Dispersion, t: nat)
    requires t < |daily| && t < 60
    ensures StrategyCurve(daily, Script, std)[t] == 1.0
    ensures StrategyReturns(daily, Script, std)[t] == 0.0
  {
  }

  /** Window gating of the scaled returns: a day has a scaled return
      exactly when the previous day had a position, that is from day
      `window` on (for a window of at least two). */
  lemma ScaledWindowGating(daily: seq<real>, cfg: Config, std: Dispersion, t: nat)
    requires cfg.targetVol > 0.0 && t < |daily|
    ensures Scaled(Positions(daily, cfg, std), daily)[t].Some? <==> 2 <= cfg.window <= t
  {
    var e := Positions(daily, cfg, std);
    if t > 0 {
      assert Scaled(e, daily)[t].Some? <==> e[t - 1].Some?;
    }
  }

  /** Once the window has filled, a day's strategy return is the previous
      day's position times the day's return. */
  lemma StrategyReturnAfterWindow(daily: seq<real>, cfg: Config, std: Dispersion, t: nat)
    requires cfg.targetVol > 0.0
    requires 2 <= cfg.window <= t < |daily|
    ensures Positions(daily, cfg, std)[t - 1].Some?
    ensures StrategyReturns(daily, cfg, std)[t] == Positions(daily, cfg, std)[t - 1].value * daily[t]
  {
    HeldDayReturn(Positions(daily, cfg, std), daily, t);
  }

  /** The run over a clean price series: returns, annualised volatility,
      capped exposure, lagged scaled returns, zero-filled, compounded into
      the strategy curve; the raw returns compounded into the benchmark
      curve; and both profit curves. Every series after the prices is on
      the returns' index, one day shorter than the prices. */
  function Pipeline(prices: seq<real>, cfg: Config, std: Dispersion): (run: Run)
    requires AllPositive(prices) && cfg.targetVol > 0.0
    ensures run.prices == prices
    ensures |run.daily| == if |prices| == 0 then 0 else |prices| - 1
    ensures |run.vol| == |run.exposure| == |run.scaled| == |run.filled| == |run.daily|
    ensures |run.strategy| == |run.benchmark| == |run.daily|
    ensures |run.strategyProfit| == |run.benchmarkProfit| == |run.daily|
    ensures run.daily == Returns(prices)
    ensures run.vol == AnnualizedVol(run.daily, cfg.window, std)
    ensures run.exposure == Positions(run.daily, cfg, std)
    ensures run.scaled == Scaled(run.exposure, run.daily)
    ensures run.filled == StrategyReturns(run.daily, cfg, std)
    ensures run.strategy == StrategyCurve(run.daily, cfg, std)
    ensures run.benchmark == Portfolio(run.daily)
    ensures OnePlus(run.strategyProfit) == run.strategy && OnePlus(run.benchmarkProfit) == run.benchmark
  {
    var daily := Returns(prices);
    var vol := AnnualizedVol(daily, cfg.window, std);
    var exposure := Exposure(vol, cfg.targetVol, cfg.cap);
    var scaled := Scaled(exposure, daily);
    var filled := FillNa(scaled, 0.0);
    var strategy := Portfolio(filled);
    var benchmark := Portfolio(daily);
    Run(prices, daily, vol, exposure, scaled, filled, strategy, benchmark, Profit(strategy), Profit(benchmark))
  }

  /** The whole script: the feed's closes with missing days dropped, then
      the pipeline. */
  function Backtest(closes: seq<Option<real>>, cfg: Config, std: Dispersion): (run: Run)
    requires PositiveCloses(closes) && cfg.targetVol > 0.0
    ensures AllPositive(run.prices)
    ensures |run.prices| <= |closes|
    ensures AllDefined(closes) ==> |run.prices| == |closes|
    ensures AllDefined(closes) ==> forall i :: 0 <= i < |closes| ==> run.prices[i] == closes[i].value
    ensures forall x :: x in run.prices ==> Some(x) in closes
    ensures run.prices == DropNa(closes)
    ensures run.daily == Returns(run.prices)
    ensures run.strategy == StrategyCurve(run.daily, cfg, std)
    ensures run.benchmark == Portfolio(run.daily)
  {
    var prices := DropNa(closes);
    assert AllPositive(prices) by {
      forall i | 0 <= i < |prices| ensures prices[i] > 0.0 {
        assert prices[i] in prices;
      }
    }
    Pipeline(prices, cfg, std)
  }

  /** Filling the undefined scaled returns with 0 is the same as compounding
      only the days on which the strategy held a position. */
  lemma StrategyCompoundsDefinedDays(daily: seq<real>, cfg: Config, std: Dispersion)
    requires cfg.targetVol > 0.0 && |daily| > 0
    ensures FinalValue(StrategyCurve(daily, cfg, std)) ==
            Some(Product(OnePlus(DropNa(Scaled(Positions(daily, cfg, std), daily)))))
  {
    FilledCurveCompoundsDefinedDays(Scaled(Positions(daily, cfg, std), daily));
  }

  /** The strategy never looks ahead: computed from the returns up to day
      `k`, positions, strategy returns and the strategy curve agree with
      those computed from all the returns, up to that day. */
  lemma StrategyPrefix(daily: seq<real>, cfg: Config, std: Dispersion, k: nat)
    requires cfg.targetVol > 0.0 && k <= |daily|
    ensures Positions(daily[..k], cfg, std) == Positions(daily, cfg, std)[..k]
    ensures StrategyReturns(daily[..k], cfg, std) == StrategyReturns(daily, cfg, std)[..k]
    ensures StrategyCurve(daily[..k], cfg, std) == StrategyCurve(daily, cfg, std)[..k]
  {
    var full := Exposure(AnnualizedVol(daily, cfg.window, std), cfg.targetVol, cfg.cap);
    AnnualizedVolPrefix(daily, cfg.window, std, k);
    ExposurePrefix(AnnualizedVol(daily, cfg.window, std), cfg.targetVol, cfg.cap, k);
    ScaledPrefix(full, daily, k);
    var scaled := Scaled(full, daily);
    assert FillNa(scaled[..k], 0.0) == FillNa(scaled, 0.0)[..k];
    PortfolioPrefix(FillNa(scaled, 0.0), k);
  }

  /** No look-ahead, end to end: running the backtest on the closes up to
      day `k` reproduces the returns, positions, strategy curve and
      benchmark curve of the full run up to that day. */
  lemma NoLookAhead(prices: seq<real>, cfg: Config, std: Dispersion, k: nat)
    requires AllPositive(prices) && cfg.targetVol > 0.0
    requires 1 <= k <= |prices|
    ensures AllPositive(prices[..k])
    ensures Returns(prices[..k]) == Returns(prices)[..k - 1]
    ensures Positions(Returns(prices[..k]), cfg, std) == Positions(Returns(prices), cfg, std)[..k - 1]
    ensures StrategyCurve(Returns(prices[..k]), cfg, std) == StrategyCurve(Returns(prices), cfg, std)[..k - 1]
    ensures Portfolio(Returns(prices[..k])) == Portfolio(Returns(prices))[..k - 1]
  {
    ReturnsPrefix(prices, k);
    var daily := Returns(prices);
    StrategyPrefix(daily, cfg, std, k - 1);
    PortfolioPrefix(daily, k - 1);
  }
}
