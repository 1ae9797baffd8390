/** The stages of the volatility-targeting script (volatility_exposure.py),
    each a position-aligned map from one series to the next: returns,
    annualised rolling volatility, capped exposure, lagged scaled returns,
    compounded value curves and profit. */
module Stages {
  import opened Series

  /** `252 ** 0.5`, the annualisation factor for daily data, written as the
      double-precision value the script computes. */
  const AnnFactor: real := 15.874507866387544

  /** Daily returns: `pct_change` followed by `dropna`. With every price
      defined and positive, only the first (predecessor-less) entry is
      dropped, and each return is the fractional change from one close to
      the next. */
  function Returns(prices: seq<real>): (r: seq<real>)
    requires AllPositive(prices)
    ensures |prices| == 0 ==> r == []
    ensures |prices| > 0 ==> |r| == |prices| - 1
    ensures forall i :: 0 <= i < |r| ==> r[i] == prices[i + 1] / prices[i] - 1.0
  {
    var changes := PctChange(prices);
    if |prices| == 0 then
      DropNa(changes)
    else
      assert AllDefined(changes[1..]) by {
        forall i | 0 <= i < |changes[1..]| ensures changes[1..][i].Some? {
          assert changes[1..][i] == changes[i + 1];
        }
      }
      DropNa(changes)
  }

  /** Annualised rolling volatility: the rolling sample deviation of the
      returns over `window` days, times `AnnFactor`. It is defined exactly
      from index `window - 1` on (for a window of at least two), it is never
      negative, and it only reads the `window` returns ending at its own
      index. */
  function AnnualizedVol(daily: seq<real>, window: nat, std: Dispersion): (v: seq<Option<real>>)
    ensures |v| == |daily|
    ensures forall t :: 0 <= t < |v| ==> (v[t].Some? <==> 2 <= window <= t + 1)
    ensures forall t :: 0 <= t < |v| && v[t].Some? ==>
              0.0 <= v[t].value && v[t].value == std(daily[t + 1 - window .. t + 1]) * AnnFactor
  {
    Scale(RollingStd(daily, window, std), AnnFactor)
  }

  /** Exposure of one day: `target_vol / vol` clipped from above at `cap`.
      A zero volatility makes the floating-point quotient `+inf`, which the
      clip turns into `cap`; NaN stays NaN. */
  function ExposureAt(vol: Option<real>, targetVol: real, cap: real): Option<real> {
    match vol
    case None => None
    case Some(v) =>
      if v == 0.0 then Some(cap)
      else if targetVol / v <= cap then Some(targetVol / v)
      else Some(cap)
  }

  /** Inverse-volatility exposure, capped. Defined exactly where the
      volatility is; never above the cap; equal to the cap precisely when
      the volatility is zero or the ratio reaches the cap, and equal to the
      ratio otherwise. There is no lower clamp, yet a non-negative
      volatility and a positive cap give a positive exposure. */
  function Exposure(vol: seq<Option<real>>, targetVol: real, cap: real): (e: seq<Option<real>>)
    requires targetVol > 0.0
    ensures |e| == |vol|
    ensures forall t :: 0 <= t < |vol| ==> (e[t].Some? <==> vol[t].Some?)
    ensures forall t :: 0 <= t < |vol| && e[t].Some? ==> e[t].value <= cap
    ensures forall t :: 0 <= t < |vol| && vol[t].Some? ==>
              (e[t].value == cap <==> vol[t].value == 0.0 || targetVol / vol[t].value >= cap)
    ensures forall t :: 0 <= t < |vol| && vol[t].Some? && vol[t].value != 0.0 && targetVol / vol[t].value <= cap ==>
              e[t].value == targetVol / vol[t].value
    ensures cap > 0.0 ==> forall t :: 0 <= t < |vol| && vol[t].Some? && vol[t].value >= 0.0 ==> e[t].value > 0.0
  {
    seq(|vol|, t requires 0 <= t < |vol| => ExposureAt(vol[t], targetVol, cap))
  }

  /** Scaled returns: yesterday's exposure times today's return. The first
      day has no yesterday and is NaN; a day is NaN exactly when the
      previous day's exposure is. */
  function Scaled(exposure: seq<Option<real>>, daily: seq<real>): (s: seq<Option<real>>)
    requires |exposure| == |daily|
    ensures |s| == |daily|
    ensures |s| > 0 ==> s[0] == None
    ensures forall t :: 1 <= t < |s| ==> (s[t].Some? <==> exposure[t - 1].Some?)
    ensures forall t :: 1 <= t < |s| && s[t].Some? ==> s[t].value == exposure[t - 1].value * daily[t]
  {
    Times(Shift(exposure), daily)
  }

  /** No look-ahead: the scaled return of day `t` is determined by the
      exposure of day `t - 1` and the return of day `t` alone, whatever the
      other days hold, the exposure of day `t` included. */
  lemma ScaledReadsOnlyLaggedExposure(e1: seq<Option<real>>, r1: seq<real>, e2: seq<Option<real>>, r2: seq<real>, t: nat)
    requires |e1| == |r1| && |e2| == |r2|
    requires t < |r1| && t < |r2|
    requires t > 0 ==> e1[t - 1] == e2[t - 1] && r1[t] == r2[t]
    ensures Scaled(e1, r1)[t] == Scaled(e2, r2)[t]
  {
    var s1, s2 := Scaled(e1, r1), Scaled(e2, r2);
    if t > 0 && e1[t - 1].Some? {
      assert s1[t].Some? && s2[t].Some?;
      assert s1[t].value == e1[t - 1].value * r1[t];
      assert s2[t].value == e2[t - 1].value * r2[t];
      SameFactorsSameProduct(e1[t - 1].value, r1[t], e2[t - 1].value, r2[t]);
      assert s1[t].value == s2[t].value;
    }
  }

  /** Once the previous day's exposure is known, the zero-filled scaled
      return of a day is that exposure times the day's return. */
  lemma HeldDayReturn(exposure: seq<Option<real>>, daily: seq<real>, t: nat)
    requires |exposure| == |daily| && 1 <= t < |daily|
    requires exposure[t - 1].Some?
    ensures FillNa(Scaled(exposure, daily), 0.0)[t] == exposure[t - 1].value * daily[t]
  {
    var scaled := Scaled(exposure, daily);
    assert scaled[t].Some? && scaled[t].value == exposure[t - 1].value * daily[t];
  }

  lemma SameFactorsSameProduct(a: real, b: real, c: real, d: real)
    requires a == c && b == d
    ensures a * b == c * d
  {
  }

  /** Value curve: `(1 + r).cumprod()`. It starts from `1 + r[0]` (the
      value after the first period, from a unit investment) and each day
      multiplies the previous value by `1 + r[t]`. */
  function Portfolio(r: seq<real>): (v: seq<real>)
    ensures |v| == |r|
    ensures |r| > 0 ==> v[0] == 1.0 + r[0]
    ensures forall t :: 1 <= t < |r| ==> v[t] == v[t - 1] * (1.0 + r[t])
  {
    var growth := OnePlus(r);
    assert forall t :: 0 <= t < |r| ==> growth[t] == 1.0 + r[t];
    CumProd(growth)
  }

  /** Closed form of the value curve: day `t` is the product of `1 + r[i]`
      over the days up to and including `t`. */
  lemma PortfolioIsProduct(r: seq<real>, t: nat)
    requires t < |r|
    ensures Portfolio(r)[t] == Product(OnePlus(r)[..t + 1])
  {
    CumProdIsPrefixProduct(OnePlus(r), t);
  }

  /** Days of zero return leave the value curve at 1. */
  lemma {:induction false} PortfolioFlatWhileZero(r: seq<real>, t: nat)
    requires t < |r|
    requires forall i :: 0 <= i <= t ==> r[i] == 0.0
    ensures Portfolio(r)[t] == 1.0
  {
    if t > 0 {
      PortfolioFlatWhileZero(r, t - 1);
    }
  }

  /** Profit curve: `portfolio - 1`, the gain over the unit investment. */
  function Profit(v: seq<real>): (p: seq<real>)
    ensures |p| == |v|
    ensures forall t :: 0 <= t < |v| ==> p[t] + 1.0 == v[t]
    ensures OnePlus(p) == v
  {
    OnePlusMinusOne(v);
    MinusOne(v)
  }

  /** `iloc[-1]`: the last value of a curve; an empty curve has none (the
      script would raise an index error). */
  function FinalValue(v: seq<real>): (f: Option<real>)
    ensures f.Some? <==> |v| > 0
    ensures f.Some? ==> f.value in v
    ensures f.Some? ==> TotalReturnPct(v) == Some((f.value - 1.0) * 100.0)
  {
    if |v| == 0 then None else Some(v[|v| - 1])
  }

  /** Total return in percent: `(last value - 1) * 100`; none for an empty
      curve. */
  function TotalReturnPct(v: seq<real>): (pct: Option<real>)
    ensures pct.Some? <==> |v| > 0
    ensures pct.Some? ==> pct.value / 100.0 + 1.0 == v[|v| - 1]
  {
    if |v| == 0 then None else Some((v[|v| - 1] - 1.0) * 100.0)
  }

  /** The total return of a value curve is the compounded growth of all its
      periods, less the unit stake, in percent. */
  lemma TotalReturnIsCompoundedGrowth(r: seq<real>)
    requires |r| > 0
    ensures TotalReturnPct(Portfolio(r)) == Some((Product(OnePlus(r)) - 1.0) * 100.0)
  {
    PortfolioIsProduct(r, |r| - 1);
    assert OnePlus(r)[..|r|] == OnePlus(r);
  }

  /** One day of buy-and-hold: a value equal to the price ratio so far,
      grown by the next day's return, is the price ratio one day later. */
  lemma TelescopeStep(first: real, today: real, next: real, value: real, ret: real, grown: real)
    requires first > 0.0 && today > 0.0
    requires value == today / first && ret == next / today - 1.0
    requires grown == value * (1.0 + ret)
    ensures grown == next / first
  {
    calc {
      grown;
      (today / first) * (next / today);
      next / first;
    }
  }

  /** One step of the value curve, as a fact about the given day. */
  lemma PortfolioStep(r: seq<real>, t: nat)
    requires 1 <= t < |r|
    ensures Portfolio(r)[t] == Portfolio(r)[t - 1] * (1.0 + r[t])
  {
  }

  /** The inductive step of `CompoundedReturnsTelescope`. */
  lemma TelescopeNext(prices: seq<real>, daily: seq<real>, t: nat)
    requires AllPositive(prices) && |daily| + 1 == |prices|
    requires forall i :: 0 <= i < |daily| ==> daily[i] == prices[i + 1] / prices[i] - 1.0
    requires 1 <= t < |daily|
    requires Portfolio(daily)[t - 1] == prices[t] / prices[0]
    ensures Portfolio(daily)[t] == prices[t + 1] / prices[0]
  {
    PortfolioStep(daily, t);
    TelescopeStep(prices[0], prices[t], prices[t + 1], Portfolio(daily)[t - 1], daily[t], Portfolio(daily)[t]);
  }

  /** Compounding telescopes: the value curve of the daily returns of any
      positive price series stands, on each day, at that day's close over
      the first close. */
  lemma {:induction false} CompoundedReturnsTelescope(prices: seq<real>, daily: seq<real>, t: nat)
    requires AllPositive(prices) && |daily| + 1 == |prices|
    requires forall i :: 0 <= i < |daily| ==> daily[i] == prices[i + 1] / prices[i] - 1.0
    requires t < |daily|
    ensures Portfolio(daily)[t] == prices[t + 1] / prices[0]
  {
    if t == 0 {
      assert Portfolio(daily)[0] == 1.0 + daily[0];
    } else {
      CompoundedReturnsTelescope(prices, daily, t - 1);
      TelescopeNext(prices, daily, t);
    }
  }

  /** The benchmark of the script is buy-and-hold: compounding the returns
      of positive closes from a unit stake gives, on each day, that day's
      close over the first close. */
  lemma BuyAndHold(prices: seq<real>, t: nat)
    requires AllPositive(prices) && t < |Returns(prices)|
    ensures Portfolio(Returns(prices))[t] == prices[t + 1] / prices[0]
  {
    CompoundedReturnsTelescope(prices, Returns(prices), t);
  }

  /** The zero-filled strategy curve ends at the compounded growth of the
      defined scaled returns alone: undefined days contribute nothing. */
  lemma FilledCurveCompoundsDefinedDays(scaled: seq<Option<real>>)
    requires |scaled| > 0
    ensures FinalValue(Portfolio(FillNa(scaled, 0.0))) == Some(Product(OnePlus(DropNa(scaled))))
  {
    var filled := FillNa(scaled, 0.0);
    var n := |filled|;
    PortfolioIsProduct(filled, n - 1);
    assert OnePlus(filled)[..n] == OnePlus(filled);
    FillZeroCompoundsLikeDrop(scaled);
  }

  /* Every stage looks only backwards: running it on the data up to some
     day gives the same series, up to that day, as running it on all the
     data. Together these say the backtest never uses a later day's data. */

  /** A prefix of positive closes is positive. */
  lemma PositivePrefix(prices: seq<real>, k: nat)
    requires AllPositive(prices) && k <= |prices|
    ensures AllPositive(prices[..k])
  {
    forall i | 0 <= i < k ensures prices[..k][i] > 0.0 {
      assert prices[..k][i] == prices[i];
    }
  }

  /** The return of day `i` is the same whether or not closes after day
      `i + 1` are known. */
  lemma ReturnsPrefixAt(prices: seq<real>, k: nat, i: nat)
    requires AllPositive(prices) && 1 <= k <= |prices| && i < k - 1
    requires AllPositive(prices[..k])
    ensures Returns(prices[..k])[i] == Returns(prices)[i]
  {
    var head := prices[..k];
    assert head[i] == prices[i] && head[i + 1] == prices[i + 1];
  }

  /** Returns up to a day need only the closes up to that day. */
  lemma ReturnsPrefix(prices: seq<real>, k: nat)
    requires AllPositive(prices) && 1 <= k <= |prices|
    ensures AllPositive(prices[..k])
    ensures Returns(prices[..k]) == Returns(prices)[..k - 1]
  {
    PositivePrefix(prices, k);
    forall i | 0 <= i < k - 1
      ensures Returns(prices[..k])[i] == Returns(prices)[i]
    {
      ReturnsPrefixAt(prices, k, i);
    }
  }

  /** Volatility up to a day needs only the returns up to that day. */
  lemma AnnualizedVolPrefix(daily: seq<real>, window: nat, std: Dispersion, k: nat)
    requires k <= |daily|
    ensures AnnualizedVol(daily[..k], window, std) == AnnualizedVol(daily, window, std)[..k]
  {
    var short, long := AnnualizedVol(daily[..k], window, std), AnnualizedVol(daily, window, std);
    forall t | 0 <= t < k && 2 <= window <= t + 1
      ensures short[t] == long[t]
    {
      assert daily[..k][t + 1 - window .. t + 1] == daily[t + 1 - window .. t + 1];
    }
  }

  /** Exposure of a day is read off that day's volatility alone. */
  lemma ExposurePrefix(vol: seq<Option<real>>, targetVol: real, cap: real, k: nat)
    requires targetVol > 0.0 && k <= |vol|
    ensures Exposure(vol[..k], targetVol, cap) == Exposure(vol, targetVol, cap)[..k]
  {
    var short, long := Exposure(vol[..k], targetVol, cap), Exposure(vol, targetVol, cap);
    forall t | 0 <= t < k
      ensures short[t] == long[t]
    {
      assert short[t] == ExposureAt(vol[t], targetVol, cap);
    }
  }

  /** Scaled returns up to a day need only exposures and returns up to
      that day. */
  lemma ScaledPrefix(exposure: seq<Option<real>>, daily: seq<real>, k: nat)
    requires |exposure| == |daily| && k <= |daily|
    ensures Scaled(exposure[..k], daily[..k]) == Scaled(exposure, daily)[..k]
  {
    var short, long := Scaled(exposure[..k], daily[..k]), Scaled(exposure, daily);
    forall t | 0 <= t < k
      ensures short[t] == long[t]
    {
      ScaledReadsOnlyLaggedExposure(exposure[..k], daily[..k], exposure, daily, t);
    }
  }

  /** The value curve up to a day needs only the returns up to that day. */
  lemma PortfolioPrefix(r: seq<real>, k: nat)
    requires k <= |r|
    ensures Portfolio(r[..k]) == Portfolio(r)[..k]
  {
    assert OnePlus(r[..k]) == OnePlus(r)[..k];
    CumProdPrefix(OnePlus(r), k);
  }
}
