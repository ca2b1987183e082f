/**
 * The portfolio analytics: return statistics (volatility, Sharpe, Sortino,
 * maximum drawdown), the fixed-income duration, concentration, beta, the
 * risk score, the three exposure dictionaries and the seven-row IPS risk
 * table.
 *
 * Numbers are exact reals. `Math.sqrt` has no counterpart on reals, so the
 * square roots `calculatePortfolioVolatility` and `calculateSortinoRatio`
 * take are supplied by the caller together with a
 * `requires` that they are the non-negative roots of the right quantity.
 */
module CalculateMetrics {
  import opened Portfolio
  import opened Seqs
  import opened Rollup
  import LoadPortfolio

  /** The default `riskFreeRate` of the Sharpe and Sortino ratios. */
  const DefaultRiskFreeRate: real := 0.05

  // ----- return statistics -----

  function Mean(series: seq<real>): (m: real)
    requires |series| > 0
    ensures m * |series| as real == Sum(series)
  {
    Sum(series) / |series| as real
  }

  /** Σ (r - mean)², the numerator of the variance. */
  function SquaredDeviations(series: seq<real>, mean: real): (r: real)
    ensures r >= 0.0
    decreases |series|
  {
    if series == [] then 0.0
    else
      var d := series[|series| - 1] - mean;
      SquaredDeviations(series[..|series| - 1], mean) + d * d
  }

  /** The population variance `calculatePortfolioVolatility` takes the square root of; 0 below two returns. */
  function PortfolioVariance(series: seq<real>): (v: real)
    ensures v >= 0.0
    ensures |series| < 2 ==> v == 0.0
  {
    if |series| < 2 then 0.0 else SquaredDeviations(series, Mean(series)) / |series| as real
  }

  /** A number other than zero has a positive square. */
  lemma SquarePositive(x: real)
    requires x != 0.0
    ensures x * x > 0.0
  {
    if x < 0.0 {
      assert (-x) * (-x) > 0.0;
      calc {
        x * x;
      ==
        (-x) * (-x);
      >
        0.0;
      }
    }
  }

  lemma SquareNonNegative(x: real)
    ensures x * x >= 0.0
  {
    if x != 0.0 {
      SquarePositive(x);
    }
  }

  /** `root` is `Math.sqrt(x)`: the non-negative number whose square is `x`. */
  predicate IsSquareRoot(root: real, x: real)
  {
    root >= 0.0 && root * root == x
  }

  /** `volatility` is what `calculatePortfolioVolatility(series)` returns. */
  predicate IsVolatilityOf(volatility: real, series: seq<real>)
  {
    IsSquareRoot(volatility, PortfolioVariance(series))
  }

  /** A square root is zero exactly when its square is. */
  lemma RootZero(root: real, x: real)
    requires IsSquareRoot(root, x)
    ensures root == 0.0 <==> x == 0.0
  {
    if root != 0.0 {
      calc {
        x;
      ==
        root * root;
      > { SquarePositive(root); }
        0.0;
      }
    }
  }

  /** The squared deviations add up to zero exactly when every return equals the mean. */
  lemma {:induction false} SquaredDeviationsZero(series: seq<real>, mean: real)
    ensures SquaredDeviations(series, mean) == 0.0 <==> forall i :: 0 <= i < |series| ==> series[i] == mean
    decreases |series|
  {
    if series != [] {
      var prefix := series[..|series| - 1];
      var d := series[|series| - 1] - mean;
      SquaredDeviationsZero(prefix, mean);
      assert forall i :: 0 <= i < |prefix| ==> prefix[i] == series[i];
      if d != 0.0 {
        calc {
          SquaredDeviations(series, mean);
        ==
          SquaredDeviations(prefix, mean) + d * d;
        > { SquarePositive(d); }
          SquaredDeviations(prefix, mean);
        >=
          0.0;
        }
      } else {
        calc {
          SquaredDeviations(series, mean);
        ==
          SquaredDeviations(prefix, mean) + d * d;
        ==
          SquaredDeviations(prefix, mean);
        }
      }
    }
  }

  lemma {:induction false} SumOfConstant(xs: seq<real>, c: real)
    requires forall i :: 0 <= i < |xs| ==> xs[i] == c
    ensures Sum(xs) == |xs| as real * c
    decreases |xs|
  {
    if xs != [] {
      SumOfConstant(xs[..|xs| - 1], c);
    }
  }

  /** The variance of two or more returns is 0 exactly when they are all the same. */
  lemma VarianceZeroIffConstant(series: seq<real>)
    requires |series| >= 2
    ensures PortfolioVariance(series) == 0.0 <==> forall i :: 0 <= i < |series| ==> series[i] == series[0]
  {
    var n := |series| as real;
    var m := Mean(series);
    SquaredDeviationsZero(series, m);
    if forall i :: 0 <= i < |series| ==> series[i] == series[0] {
      SumOfConstant(series, series[0]);
      assert m * n == n * series[0];
      assert m == series[0];
    }
    assert SquaredDeviations(series, m) == PortfolioVariance(series) * n;
  }

  /** `calculateSharpeRatio(series, riskFreeRate)`, given `volatility = calculatePortfolioVolatility(series)`. */
  function SharpeRatio(series: seq<real>, riskFreeRate: real, volatility: real): (r: real)
    requires IsVolatilityOf(volatility, series)
    ensures |series| < 2 ==> r == 0.0
    ensures volatility != 0.0 ==> |series| >= 2 && r * volatility == Mean(series) - riskFreeRate
  {
    RootZero(volatility, PortfolioVariance(series));
    if |series| == 0 then 0.0
    else if volatility == 0.0 then 0.0
    else (Mean(series) - riskFreeRate) / volatility
  }

  /**
   * The Sharpe ratio of returns that are not all equal has the sign of the
   * excess return; of equal returns it is 0.
   */
  lemma SharpeSign(series: seq<real>, riskFreeRate: real, volatility: real)
    requires IsVolatilityOf(volatility, series)
    requires |series| >= 2
    ensures (forall i :: 0 <= i < |series| ==> series[i] == series[0]) ==> SharpeRatio(series, riskFreeRate, volatility) == 0.0
    ensures (exists i :: 0 <= i < |series| && series[i] != series[0]) ==>
              && (SharpeRatio(series, riskFreeRate, volatility) > 0.0 <==> Mean(series) > riskFreeRate)
              && (SharpeRatio(series, riskFreeRate, volatility) < 0.0 <==> Mean(series) < riskFreeRate)
  {
    VarianceZeroIffConstant(series);
    var r := SharpeRatio(series, riskFreeRate, volatility);
    if volatility != 0.0 {
      assert volatility > 0.0;
      assert r * volatility == Mean(series) - riskFreeRate;
      if r > 0.0 { assert r * volatility > 0.0; }
      if r < 0.0 { assert r * volatility < 0.0; }
      if r == 0.0 { assert r * volatility == 0.0; }
    }
  }

  /** `filter(r => r < riskFreeRate).reduce((sum, r) => sum + (r - riskFreeRate)²)`. */
  function DownsideSquares(series: seq<real>, riskFreeRate: real): (r: real)
    ensures r >= 0.0
    decreases |series|
  {
    if series == [] then 0.0
    else
      var x := series[|series| - 1];
      DownsideSquares(series[..|series| - 1], riskFreeRate)
      + (if x < riskFreeRate then (x - riskFreeRate) * (x - riskFreeRate) else 0.0)
  }

  /** The downside variance: the squared shortfalls divided by the number of ALL returns. */
  function DownsideVariance(series: seq<real>, riskFreeRate: real): (v: real)
    ensures v >= 0.0
    ensures |series| > 0 ==> v * |series| as real == DownsideSquares(series, riskFreeRate)
  {
    if |series| == 0 then 0.0 else DownsideSquares(series, riskFreeRate) / |series| as real
  }

  /** The squared shortfalls add up to zero exactly when no return falls below the risk-free rate. */
  lemma {:induction false} DownsideSquaresZero(series: seq<real>, riskFreeRate: real)
    ensures DownsideSquares(series, riskFreeRate) == 0.0 <==> forall i :: 0 <= i < |series| ==> series[i] >= riskFreeRate
    decreases |series|
  {
    if series != [] {
      var prefix := series[..|series| - 1];
      var x := series[|series| - 1];
      DownsideSquaresZero(prefix, riskFreeRate);
      assert forall i :: 0 <= i < |prefix| ==> prefix[i] == series[i];
      if x < riskFreeRate {
        var d := x - riskFreeRate;
        calc {
          DownsideSquares(series, riskFreeRate);
        ==
          DownsideSquares(prefix, riskFreeRate) + d * d;
        > { SquarePositive(d); }
          DownsideSquares(prefix, riskFreeRate);
        >=
          0.0;
        }
      }
    }
  }

  /** A quotient by a positive count is zero exactly when its numerator is. */
  lemma QuotientZero(a: real, n: real)
    requires n > 0.0
    ensures a / n == 0.0 <==> a == 0.0
  {
    if a / n == 0.0 {
      calc {
        a;
      ==
        (a / n) * n;
      ==
        0.0 * n;
      ==
        0.0;
      }
    }
  }

  /** `calculateSortinoRatio(series, riskFreeRate)`, given the square root of the downside variance. */
  function SortinoRatio(series: seq<real>, riskFreeRate: real, downsideDeviation: real): (r: real)
    requires IsSquareRoot(downsideDeviation, DownsideVariance(series, riskFreeRate))
    ensures |series| < 2 ==> r == 0.0
    ensures downsideDeviation != 0.0 && |series| >= 2 ==> r * downsideDeviation == Mean(series) - riskFreeRate
  {
    if |series| < 2 then 0.0
    else if downsideDeviation == 0.0 then 0.0
    else (Mean(series) - riskFreeRate) / downsideDeviation
  }

  /**
   * The Sortino ratio is 0 when no return falls below the risk-free rate;
   * otherwise (with two or more returns) the downside deviation is positive
   * and the ratio is the excess return over it.
   */
  lemma SortinoDownside(series: seq<real>, riskFreeRate: real, downsideDeviation: real)
    requires IsSquareRoot(downsideDeviation, DownsideVariance(series, riskFreeRate))
    ensures (forall i :: 0 <= i < |series| ==> series[i] >= riskFreeRate) ==> SortinoRatio(series, riskFreeRate, downsideDeviation) == 0.0
    ensures (exists i :: 0 <= i < |series| && series[i] < riskFreeRate) && |series| >= 2 ==>
              downsideDeviation > 0.0
              && SortinoRatio(series, riskFreeRate, downsideDeviation) * downsideDeviation == Mean(series) - riskFreeRate
  {
    DownsideSquaresZero(series, riskFreeRate);
    RootZero(downsideDeviation, DownsideVariance(series, riskFreeRate));
    if |series| > 0 {
      QuotientZero(DownsideSquares(series, riskFreeRate), |series| as real);
    }
  }

  // ----- calculateDrawdown -----

  /** The running peak after the returns up to index `i`: the first return, raised by every later one above it. */
  function PeakAt(series: seq<real>, i: nat): real
    requires i < |series|
    decreases i
  {
    if i == 0 then series[0]
    else if series[i] > PeakAt(series, i - 1) then series[i] else PeakAt(series, i - 1)
  }

  /** The running peak is the largest of the returns up to `i`. */
  lemma {:induction false} PeakIsLargest(series: seq<real>, i: nat)
    requires i < |series|
    ensures forall j :: 0 <= j <= i ==> series[j] <= PeakAt(series, i)
    ensures exists j :: 0 <= j <= i && series[j] == PeakAt(series, i)
    decreases i
  {
    if i > 0 {
      PeakIsLargest(series, i - 1);
      if series[i] <= PeakAt(series, i - 1) {
        var j :| 0 <= j <= i - 1 && series[j] == PeakAt(series, i - 1);
        assert series[j] == PeakAt(series, i);
      } else {
        assert series[i] == PeakAt(series, i);
      }
    } else {
      assert series[0] == PeakAt(series, 0);
    }
  }

  /**
   * The deepest drawdown seen so far. `Unbounded` is the IEEE `Infinity`
   * `calculateDrawdown` produces once a loss is divided by a zero peak; a 0/0 (`NaN`)
   * drawdown is never larger than the current one and changes nothing.
   */
  datatype Drawdown = Finite(ratio: real) | Unbounded

  /** One turn of the `forEach`: the drawdown of `ret` from `peak`, kept if it is the largest so far. */
  function StepDrawdown(worst: Drawdown, peak: real, ret: real): Drawdown
  {
    match worst
    case Unbounded => Unbounded
    case Finite(m) =>
      if peak == 0.0 then (if ret < 0.0 then Unbounded else worst)
      else if (peak - ret) / peak > m then Finite((peak - ret) / peak)
      else worst
  }

  /** The deepest drawdown over the first `n` series, each measured from the running peak. */
  function RunningDrawdown(series: seq<real>, n: nat): Drawdown
    requires n <= |series|
    decreases n
  {
    if n == 0 then Finite(0.0)
    else StepDrawdown(RunningDrawdown(series, n - 1), PeakAt(series, n - 1), series[n - 1])
  }

  /** `maxDrawdown * 100` (infinity stays infinity). */
  function AsPercent(d: Drawdown): Drawdown
  {
    match d
    case Finite(m) => Finite(m * 100.0)
    case Unbounded => Unbounded
  }

  /** The drawdown `calculateDrawdown` series, as a percentage. */
  function MaxDrawdown(series: seq<real>): Drawdown
  {
    AsPercent(RunningDrawdown(series, |series|))
  }

  /** The drawdown of the return at `i` from its running peak, where that peak is not zero. */
  function DrawdownAt(series: seq<real>, i: nat): real
    requires i < |series| && PeakAt(series, i) != 0.0
  {
    (PeakAt(series, i) - series[i]) / PeakAt(series, i)
  }

  /** `calculateDrawdown`: one pass that keeps the running peak and the deepest drawdown. */
  method CalculateDrawdown(series: seq<real>) returns (drawdown: Drawdown)
    ensures drawdown == MaxDrawdown(series)
  {
    if |series| == 0 {
      return Finite(0.0);
    }
    var peak := series[0];
    var maxDrawdown := Finite(0.0);
    var i := 0;
    while i < |series|
      invariant 0 <= i <= |series|
      invariant peak == PeakAt(series, if i == 0 then 0 else i - 1)
      invariant maxDrawdown == RunningDrawdown(series, i)
    {
      var ret := series[i];
      if ret > peak {
        peak := ret;
      }
      if peak == 0.0 {
        if ret < 0.0 {
          maxDrawdown := Unbounded;
        }
      } else if maxDrawdown.Finite? && (peak - ret) / peak > maxDrawdown.ratio {
        maxDrawdown := Finite((peak - ret) / peak);
      }
      i := i + 1;
    }
    drawdown := AsPercent(maxDrawdown);
  }

  /** The drawdown becomes infinite exactly when some return below zero meets a zero running peak. */
  lemma {:induction false} UnboundedIff(series: seq<real>, n: nat)
    requires n <= |series|
    ensures RunningDrawdown(series, n) == Unbounded <==> exists i :: 0 <= i < n && PeakAt(series, i) == 0.0 && series[i] < 0.0
    decreases n
  {
    if n > 0 {
      UnboundedIff(series, n - 1);
    }
  }

  /** One turn never makes a finite drawdown smaller, and leaves it either as it was or at this return's drawdown. */
  lemma StepKeepsDeepest(worst: Drawdown, peak: real, ret: real)
    requires StepDrawdown(worst, peak, ret).Finite?
    ensures worst.Finite?
    ensures worst.ratio <= StepDrawdown(worst, peak, ret).ratio
    ensures peak != 0.0 ==> (peak - ret) / peak <= StepDrawdown(worst, peak, ret).ratio
    ensures StepDrawdown(worst, peak, ret) == worst
            || (peak != 0.0 && StepDrawdown(worst, peak, ret).ratio == (peak - ret) / peak)
  {
  }

  /**
   * A finite drawdown is never negative, is at least the drawdown of every
   * return measured so far, and is one of them (or the starting 0).
   */
  lemma {:induction false} FiniteDrawdownIsDeepest(series: seq<real>, n: nat)
    requires n <= |series|
    requires RunningDrawdown(series, n).Finite?
    ensures RunningDrawdown(series, n).ratio >= 0.0
    ensures forall i :: 0 <= i < n && PeakAt(series, i) != 0.0 ==> DrawdownAt(series, i) <= RunningDrawdown(series, n).ratio
    ensures RunningDrawdown(series, n).ratio == 0.0
            || exists i :: 0 <= i < n && PeakAt(series, i) != 0.0 && DrawdownAt(series, i) == RunningDrawdown(series, n).ratio
    decreases n
  {
    if n > 0 {
      var prev := RunningDrawdown(series, n - 1);
      StepKeepsDeepest(prev, PeakAt(series, n - 1), series[n - 1]);
      FiniteDrawdownIsDeepest(series, n - 1);
      var m := RunningDrawdown(series, n).ratio;
      if m != 0.0 {
        if RunningDrawdown(series, n) == prev {
          var i :| 0 <= i < n - 1 && PeakAt(series, i) != 0.0 && DrawdownAt(series, i) == prev.ratio;
          assert DrawdownAt(series, i) == m;
        } else {
          assert DrawdownAt(series, n - 1) == m;
        }
      }
    }
  }

  /** Returns that start above zero never meet a zero peak, so their drawdown is finite. */
  lemma PositiveStartIsFinite(series: seq<real>)
    requires |series| > 0 && series[0] > 0.0
    ensures MaxDrawdown(series).Finite?
  {
    UnboundedIff(series, |series|);
    forall i | 0 <= i < |series| ensures PeakAt(series, i) > 0.0 {
      PeakIsLargest(series, i);
    }
  }

  /** With no returns, `calculateDrawdown` returns 0. */
  lemma NoReturnsNoDrawdown()
    ensures MaxDrawdown([]) == Finite(0.0)
  {
  }

  /** In a series that never falls, each return is its own running peak. */
  lemma NonDecreasingPeak(series: seq<real>, i: nat)
    requires i < |series|
    requires forall j, k :: 0 <= j < k < |series| ==> series[j] <= series[k]
    ensures PeakAt(series, i) == series[i]
  {
    PeakIsLargest(series, i);
    var j :| 0 <= j <= i && series[j] == PeakAt(series, i);
    if j < i {
      assert series[j] <= series[i];
    }
  }

  lemma {:induction false} NonDecreasingRunningDrawdown(series: seq<real>, n: nat)
    requires n <= |series|
    requires forall j, k :: 0 <= j < k < |series| ==> series[j] <= series[k]
    ensures RunningDrawdown(series, n) == Finite(0.0)
    decreases n
  {
    if n > 0 {
      NonDecreasingRunningDrawdown(series, n - 1);
      NonDecreasingPeak(series, n - 1);
      var peak := series[n - 1];
      if peak != 0.0 {
        assert (peak - series[n - 1]) / peak == 0.0;
      }
    }
  }

  /** A series that never falls has no drawdown, whatever its sign. */
  lemma NonDecreasingHasNoDrawdown(series: seq<real>)
    requires forall i, j :: 0 <= i < j < |series| ==> series[i] <= series[j]
    ensures MaxDrawdown(series) == Finite(0.0)
  {
    NonDecreasingRunningDrawdown(series, |series|);
  }

  // ----- calculateWeightedDuration -----

  /** The duration estimates, keyed by ticker, with the fallback under `default`. */
  const DurationTable: map<string, real> :=
    map["T-Bill" := 0.25, "Bond" := 2.5, "Government Bond" := 3.0, "Corporate Bond" := 2.5, "default" := 1.5]

  /** `durationMap[ticker] || durationMap['default']`: a missing (or zero) entry falls back to 1.5 years. */
  function DurationOf(ticker: string): (years: real)
    ensures 0.25 <= years <= 3.0
    ensures ticker !in DurationTable ==> years == 1.5
    ensures ticker in DurationTable ==> years == DurationTable[ticker]
  {
    if ticker in DurationTable && DurationTable[ticker] != 0.0 then DurationTable[ticker] else DurationTable["default"]
  }

  predicate IsFixedIncome(s: Security)
  {
    s.assetClass == "Fixed Income"
  }

  function FixedIncome(securities: seq<Security>): seq<Security>
  {
    Filter(securities, IsFixedIncome)
  }

  /** `currentWeight / 100`: a percentage as a fraction. */
  function Fraction(s: Security): real
  {
    s.currentWeight / 100.0
  }

  /** A holding's contribution to `totalWeightedDuration`. */
  function WeightedYears(s: Security): real
  {
    Fraction(s) * DurationOf(s.ticker)
  }

  /** `totalWeight`: the Fixed Income weight as a fraction. */
  function FixedIncomeWeight(securities: seq<Security>): real
  {
    SumOf(FixedIncome(securities), Fraction)
  }

  /** What `calculateWeightedDuration` returns. */
  function WeightedDuration(securities: seq<Security>): real
  {
    var total := FixedIncomeWeight(securities);
    if FixedIncome(securities) == [] then 0.0
    else if total > 0.0 then SumOf(FixedIncome(securities), WeightedYears) / total
    else 0.0
  }

  /** `calculateWeightedDuration`: one pass over the Fixed Income holdings accumulating both totals. */
  method CalculateWeightedDuration(securities: seq<Security>) returns (duration: real)
    ensures duration == WeightedDuration(securities)
  {
    var fixedIncome := Filter(securities, IsFixedIncome);
    if |fixedIncome| == 0 {
      return 0.0;
    }
    var totalWeightedDuration := 0.0;
    var totalWeight := 0.0;
    var i := 0;
    while i < |fixedIncome|
      invariant 0 <= i <= |fixedIncome|
      invariant totalWeightedDuration == SumOf(fixedIncome[..i], WeightedYears)
      invariant totalWeight == SumOf(fixedIncome[..i], Fraction)
    {
      var sec := fixedIncome[i];
      var years := DurationOf(sec.ticker);
      assert fixedIncome[..i + 1] == fixedIncome[..i] + [sec];
      SumOfSnoc(fixedIncome[..i], sec, WeightedYears);
      SumOfSnoc(fixedIncome[..i], sec, Fraction);
      totalWeightedDuration := totalWeightedDuration + (sec.currentWeight / 100.0) * years;
      totalWeight := totalWeight + sec.currentWeight / 100.0;
      i := i + 1;
    }
    assert fixedIncome[..i] == fixedIncome;
    duration := if totalWeight > 0.0 then totalWeightedDuration / totalWeight else 0.0;
  }

  /** Holdings outside Fixed Income play no part: the duration is that of the Fixed Income holdings alone. */
  lemma DurationIgnoresOtherHoldings(securities: seq<Security>)
    ensures WeightedDuration(securities) == WeightedDuration(FixedIncome(securities))
  {
    FilterIdempotent(securities, IsFixedIncome);
  }

  /** Inserting a holding outside Fixed Income anywhere in the list leaves the duration as it was. */
  lemma DurationIgnoresInsertion(before: seq<Security>, s: Security, after: seq<Security>)
    requires !IsFixedIncome(s)
    ensures WeightedDuration(before + [s] + after) == WeightedDuration(before + after)
  {
    FilterConcat(before + [s], after, IsFixedIncome);
    FilterConcat(before, [s], IsFixedIncome);
    FilterConcat(before, after, IsFixedIncome);
    assert Filter([s], IsFixedIncome) == [] by {
      assert [s][..0] == [];
    }
    assert Filter(before, IsFixedIncome) + [] == Filter(before, IsFixedIncome);
  }

  lemma ScaledBetween(w: real, years: real)
    requires w >= 0.0 && 0.25 <= years <= 3.0
    ensures 0.25 * w <= w * years <= 3.0 * w
  {
    var lo := years - 0.25;
    var hi := 3.0 - years;
    assert w * lo >= 0.0;
    assert w * hi >= 0.0;
    calc {
      w * years;
    ==
      w * lo + 0.25 * w;
    >=
      0.25 * w;
    }
    calc {
      w * years;
    ==
      3.0 * w - w * hi;
    <=
      3.0 * w;
    }
  }

  lemma QuotientBetween(a: real, b: real)
    requires b > 0.0 && 0.25 * b <= a <= 3.0 * b
    ensures 0.25 <= a / b <= 3.0
  {
    var q := a / b;
    assert q * b == a;
    if q < 0.25 {
      var gap := 0.25 - q;
      assert gap * b > 0.0;
      calc {
        a;
      ==
        q * b;
      ==
        0.25 * b - gap * b;
      <
        0.25 * b;
      }
    }
    if q > 3.0 {
      var gap := q - 3.0;
      assert gap * b > 0.0;
      calc {
        a;
      ==
        q * b;
      ==
        3.0 * b + gap * b;
      >
        3.0 * b;
      }
    }
  }

  /** With no negative weights, the weighted years lie between 0.25 and 3 times the weight. */
  lemma {:induction false} WeightedYearsBetween(holdings: seq<Security>)
    requires forall i :: 0 <= i < |holdings| ==> holdings[i].currentWeight >= 0.0
    ensures 0.25 * SumOf(holdings, Fraction) <= SumOf(holdings, WeightedYears) <= 3.0 * SumOf(holdings, Fraction)
    decreases |holdings|
  {
    if holdings != [] {
      var last := holdings[|holdings| - 1];
      WeightedYearsBetween(holdings[..|holdings| - 1]);
      ScaledBetween(Fraction(last), DurationOf(last.ticker));
    }
  }

  /**
   * The duration is 0 when there is no positive Fixed Income weight, and
   * with no negative weights it otherwise lies between the shortest (0.25)
   * and the longest (3.0) estimate.
   */
  lemma DurationBounds(securities: seq<Security>)
    requires forall i :: 0 <= i < |securities| ==> securities[i].currentWeight >= 0.0
    ensures FixedIncomeWeight(securities) <= 0.0 ==> WeightedDuration(securities) == 0.0
    ensures FixedIncomeWeight(securities) > 0.0 ==> 0.25 <= WeightedDuration(securities) <= 3.0
  {
    var holdings := FixedIncome(securities);
    forall i | 0 <= i < |holdings| ensures holdings[i].currentWeight >= 0.0 {
      assert holdings[i] in holdings;
    }
    if FixedIncomeWeight(securities) > 0.0 {
      WeightedYearsBetween(holdings);
      QuotientBetween(SumOf(holdings, WeightedYears), FixedIncomeWeight(securities));
    }
  }

  lemma SingleHoldingTotals(s: Security)
    requires IsFixedIncome(s)
    ensures FixedIncome([s]) == [s]
    ensures FixedIncomeWeight([s]) == Fraction(s)
    ensures SumOf([s], WeightedYears) == WeightedYears(s)
  {
    assert [s][..0] == [];
    SumOfSnoc([], s, WeightedYears);
    SumOfSnoc([], s, Fraction);
    assert [] + [s] == [s];
  }

  /** A single Fixed Income holding with a positive weight has exactly its ticker's duration. */
  lemma SingleHoldingDuration(s: Security)
    requires IsFixedIncome(s) && s.currentWeight > 0.0
    ensures WeightedDuration([s]) == DurationOf(s.ticker)
  {
    SingleHoldingTotals(s);
    calc {
      WeightedDuration([s]);
    ==
      WeightedYears(s) / Fraction(s);
    ==
      (Fraction(s) * DurationOf(s.ticker)) / Fraction(s);
    == { CancelFactor(Fraction(s), DurationOf(s.ticker)); }
      DurationOf(s.ticker);
    }
  }


  // ----- calculateConcentration -----

  datatype Concentration = Concentration(maxSingleSecurity: real, herfindahlIndex: real, topTenConcentration: real)

  /** `securities.map(s => s.currentWeight / 100)`. */
  function Fractions(securities: seq<Security>): (weights: seq<real>)
    ensures |weights| == |securities|
    ensures forall i :: 0 <= i < |securities| ==> weights[i] == securities[i].currentWeight / 100.0
  {
    seq(|securities|, i requires 0 <= i < |securities| => securities[i].currentWeight / 100.0)
  }

  /** `weights.reduce((sum, w) => sum + w², 0)`. */
  function SumOfSquares(xs: seq<real>): real
    decreases |xs|
  {
    if xs == [] then 0.0 else SumOfSquares(xs[..|xs| - 1]) + xs[|xs| - 1] * xs[|xs| - 1]
  }

  /** How many of the sorted weights `slice(0, 10)` keeps. */
  function TopCount(n: nat): (k: nat)
    ensures k <= n && k <= 10
    ensures k == n || k == 10
  {
    if n < 10 then n else 10
  }

  /** `calculateConcentration`. */
  function CalculateConcentration(securities: seq<Security>): (c: Concentration)
    ensures securities == [] ==> c == Concentration(0.0, 0.0, 0.0)
    ensures securities != [] ==>
              && (forall i :: 0 <= i < |securities| ==> securities[i].currentWeight <= c.maxSingleSecurity)
              && (exists i :: 0 <= i < |securities| && securities[i].currentWeight == c.maxSingleSecurity)
  {
    if securities == [] then Concentration(0.0, 0.0, 0.0)
    else
      var weights := Fractions(securities);
      var sorted := SortDescending(weights);
      Concentration(MaxOf(weights) * 100.0, SumOfSquares(weights) * 10000.0, Sum(sorted[..TopCount(|sorted|)]) * 100.0)
  }

  function SquaredWeight(s: Security): real
  {
    s.currentWeight * s.currentWeight
  }

  lemma ScaledSquare(w: real)
    ensures (w / 100.0) * (w / 100.0) * 10000.0 == w * w
  {
  }

  lemma {:induction false} SumOfSquaresOfFractions(securities: seq<Security>)
    ensures SumOfSquares(Fractions(securities)) * 10000.0 == SumOf(securities, SquaredWeight)
    decreases |securities|
  {
    if securities != [] {
      var prefix := securities[..|securities| - 1];
      var w := securities[|securities| - 1].currentWeight;
      assert Fractions(securities)[..|securities| - 1] == Fractions(prefix);
      SumOfSquaresOfFractions(prefix);
      calc {
        SumOfSquares(Fractions(securities)) * 10000.0;
      ==
        SumOfSquares(Fractions(prefix)) * 10000.0 + (w / 100.0) * (w / 100.0) * 10000.0;
      == { ScaledSquare(w); }
        SumOf(prefix, SquaredWeight) + w * w;
      ==
        SumOf(securities, SquaredWeight);
      }
    }
  }

  /** The Herfindahl index on the 0-10000 scale is the sum of the squared percentage weights. */
  lemma HerfindahlIsSumOfSquaredWeights(securities: seq<Security>)
    ensures CalculateConcentration(securities).herfindahlIndex == SumOf(securities, SquaredWeight)
  {
    SumOfSquaresOfFractions(securities);
  }

  /** A single holding of the whole portfolio is the most concentrated case: 10000. */
  lemma SoleHoldingHerfindahl(s: Security)
    requires s.currentWeight == 100.0
    ensures CalculateConcentration([s]).herfindahlIndex == 10000.0
  {
    HerfindahlIsSumOfSquaredWeights([s]);
    assert [s][..0] == [];
    assert SquaredWeight(s) == 10000.0;
  }

  lemma {:induction false} SumOfFractions(securities: seq<Security>)
    ensures Sum(Fractions(securities)) * 100.0 == SumOf(securities, CurrentWeight)
    decreases |securities|
  {
    if securities != [] {
      var prefix := securities[..|securities| - 1];
      var fs := Fractions(securities);
      assert fs[..|fs| - 1] == Fractions(prefix);
      SumOfFractions(prefix);
    }
  }

  /** Ten holdings or fewer: the top-ten share is the whole weight. */
  lemma TopTenOfFewHoldings(securities: seq<Security>)
    requires 0 < |securities| <= 10
    ensures CalculateConcentration(securities).topTenConcentration == SumOf(securities, CurrentWeight)
  {
    var sorted := SortDescending(Fractions(securities));
    assert sorted[..TopCount(|sorted|)] == sorted;
    SumOfFractions(securities);
  }

  /** The head of a descending rearrangement of `xs` is the largest element of `xs`. */
  lemma SortedHeadIsMax(xs: seq<real>, sorted: seq<real>)
    requires |xs| > 0
    requires Descending(sorted) && multiset(sorted) == multiset(xs)
    ensures |sorted| > 0 && sorted[0] == MaxOf(xs)
  {
    assert |sorted| == |multiset(xs)| == |xs|;
    var m := MaxOf(xs);
    assert m in multiset(sorted);
    assert sorted[0] in multiset(xs);
  }

  /** With no negative elements, a non-empty prefix of a descending list sums to at least its head and at most the whole. */
  lemma DescendingPrefixBounds(sorted: seq<real>, k: nat)
    requires 0 < k <= |sorted|
    requires forall i :: 0 <= i < |sorted| ==> sorted[i] >= 0.0
    ensures sorted[0] <= Sum(sorted[..k]) <= Sum(sorted)
  {
    forall i | 0 <= i < |sorted| ensures Id(sorted[i]) >= 0.0 {
    }
    SumOfPrefixBound(sorted, k, Id);
    var rest := sorted[1..k];
    assert sorted[..k] == [sorted[0]] + rest;
    SumOfCons(sorted[0], rest, Id);
    forall i | 0 <= i < |rest| ensures Id(rest[i]) >= 0.0 {
      assert rest[i] == sorted[i + 1];
    }
    SumOfPrefixBound(rest, 0, Id);
  }

  /**
   * With no negative weights the top-ten share lies between the largest
   * single weight and the total weight.
   */
  lemma TopTenBounds(securities: seq<Security>)
    requires |securities| > 0
    requires forall i :: 0 <= i < |securities| ==> securities[i].currentWeight >= 0.0
    ensures CalculateConcentration(securities).maxSingleSecurity <= CalculateConcentration(securities).topTenConcentration
    ensures CalculateConcentration(securities).topTenConcentration <= SumOf(securities, CurrentWeight)
  {
    var weights := Fractions(securities);
    var sorted := SortDescending(weights);
    forall i | 0 <= i < |sorted| ensures sorted[i] >= 0.0 {
      assert sorted[i] in multiset(weights);
    }
    SortedHeadIsMax(weights, sorted);
    DescendingPrefixBounds(sorted, TopCount(|sorted|));
    SumOfFractions(securities);
  }

  // ----- calculatePortfolioBeta -----

  /** `benchmarkBetas[ticker] || 1`: a missing (or zero) beta counts as 1. */
  function BetaOf(benchmarkBetas: map<string, real>, ticker: string): real
  {
    if ticker in benchmarkBetas && benchmarkBetas[ticker] != 0.0 then benchmarkBetas[ticker] else 1.0
  }

  /** `totalBeta`: Σ beta × weight / 100 over the first securities. */
  function BetaSum(securities: seq<Security>, benchmarkBetas: map<string, real>): real
    decreases |securities|
  {
    if securities == [] then 0.0
    else
      var s := securities[|securities| - 1];
      BetaSum(securities[..|securities| - 1], benchmarkBetas) + BetaOf(benchmarkBetas, s.ticker) * (s.currentWeight / 100.0)
  }

  /** What `calculatePortfolioBeta` returns: 1 for no securities, otherwise the (unnormalised) weighted sum. */
  function PortfolioBeta(securities: seq<Security>, benchmarkBetas: map<string, real>): real
  {
    if securities == [] then 1.0 else BetaSum(securities, benchmarkBetas)
  }

  /** `calculatePortfolioBeta`: accumulates `totalBeta` one security at a time. */
  method CalculatePortfolioBeta(securities: seq<Security>, benchmarkBetas: map<string, real>) returns (beta: real)
    ensures beta == PortfolioBeta(securities, benchmarkBetas)
  {
    if |securities| == 0 {
      return 1.0;
    }
    var totalBeta := 0.0;
    var i := 0;
    while i < |securities|
      invariant 0 <= i <= |securities|
      invariant totalBeta == BetaSum(securities[..i], benchmarkBetas)
    {
      var sec := securities[i];
      var secBeta := BetaOf(benchmarkBetas, sec.ticker);
      var weight := sec.currentWeight / 100.0;
      assert securities[..i + 1][..i] == securities[..i];
      totalBeta := totalBeta + secBeta * weight;
      i := i + 1;
    }
    assert securities[..i] == securities;
    beta := totalBeta;
  }

  /** `calculatePortfioBeta`, the misspelt wrapper the risk table calls. */
  method CalculatePortfioBeta(securities: seq<Security>, benchmarkBetas: map<string, real>) returns (beta: real)
    ensures beta == PortfolioBeta(securities, benchmarkBetas)
  {
    beta := CalculatePortfolioBeta(securities, benchmarkBetas);
  }

  lemma {:induction false} BetaSumWithoutBenchmarks(securities: seq<Security>)
    ensures BetaSum(securities, map[]) * 100.0 == SumOf(securities, CurrentWeight)
    decreases |securities|
  {
    if securities != [] {
      BetaSumWithoutBenchmarks(securities[..|securities| - 1]);
    }
  }

  /**
   * Without benchmark betas every security counts at beta 1, and since the
   * sum is not divided by the total weight the result is that weight over 100.
   */
  lemma BetaWithoutBenchmarks(securities: seq<Security>)
    ensures securities == [] ==> PortfolioBeta(securities, map[]) == 1.0
    ensures securities != [] ==> PortfolioBeta(securities, map[]) * 100.0 == SumOf(securities, CurrentWeight)
  {
    BetaSumWithoutBenchmarks(securities);
  }

  /** Beta is additive over a split of the holdings. */
  lemma {:induction false} BetaSumConcat(a: seq<Security>, b: seq<Security>, benchmarkBetas: map<string, real>)
    ensures BetaSum(a + b, benchmarkBetas) == BetaSum(a, benchmarkBetas) + BetaSum(b, benchmarkBetas)
    decreases |b|
  {
    if b == [] {
      assert a + b == a;
    } else {
      assert (a + b)[..|a + b| - 1] == a + b[..|b| - 1];
      BetaSumConcat(a, b[..|b| - 1], benchmarkBetas);
    }
  }

  // ----- generateRiskAssessment -----

  datatype RiskLevel = Low | Medium | High

  /** The rank of a level: Low < Medium < High. */
  function Severity(level: RiskLevel): nat
  {
    match level
    case Low => 0
    case Medium => 1
    case High => 2
  }

  /** `riskScore`: the weighted blend of the four metrics, beta measured from 1. */
  function RiskScore(volatility: real, drawdown: real, concentration: real, beta: real): real
  {
    (volatility * 0.4 + drawdown * 0.3 + concentration * 0.2 + (beta - 1.0) * 100.0 * 0.1) / 100.0
  }

  /** `generateRiskAssessment`: Low below 0.05, Medium below 0.08, High otherwise. */
  function GenerateRiskAssessment(volatility: real, drawdown: real, concentration: real, beta: real): (level: RiskLevel)
    ensures level == Low <==> RiskScore(volatility, drawdown, concentration, beta) < 0.05
    ensures level == Medium <==> 0.05 <= RiskScore(volatility, drawdown, concentration, beta) < 0.08
    ensures level == High <==> 0.08 <= RiskScore(volatility, drawdown, concentration, beta)
  {
    var riskScore := RiskScore(volatility, drawdown, concentration, beta);
    if riskScore < 0.05 then Low
    else if riskScore < 0.08 then Medium
    else High
  }

  /** Raising any of the four inputs never lowers the assessment. */
  lemma RiskAssessmentMonotone(v: real, d: real, c: real, b: real, v': real, d': real, c': real, b': real)
    requires v <= v' && d <= d' && c <= c' && b <= b'
    ensures Severity(GenerateRiskAssessment(v, d, c, b)) <= Severity(GenerateRiskAssessment(v', d', c', b'))
  {
    assert RiskScore(v, d, c, b) <= RiskScore(v', d', c', b');
  }

  // ----- calculateAssetClassExposures, calculateSectorExposures, calculateGeographicExposures -----

  /**
   * `exposures` is the dictionary of `securities` grouped by `d`: one entry
   * per label that occurs, holding the summed weight, the entries adding up
   * to the total weight; `keys` is its insertion order, the labels in the
   * order they first occur.
   */
  ghost predicate IsExposureTable(exposures: map<string, real>, keys: seq<string>, securities: seq<Security>, d: Dimension)
  {
    && exposures.Keys == Labels(securities, d)
    && (forall k :: k in exposures ==> exposures[k] == LabelWeight(securities, d, k))
    && Distinct(keys)
    && (forall k :: k in keys <==> k in exposures)
    && keys == LabelOrder(securities, d)
    && SumLabelWeights(keys, securities, d) == SumOf(securities, CurrentWeight)
  }

  method ExposuresBy(securities: seq<Security>, d: Dimension) returns (exposures: map<string, real>, keys: seq<string>)
    ensures IsExposureTable(exposures, keys, securities, d)
  {
    exposures, keys := Accumulate(securities, d);
    ExposuresMeaning(securities, d);
    LabelOrderMeaning(securities, d);
    ExposuresAddUp(securities, d);
  }

  /** `calculateAssetClassExposures`. */
  method CalculateAssetClassExposures(securities: seq<Security>) returns (exposures: map<string, real>, keys: seq<string>)
    ensures IsExposureTable(exposures, keys, securities, ByAssetClass)
  {
    exposures, keys := ExposuresBy(securities, ByAssetClass);
  }

  /** `calculateSectorExposures`. */
  method CalculateSectorExposures(securities: seq<Security>) returns (exposures: map<string, real>, keys: seq<string>)
    ensures IsExposureTable(exposures, keys, securities, BySector)
  {
    exposures, keys := ExposuresBy(securities, BySector);
  }

  /** `calculateGeographicExposures`. */
  method CalculateGeographicExposures(securities: seq<Security>) returns (exposures: map<string, real>, keys: seq<string>)
    ensures IsExposureTable(exposures, keys, securities, ByRegion)
  {
    exposures, keys := ExposuresBy(securities, ByRegion);
  }

  // ----- calculateAllRiskMetrics -----

  /** `status` is Breach (or Warning, for `soft` limits) exactly when `over`, Compliant otherwise. */
  function Classify(over: bool, soft: bool): (status: MetricStatus)
  {
    if !over then Compliant else if soft then Warning else Breach
  }

  /** The `currentValue` of the drawdown row. */
  function DrawdownReading(d: Drawdown): Reading
  {
    match d
    case Finite(m) => Percent(m)
    case Unbounded => InfinitePercent
  }

  /** `drawdown > 5`, where an infinite drawdown is over every limit. */
  predicate DrawdownOverLimit(d: Drawdown)
  {
    match d
    case Finite(m) => m > 5.0
    case Unbounded => true
  }

  /** The seven rows of the IPS table, in their fixed order. */
  const RiskMetricNames: seq<string> := [
    "Single Security Exposure", "Single Sector Exposure", "Regional Allocation",
    "Weighted Portfolio Duration", "Portfolio Volatility", "Drawdown Limit", "Credit Rating Compliance"]

  /** The IPS limit each row of the risk table quotes, in row order. */
  const RiskMetricLimits: seq<string> := ["≤10%", "≤25%", "≤10%", "≤2 yrs", "5-7% ann.", "≤5%", "≥Investment Grade"]

  /** Row 1: the largest single weight against the 10% limit. */
  function SingleSecurityRow(securities: seq<Security>): (row: RiskMetric)
    ensures row.metric == RiskMetricNames[0]
    ensures row.ipsLimit == RiskMetricLimits[0]
    ensures row.currentValue == Percent(CalculateConcentration(securities).maxSingleSecurity)
    ensures row.status == Breach <==> exists i :: 0 <= i < |securities| && securities[i].currentWeight > 10.0
    ensures row.status != Warning
    ensures row.actionRequired == "None" <==> row.status == Compliant
  {
    var maxSingle := CalculateConcentration(securities).maxSingleSecurity;
    RiskMetric(RiskMetricNames[0], RiskMetricLimits[0], Percent(maxSingle), Classify(maxSingle > 10.0, false),
      if maxSingle > 10.0 then "Reduce largest position to below 10%" else "None")
  }

  /** Row 2, as written: the largest SINGLE weight (not a sector total) against the 25% sector limit. */
  function SectorRowAsWritten(securities: seq<Security>): (row: RiskMetric)
    ensures row.metric == RiskMetricNames[1]
    ensures row.ipsLimit == RiskMetricLimits[1]
    ensures row.currentValue == Percent(CalculateConcentration(securities).maxSingleSecurity)
    ensures row.status == Breach <==> exists i :: 0 <= i < |securities| && securities[i].currentWeight > 25.0
    ensures row.status != Warning
    ensures row.actionRequired == "None" <==> row.status == Compliant
  {
    var maxSingle := CalculateConcentration(securities).maxSingleSecurity;
    RiskMetric(RiskMetricNames[1], RiskMetricLimits[1], Percent(maxSingle), Classify(maxSingle > 25.0, false),
      if maxSingle > 25.0 then "Review sector concentrations" else "None")
  }

  /** Row 4: the weighted duration against 2 years, a soft limit. */
  function DurationRow(securities: seq<Security>): (row: RiskMetric)
    ensures row.metric == RiskMetricNames[3]
    ensures row.ipsLimit == RiskMetricLimits[3]
    ensures row.currentValue == Years(WeightedDuration(securities))
    ensures row.status == Warning <==> WeightedDuration(securities) > 2.0
    ensures row.status != Breach
    ensures row.actionRequired == "None" <==> row.status == Compliant
  {
    var duration := WeightedDuration(securities);
    RiskMetric(RiskMetricNames[3], RiskMetricLimits[3], Years(duration), Classify(duration > 2.0, true),
      if duration > 2.0 then "Reduce fixed income duration" else "None")
  }

  /** Row 5: volatility against its 5-7% band; only a volatility above the band asks for action. */
  function VolatilityRow(volatility: real): (row: RiskMetric)
    ensures row.metric == RiskMetricNames[4]
    ensures row.ipsLimit == RiskMetricLimits[4]
    ensures row.currentValue == Percent(volatility * 100.0)
    ensures row.status == Compliant <==> 0.05 <= volatility <= 0.07
    ensures row.status != Breach
    ensures row.actionRequired != "None" <==> volatility > 0.07
  {
    RiskMetric(RiskMetricNames[4], RiskMetricLimits[4], Percent(volatility * 100.0),
      Classify(!(volatility >= 0.05 && volatility <= 0.07), true),
      if volatility > 0.07 then "Review portfolio risk allocation" else "None")
  }

  /** Row 6: the maximum drawdown against 5%. */
  function DrawdownRow(historicalReturns: seq<real>): (row: RiskMetric)
    ensures row.metric == RiskMetricNames[5]
    ensures row.ipsLimit == RiskMetricLimits[5]
    ensures row.currentValue == DrawdownReading(MaxDrawdown(historicalReturns))
    ensures row.status == Breach <==> DrawdownOverLimit(MaxDrawdown(historicalReturns))
    ensures row.status != Warning
    ensures row.actionRequired == "None" <==> row.status == Compliant
  {
    var drawdown := MaxDrawdown(historicalReturns);
    RiskMetric(RiskMetricNames[5], RiskMetricLimits[5], DrawdownReading(drawdown), Classify(DrawdownOverLimit(drawdown), false),
      if DrawdownOverLimit(drawdown) then "Rebalance to reduce downside risk" else "None")
  }

  /** A row the generator always reports Compliant, with a placeholder reading. */
  function FixedRow(i: nat, reading: string): (row: RiskMetric)
    requires i < 7
    ensures row.metric == RiskMetricNames[i] && row.ipsLimit == RiskMetricLimits[i]
    ensures row.currentValue == Text(reading)
    ensures row.status == Compliant && row.actionRequired == "None"
  {
    RiskMetric(RiskMetricNames[i], RiskMetricLimits[i], Text(reading), Compliant, "None")
  }

  /**
   * `calculateAllRiskMetrics(securities, historicalReturns)`, with
   * `volatility` the value `calculatePortfolioVolatility(historicalReturns)`
   * returns: the seven rows in their fixed order. The sector row is built as
   * `calculateAllRiskMetrics` builds it, from the largest single holding
   * (`SectorRowAsWritten`); `AllRiskMetricsCorrected` measures sector totals
   * instead. The beta `calculateAllRiskMetrics` computes is not used by any
   * row and is not computed here.
   */
  function AllRiskMetrics(securities: seq<Security>, historicalReturns: seq<real>, volatility: real): (rows: seq<RiskMetric>)
    requires IsVolatilityOf(volatility, historicalReturns)
    ensures |rows| == 7
    ensures rows[0].metric == RiskMetricNames[0] && rows[1].metric == RiskMetricNames[1]
    ensures rows[2].metric == RiskMetricNames[2] && rows[3].metric == RiskMetricNames[3]
    ensures rows[4].metric == RiskMetricNames[4] && rows[5].metric == RiskMetricNames[5]
    ensures rows[6].metric == RiskMetricNames[6]
    ensures rows[0].ipsLimit == RiskMetricLimits[0] && rows[1].ipsLimit == RiskMetricLimits[1]
    ensures rows[2].ipsLimit == RiskMetricLimits[2] && rows[3].ipsLimit == RiskMetricLimits[3]
    ensures rows[4].ipsLimit == RiskMetricLimits[4] && rows[5].ipsLimit == RiskMetricLimits[5]
    ensures rows[6].ipsLimit == RiskMetricLimits[6]
    ensures rows[2].currentValue == Text("Check regional exposures")
    ensures rows[6].currentValue == Text("Check credit ratings")
    ensures rows[0].currentValue == Percent(CalculateConcentration(securities).maxSingleSecurity)
    ensures rows[1].currentValue == Percent(CalculateConcentration(securities).maxSingleSecurity)
    ensures rows[3].currentValue == Years(WeightedDuration(securities))
    ensures rows[4].currentValue == Percent(volatility * 100.0)
    ensures rows[5].currentValue == DrawdownReading(MaxDrawdown(historicalReturns))
    ensures rows[0].status == Breach <==> exists i :: 0 <= i < |securities| && securities[i].currentWeight > 10.0
    ensures rows[1].status == Breach <==> exists i :: 0 <= i < |securities| && securities[i].currentWeight > 25.0
    ensures rows[2].status == Compliant && rows[6].status == Compliant
    ensures rows[3].status == Warning <==> WeightedDuration(securities) > 2.0
    ensures rows[4].status == Compliant <==> 0.05 <= volatility <= 0.07
    ensures rows[5].status == Breach <==> DrawdownOverLimit(MaxDrawdown(historicalReturns))
    ensures rows[0].status != Warning && rows[1].status != Warning && rows[5].status != Warning
    ensures rows[3].status != Breach && rows[4].status != Breach
  {
    [
      SingleSecurityRow(securities),
      SectorRowAsWritten(securities),
      FixedRow(2, "Check regional exposures"),
      DurationRow(securities),
      VolatilityRow(volatility),
      DrawdownRow(historicalReturns),
      FixedRow(6, "Check credit ratings")
    ]
  }

  /** The risk table with the sector row measuring sector totals; every other row is as `AllRiskMetrics` builds it. */
  function AllRiskMetricsCorrected(securities: seq<Security>, historicalReturns: seq<real>, volatility: real): (rows: seq<RiskMetric>)
    requires IsVolatilityOf(volatility, historicalReturns)
    ensures |rows| == 7
    ensures rows[1].status == Breach <==>
              exists k :: k in Labels(securities, BySector) && LabelWeight(securities, BySector, k) > 25.0
    ensures rows[1].status != Warning
    ensures forall i :: 0 <= i < 7 && i != 1 ==> rows[i] == AllRiskMetrics(securities, historicalReturns, volatility)[i]
  {
    AllRiskMetrics(securities, historicalReturns, volatility)[1 := SectorExposureRow(securities)]
  }

  // ----- the sector row, as evidently intended -----

  /** The sector totals, in the order the sectors first occur. */
  function SectorTotals(securities: seq<Security>): (totals: seq<real>)
    ensures |totals| == |LabelOrder(securities, BySector)|
    ensures forall j :: 0 <= j < |totals| ==> totals[j] == LabelWeight(securities, BySector, LabelOrder(securities, BySector)[j])
  {
    var keys := LabelOrder(securities, BySector);
    seq(|keys|, j requires 0 <= j < |keys| => LabelWeight(securities, BySector, keys[j]))
  }

  /** The largest sector total (0 for no holdings). */
  function LargestSectorExposure(securities: seq<Security>): (m: real)
    ensures securities == [] ==> m == 0.0
  {
    if securities == [] then 0.0
    else
      LabelOrderMeaning(securities, BySector);
      assert Label(securities[0], BySector) in Labels(securities, BySector);
      MaxOf(SectorTotals(securities))
  }

  /** The largest sector total is the total of some sector, and no sector's total is larger. */
  lemma LargestSectorExposureMeaning(securities: seq<Security>)
    ensures forall k :: k in Labels(securities, BySector) ==> LabelWeight(securities, BySector, k) <= LargestSectorExposure(securities)
    ensures securities != [] ==>
              exists k :: k in Labels(securities, BySector) && LabelWeight(securities, BySector, k) == LargestSectorExposure(securities)
  {
    if securities != [] {
      var keys := LabelOrder(securities, BySector);
      LabelOrderMeaning(securities, BySector);
      assert Label(securities[0], BySector) in Labels(securities, BySector);
      var totals := SectorTotals(securities);
      var m := MaxOf(totals);
      forall k | k in Labels(securities, BySector) ensures LabelWeight(securities, BySector, k) <= m {
        var j :| 0 <= j < |keys| && keys[j] == k;
        assert totals[j] == LabelWeight(securities, BySector, k);
      }
      var j :| 0 <= j < |totals| && totals[j] == m;
      assert keys[j] in Labels(securities, BySector);
    }
  }

  /** Row 2 measuring what its name and limit say: the largest sector total against 25%. */
  function SectorExposureRow(securities: seq<Security>): (row: RiskMetric)
    ensures row.metric == RiskMetricNames[1]
    ensures row.status == Breach <==>
              exists k :: k in Labels(securities, BySector) && LabelWeight(securities, BySector, k) > 25.0
    ensures row.status != Warning
    ensures row.actionRequired == "None" <==> row.status == Compliant
  {
    var largest := LargestSectorExposure(securities);
    LargestSectorExposureMeaning(securities);
    RiskMetric(RiskMetricNames[1], "≤25%", Percent(largest), Classify(largest > 25.0, false),
      if largest > 25.0 then "Review sector concentrations" else "None")
  }

  /** The corrected row breaches exactly when the compliance check reports a sector breach. */
  lemma SectorExposureRowMatchesCompliance(securities: seq<Security>)
    ensures SectorExposureRow(securities).status == Breach <==>
              LoadPortfolio.Fires(LoadPortfolio.SecurityCompliance(securities).breaches, LoadPortfolio.SectorRule)
  {
    LoadPortfolio.GroupRuleFires(securities, LoadPortfolio.SectorRule, BySector, LoadPortfolio.SectorLimit);
    ExposuresMeaning(securities, BySector);
  }

  function Holding(id: nat, ticker: string, sector: string, weight: real): Security
  {
    Security(id, ticker, ticker, "Equity", weight, weight, 0.0, sector, "Tanzania", 0.0, 0.0, 0.0, 0.0, "", true)
  }

  /**
   * As written, the sector row never sees sectors: two 15% banking holdings
   * make a 30% sector, which the compliance check reports, but no single
   * weight exceeds 25% and the row reads Compliant.
   */
  lemma SectorRowMissesSectorBreach()
    ensures var securities := [Holding(1, "CRDB", "Banking", 15.0), Holding(2, "NMB", "Banking", 15.0)];
            && SectorRowAsWritten(securities).status == Compliant
            && LoadPortfolio.Fires(LoadPortfolio.SecurityCompliance(securities).breaches, LoadPortfolio.SectorRule)
  {
    var securities := [Holding(1, "CRDB", "Banking", 15.0), Holding(2, "NMB", "Banking", 15.0)];
    assert securities[..1] == [securities[0]] && [securities[0]][..0] == [];
    assert LabelWeight(securities, BySector, "Banking") == 30.0;
    assert "Banking" in Labels(securities, BySector) by {
      assert Label(securities[0], BySector) == "Banking";
    }
    SectorExposureRowMatchesCompliance(securities);
  }
}
