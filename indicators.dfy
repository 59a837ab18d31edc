/** The indicator engine of the moving-average / RSI bot: the rolling simple
    moving average and Wilder-style relative strength index over a series of
    closing prices, stated over exact reals. An undefined (NaN) entry of an
    indicator series is `None`. */
module Indicators {
  import opened Wrappers
  import opened RealFacts

  // ---------------------------------------------------------------------
  // Sums and the rolling mean
  // ---------------------------------------------------------------------

  /** Sum of a sequence of reals, taken from the front. */
  function Sum(s: seq<real>): (r: real)
  {
    if |s| == 0 then 0.0 else s[0] + Sum(s[1..])
  }

  lemma {:induction false} SumAppend(s: seq<real>, x: real)
    ensures Sum(s + [x]) == Sum(s) + x
  {
    if |s| == 0 {
      assert s + [x] == [x];
      assert [x][1..] == [];
    } else {
      assert (s + [x])[1..] == s[1..] + [x];
      SumAppend(s[1..], x);
    }
  }

  lemma {:induction false} SumConstant(s: seq<real>, c: real)
    requires forall j :: 0 <= j < |s| ==> s[j] == c
    ensures Sum(s) == |s| as real * c
  {
    if |s| > 0 {
      SumConstant(s[1..], c);
    }
  }

  lemma {:induction false} SumBounds(s: seq<real>, lo: real, hi: real)
    requires forall j :: 0 <= j < |s| ==> lo <= s[j] <= hi
    ensures |s| as real * lo <= Sum(s) <= |s| as real * hi
  {
    if |s| > 0 {
      SumBounds(s[1..], lo, hi);
    }
  }

  lemma QuotientBounds(s: real, p: real, lo: real, hi: real)
    requires p > 0.0 && p * lo <= s <= p * hi
    ensures lo <= s / p <= hi
  {
    DivMul(s, p);
    MulCancelLe(p, lo, s / p);
    MulCancelLe(p, s / p, hi);
  }

  /** The trailing window of `period` closes that ends at index i. */
  function Window(close: seq<real>, period: nat, i: nat): (w: seq<real>)
    requires 1 <= period <= i + 1 && i < |close|
    ensures |w| == period
    ensures forall j :: 0 <= j < period ==> w[j] == close[i + 1 - period + j]
  {
    close[i + 1 - period .. i + 1]
  }

  /** `series.rolling(period).mean()` at index i: undefined until the window
      holds `period` samples (pandas' default `min_periods` is the window). */
  function SmaAt(close: seq<real>, period: nat, i: nat): (r: Option<real>)
    requires 1 <= period && i < |close|
  {
    if i + 1 < period then None
    else Some(Sum(Window(close, period, i)) / period as real)
  }

  /** The rolling mean series, aligned with `close`. */
  function Sma(close: seq<real>, period: nat): (r: seq<Option<real>>)
    requires 1 <= period
    ensures |r| == |close|
    ensures forall i :: 0 <= i < |r| ==> (r[i].Some? <==> i + 1 >= period)
  {
    seq(|close|, i requires 0 <= i < |close| => SmaAt(close, period, i))
  }

  /** Where the mean is defined it is the mean of the trailing window: its
      value times `period` is the window's sum. */
  lemma SmaIsWindowMean(close: seq<real>, period: nat, i: nat)
    requires 1 <= period <= i + 1 && i < |close|
    ensures Sma(close, period)[i].Some?
    ensures Sma(close, period)[i].value * period as real == Sum(close[i + 1 - period .. i + 1])
  {
  }

  /** A constant series has that constant as its mean wherever it is defined. */
  lemma SmaConstant(close: seq<real>, period: nat, c: real, i: nat)
    requires 1 <= period && i < |close|
    requires forall j :: 0 <= j < |close| ==> close[j] == c
    ensures Sma(close, period)[i] == if i + 1 < period then None else Some(c)
  {
    if i + 1 >= period {
      var w := Window(close, period, i);
      SumConstant(w, c);
      assert Sum(w) == period as real * c;
      MulDiv(period as real, c);
      assert Sum(w) / period as real == c;
      assert SmaAt(close, period, i) == Some(c);
    }
  }

  /** The mean lies between the smallest and the largest close of its window. */
  lemma SmaWithinWindow(close: seq<real>, period: nat, i: nat, lo: real, hi: real)
    requires 1 <= period <= i + 1 && i < |close|
    requires forall j :: i + 1 - period <= j <= i ==> lo <= close[j] <= hi
    ensures Sma(close, period)[i].Some?
    ensures lo <= Sma(close, period)[i].value <= hi
  {
    var w := Window(close, period, i);
    SumBounds(w, lo, hi);
    QuotientBounds(Sum(w), period as real, lo, hi);
  }

  /** Sliding the window one step adds the new close and drops the oldest. */
  lemma SmaSlide(close: seq<real>, period: nat, i: nat)
    requires 1 <= period <= i && i < |close|
    ensures Sma(close, period)[i].Some? && Sma(close, period)[i - 1].Some?
    ensures Sma(close, period)[i].value
         == Sma(close, period)[i - 1].value + (close[i] - close[i - period]) / period as real
  {
    var both := close[i - period .. i + 1];
    assert both[0] == close[i - period];
    assert both[1..] == Window(close, period, i);
    assert both == Window(close, period, i - 1) + [close[i]];
    var older, newer := Window(close, period, i - 1), Window(close, period, i);
    SumAppend(older, close[i]);
    assert Sum(newer) == Sum(older) + (close[i] - close[i - period]);
    var step := close[i] - close[i - period];
    DivAdd(Sum(older), step, period as real);
  }

  /** Prepending older history does not change a defined mean: it sees only its window. */
  lemma SmaIgnoresOlderHistory(older: seq<real>, close: seq<real>, period: nat, i: nat)
    requires 1 <= period <= i + 1 && i < |close|
    ensures Sma(older + close, period)[|older| + i] == Sma(close, period)[i]
  {
    assert Window(older + close, period, |older| + i) == Window(close, period, i);
  }

  // ---------------------------------------------------------------------
  // First differences, gains and losses
  // ---------------------------------------------------------------------

  /** `series.diff()` without its undefined first entry: entry k is the
      change from close k to close k + 1. */
  function Diff(close: seq<real>): (d: seq<real>)
    ensures |d| == if |close| == 0 then 0 else |close| - 1
  {
    if |close| == 0 then []
    else seq(|close| - 1, k requires 0 <= k < |close| - 1 => close[k + 1] - close[k])
  }

  /** Summing the differences recovers the closes: diff is undone by a cumulative sum. */
  lemma {:induction false} DiffTelescopes(close: seq<real>, i: nat)
    requires i < |close|
    ensures close[i] == close[0] + Sum(Diff(close)[..i])
  {
    var d := Diff(close);
    if i == 0 {
      assert d[..0] == [];
    } else {
      DiffTelescopes(close, i - 1);
      assert d[..i] == d[..i - 1] + [d[i - 1]];
      SumAppend(d[..i - 1], d[i - 1]);
    }
  }

  /** Element-wise negation. */
  function Negate(v: seq<real>): (r: seq<real>)
    ensures |r| == |v|
    ensures forall k :: 0 <= k < |v| ==> r[k] + v[k] == 0.0
  {
    seq(|v|, k requires 0 <= k < |v| => -v[k])
  }

  /** `clip(lower=0)`: every entry replaced by the larger of itself and zero. */
  function ClipLow(v: seq<real>): (r: seq<real>)
    ensures |r| == |v|
    ensures forall k :: 0 <= k < |v| ==> r[k] >= 0.0 && r[k] >= v[k] && (r[k] == v[k] || r[k] == 0.0)
  {
    seq(|v|, k requires 0 <= k < |v| => if v[k] > 0.0 then v[k] else 0.0)
  }

  /** Upward moves: `delta.clip(lower=0)`. */
  function Gains(close: seq<real>): (g: seq<real>)
    ensures |g| == |Diff(close)|
    ensures forall k :: 0 <= k < |g| ==> g[k] >= 0.0
  {
    ClipLow(Diff(close))
  }

  /** Downward moves: `(-delta).clip(lower=0)`. */
  function Losses(close: seq<real>): (l: seq<real>)
    ensures |l| == |Diff(close)|
    ensures forall k :: 0 <= k < |l| ==> l[k] >= 0.0
  {
    ClipLow(Negate(Diff(close)))
  }

  /** Each step splits into a non-negative gain and a non-negative loss,
      at most one of them non-zero, whose difference is the step. */
  lemma GainLossSplit(close: seq<real>, k: nat)
    requires k + 1 < |close|
    ensures |Gains(close)| == |Losses(close)| == |close| - 1
    ensures Gains(close)[k] >= 0.0 && Losses(close)[k] >= 0.0
    ensures Gains(close)[k] - Losses(close)[k] == close[k + 1] - close[k]
    ensures Gains(close)[k] == 0.0 || Losses(close)[k] == 0.0
    ensures Losses(close)[k] == 0.0 <==> close[k] <= close[k + 1]
    ensures Gains(close)[k] == 0.0 <==> close[k] >= close[k + 1]
  {
  }

  /** The losses of a series are the gains of its mirror image. */
  lemma LossesAreMirroredGains(close: seq<real>)
    ensures Losses(close) == Gains(Negate(close))
  {
    var d, dn := Diff(close), Diff(Negate(close));
    assert |Negate(d)| == |dn|;
    forall k | 0 <= k < |dn| ensures Negate(d)[k] == dn[k] {
    }
    assert Negate(d) == dn;
  }

  // ---------------------------------------------------------------------
  // Exponential smoothing
  // ---------------------------------------------------------------------

  /** `ewm(alpha=alpha, adjust=False).mean()` at index k: seeded with the
      first sample, then avg[k] = alpha * x[k] + (1 - alpha) * avg[k - 1].
      pandas refuses an alpha outside (0, 1]. */
  function EwmAt(x: seq<real>, alpha: real, k: nat): (r: real)
    requires 0.0 < alpha <= 1.0 && k < |x|
    decreases k
  {
    if k == 0 then x[0]
    else
      var prev := EwmAt(x, alpha, k - 1);
      alpha * x[k] + (1.0 - alpha) * prev
  }

  /** The smoothed value of non-negative samples is non-negative. */
  lemma {:induction false} EwmNonNeg(x: seq<real>, alpha: real, k: nat)
    requires 0.0 < alpha <= 1.0 && k < |x|
    requires forall j :: 0 <= j <= k ==> x[j] >= 0.0
    ensures EwmAt(x, alpha, k) >= 0.0
  {
    if k > 0 {
      EwmNonNeg(x, alpha, k - 1);
      StepNonNeg(alpha, x[k], EwmAt(x, alpha, k - 1));
    }
  }

  lemma EwmNonNegAll(x: seq<real>, alpha: real)
    requires 0.0 < alpha <= 1.0
    ensures (forall j :: 0 <= j < |x| ==> x[j] >= 0.0) ==> forall k :: 0 <= k < |x| ==> EwmAt(x, alpha, k) >= 0.0
  {
    if forall j :: 0 <= j < |x| ==> x[j] >= 0.0 {
      forall k | 0 <= k < |x| ensures EwmAt(x, alpha, k) >= 0.0 {
        EwmNonNeg(x, alpha, k);
      }
    }
  }

  lemma StepNonNeg(alpha: real, x: real, prev: real)
    requires 0.0 < alpha <= 1.0
    ensures x >= 0.0 && prev >= 0.0 ==> alpha * x + (1.0 - alpha) * prev >= 0.0
  {
    if x >= 0.0 && prev >= 0.0 {
      MulNonNeg(alpha, x);
      MulNonNeg(1.0 - alpha, prev);
    }
  }

  /** The smoothed series, aligned with its input. */
  function Ewm(x: seq<real>, alpha: real): (r: seq<real>)
    requires 0.0 < alpha <= 1.0
    ensures |r| == |x|
    ensures (forall j :: 0 <= j < |x| ==> x[j] >= 0.0) ==> forall k :: 0 <= k < |r| ==> r[k] >= 0.0
  {
    EwmNonNegAll(x, alpha);
    seq(|x|, k requires 0 <= k < |x| => EwmAt(x, alpha, k))
  }

  lemma ZeroStep(alpha: real, x: real, prev: real)
    requires 0.0 < alpha < 1.0 && x >= 0.0 && prev >= 0.0
    ensures alpha * x + (1.0 - alpha) * prev == 0.0 <==> x == 0.0 && prev == 0.0
  {
    MulNonNeg(alpha, x);
    MulNonNeg(1.0 - alpha, prev);
    if x > 0.0 {
      MulPos(alpha, x);
    }
    if prev > 0.0 {
      MulPos(1.0 - alpha, prev);
    }
  }

  /** A convex average: the smoothed value stays within the range of the samples seen so far. */
  lemma {:induction false} EwmWithin(x: seq<real>, alpha: real, k: nat, lo: real, hi: real)
    requires 0.0 < alpha <= 1.0 && k < |x|
    requires forall j :: 0 <= j <= k ==> lo <= x[j] <= hi
    ensures lo <= EwmAt(x, alpha, k) <= hi
  {
    if k > 0 {
      EwmWithin(x, alpha, k - 1, lo, hi);
      WithinStep(alpha, x[k], EwmAt(x, alpha, k - 1), lo, hi);
    }
  }

  /** One smoothing step between two values in [lo, hi] stays in [lo, hi]. */
  lemma WithinStep(alpha: real, v: real, prev: real, lo: real, hi: real)
    requires 0.0 < alpha <= 1.0 && lo <= v <= hi && lo <= prev <= hi
    ensures lo <= alpha * v + (1.0 - alpha) * prev <= hi
  {
    var m := WeightedStep(alpha, v, prev);
  }

  /** For alpha below 1, a smoothed average of non-negative samples is zero
      exactly when every sample so far is zero. */
  lemma {:induction false} EwmZeroIff(x: seq<real>, alpha: real, k: nat)
    requires 0.0 < alpha < 1.0 && k < |x|
    requires forall j :: 0 <= j < |x| ==> x[j] >= 0.0
    ensures EwmAt(x, alpha, k) == 0.0 <==> forall j :: 0 <= j <= k ==> x[j] == 0.0
  {
    if k > 0 {
      EwmZeroIff(x, alpha, k - 1);
      EwmNonNeg(x, alpha, k - 1);
      ZeroStep(alpha, x[k], EwmAt(x, alpha, k - 1));
    }
  }

  /** A positive newest sample makes a smoothed average of non-negative samples positive. */
  lemma EwmPositive(x: seq<real>, alpha: real, k: nat)
    requires 0.0 < alpha <= 1.0 && k < |x|
    requires forall j :: 0 <= j <= k ==> x[j] >= 0.0
    requires x[k] > 0.0
    ensures EwmAt(x, alpha, k) > 0.0
  {
    if k > 0 {
      var prev := EwmAt(x, alpha, k - 1);
      EwmNonNeg(x, alpha, k - 1);
      MulPos(alpha, x[k]);
      MulNonNeg(1.0 - alpha, prev);
    }
  }

  // ---------------------------------------------------------------------
  // Relative strength index
  // ---------------------------------------------------------------------

  /** The smoothing factor 1 / period. */
  function Alpha(period: nat): (a: real)
    requires period >= 1
    ensures 0.0 < a <= 1.0
    ensures period >= 2 ==> a < 1.0
  {
    1.0 / period as real
  }

  /** With a positive loss, 100 - 100 / (1 + g / l) is the gain's share of g + l,
      scaled to 100; it is below 100 and is 0 only for a zero gain. */
  lemma RatioForm(g: real, l: real)
    requires g >= 0.0 && l > 0.0
    ensures 100.0 - 100.0 / (1.0 + g / l) == 100.0 * g / (g + l)
    ensures 0.0 <= 100.0 * g / (g + l) < 100.0
    ensures 100.0 * g / (g + l) == 0.0 <==> g == 0.0
  {
    var q := g / l;
    DivMul(g, l);
    MulCancelLe(l, 0.0, q);
    var d := 1.0 + q;
    assert d * l == g + l;
    var t := 100.0 / d;
    DivMul(100.0, d);
    var u := 100.0 * l / (g + l);
    DivMul(100.0 * l, g + l);
    assert t * (g + l) == 100.0 * l by {
      assert t * (g + l) == (t * d) * l;
    }
    MulCancelLe(g + l, t, u);
    MulCancelLe(g + l, u, t);
    var v := 100.0 * g / (g + l);
    DivMul(100.0 * g, g + l);
    assert (100.0 - t) * (g + l) == v * (g + l);
    MulCancelLe(g + l, 100.0 - t, v);
    MulCancelLe(g + l, v, 100.0 - t);
    MulCancelLe(g + l, 0.0, v);
    if t <= 0.0 {
      MulMono(d, t, 0.0);
    }
    if v == 0.0 {
      assert 100.0 * g == 0.0;
    }
  }

  /** `100 - 100 / (1 + avgGain / avgLoss)` under IEEE division: a zero loss
      with a positive gain gives an infinite ratio and so 100, and zero over
      zero gives NaN. */
  function RsiValue(avgGain: real, avgLoss: real): (r: Option<real>)
    requires avgGain >= 0.0 && avgLoss >= 0.0
    ensures r.None? <==> avgGain == 0.0 && avgLoss == 0.0
    ensures r.Some? ==> 0.0 <= r.value <= 100.0
    ensures avgLoss > 0.0 ==> r == Some(100.0 * avgGain / (avgGain + avgLoss))
    ensures r == Some(100.0) <==> avgLoss == 0.0 && avgGain > 0.0
    ensures r == Some(0.0) <==> avgGain == 0.0 && avgLoss > 0.0
  {
    if avgLoss > 0.0 then
      RatioForm(avgGain, avgLoss);
      Some(100.0 - 100.0 / (1.0 + avgGain / avgLoss))
    else if avgGain > 0.0 then Some(100.0)
    else None
  }

  /** Smoothed gains: entry k belongs to close index k + 1. */
  function AvgGain(close: seq<real>, period: nat): (r: seq<real>)
    requires period >= 1
    ensures |r| == |Diff(close)|
    ensures forall k :: 0 <= k < |r| ==> r[k] >= 0.0
  {
    Ewm(Gains(close), Alpha(period))
  }

  /** Smoothed losses: entry k belongs to close index k + 1. */
  function AvgLoss(close: seq<real>, period: nat): (r: seq<real>)
    requires period >= 1
    ensures |r| == |Diff(close)|
    ensures forall k :: 0 <= k < |r| ==> r[k] >= 0.0
  {
    Ewm(Losses(close), Alpha(period))
  }

  /** `rsi(series, period)`, aligned with `close`: index 0 is undefined
      (no difference yet), and every defined value lies in [0, 100]. */
  function Rsi(close: seq<real>, period: nat): (r: seq<Option<real>>)
    requires period >= 1
    ensures |r| == |close|
    ensures |close| > 0 ==> r[0].None?
    ensures forall i :: 0 <= i < |r| && r[i].Some? ==> 0.0 <= r[i].value <= 100.0
  {
    if |close| == 0 then []
    else
      var g, l := AvgGain(close, period), AvgLoss(close, period);
      [None] + seq(|close| - 1, k requires 0 <= k < |close| - 1 => RsiValue(g[k], l[k]))
  }

  /** The smoothed gain and loss at close index 1 are the first gain and
      loss; from index 2 on each is alpha times the new value plus 1 - alpha
      times the previous average. */
  lemma SmoothingRecurrence(close: seq<real>, period: nat, i: nat)
    requires period >= 1 && 1 <= i < |close|
    ensures i == 1 ==> AvgGain(close, period)[0] == Gains(close)[0] && AvgLoss(close, period)[0] == Losses(close)[0]
    ensures i >= 2 ==> AvgGain(close, period)[i - 1]
                       == Alpha(period) * Gains(close)[i - 1] + (1.0 - Alpha(period)) * AvgGain(close, period)[i - 2]
    ensures i >= 2 ==> AvgLoss(close, period)[i - 1]
                       == Alpha(period) * Losses(close)[i - 1] + (1.0 - Alpha(period)) * AvgLoss(close, period)[i - 2]
  {
    var a, g, l := Alpha(period), Gains(close), Losses(close);
    assert AvgGain(close, period) == Ewm(g, a);
    assert AvgLoss(close, period) == Ewm(l, a);
    EwmRecurrence(g, a, i - 1);
    EwmRecurrence(l, a, i - 1);
  }

  /** Entry 0 of the smoothed series is the first value; entry k >= 1
      blends the new value with the previous smoothed entry. */
  lemma EwmRecurrence(x: seq<real>, alpha: real, k: nat)
    requires 0.0 < alpha <= 1.0 && k < |x|
    ensures k == 0 ==> Ewm(x, alpha)[0] == x[0]
    ensures k >= 1 ==> Ewm(x, alpha)[k] == alpha * x[k] + (1.0 - alpha) * Ewm(x, alpha)[k - 1]
  {
    var e := Ewm(x, alpha);
    assert e[k] == EwmAt(x, alpha, k);
    if k >= 1 {
      assert e[k - 1] == EwmAt(x, alpha, k - 1);
    }
  }

  /** The RSI at index i is the ratio formed from the smoothed averages at i. */
  lemma RsiAt(close: seq<real>, period: nat, i: nat)
    requires period >= 1 && 1 <= i < |close|
    ensures Rsi(close, period)[i] == RsiValue(AvgGain(close, period)[i - 1], AvgLoss(close, period)[i - 1])
  {
  }

  ghost predicate ConstantUpTo(close: seq<real>, i: nat)
    requires i < |close|
  {
    forall j :: 0 <= j <= i ==> close[j] == close[0]
  }

  ghost predicate NonDecreasingUpTo(close: seq<real>, i: nat)
    requires i < |close|
  {
    forall j :: 0 <= j < i ==> close[j] <= close[j + 1]
  }

  ghost predicate NonIncreasingUpTo(close: seq<real>, i: nat)
    requires i < |close|
  {
    forall j :: 0 <= j < i ==> close[j] >= close[j + 1]
  }

  /** Every step up to i is flat exactly when the prefix is constant. */
  lemma {:induction false} FlatStepsIffConstant(close: seq<real>, i: nat)
    requires i < |close|
    ensures (forall j :: 0 <= j < i ==> close[j] == close[j + 1]) <==> ConstantUpTo(close, i)
  {
    if i > 0 {
      FlatStepsIffConstant(close, i - 1);
      if forall j :: 0 <= j < i ==> close[j] == close[j + 1] {
        assert ConstantUpTo(close, i - 1);
        assert close[i] == close[i - 1];
      }
      if ConstantUpTo(close, i) {
        forall j | 0 <= j < i ensures close[j] == close[j + 1] {
          assert close[j] == close[0] && close[j + 1] == close[0];
        }
      }
    }
  }

  /** A non-decreasing prefix rises from its first close to its last, and is
      constant when the two are equal. */
  lemma {:induction false} NonDecreasingEnds(close: seq<real>, i: nat)
    requires i < |close| && NonDecreasingUpTo(close, i)
    ensures close[0] <= close[i]
    ensures close[0] == close[i] ==> ConstantUpTo(close, i)
  {
    if i > 0 {
      assert NonDecreasingUpTo(close, i - 1);
      NonDecreasingEnds(close, i - 1);
      if close[0] == close[i] {
        assert close[i - 1] == close[i];
      }
    }
  }

  /** For period 2 or more the smoothed loss at i >= 1 is zero exactly when
      the closes up to i never fall. */
  lemma AvgLossZeroIff(close: seq<real>, period: nat, i: nat)
    requires period >= 2 && 1 <= i < |close|
    ensures AvgLoss(close, period)[i - 1] == 0.0 <==> NonDecreasingUpTo(close, i)
  {
    var l := Losses(close);
    EwmZeroIff(l, Alpha(period), i - 1);
    forall j | 0 <= j < i ensures l[j] == 0.0 <==> close[j] <= close[j + 1] {
      GainLossSplit(close, j);
    }
  }

  /** For period 2 or more the smoothed gain at i >= 1 is zero exactly when
      the closes up to i never rise. */
  lemma AvgGainZeroIff(close: seq<real>, period: nat, i: nat)
    requires period >= 2 && 1 <= i < |close|
    ensures AvgGain(close, period)[i - 1] == 0.0 <==> NonIncreasingUpTo(close, i)
  {
    var g := Gains(close);
    EwmZeroIff(g, Alpha(period), i - 1);
    forall j | 0 <= j < i ensures g[j] == 0.0 <==> close[j] >= close[j + 1] {
      GainLossSplit(close, j);
    }
  }

  /** Never rising and never falling is being constant. */
  lemma MonotoneBothWaysIffConstant(close: seq<real>, i: nat)
    requires i < |close|
    ensures NonDecreasingUpTo(close, i) && NonIncreasingUpTo(close, i) <==> ConstantUpTo(close, i)
  {
    FlatStepsIffConstant(close, i);
    if NonDecreasingUpTo(close, i) && NonIncreasingUpTo(close, i) {
      forall j | 0 <= j < i ensures close[j] == close[j + 1] {
        assert close[j] <= close[j + 1] && close[j] >= close[j + 1];
      }
    }
  }

  /** For period 2 or more the RSI at i >= 1 is NaN exactly when the closes
      up to i are all equal (both smoothed averages are then zero). */
  lemma RsiUndefinedIff(close: seq<real>, period: nat, i: nat)
    requires period >= 2 && 1 <= i < |close|
    ensures Rsi(close, period)[i].None? <==> ConstantUpTo(close, i)
  {
    RsiAt(close, period, i);
    AvgLossZeroIff(close, period, i);
    AvgGainZeroIff(close, period, i);
    MonotoneBothWaysIffConstant(close, i);
  }

  /** For period 2 or more the RSI at i >= 1 is exactly 100 when the closes
      up to i never fall and end above where they started. */
  lemma RsiFullIff(close: seq<real>, period: nat, i: nat)
    requires period >= 2 && 1 <= i < |close|
    ensures Rsi(close, period)[i] == Some(100.0) <==> NonDecreasingUpTo(close, i) && close[0] < close[i]
  {
    RsiAt(close, period, i);
    AvgLossZeroIff(close, period, i);
    AvgGainZeroIff(close, period, i);
    MonotoneBothWaysIffConstant(close, i);
    if NonDecreasingUpTo(close, i) {
      NonDecreasingEnds(close, i);
    }
  }

  /** A strictly rising series has RSI 100 from index 1 on, for every period. */
  lemma RsiOfRisingSeries(close: seq<real>, period: nat, i: nat)
    requires period >= 1 && 1 <= i < |close|
    requires forall j :: 0 <= j < i ==> close[j] < close[j + 1]
    ensures Rsi(close, period)[i] == Some(100.0)
  {
    var k := i - 1;
    var a := Alpha(period);
    var g, l := Gains(close), Losses(close);
    forall j | 0 <= j <= k ensures g[j] > 0.0 && l[j] == 0.0 {
      GainLossSplit(close, j);
    }
    EwmWithin(l, a, k, 0.0, 0.0);
    EwmPositive(g, a, k);
  }

  /** Exchanging the two averages reflects the ratio about 50. */
  lemma RsiValueMirror(g: real, l: real)
    requires g >= 0.0 && l >= 0.0
    ensures RsiValue(l, g).None? <==> RsiValue(g, l).None?
    ensures RsiValue(g, l).Some? ==> RsiValue(l, g) == Some(100.0 - RsiValue(g, l).value)
  {
    if g > 0.0 && l > 0.0 {
      DivAdd(100.0 * l, 100.0 * g, g + l);
      MulDiv(g + l, 100.0);
      assert 100.0 * l + 100.0 * g == (g + l) * 100.0;
    }
  }

  /** Negation is its own inverse. */
  lemma NegateInvolution(v: seq<real>)
    ensures Negate(Negate(v)) == v
  {
    var n := Negate(Negate(v));
    assert |n| == |v|;
    forall k | 0 <= k < |v| ensures n[k] == v[k] {
      assert Negate(v)[k] + v[k] == 0.0;
      assert n[k] + Negate(v)[k] == 0.0;
    }
  }

  /** The smoothed averages of the mirrored prices are the exchanged averages. */
  lemma MirroredAverages(close: seq<real>, period: nat)
    requires period >= 1
    ensures AvgGain(Negate(close), period) == AvgLoss(close, period)
    ensures AvgLoss(Negate(close), period) == AvgGain(close, period)
  {
    var m := Negate(close);
    LossesAreMirroredGains(close);
    LossesAreMirroredGains(m);
    NegateInvolution(close);
  }

  /** Mirroring the prices mirrors the RSI: RSI(-close) = 100 - RSI(close). */
  lemma RsiMirror(close: seq<real>, period: nat, i: nat)
    requires period >= 1 && i < |close|
    ensures Rsi(Negate(close), period)[i].None? <==> Rsi(close, period)[i].None?
    ensures Rsi(close, period)[i].Some? ==> Rsi(Negate(close), period)[i] == Some(100.0 - Rsi(close, period)[i].value)
  {
    if i > 0 {
      var m := Negate(close);
      MirroredAverages(close, period);
      var g, l := AvgGain(close, period)[i - 1], AvgLoss(close, period)[i - 1];
      RsiAt(close, period, i);
      RsiAt(m, period, i);
      assert Rsi(close, period)[i] == RsiValue(g, l);
      assert Rsi(m, period)[i] == RsiValue(l, g);
      RsiValueMirror(g, l);
    }
  }

  lemma RsiZeroIsMirroredFull(close: seq<real>, period: nat, i: nat)
    requires period >= 1 && i < |close|
    ensures Rsi(close, period)[i] == Some(0.0) <==> Rsi(Negate(close), period)[i] == Some(100.0)
  {
    RsiMirror(close, period, i);
  }

  lemma FallingIsMirroredRising(close: seq<real>, i: nat)
    requires i < |close|
    ensures |Negate(close)| == |close|
    ensures NonIncreasingUpTo(close, i) <==> NonDecreasingUpTo(Negate(close), i)
    ensures close[i] < close[0] <==> Negate(close)[0] < Negate(close)[i]
  {
    var m := Negate(close);
    forall j | 0 <= j < i ensures close[j] >= close[j + 1] <==> m[j] <= m[j + 1] {
    }
  }

  /** For period 2 or more the RSI at i >= 1 is exactly 0 when the closes up
      to i never rise and end below where they started. */
  lemma RsiZeroIff(close: seq<real>, period: nat, i: nat)
    requires period >= 2 && 1 <= i < |close|
    ensures Rsi(close, period)[i] == Some(0.0) <==> NonIncreasingUpTo(close, i) && close[i] < close[0]
  {
    RsiZeroIsMirroredFull(close, period, i);
    FallingIsMirroredRising(close, i);
    RsiFullIff(Negate(close), period, i);
  }
}
