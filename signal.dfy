/** The signal detector of the moving-average / RSI bot: a crossover of the
    short moving average over the long one, filtered by the last RSI value,
    decides between a buy, a sell and no order. */
module Signal {
  import opened Wrappers
  import opened Indicators

  /** The two order directions; "no order" is `None`. */
  datatype Order = Buy | Sell

  /** The indicator periods and the RSI thresholds. */
  datatype Params = Params(maShort: nat, maLong: nat, rsiPeriod: nat, overbought: real, oversold: real)
  {
    predicate Valid() {
      maShort >= 1 && maLong >= 1 && rsiPeriod >= 1
    }
  }

  /** The bot's configuration: SMA 20 against SMA 50, RSI 14, thresholds 70 and 30. */
  const Configured: Params := Params(20, 50, 14, 70.0, 30.0)

  /** Number of bars the bot fetches for each evaluation. */
  const Lookback: nat := 200

  // Comparisons as Python evaluates them on floats: every comparison with
  // NaN is false.

  predicate Le(a: Option<real>, b: Option<real>)
    ensures a.None? || b.None? ==> !Le(a, b)
  {
    a.Some? && b.Some? && a.value <= b.value
  }

  predicate Lt(a: Option<real>, b: Option<real>)
    ensures a.None? || b.None? ==> !Lt(a, b)
  {
    a.Some? && b.Some? && a.value < b.value
  }

  predicate Ge(a: Option<real>, b: Option<real>)
    ensures a.None? || b.None? ==> !Ge(a, b)
  {
    a.Some? && b.Some? && a.value >= b.value
  }

  predicate Gt(a: Option<real>, b: Option<real>)
    ensures a.None? || b.None? ==> !Gt(a, b)
  {
    a.Some? && b.Some? && a.value > b.value
  }

  /** `iloc[-1]` */
  function Last(s: seq<Option<real>>): (r: Option<real>)
    requires |s| >= 1
  {
    s[|s| - 1]
  }

  /** `iloc[-2]` */
  function Prev(s: seq<Option<real>>): (r: Option<real>)
    requires |s| >= 2
  {
    s[|s| - 2]
  }

  /** The short average was at or below the long one and is now strictly above it. */
  predicate Bullish(prevS: Option<real>, prevL: Option<real>, lastS: Option<real>, lastL: Option<real>)
  {
    Le(prevS, prevL) && Gt(lastS, lastL)
  }

  /** The short average was at or above the long one and is now strictly below it. */
  predicate Bearish(prevS: Option<real>, prevL: Option<real>, lastS: Option<real>, lastL: Option<real>)
  {
    Ge(prevS, prevL) && Lt(lastS, lastL)
  }

  /** The decision of `compute_signal` from the series it reads: a bullish
      crossover buys unless the RSI is at or above `overbought`; otherwise a
      bearish crossover sells unless the RSI is at or below `oversold`. */
  function DetectSignal(maS: seq<Option<real>>, maL: seq<Option<real>>, osc: seq<Option<real>>,
                        overbought: real, oversold: real): (r: Option<Order>)
    requires |maS| >= 2 && |maL| >= 2 && |osc| >= 1
    ensures r == Some(Buy) <==>
      && Prev(maS).Some? && Prev(maL).Some? && Last(maS).Some? && Last(maL).Some? && Last(osc).Some?
      && Prev(maS).value <= Prev(maL).value
      && Last(maS).value > Last(maL).value
      && Last(osc).value < overbought
    ensures r == Some(Sell) <==>
      && Prev(maS).Some? && Prev(maL).Some? && Last(maS).Some? && Last(maL).Some? && Last(osc).Some?
      && Prev(maS).value >= Prev(maL).value
      && Last(maS).value < Last(maL).value
      && Last(osc).value > oversold
  {
    var prevS, prevL := Prev(maS), Prev(maL);
    var lastS, lastL := Last(maS), Last(maL);
    var lastRsi := Last(osc);
    var bullish := Bullish(prevS, prevL, lastS, lastL);
    var bearish := Bearish(prevS, prevL, lastS, lastL);
    if bullish && Lt(lastRsi, Some(overbought)) then Some(Buy)
    else if bearish && Gt(lastRsi, Some(oversold)) then Some(Sell)
    else None
  }

  /** `compute_signal(df)` on the closing prices. Fewer than two bars make
      `iloc[-2]` raise, so at least two are required. With no more bars than
      the longer moving-average period, one of the four averages read is
      still NaN and no order results. */
  function ComputeSignal(close: seq<real>, p: Params): (r: Option<Order>)
    requires p.Valid() && |close| >= 2
    ensures |close| <= p.maShort || |close| <= p.maLong ==> r.None?
  {
    DetectSignal(Sma(close, p.maShort), Sma(close, p.maLong), Rsi(close, p.rsiPeriod), p.overbought, p.oversold)
  }

  // ---------------------------------------------------------------------
  // Properties of the decision
  // ---------------------------------------------------------------------

  /** A bullish and a bearish crossover never hold together. */
  lemma CrossoversExclusive(prevS: Option<real>, prevL: Option<real>, lastS: Option<real>, lastL: Option<real>)
    ensures !(Bullish(prevS, prevL, lastS, lastL) && Bearish(prevS, prevL, lastS, lastL))
  {
  }

  /** Exchanging the two averages exchanges bullish and bearish. */
  lemma CrossoverAntisymmetric(prevS: Option<real>, prevL: Option<real>, lastS: Option<real>, lastL: Option<real>)
    ensures Bullish(prevS, prevL, lastS, lastL) <==> Bearish(prevL, prevS, lastL, lastS)
  {
  }

  /** A buy with the averages exchanged becomes a sell, provided the RSI
      also clears the oversold threshold, and a sell becomes a buy provided
      the RSI is also below the overbought threshold. */
  lemma SignalAntisymmetric(maS: seq<Option<real>>, maL: seq<Option<real>>, osc: seq<Option<real>>,
                            overbought: real, oversold: real)
    requires |maS| >= 2 && |maL| >= 2 && |osc| >= 1
    ensures DetectSignal(maS, maL, osc, overbought, oversold) == Some(Buy) && Gt(Last(osc), Some(oversold))
        ==> DetectSignal(maL, maS, osc, overbought, oversold) == Some(Sell)
    ensures DetectSignal(maS, maL, osc, overbought, oversold) == Some(Sell) && Lt(Last(osc), Some(overbought))
        ==> DetectSignal(maL, maS, osc, overbought, oversold) == Some(Buy)
  {
  }

  /** The decision reads only the last two averages and the last RSI value. */
  lemma SignalIsLocal(maS: seq<Option<real>>, maL: seq<Option<real>>, osc: seq<Option<real>>,
                      maS': seq<Option<real>>, maL': seq<Option<real>>, osc': seq<Option<real>>,
                      overbought: real, oversold: real)
    requires |maS| >= 2 && |maL| >= 2 && |osc| >= 1
    requires |maS'| >= 2 && |maL'| >= 2 && |osc'| >= 1
    requires Prev(maS) == Prev(maS') && Last(maS) == Last(maS')
    requires Prev(maL) == Prev(maL') && Last(maL) == Last(maL')
    requires Last(osc) == Last(osc')
    ensures DetectSignal(maS, maL, osc, overbought, oversold) == DetectSignal(maS', maL', osc', overbought, oversold)
  {
  }

  /** No order without a strict crossing: equal last averages, or a short
      average strictly on the same side on both samples, give `None`. */
  lemma NoCrossoverNoSignal(maS: seq<Option<real>>, maL: seq<Option<real>>, osc: seq<Option<real>>,
                            overbought: real, oversold: real)
    requires |maS| >= 2 && |maL| >= 2 && |osc| >= 1
    requires Last(maS) == Last(maL) || (Lt(Prev(maS), Prev(maL)) && Lt(Last(maS), Last(maL)))
                                    || (Gt(Prev(maS), Prev(maL)) && Gt(Last(maS), Last(maL)))
    ensures DetectSignal(maS, maL, osc, overbought, oversold).None?
  {
  }

  /** A touch on the previous sample followed by a strict separation is a crossover. */
  lemma TouchThenSeparateIsCrossover(maS: seq<Option<real>>, maL: seq<Option<real>>, osc: seq<Option<real>>,
                                     overbought: real, oversold: real)
    requires |maS| >= 2 && |maL| >= 2 && |osc| >= 1
    requires Prev(maS).Some? && Prev(maS) == Prev(maL)
    requires Last(osc).Some? && oversold < Last(osc).value < overbought
    ensures Gt(Last(maS), Last(maL)) ==> DetectSignal(maS, maL, osc, overbought, oversold) == Some(Buy)
    ensures Lt(Last(maS), Last(maL)) ==> DetectSignal(maS, maL, osc, overbought, oversold) == Some(Sell)
  {
  }

  /** An undefined last RSI blocks both orders. */
  lemma UndefinedRsiNoSignal(maS: seq<Option<real>>, maL: seq<Option<real>>, osc: seq<Option<real>>,
                             overbought: real, oversold: real)
    requires |maS| >= 2 && |maL| >= 2 && |osc| >= 1
    requires Last(osc).None?
    ensures DetectSignal(maS, maL, osc, overbought, oversold).None?
  {
  }

  /** A buy is never followed by another buy on the next bar: after a
      bullish crossover the short average is strictly above, so the next
      sample cannot start from at-or-below. The same holds for sells. */
  lemma NoRepeatOnNextBar(maS: seq<Option<real>>, maL: seq<Option<real>>, osc: seq<Option<real>>,
                          s: Option<real>, l: Option<real>, o: Option<real>,
                          overbought: real, oversold: real)
    requires |maS| >= 2 && |maL| >= 2 && |osc| >= 1
    ensures DetectSignal(maS, maL, osc, overbought, oversold) == Some(Buy)
        ==> DetectSignal(maS + [s], maL + [l], osc + [o], overbought, oversold) != Some(Buy)
    ensures DetectSignal(maS, maL, osc, overbought, oversold) == Some(Sell)
        ==> DetectSignal(maS + [s], maL + [l], osc + [o], overbought, oversold) != Some(Sell)
  {
  }

  // ---------------------------------------------------------------------
  // Properties of the whole computation on closing prices
  // ---------------------------------------------------------------------

  /** The configuration is a valid one. */
  lemma ConfiguredIsValid()
    ensures Configured.Valid()
    ensures Configured.oversold < Configured.overbought
    ensures Configured.maShort < Configured.maLong < Lookback
  {
  }

  /** With the bot's lookback of 200 bars, both averages are defined at the
      last two bars, so only the RSI can be NaN among the values read. */
  lemma LookbackDefinesAverages(close: seq<real>)
    requires |close| >= Lookback
    ensures Prev(Sma(close, Configured.maShort)).Some? && Last(Sma(close, Configured.maShort)).Some?
    ensures Prev(Sma(close, Configured.maLong)).Some? && Last(Sma(close, Configured.maLong)).Some?
  {
  }

  /** A flat market never trades: both averages equal the price wherever
      they are defined, so there is no crossover (and the RSI is NaN). */
  lemma FlatMarketNoSignal(close: seq<real>, p: Params)
    requires p.Valid() && |close| >= 2
    requires forall j :: 0 <= j < |close| ==> close[j] == close[0]
    ensures ComputeSignal(close, p).None?
  {
    var n := |close|;
    var ms, ml := Sma(close, p.maShort), Sma(close, p.maLong);
    SmaConstant(close, p.maShort, close[0], n - 1);
    SmaConstant(close, p.maLong, close[0], n - 1);
    assert !Gt(Last(ms), Last(ml)) && !Lt(Last(ms), Last(ml));
    assert ComputeSignal(close, p) == DetectSignal(ms, ml, Rsi(close, p.rsiPeriod), p.overbought, p.oversold);
  }

  // ---------------------------------------------------------------------
  // Worked examples
  // ---------------------------------------------------------------------

  function Defined(s: seq<real>): (r: seq<Option<real>>)
    ensures |r| == |s| && forall k :: 0 <= k < |s| ==> r[k] == Some(s[k])
  {
    seq(|s|, k requires 0 <= k < |s| => Some(s[k]))
  }

  /** Short 9 then 11 against a flat 10, RSI 50: a buy; with RSI 75 the buy is filtered out. */
  lemma ExampleBuyAndFilteredBuy()
    ensures DetectSignal(Defined([10.0, 10.0, 10.0, 9.0, 11.0]), Defined([10.0, 10.0, 10.0, 10.0, 10.0]),
                         Defined([50.0, 50.0, 50.0, 50.0, 50.0]), 70.0, 30.0) == Some(Buy)
    ensures DetectSignal(Defined([10.0, 10.0, 10.0, 9.0, 11.0]), Defined([10.0, 10.0, 10.0, 10.0, 10.0]),
                         Defined([75.0, 75.0, 75.0, 75.0, 75.0]), 70.0, 30.0).None?
  {
  }

  /** Averages that stay equal never trade, whatever the RSI. */
  lemma ExampleEqualAverages(rsi: real)
    ensures DetectSignal(Defined([10.0, 10.0]), Defined([10.0, 10.0]), Defined([rsi, rsi]), 70.0, 30.0).None?
  {
  }

  /** Equal, then above, then below: the first step buys and the second
      sells, so such a sequence gives two orders, not one. */
  lemma ExampleEqualAboveBelow()
    ensures DetectSignal(Defined([10.0, 11.0]), Defined([10.0, 10.0]), Defined([50.0, 50.0]), 70.0, 30.0) == Some(Buy)
    ensures DetectSignal(Defined([10.0, 11.0, 9.0]), Defined([10.0, 10.0, 10.0]), Defined([50.0, 50.0, 50.0]), 70.0, 30.0) == Some(Sell)
  {
  }
}
