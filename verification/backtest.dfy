/**
 * The backtest simulator of `run_backtest`: a Flat/Long state machine folded
 * over the test bars with fee and slippage on every fill.
 *
 * Quirks kept from the source: the portfolio value recorded for a bar is the
 * value BEFORE that bar's transition, and the forced liquidation after the last
 * bar charges the fee but no slippage and records no value.
 */
module Backtest {
  import opened Common
  import opened Costs

  const INITIAL_CAPITAL: real := 100.0

  /** The strategy subset of a hyperparameter set. */
  datatype StrategyParams = StrategyParams(profitThreshold: real, stopLossThreshold: real, predictionConfidence: real)

  /** Portfolio simulation state; `buyPrice` is the slippage-adjusted entry price. */
  datatype SimState = SimState(capital: real, btcAmount: real, inPosition: bool, buyPrice: real, tradeCount: nat)

  /** Long holds only BTC, Flat holds only cash. */
  predicate Consistent(s: SimState) {
    && (s.inPosition ==> s.capital == 0.0 && s.buyPrice > 0.0)
    && (!s.inPosition ==> s.btcAmount == 0.0)
  }

  /** Long holds some BTC, Flat holds some cash. */
  predicate Solvent(s: SimState) {
    if s.inPosition then s.btcAmount > 0.0 else s.capital > 0.0
  }

  predicate AllPositive(prices: seq<real>) {
    forall k :: 0 <= k < |prices| ==> prices[k] > 0.0
  }

  function Initial(): (s: SimState)
    ensures Consistent(s) && Solvent(s)
  {
    SimState(INITIAL_CAPITAL, 0.0, false, 0.0, 0)
  }

  /** Mark-to-market value at `price`. */
  function Value(s: SimState, price: real): real {
    s.capital + s.btcAmount * price
  }

  predicate ExitSignal(s: SimState, price: real, p: StrategyParams)
    requires s.buyPrice > 0.0
  {
    var profitLossPct := price / s.buyPrice - 1.0;
    profitLossPct >= p.profitThreshold || profitLossPct <= -p.stopLossThreshold
  }

  predicate EntrySignal(s: SimState, proba: real, p: StrategyParams) {
    proba > p.predictionConfidence && s.capital > MIN_TRADE_USDT
  }

  lemma BuyValue(capital: real, price: real)
    requires price > 0.0
    ensures capital / (price * (1.0 + SLIPPAGE_RATE)) * (1.0 - FEE_RATE) * price
            == capital * (1.0 - FEE_RATE) / (1.0 + SLIPPAGE_RATE)
  {
    var q := price * (1.0 + SLIPPAGE_RATE);
    calc {
      capital / q * (1.0 - FEE_RATE) * price;
      == { assert capital / q * q == capital; }
      capital / q * price * (1.0 - FEE_RATE);
      == { assert price == q / (1.0 + SLIPPAGE_RATE); }
      capital / q * (q / (1.0 + SLIPPAGE_RATE)) * (1.0 - FEE_RATE);
      capital * (1.0 - FEE_RATE) / (1.0 + SLIPPAGE_RATE);
    }
  }

  lemma SaleProceedsPositive(btcAmount: real, sellPrice: real)
    requires sellPrice > 0.0
    ensures btcAmount > 0.0 ==> btcAmount * sellPrice * (1.0 - FEE_RATE) > 0.0
  {
    if btcAmount > 0.0 {
      MulPos(btcAmount, sellPrice);
      MulPos(btcAmount * sellPrice, 1.0 - FEE_RATE);
    }
  }

  /**
   * One bar. At most one transition happens: Long may only exit, Flat may
   * only enter, so a bar that exits never re-enters.
   */
  function Step(s: SimState, price: real, proba: real, p: StrategyParams): (r: SimState)
    requires Consistent(s) && price > 0.0
    ensures Consistent(r)
    ensures Solvent(s) ==> Solvent(r)
    ensures r.tradeCount == s.tradeCount + (if r.inPosition != s.inPosition then 1 else 0)
    ensures s.inPosition ==> (r.inPosition <==> !ExitSignal(s, price, p))
    ensures !s.inPosition ==> (r.inPosition <==> EntrySignal(s, proba, p))
    ensures r.inPosition == s.inPosition ==> r == s
    // an exit sells the whole position at the slipped price and pays the fee on the proceeds
    ensures s.inPosition && !r.inPosition ==>
              r.capital == Value(s, price) * (1.0 - SLIPPAGE_RATE) * (1.0 - FEE_RATE)
    // an entry spends all cash; what it holds is worth that cash less fee and slippage
    ensures !s.inPosition && r.inPosition ==>
              Value(r, price) == s.capital * (1.0 - FEE_RATE) / (1.0 + SLIPPAGE_RATE)
              && r.buyPrice == price * (1.0 + SLIPPAGE_RATE)
  {
    if s.inPosition then
      if ExitSignal(s, price, p) then
        var sellPriceWithSlippage := price * (1.0 - SLIPPAGE_RATE);
        var capitalAfterSell := s.btcAmount * sellPriceWithSlippage;
        SaleProceedsPositive(s.btcAmount, sellPriceWithSlippage);
        s.(capital := capitalAfterSell * (1.0 - FEE_RATE), btcAmount := 0.0, inPosition := false,
           tradeCount := s.tradeCount + 1)
      else s
    else if EntrySignal(s, proba, p) then
      var buyPriceWithSlippage := price * (1.0 + SLIPPAGE_RATE);
      var amountToBuyBtc := s.capital / buyPriceWithSlippage;
      BuyValue(s.capital, price);
      s.(capital := 0.0, btcAmount := amountToBuyBtc * (1.0 - FEE_RATE), buyPrice := buyPriceWithSlippage,
         inPosition := true, tradeCount := s.tradeCount + 1)
    else s
  }

  /** Final state and the values recorded for each bar, before its transition. */
  datatype Trace = Trace(final: SimState, values: seq<real>)

  function Simulate(s: SimState, prices: seq<real>, probas: seq<real>, p: StrategyParams): (t: Trace)
    requires Consistent(s) && |probas| == |prices| && AllPositive(prices)
    ensures Consistent(t.final) && |t.values| == |prices|
    ensures |prices| == 0 ==> t.final == s
    decreases |prices|
  {
    if |prices| == 0 then Trace(s, [])
    else
      var currentValue := Value(s, prices[0]);
      var rest := Simulate(Step(s, prices[0], probas[0], p), prices[1..], probas[1..], p);
      Trace(rest.final, [currentValue] + rest.values)
  }

  /** The state after the first `k` bars, starting from `s`. */
  function StateAfter(s: SimState, prices: seq<real>, probas: seq<real>, p: StrategyParams, k: nat): (r: SimState)
    requires Consistent(s) && k <= |prices| && |probas| == |prices| && AllPositive(prices)
    ensures Consistent(r)
    decreases k
  {
    if k == 0 then s
    else StateAfter(Step(s, prices[0], probas[0], p), prices[1..], probas[1..], p, k - 1)
  }

  // ---------------------------------------------------------------------------
  // Sharpe ratio of the recorded portfolio values
  // ---------------------------------------------------------------------------

  /** Annualisation for one-minute bars: 365 * 24 * 60 bars a year. */
  const MINUTES_PER_YEAR: real := 525600.0

  lemma RelativeChangeSign(a: real, b: real)
    requires b > 0.0
    ensures a / b - 1.0 == 0.0 <==> a == b
    ensures a / b - 1.0 > 0.0 <==> a > b
  {
    assert a / b * b == a;
    if a > b {
      assert a / b > 1.0;
    }
  }

  /** `pct_change().dropna()`: the relative change from each recorded value to the next. */
  function PctChange(values: seq<real>): (r: seq<real>)
    requires AllPositive(values)
    ensures |r| == if |values| == 0 then 0 else |values| - 1
    ensures forall k :: 0 <= k < |r| ==> (r[k] == 0.0 <==> values[k] == values[k + 1])
    ensures forall k :: 0 <= k < |r| ==> (r[k] > 0.0 <==> values[k] < values[k + 1])
    decreases |values|
  {
    if |values| < 2 then []
    else
      var rest := PctChange(values[1..]);
      assert forall k :: 0 <= k < |rest| ==> values[1..][k] == values[k + 1];
      RelativeChangeSign(values[1], values[0]);
      [values[1] / values[0] - 1.0] + rest
  }

  function Sum(xs: seq<real>): real
    decreases |xs|
  {
    if |xs| == 0 then 0.0 else xs[0] + Sum(xs[1..])
  }

  function Mean(xs: seq<real>): real
    requires |xs| > 0
  {
    Sum(xs) / (|xs| as real)
  }

  lemma SquareNonneg(d: real)
    ensures d * d >= 0.0
  {
    if d < 0.0 {
      var e := -d;
      assert e * e > 0.0;
      assert d * d == e * e;
    }
  }

  /** Sum of squared deviations from `m`. */
  function SquaredDeviation(xs: seq<real>, m: real): (r: real)
    ensures r >= 0.0
    decreases |xs|
  {
    if |xs| == 0 then 0.0
    else
      SquareNonneg(xs[0] - m);
      (xs[0] - m) * (xs[0] - m) + SquaredDeviation(xs[1..], m)
  }

  /** pandas' `std()` squared: the sample variance, with `n - 1` in the denominator. */
  function SampleVariance(xs: seq<real>): (r: real)
    requires |xs| >= 2
    ensures r >= 0.0
  {
    SquaredDeviation(xs, Mean(xs)) / ((|xs| - 1) as real)
  }

  lemma {:induction false} SumOfConstant(xs: seq<real>, c: real)
    requires forall k :: 0 <= k < |xs| ==> xs[k] == c
    ensures Sum(xs) == (|xs| as real) * c
    decreases |xs|
  {
    if |xs| > 0 {
      SumOfConstant(xs[1..], c);
      assert (|xs| as real) * c == c + ((|xs| - 1) as real) * c;
    }
  }

  lemma MeanOfConstant(xs: seq<real>, c: real)
    requires |xs| > 0
    requires forall k :: 0 <= k < |xs| ==> xs[k] == c
    ensures Mean(xs) == c
  {
    SumOfConstant(xs, c);
  }

  /** Deviations from the common value of a constant sequence vanish. */
  lemma {:induction false} SquaredDeviationOfConstant(xs: seq<real>, c: real)
    requires forall k :: 0 <= k < |xs| ==> xs[k] == c
    ensures SquaredDeviation(xs, c) == 0.0
    decreases |xs|
  {
    if |xs| > 0 {
      SquaredDeviationOfConstant(xs[1..], c);
      assert xs[0] - c == 0.0;
    }
  }

  /** A sequence of equal elements has zero sample variance. */
  lemma VarianceOfConstant(xs: seq<real>)
    requires |xs| >= 2
    requires forall k :: 0 <= k < |xs| ==> xs[k] == xs[0]
    ensures SampleVariance(xs) == 0.0
  {
    MeanOfConstant(xs, xs[0]);
    SquaredDeviationOfConstant(xs, xs[0]);
  }

  /** A sequence with zero sample variance has all its elements equal. */
  lemma VarianceZeroMeansConstant(xs: seq<real>)
    requires |xs| >= 2 && SampleVariance(xs) == 0.0
    ensures forall k :: 0 <= k < |xs| ==> xs[k] == xs[0]
  {
    SquaredDeviationZero(xs, Mean(xs));
  }

  /** Squared deviations from `m` vanish only when every element is `m`. */
  lemma {:induction false} SquaredDeviationZero(xs: seq<real>, m: real)
    requires SquaredDeviation(xs, m) == 0.0
    ensures forall k :: 0 <= k < |xs| ==> xs[k] == m
    decreases |xs|
  {
    if |xs| > 0 {
      var e := xs[0] - m;
      var rest := SquaredDeviation(xs[1..], m);
      assert e * e + rest == 0.0 && rest >= 0.0;
      SquareSumZero(e, rest);
      SquaredDeviationZero(xs[1..], m);
      forall k | 1 <= k < |xs|
        ensures xs[k] == m
      {
        assert xs[k] == xs[1..][k - 1];
      }
    }
  }

  /** A square plus something non-negative is zero only for a zero base. */
  lemma SquareSumZero(e: real, rest: real)
    requires e * e + rest == 0.0 && rest >= 0.0
    ensures e == 0.0
  {
    ProductSumZero(e, e, rest);
  }

  lemma ProductSumZero(a: real, b: real, rest: real)
    requires a == b && a * b + rest == 0.0 && rest >= 0.0
    ensures a == 0.0
  {
    if a > 0.0 {
      MulPos(a, b);
    } else if a < 0.0 {
      var c := -a;
      MulPos(c, c);
      NegatedSquare(a, b, c);
    }
  }

  /** A square is unchanged by negating its base. */
  lemma NegatedSquare(a: real, b: real, c: real)
    requires a == b && c == -a
    ensures a * b == c * c
  {
  }

  /**
   * The outcome of the Sharpe computation: 0.0 when there are fewer than two
   * returns or their standard deviation is zero, otherwise the annualised
   * ratio of the mean return to its standard deviation.
   */
  datatype Sharpe = NoVariation | Annualized(meanReturn: real, variance: real)

  function SharpeOf(values: seq<real>): (r: Sharpe)
    requires AllPositive(values)
    ensures r.Annualized? ==> r.variance > 0.0 && |values| >= 3
    ensures r.Annualized? <==> |PctChange(values)| >= 2 && SampleVariance(PctChange(values)) > 0.0
    ensures r.Annualized? ==> r == Annualized(Mean(PctChange(values)), SampleVariance(PctChange(values)))
  {
    var changes := PctChange(values);
    if |changes| < 2 || SampleVariance(changes) == 0.0 then NoVariation
    else Annualized(Mean(changes), SampleVariance(changes))
  }

  /** Every bar-to-bar return is the same. */
  predicate EqualReturns(values: seq<real>)
    requires AllPositive(values)
  {
    var changes := PctChange(values);
    forall k :: 0 <= k < |changes| ==> changes[k] == changes[0]
  }

  /**
   * Equal returns give a zero ratio: a flat series, but also one that grows
   * by the same percentage every bar.
   */
  lemma EqualReturnsHaveNoVariation(values: seq<real>)
    requires AllPositive(values) && EqualReturns(values)
    ensures SharpeOf(values) == NoVariation
  {
    var changes := PctChange(values);
    if |changes| >= 2 {
      assert forall k :: 0 <= k < |changes| ==> changes[k] == changes[0];
      VarianceOfConstant(changes);
    }
  }

  /** Conversely, two different returns always give an annualised ratio. */
  lemma UnequalReturnsAreAnnualized(values: seq<real>)
    requires AllPositive(values) && !EqualReturns(values)
    ensures SharpeOf(values).Annualized?
  {
    var changes := PctChange(values);
    var k :| 0 <= k < |changes| && changes[k] != changes[0];
    assert |changes| >= 2;
    if SampleVariance(changes) == 0.0 {
      VarianceZeroMeansConstant(changes);
      assert false;
    }
  }

  /** A series that never changes has a zero Sharpe ratio. */
  lemma ConstantSeriesHasNoVariation(values: seq<real>)
    requires AllPositive(values)
    requires forall k :: 0 <= k < |values| ==> values[k] == values[0]
    ensures SharpeOf(values) == NoVariation
  {
    var changes := PctChange(values);
    assert forall k :: 0 <= k < |changes| ==> changes[k] == 0.0 by {
      forall k | 0 <= k < |changes| ensures changes[k] == 0.0 {
        assert values[k] == values[0] && values[k + 1] == values[0];
      }
    }
    EqualReturnsHaveNoVariation(values);
  }

  /** The number reported, given a square root. */
  function SharpeValue(sh: Sharpe, sqrt: real -> real): real
    requires sh.Annualized? ==> sqrt(sh.variance) > 0.0
  {
    match sh
    case NoVariation => 0.0
    case Annualized(m, v) => m / sqrt(v) * sqrt(MINUTES_PER_YEAR)
  }

  /** With a positive square root, the reported ratio is positive exactly when the mean return is. */
  lemma SharpePositiveIffMeanPositive(sh: Sharpe, sqrt: real -> real)
    requires sh.Annualized? ==> sqrt(sh.variance) > 0.0 && sqrt(MINUTES_PER_YEAR) > 0.0
    ensures SharpeValue(sh, sqrt) > 0.0 <==> sh.Annualized? && sh.meanReturn > 0.0
  {
    if sh.Annualized? {
      var q := sh.meanReturn / sqrt(sh.variance);
      if sh.meanReturn > 0.0 {
        MulPos(q, sqrt(MINUTES_PER_YEAR));
      } else {
        MulNonneg(-q, sqrt(MINUTES_PER_YEAR));
      }
    }
  }

  datatype BacktestResult = BacktestResult(capital: real, tradeCount: nat, portfolioValues: seq<real>, sharpe: Sharpe)

  /** `run_backtest`: final capital, trade count, the recorded values and their Sharpe ratio. */
  function RunBacktest(prices: seq<real>, probas: seq<real>, p: StrategyParams): (r: BacktestResult)
    requires |probas| == |prices| && AllPositive(prices)
    ensures |r.portfolioValues| == |prices| + 1 && r.portfolioValues[0] == INITIAL_CAPITAL
    ensures AllPositive(r.portfolioValues) && r.sharpe == SharpeOf(r.portfolioValues)
    ensures var last := Simulate(Initial(), prices, probas, p).final;
            && r.tradeCount == last.tradeCount
            && (!last.inPosition ==> r.capital == last.capital)
            // forced liquidation: fee on the last close, no slippage
            && (last.inPosition ==> |prices| > 0 && r.capital == Value(last, prices[|prices| - 1]) * (1.0 - FEE_RATE))
  {
    var t := Simulate(Initial(), prices, probas, p);
    var capital :=
      if t.final.inPosition then t.final.capital + t.final.btcAmount * prices[|prices| - 1] * (1.0 - FEE_RATE)
      else t.final.capital;
    SimulateStaysSolvent(Initial(), prices, probas, p);
    var values := [INITIAL_CAPITAL] + t.values;
    BacktestResult(capital, t.final.tradeCount, values, SharpeOf(values))
  }

  // ---------------------------------------------------------------------------
  // Properties of the fold
  // ---------------------------------------------------------------------------

  /** The value recorded for bar k is the value of the state reached after k bars, at bar k's price. */
  lemma {:induction false} SimulateRecordsValueBeforeStep(s: SimState, prices: seq<real>, probas: seq<real>, p: StrategyParams, k: nat)
    requires Consistent(s) && |probas| == |prices| && AllPositive(prices) && k < |prices|
    ensures Simulate(s, prices, probas, p).values[k] == Value(StateAfter(s, prices, probas, p, k), prices[k])
    decreases k
  {
    if k > 0 {
      var s1 := Step(s, prices[0], probas[0], p);
      SimulateRecordsValueBeforeStep(s1, prices[1..], probas[1..], p, k - 1);
    }
  }

  lemma {:induction false} SimulateEndsInStateAfterAll(s: SimState, prices: seq<real>, probas: seq<real>, p: StrategyParams)
    requires Consistent(s) && |probas| == |prices| && AllPositive(prices)
    ensures Simulate(s, prices, probas, p).final == StateAfter(s, prices, probas, p, |prices|)
    decreases |prices|
  {
    if |prices| > 0 {
      SimulateEndsInStateAfterAll(Step(s, prices[0], probas[0], p), prices[1..], probas[1..], p);
    }
  }

  /** A solvent run records only positive portfolio values and stays solvent. */
  lemma {:induction false} SimulateStaysSolvent(s: SimState, prices: seq<real>, probas: seq<real>, p: StrategyParams)
    requires Consistent(s) && Solvent(s) && |probas| == |prices| && AllPositive(prices)
    ensures Solvent(Simulate(s, prices, probas, p).final)
    ensures AllPositive(Simulate(s, prices, probas, p).values)
    decreases |prices|
  {
    if |prices| > 0 {
      var s1 := Step(s, prices[0], probas[0], p);
      SimulateStaysSolvent(s1, prices[1..], probas[1..], p);
      if s.inPosition {
        MulPos(s.btcAmount, prices[0]);
      }
      assert Value(s, prices[0]) > 0.0;
    }
  }

  /** The backtest never ends with nothing: its final capital is positive. */
  lemma BacktestCapitalPositive(prices: seq<real>, probas: seq<real>, p: StrategyParams)
    requires |probas| == |prices| && AllPositive(prices)
    ensures RunBacktest(prices, probas, p).capital > 0.0
  {
    var last := Simulate(Initial(), prices, probas, p).final;
    SimulateStaysSolvent(Initial(), prices, probas, p);
    if last.inPosition {
      var price := prices[|prices| - 1];
      MulPos(last.btcAmount, price);
      MulPos(last.btcAmount * price, 1.0 - FEE_RATE);
      assert Value(last, price) * (1.0 - FEE_RATE) == (last.btcAmount * price) * (1.0 - FEE_RATE);
    }
  }

  /** portfolio_values[k+1] is the value before bar k's transition. */
  lemma PortfolioValueIsBeforeTransition(prices: seq<real>, probas: seq<real>, p: StrategyParams, k: nat)
    requires |probas| == |prices| && AllPositive(prices) && k < |prices|
    ensures RunBacktest(prices, probas, p).portfolioValues[k + 1]
            == Value(StateAfter(Initial(), prices, probas, p, k), prices[k])
  {
    SimulateRecordsValueBeforeStep(Initial(), prices, probas, p, k);
  }

  /** Every trade flips the position, so the count of trades and the position agree in parity. */
  lemma {:induction false} TradeCountParity(s: SimState, prices: seq<real>, probas: seq<real>, p: StrategyParams)
    requires Consistent(s) && |probas| == |prices| && AllPositive(prices)
    ensures var f := Simulate(s, prices, probas, p).final;
            f.tradeCount >= s.tradeCount
            && ((f.tradeCount - s.tradeCount) % 2 == 1 <==> f.inPosition != s.inPosition)
    decreases |prices|
  {
    if |prices| > 0 {
      TradeCountParity(Step(s, prices[0], probas[0], p), prices[1..], probas[1..], p);
    }
  }

  /** From the initial state: the simulation ends Long exactly when an odd number of trades happened. */
  lemma OpenPositionIffOddTrades(prices: seq<real>, probas: seq<real>, p: StrategyParams)
    requires |probas| == |prices| && AllPositive(prices)
    ensures var f := Simulate(Initial(), prices, probas, p).final;
            f.inPosition <==> RunBacktest(prices, probas, p).tradeCount % 2 == 1
  {
    TradeCountParity(Initial(), prices, probas, p);
  }

  /** Flat with no probability above the threshold: nothing happens and every recorded value is the cash. */
  lemma {:induction false} QuietFlatRunIsIdle(s: SimState, prices: seq<real>, probas: seq<real>, p: StrategyParams)
    requires Consistent(s) && !s.inPosition && |probas| == |prices| && AllPositive(prices)
    requires forall k :: 0 <= k < |probas| ==> probas[k] <= p.predictionConfidence
    ensures Simulate(s, prices, probas, p).final == s
    ensures forall k :: 0 <= k < |prices| ==> Simulate(s, prices, probas, p).values[k] == s.capital
    decreases |prices|
  {
    if |prices| > 0 {
      QuietFlatRunIsIdle(s, prices[1..], probas[1..], p);
    }
  }

  /** All probabilities at or below the confidence threshold: no trade, capital stays 100, Sharpe ratio zero. */
  lemma NoSignalNoTrade(prices: seq<real>, probas: seq<real>, p: StrategyParams)
    requires |probas| == |prices| && AllPositive(prices)
    requires forall k :: 0 <= k < |probas| ==> probas[k] <= p.predictionConfidence
    ensures var r := RunBacktest(prices, probas, p);
            r.capital == INITIAL_CAPITAL && r.tradeCount == 0
            && (forall k :: 0 <= k < |r.portfolioValues| ==> r.portfolioValues[k] == INITIAL_CAPITAL)
            && r.sharpe == NoVariation
  {
    QuietFlatRunIsIdle(Initial(), prices, probas, p);
    ConstantSeriesHasNoVariation(RunBacktest(prices, probas, p).portfolioValues);
  }

  /**
   * A buy followed by the forced liquidation at the same price ends with
   * `capital * (1-FEE)^2 / (1+SLIP)`, strictly less than the capital spent.
   */
  lemma BuyThenLiquidateLoses(prices: seq<real>, probas: seq<real>, p: StrategyParams)
    requires |prices| == 1 && |probas| == 1 && prices[0] > 0.0
    requires probas[0] > p.predictionConfidence
    ensures var r := RunBacktest(prices, probas, p);
            && r.capital == INITIAL_CAPITAL * (1.0 - FEE_RATE) * (1.0 - FEE_RATE) / (1.0 + SLIPPAGE_RATE)
            && r.capital < INITIAL_CAPITAL
            && r.tradeCount == 1
            && r.portfolioValues == [INITIAL_CAPITAL, INITIAL_CAPITAL]
  {
    var s1 := Step(Initial(), prices[0], probas[0], p);
    assert Simulate(Initial(), prices, probas, p).final == s1;
    assert Value(s1, prices[0]) == INITIAL_CAPITAL * (1.0 - FEE_RATE) / (1.0 + SLIPPAGE_RATE);
  }
}
