/**
 * The simulation loop of `QuickTester.run`: a second Flat/Long machine that
 * risks only a fraction of the cash on each entry, keeps the rest, records the
 * portfolio value AFTER each bar's transition and never liquidates at the end.
 */
module QuickTester {
  import opened Common
  import opened Costs
  import Backtest

  /** `run`'s default `initial_capital`. */
  const DEFAULT_INITIAL_CAPITAL: real := 1000.0

  /** Simulation state; `buyPrice` is the slippage-adjusted entry price. */
  datatype QtState = QtState(capital: real, btcAmount: real, inPosition: bool, buyPrice: real)

  /** One `portfolio_history` entry (the timestamp is the bar's own). */
  datatype Record = Record(value: real, tradeExecuted: nat)

  /**
   * Where the loop leaves the reals: an entry on a bar whose close is 0
   * divides the trade size by a zero price (numpy yields an infinite BTC
   * amount). `bar` is that bar's index.
   */
  datatype QtError = ZeroPriceEntry(bar: nat)

  /** Flat holds no BTC; Long has a non-zero entry price to measure its profit against. */
  predicate Wellformed(s: QtState) {
    && (s.inPosition ==> s.buyPrice != 0.0)
    && (!s.inPosition ==> s.btcAmount == 0.0)
  }

  /** The start of `run`: all cash, Flat; the capital is `initial_capital`, 1000 when not given. */
  function Initial(initialCapital: Option<real>): (s: QtState)
    ensures Wellformed(s) && !s.inPosition && s.btcAmount == 0.0
    ensures initialCapital.Some? ==> s.capital == initialCapital.value
    ensures initialCapital.None? ==> s.capital == 1000.0
  {
    QtState(initialCapital.GetOr(DEFAULT_INITIAL_CAPITAL), 0.0, false, 0.0)
  }

  function Value(s: QtState, price: real): real {
    s.capital + s.btcAmount * price
  }

  /** `trade_size_usdt`: the fraction of the cash risked on one entry. */
  function TradeSize(capital: real, riskPerTradePct: real): (r: real)
    ensures capital >= 0.0 && 0.0 <= riskPerTradePct <= 1.0 ==> 0.0 <= r <= capital
    ensures riskPerTradePct == 1.0 ==> r == capital
  {
    capital * riskPerTradePct
  }

  predicate ExitSignal(s: QtState, price: real, p: Backtest.StrategyParams)
    requires s.buyPrice != 0.0
  {
    var pnlPct := price / s.buyPrice - 1.0;
    pnlPct >= p.profitThreshold || pnlPct <= -p.stopLossThreshold
  }

  /** A bar without a prediction counts as probability 0. */
  predicate EntrySignal(s: QtState, proba: Option<real>, p: Backtest.StrategyParams, riskPerTradePct: real) {
    && proba.GetOr(0.0) > p.predictionConfidence
    && s.capital > MIN_TRADE_USDT
    && TradeSize(s.capital, riskPerTradePct) > MIN_TRADE_USDT
  }

  /** Sell the whole position at the slipped price; the proceeds less the fee join the cash kept aside. */
  function Sell(s: QtState, price: real): (r: QtState)
    ensures !r.inPosition && r.btcAmount == 0.0
    ensures r.capital == s.capital + s.btcAmount * price * (1.0 - SLIPPAGE_RATE) * (1.0 - FEE_RATE)
  {
    var sellPrice := price * (1.0 - SLIPPAGE_RATE);
    var revenue := s.btcAmount * sellPrice;
    s.(capital := s.capital + revenue * (1.0 - FEE_RATE), btcAmount := 0.0, inPosition := false)
  }

  /**
   * Spend `tradeSize` on BTC at the slipped price and pay the fee on top, from
   * the cash; `None` when the slipped price is 0 and the amount would be infinite.
   */
  function Buy(s: QtState, price: real, tradeSize: real): (r: Option<QtState>)
    ensures r.None? <==> price == 0.0
    ensures r.Some? ==> r.value.inPosition && r.value.buyPrice == price * (1.0 + SLIPPAGE_RATE)
    ensures r.Some? ==> r.value.capital == s.capital - tradeSize * (1.0 + FEE_RATE)
    ensures r.Some? ==> r.value.btcAmount * r.value.buyPrice == tradeSize
  {
    var buyPriceEff := price * (1.0 + SLIPPAGE_RATE);
    if buyPriceEff == 0.0 then None
    else
      var amountToBuyBtc := tradeSize / buyPriceEff;
      var fee := tradeSize * FEE_RATE;
      Some(s.(btcAmount := amountToBuyBtc, capital := s.capital - (tradeSize + fee), buyPrice := buyPriceEff,
              inPosition := true))
  }

  datatype StepResult = StepResult(state: QtState, record: Record)

  /**
   * One bar: at most one of sell and buy, then the record valued after the
   * transition; `None` when the bar enters at a zero price.
   */
  function Step(s: QtState, price: real, proba: Option<real>, p: Backtest.StrategyParams, riskPerTradePct: real)
    : (r: Option<StepResult>)
    requires Wellformed(s)
    ensures r.None? <==> !s.inPosition && EntrySignal(s, proba, p, riskPerTradePct) && price == 0.0
    ensures r.Some? ==> Wellformed(r.value.state)
    ensures r.Some? && s.inPosition ==> (r.value.state.inPosition <==> !ExitSignal(s, price, p))
    ensures r.Some? && !s.inPosition ==> (r.value.state.inPosition <==> EntrySignal(s, proba, p, riskPerTradePct))
    ensures r.Some? && r.value.state.inPosition == s.inPosition ==> r.value.state == s
    ensures r.Some? && s.inPosition && !r.value.state.inPosition ==> r.value.state == Sell(s, price)
    ensures r.Some? && !s.inPosition && r.value.state.inPosition ==>
              Buy(s, price, TradeSize(s.capital, riskPerTradePct)) == Some(r.value.state)
    ensures r.Some? ==> r.value.record.tradeExecuted == (if r.value.state.inPosition != s.inPosition then 1 else 0)
    ensures r.Some? ==> r.value.record.value == Value(r.value.state, price)
  {
    var next :=
      if s.inPosition then
        if ExitSignal(s, price, p) then Some(Sell(s, price)) else Some(s)
      else if EntrySignal(s, proba, p, riskPerTradePct) then Buy(s, price, TradeSize(s.capital, riskPerTradePct))
      else Some(s);
    match next
    case None => None
    case Some(n) => Some(StepResult(n, Record(Value(n, price), if n.inPosition != s.inPosition then 1 else 0)))
  }

  datatype Trace = Trace(final: QtState, records: seq<Record>)

  /** The loop over the bars; a failure names the first bar that entered at a zero price. */
  function Simulate(s: QtState, prices: seq<real>, probas: seq<Option<real>>, p: Backtest.StrategyParams,
                    riskPerTradePct: real): (t: Result<Trace, QtError>)
    requires Wellformed(s) && |probas| == |prices|
    ensures t.Success? ==> Wellformed(t.value.final) && |t.value.records| == |prices|
    ensures t.Failure? ==> t.error.bar < |prices| && prices[t.error.bar] == 0.0
    decreases |prices|
  {
    if |prices| == 0 then Success(Trace(s, []))
    else
      match Step(s, prices[0], probas[0], p, riskPerTradePct)
      case None => Failure(ZeroPriceEntry(0))
      case Some(step) =>
        match Simulate(step.state, prices[1..], probas[1..], p, riskPerTradePct)
        case Failure(e) => Failure(ZeroPriceEntry(e.bar + 1))
        case Success(rest) => Success(Trace(rest.final, [step.record] + rest.records))
  }

  /** The state after the first `k` bars; `None` once a bar among them entered at a zero price. */
  function StateAfter(s: QtState, prices: seq<real>, probas: seq<Option<real>>, p: Backtest.StrategyParams,
                      riskPerTradePct: real, k: nat): (r: Option<QtState>)
    requires Wellformed(s) && k <= |prices| && |probas| == |prices|
    ensures r.Some? ==> Wellformed(r.value)
    ensures r.None? ==> k > 0 && exists j :: 0 <= j < k && prices[j] == 0.0
    decreases k
  {
    if k == 0 then Some(s)
    else
      match Step(s, prices[0], probas[0], p, riskPerTradePct)
      case None => None
      case Some(step) =>
        var r := StateAfter(step.state, prices[1..], probas[1..], p, riskPerTradePct, k - 1);
        assert r.None? ==> exists j :: 0 <= j < k && prices[j] == 0.0 by {
          if r.None? {
            var j :| 0 <= j < k - 1 && prices[1..][j] == 0.0;
            assert prices[j + 1] == 0.0;
          }
        }
        r
  }

  /** Bar k's record is the value of the state reached AFTER bar k, at bar k's price. */
  lemma {:induction false} RecordIsValueAfterTransition(s: QtState, prices: seq<real>, probas: seq<Option<real>>,
                                                        p: Backtest.StrategyParams, riskPerTradePct: real, k: nat)
    requires Wellformed(s) && |probas| == |prices| && k < |prices|
    requires Simulate(s, prices, probas, p, riskPerTradePct).Success?
    ensures StateAfter(s, prices, probas, p, riskPerTradePct, k + 1).Some?
    ensures Simulate(s, prices, probas, p, riskPerTradePct).value.records[k].value
            == Value(StateAfter(s, prices, probas, p, riskPerTradePct, k + 1).value, prices[k])
    decreases k
  {
    var s1 := Step(s, prices[0], probas[0], p, riskPerTradePct).value.state;
    if k > 0 {
      RecordIsValueAfterTransition(s1, prices[1..], probas[1..], p, riskPerTradePct, k - 1);
    }
  }

  /** Bar k's flag is 1 exactly when bar k changed the position. */
  lemma {:induction false} FlagMarksPositionChange(s: QtState, prices: seq<real>, probas: seq<Option<real>>,
                                                   p: Backtest.StrategyParams, riskPerTradePct: real, k: nat)
    requires Wellformed(s) && |probas| == |prices| && k < |prices|
    requires Simulate(s, prices, probas, p, riskPerTradePct).Success?
    ensures StateAfter(s, prices, probas, p, riskPerTradePct, k).Some?
    ensures StateAfter(s, prices, probas, p, riskPerTradePct, k + 1).Some?
    ensures var before := StateAfter(s, prices, probas, p, riskPerTradePct, k).value;
            var after := StateAfter(s, prices, probas, p, riskPerTradePct, k + 1).value;
            Simulate(s, prices, probas, p, riskPerTradePct).value.records[k].tradeExecuted
            == (if after.inPosition != before.inPosition then 1 else 0)
    decreases k
  {
    var s1 := Step(s, prices[0], probas[0], p, riskPerTradePct).value.state;
    if k > 0 {
      FlagMarksPositionChange(s1, prices[1..], probas[1..], p, riskPerTradePct, k - 1);
    }
  }

  /** The loop completes exactly when the state after all bars exists, and then ends in it. */
  lemma {:induction false} SimulateEndsInStateAfterAll(s: QtState, prices: seq<real>, probas: seq<Option<real>>,
                                                       p: Backtest.StrategyParams, riskPerTradePct: real)
    requires Wellformed(s) && |probas| == |prices|
    ensures Simulate(s, prices, probas, p, riskPerTradePct).Success?
            <==> StateAfter(s, prices, probas, p, riskPerTradePct, |prices|).Some?
    ensures Simulate(s, prices, probas, p, riskPerTradePct).Success? ==>
              Simulate(s, prices, probas, p, riskPerTradePct).value.final
              == StateAfter(s, prices, probas, p, riskPerTradePct, |prices|).value
    decreases |prices|
  {
    if |prices| > 0 {
      var st := Step(s, prices[0], probas[0], p, riskPerTradePct);
      if st.Some? {
        SimulateEndsInStateAfterAll(st.value.state, prices[1..], probas[1..], p, riskPerTradePct);
      }
    }
  }

  /**
   * The loop stops only where the source leaves the reals: at the reported bar
   * the state reached so far is Flat, the entry signal fires and the close is 0.
   */
  lemma {:induction false} FailsOnlyOnZeroPriceEntry(s: QtState, prices: seq<real>, probas: seq<Option<real>>,
                                                     p: Backtest.StrategyParams, riskPerTradePct: real)
    requires Wellformed(s) && |probas| == |prices|
    requires Simulate(s, prices, probas, p, riskPerTradePct).Failure?
    ensures var b := Simulate(s, prices, probas, p, riskPerTradePct).error.bar;
            && b < |prices|
            && StateAfter(s, prices, probas, p, riskPerTradePct, b).Some?
            && var q := StateAfter(s, prices, probas, p, riskPerTradePct, b).value;
               !q.inPosition && EntrySignal(q, probas[b], p, riskPerTradePct) && prices[b] == 0.0
    decreases |prices|
  {
    var st := Step(s, prices[0], probas[0], p, riskPerTradePct);
    if st.Some? {
      FailsOnlyOnZeroPriceEntry(st.value.state, prices[1..], probas[1..], p, riskPerTradePct);
      var b := Simulate(s, prices, probas, p, riskPerTradePct).error.bar;
      assert prices[1..][b - 1] == prices[b] && probas[1..][b - 1] == probas[b];
    }
  }

  /**
   * No forced liquidation: the last record is the final state marked to the
   * last price, and a position still open at the end stays open.
   */
  lemma LastRecordMarksOpenPositionToMarket(s: QtState, prices: seq<real>, probas: seq<Option<real>>,
                                            p: Backtest.StrategyParams, riskPerTradePct: real)
    requires Wellformed(s) && |probas| == |prices| && |prices| > 0
    requires Simulate(s, prices, probas, p, riskPerTradePct).Success?
    ensures var t := Simulate(s, prices, probas, p, riskPerTradePct).value;
            t.records[|prices| - 1].value == Value(t.final, prices[|prices| - 1])
  {
    RecordIsValueAfterTransition(s, prices, probas, p, riskPerTradePct, |prices| - 1);
    SimulateEndsInStateAfterAll(s, prices, probas, p, riskPerTradePct);
  }

  /** A missing prediction never opens a position: it is read as probability 0. */
  lemma MissingPredictionNeverEnters(s: QtState, price: real, p: Backtest.StrategyParams, riskPerTradePct: real)
    requires Wellformed(s) && !s.inPosition && p.predictionConfidence >= 0.0
    ensures Step(s, price, None, p, riskPerTradePct) == Some(StepResult(s, Record(s.capital, 0)))
  {
  }

  /**
   * Buying `tradeSize` and selling it back at the same price loses
   * the buy fee plus the slippage and fee on the way out.
   */
  lemma SamePriceRoundTripLoses(s: QtState, price: real, tradeSize: real)
    requires !s.inPosition && price != 0.0 && tradeSize > 0.0
    ensures Buy(s, price, tradeSize).Some?
    ensures var r := Sell(Buy(s, price, tradeSize).value, price);
            && !r.inPosition && r.btcAmount == 0.0
            && r.capital == s.capital - tradeSize * (1.0 + FEE_RATE)
                            + tradeSize * (1.0 - SLIPPAGE_RATE) * (1.0 - FEE_RATE) / (1.0 + SLIPPAGE_RATE)
            && r.capital < s.capital
  {
    var b := Buy(s, price, tradeSize).value;
    var q := price * (1.0 + SLIPPAGE_RATE);
    assert b.btcAmount * price == tradeSize / (1.0 + SLIPPAGE_RATE) by {
      assert b.btcAmount == tradeSize / q;
      assert price == q / (1.0 + SLIPPAGE_RATE);
    }
  }
}
