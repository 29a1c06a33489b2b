/**
 * `RiskManager`: position size from the capital put at risk and the stop
 * distance, and the maximum-loss check.
 */
module RiskManagement {
  import opened Common

  const DEFAULT_RISK_PERCENTAGE: real := 0.01
  const DEFAULT_MAX_LOSS: real := 0.05

  datatype RiskManager = RiskManager(riskPercentage: real, maxLoss: real)

  function NewWithDefaults(): (rm: RiskManager)
    ensures rm.riskPercentage == 0.01 && rm.maxLoss == 0.05
  {
    RiskManager(DEFAULT_RISK_PERCENTAGE, DEFAULT_MAX_LOSS)
  }

  /** The division raises when the price or the stop percentage is 0. */
  datatype SizeError = ZeroStopDistance

  /** The price distance to the stop: the price times the stop percentage over 100. */
  function StopDistance(price: real, stopLossPercent: real): real {
    price * (stopLossPercent / 100.0)
  }

  /**
   * `calculate_trade_size`: the quantity whose loss at the stop equals the
   * capital risked, `balance * risk_percentage`.
   */
  function CalculateTradeSize(rm: RiskManager, balance: real, price: real, stopLossPercent: real): (r: Result<real, SizeError>)
    ensures r.Failure? <==> price == 0.0 || stopLossPercent == 0.0
    ensures r.Success? ==> r.value * StopDistance(price, stopLossPercent) == balance * rm.riskPercentage
  {
    var capitalRisked := balance * rm.riskPercentage;
    var distance := StopDistance(price, stopLossPercent);
    if distance == 0.0 then
      assert price == 0.0 || stopLossPercent == 0.0;
      Failure(ZeroStopDistance)
    else
      assert price != 0.0 && stopLossPercent != 0.0;
      Success(capitalRisked / distance)
  }

  /** The size is linear in the balance: sizes for two balances add up to the size for their sum. */
  lemma TradeSizeLinearInBalance(rm: RiskManager, b1: real, b2: real, k: real, price: real, stopLossPercent: real)
    requires price != 0.0 && stopLossPercent != 0.0
    ensures CalculateTradeSize(rm, b1 + b2, price, stopLossPercent).value
            == CalculateTradeSize(rm, b1, price, stopLossPercent).value + CalculateTradeSize(rm, b2, price, stopLossPercent).value
    ensures CalculateTradeSize(rm, k * b1, price, stopLossPercent).value
            == k * CalculateTradeSize(rm, b1, price, stopLossPercent).value
  {
    var d := StopDistance(price, stopLossPercent);
    assert d != 0.0;
    assert (b1 + b2) * rm.riskPercentage / d == b1 * rm.riskPercentage / d + b2 * rm.riskPercentage / d;
    assert (k * b1) * rm.riskPercentage / d == k * (b1 * rm.riskPercentage / d);
  }

  /** A wider stop never asks for a larger position, for a positive price and non-negative capital at risk. */
  lemma TradeSizeDecreasingInStop(rm: RiskManager, balance: real, price: real, s1: real, s2: real)
    requires price > 0.0 && 0.0 < s1 <= s2 && balance >= 0.0 && rm.riskPercentage >= 0.0
    ensures CalculateTradeSize(rm, balance, price, s2).value <= CalculateTradeSize(rm, balance, price, s1).value
  {
    var c := balance * rm.riskPercentage;
    MulNonneg(balance, rm.riskPercentage);
    var d1 := StopDistance(price, s1);
    var d2 := StopDistance(price, s2);
    MulPos(price, s1 / 100.0);
    assert d1 <= d2 by {
      MulNonneg(price, (s2 - s1) / 100.0);
      assert d2 - d1 == price * ((s2 - s1) / 100.0);
    }
    DivAntitone(c, d1, d2);
  }

  /** Dividing a non-negative amount by a larger positive divisor gives no more. */
  lemma DivAntitone(c: real, d1: real, d2: real)
    requires c >= 0.0 && 0.0 < d1 <= d2
    ensures c / d2 <= c / d1
  {
    assert c / d1 - c / d2 == c * (d2 - d1) / (d1 * d2);
    MulNonneg(c, d2 - d1);
    MulPos(d1, d2);
  }

  /** `check_max_loss`: whether the loss has reached the limit. */
  function CheckMaxLoss(rm: RiskManager, totalLoss: real): (r: bool)
    ensures r <==> totalLoss >= rm.maxLoss
  {
    totalLoss >= rm.maxLoss
  }

  /** The limit itself already counts as reached, and any larger loss stays reached. */
  lemma MaxLossBoundaryInclusive(rm: RiskManager, totalLoss: real, larger: real)
    ensures CheckMaxLoss(rm, rm.maxLoss)
    ensures CheckMaxLoss(rm, totalLoss) && larger >= totalLoss ==> CheckMaxLoss(rm, larger)
    ensures totalLoss < rm.maxLoss ==> !CheckMaxLoss(rm, totalLoss)
  {
  }
}
