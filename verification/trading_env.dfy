/**
 * `TradingEnv`, the reinforcement-learning environment: cash and BTC at a
 * fixed price, three actions (hold, buy with all cash, sell all BTC), reward
 * measured against the initial balance. The price never moves inside `step`.
 */
module TradingEnv {
  import opened Common

  /** The constructor's default `initial_balance`. */
  const DEFAULT_INITIAL_BALANCE: real := 1000.0
  /** The fictitious price `reset` sets. */
  const RESET_PRICE: real := 30000.0

  const HOLD: int := 0
  const BUY: int := 1
  const SELL: int := 2

  datatype Env = Env(initialBalance: real, balance: real, btcBalance: real, currentPrice: real, totalBalance: real)

  /** The recorded total is the holdings marked at the current price. */
  predicate Consistent(e: Env) {
    e.totalBalance == e.balance + e.btcBalance * e.currentPrice
  }

  /** Construction: all cash, no BTC, and a price of 0 until `reset`; the balance is 1000 when not given. */
  function New(initialBalance: Option<real>): (e: Env)
    ensures Consistent(e) && e.currentPrice == 0.0 && e.btcBalance == 0.0
    ensures e.balance == e.initialBalance && e.totalBalance == e.initialBalance
    ensures initialBalance.Some? ==> e.initialBalance == initialBalance.value
    ensures initialBalance.None? ==> e.initialBalance == 1000.0
  {
    var b := initialBalance.GetOr(DEFAULT_INITIAL_BALANCE);
    Env(b, b, 0.0, 0.0, b)
  }

  datatype ResetOut = ResetOut(env: Env, observation: seq<real>)

  /** `reset`: back to all cash at the fictitious price; the observation is the total. */
  function Reset(e: Env): (r: ResetOut)
    ensures Consistent(r.env)
    ensures r.env.balance == e.initialBalance && r.env.btcBalance == 0.0 && r.env.currentPrice == RESET_PRICE
    ensures r.env.totalBalance == e.initialBalance && r.env.initialBalance == e.initialBalance
    ensures r.observation == [r.env.totalBalance]
  {
    var e1 := e.(balance := e.initialBalance, btcBalance := 0.0, currentPrice := RESET_PRICE,
                 totalBalance := e.initialBalance);
    ResetOut(e1, [e1.totalBalance])
  }

  datatype StepOut = StepOut(env: Env, observation: seq<real>, reward: real, done: bool)

  /** A buy at a zero price divides by zero; the exception leaves `step`. */
  datatype StepError = ZeroPriceBuy

  /** The holdings after the action, before the total is recomputed. */
  function Act(e: Env, action: int): Env
    requires action == BUY ==> e.currentPrice != 0.0
  {
    if action == BUY then e.(btcBalance := e.btcBalance + e.balance / e.currentPrice, balance := 0.0)
    else if action == SELL then e.(balance := e.balance + e.btcBalance * e.currentPrice, btcBalance := 0.0)
    else e
  }

  /** `step(action)`. */
  function Step(e: Env, action: int): (r: Result<StepOut, StepError>)
    ensures r.Failure? <==> action == BUY && e.currentPrice == 0.0
    ensures r.Success? ==> Consistent(r.value.env)
    ensures r.Success? ==> r.value.env.currentPrice == e.currentPrice && r.value.env.initialBalance == e.initialBalance
    ensures r.Success? && action == BUY ==> r.value.env.balance == 0.0
    ensures r.Success? && action == SELL ==> r.value.env.btcBalance == 0.0
    ensures r.Success? && action != BUY && action != SELL ==>
              r.value.env.balance == e.balance && r.value.env.btcBalance == e.btcBalance
    ensures r.Success? ==> r.value.reward == r.value.env.totalBalance - e.initialBalance
    ensures r.Success? ==> (r.value.done <==> r.value.env.totalBalance <= 0.0)
    ensures r.Success? ==> r.value.observation == [r.value.env.totalBalance]
  {
    if action == BUY && e.currentPrice == 0.0 then Failure(ZeroPriceBuy)
    else
      var a := Act(e, action);
      var e1 := a.(totalBalance := a.balance + a.btcBalance * a.currentPrice);
      var reward := e1.totalBalance - e1.initialBalance;
      Success(StepOut(e1, [e1.totalBalance], reward, e1.totalBalance <= 0.0))
  }

  /** Buying moves all cash into BTC at the current price; selling moves all BTC into cash. */
  lemma BuyAndSellMoveEverything(e: Env)
    requires e.currentPrice != 0.0
    ensures Step(e, BUY).value.env.btcBalance * e.currentPrice == e.btcBalance * e.currentPrice + e.balance
    ensures Step(e, SELL).value.env.balance == e.balance + e.btcBalance * e.currentPrice
  {
    var p := e.currentPrice;
    assert (e.btcBalance + e.balance / p) * p == e.btcBalance * p + e.balance;
  }

  /** Every successful action conserves the marked-to-market total. */
  lemma StepConservesTotal(e: Env, action: int)
    requires Step(e, action).Success?
    ensures Step(e, action).value.env.totalBalance == e.balance + e.btcBalance * e.currentPrice
    ensures Consistent(e) ==> Step(e, action).value.env.totalBalance == e.totalBalance
  {
    if action == BUY {
      BuyAndSellMoveEverything(e);
    }
  }

  /** Right after `reset` the reward of any action is 0, and the episode is not done for a positive balance. */
  lemma FirstStepAfterResetEarnsNothing(e: Env, action: int)
    ensures var s := Step(Reset(e).env, action);
            s.Success? && s.value.reward == 0.0 && (s.value.done <==> e.initialBalance <= 0.0)
  {
    StepConservesTotal(Reset(e).env, action);
  }

  /** Before the first `reset` the price is 0, so a buy fails while hold and sell succeed. */
  lemma BuyBeforeResetFails(initialBalance: Option<real>)
    ensures Step(New(initialBalance), BUY).Failure?
    ensures Step(New(initialBalance), HOLD).Success? && Step(New(initialBalance), SELL).Success?
  {
  }
}
