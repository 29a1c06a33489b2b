/**
 * The live bot's bookkeeping (`PortfolioManager`), the average fill price of a
 * market order (`execute_trade`) and one decision of the main loop
 * (`TradingBot.run`). The exchange is replaced by its answers: the quote and
 * balances of a sync, and the order returned for a trade.
 */
module TradingBot {
  import opened Common

  /** Minimum order value, in USDT, the bot will place. */
  const MIN_ORDER_USDT: real := 10.0
  /** Entry threshold used when the strategy file has no `prediction_confidence`. */
  const DEFAULT_PREDICTION_CONFIDENCE: real := 0.75

  /** `PortfolioManager`'s configuration and balances. */
  datatype Portfolio = Portfolio(
    maxUsdtAllocation: real,
    longTermHoldPct: real,
    riskPerTradePct: real,
    longTermBtcHoldings: real,
    tradingCapitalUsdt: real,
    tradingBtcBalance: real)

  /** A fresh manager: configuration set, every balance zero. */
  function NewPortfolio(maxUsdtAllocation: real, longTermHoldPct: real, riskPerTradePct: real): (pm: Portfolio)
    ensures pm.longTermBtcHoldings == 0.0 && pm.tradingCapitalUsdt == 0.0 && pm.tradingBtcBalance == 0.0
  {
    Portfolio(maxUsdtAllocation, longTermHoldPct, riskPerTradePct, 0.0, 0.0, 0.0)
  }

  /** `get_total_portfolio_value_usdt(price)`: trading cash, trading BTC and the long-term holding. */
  function TotalValue(pm: Portfolio, price: real): (r: real)
    ensures r == pm.tradingCapitalUsdt + (pm.tradingBtcBalance + pm.longTermBtcHoldings) * price
    ensures pm.tradingBtcBalance >= 0.0 && pm.longTermBtcHoldings >= 0.0 && price >= 0.0 ==> r >= pm.tradingCapitalUsdt
  {
    pm.tradingCapitalUsdt + pm.tradingBtcBalance * price + pm.longTermBtcHoldings * price
  }

  // ---------------------------------------------------------------------------
  // Sync with the exchange
  // ---------------------------------------------------------------------------

  /** What the exchange reported: the ticker price and the free USDT and BTC balances. */
  datatype LiveQuote = LiveQuote(price: real, usdtBalance: real, btcBalance: real)

  datatype SyncError = NoClient | ExchangeError | ZeroPrice

  /**
   * `sync_with_live_balance`. `quote` is `None` when an exchange call raised.
   * A zero price raises in the division before any field is assigned, so every
   * failure leaves the portfolio as it was.
   */
  function SyncWithLiveBalance(pm: Portfolio, hasClient: bool, quote: Option<LiveQuote>): (r: Result<Portfolio, SyncError>)
    ensures r.Success? <==> hasClient && quote.Some? && quote.value.price != 0.0
    ensures r.Success? ==>
              var q := quote.value;
              var working := Min(q.usdtBalance + q.btcBalance * q.price, pm.maxUsdtAllocation);
              && r.value.tradingBtcBalance == 0.0
              && r.value.tradingCapitalUsdt == working * (1.0 - pm.longTermHoldPct)
              && r.value.longTermBtcHoldings * q.price == working * pm.longTermHoldPct
              && r.value.(longTermBtcHoldings := pm.longTermBtcHoldings, tradingCapitalUsdt := pm.tradingCapitalUsdt,
                          tradingBtcBalance := pm.tradingBtcBalance) == pm
  {
    if !hasClient then Failure(NoClient)
    else match quote
      case None => Failure(ExchangeError)
      case Some(q) =>
        if q.price == 0.0 then Failure(ZeroPrice)
        else
          var realTotal := q.usdtBalance + q.btcBalance * q.price;
          var working := Min(realTotal, pm.maxUsdtAllocation);
          Success(pm.(longTermBtcHoldings := (working * pm.longTermHoldPct) / q.price,
                      tradingCapitalUsdt := working * (1.0 - pm.longTermHoldPct),
                      tradingBtcBalance := 0.0))
  }

  /**
   * Right after a sync the whole portfolio, valued at the sync price, is the
   * working capital: the real total capped at the allocation.
   */
  lemma SyncedValueIsWorkingCapital(pm: Portfolio, q: LiveQuote)
    requires q.price != 0.0
    ensures var r := SyncWithLiveBalance(pm, true, Some(q));
            r.Success? && TotalValue(r.value, q.price) == Min(q.usdtBalance + q.btcBalance * q.price, pm.maxUsdtAllocation)
            && TotalValue(r.value, q.price) <= pm.maxUsdtAllocation
  {
  }

  // ---------------------------------------------------------------------------
  // Trades
  // ---------------------------------------------------------------------------

  /** `get_trade_size_usdt`: the configured fraction of the trading cash. */
  function TradeSize(pm: Portfolio): (r: real)
    ensures pm.tradingCapitalUsdt >= 0.0 && 0.0 <= pm.riskPerTradePct <= 1.0 ==> 0.0 <= r <= pm.tradingCapitalUsdt
    ensures pm.riskPerTradePct == 1.0 ==> r == pm.tradingCapitalUsdt
  {
    pm.tradingCapitalUsdt * pm.riskPerTradePct
  }

  /** `update_on_buy(amount, price)`: pay `amount * price` from the trading cash, hold `amount` more BTC. */
  function UpdateOnBuy(pm: Portfolio, amount: real, price: real): (r: Portfolio)
    ensures r.tradingCapitalUsdt == pm.tradingCapitalUsdt - amount * price
    ensures r.tradingBtcBalance == pm.tradingBtcBalance + amount
    ensures r.(tradingCapitalUsdt := pm.tradingCapitalUsdt, tradingBtcBalance := pm.tradingBtcBalance) == pm
  {
    var cost := amount * price;
    pm.(tradingCapitalUsdt := pm.tradingCapitalUsdt - cost, tradingBtcBalance := pm.tradingBtcBalance + amount)
  }

  /** `update_on_sell(amount, price)`: receive `amount * price`, hold `amount` less BTC. */
  function UpdateOnSell(pm: Portfolio, amount: real, price: real): (r: Portfolio)
    ensures r.tradingCapitalUsdt == pm.tradingCapitalUsdt + amount * price
    ensures r.tradingBtcBalance == pm.tradingBtcBalance - amount
    ensures r.(tradingCapitalUsdt := pm.tradingCapitalUsdt, tradingBtcBalance := pm.tradingBtcBalance) == pm
  {
    var revenue := amount * price;
    pm.(tradingCapitalUsdt := pm.tradingCapitalUsdt + revenue, tradingBtcBalance := pm.tradingBtcBalance - amount)
  }

  /** Selling back what was bought, at the same price, restores the portfolio exactly (and the other way round). */
  lemma BuySellRoundTrip(pm: Portfolio, amount: real, price: real)
    ensures UpdateOnSell(UpdateOnBuy(pm, amount, price), amount, price) == pm
    ensures UpdateOnBuy(UpdateOnSell(pm, amount, price), amount, price) == pm
  {
  }

  /** The bookkeeping neither creates nor destroys value at the fill price. */
  lemma TradesConserveValueAtFillPrice(pm: Portfolio, amount: real, price: real)
    ensures TotalValue(UpdateOnBuy(pm, amount, price), price) == TotalValue(pm, price)
    ensures TotalValue(UpdateOnSell(pm, amount, price), price) == TotalValue(pm, price)
  {
    assert (pm.tradingBtcBalance + amount) * price == pm.tradingBtcBalance * price + amount * price;
    assert (pm.tradingBtcBalance - amount) * price == pm.tradingBtcBalance * price - amount * price;
  }

  // ---------------------------------------------------------------------------
  // Order fills
  // ---------------------------------------------------------------------------

  datatype Fill = Fill(price: real, qty: real)

  /** The exchange's order answer: its fills and the order-level `price` / `executedQty` keys, when present. */
  datatype Order = Order(fills: seq<Fill>, price: Option<real>, executedQty: Option<real>)

  /** What `execute_trade` hands back: the average price and executed quantity. */
  datatype Execution = Execution(avgPrice: real, executedQty: real)

  function SumQty(fills: seq<Fill>): real
    decreases |fills|
  {
    if |fills| == 0 then 0.0 else fills[0].qty + SumQty(fills[1..])
  }

  function SumNotional(fills: seq<Fill>): real
    decreases |fills|
  {
    if |fills| == 0 then 0.0 else fills[0].price * fills[0].qty + SumNotional(fills[1..])
  }

  /**
   * `execute_trade` after the order was placed (`order` is `None` when the
   * exchange raised). With fills: the quantity-weighted average price, or a
   * failure when the quantities sum to zero (the division raises and is
   * caught). Without fills: the order's own keys, each defaulting to 0.
   */
  function ExecutionOf(order: Option<Order>): (r: Option<Execution>)
    ensures order.None? ==> r.None?
    ensures order.Some? && |order.value.fills| == 0 ==>
              r == Some(Execution(order.value.price.GetOr(0.0), order.value.executedQty.GetOr(0.0)))
    ensures order.Some? && |order.value.fills| > 0 ==>
              (r.Some? <==> SumQty(order.value.fills) != 0.0)
  {
    match order
    case None => None
    case Some(o) =>
      if |o.fills| > 0 then
        var totalQty := SumQty(o.fills);
        if totalQty == 0.0 then None
        else Some(Execution(SumNotional(o.fills) / totalQty, totalQty))
      else Some(Execution(o.price.GetOr(0.0), o.executedQty.GetOr(0.0)))
  }

  predicate PositiveQuantities(fills: seq<Fill>) {
    forall k :: 0 <= k < |fills| ==> fills[k].qty > 0.0
  }

  /** Every fill price lies in [lo, hi]. */
  predicate PricesWithin(fills: seq<Fill>, lo: real, hi: real) {
    forall k :: 0 <= k < |fills| ==> lo <= fills[k].price <= hi
  }

  /** The notional is bracketed by the bracketing prices times the total quantity. */
  lemma {:induction false} NotionalBounds(fills: seq<Fill>, lo: real, hi: real)
    requires PositiveQuantities(fills) && PricesWithin(fills, lo, hi)
    ensures SumQty(fills) >= 0.0
    ensures lo * SumQty(fills) <= SumNotional(fills) <= hi * SumQty(fills)
    decreases |fills|
  {
    if |fills| > 0 {
      var f := fills[0];
      NotionalBounds(fills[1..], lo, hi);
      MulNonneg(f.price - lo, f.qty);
      MulNonneg(hi - f.price, f.qty);
      assert lo * SumQty(fills) == lo * f.qty + lo * SumQty(fills[1..]);
      assert hi * SumQty(fills) == hi * f.qty + hi * SumQty(fills[1..]);
    }
  }

  /**
   * With fills of positive quantity, the executed quantity is the sum of the
   * fill quantities and the average price lies between the cheapest and the
   * dearest fill.
   */
  lemma VwapWithinFillPrices(o: Order, lo: real, hi: real)
    requires |o.fills| > 0 && PositiveQuantities(o.fills) && PricesWithin(o.fills, lo, hi)
    ensures var r := ExecutionOf(Some(o));
            r.Some? && r.value.executedQty == SumQty(o.fills) && lo <= r.value.avgPrice <= hi
  {
    var total := SumQty(o.fills);
    NotionalBounds(o.fills, lo, hi);
    assert total > 0.0 by {
      NotionalBounds(o.fills[1..], lo, hi);
    }
    QuotientBetween(SumNotional(o.fills), total, lo, hi);
  }

  /** A quotient by a positive total of an amount bracketed by lo*total and hi*total lies in [lo, hi]. */
  lemma QuotientBetween(amount: real, total: real, lo: real, hi: real)
    requires total > 0.0 && lo * total <= amount <= hi * total
    ensures lo <= amount / total <= hi
  {
    var q := amount / total;
    assert q * total == amount;
    assert (lo - q) * total == lo * total - amount;
    assert (q - hi) * total == amount - hi * total;
    if q < lo {
      MulPos(lo - q, total);
    }
    if q > hi {
      MulPos(q - hi, total);
    }
  }

  // ---------------------------------------------------------------------------
  // One decision of the main loop
  // ---------------------------------------------------------------------------

  /** The live bot's own state besides the portfolio. */
  datatype Bot = Bot(inTradePosition: bool, buyPrice: real, portfolio: Portfolio)

  /** The strategy file; `predictionConfidence` may be missing, the exit thresholds may not. */
  datatype LiveParams = LiveParams(profitThreshold: real, stopLossThreshold: real, predictionConfidence: Option<real>)

  /** The current profit of the open trade, 0 when no positive entry price is known. */
  function ProfitPct(price: real, buyPrice: real): real {
    if buyPrice > 0.0 then price / buyPrice - 1.0 else 0.0
  }

  predicate ShouldExit(price: real, buyPrice: real, p: LiveParams) {
    ProfitPct(price, buyPrice) >= p.profitThreshold || ProfitPct(price, buyPrice) <= -p.stopLossThreshold
  }

  predicate ShouldEnter(pm: Portfolio, buyConfidence: real, p: LiveParams) {
    && buyConfidence > p.predictionConfidence.GetOr(DEFAULT_PREDICTION_CONFIDENCE)
    && pm.tradingCapitalUsdt >= TradeSize(pm)
    && TradeSize(pm) > MIN_ORDER_USDT
  }

  /**
   * The order the bot would send this minute, if any. `UnboundedBuy` is an
   * entry at a zero price: the quantity `trade_size / price` is infinite, the
   * order cannot be placed and `execute_trade` answers with nothing.
   */
  datatype Intent = NoOrder | SellAll(quantity: real) | BuyFor(usdt: real, quantity: real) | UnboundedBuy(usdt: real)

  function IntentOf(b: Bot, price: real, buyConfidence: real, p: LiveParams): (r: Intent)
    ensures r.SellAll? <==> b.inTradePosition && ShouldExit(price, b.buyPrice, p) && b.portfolio.tradingBtcBalance > 0.0
    ensures r.BuyFor? <==> !b.inTradePosition && ShouldEnter(b.portfolio, buyConfidence, p) && price != 0.0
    ensures r.UnboundedBuy? <==> !b.inTradePosition && ShouldEnter(b.portfolio, buyConfidence, p) && price == 0.0
    ensures r.SellAll? ==> r.quantity == b.portfolio.tradingBtcBalance
    ensures r.BuyFor? ==> r.usdt == TradeSize(b.portfolio) && r.quantity * price == r.usdt
    ensures r.UnboundedBuy? ==> r.usdt == TradeSize(b.portfolio)
  {
    if b.inTradePosition then
      if ShouldExit(price, b.buyPrice, p) && b.portfolio.tradingBtcBalance > 0.0 then SellAll(b.portfolio.tradingBtcBalance)
      else NoOrder
    else if ShouldEnter(b.portfolio, buyConfidence, p) then
      if price == 0.0 then UnboundedBuy(TradeSize(b.portfolio))
      else BuyFor(TradeSize(b.portfolio), TradeSize(b.portfolio) / price)
    else NoOrder
  }

  /**
   * The bot after the exchange answered the intended order: only an answer
   * with a positive executed quantity changes anything; a buy records the fill
   * price as the entry price.
   */
  function Apply(b: Bot, intent: Intent, answer: Option<Execution>): (r: Bot)
    ensures (intent.NoOrder? || intent.UnboundedBuy? || answer.None? || answer.value.executedQty <= 0.0) ==> r == b
    ensures intent.SellAll? && answer.Some? && answer.value.executedQty > 0.0 ==>
              r == b.(inTradePosition := false,
                      portfolio := UpdateOnSell(b.portfolio, answer.value.executedQty, answer.value.avgPrice))
    ensures intent.BuyFor? && answer.Some? && answer.value.executedQty > 0.0 ==>
              r == Bot(true, answer.value.avgPrice,
                       UpdateOnBuy(b.portfolio, answer.value.executedQty, answer.value.avgPrice))
  {
    match intent
    case NoOrder => b
    case UnboundedBuy(_) => b
    case SellAll(_) =>
      if answer.Some? && answer.value.executedQty > 0.0 then
        b.(inTradePosition := false,
           portfolio := UpdateOnSell(b.portfolio, answer.value.executedQty, answer.value.avgPrice))
      else b
    case BuyFor(_, _) =>
      if answer.Some? && answer.value.executedQty > 0.0 then
        Bot(true, answer.value.avgPrice, UpdateOnBuy(b.portfolio, answer.value.executedQty, answer.value.avgPrice))
      else b
  }

  /** Without a known entry price the open trade's profit reads as 0, so positive thresholds never exit it. */
  lemma UnknownEntryPriceNeverExits(b: Bot, price: real, buyConfidence: real, p: LiveParams)
    requires b.inTradePosition && b.buyPrice <= 0.0
    requires p.profitThreshold > 0.0 && p.stopLossThreshold > 0.0
    ensures IntentOf(b, price, buyConfidence, p) == NoOrder
  {
  }

  /** A quote of zero reads as a total loss of the open trade, so any stop-loss up to 100% sells everything. */
  lemma ZeroQuoteStopsOut(b: Bot, buyConfidence: real, p: LiveParams)
    requires b.inTradePosition && b.buyPrice > 0.0 && b.portfolio.tradingBtcBalance > 0.0
    requires p.stopLossThreshold <= 1.0
    ensures ProfitPct(0.0, b.buyPrice) == -1.0
    ensures IntentOf(b, 0.0, buyConfidence, p) == SellAll(b.portfolio.tradingBtcBalance)
  {
  }

  /** A position only changes on a filled order, and a fill at the decision price conserves the portfolio value. */
  lemma DecisionConservesValueAtFillPrice(b: Bot, price: real, buyConfidence: real, p: LiveParams, e: Execution)
    ensures var r := Apply(b, IntentOf(b, price, buyConfidence, p), Some(e));
            TotalValue(r.portfolio, e.avgPrice) == TotalValue(b.portfolio, e.avgPrice)
  {
    TradesConserveValueAtFillPrice(b.portfolio, e.executedQty, e.avgPrice);
  }
}
