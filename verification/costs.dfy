/** Transaction-cost constants shared by the two simulators (backtest and quick tester). */
module Costs {
  /** Proportional exchange fee charged on every simulated fill (0.1%). */
  const FEE_RATE: real := 0.001

  /** Adverse price move assumed for every simulated market order (0.05%). */
  const SLIPPAGE_RATE: real := 0.0005

  /** Smallest capital, in USDT, with which a simulator or the live bot opens a position. */
  const MIN_TRADE_USDT: real := 10.0
}
