# gcsBot-btc trading core in Dafny

This project models the decision and bookkeeping core of gcsBot-btc, a BTC/USDT trading bot. The model covers:

- the triple-barrier labeler that turns candles into training labels, and the data guards of the trainer;
- the backtest simulator that scores a strategy: a Flat/Long state machine with fees, slippage and a Sharpe ratio;
- the walk-forward optimizer, with its sliding train/test windows, acceptance bar, compounded capital and checkpoint/resume;
- the quick tester's simulation loop;
- the adaptive confidence controller;
- the live bot's portfolio bookkeeping, fill VWAP and entry/exit decisions;
- the data manager's pure helpers: macro column names, volume column choice, 30-day download batches and the keep-last merge;
- the regression targets and guards of `MLTrader`;
- the reinforcement-learning `TradingEnv`;
- the `RiskManager`.

Prices and balances are `real`. The classifier is replaced by its output: a sequence of entry probabilities, one per bar. Every model, exchange and optimizer call is replaced by an input: the probabilities, an oracle answering each walk-forward cycle's search and retrain, the fitted regressors, the exchange's order answer and the live quote.

Modules (one per source file):

| file | module | source |
|---|---|---|
| common.dfy | `Common` | shared `Option`/`Result`, clamping and counting helpers |
| costs.dfy | `Costs` | fee, slippage and minimum-trade constants |
| labeler.dfy | `Labeler` | src/model_trainer.py |
| backtest.dfy | `Backtest` | src/backtest.py |
| optimizer.dfy | `WalkForward` | src/optimizer.py |
| quick_tester.dfy | `QuickTester` | src/quick_tester.py |
| confidence.dfy | `Confidence` | src/confidence_manager.py |
| trading_bot.dfy | `TradingBot` | src/trading_bot.py |
| data_manager.dfy | `DataManager` | src/data_manager.py |
| ml_trading.dfy | `MlTrading` | src/ml_trading.py |
| trading_env.dfy | `TradingEnv` | src/ml.py |
| risk_management.dfy | `RiskManagement` | src/trading_logic/risk_management.py |

## Model

| member | source | states |
|---|---|---|
| Labeler.CreateLabelsTripleBarrier | src/model_trainer.py:26-50 | One label per close, each in {0,1,2}. A label is 0 exactly when the index lies in the last `future_periods` rows or its ATR is 0. Every other label equals the first-touch label `BarrierLabel` over the horizon. |
| Labeler.ScanProfitIff | src/model_trainer.py:36-41 | The scan answers 1 exactly when some bar reaches the profit barrier and no earlier bar reached the stop barrier. A bar that reaches both counts as profit. |
| Labeler.ScanStopIff | src/model_trainer.py:36-45 | The scan answers 2 exactly when the stop barrier is reached at a bar where the profit barrier is not, with neither barrier reached at any earlier bar. |
| Labeler.ScanNoneIff | src/model_trainer.py:35-47 | The scan finds nothing exactly when no bar in the horizon reaches either barrier. |
| Labeler.ScanIsDirectional | src/model_trainer.py:36-45 | The scan never answers the neutral label. |
| Labeler.ProfitTouchFirstLabelsUpside | src/model_trainer.py:29-41 | For an index inside the loop range with ATR not 0, a profit touch before any stop touch labels it 1. |
| Labeler.StopTouchFirstLabelsDownside | src/model_trainer.py:29-45 | For an index inside the loop range with ATR not 0, a stop touch before any profit touch labels it 2. |
| Labeler.TimeoutLabelsBySign | src/model_trainer.py:47-48 | With no touch in the horizon, the label is 1 when the close at the horizon is above the entry close and 2 otherwise, never 0. |
| Labeler.OutcomesAreExclusive | src/model_trainer.py:35-48 | Profit-first, stop-first and untouched are mutually exclusive, and exactly one of them holds. |
| Labeler.SameBarTieGoesToProfit | src/model_trainer.py:38-43 | When both barriers are first reached in the same bar, the label is 1. |
| Labeler.TrainGuard | src/model_trainer.py:110-139 | Training proceeds exactly when there are at least 500 raw rows and at least 20 labels each of classes 1 and 2. Fewer than 500 rows is the first refusal. |
| Labeler.DirectionalLabelsInPrefix | src/model_trainer.py:29 | When every label from position m on is neutral, at most m labels are 1 or 2. |
| Labeler.FitNeedsRoomBeyondHorizon | src/model_trainer.py:137-139 | Passing the class-count guard needs at least `future_periods + 40` rows, because the last `future_periods` rows are always neutral. |
| Backtest.Initial | src/backtest.py:30-36 | The start state is all cash and no BTC, so the holdings invariant holds and the state is solvent. |
| Backtest.BuyValue | src/backtest.py:77-79 | An entry's BTC, valued at the bar's price, is the capital less the fee, divided by the slippage factor. |
| Backtest.SaleProceedsPositive | src/backtest.py:66-68 | Selling a positive amount at a positive price yields positive capital. |
| Backtest.Step | src/backtest.py:57-84 | A bar keeps "Long holds only BTC, Flat holds only cash". Long exits exactly on the profit or stop signal, and Flat enters exactly on the probability-and-capital signal. At most one transition happens, and only a transition counts a trade. An exit pays slippage and fee on the whole position. An entry spends all cash at the slipped price less the fee. |
| Backtest.Simulate | src/backtest.py:55-84 | The loop records one value per bar and keeps the holdings invariant. |
| Backtest.StateAfter | src/backtest.py:55-84 | The state after the first k bars keeps the holdings invariant. |
| Backtest.SimulateStaysSolvent | src/backtest.py:55-84 | From a solvent state, every recorded value is positive and the run ends solvent. |
| Backtest.SimulateRecordsValueBeforeStep | src/backtest.py:57-84 | The value recorded for bar k is the state after k bars, marked at bar k's price, before bar k's transition. |
| Backtest.SimulateEndsInStateAfterAll | src/backtest.py:55-84 | The loop's final state is the state after all bars. |
| Backtest.PctChange | src/backtest.py:92 | One return per pair of consecutive values. A return is 0 exactly when the two values are equal, and positive exactly when the value rose. |
| Backtest.RelativeChangeSign | src/backtest.py:92 | A relative change is zero or positive exactly when the new value equals or exceeds the old one. |
| Backtest.SquaredDeviation | src/backtest.py:93-98 | A sum of squared deviations is never negative. |
| Backtest.SampleVariance | src/backtest.py:93-98 | The sample variance (n-1 denominator) is never negative. |
| Backtest.SumOfConstant | src/backtest.py:98 | A constant sequence sums to its length times the constant. |
| Backtest.MeanOfConstant | src/backtest.py:98 | The mean of a constant sequence is the constant. |
| Backtest.SquaredDeviationOfConstant | src/backtest.py:93 | Squared deviations from a constant sequence's common value vanish. |
| Backtest.VarianceOfConstant | src/backtest.py:93 | A constant sequence has zero sample variance. |
| Backtest.VarianceZeroMeansConstant | src/backtest.py:93 | Conversely, a zero sample variance means every element is equal. |
| Backtest.SquaredDeviationZero | src/backtest.py:93 | The squared deviations from m sum to zero only when every element is m. |
| Backtest.SharpeOf | src/backtest.py:92-98 | The ratio is annualized exactly when there are at least two returns and their sample variance is positive; it is then built from the returns' mean and sample variance. Otherwise it is 0. |
| Backtest.EqualReturnsHaveNoVariation | src/backtest.py:92-94 | Equal bar-to-bar returns, such as steady percentage growth, give a Sharpe ratio of 0. |
| Backtest.UnequalReturnsAreAnnualized | src/backtest.py:92-98 | Two different bar-to-bar returns always give an annualized ratio. |
| Backtest.ConstantSeriesHasNoVariation | src/backtest.py:92-94 | A series that never changes has a Sharpe ratio of 0. |
| Backtest.SharpePositiveIffMeanPositive | src/backtest.py:93-98 | Given a positive square root, the reported ratio is positive exactly when the Sharpe computation is annualized (at least two returns with non-zero variance) and its mean return is positive. |
| Backtest.BacktestCapitalPositive | src/backtest.py:55-90 | On positive closes the backtest ends with positive capital. The cash stays positive while flat, and a position still open at the end is sold at a positive price. |
| Backtest.RunBacktest | src/backtest.py:30-101 | `portfolio_values` has bars + 1 entries, starts at 100 and is all positive. The trade count is the loop's count. A position still open at the end is liquidated at the last close with the fee but no slippage. The Sharpe ratio is taken over the recorded values. |
| Backtest.PortfolioValueIsBeforeTransition | src/backtest.py:36-84 | `portfolio_values[k+1]` is the value before bar k's transition. |
| Backtest.TradeCountParity | src/backtest.py:71-82 | Every trade flips the position, so an odd number of trades means the position changed. |
| Backtest.OpenPositionIffOddTrades | src/backtest.py:35-87 | From the start state, the run ends Long exactly when the trade count is odd. |
| Backtest.QuietFlatRunIsIdle | src/backtest.py:59-84 | Flat with every probability at or below the threshold: the state never changes and every recorded value is the cash. |
| Backtest.NoSignalNoTrade | src/backtest.py:30-94 | With no probability above the threshold: capital 100, no trades, every value 100 and a Sharpe ratio of 0. |
| Backtest.BuyThenLiquidateLoses | src/backtest.py:74-89 | A one-bar run that buys is liquidated at the same price. It ends with `100*(1-fee)^2/(1+slippage)`, strictly below 100, after one trade, and no value is recorded for the liquidation. |
| WalkForward.WindowsTileTheCycle | src/optimizer.py:134-138 | The train and test slices have the sizes asked for. They are disjoint and together cover exactly `[start, start+train+test)`. The test slice lies inside the data whenever the loop runs the cycle. |
| WalkForward.TotalCycles | src/optimizer.py:128 | The cycle count is at least 1 and is the floor of the spare rows over the step, plus one: `(r-1)*step <= n-train-test < r*step`. |
| WalkForward.CyclesFromFormula | src/optimizer.py:134-186 | From a start row where a cycle fits, the loop runs `(n - train - test - start) / step + 1` cycles. Where none fits it runs none. |
| WalkForward.TotalCyclesCountsTheLoop | src/optimizer.py:125-186 | The logged `total_cycles` equals the number of cycles a fresh run performs. |
| WalkForward.StrategyParamsOf | src/optimizer.py:102 | The strategy parameters are exactly the profit threshold, stop-loss threshold and prediction confidence of the trial. |
| WalkForward.SampledStrategyIsProper | src/optimizer.py:91-93 | Every sampled strategy has profit and stop thresholds strictly between 0 and 1 and an entry threshold strictly between 0.5 and 1. |
| WalkForward.Objective | src/optimizer.py:66-114 | A shutdown prunes the trial. A model that fails to train scores -2.0. |
| WalkForward.FailedTrainingIsNeverAccepted | src/optimizer.py:97-160 | A trial that failed to train scores below the 0.1 acceptance bar. |
| WalkForward.SilentModelScoresZero | src/optimizer.py:105-114 | A model that never clears its confidence threshold scores exactly 0. |
| WalkForward.PositiveScoreIffPositiveMeanReturn | src/optimizer.py:105-114 | A trial scores above 0 exactly when its backtest's Sharpe computation is annualized (at least two returns with non-zero variance) and its mean return is positive. |
| WalkForward.LoadState | src/optimizer.py:45-59 | A missing or unreadable checkpoint, or one with every key absent, starts at row 0, cycle 1, no results and capital 100. |
| WalkForward.SaveState | src/optimizer.py:34-56 | The checkpoint has every key, and loading it gives back the saved start row, cycle, results and capital. The `cycle - 1` on save and `+ 1` on load cancel. |
| WalkForward.Growth | src/optimizer.py:171 | `1 + result_pct` is positive for a positive cycle capital. |
| WalkForward.CompoundOnce | src/optimizer.py:171-174 | A positive cumulative capital times the growth of a result with positive capital stays positive. |
| WalkForward.CycleStep | src/optimizer.py:157-188 | Every completed cycle advances the start row by `step_size` and the cycle by 1. An accepted cycle (best value above 0.1 and a retrain that succeeded) appends the final backtest's result for its start row and run, and multiplies capital by `1 + (capital - 100)/100` of that result. Any other cycle leaves results and capital unchanged. |
| WalkForward.TestPrices | src/optimizer.py:138 | `test_data` is the `test_size` closes starting at row `start + train_size`, in order. Positive closes stay positive. |
| WalkForward.TestProbas | src/optimizer.py:169 | One entry probability per test bar: the retrained model's probability at that bar's row. |
| WalkForward.ResultOf | src/optimizer.py:169-172 | The result row is `run_backtest` of the retrained model on the test window: its final capital, its annualised Sharpe ratio and the test period. Its capital is positive. |
| WalkForward.FinalBacktest | src/optimizer.py:169-172 | The final backtest the loop uses is defined for every start row where a cycle fits, equals `ResultOf` there, and always ends with positive capital. |
| WalkForward.Drive | src/optimizer.py:134-188 | One checkpoint per completed cycle, the last one holding the final state. The loop stops either where no cycle fits or at a shutdown, which writes no checkpoint. Results only grow. The final backtest is an argument; `RunWalkForward` passes `FinalBacktest`. |
| WalkForward.UninterruptedRunCompletesEveryCycle | src/optimizer.py:134-188 | Without a shutdown the loop completes every cycle that fits, and writes a checkpoint for each. |
| WalkForward.CapitalCompoundsOverAcceptedCycles | src/optimizer.py:171-180 | The final capital is the starting capital compounded over exactly the results the loop appended. |
| WalkForward.CumulativeCapitalStaysPositive | src/optimizer.py:160-188 | When the final backtest always ends with positive capital, every result the loop appends has positive capital, and a positive cumulative capital stays positive through every cycle. |
| WalkForward.OneResultPerAcceptedCycle | src/optimizer.py:160-184 | The number of results appended equals the number of accepted cycles. |
| WalkForward.PersistedTrajectoryIgnoresModel | src/optimizer.py:131-188 | A resumed run, which starts without a model, writes the same checkpoints and reaches the same state as a run that kept its model. |
| WalkForward.RunWalkForward | src/optimizer.py:116-204 | Too little data (fewer than train + test rows) is reported with the rows needed and available. A step size of 0 with enough data is the division error of `total_cycles`. Otherwise the run resumes from the loaded checkpoint with at least one cycle planned. |
| WalkForward.ExportOf | src/optimizer.py:191-204 | Parameters are exported exactly when some cycle result exists, the last retrain produced a model and best parameters exist; the export is those parameters. |
| WalkForward.FreshRunPerformsTotalCycles | src/optimizer.py:128-188 | From no checkpoint and without a shutdown, a run writes `total_cycles` checkpoints and ends at cycle `total_cycles + 1`. |
| WalkForward.RunCapitalStaysPositive | src/optimizer.py:131-188 | In a run over positive closes, every result appended has positive capital and a positive resumed capital stays positive. A fresh run, starting at 100, ends with positive cumulative capital. |
| WalkForward.ResumeStartsWhereTheRunStopped | src/optimizer.py:45-59 | Resuming from a run's last checkpoint continues at the same row and cycle, with the same results and capital. |
| WalkForward.FailedRetrainSuppressesEarlierExport | src/optimizer.py:160-204 | After an accepted cycle, a later cycle whose retrain fails clears the model but keeps the parameters, so nothing is exported. |
| QuickTester.Initial | src/quick_tester.py:90-116 | The start state is Flat with no BTC; its cash is `initial_capital`, 1000 when not given. |
| QuickTester.TradeSize | src/quick_tester.py:136 | With non-negative cash and a risk fraction in [0, 1], the trade size lies between 0 and the cash; a fraction of 1 risks all of it. |
| QuickTester.Sell | src/quick_tester.py:129-132 | A sell adds the position's value at the slipped price, less the fee, to capital, and zeroes the BTC. |
| QuickTester.Buy | src/quick_tester.py:138-144 | A buy pays the trade size plus its fee, buys trade size worth at the slipped price, and records the slipped price. It fails exactly at a zero price, where the BTC amount would be infinite. |
| QuickTester.Step | src/quick_tester.py:119-147 | A bar fails exactly when a Flat state's entry signal fires at a zero close. Otherwise Long exits exactly on the profit or stop signal, and Flat enters exactly when the probability (0 when missing) beats the threshold, capital exceeds 10 and the trade size exceeds 10. At most one transition happens. The record's value is taken after the transition, and its flag is 1 exactly when a trade happened. |
| QuickTester.Simulate | src/quick_tester.py:119-147 | A completed loop appends exactly one record per bar; a failed one names a bar whose close is 0. |
| QuickTester.StateAfter | src/quick_tester.py:119-147 | The state after k bars is well formed; it is missing only when one of those k closes is 0. |
| QuickTester.RecordIsValueAfterTransition | src/quick_tester.py:146-147 | In a completed loop, record k is the state after k+1 bars, marked at bar k's price. |
| QuickTester.FlagMarksPositionChange | src/quick_tester.py:121-147 | In a completed loop, record k's flag is 1 exactly when bar k changed the position. |
| QuickTester.SimulateEndsInStateAfterAll | src/quick_tester.py:119-147 | The loop completes exactly when the state after all bars exists, and its final state is that state. |
| QuickTester.FailsOnlyOnZeroPriceEntry | src/quick_tester.py:135-139 | A failed loop stops at a bar where the state reached so far is Flat, the entry signal fires and the close is 0. |
| QuickTester.LastRecordMarksOpenPositionToMarket | src/quick_tester.py:119-149 | In a completed loop, the last record is the final state marked at the last price, and an open position stays open: there is no forced liquidation. |
| QuickTester.MissingPredictionNeverEnters | src/quick_tester.py:135 | A bar with no prediction leaves a Flat state unchanged at any price and records the cash with flag 0. |
| QuickTester.SamePriceRoundTripLoses | src/quick_tester.py:124-144 | Buying and selling at the same non-zero price loses fee and slippage: capital ends strictly lower. |
| Confidence.New | src/confidence_manager.py:11-24 | Construction takes the initial threshold as given, without clamping, and starts the trade count at 0. |
| Confidence.NewWithDefaults | src/confidence_manager.py:11-24 | The defaults are learning rate 0.05 and bounds [0.505, 0.85]. The current threshold starts at the initial one, unclamped, and no trade is counted. |
| Confidence.GetConfidence | src/confidence_manager.py:49-51 | The reported threshold is the current one, and lies within the bounds whenever the manager is within them. |
| Confidence.Update | src/confidence_manager.py:28-45 | An update counts one trade, changes nothing but the threshold and the count, and leaves the threshold within the bounds when min <= max. |
| Confidence.ClipStepBound | src/confidence_manager.py:38-45 | Clipping back into the bounds never increases the distance moved. |
| Confidence.UpdateStepIsBounded | src/confidence_manager.py:38-45 | From an in-bounds threshold, one update moves it by at most `learning_rate * 0.02`. |
| Confidence.UpdateMovesAgainstPnl | src/confidence_manager.py:38-45 | With a positive learning rate, a profit never raises the threshold and a loss never lowers it. A PnL of zero leaves an in-bounds threshold unchanged. |
| Confidence.UpdateSaturates | src/confidence_manager.py:38 | A PnL beyond +-0.02 has exactly the effect of +-0.02. |
| Confidence.UpdateAll | src/confidence_manager.py:34-45 | Feeding k results counts k trades, changes only the threshold and count, and ends in bounds. |
| Confidence.UpdateAllCons | src/confidence_manager.py:34-45 | Feeding a sequence is one update followed by the rest. |
| Confidence.UpdateOnLargeGain | src/confidence_manager.py:38-45 | A gain of at least 2% lowers an in-bounds threshold by one full step, floored at the minimum. |
| Confidence.UpdateOnLargeLoss | src/confidence_manager.py:38-45 | A loss of at least 2% raises an in-bounds threshold by one full step, capped at the maximum. |
| Confidence.StepsIsProduct | src/confidence_manager.py:41 | k full steps added one at a time total k times the step. |
| Confidence.RepeatedGainsFloorAtMin | src/confidence_manager.py:38-45 | k large gains lower the threshold by k full steps, never below the minimum. |
| Confidence.RepeatedLossesCapAtMax | src/confidence_manager.py:38-45 | k large losses raise the threshold by k full steps, never above the maximum. |
| Confidence.DefaultThresholdAboveCoinFlip | src/confidence_manager.py:11-45 | With the default bounds, any update leaves the threshold strictly above 0.5. |
| TradingBot.NewPortfolio | src/trading_bot.py:36-38 | A new portfolio holds nothing. |
| TradingBot.TotalValue | src/trading_bot.py:89-92 | The total is the trading cash plus all BTC, trading and long-term, at the price; with non-negative holdings and price it is at least the cash. |
| TradingBot.SyncWithLiveBalance | src/trading_bot.py:40-69 | Sync succeeds exactly with a client, a live quote and a non-zero price. On success, working capital is the smaller of the live total and the allocation cap. That capital is split into long-term BTC worth the hold share and trading cash worth the rest. The trading BTC is 0, and nothing else changes. |
| TradingBot.SyncedValueIsWorkingCapital | src/trading_bot.py:57-92 | After a sync, the portfolio's total value at the sync price is the working capital, never more than the allocation cap. |
| TradingBot.UpdateOnBuy | src/trading_bot.py:75-78 | A buy pays amount times price in cash, adds the amount to the trading BTC, and changes nothing else. |
| TradingBot.UpdateOnSell | src/trading_bot.py:82-85 | A sell receives amount times price in cash, removes the amount from the trading BTC, and changes nothing else. |
| TradingBot.BuySellRoundTrip | src/trading_bot.py:75-85 | A sell undoes a buy of the same amount at the same price, and the reverse. |
| TradingBot.TradesConserveValueAtFillPrice | src/trading_bot.py:75-92 | A buy or sell leaves the total value at the fill price unchanged. |
| TradingBot.TradeSize | src/trading_bot.py:71-73 | With non-negative cash and a risk fraction in [0, 1], the trade size lies between 0 and the trading cash; a fraction of 1 risks all of it. |
| TradingBot.ExecutionOf | src/trading_bot.py:215-226 | A raised exchange error gives no execution. An order without fills reports its own price and executed quantity, 0 when absent. With fills, there is an execution exactly when their quantities do not sum to 0, since the division otherwise raises and is caught. |
| TradingBot.NotionalBounds | src/trading_bot.py:217-218 | With positive quantities and prices in [lo, hi], the notional lies between lo and hi times the total quantity. |
| TradingBot.QuotientBetween | src/trading_bot.py:217 | An amount between lo and hi times a positive total divides to a quotient in [lo, hi]. |
| TradingBot.VwapWithinFillPrices | src/trading_bot.py:216-219 | With fills of positive quantity, the average price lies between the lowest and highest fill price. |
| TradingBot.IntentOf | src/trading_bot.py:251-278 | In a position, the bot sells its whole trading BTC exactly when the profit or stop signal fires and it holds some. Out of a position, it buys exactly when the confidence beats the threshold (0.75 when absent), the cash covers the trade size and the size exceeds 10 USDT. A buy's quantity is the size divided by the price; at a zero price the quantity is unbounded and the order is marked as such. |
| TradingBot.Apply | src/trading_bot.py:259-282 | The bot changes nothing unless an order executed a positive quantity; an unbounded buy changes nothing. A sell then books the fill and leaves the position. A buy books the fill, enters the position and records the fill price as the entry price. |
| TradingBot.UnknownEntryPriceNeverExits | src/trading_bot.py:252-254 | In a position with no known entry price (0 or less), positive thresholds never trigger an exit. |
| TradingBot.ZeroQuoteStopsOut | src/trading_bot.py:251-260 | At a quote of 0 an open trade with a known entry price reads as a 100% loss, so any stop-loss up to 100% sells the whole trading BTC. |
| TradingBot.DecisionConservesValueAtFillPrice | src/trading_bot.py:251-284 | Whatever the bot decides and the exchange executes, the portfolio value at the fill price is unchanged. |
| DataManager.LowerChar | src/data_manager.py:179 | Lowercasing leaves no upper-case ASCII letter and keeps every other character. |
| DataManager.Lower | src/data_manager.py:179 | Lowercasing a string acts on each character and keeps the length. |
| DataManager.RemoveAll | src/data_manager.py:179 | Removing a pattern only drops characters: the result is a sub-multiset of the input. |
| DataManager.RemoveAllSingleChar | src/data_manager.py:179 | After removing a one-character pattern, that character no longer occurs. |
| DataManager.RemoveAllKeepsAbsent | src/data_manager.py:179 | Removing a pattern never introduces a character. |
| DataManager.RemoveAllAbsent | src/data_manager.py:179 | A pattern whose first character does not occur removes nothing. |
| DataManager.RemoveAllTrailing | src/data_manager.py:179 | A pattern at the end of the string is removed and the rest kept. |
| DataManager.CleanName | src/data_manager.py:179-201 | The cleaned ticker contains no '^' and is no longer than the ticker. |
| DataManager.MacroColumn | src/data_manager.py:180-203 | The macro column name contains no '^' and ends in "_close". |
| DataManager.MacroColumnNames | src/data_manager.py:179-190 | The four tickers clean to "dx", "vix", "gc" and "tnx". |
| DataManager.PipelineMacroColumns | src/data_manager.py:188-203 | The combined frame carries exactly one macro column per ticker, whether or not its download succeeded. |
| DataManager.ColumnIsNotTrainers | src/data_manager.py:179-203 | No macro column is spelled "dxy_close". |
| DataManager.TrainerMissesDxyColumn | src/data_manager.py:179-203 | The DXY column is written as "dx_close", and "dxy_close", the column the trainer tests for, is not among the pipeline's macro columns. |
| DataManager.TrainerDxyColumnFixed | src/model_trainer.py:97 | The column the trainer should test for is the one the pipeline writes for DXY, and it is among the pipeline's columns. |
| DataManager.FirstPresent | src/data_manager.py:58 | The first candidate present, with none before it present; nothing exactly when no candidate is present. |
| DataManager.PickVolumeColumn | src/data_manager.py:57-64 | The chosen volume column is present and is the first present name in priority order. The error, carrying the names tried, is raised exactly when none is present. |
| DataManager.BtcVolumePreferred | src/data_manager.py:57-58 | When "Volume_(BTC)" is present it is chosen. |
| DataManager.Schedule | src/data_manager.py:79-96 | Batches lie in [start, end), each spans at most 30 days, the first starts at the cursor, and each starts where the previous ended. |
| DataManager.NextCut | src/data_manager.py:83 | A request from a cursor before the end stops after the cursor and no later than the end. It spans at most 30 days, and exactly 30 days unless it stops at the end. |
| DataManager.ScheduleKeepsAnsweredBatches | src/data_manager.py:82-94 | Every kept batch is a full request, from its start to `min(start + 30 days, end)`, that returned candles. A download whose last batch ends before the end date stopped because the next request came back empty. |
| DataManager.FullScheduleCoversRange | src/data_manager.py:82-94 | When every request returns data, the last batch ends at the end date and the batch count is the span divided by 30 days, rounded up. |
| DataManager.Insert | src/data_manager.py:115-134 | Inserting a row with a new timestamp keeps the rows strictly increasing by timestamp and adds exactly that row. |
| DataManager.DedupeKeepLast | src/data_manager.py:114-115 | The deduplicated rows are strictly increasing by timestamp and keep every timestamp. |
| DataManager.DedupeKeepsExactlySurvivors | src/data_manager.py:114 | A row survives exactly when no later row has its timestamp. |
| DataManager.MergeFrames | src/data_manager.py:113-134 | The merge is strictly increasing and has exactly the timestamps of both frames. |
| DataManager.FreshDataWins | src/data_manager.py:113-114 | A downloaded row that is the last with its timestamp is in the merge, and is the only row there with that timestamp. |
| MlTrading.SeqMax | src/ml_trading.py:50 | The maximum bounds every element and is one of them. |
| MlTrading.SeqMin | src/ml_trading.py:52 | The minimum bounds every element and is one of them. |
| MlTrading.LookAhead | src/ml_trading.py:46-52 | The look-ahead of row i is the five closes i+1 .. i+5. |
| MlTrading.TargetsAt | src/ml_trading.py:46-52 | Targets exist exactly when five later rows exist. The future max and min bound the next five closes and are attained among them. |
| MlTrading.MinTargetBelowMaxTarget | src/ml_trading.py:50-52 | The stop target never exceeds the profit target. |
| MlTrading.TargetsIgnoreOwnClose | src/ml_trading.py:50-52 | Changing a row's own close leaves its targets unchanged. |
| MlTrading.TrainingRows | src/ml_trading.py:50-54 | The kept rows, in increasing order, are exactly those with targets and complete features. |
| MlTrading.AllCompleteDropsLastWindow | src/ml_trading.py:50-54 | With complete features, exactly the last five rows are dropped. |
| MlTrading.RowsFromBound | src/ml_trading.py:50-54 | At most all but the last five rows are kept. |
| MlTrading.Train | src/ml_trading.py:62-66 | Training refuses exactly when fewer than 50 rows are kept, and otherwise fits on exactly the kept rows. |
| MlTrading.ShortHistoryNeverTrains | src/ml_trading.py:50-66 | Fewer than 55 closes can never train. |
| MlTrading.Values | src/ml_trading.py:128-133 | A complete feature row's values are its entries, in order. |
| MlTrading.Predict | src/ml_trading.py:124-138 | Predict fails exactly when a model is missing and gives nothing exactly for a row with a missing feature. Otherwise it gives both models' outputs on the row. |
| MlTrading.TrainedModelsPredict | src/ml_trading.py:124-138 | The models a successful training leaves behind predict on every complete row. |
| TradingEnv.New | src/ml.py:7-14 | A new environment is all cash, with price 0 until reset; the balance is `initial_balance`, 1000 when not given. |
| TradingEnv.Reset | src/ml.py:18-24 | Reset restores all cash at the fictitious price 30000 and observes the total. |
| TradingEnv.Step | src/ml.py:26-40 | A buy at price 0 fails. Otherwise a buy empties the cash, a sell empties the BTC and any other action holds. The price never changes. The total is recomputed from the holdings. The reward is the total less the initial balance, and the episode is done exactly when the total is 0 or less. |
| TradingEnv.BuyAndSellMoveEverything | src/ml.py:28-33 | A buy moves all cash into BTC at the current price, and a sell moves all BTC into cash. |
| TradingEnv.StepConservesTotal | src/ml.py:28-35 | Every successful action conserves the marked-to-market total. |
| TradingEnv.FirstStepAfterResetEarnsNothing | src/ml.py:18-39 | Right after reset, every action succeeds with reward 0. The episode is done only for a balance of 0 or less. |
| TradingEnv.BuyBeforeResetFails | src/ml.py:13-33 | Before the first reset the price is 0, so a buy fails while hold and sell succeed. |
| RiskManagement.NewWithDefaults | src/trading_logic/risk_management.py:4-6 | The defaults are risk 0.01 and max loss 0.05. |
| RiskManagement.CalculateTradeSize | src/trading_logic/risk_management.py:8-12 | The size fails exactly when the price or the stop percentage is 0. Otherwise the loss at the stop equals the capital at risk. |
| RiskManagement.TradeSizeLinearInBalance | src/trading_logic/risk_management.py:10-11 | The size is additive and homogeneous in the balance. |
| RiskManagement.TradeSizeDecreasingInStop | src/trading_logic/risk_management.py:10-11 | A wider stop never gives a larger size. |
| RiskManagement.DivAntitone | src/trading_logic/risk_management.py:11 | A larger positive divisor gives no more. |
| RiskManagement.CheckMaxLoss | src/trading_logic/risk_management.py:14-18 | The check holds exactly when the loss has reached the limit. |
| RiskManagement.MaxLossBoundaryInclusive | src/trading_logic/risk_management.py:16 | The limit itself counts as reached, a larger loss stays reached and a smaller one does not. |

## Findings

| source | as written | input that shows it | evidently intended | confidence | as-written member | corrected member |
|---|---|---|---|---|---|---|
| src/data_manager.py:179,189 and src/model_trainer.py:97 | The ticker cleaning strips "-y.nyb" from "dx-y.nyb", so the DXY column is written as "dx_close". The trainer tests for "dxy_close", finds it missing and fills both DXY features with 0. | the DXY ticker "DX-Y.NYB" | the trainer reads the DXY column that the data pipeline writes | not executed | DataManager.TrainerMissesDxyColumn | DataManager.TrainerDxyColumnFixed |

One more behaviour is modelled as written rather than as a finding, because its intent is unclear. Every retrain in the walk-forward loop overwrites the model, even one that fails, but a failed retrain leaves the last good parameters in place. The final export needs both, so a later failed retrain suppresses the export of an earlier accepted cycle (`WalkForward.FailedRetrainSuppressesEarlierExport`).

## Left out

- LightGBM, scikit-learn, `StandardScaler`, `predict_proba`, the random forests and stable-baselines PPO are foreign libraries. They are replaced by inputs: entry probabilities, the fitted regressors, and the per-cycle search oracle.
- The Optuna study, the median pruner, parallel trials and the signal handlers are library control flow and concurrency. A shutdown is the oracle's `Interrupted` answer.
- Feature engineering (the `ta` indicators, pandas rolling and ewm windows, `_prepare_features`, indicators.py and strategies.py) is float statistics over pandas. Feature completeness is an input.
- Network calls are left out: the Binance and yfinance clients, order placement, src/client.py, src/data_fetcher.py, src/trading.py, src/transactions.py, src/trader.py and order_execution.py. Their answers are parameters: the live quote, the order answer, whether a download batch returns data.
- File, CSV, JSON and joblib persistence, the trade log, bot state and `generate_report` are I/O. The checkpoint is modelled only as a record with optional keys, read and written.
- The live loop's sleeps and retries, logging, the CLI (run.py, main.py), and src/config.py are out of scope.
- `_fetch_and_manage_btc_data`'s choice between the stored file, the Kaggle bootstrap and a fresh download depends on the file system. Only its merge step is modelled.
- The Kaggle column renaming, timestamp parsing and `astype(float)` are left out. Only the volume column choice is modelled.
- The macro frames' reindex, forward/backward fill and join are left out. Only the column names are modelled.
- `get_current_price` and `_prepare_prediction_data` are exchange and pandas plumbing.
- Floating-point rounding, including the 6-decimal formatting of the order quantity, is left out. All arithmetic is exact over `real`.
- Backtest.RunBacktest, Backtest.BacktestCapitalPositive, Backtest.Simulate, Backtest.Step, Backtest.StateAfter, Backtest.SharpeOf, Backtest.PctChange, WalkForward.Objective: every price is assumed positive (`AllPositive`). For PctChange the assumption is on the portfolio values, which `Backtest.SimulateStaysSolvent` proves positive. A zero price or value makes numpy divide by zero and yields inf/nan, which is not modelled.
- WalkForward.RunWalkForward, WalkForward.ResultOf, WalkForward.FinalBacktest: the history is assumed `Priced`. Every close is positive, as for the backtest, and the square-root parameter is positive on positive inputs, as `np.sqrt` is. The lemmas about a run carry the same assumption.
- QuickTester.Simulate: an entry at a zero close ends the model's loop with `ZeroPriceEntry`. The source goes on with an infinite BTC amount and nan profits, which are not modelled.
- TradingBot.IntentOf: at a zero price the buy quantity is infinite. The model marks the order `UnboundedBuy` and treats it as refused by the exchange; the exchange's actual answer is not modelled.
- Backtest.SharpePositiveIffMeanPositive: the square root is a parameter, so the Sharpe value is stated only up to its sign.
- Confidence.RepeatedGainsFloorAtMin: the total move is stated with the sum `Steps(k, step)`, not as a product. `Confidence.StepsIsProduct` relates the two.
- WalkForward.Drive: the search and the retrain are an oracle keyed by the cycle's start row. It gives the best trial's value and, when the retrain succeeds, the parameters and the retrained model's entry probability for every row. A resumed run is assumed to get the same answers as the original run. The final backtest is not part of the oracle: `FinalBacktest` runs `Backtest.RunBacktest` on the test window.
- WalkForward.LoadState: a hand-edited checkpoint with a negative start index is not representable, because the start index is a `nat`.
- WalkForward.RunWalkForward: a step size of 0 with enough data divides by zero in the source; the model reports it as `ZeroStep` and does not run the loop.
- DataManager.Lower: lowercasing is ASCII only. The tickers involved are ASCII.
- TradingBot.ExecutionOf: Python's truthiness test on the order dictionary is modelled as "the exchange answered". An empty dictionary is not distinguished.
- MlTrading.TrainingRows: only the missing values caused by the targets and by incomplete features are dropped. Other NaN sources are folded into feature completeness.
