/**
 * The walk-forward optimizer (`WalkForwardOptimizer`): a window that slides
 * over the history by `step_size` rows, a per-cycle hyperparameter search on
 * the train window whose winner is accepted only above a Sharpe of 0.1, a
 * capital figure compounded over accepted cycles, and a checkpoint written
 * after every completed cycle so that a stopped run can resume.
 *
 * The Optuna search and the model training are an oracle keyed by the cycle's
 * start row; a shutdown request is the oracle answering `Interrupted`. The
 * final backtest of an accepted cycle is `Backtest.RunBacktest` of the
 * retrained model on the cycle's test window.
 */
module WalkForward {
  import opened Common
  import opened Backtest

  const INITIAL_CUMULATIVE_CAPITAL: real := 100.0
  /** A cycle's best trial must score strictly above this to be kept. */
  const ACCEPTANCE_SHARPE: real := 0.1
  /** Score of a trial whose model failed to train. */
  const FAILED_TRAINING_SCORE: real := -2.0

  datatype WfoConfig = WfoConfig(trainSize: nat, testSize: nat, stepSize: nat)

  /** Rows one cycle needs: its train window followed by its test window. */
  function CycleSpan(cfg: WfoConfig): nat {
    cfg.trainSize + cfg.testSize
  }

  // ---------------------------------------------------------------------------
  // Windows
  // ---------------------------------------------------------------------------

  /** The half-open row range [lo, hi) of an `iloc` slice. */
  datatype Window = Window(lo: nat, hi: nat)

  predicate InWindow(w: Window, row: int) {
    w.lo <= row < w.hi
  }

  function TrainWindow(start: nat, cfg: WfoConfig): Window {
    Window(start, start + cfg.trainSize)
  }

  function TestWindow(start: nat, cfg: WfoConfig): Window {
    Window(start + cfg.trainSize, start + cfg.trainSize + cfg.testSize)
  }

  /** A cycle may run at `start` when its test window ends inside the data. */
  predicate CycleFits(start: nat, n: nat, cfg: WfoConfig) {
    start + CycleSpan(cfg) <= n
  }

  /**
   * The train window is followed immediately by the test window: together they
   * cover [start, start + train + test) exactly once, with the sizes asked for,
   * and inside the data whenever the cycle fits.
   */
  lemma WindowsTileTheCycle(start: nat, n: nat, cfg: WfoConfig, row: int)
    ensures TrainWindow(start, cfg).hi - TrainWindow(start, cfg).lo == cfg.trainSize
    ensures TestWindow(start, cfg).hi - TestWindow(start, cfg).lo == cfg.testSize
    ensures !(InWindow(TrainWindow(start, cfg), row) && InWindow(TestWindow(start, cfg), row))
    ensures InWindow(TrainWindow(start, cfg), row) || InWindow(TestWindow(start, cfg), row)
            <==> start <= row < start + CycleSpan(cfg)
    ensures CycleFits(start, n, cfg) && InWindow(TestWindow(start, cfg), row) ==> 0 <= row < n
  {
  }

  // ---------------------------------------------------------------------------
  // Cycle count
  // ---------------------------------------------------------------------------

  /** The number of loop iterations from `start`: the cycles that still fit. */
  function CyclesFrom(start: nat, n: nat, cfg: WfoConfig): nat
    requires cfg.stepSize > 0
    decreases n - start
  {
    if !CycleFits(start, n, cfg) then 0 else 1 + CyclesFrom(start + cfg.stepSize, n, cfg)
  }

  /** `total_cycles`: floor((n - train - test) / step) + 1, computed only once the data suffices. */
  function TotalCycles(n: nat, cfg: WfoConfig): (r: int)
    requires cfg.stepSize > 0 && n >= CycleSpan(cfg)
    ensures r >= 1
    ensures (r - 1) * cfg.stepSize <= n - CycleSpan(cfg) < r * cfg.stepSize
  {
    (n - CycleSpan(cfg)) / cfg.stepSize + 1
  }

  lemma {:induction false} CyclesFromFormula(start: nat, n: nat, cfg: WfoConfig)
    requires cfg.stepSize > 0
    ensures CycleFits(start, n, cfg) ==> CyclesFrom(start, n, cfg) == (n - CycleSpan(cfg) - start) / cfg.stepSize + 1
    ensures !CycleFits(start, n, cfg) ==> CyclesFrom(start, n, cfg) == 0
    decreases n - start
  {
    if CycleFits(start, n, cfg) {
      var a := n - CycleSpan(cfg) - start;
      CyclesFromFormula(start + cfg.stepSize, n, cfg);
      if a >= cfg.stepSize {
        DivSubOne(a, cfg.stepSize);
      } else {
        DivUnique(a, cfg.stepSize, 0, a);
      }
    }
  }

  /** The logged cycle count is exactly the number of cycles a fresh run performs. */
  lemma TotalCyclesCountsTheLoop(n: nat, cfg: WfoConfig)
    requires cfg.stepSize > 0 && n >= CycleSpan(cfg)
    ensures CyclesFrom(0, n, cfg) == TotalCycles(n, cfg)
  {
    CyclesFromFormula(0, n, cfg);
  }

  // ---------------------------------------------------------------------------
  // Trials
  // ---------------------------------------------------------------------------

  /** One point of the search space. */
  datatype TrialParams = TrialParams(
    nEstimators: int, learningRate: real, numLeaves: int, maxDepth: int, minChildSamples: int,
    featureFraction: real, baggingFraction: real, baggingFreq: int, lambdaL1: real, lambdaL2: real,
    futurePeriods: int, profitMult: real, stopMult: real,
    profitThreshold: real, stopLossThreshold: real, predictionConfidence: real)

  /** The ranges the sampler draws from (bounds inclusive). */
  predicate InSearchSpace(t: TrialParams) {
    && 200 <= t.nEstimators <= 800
    && 0.01 <= t.learningRate <= 0.2
    && 30 <= t.numLeaves <= 100
    && 7 <= t.maxDepth <= 25
    && 20 <= t.minChildSamples <= 70
    && 0.5 <= t.featureFraction <= 1.0
    && 0.5 <= t.baggingFraction <= 1.0
    && 1 <= t.baggingFreq <= 7
    && 0.00000001 <= t.lambdaL1 <= 10.0
    && 0.00000001 <= t.lambdaL2 <= 10.0
    && 5 <= t.futurePeriods <= 120
    && 0.5 <= t.profitMult <= 5.0
    && 0.5 <= t.stopMult <= 5.0
    && 0.003 <= t.profitThreshold <= 0.05
    && 0.003 <= t.stopLossThreshold <= 0.05
    && 0.52 <= t.predictionConfidence <= 0.90
  }

  /**
   * Every sampled strategy has profit and stop thresholds that are proper
   * fractions and an entry threshold above one half.
   */
  lemma SampledStrategyIsProper(t: TrialParams)
    requires InSearchSpace(t)
    ensures var p := StrategyParamsOf(t);
            && 0.0 < p.profitThreshold < 1.0 && 0.0 < p.stopLossThreshold < 1.0
            && 0.5 < p.predictionConfidence < 1.0
  {
  }

  /** The strategy subset handed to the backtest: exactly the three strategy keys. */
  function StrategyParamsOf(t: TrialParams): (p: StrategyParams)
    ensures p.profitThreshold == t.profitThreshold
    ensures p.stopLossThreshold == t.stopLossThreshold
    ensures p.predictionConfidence == t.predictionConfidence
  {
    StrategyParams(t.profitThreshold, t.stopLossThreshold, t.predictionConfidence)
  }

  datatype TrialScore = Pruned | Score(value: real)

  /**
   * `_objective`. `trained` is what the trainer produced for the train window:
   * `None` when training failed, otherwise the model's entry probability for
   * every test bar. `sqrt` is the square root the Sharpe ratio uses.
   */
  function Objective(shutdownRequested: bool, t: TrialParams, trained: Option<seq<real>>,
                     testPrices: seq<real>, sqrt: real -> real): (r: TrialScore)
    requires AllPositive(testPrices)
    requires trained.Some? ==> |trained.value| == |testPrices|
    requires forall x :: x > 0.0 ==> sqrt(x) > 0.0
    ensures r.Pruned? <==> shutdownRequested
    ensures !shutdownRequested && trained.None? ==> r == Score(FAILED_TRAINING_SCORE)
  {
    if shutdownRequested then Pruned
    else match trained
      case None => Score(FAILED_TRAINING_SCORE)
      case Some(probas) =>
        var result := RunBacktest(testPrices, probas, StrategyParamsOf(t));
        Score(SharpeValue(result.sharpe, sqrt))
  }

  /** A trial whose model failed to train scores below the acceptance bar. */
  lemma FailedTrainingIsNeverAccepted(t: TrialParams, testPrices: seq<real>, sqrt: real -> real)
    requires AllPositive(testPrices)
    requires forall x :: x > 0.0 ==> sqrt(x) > 0.0
    ensures var r := Objective(false, t, None, testPrices, sqrt);
            r.Score? && r.value <= ACCEPTANCE_SHARPE
  {
  }

  /** A model that never clears its confidence threshold trades nothing and scores exactly 0. */
  lemma SilentModelScoresZero(t: TrialParams, probas: seq<real>, testPrices: seq<real>, sqrt: real -> real)
    requires AllPositive(testPrices) && |probas| == |testPrices|
    requires forall x :: x > 0.0 ==> sqrt(x) > 0.0
    requires forall k :: 0 <= k < |probas| ==> probas[k] <= t.predictionConfidence
    ensures Objective(false, t, Some(probas), testPrices, sqrt) == Score(0.0)
  {
    NoSignalNoTrade(testPrices, probas, StrategyParamsOf(t));
  }

  /**
   * A trial scores above zero exactly when its backtest's mean bar return is
   * positive: the square roots only scale the ratio.
   */
  lemma PositiveScoreIffPositiveMeanReturn(t: TrialParams, probas: seq<real>, testPrices: seq<real>, sqrt: real -> real)
    requires AllPositive(testPrices) && |probas| == |testPrices|
    requires forall x :: x > 0.0 ==> sqrt(x) > 0.0
    ensures var sh := RunBacktest(testPrices, probas, StrategyParamsOf(t)).sharpe;
            Objective(false, t, Some(probas), testPrices, sqrt).value > 0.0
            <==> sh.Annualized? && sh.meanReturn > 0.0
  {
    var sh := RunBacktest(testPrices, probas, StrategyParamsOf(t)).sharpe;
    SharpePositiveIffMeanPositive(sh, sqrt);
  }

  // ---------------------------------------------------------------------------
  // Driver state and checkpoints
  // ---------------------------------------------------------------------------

  datatype CycleResult = CycleResult(period: string, capital: real, sharpe: real)

  /** What `_load_wfo_state` returns and the loop carries. */
  datatype WfoState = WfoState(startIndex: nat, cycle: int, results: seq<CycleResult>, cumulativeCapital: real)

  function FreshState(): WfoState {
    WfoState(0, 1, [], INITIAL_CUMULATIVE_CAPITAL)
  }

  /** The checkpoint's JSON object; a key may be absent. */
  datatype CheckpointRecord = CheckpointRecord(
    lastCompletedCycle: Option<int>,
    nextStartIndex: Option<nat>,
    resultsSoFar: Option<seq<CycleResult>>,
    cumulativeCapital: Option<real>)

  /** The checkpoint file as the loader finds it. */
  datatype CheckpointFile = NoCheckpoint | Unreadable | Stored(record: CheckpointRecord)

  /** `_save_wfo_state(cycle, start_index, all_results, cumulative_capital)`. */
  function SaveState(cycle: int, startIndex: nat, results: seq<CycleResult>, cumulativeCapital: real)
    : (r: CheckpointRecord)
    ensures r.lastCompletedCycle.Some? && r.nextStartIndex.Some? && r.resultsSoFar.Some? && r.cumulativeCapital.Some?
    ensures LoadState(Stored(r)) == WfoState(startIndex, cycle, results, cumulativeCapital)
  {
    CheckpointRecord(Some(cycle - 1), Some(startIndex), Some(results), Some(cumulativeCapital))
  }

  /** `_load_wfo_state`: each absent key takes its default; a missing or unreadable file starts afresh. */
  function LoadState(f: CheckpointFile): (s: WfoState)
    ensures !f.Stored? ==> s == FreshState()
    ensures f.Stored? && f.record == CheckpointRecord(None, None, None, None) ==> s == FreshState()
  {
    match f
    case Stored(rec) =>
      WfoState(rec.nextStartIndex.GetOr(0), rec.lastCompletedCycle.GetOr(0) + 1,
               rec.resultsSoFar.GetOr([]), rec.cumulativeCapital.GetOr(INITIAL_CUMULATIVE_CAPITAL))
    case _ => FreshState()
  }

  function SaveOf(s: WfoState): CheckpointRecord {
    SaveState(s.cycle, s.startIndex, s.results, s.cumulativeCapital)
  }

  // ---------------------------------------------------------------------------
  // One cycle
  // ---------------------------------------------------------------------------

  /**
   * The retrain with the best parameters: the parameters, the retrained
   * model's entry probability for each row of the data, and the test period's label.
   */
  datatype FinalRun = FinalRun(params: StrategyParams, entryProba: nat -> real, period: string)

  /**
   * The search of one cycle: `Interrupted` when a shutdown stopped it, otherwise
   * the best trial's value and, when the retrain succeeded, the final run.
   */
  datatype SearchOutcome = Interrupted | Searched(bestValue: real, finalRun: Option<FinalRun>)

  /** The loop's variables: the persisted state plus the in-memory model and parameters to export. */
  datatype Driver = Driver(state: WfoState, finalModelTrained: bool, bestParams: Option<StrategyParams>)

  predicate Accepted(bestValue: real, finalRun: Option<FinalRun>) {
    bestValue > ACCEPTANCE_SHARPE && finalRun.Some?
  }

  /** One completed cycle's growth factor: `1 + (capital - 100) / 100`. */
  function Growth(capital: real): (r: real)
    ensures capital > 0.0 ==> r > 0.0
  {
    1.0 + (capital - 100.0) / 100.0
  }

  /** `cumulative_capital * (1 + result_pct)`: the capital after one accepted cycle. */
  function CompoundOnce(capital: real, result: CycleResult): (r: real)
    ensures capital > 0.0 && result.capital > 0.0 ==> r > 0.0
  {
    var g := Growth(result.capital);
    if capital > 0.0 && result.capital > 0.0 then MulPos(capital, g); capital * g
    else capital * g
  }

  /**
   * The final backtest of a cycle: from the cycle's start row and its final
   * run, the result row appended to `all_results`.
   */
  type CycleBacktest = (nat, FinalRun) --> CycleResult

  /** The final backtest is defined for every cycle the loop can run. */
  ghost predicate Evaluates(bt: CycleBacktest, n: nat, cfg: WfoConfig) {
    forall start, run :: CycleFits(start, n, cfg) ==> bt.requires(start, run)
  }

  /** ... and always ends with some capital. */
  ghost predicate EndsSolvent(bt: CycleBacktest, n: nat, cfg: WfoConfig) {
    forall start, run :: CycleFits(start, n, cfg) ==> bt.requires(start, run) && bt(start, run).capital > 0.0
  }

  /** The body of one loop iteration after the search returned. */
  function CycleStep(d: Driver, cfg: WfoConfig, bestValue: real, finalRun: Option<FinalRun>, bt: CycleBacktest): (r: Driver)
    requires Accepted(bestValue, finalRun) ==> bt.requires(d.state.startIndex, finalRun.value)
    ensures r.state.startIndex == d.state.startIndex + cfg.stepSize
    ensures r.state.cycle == d.state.cycle + 1
    ensures Accepted(bestValue, finalRun) ==>
              var x := bt(d.state.startIndex, finalRun.value);
              && r.state.results == d.state.results + [x]
              && r.state.cumulativeCapital == CompoundOnce(d.state.cumulativeCapital, x)
              && r.finalModelTrained && r.bestParams == Some(finalRun.value.params)
    ensures !Accepted(bestValue, finalRun) ==>
              r.state.results == d.state.results && r.state.cumulativeCapital == d.state.cumulativeCapital
    // the retrain's model replaces the previous one whenever a retrain happens, even a failed one
    ensures bestValue > ACCEPTANCE_SHARPE ==> r.finalModelTrained == finalRun.Some?
    ensures !Accepted(bestValue, finalRun) ==> r.bestParams == d.bestParams
    ensures bestValue <= ACCEPTANCE_SHARPE ==> r.finalModelTrained == d.finalModelTrained
  {
    var s := d.state;
    var d1 :=
      if bestValue > ACCEPTANCE_SHARPE then
        match finalRun
        case Some(run) =>
          var x := bt(s.startIndex, run);
          Driver(s.(results := s.results + [x],
                    cumulativeCapital := CompoundOnce(s.cumulativeCapital, x)),
                 true, Some(run.params))
        case None => d.(finalModelTrained := false)
      else d;
    d1.(state := d1.state.(startIndex := s.startIndex + cfg.stepSize, cycle := s.cycle + 1))
  }

  // ---------------------------------------------------------------------------
  // The final backtest
  // ---------------------------------------------------------------------------

  /**
   * The data the loop slides over: the close of every row, and the square
   * root the Sharpe ratio uses.
   */
  datatype History = History(closes: seq<real>, sqrt: real -> real)

  /** Every close is positive and the square root of a positive number is positive. */
  ghost predicate Priced(h: History) {
    && AllPositive(h.closes)
    && forall x :: x > 0.0 ==> h.sqrt(x) > 0.0
  }

  /** The closes of the cycle's test window, `test_data`. */
  function TestPrices(h: History, start: nat, cfg: WfoConfig): (r: seq<real>)
    requires CycleFits(start, |h.closes|, cfg)
    ensures |r| == cfg.testSize
    ensures forall k :: 0 <= k < |r| ==> r[k] == h.closes[TestWindow(start, cfg).lo + k]
    ensures AllPositive(h.closes) ==> AllPositive(r)
  {
    h.closes[TestWindow(start, cfg).lo..TestWindow(start, cfg).hi]
  }

  /** The retrained model's entry probability for each bar of the test window. */
  function TestProbas(run: FinalRun, start: nat, cfg: WfoConfig): (r: seq<real>)
    ensures |r| == cfg.testSize
    ensures forall k :: 0 <= k < |r| ==> r[k] == run.entryProba(TestWindow(start, cfg).lo + k)
  {
    seq(cfg.testSize, k requires 0 <= k < cfg.testSize => run.entryProba(TestWindow(start, cfg).lo + k))
  }

  /**
   * The result row of an accepted cycle: `run_backtest` of the retrained model
   * on the test window, its final capital and its annualised Sharpe ratio.
   */
  function ResultOf(h: History, start: nat, cfg: WfoConfig, run: FinalRun): (r: CycleResult)
    requires Priced(h) && CycleFits(start, |h.closes|, cfg)
    ensures var bt := RunBacktest(TestPrices(h, start, cfg), TestProbas(run, start, cfg), run.params);
            r.period == run.period && r.capital == bt.capital && r.sharpe == SharpeValue(bt.sharpe, h.sqrt)
    ensures r.capital > 0.0
  {
    var prices := TestPrices(h, start, cfg);
    var probas := TestProbas(run, start, cfg);
    var bt := RunBacktest(prices, probas, run.params);
    BacktestCapitalPositive(prices, probas, run.params);
    CycleResult(run.period, bt.capital, SharpeValue(bt.sharpe, h.sqrt))
  }

  /** `run_backtest` on each cycle's test window, as the loop calls it. */
  function FinalBacktest(h: History, cfg: WfoConfig): (bt: CycleBacktest)
    requires Priced(h)
    ensures Evaluates(bt, |h.closes|, cfg) && EndsSolvent(bt, |h.closes|, cfg)
    ensures forall start, run :: CycleFits(start, |h.closes|, cfg) ==> bt(start, run) == ResultOf(h, start, cfg, run)
  {
    (start: nat, run: FinalRun) requires CycleFits(start, |h.closes|, cfg) => ResultOf(h, start, cfg, run)
  }

  // ---------------------------------------------------------------------------
  // The loop
  // ---------------------------------------------------------------------------

  /** Where the loop stopped, the checkpoints it wrote in order, and whether a shutdown stopped it. */
  datatype DriveOutcome = DriveOutcome(driver: Driver, checkpoints: seq<CheckpointRecord>, interrupted: bool)

  /** Capital compounded over a list of cycle results. */
  function Compound(capital: real, results: seq<CycleResult>): real
    decreases |results|
  {
    if |results| == 0 then capital
    else Compound(CompoundOnce(capital, results[0]), results[1..])
  }

  /** The `while` loop from `d`, with `search` answering for each start row and `bt` the final backtest. */
  function Drive(d: Driver, n: nat, cfg: WfoConfig, search: nat -> SearchOutcome, bt: CycleBacktest): (r: DriveOutcome)
    requires cfg.stepSize > 0 && Evaluates(bt, n, cfg)
    ensures r.driver.state.cycle == d.state.cycle + |r.checkpoints|
    ensures r.driver.state.startIndex == d.state.startIndex + |r.checkpoints| * cfg.stepSize
    // the loop stops only at the end of the data or on a shutdown, and a shutdown writes no checkpoint
    ensures !r.interrupted ==> !CycleFits(r.driver.state.startIndex, n, cfg)
    ensures r.interrupted ==> CycleFits(r.driver.state.startIndex, n, cfg)
                              && search(r.driver.state.startIndex).Interrupted?
    // earlier results are never rewritten
    ensures d.state.results <= r.driver.state.results
    // the last checkpoint written is the final state
    ensures |r.checkpoints| > 0 ==> r.checkpoints[|r.checkpoints| - 1] == SaveOf(r.driver.state)
    ensures |r.checkpoints| == 0 ==> r.driver == d
    decreases n - d.state.startIndex
  {
    var s := d.state;
    if !CycleFits(s.startIndex, n, cfg) then DriveOutcome(d, [], false)
    else match search(s.startIndex)
      case Interrupted => DriveOutcome(d, [], true)
      case Searched(bestValue, finalRun) =>
        var d1 := CycleStep(d, cfg, bestValue, finalRun, bt);
        var rest := Drive(d1, n, cfg, search, bt);
        DriveOutcome(rest.driver, [SaveOf(d1.state)] + rest.checkpoints, rest.interrupted)
  }

  /** One iteration of the loop: a cycle that fits and is searched hands over to the next one. */
  lemma DriveUnfold(d: Driver, n: nat, cfg: WfoConfig, search: nat -> SearchOutcome, bt: CycleBacktest)
    requires cfg.stepSize > 0 && Evaluates(bt, n, cfg)
    requires CycleFits(d.state.startIndex, n, cfg) && search(d.state.startIndex).Searched?
    ensures var o := search(d.state.startIndex);
            var d1 := CycleStep(d, cfg, o.bestValue, o.finalRun, bt);
            && Drive(d, n, cfg, search, bt).driver == Drive(d1, n, cfg, search, bt).driver
            && |Drive(d, n, cfg, search, bt).checkpoints| == |Drive(d1, n, cfg, search, bt).checkpoints| + 1
  {
  }

  /** A run that is not interrupted performs exactly the cycles that fit. */
  lemma {:induction false} UninterruptedRunCompletesEveryCycle(d: Driver, n: nat, cfg: WfoConfig,
                                                              search: nat -> SearchOutcome, bt: CycleBacktest)
    requires cfg.stepSize > 0 && Evaluates(bt, n, cfg)
    ensures !Drive(d, n, cfg, search, bt).interrupted ==>
              |Drive(d, n, cfg, search, bt).checkpoints| == CyclesFrom(d.state.startIndex, n, cfg)
    decreases n - d.state.startIndex
  {
    var s := d.state;
    if CycleFits(s.startIndex, n, cfg) && search(s.startIndex).Searched? {
      var o := search(s.startIndex);
      UninterruptedRunCompletesEveryCycle(CycleStep(d, cfg, o.bestValue, o.finalRun, bt), n, cfg, search, bt);
    }
  }

  /**
   * The results appended by the loop are the accepted cycles, and the
   * cumulative capital is the starting capital compounded over exactly those.
   */
  lemma {:induction false} CapitalCompoundsOverAcceptedCycles(d: Driver, n: nat, cfg: WfoConfig,
                                                             search: nat -> SearchOutcome, bt: CycleBacktest)
    requires cfg.stepSize > 0 && Evaluates(bt, n, cfg)
    ensures var f := Drive(d, n, cfg, search, bt).driver.state;
            f.cumulativeCapital == Compound(d.state.cumulativeCapital, f.results[|d.state.results|..])
    decreases n - d.state.startIndex
  {
    var s := d.state;
    if CycleFits(s.startIndex, n, cfg) && search(s.startIndex).Searched? {
      var o := search(s.startIndex);
      var d1 := CycleStep(d, cfg, o.bestValue, o.finalRun, bt);
      CapitalCompoundsOverAcceptedCycles(d1, n, cfg, search, bt);
      DriveUnfold(d, n, cfg, search, bt);
      var f := Drive(d1, n, cfg, search, bt).driver.state;
      if Accepted(o.bestValue, o.finalRun) {
        CompoundAcrossAcceptedCycle(s.cumulativeCapital, s.results, bt(s.startIndex, o.finalRun.value),
                                    d1.state.cumulativeCapital, d1.state.results, f.results, f.cumulativeCapital);
      } else {
        CompoundAcrossRejectedCycle(s, d1.state, f);
      }
    }
  }

  /** A cycle that appends nothing leaves the compounding from its capital unchanged. */
  lemma CompoundAcrossRejectedCycle(s: WfoState, s1: WfoState, f: WfoState)
    requires s1.results == s.results && s1.cumulativeCapital == s.cumulativeCapital && s1.results <= f.results
    requires f.cumulativeCapital == Compound(s1.cumulativeCapital, f.results[|s1.results|..])
    ensures f.cumulativeCapital == Compound(s.cumulativeCapital, f.results[|s.results|..])
  {
  }

  /**
   * One accepted cycle, then the rest of the loop: compounding from the
   * capital before the cycle over everything appended since gives the final capital.
   */
  lemma CompoundAcrossAcceptedCycle(capital: real, before: seq<CycleResult>, x: CycleResult, capital1: real,
                                    after: seq<CycleResult>, final: seq<CycleResult>, finalCapital: real)
    requires after == before + [x]
    requires after <= final
    requires capital1 == CompoundOnce(capital, x)
    requires finalCapital == Compound(capital1, final[|after|..])
    ensures finalCapital == Compound(capital, final[|before|..])
  {
    assert final[|before|] == after[|before|];
    CompoundUnfoldAt(capital, final, |before|, x);
  }

  lemma CompoundUnfoldAt(capital: real, rs: seq<CycleResult>, k: nat, x: CycleResult)
    requires k < |rs| && rs[k] == x
    ensures Compound(capital, rs[k..]) == Compound(CompoundOnce(capital, x), rs[k + 1..])
  {
    assert rs[k..][1..] == rs[k + 1..];
  }

  /**
   * With a final backtest that always ends with some capital, every result the
   * loop appends has positive capital, and a positive cumulative capital stays
   * positive to the end.
   */
  lemma {:induction false} CumulativeCapitalStaysPositive(d: Driver, n: nat, cfg: WfoConfig,
                                                         search: nat -> SearchOutcome, bt: CycleBacktest)
    requires cfg.stepSize > 0 && EndsSolvent(bt, n, cfg)
    ensures Evaluates(bt, n, cfg)
    ensures var f := Drive(d, n, cfg, search, bt).driver.state;
            forall k :: |d.state.results| <= k < |f.results| ==> f.results[k].capital > 0.0
    ensures d.state.cumulativeCapital > 0.0 ==> Drive(d, n, cfg, search, bt).driver.state.cumulativeCapital > 0.0
    decreases n - d.state.startIndex
  {
    var s := d.state;
    if CycleFits(s.startIndex, n, cfg) && search(s.startIndex).Searched? {
      var o := search(s.startIndex);
      var d1 := CycleStep(d, cfg, o.bestValue, o.finalRun, bt);
      CumulativeCapitalStaysPositive(d1, n, cfg, search, bt);
      DriveUnfold(d, n, cfg, search, bt);
      var f := Drive(d1, n, cfg, search, bt).driver.state;
      if Accepted(o.bestValue, o.finalRun) {
        var x := bt(s.startIndex, o.finalRun.value);
        assert f.results[|s.results|] == (s.results + [x])[|s.results|];
      }
    }
  }

  /** Each accepted cycle adds exactly one result; a rejected or failed one adds none. */
  lemma {:induction false} OneResultPerAcceptedCycle(d: Driver, n: nat, cfg: WfoConfig,
                                                    search: nat -> SearchOutcome, bt: CycleBacktest)
    requires cfg.stepSize > 0 && Evaluates(bt, n, cfg)
    ensures |Drive(d, n, cfg, search, bt).driver.state.results| - |d.state.results|
            == AcceptedCycles(d.state.startIndex, |Drive(d, n, cfg, search, bt).checkpoints|, cfg, search)
    decreases n - d.state.startIndex
  {
    var s := d.state;
    if CycleFits(s.startIndex, n, cfg) && search(s.startIndex).Searched? {
      var o := search(s.startIndex);
      var d1 := CycleStep(d, cfg, o.bestValue, o.finalRun, bt);
      OneResultPerAcceptedCycle(d1, n, cfg, search, bt);
      DriveUnfold(d, n, cfg, search, bt);
      var k := |Drive(d1, n, cfg, search, bt).checkpoints|;
      assert AcceptedCycles(s.startIndex, k + 1, cfg, search)
             == (if Accepted(o.bestValue, o.finalRun) then 1 else 0) + AcceptedCycles(d1.state.startIndex, k, cfg, search);
    }
  }

  /** How many of the `k` cycles from `start` the oracle's answers make accepted. */
  function AcceptedCycles(start: nat, k: nat, cfg: WfoConfig, search: nat -> SearchOutcome): nat
    decreases k
  {
    if k == 0 then 0
    else
      var o := search(start);
      (if o.Searched? && Accepted(o.bestValue, o.finalRun) then 1 else 0)
      + AcceptedCycles(start + cfg.stepSize, k - 1, cfg, search)
  }

  /**
   * What the loop persists does not depend on the in-memory model: a resumed
   * run, which starts with no model, writes the same checkpoints and reaches
   * the same state as a run that had kept its model.
   */
  lemma {:induction false} PersistedTrajectoryIgnoresModel(d: Driver, trained: bool, params: Option<StrategyParams>,
                                                           n: nat, cfg: WfoConfig, search: nat -> SearchOutcome,
                                                           bt: CycleBacktest)
    requires cfg.stepSize > 0 && Evaluates(bt, n, cfg)
    ensures var a := Drive(d, n, cfg, search, bt);
            var b := Drive(Driver(d.state, trained, params), n, cfg, search, bt);
            a.driver.state == b.driver.state && a.checkpoints == b.checkpoints && a.interrupted == b.interrupted
    decreases n - d.state.startIndex
  {
    var s := d.state;
    if CycleFits(s.startIndex, n, cfg) && search(s.startIndex).Searched? {
      var o := search(s.startIndex);
      var d1 := CycleStep(d, cfg, o.bestValue, o.finalRun, bt);
      var e1 := CycleStep(Driver(d.state, trained, params), cfg, o.bestValue, o.finalRun, bt);
      assert d1.state == e1.state;
      PersistedTrajectoryIgnoresModel(d1, e1.finalModelTrained, e1.bestParams, n, cfg, search, bt);
    }
  }

  // ---------------------------------------------------------------------------
  // run()
  // ---------------------------------------------------------------------------

  datatype WfoOutcome =
    | InsufficientData(needed: nat, available: nat)
    | ZeroStep                     // `total_cycles` divides by `step_size`
    | Ran(totalCycles: int, resumedFrom: WfoState, loop: DriveOutcome, exported: Option<StrategyParams>)

  /** The final save: only with some result, a model from the last retrain and parameters to write. */
  function ExportOf(d: Driver): (r: Option<StrategyParams>)
    ensures r.Some? <==> |d.state.results| > 0 && d.finalModelTrained && d.bestParams.Some?
    ensures r.Some? ==> r == d.bestParams
  {
    if |d.state.results| > 0 && d.finalModelTrained && d.bestParams.Some? then d.bestParams else None
  }

  /** `run()`, from the checkpoint file found on disk. */
  function RunWalkForward(h: History, cfg: WfoConfig, f: CheckpointFile, search: nat -> SearchOutcome): (r: WfoOutcome)
    requires Priced(h)
    ensures r.InsufficientData? <==> |h.closes| < CycleSpan(cfg)
    ensures r.InsufficientData? ==> r.needed == CycleSpan(cfg) && r.available == |h.closes|
    ensures r.ZeroStep? <==> |h.closes| >= CycleSpan(cfg) && cfg.stepSize == 0
    ensures r.Ran? ==> r.resumedFrom == LoadState(f) && r.totalCycles >= 1
  {
    var n := |h.closes|;
    if n < CycleSpan(cfg) then InsufficientData(CycleSpan(cfg), n)
    else if cfg.stepSize == 0 then ZeroStep
    else
      var start := LoadState(f);
      var loop := Drive(Driver(start, false, None), n, cfg, search, FinalBacktest(h, cfg));
      Ran(TotalCycles(n, cfg), start, loop, ExportOf(loop.driver))
  }

  /** From no checkpoint and without a shutdown, a run performs `total_cycles` cycles and writes one checkpoint each. */
  lemma FreshRunPerformsTotalCycles(h: History, cfg: WfoConfig, search: nat -> SearchOutcome)
    requires Priced(h) && cfg.stepSize > 0 && |h.closes| >= CycleSpan(cfg)
    ensures var r := RunWalkForward(h, cfg, NoCheckpoint, search);
            r.Ran? && (!r.loop.interrupted ==> |r.loop.checkpoints| == r.totalCycles
                                               && r.loop.driver.state.cycle == r.totalCycles + 1)
  {
    UninterruptedRunCompletesEveryCycle(Driver(FreshState(), false, None), |h.closes|, cfg, search, FinalBacktest(h, cfg));
    TotalCyclesCountsTheLoop(|h.closes|, cfg);
  }

  /**
   * Every cycle result of a run is a real backtest's, so its capital is
   * positive, and the cumulative capital, 100 on a fresh start, stays positive.
   */
  lemma RunCapitalStaysPositive(h: History, cfg: WfoConfig, f: CheckpointFile, search: nat -> SearchOutcome)
    requires Priced(h) && cfg.stepSize > 0 && |h.closes| >= CycleSpan(cfg)
    ensures var r := RunWalkForward(h, cfg, f, search);
            && r.Ran?
            && (forall k :: |r.resumedFrom.results| <= k < |r.loop.driver.state.results| ==>
                              r.loop.driver.state.results[k].capital > 0.0)
            && (r.resumedFrom.cumulativeCapital > 0.0 ==> r.loop.driver.state.cumulativeCapital > 0.0)
    ensures f == NoCheckpoint ==> RunWalkForward(h, cfg, f, search).loop.driver.state.cumulativeCapital > 0.0
  {
    var bt := FinalBacktest(h, cfg);
    var d0 := Driver(LoadState(f), false, None);
    CumulativeCapitalStaysPositive(d0, |h.closes|, cfg, search, bt);
    assert RunWalkForward(h, cfg, f, search).loop == Drive(d0, |h.closes|, cfg, search, bt);
  }

  /**
   * Resuming from the last checkpoint of a stopped run continues where it
   * stopped: same start row, cycle number, results and capital.
   */
  lemma ResumeStartsWhereTheRunStopped(h: History, cfg: WfoConfig, f: CheckpointFile, search: nat -> SearchOutcome)
    requires Priced(h) && cfg.stepSize > 0 && |h.closes| >= CycleSpan(cfg)
    ensures var r := RunWalkForward(h, cfg, f, search);
            r.Ran? && |r.loop.checkpoints| > 0 ==>
              RunWalkForward(h, cfg, Stored(r.loop.checkpoints[|r.loop.checkpoints| - 1]), search).resumedFrom
              == r.loop.driver.state
  {
  }

  /**
   * The export is suppressed by a later retrain that fails even though an
   * earlier cycle was accepted: the failed retrain clears the model but not the
   * parameters, and the save needs both.
   */
  lemma FailedRetrainSuppressesEarlierExport(d: Driver, cfg: WfoConfig, run: FinalRun, laterBest: real, bt: CycleBacktest)
    requires bt.requires(d.state.startIndex, run)
    requires laterBest > ACCEPTANCE_SHARPE
    ensures var accepted := CycleStep(d, cfg, 0.5, Some(run), bt);
            var failed := CycleStep(accepted, cfg, laterBest, None, bt);
            ExportOf(accepted) == Some(run.params)
            && |failed.state.results| > 0 && failed.bestParams == Some(run.params)
            && ExportOf(failed) == None
  {
  }
}
