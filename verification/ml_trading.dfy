/**
 * `MLTrader`'s regression targets and guards: for each row, the highest and
 * lowest close of the next five rows; training refuses fewer than 50 complete
 * rows; prediction needs both models and a complete feature row. The
 * indicator features and the random forests are replaced by inputs: whether a
 * row's features are complete, and the two fitted predictors.
 */
module MlTrading {
  import opened Common

  /** The look-ahead of both targets, in rows. */
  const TARGET_WINDOW: nat := 5
  /** `train` refuses to fit on fewer complete rows than this. */
  const MIN_TRAINING_ROWS: nat := 50

  /** The largest element of a non-empty sequence. */
  function SeqMax(s: seq<real>): (r: real)
    requires |s| > 0
    ensures forall k :: 0 <= k < |s| ==> s[k] <= r
    ensures exists k :: 0 <= k < |s| && s[k] == r
    decreases |s|
  {
    if |s| == 1 then s[0]
    else
      var rest := SeqMax(s[1..]);
      assert forall k :: 1 <= k < |s| ==> s[k] == s[1..][k - 1];
      if s[0] >= rest then s[0]
      else
        var k :| 0 <= k < |s[1..]| && s[1..][k] == rest;
        assert s[k + 1] == rest;
        rest
  }

  /** The smallest element of a non-empty sequence. */
  function SeqMin(s: seq<real>): (r: real)
    requires |s| > 0
    ensures forall k :: 0 <= k < |s| ==> r <= s[k]
    ensures exists k :: 0 <= k < |s| && s[k] == r
    decreases |s|
  {
    if |s| == 1 then s[0]
    else
      var rest := SeqMin(s[1..]);
      assert forall k :: 1 <= k < |s| ==> s[k] == s[1..][k - 1];
      if s[0] <= rest then s[0]
      else
        var k :| 0 <= k < |s[1..]| && s[1..][k] == rest;
        assert s[k + 1] == rest;
        rest
  }

  /** Whether row `i` has both targets: five later rows exist. */
  predicate HasTargets(n: nat, i: nat) {
    i + TARGET_WINDOW < n
  }

  /** The closes the targets of row `i` look at: rows i+1 .. i+5. */
  function LookAhead(closes: seq<real>, i: nat): (r: seq<real>)
    requires HasTargets(|closes|, i)
    ensures |r| == TARGET_WINDOW
    ensures forall j :: 0 <= j < TARGET_WINDOW ==> r[j] == closes[i + 1 + j]
  {
    closes[i + 1..i + 1 + TARGET_WINDOW]
  }

  datatype Targets = Targets(futureMaxPrice: real, futureMinPrice: real)

  /**
   * `rolling(5).max().shift(-5)` and `rolling(5).min().shift(-5)` at row `i`:
   * the extreme closes over the next five rows, defined only where five
   * later rows exist.
   */
  function TargetsAt(closes: seq<real>, i: nat): (r: Option<Targets>)
    ensures r.Some? <==> HasTargets(|closes|, i)
    ensures r.Some? ==> forall j :: i < j <= i + TARGET_WINDOW ==>
                          r.value.futureMinPrice <= closes[j] <= r.value.futureMaxPrice
    ensures r.Some? ==> exists j :: i < j <= i + TARGET_WINDOW && closes[j] == r.value.futureMaxPrice
    ensures r.Some? ==> exists j :: i < j <= i + TARGET_WINDOW && closes[j] == r.value.futureMinPrice
  {
    if !HasTargets(|closes|, i) then None
    else
      var ahead := LookAhead(closes, i);
      var hi := SeqMax(ahead);
      var lo := SeqMin(ahead);
      assert forall j :: i < j <= i + TARGET_WINDOW ==> closes[j] == ahead[j - i - 1];
      var a :| 0 <= a < |ahead| && ahead[a] == hi;
      var b :| 0 <= b < |ahead| && ahead[b] == lo;
      assert closes[i + 1 + a] == hi && closes[i + 1 + b] == lo;
      Some(Targets(hi, lo))
  }

  /** The stop target never exceeds the profit target. */
  lemma MinTargetBelowMaxTarget(closes: seq<real>, i: nat)
    requires HasTargets(|closes|, i)
    ensures TargetsAt(closes, i).value.futureMinPrice <= TargetsAt(closes, i).value.futureMaxPrice
  {
    assert i < i + 1 <= i + TARGET_WINDOW;
  }

  /** A row's own close plays no part in its targets: they look strictly ahead. */
  lemma TargetsIgnoreOwnClose(closes: seq<real>, i: nat, v: real)
    requires i < |closes|
    ensures TargetsAt(closes[i := v], i) == TargetsAt(closes, i)
  {
    if HasTargets(|closes|, i) {
      assert LookAhead(closes[i := v], i) == LookAhead(closes, i);
    }
  }

  /**
   * The rows `dropna` keeps, by index: targets defined (so never the last five)
   * and features complete.
   */
  function TrainingRows(closes: seq<real>, featuresComplete: seq<bool>): (r: seq<nat>)
    requires |featuresComplete| == |closes|
    ensures forall k :: 0 <= k < |r| ==> HasTargets(|closes|, r[k]) && featuresComplete[r[k]]
    ensures forall i :: 0 <= i < |closes| && HasTargets(|closes|, i) && featuresComplete[i] ==> i in r
    ensures forall k, l :: 0 <= k < l < |r| ==> r[k] < r[l]
  {
    RowsFrom(closes, featuresComplete, 0)
  }

  function RowsFrom(closes: seq<real>, featuresComplete: seq<bool>, i: nat): (r: seq<nat>)
    requires |featuresComplete| == |closes|
    ensures forall k :: 0 <= k < |r| ==> i <= r[k] && HasTargets(|closes|, r[k]) && featuresComplete[r[k]]
    ensures forall j :: i <= j < |closes| && HasTargets(|closes|, j) && featuresComplete[j] ==> j in r
    ensures forall k, l :: 0 <= k < l < |r| ==> r[k] < r[l]
    decreases |closes| - i
  {
    if i >= |closes| then []
    else
      var rest := RowsFrom(closes, featuresComplete, i + 1);
      if HasTargets(|closes|, i) && featuresComplete[i] then [i] + rest else rest
  }

  /** With complete features everywhere, exactly the last five rows are dropped. */
  lemma AllCompleteDropsLastWindow(closes: seq<real>, featuresComplete: seq<bool>, i: nat)
    requires |featuresComplete| == |closes|
    requires forall j :: 0 <= j < |closes| ==> featuresComplete[j]
    requires i <= |closes|
    ensures |RowsFrom(closes, featuresComplete, i)| == if i + TARGET_WINDOW < |closes| then |closes| - TARGET_WINDOW - i else 0
  {
    KeptCountsRows(closes, featuresComplete, i);
    AllCompleteKept(featuresComplete, i);
  }

  /** How many rows from `i` on `dropna` keeps, counted without building them. */
  function Kept(featuresComplete: seq<bool>, i: nat): nat
    decreases |featuresComplete| - i
  {
    if i >= |featuresComplete| then 0
    else Kept(featuresComplete, i + 1) + if HasTargets(|featuresComplete|, i) && featuresComplete[i] then 1 else 0
  }

  lemma {:induction false} KeptCountsRows(closes: seq<real>, featuresComplete: seq<bool>, i: nat)
    requires |featuresComplete| == |closes|
    ensures |RowsFrom(closes, featuresComplete, i)| == Kept(featuresComplete, i)
    decreases |closes| - i
  {
    if i < |closes| {
      KeptCountsRows(closes, featuresComplete, i + 1);
      RowsFromLength(closes, featuresComplete, i);
    }
  }

  lemma {:induction false} AllCompleteKept(featuresComplete: seq<bool>, i: nat)
    requires forall j :: 0 <= j < |featuresComplete| ==> featuresComplete[j]
    requires i <= |featuresComplete|
    ensures Kept(featuresComplete, i)
            == if i + TARGET_WINDOW < |featuresComplete| then |featuresComplete| - TARGET_WINDOW - i else 0
    decreases |featuresComplete| - i
  {
    if i < |featuresComplete| {
      AllCompleteKept(featuresComplete, i + 1);
      assert featuresComplete[i];
    }
  }

  /** Each row adds one to the count exactly when `dropna` keeps it. */
  lemma RowsFromLength(closes: seq<real>, featuresComplete: seq<bool>, i: nat)
    requires |featuresComplete| == |closes| && i < |closes|
    ensures |RowsFrom(closes, featuresComplete, i)|
            == |RowsFrom(closes, featuresComplete, i + 1)| + if HasTargets(|closes|, i) && featuresComplete[i] then 1 else 0
  {
  }

  /** A fitted regressor, standing in for the random forest. */
  type Regressor = seq<real> -> real

  datatype TrainOutcome = NotEnoughData(rowCount: nat) | Fitted(rows: seq<nat>, profitModel: Regressor, stopLossModel: Regressor)

  /**
   * `train`: with fewer than 50 complete rows it logs and returns, leaving
   * any earlier models as they were; otherwise both regressors are fitted (`fit` is the input).
   */
  function Train(closes: seq<real>, featuresComplete: seq<bool>, fit: seq<nat> -> (Regressor, Regressor)): (r: TrainOutcome)
    requires |featuresComplete| == |closes|
    ensures r.NotEnoughData? <==> |TrainingRows(closes, featuresComplete)| < MIN_TRAINING_ROWS
    ensures r.Fitted? ==> r.rows == TrainingRows(closes, featuresComplete) && |r.rows| >= MIN_TRAINING_ROWS
  {
    var rows := TrainingRows(closes, featuresComplete);
    if |rows| < MIN_TRAINING_ROWS then NotEnoughData(|rows|)
    else
      var models := fit(rows);
      Fitted(rows, models.0, models.1)
  }

  /** Rows from `i` on that carry targets are at most the rows before the last five. */
  lemma {:induction false} RowsFromBound(closes: seq<real>, featuresComplete: seq<bool>, i: nat)
    requires |featuresComplete| == |closes|
    ensures |RowsFrom(closes, featuresComplete, i)| <= if i + TARGET_WINDOW < |closes| then |closes| - TARGET_WINDOW - i else 0
    decreases |closes| - i
  {
    if i < |closes| {
      RowsFromBound(closes, featuresComplete, i + 1);
      var rest := RowsFrom(closes, featuresComplete, i + 1);
      if HasTargets(|closes|, i) && featuresComplete[i] {
        assert RowsFrom(closes, featuresComplete, i) == [i] + rest;
      } else {
        assert RowsFrom(closes, featuresComplete, i) == rest;
      }
    }
  }

  /** Fewer than 55 closes can never train: five rows always lack targets. */
  lemma ShortHistoryNeverTrains(closes: seq<real>, featuresComplete: seq<bool>, fit: seq<nat> -> (Regressor, Regressor))
    requires |featuresComplete| == |closes| && |closes| < MIN_TRAINING_ROWS + TARGET_WINDOW
    ensures Train(closes, featuresComplete, fit).NotEnoughData?
  {
    RowsFromBound(closes, featuresComplete, 0);
  }

  /** The two models held by the trader, each possibly absent. */
  datatype Models = Models(profitModel: Option<Regressor>, stopLossModel: Option<Regressor>)

  datatype Prediction = Prediction(profitTargetPrice: real, stopLossPrice: real)

  datatype PredictError = ModelsNotLoaded

  /** Every feature value of the row is present. */
  predicate CompleteRow(features: seq<Option<real>>) {
    forall k :: 0 <= k < |features| ==> features[k].Some?
  }

  function Values(features: seq<Option<real>>): (r: seq<real>)
    requires CompleteRow(features)
    ensures |r| == |features| && forall k :: 0 <= k < |r| ==> features[k] == Some(r[k])
  {
    seq(|features|, k requires 0 <= k < |features| => features[k].value)
  }

  /**
   * `predict`: an error without both models, nothing for a row with a
   * missing feature, otherwise both models' outputs.
   */
  function Predict(m: Models, features: seq<Option<real>>): (r: Result<Option<Prediction>, PredictError>)
    ensures r.Failure? <==> m.profitModel.None? || m.stopLossModel.None?
    ensures r.Success? ==> (r.value.None? <==> !CompleteRow(features))
    ensures r.Success? && r.value.Some? ==>
              r.value.value == Prediction(m.profitModel.value(Values(features)), m.stopLossModel.value(Values(features)))
  {
    if m.profitModel.None? || m.stopLossModel.None? then Failure(ModelsNotLoaded)
    else if !CompleteRow(features) then Success(None)
    else
      var x := Values(features);
      Success(Some(Prediction(m.profitModel.value(x), m.stopLossModel.value(x))))
  }

  /** The models a successful `Train` leaves behind always predict on a complete row. */
  lemma TrainedModelsPredict(closes: seq<real>, featuresComplete: seq<bool>, fit: seq<nat> -> (Regressor, Regressor),
                             features: seq<Option<real>>)
    requires |featuresComplete| == |closes| && CompleteRow(features)
    requires Train(closes, featuresComplete, fit).Fitted?
    ensures var t := Train(closes, featuresComplete, fit);
            Predict(Models(Some(t.profitModel), Some(t.stopLossModel)), features).Success?
            && Predict(Models(Some(t.profitModel), Some(t.stopLossModel)), features).value.Some?
  {
  }
}
