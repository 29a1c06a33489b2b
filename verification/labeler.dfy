/**
 * The triple-barrier labeler (`create_labels_triple_barrier`) and the data
 * guards of `ModelTrainer.train` that decide whether a window can be fitted.
 *
 * For every bar `i` with a full look-ahead horizon and a non-zero ATR, an upper
 * (profit) barrier `close[i] + atr[i]*profitMult` and a lower (stop) barrier
 * `close[i] - atr[i]*stopMult` are set. Bars `i+1 .. i+h` are scanned in order;
 * within one bar the profit barrier is checked before the stop barrier. When no
 * barrier is touched the label is the sign of the net change over the horizon.
 */
module Labeler {
  import opened Common

  const NEUTRAL: int := 0
  const UPSIDE: int := 1
  const DOWNSIDE: int := 2

  /** Rows of raw data below which training is skipped. */
  const MIN_TRAIN_ROWS: nat := 500
  /** Minimum number of examples of each directional class. */
  const MIN_CLASS_EXAMPLES: nat := 20

  /** The four price columns are parallel arrays. */
  predicate Aligned(closes: seq<real>, highs: seq<real>, lows: seq<real>, atr: seq<real>) {
    |highs| == |closes| && |lows| == |closes| && |atr| == |closes|
  }

  function ProfitBarrier(closes: seq<real>, atr: seq<real>, i: nat, profitMult: real): real
    requires i < |closes| && |atr| == |closes|
  {
    closes[i] + atr[i] * profitMult
  }

  function StopBarrier(closes: seq<real>, atr: seq<real>, i: nat, stopMult: real): real
    requires i < |closes| && |atr| == |closes|
  {
    closes[i] - atr[i] * stopMult
  }

  /** The bar at offset `t` after bar `i` reaches the profit barrier. */
  predicate ProfitTouched(highs: seq<real>, i: nat, t: nat, upper: real)
    requires i + t < |highs|
  {
    highs[i + t] >= upper
  }

  /** The bar at offset `t` after bar `i` reaches the stop barrier. */
  predicate StopTouched(lows: seq<real>, i: nat, t: nat, lower: real)
    requires i + t < |lows|
  {
    lows[i + t] <= lower
  }

  /**
   * The inner scan over look-ahead offsets `j .. h` of bar `i`: the label of
   * the first barrier touched, or None when neither is touched.
   */
  function Scan(highs: seq<real>, lows: seq<real>, i: nat, j: nat, h: nat, upper: real, lower: real): Option<int>
    requires i + h < |highs| && |lows| == |highs|
    decreases h + 1 - j
  {
    if j > h then None
    else if ProfitTouched(highs, i, j, upper) then Some(UPSIDE)
    else if StopTouched(lows, i, j, lower) then Some(DOWNSIDE)
    else Scan(highs, lows, i, j + 1, h, upper, lower)
  }

  /** The label the source assigns to bar `i` (reference definition for the loop). */
  function BarrierLabel(closes: seq<real>, highs: seq<real>, lows: seq<real>, atr: seq<real>,
                        h: nat, profitMult: real, stopMult: real, i: nat): int
    requires Aligned(closes, highs, lows, atr) && i < |closes|
  {
    if i + h >= |closes| then NEUTRAL
    else if atr[i] == 0.0 then NEUTRAL
    else
      match Scan(highs, lows, i, 1, h, ProfitBarrier(closes, atr, i, profitMult), StopBarrier(closes, atr, i, stopMult))
      case Some(l) => l
      case None => if closes[i + h] > closes[i] then UPSIDE else DOWNSIDE
  }

  // ---------------------------------------------------------------------------
  // Declarative first-touch characterisation, independent of the scan order
  // ---------------------------------------------------------------------------

  /** Some offset t in [j, h] reaches the profit barrier and no earlier offset reached the stop. */
  ghost predicate ProfitFirstFrom(highs: seq<real>, lows: seq<real>, i: nat, j: nat, h: nat, upper: real, lower: real)
    requires i + h < |highs| && |lows| == |highs|
  {
    exists t: nat :: j <= t <= h && ProfitTouched(highs, i, t, upper) && forall k: nat :: j <= k < t ==> !StopTouched(lows, i, k, lower)
  }

  /** Some offset t in [j, h] reaches the stop barrier and no offset up to and including t reached the profit barrier. */
  ghost predicate StopFirstFrom(highs: seq<real>, lows: seq<real>, i: nat, j: nat, h: nat, upper: real, lower: real)
    requires i + h < |highs| && |lows| == |highs|
  {
    exists t: nat :: j <= t <= h && StopTouched(lows, i, t, lower) && forall k: nat :: j <= k <= t ==> !ProfitTouched(highs, i, k, upper)
  }

  /** No offset in [j, h] touches either barrier. */
  ghost predicate UntouchedFrom(highs: seq<real>, lows: seq<real>, i: nat, j: nat, h: nat, upper: real, lower: real)
    requires i + h < |highs| && |lows| == |highs|
  {
    forall k: nat :: j <= k <= h ==> !ProfitTouched(highs, i, k, upper) && !StopTouched(lows, i, k, lower)
  }

  lemma {:induction false} ScanProfitIff(highs: seq<real>, lows: seq<real>, i: nat, j: nat, h: nat, upper: real, lower: real)
    requires i + h < |highs| && |lows| == |highs|
    ensures Scan(highs, lows, i, j, h, upper, lower) == Some(UPSIDE) <==> ProfitFirstFrom(highs, lows, i, j, h, upper, lower)
    decreases h + 1 - j
  {
    if j > h {
    } else if ProfitTouched(highs, i, j, upper) {
    } else if StopTouched(lows, i, j, lower) {
    } else {
      ScanProfitIff(highs, lows, i, j + 1, h, upper, lower);
      if ProfitFirstFrom(highs, lows, i, j, h, upper, lower) {
        var t: nat :| j <= t <= h && ProfitTouched(highs, i, t, upper) && forall k: nat :: j <= k < t ==> !StopTouched(lows, i, k, lower);
        assert t != j;
        assert ProfitFirstFrom(highs, lows, i, j + 1, h, upper, lower);
      }
      if ProfitFirstFrom(highs, lows, i, j + 1, h, upper, lower) {
        var t: nat :| j + 1 <= t <= h && ProfitTouched(highs, i, t, upper) && forall k: nat :: j + 1 <= k < t ==> !StopTouched(lows, i, k, lower);
        assert forall k: nat :: j <= k < t ==> !StopTouched(lows, i, k, lower);
      }
    }
  }

  lemma {:induction false} ScanStopIff(highs: seq<real>, lows: seq<real>, i: nat, j: nat, h: nat, upper: real, lower: real)
    requires i + h < |highs| && |lows| == |highs|
    ensures Scan(highs, lows, i, j, h, upper, lower) == Some(DOWNSIDE) <==> StopFirstFrom(highs, lows, i, j, h, upper, lower)
    decreases h + 1 - j
  {
    if j > h {
    } else if ProfitTouched(highs, i, j, upper) {
    } else if StopTouched(lows, i, j, lower) {
      assert forall k: nat :: j <= k <= j ==> !ProfitTouched(highs, i, k, upper);
    } else {
      ScanStopIff(highs, lows, i, j + 1, h, upper, lower);
      if StopFirstFrom(highs, lows, i, j, h, upper, lower) {
        var t: nat :| j <= t <= h && StopTouched(lows, i, t, lower) && forall k: nat :: j <= k <= t ==> !ProfitTouched(highs, i, k, upper);
        assert t != j;
        assert StopFirstFrom(highs, lows, i, j + 1, h, upper, lower);
      }
      if StopFirstFrom(highs, lows, i, j + 1, h, upper, lower) {
        var t: nat :| j + 1 <= t <= h && StopTouched(lows, i, t, lower) && forall k: nat :: j + 1 <= k <= t ==> !ProfitTouched(highs, i, k, upper);
        assert forall k: nat :: j <= k <= t ==> !ProfitTouched(highs, i, k, upper);
      }
    }
  }

  lemma {:induction false} ScanNoneIff(highs: seq<real>, lows: seq<real>, i: nat, j: nat, h: nat, upper: real, lower: real)
    requires i + h < |highs| && |lows| == |highs|
    ensures Scan(highs, lows, i, j, h, upper, lower) == None <==> UntouchedFrom(highs, lows, i, j, h, upper, lower)
    decreases h + 1 - j
  {
    if j <= h && !ProfitTouched(highs, i, j, upper) && !StopTouched(lows, i, j, lower) {
      ScanNoneIff(highs, lows, i, j + 1, h, upper, lower);
    }
  }

  /** The scan only ever yields a directional label. */
  lemma {:induction false} ScanIsDirectional(highs: seq<real>, lows: seq<real>, i: nat, j: nat, h: nat, upper: real, lower: real)
    requires i + h < |highs| && |lows| == |highs|
    ensures Scan(highs, lows, i, j, h, upper, lower) in {None, Some(UPSIDE), Some(DOWNSIDE)}
    decreases h + 1 - j
  {
    if j <= h && !ProfitTouched(highs, i, j, upper) && !StopTouched(lows, i, j, lower) {
      ScanIsDirectional(highs, lows, i, j + 1, h, upper, lower);
    }
  }

  /**
   * Label 1 from a barrier touch: a labelled bar (full horizon, non-zero ATR)
   * whose profit barrier is reached at some offset with no stop touch at an
   * earlier offset is labelled UPSIDE; a stop touch in the same bar does not
   * change that (profit is checked first).
   */
  lemma ProfitTouchFirstLabelsUpside(closes: seq<real>, highs: seq<real>, lows: seq<real>, atr: seq<real>,
                                     h: nat, profitMult: real, stopMult: real, i: nat)
    requires Aligned(closes, highs, lows, atr) && i + h < |closes| && atr[i] != 0.0
    ensures ProfitFirstFrom(highs, lows, i, 1, h, ProfitBarrier(closes, atr, i, profitMult), StopBarrier(closes, atr, i, stopMult))
            <==> (BarrierLabel(closes, highs, lows, atr, h, profitMult, stopMult, i) == UPSIDE
                  && !UntouchedFrom(highs, lows, i, 1, h, ProfitBarrier(closes, atr, i, profitMult), StopBarrier(closes, atr, i, stopMult)))
  {
    var up := ProfitBarrier(closes, atr, i, profitMult);
    var down := StopBarrier(closes, atr, i, stopMult);
    ScanProfitIff(highs, lows, i, 1, h, up, down);
    ScanNoneIff(highs, lows, i, 1, h, up, down);
    ScanIsDirectional(highs, lows, i, 1, h, up, down);
  }

  /**
   * Label 2 from a barrier touch: the stop barrier is reached at an offset
   * where, and before which, the profit barrier was never reached.
   */
  lemma StopTouchFirstLabelsDownside(closes: seq<real>, highs: seq<real>, lows: seq<real>, atr: seq<real>,
                                     h: nat, profitMult: real, stopMult: real, i: nat)
    requires Aligned(closes, highs, lows, atr) && i + h < |closes| && atr[i] != 0.0
    ensures StopFirstFrom(highs, lows, i, 1, h, ProfitBarrier(closes, atr, i, profitMult), StopBarrier(closes, atr, i, stopMult))
            <==> (BarrierLabel(closes, highs, lows, atr, h, profitMult, stopMult, i) == DOWNSIDE
                  && !UntouchedFrom(highs, lows, i, 1, h, ProfitBarrier(closes, atr, i, profitMult), StopBarrier(closes, atr, i, stopMult)))
  {
    var up := ProfitBarrier(closes, atr, i, profitMult);
    var down := StopBarrier(closes, atr, i, stopMult);
    ScanStopIff(highs, lows, i, 1, h, up, down);
    ScanNoneIff(highs, lows, i, 1, h, up, down);
    ScanIsDirectional(highs, lows, i, 1, h, up, down);
  }

  /**
   * Horizon timeout: when no barrier is touched the label is the sign of the
   * net change `close[i+h] - close[i]`, so such a bar is never NEUTRAL.
   */
  lemma TimeoutLabelsBySign(closes: seq<real>, highs: seq<real>, lows: seq<real>, atr: seq<real>,
                            h: nat, profitMult: real, stopMult: real, i: nat)
    requires Aligned(closes, highs, lows, atr) && i + h < |closes| && atr[i] != 0.0
    requires UntouchedFrom(highs, lows, i, 1, h, ProfitBarrier(closes, atr, i, profitMult), StopBarrier(closes, atr, i, stopMult))
    ensures BarrierLabel(closes, highs, lows, atr, h, profitMult, stopMult, i)
            == (if closes[i + h] > closes[i] then UPSIDE else DOWNSIDE)
  {
    ScanNoneIff(highs, lows, i, 1, h, ProfitBarrier(closes, atr, i, profitMult), StopBarrier(closes, atr, i, stopMult));
  }

  /** Exactly one of the three outcomes holds for a labelled bar. */
  lemma OutcomesAreExclusive(closes: seq<real>, highs: seq<real>, lows: seq<real>, atr: seq<real>,
                             h: nat, profitMult: real, stopMult: real, i: nat)
    requires Aligned(closes, highs, lows, atr) && i + h < |closes| && atr[i] != 0.0
    ensures var up := ProfitBarrier(closes, atr, i, profitMult);
            var down := StopBarrier(closes, atr, i, stopMult);
            (ProfitFirstFrom(highs, lows, i, 1, h, up, down) ==> !StopFirstFrom(highs, lows, i, 1, h, up, down))
            && (ProfitFirstFrom(highs, lows, i, 1, h, up, down) || StopFirstFrom(highs, lows, i, 1, h, up, down)
                || UntouchedFrom(highs, lows, i, 1, h, up, down))
  {
    var up := ProfitBarrier(closes, atr, i, profitMult);
    var down := StopBarrier(closes, atr, i, stopMult);
    ScanProfitIff(highs, lows, i, 1, h, up, down);
    ScanStopIff(highs, lows, i, 1, h, up, down);
    ScanNoneIff(highs, lows, i, 1, h, up, down);
    ScanIsDirectional(highs, lows, i, 1, h, up, down);
  }

  /** A bar whose profit and stop barriers are both first touched at the same offset is labelled UPSIDE. */
  lemma SameBarTieGoesToProfit(closes: seq<real>, highs: seq<real>, lows: seq<real>, atr: seq<real>,
                               h: nat, profitMult: real, stopMult: real, i: nat, t: nat)
    requires Aligned(closes, highs, lows, atr) && i + h < |closes| && atr[i] != 0.0 && 1 <= t <= h
    requires ProfitTouched(highs, i, t, ProfitBarrier(closes, atr, i, profitMult))
    requires StopTouched(lows, i, t, StopBarrier(closes, atr, i, stopMult))
    requires forall k: nat :: 1 <= k < t ==> !StopTouched(lows, i, k, StopBarrier(closes, atr, i, stopMult))
    ensures BarrierLabel(closes, highs, lows, atr, h, profitMult, stopMult, i) == UPSIDE
  {
    var up := ProfitBarrier(closes, atr, i, profitMult);
    var down := StopBarrier(closes, atr, i, stopMult);
    assert ProfitFirstFrom(highs, lows, i, 1, h, up, down);
    ScanProfitIff(highs, lows, i, 1, h, up, down);
  }

  /**
   * The labeler loop. Reads of `highs`, `lows` and `closes` stay inside
   * `[i, i+h]`, which lies inside the arrays for every labelled bar.
   */
  method CreateLabelsTripleBarrier(closes: seq<real>, highs: seq<real>, lows: seq<real>, atr: seq<real>,
                                   futurePeriods: nat, profitMultiplier: real, stopMultiplier: real)
    returns (labels: seq<int>)
    requires Aligned(closes, highs, lows, atr)
    ensures |labels| == |closes|
    ensures forall i :: 0 <= i < |labels| ==>
              labels[i] == BarrierLabel(closes, highs, lows, atr, futurePeriods, profitMultiplier, stopMultiplier, i)
    ensures forall i :: 0 <= i < |labels| ==> labels[i] in {NEUTRAL, UPSIDE, DOWNSIDE}
    ensures forall i :: 0 <= i < |labels| ==>
              (labels[i] == NEUTRAL <==> i + futurePeriods >= |closes| || atr[i] == 0.0)
  {
    var n := |closes|;
    labels := seq(n, _ => NEUTRAL);
    var limit := if n > futurePeriods then n - futurePeriods else 0;
    var i := 0;
    while i < limit
      invariant 0 <= i <= limit <= n && |labels| == n
      invariant forall k :: 0 <= k < i ==>
                  labels[k] == BarrierLabel(closes, highs, lows, atr, futurePeriods, profitMultiplier, stopMultiplier, k)
      invariant forall k :: i <= k < n ==> labels[k] == NEUTRAL
    {
      if atr[i] != 0.0 {
        var profitBarrier := closes[i] + atr[i] * profitMultiplier;
        var stopBarrier := closes[i] - atr[i] * stopMultiplier;
        var targetHit := false;
        var j := 1;
        ghost var before := labels;
        while j <= futurePeriods && !targetHit
          invariant 1 <= j <= futurePeriods + 1 && |labels| == n
          invariant forall k :: 0 <= k < n && k != i ==> labels[k] == before[k]
          invariant targetHit ==> Scan(highs, lows, i, 1, futurePeriods, profitBarrier, stopBarrier) == Some(labels[i])
          invariant !targetHit ==> labels[i] == NEUTRAL
          invariant !targetHit ==> Scan(highs, lows, i, 1, futurePeriods, profitBarrier, stopBarrier)
                                   == Scan(highs, lows, i, j, futurePeriods, profitBarrier, stopBarrier)
          decreases futurePeriods + 1 - j, if targetHit then 0 else 1
        {
          if highs[i + j] >= profitBarrier {
            labels := labels[i := UPSIDE];
            targetHit := true;
          } else if lows[i + j] <= stopBarrier {
            labels := labels[i := DOWNSIDE];
            targetHit := true;
          } else {
            j := j + 1;
          }
        }
        if !targetHit {
          labels := labels[i := if closes[i + futurePeriods] > closes[i] then UPSIDE else DOWNSIDE];
        }
      }
      i := i + 1;
    }
    forall k | 0 <= k < n
      ensures labels[k] in {NEUTRAL, UPSIDE, DOWNSIDE}
      ensures labels[k] == NEUTRAL <==> k + futurePeriods >= n || atr[k] == 0.0
    {
      if k + futurePeriods < n && atr[k] != 0.0 {
        ScanIsDirectional(highs, lows, k, 1, futurePeriods,
                          ProfitBarrier(closes, atr, k, profitMultiplier), StopBarrier(closes, atr, k, stopMultiplier));
      }
    }
  }

  // ---------------------------------------------------------------------------
  // ModelTrainer.train data guards
  // ---------------------------------------------------------------------------

  datatype TrainVerdict = TooFewRows | EmptyFeatures | TooFewExamples | Fit

  /**
   * Whether `train` goes on to fit a model: `rawRows` is the length of the
   * input window, `labels` the labels of the rows left after feature
   * preparation. Every other verdict makes `train` return `(None, None)`.
   */
  function TrainGuard(rawRows: nat, labels: seq<int>): (v: TrainVerdict)
    ensures v == Fit <==> rawRows >= MIN_TRAIN_ROWS
                          && Count(labels, UPSIDE) >= MIN_CLASS_EXAMPLES
                          && Count(labels, DOWNSIDE) >= MIN_CLASS_EXAMPLES
    ensures v == TooFewRows <==> rawRows < MIN_TRAIN_ROWS
  {
    if rawRows < MIN_TRAIN_ROWS then TooFewRows
    else if |labels| == 0 then EmptyFeatures
    else if Count(labels, UPSIDE) < MIN_CLASS_EXAMPLES || Count(labels, DOWNSIDE) < MIN_CLASS_EXAMPLES then TooFewExamples
    else Fit
  }

  /** Only the first `m` entries can carry a directional label when the rest are NEUTRAL. */
  lemma {:induction false} DirectionalLabelsInPrefix(labels: seq<int>, m: nat)
    requires m <= |labels|
    requires forall k :: m <= k < |labels| ==> labels[k] == NEUTRAL
    ensures Count(labels, UPSIDE) + Count(labels, DOWNSIDE) <= m
    decreases |labels|
  {
    if |labels| == m {
      CountPairBound(labels, UPSIDE, DOWNSIDE);
    } else {
      DirectionalLabelsInPrefix(labels[..|labels| - 1], m);
    }
  }

  /**
   * A window whose triple-barrier labels pass the guard has at least
   * `2 * MIN_CLASS_EXAMPLES` bars beyond the look-ahead horizon.
   */
  lemma FitNeedsRoomBeyondHorizon(closes: seq<real>, highs: seq<real>, lows: seq<real>, atr: seq<real>,
                                  h: nat, profitMult: real, stopMult: real, labels: seq<int>, rawRows: nat)
    requires Aligned(closes, highs, lows, atr) && |labels| == |closes|
    requires forall i :: 0 <= i < |labels| ==> labels[i] == BarrierLabel(closes, highs, lows, atr, h, profitMult, stopMult, i)
    requires TrainGuard(rawRows, labels) == Fit
    ensures |closes| >= h + 2 * MIN_CLASS_EXAMPLES
  {
    var m := if |closes| > h then |closes| - h else 0;
    DirectionalLabelsInPrefix(labels, m);
  }
}
