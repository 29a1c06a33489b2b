/**
 * The adaptive confidence controller (`AdaptiveConfidenceManager`): a scalar
 * threshold moved against each trade's PnL, the PnL clamped to +-2% and the
 * result clamped to [min_confidence, max_confidence]. It is a standalone unit;
 * the backtest simulator does not use it.
 */
module Confidence {
  import opened Common

  const DEFAULT_LEARNING_RATE: real := 0.05
  const DEFAULT_MIN_CONFIDENCE: real := 0.505
  const DEFAULT_MAX_CONFIDENCE: real := 0.85
  /** PnL beyond +-PNL_CLAMP moves the threshold no further. */
  const PNL_CLAMP: real := 0.02

  datatype Manager = Manager(
    initialConfidence: real,
    currentConfidence: real,
    learningRate: real,
    minConfidence: real,
    maxConfidence: real,
    tradeCount: nat)

  /** Construction: the initial threshold is taken as given, without clamping. */
  function New(initialConfidence: real, learningRate: real, minConfidence: real, maxConfidence: real): (m: Manager)
    ensures m.currentConfidence == initialConfidence && m.initialConfidence == initialConfidence
    ensures m.tradeCount == 0
    ensures m.learningRate == learningRate && m.minConfidence == minConfidence && m.maxConfidence == maxConfidence
  {
    Manager(initialConfidence, initialConfidence, learningRate, minConfidence, maxConfidence, 0)
  }

  /** Construction with the default learning rate and bounds. */
  function NewWithDefaults(initialConfidence: real): (m: Manager)
    ensures m.learningRate == 0.05 && m.minConfidence == 0.505 && m.maxConfidence == 0.85
    ensures m.currentConfidence == initialConfidence && m.initialConfidence == initialConfidence
    ensures m.tradeCount == 0
  {
    New(initialConfidence, DEFAULT_LEARNING_RATE, DEFAULT_MIN_CONFIDENCE, DEFAULT_MAX_CONFIDENCE)
  }

  predicate InBounds(m: Manager) {
    m.minConfidence <= m.currentConfidence <= m.maxConfidence
  }

  /** `get_confidence`: the current threshold; the state is a value and is not changed. */
  function GetConfidence(m: Manager): (r: real)
    ensures InBounds(m) ==> m.minConfidence <= r <= m.maxConfidence
    ensures r == m.currentConfidence
  {
    m.currentConfidence
  }

  /** `update(pnl_percent)`. */
  function Update(m: Manager, pnlPercent: real): (r: Manager)
    ensures r.tradeCount == m.tradeCount + 1
    ensures r.(currentConfidence := m.currentConfidence, tradeCount := m.tradeCount) == m
    ensures m.minConfidence <= m.maxConfidence ==> InBounds(r)
  {
    var clampedPnl := Clip(pnlPercent, -PNL_CLAMP, PNL_CLAMP);
    var adjustment := m.learningRate * clampedPnl;
    var newConfidence := m.currentConfidence - adjustment;
    m.(tradeCount := m.tradeCount + 1, currentConfidence := Clip(newConfidence, m.minConfidence, m.maxConfidence))
  }

  /** A learning rate times a clamped PnL is at most `learning_rate * 0.02` in size. */
  lemma ScaledClampBound(learningRate: real, c: real)
    requires learningRate >= 0.0 && -0.02 <= c <= 0.02
    ensures -(learningRate * 0.02) <= learningRate * c <= learningRate * 0.02
  {
    MulLeq(learningRate, c, 0.02);
    MulLeq(learningRate, -0.02, c);
  }

  /** From an in-bounds threshold, one update moves it by at most `learning_rate * 0.02`. */
  lemma UpdateStepIsBounded(m: Manager, pnlPercent: real)
    requires InBounds(m) && m.learningRate >= 0.0
    ensures Abs(Update(m, pnlPercent).currentConfidence - m.currentConfidence) <= m.learningRate * PNL_CLAMP
  {
    ClipStepBound(m.currentConfidence, m.minConfidence, m.maxConfidence, m.learningRate, Clip(pnlPercent, -PNL_CLAMP, PNL_CLAMP));
  }

  /**
   * Moving an in-interval value by `learningRate * c`, with `c` inside the PnL
   * clamp, and clipping back keeps it within one full step of where it was.
   */
  lemma ClipStepBound(cur: real, lo: real, hi: real, learningRate: real, c: real)
    requires lo <= cur <= hi && learningRate >= 0.0 && -0.02 <= c <= 0.02
    ensures Abs(Clip(cur - learningRate * c, lo, hi) - cur) <= learningRate * 0.02
  {
    ScaledClampBound(learningRate, c);
    assert -(learningRate * 0.02) <= learningRate * c;
    ClipMoveBound(cur, lo, hi, learningRate * c, learningRate * 0.02);
  }

  /** Clipping a move of at most `bound` back into `[lo, hi]` never lengthens it. */
  lemma ClipMoveBound(cur: real, lo: real, hi: real, move: real, bound: real)
    requires lo <= cur <= hi && -bound <= move <= bound
    ensures Abs(Clip(cur - move, lo, hi) - cur) <= bound
  {
    var x := cur - move;
    if x < lo {
      assert Clip(x, lo, hi) == lo;
    } else if x > hi {
      assert Clip(x, lo, hi) == hi;
    } else {
      assert Clip(x, lo, hi) == x;
    }
  }

  /**
   * With a positive learning rate and an in-bounds threshold, a profit never
   * raises the threshold and a loss never lowers it.
   */
  lemma UpdateMovesAgainstPnl(m: Manager, pnlPercent: real)
    requires InBounds(m) && m.learningRate > 0.0
    ensures pnlPercent > 0.0 ==> Update(m, pnlPercent).currentConfidence <= m.currentConfidence
    ensures pnlPercent < 0.0 ==> Update(m, pnlPercent).currentConfidence >= m.currentConfidence
    ensures pnlPercent == 0.0 ==> Update(m, pnlPercent).currentConfidence == m.currentConfidence
  {
    var c := Clip(pnlPercent, -PNL_CLAMP, PNL_CLAMP);
    if pnlPercent > 0.0 {
      assert c > 0.0;
      assert m.learningRate * c > 0.0;
    } else if pnlPercent < 0.0 {
      assert c < 0.0;
      assert m.learningRate * c < 0.0;
    }
  }

  /** PnL beyond +-0.02 has exactly the effect of +-0.02. */
  lemma UpdateSaturates(m: Manager, pnlPercent: real)
    ensures pnlPercent >= PNL_CLAMP ==> Update(m, pnlPercent) == Update(m, PNL_CLAMP)
    ensures pnlPercent <= -PNL_CLAMP ==> Update(m, pnlPercent) == Update(m, -PNL_CLAMP)
  {
  }

  /** Threshold after feeding a sequence of trade results in order. */
  function UpdateAll(m: Manager, pnls: seq<real>): (r: Manager)
    ensures r.tradeCount == m.tradeCount + |pnls|
    ensures r.(currentConfidence := m.currentConfidence, tradeCount := m.tradeCount) == m
    ensures m.minConfidence <= m.maxConfidence && |pnls| > 0 ==> InBounds(r)
    decreases |pnls|
  {
    if |pnls| == 0 then m else UpdateAll(Update(m, pnls[0]), pnls[1..])
  }

  /** A gain of at least 2% lowers an in-bounds threshold by exactly one full step, floored at the minimum. */
  lemma UpdateOnLargeGain(m: Manager, pnlPercent: real)
    requires InBounds(m) && m.learningRate >= 0.0 && pnlPercent >= PNL_CLAMP
    ensures Update(m, pnlPercent).currentConfidence == Max(m.minConfidence, m.currentConfidence - m.learningRate * PNL_CLAMP)
  {
    MulNonneg(m.learningRate, PNL_CLAMP);
  }

  /** A loss of at least 2% raises an in-bounds threshold by exactly one full step, capped at the maximum. */
  lemma UpdateOnLargeLoss(m: Manager, pnlPercent: real)
    requires InBounds(m) && m.learningRate >= 0.0 && pnlPercent <= -PNL_CLAMP
    ensures Update(m, pnlPercent).currentConfidence == Min(m.maxConfidence, m.currentConfidence + m.learningRate * PNL_CLAMP)
  {
    MulNonneg(m.learningRate, PNL_CLAMP);
  }

  /** The largest move one update can make: `learning_rate * 0.02`. */
  function FullStep(m: Manager): real {
    m.learningRate * PNL_CLAMP
  }

  /** `k` full steps of size `step`, summed one at a time. */
  function Steps(k: nat, step: real): (r: real)
    ensures step >= 0.0 ==> r >= 0.0
  {
    if k == 0 then 0.0 else step + Steps(k - 1, step)
  }

  lemma {:induction false} StepsIsProduct(k: nat, step: real)
    ensures Steps(k, step) == (k as real) * step
  {
    if k > 0 {
      StepsIsProduct(k - 1, step);
      assert (k as real) * step == step + ((k - 1) as real) * step;
    }
  }

  /** Feeding a non-empty sequence is one update followed by the rest. */
  lemma UpdateAllCons(m: Manager, pnls: seq<real>)
    requires |pnls| > 0
    ensures UpdateAll(m, pnls) == UpdateAll(Update(m, pnls[0]), pnls[1..])
  {
  }

  /**
   * Repeated large gains drive the threshold down by `learning_rate * 0.02`
   * per trade until it rests at `min_confidence`, never below.
   */
  lemma {:induction false} RepeatedGainsFloorAtMin(m: Manager, pnls: seq<real>)
    requires InBounds(m) && m.learningRate >= 0.0
    requires forall k :: 0 <= k < |pnls| ==> pnls[k] >= PNL_CLAMP
    ensures UpdateAll(m, pnls).currentConfidence
            == Max(m.minConfidence, m.currentConfidence - Steps(|pnls|, FullStep(m)))
    decreases |pnls|
  {
    if |pnls| > 0 {
      var m1 := Update(m, pnls[0]);
      var tail := pnls[1..];
      UpdateOnLargeGain(m, pnls[0]);
      assert forall k :: 0 <= k < |tail| ==> tail[k] >= PNL_CLAMP by {
        forall k | 0 <= k < |tail| ensures tail[k] >= PNL_CLAMP {
          assert tail[k] == pnls[k + 1];
        }
      }
      RepeatedGainsFloorAtMin(m1, tail);
      UpdateAllCons(m, pnls);
      MulNonneg(m.learningRate, PNL_CLAMP);
      assert FullStep(m1) == FullStep(m);
    }
  }

  /**
   * Repeated large losses drive the threshold up by `learning_rate * 0.02`
   * per trade until it rests at `max_confidence`, never above.
   */
  lemma {:induction false} RepeatedLossesCapAtMax(m: Manager, pnls: seq<real>)
    requires InBounds(m) && m.learningRate >= 0.0
    requires forall k :: 0 <= k < |pnls| ==> pnls[k] <= -PNL_CLAMP
    ensures UpdateAll(m, pnls).currentConfidence
            == Min(m.maxConfidence, m.currentConfidence + Steps(|pnls|, FullStep(m)))
    decreases |pnls|
  {
    if |pnls| > 0 {
      var m1 := Update(m, pnls[0]);
      var tail := pnls[1..];
      UpdateOnLargeLoss(m, pnls[0]);
      assert forall k :: 0 <= k < |tail| ==> tail[k] <= -PNL_CLAMP by {
        forall k | 0 <= k < |tail| ensures tail[k] <= -PNL_CLAMP {
          assert tail[k] == pnls[k + 1];
        }
      }
      RepeatedLossesCapAtMax(m1, tail);
      UpdateAllCons(m, pnls);
      MulNonneg(m.learningRate, PNL_CLAMP);
      assert FullStep(m1) == FullStep(m);
    }
  }

  /** With the default bounds the threshold stays strictly above the 0.5 decision boundary after any update. */
  lemma DefaultThresholdAboveCoinFlip(initialConfidence: real, pnls: seq<real>)
    requires |pnls| > 0
    ensures UpdateAll(NewWithDefaults(initialConfidence), pnls).currentConfidence > 0.5
  {
  }
}
