/** The horizon predictor: the plant chained over the control sequence, one
    control period per step. */
module Predictor {
  import opened Plant

  /** The state a prediction continues from: the last predicted output, or the
      current plant output when nothing has been predicted yet. */
  function Start(y0: real, p: seq<real>): real
  {
    if |p| == 0 then y0 else p[|p| - 1]
  }

  /** The outputs predicted from y0 under the inputs `up`, one step of length
      `step` per input; with no inputs the plant model is never evaluated. */
  function Predicted(ku: real, tau: real, step: real, y0: real, up: seq<real>): (p: seq<real>)
    requires |up| == 0 || tau != 0.0
    ensures |p| == |up|
    decreases |up|
  {
    if |up| == 0 then []
    else
      var q := Predicted(ku, tau, step, y0, up[..|up| - 1]);
      q + [RkStep(ku, tau, Start(y0, q), up[|up| - 1], step)]
  }

  /** Predicting a prefix of the inputs gives the same prefix of the outputs. */
  lemma {:induction false} PredictedPrefix(ku: real, tau: real, step: real, y0: real, up: seq<real>, j: nat)
    requires tau != 0.0 && j <= |up|
    ensures Predicted(ku, tau, step, y0, up[..j]) == Predicted(ku, tau, step, y0, up)[..j]
    decreases |up|
  {
    if j < |up| {
      var up' := up[..|up| - 1];
      PredictedPrefix(ku, tau, step, y0, up', j);
      assert up'[..j] == up[..j];
    } else {
      assert up[..j] == up;
    }
  }

  /** One more input appends one more step from the last predicted output. */
  lemma PredictedSnoc(ku: real, tau: real, step: real, y0: real, up: seq<real>, i: nat)
    requires tau != 0.0 && i < |up|
    ensures var p := Predicted(ku, tau, step, y0, up[..i]);
      Predicted(ku, tau, step, y0, up[..i + 1]) == p + [RkStep(ku, tau, Start(y0, p), up[i], step)]
  {
    assert up[..i + 1][..i] == up[..i];
  }

  /** Output 0 is one step from y0 under input 0, and output i one step from
      output i - 1 under input i. */
  lemma PredictedChain(ku: real, tau: real, step: real, y0: real, up: seq<real>, i: nat)
    requires tau != 0.0 && i < |up|
    ensures var p := Predicted(ku, tau, step, y0, up);
      p[i] == RkStep(ku, tau, if i == 0 then y0 else p[i - 1], up[i], step)
  {
    var p := Predicted(ku, tau, step, y0, up);
    PredictedPrefix(ku, tau, step, y0, up, i + 1);
    PredictedPrefix(ku, tau, step, y0, up, i);
    var up' := up[..i + 1];
    assert up'[..|up'| - 1] == up[..i];
    assert Predicted(ku, tau, step, y0, up') == p[..i] + [RkStep(ku, tau, Start(y0, p[..i]), up[i], step)];
  }

  /** Holding the plant at equilibrium predicts equilibrium all along. */
  lemma {:induction false} PredictedAtEquilibrium(ku: real, tau: real, step: real, y0: real, up: seq<real>)
    requires tau != 0.0
    requires forall i :: 0 <= i < |up| ==> up[i] == up[0]
    requires y0 == ku * (if |up| == 0 then 0.0 else up[0])
    ensures forall i :: 0 <= i < |up| ==> Predicted(ku, tau, step, y0, up)[i] == y0
    decreases |up|
  {
    if |up| > 0 {
      var up' := up[..|up| - 1];
      if |up'| > 0 {
        PredictedAtEquilibrium(ku, tau, step, y0, up');
      }
      var q := Predicted(ku, tau, step, y0, up');
      assert Start(y0, q) == y0;
      EquilibriumIsFixedPoint(ku, tau, y0, up[|up| - 1], step);
    }
  }
}
