/** The optimizer of one controller call: the actuator clamp, the secant
    descent step over the horizon, the iteration driver with its decaying
    learning rate, and the horizon reference it tracks. */
module Optimizer {
  import opened Python
  import opened Predictor
  import opened Cost
  import opened Reference
  import Arith

  /** The actuator limits [lo, hi] (sat[0] and sat[1]). */
  datatype Bounds = Bounds(lo: real, hi: real)

  /** A two-slot history [current, previous] (histU[i] and histf). */
  datatype Hist = Hist(cur: real, prev: real)

  /** windup_check: the actuator saturation. */
  function WindupCheck(up: real, sat: Bounds): (r: real)
    ensures sat.lo <= sat.hi ==> sat.lo <= r <= sat.hi
    ensures sat.lo < up < sat.hi ==> r == up
    ensures r == up || r == sat.lo || r == sat.hi
    ensures up >= sat.hi ==> r == sat.hi
    ensures up < sat.hi && up <= sat.lo ==> r == sat.lo
  {
    if up >= sat.hi then sat.hi
    else if up <= sat.lo then sat.lo
    else up
  }

  /** With lo <= hi the clamp returns the point of [lo, hi] nearest to up. */
  lemma WindupNearest(up: real, sat: Bounds, z: real)
    requires sat.lo <= z <= sat.hi
    ensures var r := WindupCheck(up, sat);
      (if r <= up then up - r else r - up) <= (if z <= up then up - z else z - up)
  {
  }

  /** Clamping twice is clamping once. */
  lemma WindupIdempotent(up: real, sat: Bounds)
    requires sat.lo <= sat.hi
    ensures WindupCheck(WindupCheck(up, sat), sat) == WindupCheck(up, sat)
  {
  }

  /** The clamp preserves order. */
  lemma WindupMonotone(a: real, b: real, sat: Bounds)
    requires sat.lo <= sat.hi && a <= b
    ensures WindupCheck(a, sat) <= WindupCheck(b, sat)
  {
  }

  /** The 1e-25 added to every secant denominator. */
  const Eps: real := 0.0000000000000000000000001

  /** The secant denominator for input i: histU[i][0] - histU[i][1] + 1e-25.
      It is 1e-25 when the two inputs agree, and zero exactly when the
      previous input exceeds the current one by 1e-25. */
  function Denominator(hu: Hist): (d: real)
    ensures hu.cur == hu.prev ==> d == Eps
    ensures d == 0.0 <==> hu.prev == hu.cur + Eps
  {
    hu.cur - hu.prev + Eps
  }

  /** The secant increment of Up[i]: -lr times the cost difference over the
      input difference (plus Eps): times the denominator it is -lr times the
      cost difference, and an unchanged cost leaves the input where it is. */
  function Increment(lr: real, f: Hist, hu: Hist): (r: real)
    requires Denominator(hu) != 0.0
    ensures r * Denominator(hu) == -lr * (f.cur - f.prev)
    ensures f.cur == f.prev ==> r == 0.0
  {
    (-lr) * (f.cur - f.prev) / Denominator(hu)
  }

  /** The new Up[i]: one secant step on the cost difference f, then the clamp. */
  function SecantStep(lr: real, f: Hist, up: real, hu: Hist, sat: Bounds): (r: real)
    requires Denominator(hu) != 0.0
    ensures sat.lo <= sat.hi ==> sat.lo <= r <= sat.hi
  {
    WindupCheck(up + Increment(lr, f, hu), sat)
  }

  /** The first index whose secant denominator is zero, or |hist| when none is. */
  function FirstSingular(hist: seq<Hist>): (j: nat)
    ensures j <= |hist|
    ensures forall k :: 0 <= k < j ==> Denominator(hist[k]) != 0.0
    ensures j < |hist| ==> Denominator(hist[j]) == 0.0
    decreases |hist|
  {
    if |hist| == 0 then 0
    else if Denominator(hist[0]) == 0.0 then 0
    else 1 + FirstSingular(hist[1..])
  }

  /** descent_gradient on values: every input takes its secant step with the
      same cost pair f, and its history shifts to [new input, old current];
      a zero denominator anywhere raises. */
  function Descend(lr: real, f: Hist, up: seq<real>, hist: seq<Hist>, sat: Bounds): (r: Result<(seq<real>, seq<Hist>)>)
    requires |up| == |hist|
    ensures r.Ok? <==> FirstSingular(hist) == |hist|
    ensures r.Err? ==> r.error == ZeroDivisionError
    ensures r.Ok? ==> |r.value.0| == |up| && |r.value.1| == |hist|
  {
    if FirstSingular(hist) < |hist| then Err(ZeroDivisionError)
    else
      var up' := seq(|up|, k requires 0 <= k < |up| => SecantStep(lr, f, up[k], hist[k], sat));
      Ok((up', seq(|up|, k requires 0 <= k < |up| => Hist(up'[k], hist[k].cur))))
  }

  /** After a descent step every input lies within the actuator limits, every
      history holds [new input, old current], and every input moved by the
      step computed from the one shared cost pair. */
  lemma DescendProperties(lr: real, f: Hist, up: seq<real>, hist: seq<Hist>, sat: Bounds)
    requires |up| == |hist| && sat.lo <= sat.hi
    requires Descend(lr, f, up, hist, sat).Ok?
    ensures var (up', hist') := Descend(lr, f, up, hist, sat).value;
      forall k :: 0 <= k < |up| ==>
        Denominator(hist[k]) != 0.0 &&
        sat.lo <= up'[k] <= sat.hi &&
        up'[k] == SecantStep(lr, f, up[k], hist[k], sat) &&
        hist'[k].cur == up'[k] && hist'[k].prev == hist[k].cur
  {
    var (up', hist') := Descend(lr, f, up, hist, sat).value;
    forall k | 0 <= k < |up|
      ensures Denominator(hist[k]) != 0.0 && sat.lo <= up'[k] <= sat.hi
      ensures up'[k] == SecantStep(lr, f, up[k], hist[k], sat)
      ensures hist'[k].cur == up'[k] && hist'[k].prev == hist[k].cur
    {
    }
  }

  /** Descend is the pointwise step: any pair of sequences that takes the
      secant step and shifts the history at every index is its result. */
  lemma DescendExactly(lr: real, f: Hist, up: seq<real>, hist: seq<Hist>, sat: Bounds,
                       up': seq<real>, hist': seq<Hist>)
    requires |up| == |hist| == |up'| == |hist'| && FirstSingular(hist) == |hist|
    requires forall k :: 0 <= k < |up| ==>
      up'[k] == SecantStep(lr, f, up[k], hist[k], sat) && hist'[k] == Hist(up'[k], hist[k].cur)
    ensures Descend(lr, f, up, hist, sat) == Ok((up', hist'))
  {
    var d := Descend(lr, f, up, hist, sat).value;
    assert d.0 == up';
    assert d.1 == hist';
  }

  /** Inputs whose history shows no change take the step
      -lr * (f[0] - f[1]) * 1e25 (here 1e25 is 1 / 1e-25). Once
      lr * (f[0] - f[1]) >= -lo * 1e-25 that step lies at or below lo, and the
      clamp puts the input on lo. */
  lemma FirstStepSaturates(lr: real, f: Hist, sat: Bounds)
    requires sat.lo <= sat.hi
    requires lr * (f.cur - f.prev) >= -sat.lo * Eps
    ensures Denominator(Hist(0.0, 0.0)) == Eps
    ensures SecantStep(lr, f, 0.0, Hist(0.0, 0.0), sat) == sat.lo
  {
    var p := lr * (f.cur - f.prev);
    assert (-lr) * (f.cur - f.prev) == -p;
    BelowAfterScaling(p, sat.lo);
  }

  lemma BelowAfterScaling(p: real, lo: real)
    requires p >= -lo * Eps
    ensures 0.0 + (-p) / Eps <= lo
  {
  }

  /** With Lrate = 0.005, a cost of 20 and limits [-10, 10] the first step
      lands deep below -10, and the clamp returns -10 on the very first call. */
  lemma FirstStepExample()
    ensures SecantStep(0.005, Hist(20.0, 0.0), 0.0, Hist(0.0, 0.0), Bounds(-10.0, 10.0)) == -10.0
  {
    FirstStepSaturates(0.005, Hist(20.0, 0.0), Bounds(-10.0, 10.0));
  }

  /** The controller's configuration as the optimizer sees it. */
  datatype Config = Config(
    ku: real, tau: real, cdt: real, timeRatio: int,
    h: nat, lrate: real, decay: real, iter: nat, sat: Bounds)

  /** What persists between controller calls: the planned inputs Up, their
      histories histU, the cost history histf and the last prediction Yp. */
  datatype OptState = OptState(up: seq<real>, histU: seq<Hist>, histf: Hist, yp: seq<real>)

  predicate Sized(c: Config, s: OptState)
  {
    |s.up| == c.h && |s.histU| == c.h && |s.yp| == c.h
  }

  /** One iteration of the optimizer at learning rate lr: predict, record the
      cost in histf[0], descend, then copy histf[0] into histf[1]. */
  function Iterate(c: Config, y: real, refH: seq<real>, lr: real, s: OptState): (r: Result<OptState>)
    requires Sized(c, s) && |refH| == c.h
    ensures r.Ok? ==> Sized(c, r.value)
  {
    if c.h > 0 && c.tau == 0.0 then Err(ZeroDivisionError)
    else
      var yp := Predicted(c.ku, c.tau, c.cdt, y, s.up);
      var cost := SumSqErr(yp, refH);
      match Descend(lr, Hist(cost, s.histf.prev), s.up, s.histU, c.sat)
      case Err(e) => Err(e)
      case Ok((up', hist')) => Ok(OptState(up', hist', Hist(cost, cost), yp))
  }

  /** The rate after one decay step. A factor of 1 (decay = 0 percent) keeps
      the rate; a factor in [0, 1] never raises a non-negative rate. */
  function Decay(lr: real, decay: real): (r: real)
    ensures decay == 1.0 ==> r == lr
    ensures 0.0 <= decay <= 1.0 && lr >= 0.0 ==> 0.0 <= r <= lr
  {
    Arith.ScaledBetween(lr, decay);
    lr * decay
  }

  /** The remaining k iterations from state s: the first at rate lr, each
      later one at the previous rate times decay. The first iteration that
      raises ends the run with its error. */
  function Run(c: Config, y: real, refH: seq<real>, s: OptState, lr: real, k: nat): (r: Result<OptState>)
    requires Sized(c, s) && |refH| == c.h
    ensures r.Ok? ==> Sized(c, r.value)
    decreases k
  {
    if k == 0 then Ok(s)
    else
      match Iterate(c, y, refH, lr, s)
      case Err(e) => Err(e)
      case Ok(s') => Run(c, y, refH, s', Decay(lr, c.decay), k - 1)
  }

  /** The successful iteration, given its prediction, cost and descent. */
  lemma IterateFrom(c: Config, y: real, refH: seq<real>, lr: real, s: OptState,
                    cost: real, up': seq<real>, hist': seq<Hist>)
    requires Sized(c, s) && |refH| == c.h && (c.h == 0 || c.tau != 0.0)
    requires cost == SumSqErr(Predicted(c.ku, c.tau, c.cdt, y, s.up), refH)
    requires Descend(lr, Hist(cost, s.histf.prev), s.up, s.histU, c.sat) == Ok((up', hist'))
    ensures Iterate(c, y, refH, lr, s) == Ok(OptState(up', hist', Hist(cost, cost), Predicted(c.ku, c.tau, c.cdt, y, s.up)))
  {
  }

  /** After at least one iteration both cost slots hold the summed squared
      error of the stored prediction against the window, which is >= 0, and
      every input is within the limits with histU[i][0] == Up[i]. */
  lemma {:induction false} RunInvariant(c: Config, y: real, refH: seq<real>, s: OptState, lr: real, k: nat)
    requires Sized(c, s) && |refH| == c.h && k >= 1 && c.sat.lo <= c.sat.hi
    requires Run(c, y, refH, s, lr, k).Ok?
    ensures var s' := Run(c, y, refH, s, lr, k).value;
      s'.histf.cur == s'.histf.prev == SumSqErr(s'.yp, refH) >= 0.0 &&
      forall i :: 0 <= i < c.h ==> c.sat.lo <= s'.up[i] <= c.sat.hi && s'.histU[i].cur == s'.up[i]
    decreases k
  {
    var p := Iterate(c, y, refH, lr, s).value;
    if k == 1 {
      var yp := Predicted(c.ku, c.tau, c.cdt, y, s.up);
      var cost := SumSqErr(yp, refH);
      DescendProperties(lr, Hist(cost, s.histf.prev), s.up, s.histU, c.sat);
    } else {
      RunInvariant(c, y, refH, p, Decay(lr, c.decay), k - 1);
    }
  }

  /** The stored prediction after an iteration is the plant chained from y over
      the inputs the iteration started from. */
  lemma IteratePredicts(c: Config, y: real, refH: seq<real>, lr: real, s: OptState)
    requires Sized(c, s) && |refH| == c.h && c.tau != 0.0
    ensures Iterate(c, y, refH, lr, s).Ok? ==>
      Iterate(c, y, refH, lr, s).value.yp == Predicted(c.ku, c.tau, c.cdt, y, s.up)
  {
  }

  /** With tau == 0 a non-empty horizon raises on the first prediction. */
  lemma RunWithoutPlant(c: Config, y: real, refH: seq<real>, s: OptState, lr: real, k: nat)
    requires Sized(c, s) && |refH| == c.h && c.h > 0 && c.tau == 0.0 && k >= 1
    ensures Run(c, y, refH, s, lr, k) == Err(ZeroDivisionError)
  {
  }

  /** The rate after j decay steps from lr. */
  function Decays(lr: real, decay: real, j: nat): real
    decreases j
  {
    if j == 0 then lr else Decays(Decay(lr, decay), decay, j - 1)
  }

  function Pow(x: real, k: nat): real
  {
    if k == 0 then 1.0 else x * Pow(x, k - 1)
  }

  /** Decaying j times multiplies the rate by decay^j. */
  lemma {:induction false} DecaysIsPower(lr: real, decay: real, j: nat)
    ensures Decays(lr, decay, j) == lr * Pow(decay, j)
    decreases j
  {
    if j > 0 {
      var lr' := Decay(lr, decay);
      assert lr' == lr * decay;
      DecaysIsPower(lr', decay, j - 1);
      assert (lr * decay) * Pow(decay, j - 1) == lr * (decay * Pow(decay, j - 1));
    }
  }

  /** A run of j + k iterations is a run of j followed by a run of k from
      where the first stopped, at the rate the first would have used next. */
  lemma {:induction false} RunSplit(c: Config, y: real, refH: seq<real>, s: OptState, lr: real, j: nat, k: nat)
    requires Sized(c, s) && |refH| == c.h
    ensures Run(c, y, refH, s, lr, j + k) ==
      match Run(c, y, refH, s, lr, j)
      case Err(e) => Err(e)
      case Ok(s') => Run(c, y, refH, s', Decays(lr, c.decay, j), k)
    decreases j
  {
    if j > 0 {
      var it := Iterate(c, y, refH, lr, s);
      RunFirst(c, y, refH, s, lr, j, k);
      if it.Ok? {
        RunSplit(c, y, refH, it.value, Decay(lr, c.decay), j - 1, k);
      }
    }
  }

  /* The first iteration of a run of j >= 1 and of one of j + k, seen alike. */
  lemma RunFirst(c: Config, y: real, refH: seq<real>, s: OptState, lr: real, j: nat, k: nat)
    requires Sized(c, s) && |refH| == c.h && j > 0
    ensures var it := Iterate(c, y, refH, lr, s);
      (it.Err? ==> Run(c, y, refH, s, lr, j + k) == Err(it.error) && Run(c, y, refH, s, lr, j) == Err(it.error)) &&
      (it.Ok? ==> Run(c, y, refH, s, lr, j + k) == Run(c, y, refH, it.value, Decay(lr, c.decay), j - 1 + k) &&
                  Run(c, y, refH, s, lr, j) == Run(c, y, refH, it.value, Decay(lr, c.decay), j - 1) &&
                  Decays(lr, c.decay, j) == Decays(Decay(lr, c.decay), c.decay, j - 1))
  {
  }

  /** mpc: window the reference, run the iterations, return Up[0]. */
  function MpcSpec(c: Config, ref: seq<real>, n: int, y: real, s: OptState): (r: Result<(real, OptState)>)
    requires Sized(c, s)
    ensures r.Ok? ==> Sized(c, r.value.1) && c.h >= 1 && r.value.0 == r.value.1.up[0]
  {
    match Window(ref, n, c.h, c.timeRatio)
    case Err(e) => Err(e)
    case Ok(refH) =>
      match Run(c, y, refH, s, c.lrate, c.iter)
      case Err(e) => Err(e)
      case Ok(s') =>
        match Index(s'.up, 0)
        case Err(e) => Err(e)
        case Ok(u) => Ok((u, s'))
  }

  /** An empty horizon always raises: there is no Up[0] to return. */
  lemma MpcEmptyHorizon(c: Config, ref: seq<real>, n: int, y: real, s: OptState)
    requires Sized(c, s) && c.h == 0
    ensures MpcSpec(c, ref, n, y, s).Err?
  {
  }

  /** With no iterations the call changes nothing and returns the stored Up[0]. */
  lemma MpcWithoutIterations(c: Config, ref: seq<real>, n: int, y: real, s: OptState)
    requires Sized(c, s) && c.iter == 0 && c.h >= 1 && |ref| > 0 && n >= 0 && c.timeRatio >= 0
    ensures MpcSpec(c, ref, n, y, s) == Ok((s.up[0], s))
  {
    WindowClamps(ref, n, c.h, c.timeRatio);
  }

  /** With at least one iteration and ordered limits, the returned action is
      within the actuator limits. */
  lemma MpcWithinLimits(c: Config, ref: seq<real>, n: int, y: real, s: OptState)
    requires Sized(c, s) && c.iter >= 1 && c.sat.lo <= c.sat.hi
    requires MpcSpec(c, ref, n, y, s).Ok?
    ensures c.sat.lo <= MpcSpec(c, ref, n, y, s).value.0 <= c.sat.hi
  {
    var refH := Window(ref, n, c.h, c.timeRatio).value;
    RunInvariant(c, y, refH, s, c.lrate, c.iter);
  }
}
