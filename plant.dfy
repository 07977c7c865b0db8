/** The plant: a first-order lag dY/dt = (Ku*U - Y)/tau, and the four-stage
    integration step the controller applies to it. */
module Plant {
  import opened Arith

  /** dY/dt of the plant at output y under input u: zero exactly at
      equilibrium. */
  function FDev(ku: real, tau: real, y: real, u: real): (d: real)
    requires tau != 0.0
    ensures d == 0.0 <==> y == ku * u
  {
    (1.0 / tau) * (ku * u - y)
  }

  /** One integration step of length `step`, with the stage formulas exactly as
      the controller writes them: the intermediate states are y + 0.5*k1,
      y + 0.5*k2 and y + k3, without the factor `step`. What it does to the
      output is stated by EquilibriumIsFixedPoint and RkStepScalesDistance. */
  function RkStep(ku: real, tau: real, y: real, u: real, step: real): real
    requires tau != 0.0
  {
    var k1 := FDev(ku, tau, y, u);
    var k2 := FDev(ku, tau, y + 0.5 * k1, u);
    var k3 := FDev(ku, tau, y + 0.5 * k2, u);
    var k4 := FDev(ku, tau, y + k3, u);
    y + (step / 6.0) * (k1 + 2.0 * k2 + 2.0 * k3 + k4)
  }

  /** The textbook fourth-order Runge-Kutta step, as a reference to compare with. */
  function ClassicalRk4(ku: real, tau: real, y: real, u: real, step: real): real
    requires tau != 0.0
  {
    var k1 := FDev(ku, tau, y, u);
    var k2 := FDev(ku, tau, y + 0.5 * step * k1, u);
    var k3 := FDev(ku, tau, y + 0.5 * step * k2, u);
    var k4 := FDev(ku, tau, y + step * k3, u);
    y + (step / 6.0) * (k1 + 2.0 * k2 + 2.0 * k3 + k4)
  }

  /** The per-unit-time gain of one step: g - g^2/2 + g^3/6 - g^4/24 with g = 1/tau. */
  function StepGain(tau: real): real
    requires tau != 0.0
  {
    var g := 1.0 / tau;
    g - g * g / 2.0 + g * g * g / 6.0 - g * g * g * g / 24.0
  }

  /** An output at equilibrium (Y == Ku*U) is left unchanged by a step of
      any length. */
  lemma EquilibriumIsFixedPoint(ku: real, tau: real, y: real, u: real, step: real)
    requires tau != 0.0
    requires y == ku * u
    ensures RkStep(ku, tau, y, u, step) == y
  {
  }

  /** The step is affine: the distance to equilibrium is multiplied by
      1 - step * StepGain(tau). (Classical RK4 would multiply it by
      1 - h*g + (h*g)^2/2 - (h*g)^3/6 + (h*g)^4/24.) */
  lemma RkStepScalesDistance(ku: real, tau: real, y: real, u: real, step: real)
    requires tau != 0.0
    ensures RkStep(ku, tau, y, u, step) - ku * u == (1.0 - step * StepGain(tau)) * (y - ku * u)
  {
    var g, e := 1.0 / tau, ku * u - y;
    var k1 := FDev(ku, tau, y, u);
    var k2 := FDev(ku, tau, y + 0.5 * k1, u);
    var k3 := FDev(ku, tau, y + 0.5 * k2, u);
    var k4 := FDev(ku, tau, y + k3, u);
    var gain := StepGain(tau);
    assert k1 == g * e;
    assert k2 == g * (e - 0.5 * k1);
    assert k3 == g * (e - 0.5 * k2);
    assert k4 == g * (e - k3);
    StagesSum(g, e, gain, k1, k2, k3, k4);
    StepFromSum(y, ku * u, e, step, gain, k1 + 2.0 * k2 + 2.0 * k3 + k4);
  }

  /* The update y + step/6 * sum, once the sum is 6 * (Ku*U - y) * gain. */
  lemma StepFromSum(y: real, target: real, e: real, step: real, gain: real, sum: real)
    requires e == target - y && sum == 6.0 * e * gain
    ensures y + (step / 6.0) * sum - target == (1.0 - step * gain) * (y - target)
  {
  }

  /* The stage recurrence of RkStep, written with g = 1/tau and e = Ku*U - Y. */
  lemma StagesSum(g: real, e: real, gain: real, k1: real, k2: real, k3: real, k4: real)
    requires gain == g - g * g / 2.0 + g * g * g / 6.0 - g * g * g * g / 24.0
    requires k1 == g * e && k2 == g * (e - 0.5 * k1)
    requires k3 == g * (e - 0.5 * k2) && k4 == g * (e - k3)
    ensures k1 + 2.0 * k2 + 2.0 * k3 + k4 == 6.0 * e * gain
  {
    assert k2 == g * e - 0.5 * g * g * e;
    assert k3 == g * e - 0.5 * g * g * e + 0.25 * g * g * g * e;
    assert k4 == g * e - g * g * e + 0.5 * g * g * g * e - 0.25 * g * g * g * g * e;
  }

  /** Away from equilibrium a step brings the output closer to Ku*U exactly
      when 0 < step * StepGain(tau) < 2. */
  lemma RkStepContractsIff(ku: real, tau: real, y: real, u: real, step: real)
    requires tau != 0.0 && y != ku * u
    ensures AbsReal(RkStep(ku, tau, y, u, step) - ku * u) < AbsReal(y - ku * u)
        <==> 0.0 < step * StepGain(tau) < 2.0
  {
    RkStepScalesDistance(ku, tau, y, u, step);
    FactorMagnitude(RkStep(ku, tau, y, u, step) - ku * u, step * StepGain(tau), y - ku * u);
  }

  /** For a negative time constant, or one of at most 1/3, the gain is
      negative: with g = 1/tau >= 3 and d = g - 3,
      24 - 12g + 4g^2 - g^3 == -3 - 15d - 5d^2 - d^3 < 0. */
  lemma StepGainNegative(tau: real)
    requires tau < 0.0 || 0.0 < tau <= 1.0 / 3.0
    ensures StepGain(tau) < 0.0
  {
    var g := 1.0 / tau;
    assert g * tau == 1.0;
    if tau < 0.0 {
      var a := -g;
      if a <= 0.0 {
        NonNegativeProduct(-a, -tau);
        assert false;
      }
      PositiveProduct(a, a);
      PositiveProduct(a * a, a);
      PositiveProduct(a * a * a, a);
      assert StepGain(tau) == -a - a * a / 2.0 - a * a * a / 6.0 - a * a * a * a / 24.0;
    } else {
      if g < 3.0 {
        PositiveProduct(3.0 - g, tau);
        assert false;
      }
      var d := g - 3.0;
      var q := -3.0 - 15.0 * d - 5.0 * d * d - d * d * d;
      assert 24.0 - 12.0 * g + 4.0 * g * g - g * g * g == q;
      var d2 := d * d;
      NonNegativeSquare(d);
      if d > 0.0 {
        NonNegativeProduct(d2, d);
      }
      assert StepGain(tau) == g * q / 24.0;
      PositiveProduct(g, -q);
    }
  }

  /** With such a time constant every step of positive length moves the
      output farther from Ku*U: the simulated plant diverges at any dt. */
  lemma RkStepDiverges(ku: real, tau: real, y: real, u: real, step: real)
    requires tau < 0.0 || 0.0 < tau <= 1.0 / 3.0
    requires step > 0.0 && y != ku * u
    ensures AbsReal(RkStep(ku, tau, y, u, step) - ku * u) > AbsReal(y - ku * u)
  {
    StepGainNegative(tau);
    PositiveProduct(step, -StepGain(tau));
    RkStepScalesDistance(ku, tau, y, u, step);
    FactorMagnitude(RkStep(ku, tau, y, u, step) - ku * u, step * StepGain(tau), y - ku * u);
  }

  /** A concrete case: Ku = 1, tau = 0.1, step 0.01 from distance 1 gives
      distance 3.9. */
  lemma RkStepDivergesExample()
    ensures RkStep(1.0, 0.1, 1.0, 0.0, 0.01) == 3.9
  {
  }

  /** The controller's step is the unit-step RK4 increment scaled by `step`;
      at step 1 it is classical RK4. */
  lemma RkStepScalesUnitStep(ku: real, tau: real, y: real, u: real, step: real)
    requires tau != 0.0
    ensures RkStep(ku, tau, y, u, step) - y == step * (ClassicalRk4(ku, tau, y, u, 1.0) - y)
    ensures RkStep(ku, tau, y, u, 1.0) == ClassicalRk4(ku, tau, y, u, 1.0)
  {
  }

  /** A concrete case: for Ku = tau = 1 and step 0.5, the output decays from 1 to
      0.6875, where classical RK4 gives 0.6067708333... */
  lemma RkStepDiffersFromClassical()
    ensures RkStep(1.0, 1.0, 1.0, 0.0, 0.5) == 0.6875
    ensures ClassicalRk4(1.0, 1.0, 1.0, 0.0, 0.5) == 233.0 / 384.0
  {
  }
}
