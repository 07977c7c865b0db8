# A verified model of the PredictiveControl simulator

`MPC.py` simulates a model predictive controller driving a first-order plant
`dY/dt = (Ku*U - Y)/tau`. The class `PredictiveControl`:

- expands a list of setpoints into one reference value per simulation step
  (the builder in `__init__`);
- integrates the plant with a four-stage Runge-Kutta-style step of length
  `dt` (`simulation_step`);
- at every controller period, `mpc`:
  - cuts a horizon window out of the reference;
  - runs `iter` iterations of: predict `h` outputs from the current `Y`
    with step `cdt` (`prediction`); sum the squared tracking error
    (`sum_err`); take a secant-descent step on every planned input
    (`descent_gradient`), clamped to the actuator limits (`windup_check`);
  - returns the first planned input;
- `simulation` runs the plant clock and the controller clock together,
  holding the last action between controller calls and recording the
  outputs, times and actions.

The Dafny project has two layers.

- **Value-level modules** give the meaning of each operation as functions.
  They also prove what the code promises about them:
  - `Python`: exceptions, list indexing, `round()`.
  - `Plant`, `Reference`, `Predictor`, `Cost`, `Optimizer`.
  - `ClosedLoop`: the simulation loop as a function of ticks.
  - `Arith`: facts about products, quotients and absolute values used by
    the proofs.
- **The `Controller` module** holds `class PredictiveControl`:
  - the configuration is `const` fields;
  - `Yp`, `Up` and `histU` are arrays updated in place;
  - `Y`, `histf` and the three histories are mutable fields;
  - every loop of the source that computes a value or changes state is a
    `while` loop, proved against the value-level function it computes. The
    constructor's loop that fills `Yp`, `Up` and `histU` with zeros
    (MPC.py:41-44) becomes array allocation with an initializer.

Exceptions are modelled as values: `Result` (`Ok`/`Err`) and `Status`
(`Done`/`Raised`). There are two kinds:

- `ZeroDivisionError`:
  - `int(cdt/dt)` with `dt == 0`, at construction;
  - `1/tau` with `tau == 0`;
  - a zero secant denominator;
  - `round(N/len(ref))` with an empty setpoint list.
- `IndexError`:
  - the builder running past the setpoint list;
  - `ref[-1]` on an empty trajectory;
  - `Up[0]` with an empty horizon;
  - `prediction` given fewer than `h` inputs.

All quantities are exact reals. `N = round(t/dt)` and
`time_ratio = int(cdt/dt)` are integer inputs. The decay factor
`(1-decay/100)**(1/10)` is a real input.

Points where the behaviour differs from what the comments and names
suggest, with the members that state them:

- **The stages are not classical RK4.** The intermediate states are
  `Y + 0.5*k1`, `Y + 0.5*k2` and `Y + k3`, with no factor of the step
  length. The step is therefore `step` times the unit-step RK4 increment,
  which equals classical RK4 at step length 1 (`Plant.RkStepScalesUnitStep`).
  At Ku = tau = 1 and step 0.5 the two steps differ
  (`Plant.RkStepDiffersFromClassical`).
  One step multiplies the distance to equilibrium by
  `1 - step*gain(tau)`, where `gain(tau) = g - g^2/2 + g^3/6 - g^4/24` with
  `g = 1/tau` (`Plant.RkStepScalesDistance`). It brings the output
  closer only when `0 < step*gain(tau) < 2` (`Plant.RkStepContractsIff`).
  `gain(tau)` is negative for every `tau < 0` and every `0 < tau <= 1/3`
  (`Plant.StepGainNegative`). In those cases every step of positive length
  moves the output farther away, so the simulated plant diverges at any
  `dt` (`Plant.RkStepDiverges`). For example, Ku = 1, tau = 0.1 and step
  0.01 turn a distance of 1 into 3.9 (`Plant.RkStepDivergesExample`).
- **The builder raises or skips.** With `k` setpoints and
  `L = round(N/k)`:
  - when `L >= 1` and `L*k < N` it raises `IndexError` instead of
    lengthening the last block;
  - when `L == 0` it never raises for want of blocks: a new block opens at
    every step, so it skips the first setpoint (`ExpandedSkipsFirst`, which
    also proves that it succeeds);
  - the last setpoint may never be used.

  See `Reference.ExpandedBlocks`, `ExpandedSkipsFirst`, `ExpandedCrashes`
  and `ExpandedDropsLast`.
- **The first descent step is huge.** On the first call `histU` holds
  zeros, so the denominator is `1e-25`. The step is
  `-Lrate*(histf[0]-histf[1])*1e25`. Once `Lrate*(histf[0]-histf[1])` is
  at least `-lo*1e-25`, the clamp cuts it to the lower limit
  (`Optimizer.FirstStepSaturates`, `FirstStepExample`). With an unchanged
  cost the step is 0 (`Optimizer.Increment`).
- **`mpc` never reads its `y` argument.** The prediction starts from the
  field `Y`. On a controller's first `simulation`, `Y` equals `y[N]` at the
  call (`ClosedLoop.TicksEntry`, `ClosedLoop.TicksCall`). On a later run
  `N` restarts at 0 while `self.y` keeps its old entries, so `y[N]` is then
  an output from the earlier run.
- **`tau == 0` is not rejected at construction.** With a non-empty
  horizon it surfaces as a `ZeroDivisionError` at the first prediction or
  plant step (`Optimizer.RunWithoutPlant`,
  `Controller.PredictiveControl.SimulationStep`). With `h == 0` the first
  `mpc` call raises `IndexError` at `Up[0]` before any plant step
  (`Optimizer.MpcEmptyHorizon`).

## Model

| member | source | states |
|---|---|---|
| Python.RoundHalfEven | MPC.py:24 | round(n/k) is non-negative for n >= 0 (its nearest-even meaning: RoundHalfEvenNearest and RoundHalfEvenUnique) |
| Python.Index | MPC.py:114 | list indexing: defined exactly for -len <= i < len, negative indices count from the end, IndexError otherwise |
| Python.RoundHalfEvenNearest | MPC.py:24 | round(n/k) is an integer r with abs(n - r*k) <= k/2, the even one on a tie |
| Python.RoundHalfEvenUnique | MPC.py:24 | any integer nearest to n/k (even on a tie) equals round(n/k) |
| Reference.Expanded | MPC.py:19-28 | a built trajectory has max(N, 0) entries, each of them a setpoint; ZeroDivisionError exactly for N > 0 with no setpoints, IndexError for the other failures |
| Reference.BuildReference | MPC.py:19-28 | the counter loop (c, pos) yields exactly Expanded(n, segs), error cases included |
| Reference.ExpandedBlocks | MPC.py:19-28 | with L = round(N/k) >= 1: the builder fails iff L*k < N; otherwise it has N entries and step i holds setpoint i / L |
| Reference.ExpandedSkipsFirst | MPC.py:23-28 | when round(N/k) = 0 the builder succeeds but step i holds setpoint i + 1 (setpoint 0 is skipped) |
| Reference.ExpandedFourBlocks | MPC.py:19-28 | 1000 steps over 4 setpoints: four blocks of 250 |
| Reference.ExpandedCrashes | MPC.py:19-28 | 10 steps over 4 setpoints: round(2.5) = 2 and the builder raises IndexError |
| Reference.ExpandedDropsLast | MPC.py:19-28 | 6 steps over 4 setpoints give [a, a, b, b, c, c]: the last setpoint is unused |
| Reference.WindowAt | MPC.py:111-114 | entry i exists iff the trajectory is non-empty and N + i*time_ratio >= -len(ref); it is ref[N + i*time_ratio] inside the trajectory and ref[-1] past its end; failures are IndexError |
| Reference.Window | MPC.py:110-114 | a window is h values of the trajectory or IndexError; an empty trajectory admits only h == 0; for N >= 0 and time_ratio >= 0 it exists iff h == 0 or the trajectory is non-empty |
| Reference.HorizonReference | MPC.py:109-114 | the window loop yields exactly Window(ref, N, h, time_ratio), including the ref[-1] error |
| Reference.WindowClamps | MPC.py:109-114 | for a non-empty trajectory, N >= 0 and time_ratio >= 0 the window has h entries, entry i being ref[N + i*time_ratio] or the last value past the end |
| Plant.FDev | MPC.py:51-52 | the derivative is zero exactly at equilibrium, Y == Ku*U |
| Plant.EquilibriumIsFixedPoint | MPC.py:54-60 | at Y == Ku*U a step of any length leaves Y unchanged |
| Plant.RkStepScalesDistance | MPC.py:54-60 | one step multiplies the distance to Ku*U by 1 - step*gain(tau) |
| Plant.RkStepContractsIff | MPC.py:54-60 | away from equilibrium a step brings Y closer to Ku*U exactly when 0 < step*gain(tau) < 2 |
| Plant.StepGainNegative | MPC.py:54-60 | gain(tau) < 0 for tau < 0 and for 0 < tau <= 1/3 |
| Plant.RkStepDiverges | MPC.py:54-60 | for tau < 0 or 0 < tau <= 1/3, every step of positive length moves Y strictly farther from Ku*U |
| Plant.RkStepDivergesExample | MPC.py:54-60 | Ku = 1, tau = 0.1, step 0.01: from distance 1 the output reaches 3.9 |
| Plant.RkStepScalesUnitStep | MPC.py:54-60 | the step is step times the unit-step classical RK4 increment, and equals classical RK4 at step 1 |
| Plant.RkStepDiffersFromClassical | MPC.py:54-60 | for Ku = tau = 1 and step 0.5 the code gives 0.6875 where classical RK4 gives 233/384 |
| Predictor.Predicted | MPC.py:62-72 | one predicted output per planned input |
| Predictor.PredictedChain | MPC.py:62-72 | output 0 is one step from Y under Up[0]; output i is one step from output i-1 under Up[i] |
| Predictor.PredictedPrefix | MPC.py:62-72 | predicting a prefix of the inputs gives the prefix of the outputs |
| Predictor.PredictedSnoc | MPC.py:62-72 | one more input appends one step from the last output |
| Predictor.PredictedAtEquilibrium | MPC.py:62-72 | a constant input from equilibrium predicts equilibrium at every index |
| Cost.SumSqErr | MPC.py:75-80 | the summed squared error is never negative |
| Cost.SumErr | MPC.py:75-80 | the accumulator loop returns SumSqErr(Yp, Ref) |
| Cost.ZeroCostIffTracking | MPC.py:75-80 | the cost is zero iff the prediction equals the reference at every index of Ref |
| Cost.SumSqErrMonotone | MPC.py:75-80 | a longer reference never lowers the cost |
| Optimizer.WindupCheck | MPC.py:127-133 | Up >= hi gives hi; Up < hi and Up <= lo gives lo; lo < Up < hi gives Up; so the result is one of Up, lo, hi, and it lies in [lo, hi] when lo <= hi |
| Optimizer.WindupNearest | MPC.py:127-133 | with lo <= hi the clamp returns the point of [lo, hi] nearest to Up |
| Optimizer.WindupIdempotent | MPC.py:127-133 | clamping twice is clamping once |
| Optimizer.WindupMonotone | MPC.py:127-133 | the clamp preserves order |
| Optimizer.Denominator | MPC.py:85 | the secant denominator is 1e-25 when the two remembered inputs agree, and zero exactly when the previous one exceeds the current one by 1e-25 |
| Optimizer.Increment | MPC.py:85 | the increment times the denominator is -Lrate times the cost difference; an unchanged cost gives a zero increment |
| Optimizer.SecantStep | MPC.py:85-86 | with lo <= hi the new Up[i] lies within the limits |
| Optimizer.FirstSingular | MPC.py:85 | the index of the first zero secant denominator: every earlier one is nonzero |
| Optimizer.Descend | MPC.py:82-89 | the update succeeds iff no denominator is zero, raises ZeroDivisionError otherwise and keeps the lengths |
| Optimizer.DescendProperties | MPC.py:82-89 | after the update every Up[i] is within the limits and is the secant step from the one shared histf pair; histU[i] becomes [new Up[i], old histU[i][0]] |
| Optimizer.DescendExactly | MPC.py:82-89 | any pair of sequences with the pointwise step and history shift is the update's result |
| Optimizer.FirstStepSaturates | MPC.py:85-86 | from all-zero history the denominator is 1e-25, and once Lrate times the cost rise is at least -lo*1e-25 the step drives Up[i] to the lower limit |
| Optimizer.FirstStepExample | MPC.py:85-86 | Lrate 0.005, cost 20 and limits [-10, 10]: the first step lands on -10 |
| Optimizer.Iterate | MPC.py:119-122 | a successful iteration keeps the horizon sizes |
| Optimizer.IteratePredicts | MPC.py:119 | the stored prediction is the plant chained from Y over the inputs the iteration started from |
| Optimizer.IterateFrom | MPC.py:119-122 | a prediction, its cost and a successful descent make the iteration's result, with histf = [cost, cost] |
| Optimizer.Decay | MPC.py:123 | a factor of 1 (decay = 0 percent) keeps the rate; a factor in [0, 1] never raises a non-negative rate |
| Optimizer.Run | MPC.py:117-123 | a successful run keeps the horizon sizes |
| Optimizer.RunInvariant | MPC.py:117-123 | after at least one iteration histf[0] == histf[1] == SumSqErr(Yp, ref_h) >= 0, every Up[i] is within the limits and histU[i][0] == Up[i] |
| Optimizer.RunWithoutPlant | MPC.py:51-52 | with tau == 0 and a non-empty horizon the first prediction raises ZeroDivisionError |
| Optimizer.RunSplit | MPC.py:117-123 | j + k iterations are j iterations and then k more, starting at the rate decayed j times |
| Optimizer.DecaysIsPower | MPC.py:123 | after j decays the rate is Lrate * decay^j |
| Optimizer.MpcSpec | MPC.py:107-125 | a successful call keeps the sizes, needs h >= 1 and returns the new Up[0] |
| Optimizer.MpcEmptyHorizon | MPC.py:125 | with h == 0, mpc raises (Up[0] does not exist) |
| Optimizer.MpcWithoutIterations | MPC.py:107-125 | with iter == 0 the call changes nothing and returns the stored Up[0] |
| Optimizer.MpcWithinLimits | MPC.py:107-125 | with iter >= 1 and lo <= hi the returned action is within the actuator limits |
| ClosedLoop.Tick | MPC.py:95-104 | a pass grows each of the three histories by one and N by one |
| ClosedLoop.Act | MPC.py:98-99 | a tick's action that succeeds keeps the horizon sizes (which action it is: TickHolds) |
| ClosedLoop.Ticks | MPC.py:95-104 | k passes grow each history by k |
| ClosedLoop.LastDue | MPC.py:98-100 | the most recent tick at or before j where the controller acted: it acted there and at no later tick up to j |
| ClosedLoop.PlantTimeIs | MPC.py:103 | the plant clock after j ticks is j*dt |
| ClosedLoop.TickCountExact | MPC.py:95-103 | tick m runs iff m*dt < t_end iff m is below the tick count, so the loop makes exactly TickCount(t_end, dt) passes |
| ClosedLoop.TickShape | MPC.py:96-104 | a pass appends Y, t and the action, steps the plant under that action and advances t by dt and ct by cdt when due |
| ClosedLoop.TickHolds | MPC.py:98-101 | at a due tick the action and the new optimizer state are mpc's answer; otherwise both are held |
| ClosedLoop.TicksNext | MPC.py:95-104 | one more pass after k successful passes |
| ClosedLoop.TicksErrPersists | MPC.py:95-104 | a pass that raises ends the loop with that error |
| ClosedLoop.TicksPrefix | MPC.py:96-101 | the histories of a shorter run are prefixes of those of a longer one |
| ClosedLoop.TicksClocks | MPC.py:92-104 | from scratch, after k ticks the clocks are PlantTime(k) and CtrlTime(k) |
| ClosedLoop.TicksEntry | MPC.py:96-104 | entry j of the histories: the output before tick j, time j*dt, and the action the next state holds |
| ClosedLoop.TicksAligned | MPC.py:96-102 | len(y) == len(record_time) == len(u) == k; record_time[j] == j*dt; y[0] is the initial output; y[j] is y[j-1] stepped under u[j-1] |
| ClosedLoop.TicksHold | MPC.py:98-101 | zero-order hold: at a tick where the controller does not act, u[j] == u[j-1] |
| ClosedLoop.TicksCall | MPC.py:98-99 | at a due tick, u[j] is mpc's value for that tick, from the optimizer state the previous ticks left (warm start) |
| ClosedLoop.TicksLastCall | MPC.py:98-101 | every u[j] equals the action recorded at the most recent tick at or before j where mpc was called |
| ClosedLoop.FirstTickCalls | MPC.py:92-99 | the first tick always calls mpc (ct = 0 <= t = 0), and ct becomes cdt |
| ClosedLoop.EveryTickDue | MPC.py:98-100 | when cdt <= dt the controller acts at every tick |
| Controller.PredictiveControl.constructor | MPC.py:13-49 | the object after construction: configuration stored, Y = 0, empty histories, h zeros in Yp, Up and every histU slot, histf = [0, 0] |
| Controller.PredictiveControl.SimulationStep | MPC.py:54-60 | only Y changes; it becomes one step of length dt from the old Y; raises ZeroDivisionError iff tau == 0 |
| Controller.PredictiveControl.Prediction | MPC.py:62-72 | Yp[0..h-1] becomes the chained prediction from Y under up; only Yp changes; with h >= 1 it raises ZeroDivisionError when tau == 0 and up is non-empty, and IndexError when up has fewer than h entries; the entries before the failure stay written |
| Controller.PredictiveControl.DescentGradient | MPC.py:82-89 | up to the first zero denominator each Up[i] takes the clamped secant step and histU[i] shifts; later entries are untouched; success iff there is no zero denominator, and then the arrays equal the update's result |
| Controller.PredictiveControl.Iteration | MPC.py:119-122 | one loop body of mpc leaves exactly the state of one iteration, or raises its error |
| Controller.PredictiveControl.Optimize | MPC.py:117-123 | the loop of mpc leaves exactly the state of iter iterations at rates Lrate*decay^i, or raises the first error |
| Controller.PredictiveControl.Mpc | MPC.py:107-125 | window, iterations and Up[0] exactly as MpcSpec says, with the arrays and histf left as the warm start for the next call |
| Controller.PredictiveControl.Pass | MPC.py:96-102 | one pass of the while loop changes the object exactly as one tick of the closed loop |
| Controller.PredictiveControl.Simulation | MPC.py:91-105 | the loop runs exactly TickCount(t_end, dt) passes and leaves Y, the optimizer state and the three histories as that many ticks of the closed loop; it raises iff a tick does |
| Controller.Create | MPC.py:13-49 | dt == 0 raises ZeroDivisionError (from int(cdt/dt)); otherwise construction succeeds iff the builder does and raises the builder's error if not; a new object holds every configuration value, self.ref the expanded trajectory, Y = 0, empty histories and the all-zero optimizer state with histf = [0, 0] |

## Left out

- The user interface is not part of this model: `main.py` with its window, widgets and plots, the thread it starts and its lock flag, and its parse-or-default setters.
- `plot`, `plot_y` and `plot_u` (MPC.py:135-172) are not modelled: they only draw with matplotlib.
- Floating point is not modelled. All values are exact reals, and `t += dt` / `ct += cdt` accumulate without rounding error. `N = round(t/dt)` and `time_ratio = int(cdt/dt)` are taken as integer inputs of `Controller.Create`.
- The decay factor `(1-decay/100)**(1/10)` is taken as a real input, because it involves a fractional power.
- Convergence and accuracy are not stated: there are no claims about closeness to `Ku*U*(1-exp(-t/tau))`, steady-state tracking or warm-start speedup.
- Controller.PredictiveControl.Mpc: the object's state after an exception is not specified. The source abandons the call in that case.
- Controller.PredictiveControl.Simulation: the object's state after an exception is not specified. It requires `dt > 0`. `dt == 0` never reaches it, because `Controller.Create` raises ZeroDivisionError first. With `dt < 0` and `t_end > 0` the source's loop never ends. With `dt < 0` and `t_end <= 0` the source's loop makes no pass, and the model does not cover that case.
- Cost.SumErr: requires `len(Ref) <= len(Yp)` instead of modelling the IndexError. At its only call site both lengths are `h`.
- ClosedLoop.TicksClocks, TicksEntry, TicksAligned, TicksHold, TicksCall and TicksLastCall are stated for a controller that has not run `simulation` before: empty histories and clocks at zero.
- `Controller.PredictiveControl.Prediction` takes the planned inputs as a parameter. `mpc` passes `self.Up`, as the source does.
- A negative `horizon` or `iter` behaves like 0 in every `range` loop of the source, and is stored as 0.
- The held action `U` starts at 0.0. The source leaves it unbound until the first `mpc` call, which always happens at the first tick (`ClosedLoop.FirstTickCalls`).
