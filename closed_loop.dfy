/** The closed loop of simulation(): a plant clock of period dt and a
    controller clock of period cdt, the controller's action held between its
    calls (zero-order hold), and the three histories y, record_time and u. */
module ClosedLoop {
  import opened Python
  import Arith
  import opened Plant
  import opened Optimizer

  /** The optimizer configuration together with the plant period and the
      simulated time. */
  datatype LoopConfig = LoopConfig(c: Config, dt: real, tEnd: real)

  /** The loop's state: the plant output Y, what the optimizer keeps between
      calls, the held action U, the controller clock ct, the plant clock t,
      the tick counter N and the three histories y, record_time and u. */
  datatype Loop = Loop(
    plant: real, opt: OptState, held: real, ct: real, t: real, n: nat,
    ys: seq<real>, times: seq<real>, us: seq<real>)

  /** The state simulation() starts from, for a controller that has not run yet. */
  function Initial(y0: real, opt: OptState): Loop
  {
    Loop(y0, opt, 0.0, 0.0, 0.0, 0, [], [], [])
  }

  /** One pass of the while loop: record Y and t, call mpc when the controller
      clock has not run ahead of the plant clock, record the action, step the
      plant by dt and advance the clocks. mpc's first argument (the output
      recorded at index N) is never read; its prediction starts from Y. */
  function Tick(lc: LoopConfig, ref: seq<real>, s: Loop): (r: Result<Loop>)
    requires Sized(lc.c, s.opt)
    ensures r.Ok? ==> Sized(lc.c, r.value.opt) && r.value.n == s.n + 1
    ensures r.Ok? ==> |r.value.ys| == |s.ys| + 1 && |r.value.times| == |s.times| + 1 && |r.value.us| == |s.us| + 1
  {
    var call := Act(lc, ref, s);
    if call.Err? then Err(call.error)
    else if lc.c.tau == 0.0 then Err(ZeroDivisionError)
    else
      var (u, opt) := call.value;
      Ok(Loop(RkStep(lc.c.ku, lc.c.tau, s.plant, u, lc.dt), opt, u,
              if s.ct <= s.t then s.ct + lc.c.cdt else s.ct, s.t + lc.dt, s.n + 1,
              s.ys + [s.plant], s.times + [s.t], s.us + [u]))
  }

  /** The action of a tick: mpc's answer when the controller is due, the held
      action otherwise. */
  function Act(lc: LoopConfig, ref: seq<real>, s: Loop): (r: Result<(real, OptState)>)
    requires Sized(lc.c, s.opt)
    ensures r.Ok? ==> Sized(lc.c, r.value.1)
  {
    if s.ct <= s.t then MpcSpec(lc.c, ref, s.n, s.plant, s.opt)
    else Ok((s.held, s.opt))
  }

  /** The first k passes of the loop. */
  function Ticks(lc: LoopConfig, ref: seq<real>, s: Loop, k: nat): (r: Result<Loop>)
    requires Sized(lc.c, s.opt)
    ensures r.Ok? ==> Sized(lc.c, r.value.opt) && r.value.n == s.n + k
    ensures r.Ok? ==> |r.value.ys| == |s.ys| + k && |r.value.times| == |s.times| + k && |r.value.us| == |s.us| + k
  {
    if k == 0 then Ok(s)
    else
      var p := Ticks(lc, ref, s, k - 1);
      if p.Err? then p else Tick(lc, ref, p.value)
  }

  /** The plant clock after j ticks: dt added j times. */
  function PlantTime(lc: LoopConfig, j: nat): real
  {
    if j == 0 then 0.0 else PlantTime(lc, j - 1) + lc.dt
  }

  /** The controller clock after j ticks from scratch: cdt added at every tick
      at which the controller acted. It depends only on the two periods, not
      on any value the loop computes. */
  function CtrlTime(lc: LoopConfig, j: nat): real
  {
    if j == 0 then 0.0
    else if CtrlTime(lc, j - 1) <= PlantTime(lc, j - 1) then CtrlTime(lc, j - 1) + lc.c.cdt
    else CtrlTime(lc, j - 1)
  }

  /** Whether the controller acts at tick j of a run started from scratch. */
  predicate DueAt(lc: LoopConfig, j: nat)
  {
    CtrlTime(lc, j) <= PlantTime(lc, j)
  }

  /** The most recent tick at or before j at which the controller acted. */
  function LastDue(lc: LoopConfig, j: nat): (i: nat)
    ensures i <= j && DueAt(lc, i)
    ensures forall m :: i < m <= j ==> !DueAt(lc, m)
  {
    if j == 0 || DueAt(lc, j) then j else LastDue(lc, j - 1)
  }

  /** The accumulated plant clock is j * dt. */
  lemma {:induction false} PlantTimeIs(lc: LoopConfig, j: nat)
    ensures PlantTime(lc, j) == j as real * lc.dt
  {
    if j > 0 {
      PlantTimeIs(lc, j - 1);
      assert (j - 1) as real * lc.dt + lc.dt == j as real * lc.dt;
    }
  }

  /** The number of passes of `while t < t_end` with t == N * dt (see
      TickCountExact). */
  function TickCount(tEnd: real, dt: real): nat
    requires dt > 0.0
  {
    if tEnd <= 0.0 then 0
    else
      var q := tEnd / dt;
      var f := q.Floor;
      assert f >= 0 by { assert q > 0.0 by { Arith.PositiveQuotient(tEnd, dt); } }
      if f as real == q then f else f + 1
  }

  /** Tick m runs exactly when its time m * dt is before t_end. */
  lemma TickCountExact(lc: LoopConfig, m: nat)
    requires lc.dt > 0.0
    ensures PlantTime(lc, m) < lc.tEnd <==> m < TickCount(lc.tEnd, lc.dt)
  {
    PlantTimeIs(lc, m);
    Arith.BelowQuotient(m as real, lc.tEnd, lc.dt);
    if lc.tEnd <= 0.0 {
      Arith.NonNegativeProduct(m as real, lc.dt);
    }
  }

  /** A tick appends one entry to each history, steps the plant under the
      recorded action and advances both clocks. */
  lemma TickShape(lc: LoopConfig, ref: seq<real>, s: Loop)
    requires Sized(lc.c, s.opt)
    requires Tick(lc, ref, s).Ok?
    ensures lc.c.tau != 0.0
    ensures var s' := Tick(lc, ref, s).value;
      s'.ys == s.ys + [s.plant] && s'.times == s.times + [s.t] && s'.us == s.us + [s'.held] &&
      s'.plant == RkStep(lc.c.ku, lc.c.tau, s.plant, s'.held, lc.dt) &&
      s'.t == s.t + lc.dt && s'.ct == (if s.ct <= s.t then s.ct + lc.c.cdt else s.ct)
  {
  }

  /** At a due tick the recorded action is what mpc returns from the current
      plant output; at any other tick it is the held action, and the optimizer's
      state is left alone. */
  lemma TickHolds(lc: LoopConfig, ref: seq<real>, s: Loop)
    requires Sized(lc.c, s.opt)
    requires Tick(lc, ref, s).Ok?
    ensures var s' := Tick(lc, ref, s).value;
      if s.ct <= s.t then
        MpcSpec(lc.c, ref, s.n, s.plant, s.opt) == Ok((s'.held, s'.opt))
      else s'.held == s.held && s'.opt == s.opt
  {
  }

  /** One more pass after k successful ones. */
  lemma TicksNext(lc: LoopConfig, ref: seq<real>, s: Loop, k: nat, p: Loop)
    requires Sized(lc.c, s.opt) && Ticks(lc, ref, s, k) == Ok(p)
    ensures Sized(lc.c, p.opt)
    ensures Ticks(lc, ref, s, k + 1) == Tick(lc, ref, p)
  {
  }

  /** A pass that raises ends the loop: every longer run raises the same error. */
  lemma {:induction false} TicksErrPersists(lc: LoopConfig, ref: seq<real>, s: Loop, j: nat, k: nat)
    requires Sized(lc.c, s.opt) && j <= k
    requires Ticks(lc, ref, s, j).Err?
    ensures Ticks(lc, ref, s, k) == Ticks(lc, ref, s, j)
    decreases k
  {
    if j < k {
      TicksErrPersists(lc, ref, s, j, k - 1);
    }
  }

  /** The histories of a shorter run are prefixes of those of a longer one. */
  lemma {:induction false} TicksPrefix(lc: LoopConfig, ref: seq<real>, s: Loop, j: nat, k: nat)
    requires Sized(lc.c, s.opt) && j <= k
    requires Ticks(lc, ref, s, k).Ok?
    ensures Ticks(lc, ref, s, j).Ok?
    ensures var a, b := Ticks(lc, ref, s, j).value, Ticks(lc, ref, s, k).value;
      a.ys == b.ys[..|a.ys|] && a.times == b.times[..|a.times|] && a.us == b.us[..|a.us|]
    decreases k
  {
    if k > 0 {
      var p := Ticks(lc, ref, s, k - 1);
      TickShape(lc, ref, p.value);
      if j < k {
        TicksPrefix(lc, ref, s, j, k - 1);
        var b := Ticks(lc, ref, s, k).value;
        assert b.ys[..|p.value.ys|] == p.value.ys;
        assert b.times[..|p.value.times|] == p.value.times;
        assert b.us[..|p.value.us|] == p.value.us;
      }
    }
  }

  /** After k ticks from scratch the clocks are PlantTime(k) and CtrlTime(k). */
  lemma {:induction false} TicksClocks(lc: LoopConfig, ref: seq<real>, y0: real, opt: OptState, k: nat)
    requires Sized(lc.c, opt)
    requires Ticks(lc, ref, Initial(y0, opt), k).Ok?
    ensures Ticks(lc, ref, Initial(y0, opt), k).value.t == PlantTime(lc, k)
    ensures Ticks(lc, ref, Initial(y0, opt), k).value.ct == CtrlTime(lc, k)
    decreases k
  {
    if k > 0 {
      var s0 := Initial(y0, opt);
      var p := Ticks(lc, ref, s0, k - 1);
      TicksClocks(lc, ref, y0, opt, k - 1);
      TickShape(lc, ref, p.value);
      ClockStep(lc, k - 1, p.value, Ticks(lc, ref, s0, k).value);
    }
  }

  /** One tick advances the clocks from PlantTime(j), CtrlTime(j) to
      PlantTime(j + 1), CtrlTime(j + 1). */
  lemma ClockStep(lc: LoopConfig, j: nat, p: Loop, q: Loop)
    requires p.t == PlantTime(lc, j) && p.ct == CtrlTime(lc, j)
    requires q.t == p.t + lc.dt && q.ct == (if p.ct <= p.t then p.ct + lc.c.cdt else p.ct)
    ensures q.t == PlantTime(lc, j + 1) && q.ct == CtrlTime(lc, j + 1)
  {
  }

  /** What tick j of a run from scratch records, read off the states before
      (p) and after (q) that tick: the output p had, the time PlantTime(j),
      the action q holds, and the plant step from that output under that
      action. */
  lemma TicksEntry(lc: LoopConfig, ref: seq<real>, y0: real, opt: OptState, k: nat, j: nat)
    requires Sized(lc.c, opt) && j < k
    requires Ticks(lc, ref, Initial(y0, opt), k).Ok?
    ensures Ticks(lc, ref, Initial(y0, opt), j).Ok? && Ticks(lc, ref, Initial(y0, opt), j + 1).Ok?
    ensures var s, p, q := Ticks(lc, ref, Initial(y0, opt), k).value,
        Ticks(lc, ref, Initial(y0, opt), j).value, Ticks(lc, ref, Initial(y0, opt), j + 1).value;
      |s.ys| == k && |s.times| == k && |s.us| == k && |p.ys| == j && p.n == j &&
      p.t == PlantTime(lc, j) && p.ct == CtrlTime(lc, j) &&
      s.ys[j] == p.plant && s.times[j] == PlantTime(lc, j) && s.us[j] == q.held &&
      q.plant == RkStep(lc.c.ku, lc.c.tau, s.ys[j], s.us[j], lc.dt)
  {
    var st := Initial(y0, opt);
    TicksPrefix(lc, ref, st, j, k);
    TicksPrefix(lc, ref, st, j + 1, k);
    TicksClocks(lc, ref, y0, opt, j);
    var s, p, q := Ticks(lc, ref, st, k).value, Ticks(lc, ref, st, j).value, Ticks(lc, ref, st, j + 1).value;
    TickShape(lc, ref, p);
    assert q.ys[j] == s.ys[j] && q.times[j] == s.times[j] && q.us[j] == s.us[j];
  }

  /** The three histories stay aligned, tick j is recorded at time j * dt,
      the first recorded output is the initial one, and each later output is
      the previous one stepped under the previous action. */
  lemma TicksAligned(lc: LoopConfig, ref: seq<real>, y0: real, opt: OptState, k: nat)
    requires Sized(lc.c, opt)
    requires Ticks(lc, ref, Initial(y0, opt), k).Ok?
    ensures var s := Ticks(lc, ref, Initial(y0, opt), k).value;
      |s.ys| == k && |s.times| == k && |s.us| == k &&
      (k > 0 ==> s.ys[0] == y0) &&
      (forall j :: 0 <= j < k ==> s.times[j] == j as real * lc.dt) &&
      (forall j :: 0 < j < k ==> s.ys[j] == RkStep(lc.c.ku, lc.c.tau, s.ys[j - 1], s.us[j - 1], lc.dt))
  {
    var s := Ticks(lc, ref, Initial(y0, opt), k).value;
    if k > 0 {
      TicksEntry(lc, ref, y0, opt, k, 0);
    }
    forall j | 0 <= j < k ensures s.times[j] == j as real * lc.dt {
      TicksEntry(lc, ref, y0, opt, k, j);
      PlantTimeIs(lc, j);
    }
    forall j | 0 < j < k ensures s.ys[j] == RkStep(lc.c.ku, lc.c.tau, s.ys[j - 1], s.us[j - 1], lc.dt) {
      TicksEntry(lc, ref, y0, opt, k, j - 1);
      TicksEntry(lc, ref, y0, opt, k, j);
    }
  }

  /** Zero-order hold: at a tick where the controller does not act, the
      recorded action repeats the previous one. */
  lemma TicksHold(lc: LoopConfig, ref: seq<real>, y0: real, opt: OptState, k: nat, j: nat)
    requires Sized(lc.c, opt) && 0 < j < k && !DueAt(lc, j)
    requires Ticks(lc, ref, Initial(y0, opt), k).Ok?
    ensures Ticks(lc, ref, Initial(y0, opt), k).value.us[j] == Ticks(lc, ref, Initial(y0, opt), k).value.us[j - 1]
  {
    TicksEntry(lc, ref, y0, opt, k, j - 1);
    TicksEntry(lc, ref, y0, opt, k, j);
    TickHolds(lc, ref, Ticks(lc, ref, Initial(y0, opt), j).value);
  }

  /** At a tick where the controller acts, the recorded action is the value mpc
      returns for the output just recorded, at that tick's index, from the
      optimizer state the previous ticks left (the warm start). */
  lemma TicksCall(lc: LoopConfig, ref: seq<real>, y0: real, opt: OptState, k: nat, j: nat)
    requires Sized(lc.c, opt) && j < k && DueAt(lc, j)
    requires Ticks(lc, ref, Initial(y0, opt), k).Ok?
    ensures Ticks(lc, ref, Initial(y0, opt), j).Ok?
    ensures var s, p := Ticks(lc, ref, Initial(y0, opt), k).value, Ticks(lc, ref, Initial(y0, opt), j).value;
      MpcSpec(lc.c, ref, j, s.ys[j], p.opt).Ok? && s.us[j] == MpcSpec(lc.c, ref, j, s.ys[j], p.opt).value.0
  {
    TicksEntry(lc, ref, y0, opt, k, j);
    var p := Ticks(lc, ref, Initial(y0, opt), j).value;
    TickHolds(lc, ref, p);
  }

  /** Each recorded action is the one the most recent controller call at or
      before that tick returned. */
  lemma {:induction false} TicksLastCall(lc: LoopConfig, ref: seq<real>, y0: real, opt: OptState, k: nat, j: nat)
    requires Sized(lc.c, opt) && j < k
    requires Ticks(lc, ref, Initial(y0, opt), k).Ok?
    ensures Ticks(lc, ref, Initial(y0, opt), k).value.us[j] == Ticks(lc, ref, Initial(y0, opt), k).value.us[LastDue(lc, j)]
    decreases j
  {
    if j > 0 && !DueAt(lc, j) {
      TicksHold(lc, ref, y0, opt, k, j);
      TicksLastCall(lc, ref, y0, opt, k, j - 1);
    }
  }

  /** The first tick always calls the controller (ct = 0 <= t = 0). */
  lemma FirstTickCalls(lc: LoopConfig)
    ensures DueAt(lc, 0)
    ensures CtrlTime(lc, 1) == lc.c.cdt
  {
  }

  /** When the controller period does not exceed the plant period, the
      controller acts at every tick. */
  lemma {:induction false} EveryTickDue(lc: LoopConfig, j: nat)
    requires lc.c.cdt <= lc.dt
    ensures DueAt(lc, j)
    decreases j
  {
    if j > 0 {
      EveryTickDue(lc, j - 1);
    }
  }
}
