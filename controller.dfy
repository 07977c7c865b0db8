/** The controller object: class PredictiveControl with its configuration,
    the plant output Y, the arrays Yp, Up and histU that the optimizer
    updates in place, the cost history histf, and the histories the closed
    loop appends to. Each method is proved against the value-level model of
    the other modules. */
module Controller {
  import opened Python
  import opened Plant
  import opened Predictor
  import opened Cost
  import opened Reference
  import opened Optimizer
  import opened ClosedLoop

  class PredictiveControl {
    const tEnd: real
    const dt: real
    const cdt: real
    const timeRatio: int
    const ref: seq<real>
    const tau: real
    const ku: real
    const h: nat
    const lrate: real
    const decay: real
    const iter: nat
    const sat: Bounds

    var Y: real
    var y: seq<real>
    var recordTime: seq<real>
    var u: seq<real>

    const Yp: array<real>
    const Up: array<real>
    const histU: array<Hist>
    var histf: Hist

    function Params(): Config
    {
      Config(ku, tau, cdt, timeRatio, h, lrate, decay, iter, sat)
    }

    function LoopParams(): LoopConfig
    {
      LoopConfig(Params(), dt, tEnd)
    }

    ghost predicate Valid()
      reads this
    {
      Yp.Length == h && Up.Length == h && histU.Length == h && Yp != Up
    }

    /** The optimizer's persistent state, read off the arrays and histf. */
    function Opt(): OptState
      reads this, Yp, Up, histU
    {
      OptState(Up[..], histU[..], histf, Yp[..])
    }

    /** The object __init__ leaves behind, given the expanded reference:
        Y = 0, empty histories, and h zeros in Yp, Up and every histU slot. */
    constructor(tEnd: real, dt: real, cdt: real, timeRatio: int, ref: seq<real>,
                horizon: int, lrate: real, decay: real, iter: int, ku: real, tau: real, sat: Bounds)
      ensures this.tEnd == tEnd && this.dt == dt && this.cdt == cdt && this.timeRatio == timeRatio
      ensures this.ref == ref && this.tau == tau && this.ku == ku && this.sat == sat
      ensures this.h == (if horizon < 0 then 0 else horizon)
      ensures this.iter == (if iter < 0 then 0 else iter)
      ensures this.lrate == lrate && this.decay == decay
      ensures Y == 0.0 && y == [] && recordTime == [] && u == []
      ensures Valid() && fresh(Yp) && fresh(Up) && fresh(histU)
      ensures Opt() == OptState(seq(h, _ => 0.0), seq(h, _ => Hist(0.0, 0.0)), Hist(0.0, 0.0), seq(h, _ => 0.0))
    {
      var n: nat := if horizon < 0 then 0 else horizon;
      this.tEnd, this.dt, this.cdt, this.timeRatio := tEnd, dt, cdt, timeRatio;
      this.ref, this.tau, this.ku, this.sat := ref, tau, ku, sat;
      this.h := n;
      this.iter := if iter < 0 then 0 else iter;
      this.lrate, this.decay := lrate, decay;
      Y, y, recordTime, u := 0.0, [], [], [];
      Yp := new real[n](_ => 0.0);
      Up := new real[n](_ => 0.0);
      histU := new Hist[n](_ => Hist(0.0, 0.0));
      histf := Hist(0.0, 0.0);
    }

    /** simulation_step: one plant step of length dt from Y under U. With
        tau == 0 the first derivative raises and Y is left alone. */
    method SimulationStep(U: real) returns (st: Status)
      modifies this`Y
      ensures st.Raised? <==> tau == 0.0
      ensures st.Raised? ==> st.error == ZeroDivisionError && Y == old(Y)
      ensures st.Done? ==> Y == RkStep(ku, tau, old(Y), U, dt)
    {
      if tau == 0.0 {
        return Raised(ZeroDivisionError);
      }
      Y := RkStep(ku, tau, Y, U, dt);
      return Done;
    }

    /** The number of leading entries of Yp that prediction(up) writes
        before it finishes or raises. */
    function Written(up: seq<real>): nat
      reads this
    {
      if tau == 0.0 then 0 else if |up| < h then |up| else h
    }

    /** prediction: chain h steps of length cdt from Y under up[0..h-1] into
        Yp. Reading up[i] past its end raises IndexError; with tau == 0 the
        first step raises ZeroDivisionError. Only Yp changes, and only its
        first Written(up) entries. */
    method Prediction(up: seq<real>) returns (st: Status)
      requires Valid()
      modifies Yp
      ensures st.Done? <==> h == 0 || (tau != 0.0 && |up| >= h)
      ensures st.Raised? ==> st.error == (if tau == 0.0 && |up| > 0 then ZeroDivisionError else IndexError)
      ensures Yp[..Written(up)] == Predicted(ku, tau, cdt, Y, up[..Written(up)])
      ensures Yp[Written(up)..] == old(Yp[Written(up)..])
    {
      var yAns := Y;
      var i := 0;
      while i < h
        invariant 0 <= i <= h && i <= Written(up)
        invariant i > 0 ==> tau != 0.0
        invariant Yp[..i] == Predicted(ku, tau, cdt, Y, up[..i])
        invariant yAns == Start(Y, Yp[..i])
        invariant Yp[i..] == old(Yp[i..])
      {
        if i >= |up| {
          return Raised(IndexError);
        }
        if tau == 0.0 {
          return Raised(ZeroDivisionError);
        }
        var next := RkStep(ku, tau, yAns, up[i], cdt);
        PredictedSnoc(ku, tau, cdt, Y, up, i);
        ghost var p, q := Yp[..i], Yp[i + 1..];
        assert q == old(Yp[i + 1..]) by {
          assert q == Yp[i..][1..] && old(Yp[i + 1..]) == old(Yp[i..])[1..];
        }
        Yp[i] := next;
        assert Yp[..i] == p && Yp[i + 1..] == q;
        assert Yp[..i + 1] == p + [next];
        yAns := Yp[i];
        i := i + 1;
      }
      return Done;
    }

    /** descent_gradient: for i in order, a secant step on Up[i] from the cost
        pair histf, the clamp, and the shift of histU[i]. At the first index
        with a zero denominator it raises, leaving that index and all later
        ones as they were. */
    method DescentGradient(lr: real) returns (st: Status)
      requires Valid()
      modifies Up, histU
      ensures var j := FirstSingular(old(histU[..]));
        (st.Done? <==> j == h) && (st.Raised? ==> st.error == ZeroDivisionError) &&
        (forall k :: 0 <= k < j ==>
          Up[k] == SecantStep(lr, histf, old(Up[k]), old(histU[k]), sat) &&
          histU[k] == Hist(Up[k], old(histU[k]).cur)) &&
        (forall k :: j <= k < h ==> Up[k] == old(Up[k]) && histU[k] == old(histU[k]))
      ensures st.Done? ==> Descend(lr, histf, old(Up[..]), old(histU[..]), sat) == Ok((Up[..], histU[..]))
    {
      ghost var U0, H0 := Up[..], histU[..];
      ghost var j := FirstSingular(H0);
      var i := 0;
      while i < h
        invariant 0 <= i <= h && i <= j
        invariant forall k :: 0 <= k < i ==>
          Up[k] == SecantStep(lr, histf, U0[k], H0[k], sat) && histU[k] == Hist(Up[k], H0[k].cur)
        invariant Up[i..] == U0[i..] && histU[i..] == H0[i..]
      {
        assert Up[i] == U0[i] && histU[i] == H0[i] by {
          assert Up[i..][0] == U0[i..][0] && histU[i..][0] == H0[i..][0];
        }
        if Denominator(histU[i]) == 0.0 {
          return Raised(ZeroDivisionError);
        }
        ghost var next := SecantStep(lr, histf, U0[i], H0[i], sat);
        Up[i] := Up[i] + Increment(lr, histf, histU[i]);
        Up[i] := WindupCheck(Up[i], sat);
        assert Up[i] == next;
        histU[i] := Hist(histU[i].cur, histU[i].cur);
        histU[i] := Hist(Up[i], histU[i].prev);
        assert histU[i] == Hist(next, H0[i].cur);
        assert Up[i + 1..] == U0[i + 1..] && histU[i + 1..] == H0[i + 1..];
        i := i + 1;
      }
      DescendExactly(lr, histf, U0, H0, sat, Up[..], histU[..]);
      return Done;
    }

    /** The body of mpc's loop at rate lr: predict from Y under Up, record the
        cost against the window in histf[0], descend, and copy histf[0] into
        histf[1]. */
    method Iteration(lr: real, window: seq<real>) returns (st: Status)
      requires Valid() && |window| == h
      modifies Yp, Up, histU, this`histf
      ensures match Iterate(Params(), Y, window, lr, old(Opt()))
        case Ok(s') => st == Done && Opt() == s'
        case Err(e) => st == Raised(e)
    {
      ghost var s := Opt();
      st := Prediction(Up[..]);
      if st.Raised? {
        return;
      }
      assert Yp[..] == Predicted(ku, tau, cdt, Y, s.up) by {
        assert Written(Up[..]) == h;
        assert Yp[..h] == Yp[..] && Up[..][..h] == s.up;
      }
      ghost var yp := Yp[..];
      var cost := SumErr(Yp[..], window);
      histf := Hist(cost, histf.prev);
      st := DescentGradient(lr);
      if st.Raised? {
        return;
      }
      assert Yp[..] == yp;
      IterateFrom(Params(), Y, window, lr, s, cost, Up[..], histU[..]);
      histf := Hist(histf.cur, histf.cur);
    }

    /** The loop of mpc: `iter` iterations over the window, the rate
        starting at lrate and multiplied by decay after each one; the first
        iteration that raises ends the loop. */
    method Optimize(window: seq<real>) returns (st: Status)
      requires Valid() && |window| == h
      modifies Yp, Up, histU, this`histf
      ensures match Run(Params(), Y, window, old(Opt()), lrate, iter)
        case Ok(s') => st == Done && Opt() == s'
        case Err(e) => st == Raised(e)
    {
      ghost var s0 := Opt();
      var lr := lrate;
      var i := 0;
      while i < iter
        invariant 0 <= i <= iter
        invariant Run(Params(), Y, window, s0, lrate, iter) == Run(Params(), Y, window, Opt(), lr, iter - i)
      {
        st := Iteration(lr, window);
        if st.Raised? {
          return;
        }
        lr := Decay(lr, decay);
        i := i + 1;
      }
      return Done;
    }

    /** mpc: build the horizon window from the trajectory, optimize, and
        return Up[0]. The arrays and histf carry over to the next call. The
        output argument yv is never read: the prediction starts from Y. */
    method Mpc(yv: real, traj: seq<real>, n: int) returns (r: Result<real>)
      requires Valid()
      modifies Yp, Up, histU, this`histf
      ensures match MpcSpec(Params(), traj, n, Y, old(Opt()))
        case Ok((v, s)) => r == Ok(v) && Opt() == s
        case Err(e) => r == Err(e)
    {
      var refH := HorizonReference(traj, n, h, timeRatio);
      if refH.Err? {
        return Err(refH.error);
      }
      var st := Optimize(refH.value);
      if st.Raised? {
        return Err(st.error);
      }
      r := Index(Up[..], 0);
    }

    /** One pass of simulation's while loop at plant time t and controller
        time ct with held action U: record Y and t, call mpc when ct <= t
        (then advance ct by cdt), record the action and step the plant. */
    method Pass(U: real, ct: real, t: real, N: nat) returns (st: Status, U': real, ct': real)
      requires Valid() && N <= |y|
      modifies this, Yp, Up, histU
      ensures match Tick(LoopParams(), ref, Loop(old(Y), old(Opt()), U, ct, t, N, old(y), old(recordTime), old(u)))
        case Ok(s') => st == Done && s' == Loop(Y, Opt(), U', ct', t + dt, N + 1, y, recordTime, u)
        case Err(e) => st == Raised(e)
    {
      y := y + [Y];
      recordTime := recordTime + [t];
      U', ct' := U, ct;
      if ct <= t {
        var v := Mpc(y[N], ref, N);
        if v.Err? {
          return Raised(v.error), U', ct';
        }
        U' := v.value;
        ct' := ct + cdt;
      }
      u := u + [U'];
      st := SimulationStep(U');
    }

    /** simulation: tick while t < t_end, recording Y and t, calling mpc
        whenever ct <= t (then advancing ct by cdt), recording the held
        action and stepping the plant. */
    method Simulation() returns (st: Status)
      requires Valid() && dt > 0.0
      modifies this, Yp, Up, histU
      ensures var r := Ticks(LoopParams(), ref,
          Loop(old(Y), old(Opt()), 0.0, 0.0, 0.0, 0, old(y), old(recordTime), old(u)),
          TickCount(tEnd, dt));
        (st.Done? <==> r.Ok?) && (r.Err? ==> st == Raised(r.error)) &&
        (r.Ok? ==> (Y == r.value.plant && Opt() == r.value.opt &&
          y == r.value.ys && recordTime == r.value.times && u == r.value.us))
    {
      ghost var s0 := Loop(Y, Opt(), 0.0, 0.0, 0.0, 0, y, recordTime, u);
      var t, ct, N, U := 0.0, 0.0, 0, 0.0;
      TickCountExact(LoopParams(), 0);
      while t < tEnd
        invariant Valid()
        invariant t == PlantTime(LoopParams(), N)
        invariant N <= TickCount(tEnd, dt)
        invariant Ticks(LoopParams(), ref, s0, N) == Ok(Loop(Y, Opt(), U, ct, t, N, y, recordTime, u))
        decreases TickCount(tEnd, dt) - N
      {
        TickCountExact(LoopParams(), N);
        ghost var s := Loop(Y, Opt(), U, ct, t, N, y, recordTime, u);
        TicksNext(LoopParams(), ref, s0, N, s);
        st, U, ct := Pass(U, ct, t, N);
        assert st.Done? ==> Ticks(LoopParams(), ref, s0, N + 1) == Ok(Loop(Y, Opt(), U, ct, t + dt, N + 1, y, recordTime, u));
        if st.Raised? {
          TicksErrPersists(LoopParams(), ref, s0, N + 1, TickCount(tEnd, dt));
          return;
        }
        t := t + dt;
        N := N + 1;
      }
      TickCountExact(LoopParams(), N);
      return Done;
    }
  }

  /** __init__: int(cdt/dt) raises ZeroDivisionError for dt == 0; otherwise
      expand the setpoint list over n steps and build the object. A failing
      expansion raises before any object exists. */
  method Create(tEnd: real, dt: real, cdt: real, n: int, timeRatio: int, segs: seq<real>,
                horizon: int, lrate: real, decay: real, iter: int, ku: real, tau: real, sat: Bounds)
    returns (r: Result<PredictiveControl>)
    ensures dt == 0.0 ==> r == Err(ZeroDivisionError)
    ensures dt != 0.0 ==> (r.Ok? <==> Expanded(n, segs).Ok?)
    ensures dt != 0.0 && r.Err? ==> r.error == Expanded(n, segs).error
    ensures r.Ok? ==> fresh(r.value) && r.value.Valid() && r.value.ref == Expanded(n, segs).value
    ensures r.Ok? ==> r.value.tEnd == tEnd && r.value.dt == dt && r.value.cdt == cdt && r.value.timeRatio == timeRatio
    ensures r.Ok? ==> r.value.tau == tau && r.value.ku == ku && r.value.sat == sat
    ensures r.Ok? ==> r.value.h == (if horizon < 0 then 0 else horizon) && r.value.iter == (if iter < 0 then 0 else iter)
    ensures r.Ok? ==> r.value.lrate == lrate && r.value.decay == decay
    ensures r.Ok? ==> r.value.Y == 0.0 && r.value.y == [] && r.value.u == [] && r.value.recordTime == []
    ensures r.Ok? ==> r.value.Opt() == OptState(seq(r.value.h, _ => 0.0), seq(r.value.h, _ => Hist(0.0, 0.0)),
                                                Hist(0.0, 0.0), seq(r.value.h, _ => 0.0))
  {
    if dt == 0.0 {
      return Err(ZeroDivisionError);
    }
    var built := BuildReference(n, segs);
    if built.Err? {
      return Err(built.error);
    }
    var pc := new PredictiveControl(tEnd, dt, cdt, timeRatio, built.value, horizon, lrate, decay, iter, ku, tau, sat);
    return Ok(pc);
  }
}
