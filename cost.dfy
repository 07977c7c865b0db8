/** The cost the optimizer minimizes: the summed squared tracking error over
    the horizon. */
module Cost {
  import Arith

  function Sq(x: real): (r: real)
    ensures r >= 0.0
  {
    x * x
  }

  lemma SqZero(d: real)
    ensures Sq(d) == 0.0 <==> d == 0.0
  {
    if d != 0.0 {
      Arith.SquareNonZero(d, 1.0 / d);
    }
  }

  /** Sum of (yp[i] - ref[i])^2 over the indices of `ref`. */
  function SumSqErr(yp: seq<real>, ref: seq<real>): (s: real)
    requires |ref| <= |yp|
    ensures s >= 0.0
    decreases |ref|
  {
    if |ref| == 0 then 0.0
    else SumSqErr(yp, ref[..|ref| - 1]) + Sq(yp[|ref| - 1] - ref[|ref| - 1])
  }

  /** The loop of sum_err. */
  method SumErr(yp: seq<real>, ref: seq<real>) returns (s: real)
    requires |ref| <= |yp|
    ensures s == SumSqErr(yp, ref)
  {
    s := 0.0;
    var i := 0;
    while i < |ref|
      invariant 0 <= i <= |ref|
      invariant s == SumSqErr(yp, ref[..i])
    {
      assert ref[..i + 1][..i] == ref[..i];
      s := s + Sq(yp[i] - ref[i]);
      i := i + 1;
    }
    assert ref[..i] == ref;
  }

  /** The cost is zero exactly when the prediction meets the reference at every
      index of the horizon. */
  lemma {:induction false} ZeroCostIffTracking(yp: seq<real>, ref: seq<real>)
    requires |ref| <= |yp|
    ensures SumSqErr(yp, ref) == 0.0 <==> forall i :: 0 <= i < |ref| ==> yp[i] == ref[i]
    decreases |ref|
  {
    if |ref| > 0 {
      var ref' := ref[..|ref| - 1];
      var last := |ref| - 1;
      ZeroCostIffTracking(yp, ref');
      var d := yp[last] - ref[last];
      SqZero(d);
      if SumSqErr(yp, ref) == 0.0 {
        assert SumSqErr(yp, ref') == 0.0 && Sq(d) == 0.0;
        forall i | 0 <= i < |ref| ensures yp[i] == ref[i] {
          if i < last { assert ref'[i] == ref[i]; }
        }
      }
    }
  }

  /** Extending the horizon never lowers the cost. */
  lemma {:induction false} SumSqErrMonotone(yp: seq<real>, ref: seq<real>, j: nat)
    requires |ref| <= |yp| && j <= |ref|
    ensures SumSqErr(yp, ref[..j]) <= SumSqErr(yp, ref)
    decreases |ref|
  {
    if j < |ref| {
      var ref' := ref[..|ref| - 1];
      assert ref'[..j] == ref[..j];
      SumSqErrMonotone(yp, ref', j);
    } else {
      assert ref[..j] == ref;
    }
  }
}
