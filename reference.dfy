/** The reference trajectory: the setpoint list expanded to one value per
    simulation step at construction, and the horizon window sampled from it
    at every controller invocation. */
module Reference {
  import opened Python
  import Arith

  /** Index of the setpoint the builder reads at step i, when each block is
      L steps long: blocks of length L, or, when L is 0, one step past i
      (the counter test `c >= 0` then succeeds on every step). */
  function SegmentOf(L: int, i: nat): nat
  {
    if L <= 0 then i + 1 else i / L
  }

  lemma SegmentOfMonotone(L: int, i: nat, j: nat)
    requires i <= j
    ensures SegmentOf(L, i) <= SegmentOf(L, j)
  {
    if L > 0 {
      Arith.DivMonotone(i, j, L);
    }
  }

  /** What the builder produces for n steps and the setpoint list `segs`:
      nothing for n <= 0; a ZeroDivisionError for an empty list (from
      round(n/0)); an IndexError when the last step's block index runs past
      the list; otherwise the expanded trajectory. A trajectory it builds
      has max(n, 0) entries, each of them a setpoint. */
  function Expanded(n: int, segs: seq<real>): (r: Result<seq<real>>)
    ensures r.Ok? ==> |r.value| == (if n <= 0 then 0 else n)
    ensures r.Ok? ==> forall i :: 0 <= i < |r.value| ==> r.value[i] in segs
    ensures r == Err(ZeroDivisionError) <==> n > 0 && |segs| == 0
    ensures r.Err? ==> r.error == (if |segs| == 0 then ZeroDivisionError else IndexError)
  {
    if n <= 0 then Ok([])
    else if |segs| == 0 then Err(ZeroDivisionError)
    else
      var L := RoundHalfEven(n, |segs|);
      if SegmentOf(L, n - 1) >= |segs| then Err(IndexError)
      else
        SegmentsInRange(L, n, |segs|);
        Ok(seq(n, i requires 0 <= i < n => segs[SegmentOf(L, i)]))
  }

  lemma SegmentsInRange(L: int, n: nat, k: nat)
    requires n > 0 && SegmentOf(L, n - 1) < k
    ensures forall i :: 0 <= i < n ==> SegmentOf(L, i) < k
  {
    forall i | 0 <= i < n ensures SegmentOf(L, i) < k {
      SegmentOfMonotone(L, i, n - 1);
    }
  }

  /** The loop of the constructor: counters c and pos, a new block whenever
      c reaches round(n / len(segs)). */
  method BuildReference(n: int, segs: seq<real>) returns (r: Result<seq<real>>)
    ensures r == Expanded(n, segs)
  {
    var out: seq<real> := [];
    var c, pos := 0, 0;
    ghost var L := if |segs| > 0 then RoundHalfEven(n, |segs|) else 0;
    var i := 0;
    while i < n
      invariant 0 <= i <= (if n > 0 then n else 0)
      invariant i > 0 ==> |segs| > 0
      invariant Counters(L, i, c, pos)
      invariant |out| == i
      invariant forall j :: 0 <= j < i ==> SegmentOf(L, j) < |segs| && out[j] == segs[SegmentOf(L, j)]
    {
      if |segs| == 0 {
        return Err(ZeroDivisionError);
      }
      var blockLen := RoundHalfEven(n, |segs|);
      ghost var c0, pos0 := c, pos;
      if c >= blockLen {
        c := 0;
        pos := pos + 1;
      }
      c := c + 1;
      Advance(L, i, c0, pos0);
      var v := Index(segs, pos);
      if v.Err? {
        SegmentsBeyond(L, i, n, |segs|);
        return Err(v.error);
      }
      out := out + [v.value];
      i := i + 1;
    }
    ExpandedIs(n, segs, L, out);
    return Ok(out);
  }

  /** The counter values after i steps of the builder with block length L. */
  ghost predicate Counters(L: int, i: nat, c: int, pos: int)
  {
    if i == 0 then c == 0 && pos == 0
    else pos == SegmentOf(L, i - 1) && c == (if L <= 0 then 1 else (i - 1) % L + 1)
  }

  /** One step of the counters: open a new block when c has reached L. */
  lemma Advance(L: int, i: nat, c: int, pos: int)
    requires Counters(L, i, c, pos)
    ensures var c', pos' := if c >= L then 1 else c + 1, if c >= L then pos + 1 else pos;
      Counters(L, i + 1, c', pos') && pos' == SegmentOf(L, i)
  {
    if L > 0 && i > 0 {
      NextBlock(i - 1, L);
    }
  }

  lemma ExpandedIs(n: int, segs: seq<real>, L: int, out: seq<real>)
    requires L == if |segs| > 0 then RoundHalfEven(n, |segs|) else 0
    requires n > 0 ==> |segs| > 0
    requires |out| == if n <= 0 then 0 else n
    requires forall j :: 0 <= j < |out| ==> SegmentOf(L, j) < |segs| && out[j] == segs[SegmentOf(L, j)]
    ensures Expanded(n, segs) == Ok(out)
  {
    if n > 0 {
      assert SegmentOf(L, n - 1) < |segs|;
      var e := Expanded(n, segs);
      assert e.Ok? && |e.value| == n;
      assert forall j :: 0 <= j < n ==> e.value[j] == out[j];
      assert e.value == out;
    }
  }

  /** Step i + 1 starts a new block exactly when step i closed one. */
  lemma NextBlock(i: nat, L: int)
    requires L > 0
    ensures (i % L + 1 >= L) ==> (i + 1) / L == i / L + 1 && (i + 1) % L == 0
    ensures (i % L + 1 < L) ==> (i + 1) / L == i / L && (i + 1) % L == i % L + 1
  {
    var q, r := i / L, i % L;
    assert i == q * L + r;
    if r + 1 >= L {
      assert i + 1 == (q + 1) * L + 0;
      Arith.DivModUnique(i + 1, L, q + 1, 0);
    } else {
      Arith.DivModUnique(i + 1, L, q, r + 1);
    }
  }

  lemma SegmentsBeyond(L: int, i: nat, n: int, k: nat)
    requires i < n && SegmentOf(L, i) >= k
    ensures SegmentOf(L, n - 1) >= k
  {
    SegmentOfMonotone(L, i, n - 1);
  }

  /** With k setpoints and L = round(n/k) >= 1, the builder fails exactly when
      the k blocks of length L do not cover the n steps, and otherwise step i
      holds setpoint i / L (so only the last block used can be short). */
  lemma ExpandedBlocks(n: int, segs: seq<real>)
    requires n > 0 && |segs| > 0 && RoundHalfEven(n, |segs|) >= 1
    ensures var L := RoundHalfEven(n, |segs|);
      (Expanded(n, segs).Err? <==> L * |segs| < n) &&
      (Expanded(n, segs).Ok? ==> (|Expanded(n, segs).value| == n &&
        forall i :: 0 <= i < n ==> SegmentOf(L, i) == i / L < |segs| && Expanded(n, segs).value[i] == segs[SegmentOf(L, i)]))
  {
    var L := RoundHalfEven(n, |segs|);
    BlocksCover(n, L, |segs|);
    ExpandedByQuotient(n, segs, L);
  }

  lemma ExpandedByQuotient(n: int, segs: seq<real>, L: int)
    requires n > 0 && |segs| > 0 && L >= 1 && L == RoundHalfEven(n, |segs|)
    ensures Expanded(n, segs).Err? <==> (n - 1) / L >= |segs|
    ensures Expanded(n, segs).Ok? ==> (|Expanded(n, segs).value| == n &&
      forall i :: 0 <= i < n ==> SegmentOf(L, i) == i / L < |segs| && Expanded(n, segs).value[i] == segs[SegmentOf(L, i)])
  {
    assert SegmentOf(L, n - 1) == (n - 1) / L;
    if (n - 1) / L < |segs| {
      ExpandedInBlocks(n, segs, L);
    }
  }

  lemma ExpandedInBlocks(n: int, segs: seq<real>, L: int)
    requires n > 0 && |segs| > 0 && L >= 1 && L == RoundHalfEven(n, |segs|)
    requires (n - 1) / L < |segs|
    ensures Expanded(n, segs).Ok? && |Expanded(n, segs).value| == n
    ensures forall i :: 0 <= i < n ==> SegmentOf(L, i) == i / L < |segs| && Expanded(n, segs).value[i] == segs[SegmentOf(L, i)]
  {
    assert SegmentOf(L, n - 1) == (n - 1) / L;
    var e := Expanded(n, segs);
    assert e.Ok? && |e.value| == n;
    forall i | 0 <= i < n ensures SegmentOf(L, i) == i / L < |segs| && e.value[i] == segs[SegmentOf(L, i)] {
      Arith.DivMonotone(i, n - 1, L);
    }
  }

  lemma BlocksCover(n: int, L: int, k: int)
    requires n > 0 && L >= 1 && k > 0
    ensures (n - 1) / L >= k <==> L * k < n
  {
    var q, r := (n - 1) / L, (n - 1) % L;
    assert n - 1 == q * L + r;
    if q >= k {
      Arith.MulMonotone(k, q, L);
    } else {
      Arith.MulMonotone(q + 1, k, L);
    }
  }

  /** When round(n/k) is 0 (n at most half of k) the builder never fails,
      but it skips the first setpoint: step i holds setpoint i + 1. */
  lemma ExpandedSkipsFirst(n: int, segs: seq<real>)
    requires n > 0 && |segs| > 0 && RoundHalfEven(n, |segs|) == 0
    ensures Expanded(n, segs).Ok?
    ensures |Expanded(n, segs).value| == n
    ensures forall i :: 0 <= i < n ==> Expanded(n, segs).value[i] == segs[i + 1]
  {
    RoundHalfEvenNearest(n, |segs|);
    assert 2 * n <= |segs|;
  }

  /** 1000 steps over four setpoints: four full blocks of 250. */
  lemma ExpandedFourBlocks(a: real, b: real, c: real, d: real)
    ensures RoundHalfEven(1000, 4) == 250
    ensures Expanded(1000, [a, b, c, d]).Ok?
    ensures forall i :: 0 <= i < 1000 ==> Expanded(1000, [a, b, c, d]).value[i] == [a, b, c, d][i / 250]
  {
    ExpandedBlocks(1000, [a, b, c, d]);
  }

  /** 10 steps over four setpoints: round(2.5) is 2 and 4 * 2 < 10, so the
      builder raises instead of letting the last block absorb the remainder. */
  lemma ExpandedCrashes(a: real, b: real, c: real, d: real)
    ensures RoundHalfEven(10, 4) == 2
    ensures Expanded(10, [a, b, c, d]) == Err(IndexError)
  {
  }

  /** 6 steps over four setpoints: blocks of round(1.5) = 2, and the last
      setpoint is never used. */
  lemma ExpandedDropsLast(a: real, b: real, c: real, d: real)
    ensures Expanded(6, [a, b, c, d]) == Ok([a, a, b, b, c, c])
  {
    assert RoundHalfEven(6, 4) == 2;
    var out := [a, a, b, b, c, c];
    forall j | 0 <= j < 6 ensures SegmentOf(2, j) < 4 && out[j] == [a, b, c, d][SegmentOf(2, j)] {
      assert SegmentOf(2, j) == j / 2;
    }
    ExpandedIs(6, [a, b, c, d], 2, out);
  }

  /** Entry i of the horizon window at step n: the trajectory value i control
      periods ahead, or the last value when that index is past the end. It
      exists exactly when the trajectory is non-empty and the index is not
      below -len(ref) (Python's negative indexing). */
  function WindowAt(ref: seq<real>, n: int, timeRatio: int, i: nat): (r: Result<real>)
    ensures r.Ok? <==> |ref| > 0 && n + i * timeRatio >= -|ref|
    ensures 0 <= n + i * timeRatio < |ref| ==> r == Ok(ref[n + i * timeRatio])
    ensures |ref| > 0 && n + i * timeRatio >= |ref| ==> r == Ok(ref[|ref| - 1])
    ensures r.Ok? ==> r.value in ref
    ensures r.Err? ==> r.error == IndexError
  {
    if n + i * timeRatio < |ref| then Index(ref, n + i * timeRatio) else Index(ref, -1)
  }

  /** ref_h: the h window entries, or IndexError when one of them does not
      exist. A window is h values of the trajectory; an empty trajectory
      admits only the empty window. */
  function Window(ref: seq<real>, n: int, h: nat, timeRatio: int): (r: Result<seq<real>>)
    ensures r.Ok? ==> |r.value| == h && forall i :: 0 <= i < h ==> r.value[i] in ref
    ensures r.Err? ==> r.error == IndexError
    ensures |ref| == 0 ==> (r.Ok? <==> h == 0)
    ensures n >= 0 && timeRatio >= 0 ==> (r.Ok? <==> h == 0 || |ref| > 0)
  {
    if forall i :: 0 <= i < h ==> WindowAt(ref, n, timeRatio, i).Ok? then
      assert h > 0 ==> WindowAt(ref, n, timeRatio, 0).Ok?;
      Ok(seq(h, i requires 0 <= i < h => WindowAt(ref, n, timeRatio, i).value))
    else Err(IndexError)
  }

  /** The loop at the head of the optimizer that builds ref_h. */
  method HorizonReference(ref: seq<real>, n: int, h: nat, timeRatio: int) returns (r: Result<seq<real>>)
    ensures r == Window(ref, n, h, timeRatio)
  {
    var refH: seq<real> := [];
    var i := 0;
    while i < h
      invariant 0 <= i <= h && |refH| == i
      invariant forall j :: 0 <= j < i ==> WindowAt(ref, n, timeRatio, j).Ok? && refH[j] == WindowAt(ref, n, timeRatio, j).value
    {
      var v: Result<real>;
      if n + i * timeRatio < |ref| {
        v := Index(ref, n + i * timeRatio);
      } else {
        v := Index(ref, -1);
      }
      if v.Err? {
        assert !WindowAt(ref, n, timeRatio, i).Ok?;
        return Err(v.error);
      }
      refH := refH + [v.value];
      i := i + 1;
    }
    assert refH == seq(h, j requires 0 <= j < h => WindowAt(ref, n, timeRatio, j).value);
    return Ok(refH);
  }

  /** For a non-empty trajectory, a step index n >= 0 and a time ratio >= 0,
      the window always has h entries: the value at n + i*timeRatio, clamped
      to the last index. */
  lemma WindowClamps(ref: seq<real>, n: int, h: nat, timeRatio: int)
    requires |ref| > 0 && n >= 0 && timeRatio >= 0
    ensures Window(ref, n, h, timeRatio).Ok?
    ensures |Window(ref, n, h, timeRatio).value| == h
    ensures forall i :: 0 <= i < h ==> (Window(ref, n, h, timeRatio).value[i] ==
      ref[if n + i * timeRatio < |ref| then n + i * timeRatio else |ref| - 1])
  {
    forall i | 0 <= i < h ensures WindowAt(ref, n, timeRatio, i).Ok? {
      assert i * timeRatio >= 0;
    }
  }
}
