/** Linear prediction coefficients (src/lpc.ts).

    `forwardLinearPrediction` computes the autocorrelation of a frame and runs
    the Levinson–Durbin recursion on it; `praatBurgMethod` is Praat's Burg
    lattice.  JavaScript arrays that the source fills and updates in place are
    local sequences that the methods reassign entry by entry.  Every method is
    proved equal to a closed-form specification function, and the properties
    the recursions promise are lemmas about those functions. */
module Lpc {
  import opened RealMath

  // ---------------------------------------------------------------------
  // Autocorrelation (lpc.ts:7-14)
  // ---------------------------------------------------------------------

  /** The sum of the first `count` products x[j]·x[j + lag]. */
  function Lagged(x: seq<real>, lag: nat, count: nat): real
    requires lag + count <= |x|
  {
    if count == 0 then 0.0
    else Lagged(x, lag, count - 1) + Product(x[count - 1], x[count - 1 + lag])
  }

  /** r[lag] = Σ_{j = 0}^{|x| − 1 − lag} x[j]·x[j + lag]; the inner loop of
      lpc.ts:10 runs no time at all once the lag reaches the frame length. */
  function Autocorrelation(x: seq<real>, lag: nat): real {
    if lag < |x| then Lagged(x, lag, |x| - lag) else 0.0
  }

  /** The numCoeffs + 1 autocorrelation coefficients the recursion reads. */
  function Autocorrelations(x: seq<real>, numCoeffs: nat): (r: seq<real>)
    ensures |r| == numCoeffs + 1
  {
    seq(numCoeffs + 1, i requires 0 <= i <= numCoeffs => Autocorrelation(x, i))
  }

  /** The zero-lag sum of squares is never negative, and it is zero exactly
      when every sample it covers is zero. */
  lemma {:induction false} EnergyNonNegative(x: seq<real>, count: nat)
    requires count <= |x|
    ensures Lagged(x, 0, count) >= 0.0
    ensures (forall j :: 0 <= j < count ==> x[j] == 0.0) ==> Lagged(x, 0, count) == 0.0
    ensures (exists j :: 0 <= j < count && x[j] != 0.0) ==> Lagged(x, 0, count) > 0.0
  {
    if count > 0 {
      EnergyNonNegative(x, count - 1);
      var v := x[count - 1];
      assert Lagged(x, 0, count) == Lagged(x, 0, count - 1) + Product(v, v);
      if v != 0.0 {
        SquarePositive(v);
      } else {
        assert Product(v, v) == 0.0;
        if exists j :: 0 <= j < count && x[j] != 0.0 {
          var j :| 0 <= j < count && x[j] != 0.0;
          assert j < count - 1;
        }
      }
    }
  }

  /** r[0] is the energy of the frame: never negative, zero exactly for a
      silent frame. */
  lemma ZeroLagEnergy(x: seq<real>, numCoeffs: nat)
    ensures Autocorrelations(x, numCoeffs)[0] >= 0.0
    ensures Autocorrelations(x, numCoeffs)[0] == 0.0 <==> forall j :: 0 <= j < |x| ==> x[j] == 0.0
  {
    EnergyNonNegative(x, |x|);
    if !(forall j :: 0 <= j < |x| ==> x[j] == 0.0) {
      var j :| 0 <= j < |x| && x[j] != 0.0;
    }
  }

  /** The nested loops of lpc.ts:7-14. */
  method Autocorrelate(sample: seq<real>, numCoeffs: nat) returns (r: seq<real>)
    ensures r == Autocorrelations(sample, numCoeffs)
  {
    r := seq(numCoeffs + 1, _ => 0.0);
    for i := 0 to numCoeffs + 1
      invariant |r| == numCoeffs + 1
      invariant forall t :: 0 <= t < i ==> r[t] == Autocorrelation(sample, t)
      invariant forall t :: i <= t <= numCoeffs ==> r[t] == 0.0
    {
      var j := 0;
      while j <= |sample| - 1 - i
        invariant 0 <= j && (j <= |sample| - i || j == 0)
        invariant |r| == numCoeffs + 1
        invariant r[i] == if i < |sample| then Lagged(sample, i, j) else 0.0
        invariant forall t :: 0 <= t < i ==> r[t] == Autocorrelation(sample, t)
        invariant forall t :: i < t <= numCoeffs ==> r[t] == 0.0
      {
        r := r[i := r[i] + sample[j] * sample[j + i]];
        j := j + 1;
      }
    }
  }

  // ---------------------------------------------------------------------
  // Levinson–Durbin recursion (lpc.ts:17-48)
  // ---------------------------------------------------------------------

  /** The coefficients and the prediction error after some number of stages. */
  datatype Stage = Stage(ak: seq<real>, ek: real)

  /** [1, 0, …, 0] with n + 1 entries (lpc.ts:17-18). */
  function Unit(n: nat): (ak: seq<real>)
    ensures |ak| == n + 1
  {
    seq(n + 1, j => if j == 0 then 1.0 else 0.0)
  }

  /** |i − j|, the distance that indexes a symmetric Toeplitz matrix. */
  function Dist(i: int, j: int): nat {
    if i >= j then i - j else j - i
  }

  /** Σ_{j < count} ak[j]·r[|i − j|]: row i of the Toeplitz system built from
      r, applied to the first `count` coefficients. */
  function Row(ak: seq<real>, r: seq<real>, i: nat, count: nat): real
    requires count <= |ak| && count <= |r| && i < |r|
  {
    if count == 0 then 0.0
    else Row(ak, r, i, count - 1) + ak[count - 1] * r[Dist(i, count - 1)]
  }

  /** The simultaneous update that fills entry `top`:
      ak'[j] = ak[j] + λ·ak[top − j] for j ≤ top; entries past top are kept.
      Stage k of lpc.ts:24-45 is the update with top = k + 1. */
  function Reflect(ak: seq<real>, top: nat, lambda: real): (next: seq<real>)
    requires top < |ak|
    ensures |next| == |ak|
  {
    seq(|ak|, j requires 0 <= j < |ak| =>
      if j <= top then ak[j] + Product(lambda, ak[top - j]) else ak[j])
  }

  /** λ of lpc.ts:27-33 for the stage that fills entry k:
      −Σ_{j < k} ak[j]·r[k − j] divided by the prediction error. */
  function ReflectionCoefficient(prev: Stage, r: seq<real>, k: nat): real
    requires k <= |prev.ak| && k < |r| && prev.ek != 0.0
  {
    -Row(prev.ak, r, k, k) / prev.ek
  }

  /** One stage: the update of lpc.ts:36-41 with that λ, and the error of
      lpc.ts:44. */
  function Advance(prev: Stage, r: seq<real>, k: nat): (next: Stage)
    requires k < |prev.ak| && k < |r| && prev.ek != 0.0
    ensures |next.ak| == |prev.ak|
  {
    var lambda := ReflectionCoefficient(prev, r, k);
    Stage(Reflect(prev.ak, k, lambda), prev.ek * (1.0 - lambda * lambda))
  }

  /** The state after k stages of the recursion on the autocorrelations r, or
      None when some stage would divide by a zero prediction error
      (lpc.ts:33 has no guard). */
  function Levinson(r: seq<real>, k: nat): (st: Option<Stage>)
    requires k < |r|
    ensures st.Some? ==> |st.value.ak| == |r|
    decreases k
  {
    if k == 0 then Some(Stage(Unit(|r| - 1), r[0]))
    else
      match Levinson(r, k - 1)
      case None => None
      case Some(prev) =>
        if prev.ek == 0.0 then None
        else
          Some(Advance(prev, r, k))
  }

  /** Stage k is stage k − 1 advanced by one update. */
  lemma LevinsonNext(r: seq<real>, k: nat)
    requires 0 < k < |r| && Levinson(r, k).Some?
    ensures Levinson(r, k - 1).Some? && Levinson(r, k - 1).value.ek != 0.0
    ensures Levinson(r, k) == Some(Advance(Levinson(r, k - 1).value, r, k))
  {
  }

  /** The coefficients `forwardLinearPrediction(x, numCoeffs)` returns, or None
      when the source would divide by zero. */
  function LinearPrediction(x: seq<real>, numCoeffs: nat): (ak: Option<seq<real>>)
    ensures ak.Some? ==> |ak.value| == numCoeffs + 1
  {
    match Levinson(Autocorrelations(x, numCoeffs), numCoeffs)
    case None => None
    case Some(st) => Some(st.ak)
  }

  /** A defined stage has defined predecessors. */
  lemma {:induction false} LevinsonPrefix(r: seq<real>, k: nat, later: nat)
    requires k <= later < |r| && Levinson(r, later).Some?
    ensures Levinson(r, k).Some?
    decreases later
  {
    if k < later {
      LevinsonPrefix(r, k, later - 1);
    }
  }

  /** Once a stage is undefined every later one is. */
  lemma {:induction false} LevinsonStuck(r: seq<real>, k: nat, later: nat)
    requires k <= later < |r| && Levinson(r, k).None?
    ensures Levinson(r, later).None?
    decreases later
  {
    if k < later {
      LevinsonStuck(r, k, later - 1);
    }
  }

  /** The first division of lpc.ts:33 is by r[0], so it is undefined exactly
      for a silent frame; a silent frame therefore has no prediction at all. */
  lemma SilentFrame(x: seq<real>, numCoeffs: nat)
    requires numCoeffs > 0
    ensures Levinson(Autocorrelations(x, numCoeffs), 1).None? <==> forall j :: 0 <= j < |x| ==> x[j] == 0.0
    ensures (forall j :: 0 <= j < |x| ==> x[j] == 0.0) ==> LinearPrediction(x, numCoeffs).None?
  {
    var r := Autocorrelations(x, numCoeffs);
    ZeroLagEnergy(x, numCoeffs);
    if forall j :: 0 <= j < |x| ==> x[j] == 0.0 {
      LevinsonStuck(r, 1, numCoeffs);
    }
  }

  /** After k stages ak[0] is still 1 and every entry past k is still 0; the
      entry k holds the k-th reflection coefficient. */
  lemma {:induction false} LevinsonShape(r: seq<real>, k: nat)
    requires k < |r| && Levinson(r, k).Some?
    ensures Levinson(r, k).value.ak[0] == 1.0
    ensures forall j :: k < j < |r| ==> Levinson(r, k).value.ak[j] == 0.0
    ensures k > 0 ==> var prev := Levinson(r, k - 1).value;
      prev.ek != 0.0 && Levinson(r, k).value.ak[k] == ReflectionCoefficient(prev, r, k)
  {
    if k > 0 {
      LevinsonNext(r, k);
      LevinsonShape(r, k - 1);
      var prev := Levinson(r, k - 1).value;
      ReflectShape(prev.ak, k, ReflectionCoefficient(prev, r, k));
    }
  }

  /** The update that fills entry k of coefficients shaped [1, …, 0, 0, …]
      keeps the leading 1, writes λ into entry k and leaves the tail zero. */
  lemma ReflectShape(ak: seq<real>, k: nat, lambda: real)
    requires 0 < k < |ak| && ak[0] == 1.0
    requires forall j :: k <= j < |ak| ==> ak[j] == 0.0
    ensures Reflect(ak, k, lambda)[0] == 1.0
    ensures Reflect(ak, k, lambda)[k] == lambda
    ensures forall j :: k < j < |ak| ==> Reflect(ak, k, lambda)[j] == 0.0
  {
    assert Product(lambda, ak[k]) == 0.0;
    assert Product(lambda, ak[0]) == lambda;
  }

  /** Σ_{j < count} ak[top − j]·r[|i − j|]: a row applied to the coefficients
      read backwards from `top`. */
  function FlipRow(ak: seq<real>, r: seq<real>, i: nat, top: nat, count: nat): real
    requires count <= top + 1 && top < |ak| && count <= |r| && i < |r|
  {
    if count == 0 then 0.0
    else FlipRow(ak, r, i, top, count - 1) + ak[top - (count - 1)] * r[Dist(i, count - 1)]
  }

  /** Reading the coefficients backwards is reading the mirrored row forwards. */
  lemma {:induction false} FlipIsMirror(ak: seq<real>, r: seq<real>, i: nat, top: nat, count: nat)
    requires i <= top < |r| && top < |ak| && count <= top + 1
    ensures FlipRow(ak, r, i, top, count)
      == Row(ak, r, top - i, top + 1) - Row(ak, r, top - i, top + 1 - count)
  {
    if count > 0 {
      FlipIsMirror(ak, r, i, top, count - 1);
      assert Dist(i, count - 1) == Dist(top - i, top - (count - 1));
    }
  }

  lemma Distribute(a: real, b: real, lambda: real, d: real)
    ensures (a + Product(lambda, b)) * d == a * d + lambda * (b * d)
  {
  }

  /** A row applied to the reflected coefficients is the row applied to the
      old ones plus λ times the row applied to them backwards. */
  lemma {:induction false} ReflectRow(ak: seq<real>, r: seq<real>, top: nat, lambda: real, i: nat, count: nat)
    requires top < |ak| && count <= top + 1 && count <= |r| && i < |r|
    ensures Row(Reflect(ak, top, lambda), r, i, count)
      == Row(ak, r, i, count) + lambda * FlipRow(ak, r, i, top, count)
  {
    if count > 0 {
      ReflectRow(ak, r, top, lambda, i, count - 1);
      var j := count - 1;
      Distribute(ak[j], ak[top - j], lambda, r[Dist(i, j)]);
    }
  }

  /** A zero entry at the end adds nothing to a row. */
  lemma RowZeroTail(ak: seq<real>, r: seq<real>, i: nat, count: nat)
    requires count < |ak| && count < |r| && i < |r| && ak[count] == 0.0
    ensures Row(ak, r, i, count + 1) == Row(ak, r, i, count)
  {
  }

  /** The step of the recursion in scalars: with λ = −d/e, row 0 becomes
      e·(1 − λ²) and row k + 1 becomes zero. */
  lemma StageAlgebra(e: real, d: real, lambda: real)
    requires e != 0.0 && lambda == -d / e
    ensures e + lambda * d == e * (1.0 - lambda * lambda)
    ensures d + lambda * e == 0.0
  {
    assert d == -lambda * e;
  }

  /** Row i of the update that fills entry k, in terms of rows i and k − i of
      its input, when the input's entry k is still zero. */
  lemma StageRow(a: seq<real>, r: seq<real>, k: nat, lambda: real, i: nat)
    requires k < |a| && k < |r| && i <= k && a[k] == 0.0
    ensures Row(Reflect(a, k, lambda), r, i, k + 1)
      == Row(a, r, i, k) + lambda * Row(a, r, k - i, k)
  {
    ReflectRow(a, r, k, lambda, i, k + 1);
    FlipIsMirror(a, r, i, k, k + 1);
    RowZeroTail(a, r, i, k);
    RowZeroTail(a, r, k - i, k);
  }

  /** The Yule–Walker normal equations of order k: Σ_{j ≤ k} ak[j]·r[|i − j|]
      is e for i = 0 and 0 for 1 ≤ i ≤ k. */
  ghost predicate SolvesNormal(ak: seq<real>, e: real, r: seq<real>, k: nat)
    requires k < |ak| && k < |r|
  {
    var count := k + 1;
    && Row(ak, r, 0, count) == e
    && forall i :: 1 <= i <= k ==> Row(ak, r, i, count) == 0.0
  }

  /** One stage of the recursion carries a solution of order k − 1, whose
      entry k is zero, to a solution of order k. */
  lemma NormalStep(prev: Stage, r: seq<real>, k: nat)
    requires 0 < k < |prev.ak| && k < |r| && prev.ak[k] == 0.0 && prev.ek != 0.0
    requires SolvesNormal(prev.ak, prev.ek, r, k - 1)
    ensures SolvesNormal(Advance(prev, r, k).ak, Advance(prev, r, k).ek, r, k)
  {
    var a, e := prev.ak, prev.ek;
    var d := Row(a, r, k, k);
    var lambda := -d / e;
    assert lambda == ReflectionCoefficient(prev, r, k);
    var next := Reflect(a, k, lambda);
    forall i | 0 <= i <= k
      ensures Row(next, r, i, k + 1) == Row(a, r, i, k) + lambda * Row(a, r, k - i, k)
    {
      StageRow(a, r, k, lambda, i);
    }
    StageAlgebra(e, d, lambda);
    assert Row(next, r, 0, k + 1) == e * (1.0 - lambda * lambda);
    assert Row(next, r, k, k + 1) == 0.0;
    var count := k + 1;
    forall i | 1 <= i < k
      ensures Row(next, r, i, count) == 0.0
    {
      assert Row(a, r, i, k) == 0.0 && Row(a, r, k - i, k) == 0.0;
    }
  }

  /** Levinson–Durbin solves the Yule–Walker normal equations: after k stages
      the coefficients ak[0..k] and the error ek satisfy them. */
  lemma {:induction false} YuleWalker(r: seq<real>, k: nat)
    requires k < |r| && Levinson(r, k).Some?
    ensures SolvesNormal(Levinson(r, k).value.ak, Levinson(r, k).value.ek, r, k)
  {
    var st := Levinson(r, k).value;
    if k == 0 {
      assert st.ak[0] == 1.0 && Dist(0, 0) == 0;
      assert Row(st.ak, r, 0, 1) == st.ak[0] * r[0];
    } else {
      var prev := Levinson(r, k - 1).value;
      LevinsonNext(r, k);
      YuleWalker(r, k - 1);
      LevinsonShape(r, k - 1);
      NormalStep(prev, r, k);
    }
  }

  /** The pairs (j, top − j) with j < i already updated, the rest untouched. */
  function Partial(ak0: seq<real>, top: nat, lambda: real, i: nat): (ak: seq<real>)
    requires top < |ak0|
    ensures |ak| == |ak0|
  {
    seq(|ak0|, j requires 0 <= j < |ak0| =>
      if j < i || top - i < j <= top then Reflect(ak0, top, lambda)[j] else ak0[j])
  }

  /** One pass of the update loop turns the first i pairs into the first
      i + 1. */
  lemma PartialStep(ak0: seq<real>, top: nat, lambda: real, i: nat)
    requires top < |ak0| && 2 * i <= top
    ensures var ak := Partial(ak0, top, lambda, i);
      ak[i := ak[i] + Product(lambda, ak[top - i])][top - i := ak[top - i] + Product(lambda, ak[i])]
        == Partial(ak0, top, lambda, i + 1)
  {
    var before := Partial(ak0, top, lambda, i);
    var after := Partial(ak0, top, lambda, i + 1);
    var reflected := Reflect(ak0, top, lambda);
    assert before[i] == ak0[i] && before[top - i] == ak0[top - i];
    var mid := before[i := ak0[i] + Product(lambda, ak0[top - i])];
    var ak := mid[top - i := ak0[top - i] + Product(lambda, ak0[i])];
    forall j | 0 <= j < |ak|
      ensures ak[j] == after[j]
    {
      if j == top - i {
        assert reflected[j] == ak0[j] + Product(lambda, ak0[i]);
      } else if j == i {
        assert mid[j] == ak0[i] + Product(lambda, ak0[top - i]);
        assert reflected[j] == ak0[i] + Product(lambda, ak0[top - i]);
      } else {
        assert ak[j] == before[j];
      }
    }
    assert ak == after;
  }

  /** The in-place update of lpc.ts:36-41: i runs while i ≤ (k + 1)/2 in
      floating point, that is while 2·i ≤ k + 1, and each pass rewrites the
      pair (i, k + 1 − i) through `temp`. */
  method UpdateCoefficients(ak0: seq<real>, k: nat, lambda: real) returns (ak: seq<real>)
    requires k + 1 < |ak0|
    ensures ak == Reflect(ak0, k + 1, lambda)
  {
    ak := ak0;
    var i := 0;
    assert ak == Partial(ak0, k + 1, lambda, 0);
    while 2 * i <= k + 1
      invariant 2 * i <= k + 3
      invariant ak == Partial(ak0, k + 1, lambda, i)
    {
      PartialStep(ak0, k + 1, lambda, i);
      var temp := ak[k + 1 - i] + Product(lambda, ak[i]);
      ak := ak[i := ak[i] + Product(lambda, ak[k + 1 - i])];
      ak := ak[k + 1 - i := temp];
      i := i + 1;
    }
    assert ak == Partial(ak0, k + 1, lambda, i);
  }

  /** lambda before the division: −Σ_{j ≤ k} ak[j]·r[k + 1 − j]
      (lpc.ts:27-31). */
  method Correlate(ak: seq<real>, r: seq<real>, k: nat) returns (lambda: real)
    requires k + 1 < |ak| && k + 1 < |r|
    ensures lambda == -Row(ak, r, k + 1, k + 1)
  {
    lambda := 0.0;
    for j := 0 to k + 1
      invariant lambda == -Row(ak, r, k + 1, j)
    {
      lambda := lambda - ak[j] * r[k + 1 - j];
    }
  }

  /** One pass of the loop of lpc.ts:24-45: stage k fills entry k + 1. */
  method RunStage(r: seq<real>, ak0: seq<real>, ek0: real, k: nat) returns (ak: seq<real>, ek: real)
    requires k + 1 < |ak0| && k + 1 < |r| && ek0 != 0.0
    ensures Stage(ak, ek) == Advance(Stage(ak0, ek0), r, k + 1)
  {
    var lambda := Correlate(ak0, r, k);
    lambda := lambda / ek0;
    assert lambda == ReflectionCoefficient(Stage(ak0, ek0), r, k + 1);
    ak := UpdateCoefficients(ak0, k, lambda);
    ek := ek0 * (1.0 - lambda * lambda);
  }

  /** forwardLinearPrediction (lpc.ts:2-49). The caller must not hand it a
      frame on which some stage divides by zero. */
  method ForwardLinearPrediction(sample: seq<real>, numCoeffs: nat) returns (ak: seq<real>)
    requires LinearPrediction(sample, numCoeffs).Some?
    ensures Some(ak) == LinearPrediction(sample, numCoeffs)
    ensures |ak| == numCoeffs + 1 && ak[0] == 1.0
  {
    var r := Autocorrelate(sample, numCoeffs);
    ak := seq(numCoeffs + 1, _ => 0.0);
    ak := ak[0 := 1.0];
    assert ak == Unit(numCoeffs);
    var ek := r[0];
    for k := 0 to numCoeffs
      invariant Levinson(r, k) == Some(Stage(ak, ek))
    {
      LevinsonPrefix(r, k + 1, numCoeffs);
      LevinsonNext(r, k + 1);
      ak, ek := RunStage(r, ak, ek, k);
    }
    LevinsonShape(r, numCoeffs);
  }

  // ---------------------------------------------------------------------
  // Praat's Burg method (lpc.ts:52-144)
  // ---------------------------------------------------------------------

  /** What the Burg loop carries from one order to the next: the predictor
      a, its copy aa from the previous order, the forward and backward
      prediction errors b1 and b2, and the mean power xms. */
  datatype Lattice = Lattice(a: seq<real>, aa: seq<real>, b1: seq<real>, b2: seq<real>, xms: real)

  /** The loop either goes on, or has returned early (lpc.ts:109-110) with
      the predictor as it stood. */
  datatype Progress = Running(lattice: Lattice) | Halted(a: seq<real>)

  /** Predictor arrays of order m and error arrays of frame length n. */
  predicate Shaped(l: Lattice, m: nat, n: nat) {
    |l.a| == m && |l.aa| == m && |l.b1| == n && |l.b2| == n
  }

  function Zeros(m: nat): (z: seq<real>)
    ensures |z| == m && forall j :: 0 <= j < m ==> z[j] == 0.0
  {
    seq(m, _ => 0.0)
  }

  /** How often `for (j = 1; j <= n - i; j++)` runs. */
  function Span(n: nat, i: nat): nat {
    if i < n then n - i else 0
  }

  /** num of lpc.ts:101-105: Σ_{t < count} b1[t]·b2[t]. */
  function Cross(b1: seq<real>, b2: seq<real>, count: nat): real
    requires count <= |b1| && count <= |b2|
  {
    if count == 0 then 0.0
    else Cross(b1, b2, count - 1) + Product(b1[count - 1], b2[count - 1])
  }

  /** denum of lpc.ts:101-105: Σ_{t < count} b1[t]² + b2[t]². */
  function Power(b1: seq<real>, b2: seq<real>, count: nat): real
    requires count <= |b1| && count <= |b2|
  {
    if count == 0 then 0.0
    else
      var t := count - 1;
      Power(b1, b2, t) + (Product(b1[t], b1[t]) + Product(b2[t], b2[t]))
  }

  lemma DifferenceSquare(u: real, v: real)
    ensures Product(u - v, u - v) == Product(u, u) - 2.0 * Product(u, v) + Product(v, v)
  {
  }

  lemma SumSquare(u: real, v: real)
    ensures Product(u + v, u + v) == Product(u, u) + 2.0 * Product(u, v) + Product(v, v)
  {
  }

  /** 2·|u·v| ≤ u² + v², from (u − v)² ≥ 0 and (u + v)² ≥ 0. */
  lemma TermBound(u: real, v: real)
    ensures 2.0 * Product(u, v) <= Product(u, u) + Product(v, v)
    ensures -(Product(u, u) + Product(v, v)) <= 2.0 * Product(u, v)
  {
    SquareNonNegative(u - v);
    DifferenceSquare(u, v);
    SquareNonNegative(u + v);
    SumSquare(u, v);
  }

  /** 2·|num| ≤ denum for the sums of every order. */
  lemma {:induction false} CrossBound(b1: seq<real>, b2: seq<real>, count: nat)
    requires count <= |b1| && count <= |b2|
    ensures -Power(b1, b2, count) <= 2.0 * Cross(b1, b2, count) <= Power(b1, b2, count)
  {
    if count > 0 {
      CrossBound(b1, b2, count - 1);
      TermBound(b1[count - 1], b2[count - 1]);
    }
  }

  /** A quotient 2·num/denum with 2·|num| ≤ denum lies in [−1, 1]. */
  lemma CoefficientBound(num: real, denum: real)
    requires denum > 0.0 && -denum <= 2.0 * num <= denum
    ensures -1.0 <= 2.0 * num / denum <= 1.0
  {
  }

  /** The predictor of order i (lpc.ts:113-120): entry i − 1 is the new
      reflection coefficient c, entry t < i − 1 is aa[t] − c·aa[i − 2 − t],
      and the entries of higher order are kept. */
  function Recurse(a: seq<real>, aa: seq<real>, c: real, i: nat): (next: seq<real>)
    requires 1 <= i <= |a| && |aa| == |a|
    ensures |next| == |a|
  {
    seq(|a|, t requires 0 <= t < |a| =>
      if t < i - 1 then aa[t] - Product(c, aa[i - 2 - t])
      else if t == i - 1 then c
      else a[t])
  }

  /** b1 after order i (lpc.ts:128-132), its first `count` entries updated. */
  function Forward(b1: seq<real>, b2: seq<real>, c: real, count: nat): (next: seq<real>)
    requires |b1| == |b2| && count <= |b1|
    ensures |next| == |b1|
  {
    seq(|b1|, t requires 0 <= t < |b1| =>
      if t < count then b1[t] - Product(c, b2[t]) else b1[t])
  }

  /** b2 after order i: entry t < count reads the not yet updated entries
      t + 1 of both arrays. */
  function Backward(b1: seq<real>, b2: seq<real>, c: real, count: nat): (next: seq<real>)
    requires |b1| == |b2| && (count == 0 || count < |b1|)
    ensures |next| == |b2|
  {
    seq(|b2|, t requires 0 <= t < |b2| =>
      if t < count then b2[t + 1] - Product(c, b1[t + 1]) else b2[t])
  }

  /** The arrays after the order-i recursion with reflection coefficient c.
      The source updates the errors with aa[i − 1], which the copy has just
      set to c. */
  function Reflected(l: Lattice, i: nat, m: nat, c: real): (next: Lattice)
    requires 1 <= i <= m && Shaped(l, m, |l.b1|)
    ensures Shaped(next, m, |l.b1|)
  {
    var a := Recurse(l.a, l.aa, c, i);
    var xms := Product(l.xms, 1.0 - Product(c, c));
    if i < m then
      var count := Span(|l.b1|, i + 1);
      Lattice(a, a[..i] + l.aa[i..], Forward(l.b1, l.b2, c, count), Backward(l.b1, l.b2, c, count), xms)
    else
      Lattice(a, l.aa, l.b1, l.b2, xms)
  }

  /** One pass of the order loop (lpc.ts:97-134). */
  function BurgIteration(l: Lattice, i: nat, m: nat): (p: Progress)
    requires 1 <= i <= m && Shaped(l, m, |l.b1|)
    ensures p.Running? ==> Shaped(p.lattice, m, |l.b1|)
    ensures p.Halted? ==> |p.a| == m
  {
    var count := Span(|l.b1|, i);
    var denum := Power(l.b1, l.b2, count);
    if denum <= 0.0 then Halted(l.a)
    else Running(Reflected(l, i, m, 2.0 * Cross(l.b1, l.b2, count) / denum))
  }

  /** The arrays before the order loop (lpc.ts:57-95): zero predictors,
      b1 = x[0..n − 2] and b2 = x[1..n − 1], each padded with one zero, and
      xms the mean power. */
  function BurgStart(x: seq<real>, m: nat): (l: Lattice)
    requires 2 < |x|
    ensures Shaped(l, m, |x|)
  {
    var n := |x|;
    Lattice(Zeros(m), Zeros(m), x[..n - 1] + [0.0], x[1..] + [0.0], Lagged(x, 0, n) / (n as real))
  }

  /** The state after orders 1 … i. */
  function BurgRun(x: seq<real>, m: nat, i: nat): (p: Progress)
    requires 2 < |x| && i <= m
    ensures p.Running? ==> Shaped(p.lattice, m, |x|)
    ensures p.Halted? ==> |p.a| == m
  {
    if i == 0 then Running(BurgStart(x, m))
    else
      match BurgRun(x, m, i - 1)
      case Halted(a) => Halted(a)
      case Running(l) => BurgIteration(l, i, m)
  }

  function Negated(a: seq<real>): (b: seq<real>)
    ensures |b| == |a|
  {
    seq(|a|, j requires 0 <= j < |a| => -a[j])
  }

  /** The early return for frames of at most two samples (lpc.ts:60-65):
      a[1] = −1 on a zero array of length m, which a JavaScript array
      extends to length 2 when m < 2. */
  function TooShort(m: nat): seq<real> {
    Zeros(if m < 2 then 2 else m)[1 := -1.0]
  }

  /** praatBurgMethod(x, m). */
  function PraatBurg(x: seq<real>, m: nat): seq<real> {
    if |x| <= 2 then TooShort(m)
    else if Lagged(x, 0, |x|) / (|x| as real) <= 0.0 then Zeros(m)
    else
      match BurgRun(x, m, m)
      case Halted(a) => a
      case Running(l) => [1.0] + Negated(l.a)
  }

  /** Once the loop has returned it stays returned. */
  lemma {:induction false} BurgHaltedStays(x: seq<real>, m: nat, i: nat, later: nat)
    requires 2 < |x| && i <= later <= m && BurgRun(x, m, i).Halted?
    ensures BurgRun(x, m, later) == BurgRun(x, m, i)
    decreases later
  {
    if i < later {
      BurgHaltedStays(x, m, i, later - 1);
    }
  }

  /** One order keeps xms non-negative, and its reflection coefficient lies
      in [−1, 1]. */
  lemma IterationBounds(l: Lattice, i: nat, m: nat)
    requires 1 <= i <= m && Shaped(l, m, |l.b1|) && l.xms >= 0.0
    requires BurgIteration(l, i, m).Running?
    ensures BurgIteration(l, i, m).lattice.xms >= 0.0
    ensures -1.0 <= BurgIteration(l, i, m).lattice.a[i - 1] <= 1.0
  {
    var count := Span(|l.b1|, i);
    var num, denum := Cross(l.b1, l.b2, count), Power(l.b1, l.b2, count);
    CrossBound(l.b1, l.b2, count);
    CoefficientBound(num, denum);
    var c := 2.0 * num / denum;
    var next := Reflected(l, i, m, c);
    assert next.a[i - 1] == c;
    SquareAtMostOne(c);
    ScaleNonNegative(l.xms, 1.0 - Product(c, c));
  }

  /** Every reflection coefficient lies in [−1, 1], and therefore the mean
      power xms, multiplied by 1 − a_i² at each order, never turns
      negative. */
  lemma {:induction false} BurgBounds(x: seq<real>, m: nat, i: nat)
    requires 2 < |x| && i <= m && BurgRun(x, m, i).Running?
    ensures BurgRun(x, m, i).lattice.xms >= 0.0
    ensures i > 0 ==> -1.0 <= BurgRun(x, m, i).lattice.a[i - 1] <= 1.0
  {
    if i == 0 {
      EnergyNonNegative(x, |x|);
    } else {
      BurgBounds(x, m, i - 1);
      IterationBounds(BurgRun(x, m, i - 1).lattice, i, m);
    }
  }

  /** A frame of at most two samples gives [0, −1, 0, …] (lpc.ts:60-65). */
  lemma BurgTooShort(x: seq<real>, m: nat)
    requires |x| <= 2
    ensures var r := PraatBurg(x, m);
      |r| == (if m < 2 then 2 else m) && r[1] == -1.0
      && forall j :: 0 <= j < |r| && j != 1 ==> r[j] == 0.0
  {
  }

  /** The energy test of lpc.ts:77-82 returns m zeros exactly for a silent
      frame. */
  lemma BurgSilent(x: seq<real>, m: nat)
    requires 2 < |x|
    ensures (Lagged(x, 0, |x|) / (|x| as real) <= 0.0) <==> forall j :: 0 <= j < |x| ==> x[j] == 0.0
    ensures (forall j :: 0 <= j < |x| ==> x[j] == 0.0) ==> PraatBurg(x, m) == Zeros(m)
  {
    EnergyNonNegative(x, |x|);
    var e := Lagged(x, 0, |x|);
    if e > 0.0 {
      assert e / (|x| as real) > 0.0;
    } else {
      assert e == 0.0;
    }
  }

  /** For a frame that is not silent, either the loop returned early with
      the m raw coefficients, or the result is a leading 1 followed by the m
      negated coefficients (lpc.ts:137-143). */
  lemma BurgNormalResult(x: seq<real>, m: nat)
    requires 2 < |x| && exists j :: 0 <= j < |x| && x[j] != 0.0
    ensures var r := PraatBurg(x, m);
      || (BurgRun(x, m, m).Halted? && r == BurgRun(x, m, m).a)
      || (BurgRun(x, m, m).Running? && |r| == m + 1 && r[0] == 1.0
          && forall j :: 0 <= j < m ==> r[j + 1] == -BurgRun(x, m, m).lattice.a[j])
  {
    BurgSilent(x, m);
  }

  /** An order of at least the frame length always ends in the early return
      at lpc.ts:109-110: at order n the sums have no terms, so denum is 0.
      The result then has m entries and no leading 1. */
  lemma BurgOrderTooHigh(x: seq<real>, m: nat)
    requires 2 < |x| <= m
    ensures |PraatBurg(x, m)| == m
  {
    var n := |x|;
    if BurgRun(x, m, n - 1).Running? {
      var l := BurgRun(x, m, n - 1).lattice;
      assert Span(|l.b1|, n) == 0;
      assert BurgRun(x, m, n).Halted?;
    } else {
      BurgHaltedStays(x, m, n - 1, n);
    }
    BurgHaltedStays(x, m, n, m);
  }

  /** The energy loop of lpc.ts:72-75. */
  method Energy(x: seq<real>) returns (p: real)
    ensures p == Lagged(x, 0, |x|)
  {
    p := 0.0;
    for j := 1 to |x| + 1
      invariant p == Lagged(x, 0, j - 1)
    {
      p := p + Product(x[j - 1], x[j - 1]);
    }
  }

  /** The copies of lpc.ts:86-95 into b1 and b2 (the `n < 2` return between
      them cannot be taken once n > 2). */
  method InitialErrors(x: seq<real>) returns (b1: seq<real>, b2: seq<real>)
    requires 2 < |x|
    ensures b1 == x[..|x| - 1] + [0.0]
    ensures b2 == x[1..] + [0.0]
  {
    var n := |x|;
    b1 := seq(n, _ => 0.0);
    b2 := seq(n, _ => 0.0);
    b1 := b1[0 := x[0]];
    b2 := b2[n - 2 := x[n - 1]];
    for j := 2 to n
      invariant |b1| == n && |b2| == n
      invariant forall t :: 0 <= t < n ==> b1[t] == if t < j - 1 then x[t] else 0.0
      invariant forall t :: 0 <= t < n ==> b2[t] == if t < j - 2 || t == n - 2 then x[t + 1] else 0.0
    {
      b1 := b1[j - 1 := x[j - 1]];
      b2 := b2[j - 2 := x[j - 1]];
    }
  }

  /** The sums of lpc.ts:99-105 for order i. */
  method Correlations(b1: seq<real>, b2: seq<real>, i: nat) returns (num: real, denum: real)
    requires |b1| == |b2|
    ensures num == Cross(b1, b2, Span(|b1|, i))
    ensures denum == Power(b1, b2, Span(|b1|, i))
  {
    num, denum := 0.0, 0.0;
    var j := 1;
    while j <= |b1| - i
      invariant 1 <= j <= Span(|b1|, i) + 1
      invariant num == Cross(b1, b2, j - 1) && denum == Power(b1, b2, j - 1)
    {
      num := num + Product(b1[j - 1], b2[j - 1]);
      denum := denum + (Product(b1[j - 1], b1[j - 1]) + Product(b2[j - 1], b2[j - 1]));
      j := j + 1;
    }
  }

  /** The loop of lpc.ts:119-120, with a[i − 1] already holding the new
      coefficient. */
  method Predict(a0: seq<real>, aa: seq<real>, i: nat) returns (a: seq<real>)
    requires 1 <= i <= |a0| && |aa| == |a0|
    ensures a == Recurse(a0, aa, a0[i - 1], i)
  {
    a := a0;
    for j := 1 to i
      invariant |a| == |a0|
      invariant forall t :: 0 <= t < j - 1 ==> a[t] == aa[t] - Product(a0[i - 1], aa[i - 2 - t])
      invariant forall t :: j - 1 <= t < |a| ==> a[t] == a0[t]
    {
      a := a[j - 1 := aa[j - 1] - Product(a[i - 1], aa[i - j - 1])];
    }
  }

  /** The copy aa[0..i) := a[0..i) of lpc.ts:126-127. */
  method CopyPredictor(a: seq<real>, aa0: seq<real>, i: nat) returns (aa: seq<real>)
    requires i <= |a| == |aa0|
    ensures aa == a[..i] + aa0[i..]
  {
    aa := aa0;
    for j := 1 to i + 1
      invariant |aa| == |aa0|
      invariant forall t :: 0 <= t < |aa| ==> aa[t] == if t < j - 1 then a[t] else aa0[t]
    {
      aa := aa[j - 1 := a[j - 1]];
    }
  }

  /** The error update of lpc.ts:129-133 for order i, in place. */
  method Propagate(b10: seq<real>, b20: seq<real>, aa: seq<real>, i: nat) returns (b1: seq<real>, b2: seq<real>)
    requires |b10| == |b20| && 1 <= i <= |aa|
    ensures b1 == Forward(b10, b20, aa[i - 1], Span(|b10|, i + 1))
    ensures b2 == Backward(b10, b20, aa[i - 1], Span(|b10|, i + 1))
  {
    b1, b2 := b10, b20;
    var c := aa[i - 1];
    var j := 1;
    while j <= |b10| - i - 1
      invariant 1 <= j <= Span(|b10|, i + 1) + 1
      invariant b1 == Forward(b10, b20, c, j - 1)
      invariant b2 == Backward(b10, b20, c, j - 1)
    {
      b1 := b1[j - 1 := b1[j - 1] - Product(aa[i - 1], b2[j - 1])];
      b2 := b2[j - 1 := b2[j] - Product(aa[i - 1], b1[j])];
      j := j + 1;
    }
  }

  /** One pass of the order loop (lpc.ts:97-134). */
  method BurgOrder(l: Lattice, i: nat, m: nat) returns (next: Progress)
    requires 1 <= i <= m && Shaped(l, m, |l.b1|)
    ensures next == BurgIteration(l, i, m)
  {
    var n := |l.b1|;
    var num, denum := Correlations(l.b1, l.b2, i);
    if denum <= 0.0 {
      return Halted(l.a);
    }
    var a := l.a[i - 1 := 2.0 * num / denum];
    var xms := Product(l.xms, 1.0 - Product(a[i - 1], a[i - 1]));
    a := Predict(a, l.aa, i);
    var aa, b1, b2 := l.aa, l.b1, l.b2;
    if i < m {
      aa := CopyPredictor(a, aa, i);
      b1, b2 := Propagate(b1, b2, aa, i);
    }
    next := Running(Lattice(a, aa, b1, b2, xms));
  }

  /** The sign flip of lpc.ts:137-138. */
  method NegateAll(a0: seq<real>) returns (a: seq<real>)
    ensures a == Negated(a0)
  {
    a := a0;
    for i := 0 to |a|
      invariant |a| == |a0|
      invariant forall t :: 0 <= t < i ==> a[t] == -a0[t]
      invariant forall t :: i <= t < |a| ==> a[t] == a0[t]
    {
      a := a[i := a[i] * -1.0];
    }
  }

  /** praatBurgMethod (lpc.ts:52-144). */
  method PraatBurgMethod(samples: seq<real>, numCoeffs: nat) returns (result: seq<real>)
    ensures result == PraatBurg(samples, numCoeffs)
  {
    var a := seq(numCoeffs, _ => 0.0);
    if |samples| <= 2 {
      if |a| < 2 {
        a := a + seq(2 - |a|, _ => 0.0);
      }
      a := a[1 := -1.0];
      assert a == TooShort(numCoeffs);
      return a;
    }
    var n := |samples|;
    var m := numCoeffs;
    var p := Energy(samples);
    var xms := p / (n as real);
    if xms <= 0.0 {
      assert a == Zeros(m);
      return a;
    }
    var b1, b2 := InitialErrors(samples);
    var lattice := Lattice(a, seq(m, _ => 0.0), b1, b2, xms);
    assert lattice == BurgStart(samples, m);
    for i := 1 to m + 1
      invariant BurgRun(samples, m, i - 1) == Running(lattice)
    {
      var next := BurgOrder(lattice, i, m);
      assert BurgRun(samples, m, i) == next;
      if next.Halted? {
        BurgHaltedStays(samples, m, i, m);
        return next.a;
      }
      lattice := next.lattice;
    }
    a := NegateAll(lattice.a);
    result := [1.0] + a;
  }
}
