/** Formant extraction (src/formantExtractor.ts).

    A frame is windowed with Praat's Gaussian window, pre-emphasised, fitted
    with ten linear-prediction coefficients (module Lpc), and the roots of
    that polynomial (module Roots) in the upper half plane are pulled inside
    the unit circle and turned into frequencies, sorted ascending.  Numbers
    are reals and the transcendental functions come from a `Math` value. */
module FormantExtractor {
  import opened RealMath
  import Lpc
  import Roots

  type Complex = Roots.Complex

  // ---------------------------------------------------------------------
  // Praat's Gaussian window (formantExtractor.ts:87-95)
  // ---------------------------------------------------------------------

  /** The argument of exp in praatGaussianWindow:
      −48·(n − nMid)²/(nMax + 1)/(nMax + 1) with nMid = (nMax + 1)/2. */
  function WindowExponent(n: real, nMax: nat): real {
    var size := nMax as real + 1.0;
    var nMid := 0.5 * size;
    -48.0 * Product(n - nMid, n - nMid) / size / size
  }

  /** praatGaussianWindow(n, nMax): the Gaussian shifted and scaled so that
      it is 1 at the middle and 0 at the edges. */
  function GaussianWindow(m: Math, n: real, nMax: nat): real
    requires Lawful(m)
  {
    var edge := m.exp(-12.0);
    EdgeBelowOne(m);
    (m.exp(WindowExponent(n, nMax)) - edge) / (1.0 - edge)
  }

  /** exp(−12) lies in (0, 1), so the window's denominator is positive. */
  lemma EdgeBelowOne(m: Math)
    requires Lawful(m)
    ensures 0.0 < m.exp(-12.0) < 1.0
  {
    assert m.exp(-12.0) < m.exp(0.0);
  }

  /** The window is symmetric about nMid: w(n) = w(nMax + 1 − n). */
  lemma WindowSymmetric(m: Math, n: real, nMax: nat)
    requires Lawful(m)
    ensures GaussianWindow(m, n, nMax) == GaussianWindow(m, nMax as real + 1.0 - n, nMax)
  {
    var nMid := 0.5 * (nMax as real + 1.0);
    var d := n - nMid;
    assert (nMax as real + 1.0 - n) - nMid == -d;
    assert Product(-d, -d) == Product(d, d);
  }

  /** The window is 1 at its middle. */
  lemma WindowPeak(m: Math, nMax: nat)
    requires Lawful(m)
    ensures GaussianWindow(m, 0.5 * (nMax as real + 1.0), nMax) == 1.0
  {
    var size := nMax as real + 1.0;
    var nMid := 0.5 * size;
    assert Product(nMid - nMid, nMid - nMid) == 0.0;
    assert -48.0 * Product(nMid - nMid, nMid - nMid) == 0.0;
    assert WindowExponent(nMid, nMax) == 0.0;
    EdgeBelowOne(m);
  }

  /** At n = 0 the exponent is −12, the exponent of `edge`. */
  lemma ExponentAtEdge(nMax: nat)
    ensures WindowExponent(0.0, nMax) == -12.0
  {
    var size := nMax as real + 1.0;
    var h := 0.5 * size;
    assert Product(0.0 - h, 0.0 - h) == 0.25 * Product(size, size);
    assert -48.0 * Product(0.0 - h, 0.0 - h) == -12.0 * Product(size, size);
    CancelTwice(-12.0, size);
  }

  /** The window is 0 at n = 0, and so, by symmetry, at n = nMax + 1. */
  lemma WindowEdges(m: Math, nMax: nat)
    requires Lawful(m)
    ensures GaussianWindow(m, 0.0, nMax) == 0.0
    ensures GaussianWindow(m, nMax as real + 1.0, nMax) == 0.0
  {
    ExponentAtEdge(nMax);
    EdgeBelowOne(m);
    WindowSymmetric(m, 0.0, nMax);
  }

  /** A square grows with the distance from 0. */
  lemma SquareMonotone(d: real, h: real)
    requires -h <= d <= h
    ensures Product(d, d) <= Product(h, h)
  {
    if d < 0.0 {
      assert Product(d, d) == Product(-d, -d);
      assert Product(-d, -d) <= Product(h, h);
    }
  }

  /** Between the edges the exponent lies in [−12, 0]. */
  lemma ExponentRange(n: real, nMax: nat)
    requires 0.0 <= n <= nMax as real + 1.0
    ensures -12.0 <= WindowExponent(n, nMax) <= 0.0
  {
    var size := nMax as real + 1.0;
    var d := n - 0.5 * size;
    SquareMonotone(d, 0.5 * size);
    SquareNonNegative(d);
    assert Product(0.5 * size, 0.5 * size) == 0.25 * Product(size, size);
    DivideTwiceMonotone(-12.0 * Product(size, size), -48.0 * Product(d, d), size);
    CancelTwice(-12.0, size);
    DivideTwiceMonotone(-48.0 * Product(d, d), 0.0, size);
  }

  /** Between the edges the window takes values in [0, 1]. */
  lemma WindowRange(m: Math, n: real, nMax: nat)
    requires Lawful(m) && 0.0 <= n <= nMax as real + 1.0
    ensures 0.0 <= GaussianWindow(m, n, nMax) <= 1.0
  {
    var e := WindowExponent(n, nMax);
    ExponentRange(n, nMax);
    ExpMonotone(m, -12.0, e);
    ExpMonotone(m, e, 0.0);
    EdgeBelowOne(m);
    var edge := m.exp(-12.0);
    RatioInUnit(m.exp(e) - edge, 1.0 - edge);
  }

  /** The windowed frame of formantExtractor.ts:15-17. */
  function Windowed(m: Math, x: seq<real>): (w: seq<real>)
    requires Lawful(m)
    ensures |w| == |x|
  {
    seq(|x|, i requires 0 <= i < |x| => Product(x[i], GaussianWindow(m, i as real, |x|)))
  }

  // ---------------------------------------------------------------------
  // Praat's pre-emphasis (formantExtractor.ts:115-129)
  // ---------------------------------------------------------------------

  /** exp(−2π·50·dx) with dx = 1/samplingFrequency: the factor for a 50 Hz
      pre-emphasis (formantExtractor.ts:121-123). */
  function PreEmphasisFactor(m: Math, samplingFrequency: real): real
    requires samplingFrequency != 0.0
  {
    var dx := 1.0 / samplingFrequency;
    m.exp(Product(-2.0 * m.pi * 50.0, dx))
  }

  /** For a positive sampling frequency the factor lies in (0, 1). */
  lemma PreEmphasisFactorRange(m: Math, samplingFrequency: real)
    requires Lawful(m) && samplingFrequency > 0.0
    ensures 0.0 < PreEmphasisFactor(m, samplingFrequency) < 1.0
  {
    var dx := 1.0 / samplingFrequency;
    assert dx > 0.0;
    var t := -2.0 * m.pi * 50.0;
    assert t < 0.0;
    assert Product(t, dx) < 0.0;
    assert m.exp(Product(t, dx)) < m.exp(0.0);
  }

  /** The filtered frame: entries 0 and 1 as they were, entry i ≥ 2 minus k
      times its original predecessor. */
  function Preemphasized(x: seq<real>, k: real): (y: seq<real>)
    ensures |y| == |x|
  {
    seq(|x|, i requires 0 <= i < |x| => if i >= 2 then x[i] - Product(k, x[i - 1]) else x[i])
  }

  /** The inverse filter, running forward: x[i] = y[i] + k·x[i − 1]. */
  function Restored(y: seq<real>, k: real): (x: seq<real>)
    ensures |x| == |y|
    decreases |y|
  {
    if |y| <= 2 then y
    else
      var prefix := Restored(y[..|y| - 1], k);
      prefix + [y[|y| - 1] + Product(k, prefix[|y| - 2])]
  }

  /** Pre-emphasis loses nothing: running the inverse filter gives the
      frame back. */
  lemma {:induction false} RestoredPreemphasized(x: seq<real>, k: real)
    ensures Restored(Preemphasized(x, k), k) == x
    decreases |x|
  {
    var y := Preemphasized(x, k);
    if |x| > 2 {
      var n := |x|;
      assert y[..n - 1] == Preemphasized(x[..n - 1], k);
      RestoredPreemphasized(x[..n - 1], k);
      assert Restored(y, k) == x[..n - 1] + [y[n - 1] + Product(k, x[n - 2])];
      assert x == x[..n - 1] + [x[n - 1]];
    }
  }

  /** praatPreemphasis: a copy of the frame filtered from the end down to
      index 2, so that every entry subtracts its still unfiltered
      predecessor.  The input array is left untouched. */
  method PraatPreemphasis(m: Math, input: array<real>, samplingFrequency: real) returns (result: array<real>)
    requires samplingFrequency != 0.0
    ensures fresh(result) && unchanged(input)
    ensures result[..] == Preemphasized(input[..], PreEmphasisFactor(m, samplingFrequency))
  {
    result := new real[input.Length];
    forall i | 0 <= i < input.Length {
      result[i] := input[i];
    }
    var dx := 1.0 / samplingFrequency;
    var preEmphasis := m.exp(Product(-2.0 * m.pi * 50.0, dx));
    ghost var x := input[..];
    var i := input.Length - 1;
    while i >= 2
      invariant -1 <= i < input.Length
      invariant forall t :: 0 <= t <= i ==> result[t] == x[t]
      invariant forall t :: i < t < input.Length ==>
        result[t] == Preemphasized(x, preEmphasis)[t]
    {
      result[i] := result[i] - Product(preEmphasis, result[i - 1]);
      i := i - 1;
    }
    assert preEmphasis == PreEmphasisFactor(m, samplingFrequency);
    assert forall t :: 0 <= t < input.Length ==> result[t] == Preemphasized(x, preEmphasis)[t];
  }

  // ---------------------------------------------------------------------
  // Complex helpers (formantExtractor.ts:53-75)
  // ---------------------------------------------------------------------

  /** |c|², the radicand of complexMagnitude. */
  function Norm(c: Complex): (n: real)
    ensures n >= 0.0
  {
    SquareNonNegative(c.re);
    SquareNonNegative(c.im);
    Product(c.re, c.re) + Product(c.im, c.im)
  }

  /** complexMagnitude. */
  function Magnitude(m: Math, c: Complex): real {
    m.sqrt(Norm(c))
  }

  /** complexConjugate: c·conj(c) is the real number |c|², the identity the
      fix-up's z / |z|² rests on. */
  function Conjugate(c: Complex): (d: Complex)
    ensures Roots.Times(c, d) == Roots.Complex(Norm(c), 0.0)
  {
    Roots.Complex(c.re, -c.im)
  }

  /** Conjugation is an involution and keeps the norm. */
  lemma ConjugateInvolution(c: Complex)
    ensures Conjugate(Conjugate(c)) == c
    ensures Norm(Conjugate(c)) == Norm(c)
  {
    assert Product(-c.im, -c.im) == Product(c.im, c.im);
  }

  /** complexDivide as written: its real part subtracts a.imag·b.imag where
      the quotient adds it. */
  function ComplexDivide(a: Complex, b: Complex): Complex
    requires Norm(b) != 0.0
  {
    var d := Product(b.im, b.im) + Product(b.re, b.re);
    Roots.Complex((Product(a.re, b.re) - Product(a.im, b.im)) / d, (Product(a.im, b.re) - Product(a.re, b.im)) / d)
  }

  /** The quotient a / b = a·conj(b) / |b|². */
  function ComplexQuotient(a: Complex, b: Complex): Complex
    requires Norm(b) != 0.0
  {
    var d := Product(b.im, b.im) + Product(b.re, b.re);
    Roots.Complex((Product(a.re, b.re) + Product(a.im, b.im)) / d, (Product(a.im, b.re) - Product(a.re, b.im)) / d)
  }

  /** The quotient times the divisor is the dividend. */
  lemma QuotientTimesDivisor(a: Complex, b: Complex)
    requires Norm(b) != 0.0
    ensures Roots.Times(ComplexQuotient(a, b), b) == a
  {
    var d := Product(b.im, b.im) + Product(b.re, b.re);
    var u := Product(a.re, b.re) + Product(a.im, b.im);
    var v := Product(a.im, b.re) - Product(a.re, b.im);
    var q := ComplexQuotient(a, b);
    assert q.re == u / d && q.im == v / d;
    QuotientAlgebra(a.re, a.im, b.re, b.im, d, u, v);
  }

  /** The scalar identities behind QuotientTimesDivisor. */
  lemma QuotientAlgebra(ar: real, ai: real, br: real, bi: real, d: real, u: real, v: real)
    requires d == Product(bi, bi) + Product(br, br) && d != 0.0
    requires u == Product(ar, br) + Product(ai, bi) && v == Product(ai, br) - Product(ar, bi)
    ensures Product(u / d, br) - Product(v / d, bi) == ar
    ensures Product(u / d, bi) + Product(v / d, br) == ai
  {
    assert Product(u / d, br) - Product(v / d, bi) == (u * br - v * bi) / d;
    assert u * br - v * bi == ar * d;
    Cancel(ar * d, ar, d);
    assert Product(u / d, bi) + Product(v / d, br) == (u * bi + v * br) / d;
    assert u * bi + v * br == ai * d;
    Cancel(ai * d, ai, d);
  }

  /** complexDivide agrees with the quotient when the numerator is real, as
      at its only call. */
  lemma DivideRealNumerator(a: Complex, b: Complex)
    requires Norm(b) != 0.0 && a.im == 0.0
    ensures ComplexDivide(a, b) == ComplexQuotient(a, b)
  {
    assert Product(a.im, b.im) == 0.0;
  }

  /** complexDivide(i, i) is −1, not 1. */
  lemma DivideImaginaryUnit()
    ensures var i := Roots.Complex(0.0, 1.0);
      ComplexDivide(i, i) == Roots.Complex(-1.0, 0.0) && ComplexQuotient(i, i) == Roots.Complex(1.0, 0.0)
  {
    assert Product(1.0, 1.0) == 1.0 && Product(0.0, 0.0) == 0.0;
    assert Product(0.0, 1.0) == 0.0 && Product(1.0, 0.0) == 0.0;
  }

  // ---------------------------------------------------------------------
  // Fix-up of roots outside the unit circle (formantExtractor.ts:132-139)
  // ---------------------------------------------------------------------

  /** praatFixRootToUnitCircle: a root of magnitude above 1 is replaced by
      1 / conj(root).  The quotient is the true one; DivideRealNumerator
      shows that complexDivide, as written, computes the same value here. */
  function FixRootToUnitCircle(m: Math, root: Complex): Complex
    requires Lawful(m)
  {
    if Magnitude(m, root) <= 1.0 then root
    else
      SqrtAgainstOne(m, Norm(root));
      ConjugateInvolution(root);
      ComplexQuotient(Roots.Complex(1.0, 0.0), Conjugate(root))
  }

  /** The value the source computes at formantExtractor.ts:137-139 is the one
      the model uses. */
  lemma FixAsWritten(m: Math, root: Complex)
    requires Lawful(m) && Magnitude(m, root) > 1.0
    ensures Norm(Conjugate(root)) != 0.0
    ensures FixRootToUnitCircle(m, root) == ComplexDivide(Roots.Complex(1.0, 0.0), Conjugate(root))
  {
    SqrtAgainstOne(m, Norm(root));
    ConjugateInvolution(root);
    DivideRealNumerator(Roots.Complex(1.0, 0.0), Conjugate(root));
  }

  /** (a/n)² + (b/n)² = 1/n when n = a² + b². */
  lemma ScaledNorm(a: real, b: real, n: real)
    requires n > 0.0 && n == Product(a, a) + Product(b, b)
    ensures Product(a / n, a / n) + Product(b / n, b / n) == 1.0 / n
  {
    var p := a / n;
    var q := b / n;
    assert a == p * n;
    assert b == q * n;
    var nn := n * n;
    assert Product(a, a) == Product(p, p) * nn;
    assert Product(b, b) == Product(q, q) * nn;
    var k := Product(p, p) + Product(q, q);
    assert Product(p, p) * nn + Product(q, q) * nn == k * nn;
    assert n == k * nn;
    assert k * nn == (k * n) * n;
    Cancel(n, k * n, n);
    Cancel(n, 1.0, n);
    Cancel(1.0, k, n);
  }

  /** A root on or inside the unit circle is kept; one outside becomes
      z/|z|², which points the same way and has magnitude 1/|z| < 1. */
  lemma FixUnitCircle(m: Math, z: Complex)
    requires Lawful(m)
    ensures Magnitude(m, z) <= 1.0 <==> Norm(z) <= 1.0
    ensures Norm(z) <= 1.0 ==> FixRootToUnitCircle(m, z) == z
    ensures Norm(z) > 1.0 ==>
      var f := FixRootToUnitCircle(m, z);
      && f == Roots.Complex(z.re / Norm(z), z.im / Norm(z))
      && Norm(f) == 1.0 / Norm(z)
      && Norm(f) < 1.0
      && Magnitude(m, f) < 1.0
  {
    var n := Norm(z);
    SqrtAgainstOne(m, n);
    if n > 1.0 {
      var f := FixRootToUnitCircle(m, z);
      assert Product(-z.im, -z.im) == Product(z.im, z.im);
      assert Product(1.0, z.re) + Product(0.0, -z.im) == z.re;
      assert Product(0.0, z.re) - Product(1.0, -z.im) == z.im;
      assert f == Roots.Complex(z.re / n, z.im / n);
      ScaledNorm(z.re, z.im, n);
      RatioInUnit(1.0, n);
      assert 1.0 / n < 1.0 by {
        Cancel(1.0, 1.0 / n, n);
      }
      SqrtAgainstOne(m, Norm(f));
    }
  }

  /** Fixing twice is fixing once. */
  lemma FixIdempotent(m: Math, z: Complex)
    requires Lawful(m)
    ensures FixRootToUnitCircle(m, FixRootToUnitCircle(m, z)) == FixRootToUnitCircle(m, z)
  {
    FixUnitCircle(m, z);
    FixUnitCircle(m, FixRootToUnitCircle(m, z));
  }

  /** The fix-up keeps the sign of the imaginary part, so roots kept by the
      imag ≥ 0 filter are still in the upper half plane afterwards. */
  lemma FixKeepsHalfPlane(m: Math, z: Complex)
    requires Lawful(m)
    ensures FixRootToUnitCircle(m, z).im >= 0.0 <==> z.im >= 0.0
  {
    FixUnitCircle(m, z);
    var n := Norm(z);
    if n > 1.0 {
      if z.im >= 0.0 {
        DivideMonotone(0.0, z.im, n);
      } else {
        DivideMonotone(0.0, -z.im, n);
        assert -z.im / n == -(z.im / n);
      }
    }
  }

  // ---------------------------------------------------------------------
  // From roots to sorted frequencies (formantExtractor.ts:26-48)
  // ---------------------------------------------------------------------

  /** The filter at formantExtractor.ts:27: the roots with imag ≥ 0, in order. */
  function UpperHalf(roots: seq<Complex>): (upper: seq<Complex>)
    ensures |upper| <= |roots|
  {
    if roots == [] then []
    else (if roots[0].im >= 0.0 then [roots[0]] else []) + UpperHalf(roots[1..])
  }

  /** A root survives the filter exactly when its imaginary part is not
      negative. */
  lemma {:induction false} UpperHalfMembers(roots: seq<Complex>, z: Complex)
    ensures z in UpperHalf(roots) <==> z in roots && z.im >= 0.0
  {
    if roots != [] {
      UpperHalfMembers(roots[1..], z);
      assert roots == [roots[0]] + roots[1..];
    }
  }

  /** The map at formantExtractor.ts:28. */
  function FixAll(m: Math, roots: seq<Complex>): (fixed: seq<Complex>)
    requires Lawful(m)
    ensures |fixed| == |roots|
  {
    seq(|roots|, i requires 0 <= i < |roots| => FixRootToUnitCircle(m, roots[i]))
  }

  /** The retained roots: the upper-half-plane roots, each moved onto or
      inside the unit circle. */
  function Retained(m: Math, roots: seq<Complex>): (kept: seq<Complex>)
    requires Lawful(m)
    ensures |kept| <= |roots|
  {
    FixAll(m, UpperHalf(roots))
  }

  /** Every retained root lies in the closed upper half plane and on or
      inside the unit circle. */
  lemma RetainedInDisc(m: Math, roots: seq<Complex>, i: nat)
    requires Lawful(m) && i < |Retained(m, roots)|
    ensures Retained(m, roots)[i].im >= 0.0
    ensures Norm(Retained(m, roots)[i]) <= 1.0
  {
    var z := UpperHalf(roots)[i];
    UpperHalfMembers(roots, z);
    FixKeepsHalfPlane(m, z);
    FixUnitCircle(m, z);
  }

  /** The frequency of a root in hertz: its angle times fs / 2 / π
      (formantExtractor.ts:31, 34). */
  function Frequency(m: Math, samplingFrequency: real, c: Complex): real
    requires Lawful(m)
  {
    Product(m.atan2(c.im, c.re), samplingFrequency) / 2.0 / m.pi
  }

  /** A root in the upper half plane maps to a frequency between 0 and the
      Nyquist frequency fs / 2. */
  lemma FrequencyRange(m: Math, samplingFrequency: real, c: Complex)
    requires Lawful(m) && samplingFrequency > 0.0 && c.im >= 0.0
    ensures 0.0 <= Frequency(m, samplingFrequency, c) <= samplingFrequency / 2.0
  {
    var angle := m.atan2(c.im, c.re);
    ScaleNonNegative(angle, samplingFrequency);
    ScaleNonNegative(m.pi - angle, samplingFrequency);
    assert Product(m.pi - angle, samplingFrequency) == Product(m.pi, samplingFrequency) - Product(angle, samplingFrequency);
    var t := Product(angle, samplingFrequency) / 2.0;
    var top := Product(m.pi, samplingFrequency) / 2.0;
    DivideMonotone(t, top, m.pi);
    Cancel(top, samplingFrequency / 2.0, m.pi);
  }

  function Frequencies(m: Math, samplingFrequency: real, roots: seq<Complex>): (f: seq<real>)
    requires Lawful(m)
    ensures |f| == |roots|
  {
    seq(|roots|, i requires 0 <= i < |roots| => Frequency(m, samplingFrequency, roots[i]))
  }

  /** Ascending order, as `sort((a, b) => a - b)` leaves it. */
  predicate Ascending(s: seq<real>) {
    forall i, j :: 0 <= i < j < |s| ==> s[i] <= s[j]
  }

  /** x placed into an ascending sequence before the first larger entry. */
  function Insert(x: real, s: seq<real>): (r: seq<real>)
    ensures |r| == |s| + 1
    decreases |s|
  {
    if s == [] || x <= s[0] then [x] + s
    else [s[0]] + Insert(x, s[1..])
  }

  /** The reference sort by insertion. */
  function SortAscending(s: seq<real>): (r: seq<real>)
    ensures |r| == |s|
    decreases |s|
  {
    if s == [] then [] else Insert(s[0], SortAscending(s[1..]))
  }

  /** Prepending a lower bound keeps a sequence ascending. */
  lemma PrependAscending(h: real, t: seq<real>)
    requires Ascending(t) && forall k :: 0 <= k < |t| ==> h <= t[k]
    ensures Ascending([h] + t)
  {
    var r := [h] + t;
    forall i, j | 0 <= i < j < |r|
      ensures r[i] <= r[j]
    {
      if i > 0 {
        assert r[i] == t[i - 1] && r[j] == t[j - 1];
      } else {
        assert r[j] == t[j - 1];
      }
    }
  }

  /** Insertion adds x to the multiset. */
  lemma {:induction false} InsertPermutes(x: real, s: seq<real>)
    ensures multiset(Insert(x, s)) == multiset(s) + multiset{x}
    decreases |s|
  {
    if s != [] && x > s[0] {
      InsertPermutes(x, s[1..]);
      assert s == [s[0]] + s[1..];
    }
  }

  /** A lower bound of s that is also below x bounds Insert(x, s). */
  lemma {:induction false} InsertBound(h: real, x: real, s: seq<real>)
    requires h <= x && forall k :: 0 <= k < |s| ==> h <= s[k]
    ensures forall k :: 0 <= k < |s| + 1 ==> h <= Insert(x, s)[k]
    decreases |s|
  {
    if s != [] && x > s[0] {
      InsertBound(h, x, s[1..]);
    }
  }

  /** Insertion keeps the order. */
  lemma {:induction false} InsertSorted(x: real, s: seq<real>)
    requires Ascending(s)
    ensures Ascending(Insert(x, s))
    decreases |s|
  {
    if s == [] || x <= s[0] {
      PrependAscending(x, s);
    } else {
      var t := s[1..];
      InsertSorted(x, t);
      InsertBound(s[0], x, t);
      PrependAscending(s[0], Insert(x, t));
    }
  }

  /** The sort is ascending and a permutation of its input. */
  lemma {:induction false} SortAscendingSorts(s: seq<real>)
    ensures Ascending(SortAscending(s))
    ensures multiset(SortAscending(s)) == multiset(s)
    decreases |s|
  {
    if s != [] {
      SortAscendingSorts(s[1..]);
      InsertSorted(s[0], SortAscending(s[1..]));
      InsertPermutes(s[0], SortAscending(s[1..]));
      assert s == [s[0]] + s[1..];
    }
  }

  /** The pre-emphasised, windowed frame that goes into the prediction. */
  function Filtered(m: Math, x: seq<real>, samplingFrequency: real): (y: seq<real>)
    requires Lawful(m) && samplingFrequency != 0.0
    ensures |y| == |x|
  {
    Preemphasized(Windowed(m, x), PreEmphasisFactor(m, samplingFrequency))
  }

  /** The conditions under which extractFormants runs without dividing by
      zero: the prediction and the root finding are defined. */
  predicate Defined(m: Math, x: seq<real>, samplingFrequency: real)
    requires Lawful(m) && samplingFrequency != 0.0
  {
    var lpc := Lpc.LinearPrediction(Filtered(m, x, samplingFrequency), 10);
    lpc.Some? && Roots.Bairstow(m, lpc.value, 0.0, 0.0).Some?
  }

  /** The formants of a frame: the frequencies of the retained roots of the
      order-10 prediction polynomial, sorted ascending. */
  function Formants(m: Math, x: seq<real>, samplingFrequency: real): seq<real>
    requires Lawful(m) && samplingFrequency != 0.0 && Defined(m, x, samplingFrequency)
  {
    var lpc := Lpc.LinearPrediction(Filtered(m, x, samplingFrequency), 10).value;
    var roots := Roots.Bairstow(m, lpc, 0.0, 0.0).value;
    SortAscending(Frequencies(m, samplingFrequency, Retained(m, roots)))
  }

  /** What extractFormants promises: the formants are ascending, they are
      the frequencies of the retained roots in some order, there are at most
      ten of them, and for a positive sampling frequency each lies between 0
      and fs / 2. */
  lemma FormantsProperties(m: Math, x: seq<real>, samplingFrequency: real)
    requires Lawful(m) && samplingFrequency != 0.0 && Defined(m, x, samplingFrequency)
    ensures var lpc := Lpc.LinearPrediction(Filtered(m, x, samplingFrequency), 10).value;
      var roots := Roots.Bairstow(m, lpc, 0.0, 0.0).value;
      var formants := Formants(m, x, samplingFrequency);
      && Ascending(formants)
      && multiset(formants) == multiset(Frequencies(m, samplingFrequency, Retained(m, roots)))
      && |formants| <= 10
      && (samplingFrequency > 0.0 ==>
            forall i :: 0 <= i < |formants| ==> 0.0 <= formants[i] <= samplingFrequency / 2.0)
  {
    var lpc := Lpc.LinearPrediction(Filtered(m, x, samplingFrequency), 10).value;
    var roots := Roots.Bairstow(m, lpc, 0.0, 0.0).value;
    var kept := Retained(m, roots);
    var f := Frequencies(m, samplingFrequency, kept);
    var formants := Formants(m, x, samplingFrequency);
    SortAscendingSorts(f);
    if samplingFrequency > 0.0 {
      forall i | 0 <= i < |formants|
        ensures 0.0 <= formants[i] <= samplingFrequency / 2.0
      {
        assert formants[i] in multiset(f);
        var j :| 0 <= j < |f| && f[j] == formants[i];
        RetainedInDisc(m, roots, j);
        FrequencyRange(m, samplingFrequency, kept[j]);
      }
    }
  }

  /** extractFormants: window, pre-emphasis, prediction, roots, the filter
      and fix-up, the push loop over the frequencies, and the sort. */
  method ExtractFormants(m: Math, sample: array<real>, samplingFrequency: real) returns (formants: seq<real>)
    requires Lawful(m) && samplingFrequency != 0.0 && Defined(m, sample[..], samplingFrequency)
    ensures formants == Formants(m, sample[..], samplingFrequency)
  {
    ghost var x := sample[..];
    assert Defined(m, x, samplingFrequency);
    var sampleWindowed := new real[sample.Length];
    forall i | 0 <= i < sample.Length {
      sampleWindowed[i] := Product(sample[i], GaussianWindow(m, i as real, sample.Length));
    }
    assert sampleWindowed[..] == Windowed(m, x);
    var sampleFiltered := PraatPreemphasis(m, sampleWindowed, samplingFrequency);
    ghost var filtered := Filtered(m, x, samplingFrequency);
    assert sampleFiltered[..] == filtered;
    ghost var prediction := Lpc.LinearPrediction(filtered, 10);
    assert prediction.Some? && Roots.Bairstow(m, prediction.value, 0.0, 0.0).Some?;
    var lpc := Lpc.ForwardLinearPrediction(sampleFiltered[..], 10);
    assert lpc == prediction.value;
    var roots := Roots.FindRootsOfPolynomial(m, lpc);
    var kept := Retained(m, roots);
    var frequencies := Frequencies(m, samplingFrequency, kept);
    formants := [];
    for i := 0 to |kept|
      invariant formants == frequencies[..i]
    {
      formants := formants + [frequencies[i]];
    }
    assert formants == frequencies;
    formants := SortAscending(formants);
    assert formants == Formants(m, x, samplingFrequency);
    assert sample[..] == x;
  }
}
