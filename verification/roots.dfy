/** Bairstow's method for the roots of a real polynomial (src/roots.ts).

    The port reads `coeffs[0]` as the LEADING coefficient (the recurrences of
    roots.ts:36-46 do), although the comment at roots.ts:9-10 says ascending.
    The model follows the code: every coefficient sequence here is leading
    coefficient first. */
module Roots {
  import opened RealMath

  /** A complex number (roots.ts:1-5). */
  datatype Complex = Complex(re: real, im: real)

  /** The complex product a·b. */
  function Times(a: Complex, b: Complex): Complex {
    Complex(Product(a.re, b.re) - Product(a.im, b.im), Product(a.re, b.im) + Product(a.im, b.re))
  }

  /** The stopping threshold and the iteration budget of the refinement loop. */
  const Epsilon: real := 0.000001
  const Budget: nat := 100

  function Discriminant(a: real, b: real, c: real): real {
    b * b - 4.0 * a * c
  }

  /** a·z² + b·z + c at the complex number z. */
  function QuadraticAt(a: real, b: real, c: real, z: Complex): Complex {
    Complex(a * (z.re * z.re - z.im * z.im) + b * z.re + c,
            2.0 * a * z.re * z.im + b * z.im)
  }

  /** The two roots of a·x² + b·x + c (roots.ts:74-102). */
  function SolveQuadratic(m: Math, a: real, b: real, c: real): (roots: seq<Complex>)
    requires a != 0.0
    ensures |roots| == 2
  {
    var delta := b * b - 4.0 * a * c;
    var s0 := -b / (2.0 * a);
    if delta < 0.0 then
      var imag := m.sqrt(-delta) / (2.0 * a);
      [Complex(s0, imag), Complex(s0, -imag)]
    else
      var detSqrRoot := m.sqrt(delta) / (2.0 * a);
      [Complex(s0 + detSqrRoot, 0.0), Complex(s0 - detSqrRoot, 0.0)]
  }

  /** A negative discriminant gives a conjugate pair, any other two real
      roots; either way the real parts add up to −b/a. */
  lemma SolveQuadraticShape(m: Math, a: real, b: real, c: real)
    requires a != 0.0
    ensures var roots := SolveQuadratic(m, a, b, c);
      && roots[0].re + roots[1].re == -b / a
      && roots[1].im == -roots[0].im
      && (Discriminant(a, b, c) < 0.0 ==> roots[0].re == roots[1].re)
      && (Discriminant(a, b, c) >= 0.0 ==> roots[0].im == 0.0)
  {
    var s0 := -b / (2.0 * a);
    assert s0 + s0 == -b / a;
  }

  /** A real z with (2a·z + b)² = b² − 4ac, or a z with 2a·re(z) + b = 0 and
      (2a·im(z))² = −(b² − 4ac), is a root of a·z² + b·z + c. */
  lemma QuadraticVanishes(a: real, b: real, c: real, z: Complex)
    requires a != 0.0
    requires || (z.im == 0.0 && (2.0 * a * z.re + b) * (2.0 * a * z.re + b) == Discriminant(a, b, c))
             || (2.0 * a * z.re + b == 0.0 && (2.0 * a * z.im) * (2.0 * a * z.im) == -Discriminant(a, b, c))
    ensures QuadraticAt(a, b, c, z) == Complex(0.0, 0.0)
  {
    var u, v := z.re, z.im;
    var w := 2.0 * a * u + b;
    var re := a * (u * u - v * v) + b * u + c;
    assert 4.0 * a * re == w * w - (2.0 * a * v) * (2.0 * a * v) - Discriminant(a, b, c);
    assert 4.0 * a * re == 0.0;
    assert 2.0 * a * u * v + b * v == w * v;
  }

  /** The conjugate pair s0 ± t·i with s0 = −b/(2a) and t = q/(2a), where
      q² = −(b² − 4ac), solves a·z² + b·z + c = 0. */
  lemma ConjugatePairVanishes(a: real, b: real, c: real, s0: real, t: real, q: real)
    requires a != 0.0 && s0 == -b / (2.0 * a) && t == q / (2.0 * a)
    requires q * q == -Discriminant(a, b, c)
    ensures QuadraticAt(a, b, c, Complex(s0, t)) == Complex(0.0, 0.0)
    ensures QuadraticAt(a, b, c, Complex(s0, -t)) == Complex(0.0, 0.0)
  {
    var aa := 2.0 * a;
    assert aa * s0 == -b;
    assert aa * t == q;
    assert aa * -t == -q;
    QuadraticVanishes(a, b, c, Complex(s0, t));
    QuadraticVanishes(a, b, c, Complex(s0, -t));
  }

  /** The real pair s0 ± t with s0 = −b/(2a) and t = q/(2a), where
      q² = b² − 4ac, solves a·z² + b·z + c = 0. */
  lemma RealPairVanishes(a: real, b: real, c: real, s0: real, t: real, q: real)
    requires a != 0.0 && s0 == -b / (2.0 * a) && t == q / (2.0 * a)
    requires q * q == Discriminant(a, b, c)
    ensures QuadraticAt(a, b, c, Complex(s0 + t, 0.0)) == Complex(0.0, 0.0)
    ensures QuadraticAt(a, b, c, Complex(s0 - t, 0.0)) == Complex(0.0, 0.0)
  {
    var aa := 2.0 * a;
    assert aa * s0 == -b;
    assert aa * t == q;
    assert aa * (s0 + t) + b == q;
    assert aa * (s0 - t) + b == -q;
    QuadraticVanishes(a, b, c, Complex(s0 + t, 0.0));
    QuadraticVanishes(a, b, c, Complex(s0 - t, 0.0));
  }

  /** Both roots returned by SolveQuadratic satisfy a·z² + b·z + c = 0, and
      a negative discriminant gives a pair that is not real. */
  lemma SolveQuadraticSolves(m: Math, a: real, b: real, c: real)
    requires Lawful(m) && a != 0.0
    ensures forall i | 0 <= i < 2 :: QuadraticAt(a, b, c, SolveQuadratic(m, a, b, c)[i]) == Complex(0.0, 0.0)
    ensures Discriminant(a, b, c) < 0.0 ==> SolveQuadratic(m, a, b, c)[0].im != 0.0
  {
    var roots := SolveQuadratic(m, a, b, c);
    var delta := Discriminant(a, b, c);
    var s0 := -b / (2.0 * a);
    if delta < 0.0 {
      var q := m.sqrt(-delta);
      var t := q / (2.0 * a);
      assert roots == [Complex(s0, t), Complex(s0, -t)];
      SqrtPositive(m, -delta);
      ConjugatePairVanishes(a, b, c, s0, t, q);
    } else {
      var q := m.sqrt(delta);
      var t := q / (2.0 * a);
      assert roots == [Complex(s0 + t, 0.0), Complex(s0 - t, 0.0)];
      RealPairVanishes(a, b, c, s0, t, q);
    }
  }

  /** The roots of the factor x² − r·x − s whose coefficients, leading
      first, are 1, −r, −s: what roots.ts:60 evidently means to push. */
  function FactorRoots(m: Math, r: real, s: real): seq<Complex> {
    SolveQuadratic(m, 1.0, -r, -s)
  }

  /** The roots FactorRoots returns solve z² − r·z − s = 0, and 1, −r, −s are
      the coefficients of x² − r·x − s, the factor ExactFactor splits off. */
  lemma FactorRootsSolve(m: Math, r: real, s: real)
    requires Lawful(m)
    ensures TimesQuadratic([1.0], r, s) == [1.0, -r, -s]
    ensures |FactorRoots(m, r, s)| == 2
    ensures forall i | 0 <= i < 2 :: QuadraticAt(1.0, -r, -s, FactorRoots(m, r, s)[i]) == Complex(0.0, 0.0)
  {
    SolveQuadraticSolves(m, 1.0, -r, -s);
  }

  /** The pair roots.ts:60 pushes, solveQuadratic(−s, −r, 1), is the pair of
      RECIPROCALS of the factor's roots: solveQuadratic reads its arguments
      x²-coefficient first, so −s·z² − r·z + 1 = 0 is solved, which is
      x² − r·x − s = 0 for x = 1/z. */
  lemma PushedPairReciprocal(m: Math, r: real, s: real)
    requires Lawful(m) && s != 0.0
    ensures var pushed := SolveQuadratic(m, -s, -r, 1.0);
      var roots := FactorRoots(m, r, s);
      && Times(pushed[0], roots[1]) == Complex(1.0, 0.0)
      && Times(pushed[1], roots[0]) == Complex(1.0, 0.0)
  {
    var a := -s;
    var delta := (-r) * (-r) - 4.0 * a * 1.0;
    assert (-r) * (-r) - 4.0 * 1.0 * -s == delta;
    var u := -(-r) / (2.0 * a);
    var h := -(-r) / (2.0 * 1.0);
    assert h == r / 2.0;
    var pushed := SolveQuadratic(m, -s, -r, 1.0);
    var roots := FactorRoots(m, r, s);
    if delta < 0.0 {
      var q := m.sqrt(-delta);
      assert q * q == -delta;
      var v := q / (2.0 * a);
      assert pushed == [Complex(u, v), Complex(u, -v)];
      assert roots == [Complex(h, q / 2.0), Complex(h, -(q / 2.0))];
      ConjugateReciprocal(a, r, q, u, v);
    } else {
      var q := m.sqrt(delta);
      assert q * q == delta;
      var v := q / (2.0 * a);
      assert pushed == [Complex(u + v, 0.0), Complex(u - v, 0.0)];
      assert roots == [Complex(h + q / 2.0, 0.0), Complex(h - q / 2.0, 0.0)];
      RealReciprocal(a, r, q, u, v);
    }
  }

  /** The arithmetic of PushedPairReciprocal for a negative discriminant:
      (u + v·i)·(r/2 − (q/2)·i) = 1 and (u − v·i)·(r/2 + (q/2)·i) = 1. */
  lemma ConjugateReciprocal(a: real, r: real, q: real, u: real, v: real)
    requires a != 0.0 && u == r / (2.0 * a) && v == q / (2.0 * a)
    requires q * q == 4.0 * a - r * r
    ensures Times(Complex(u, v), Complex(r / 2.0, -(q / 2.0))) == Complex(1.0, 0.0)
    ensures Times(Complex(u, -v), Complex(r / 2.0, q / 2.0)) == Complex(1.0, 0.0)
  {
    assert 2.0 * a * u == r && 2.0 * a * v == q;
    assert 4.0 * a * (u * r + v * q) == 2.0 * (r * r + q * q);
    assert u * r + v * q == 2.0;
    assert u * q == v * r;
  }

  /** The arithmetic of PushedPairReciprocal for a discriminant ≥ 0:
      (u + v)·(r/2 − q/2) = 1 and (u − v)·(r/2 + q/2) = 1. */
  lemma RealReciprocal(a: real, r: real, q: real, u: real, v: real)
    requires a != 0.0 && u == r / (2.0 * a) && v == q / (2.0 * a)
    requires q * q == r * r - 4.0 * a
    ensures Times(Complex(u + v, 0.0), Complex(r / 2.0 - q / 2.0, 0.0)) == Complex(1.0, 0.0)
    ensures Times(Complex(u - v, 0.0), Complex(r / 2.0 + q / 2.0, 0.0)) == Complex(1.0, 0.0)
  {
    assert 2.0 * a * (u + v) == r + q && 2.0 * a * (u - v) == r - q;
    assert 4.0 * a * ((u + v) * (r - q)) == 2.0 * ((r + q) * (r - q));
    assert (u + v) * (r - q) == 2.0;
    assert 4.0 * a * ((u - v) * (r + q)) == 2.0 * ((r - q) * (r + q));
    assert (u - v) * (r + q) == 2.0;
  }

  /** As written, roots.ts:60 can push a number that is not a root of the
      factor: for x² − 3·x + 2 = (x − 1)(x − 2), reached with r = 3 and
      s = −2, it pushes 1 and 1/2, and 1/2 − 3/2 + 2 ≠ 0 at z = 1/2; the
      factor's own roots are 2 and 1. */
  lemma PushedPairMisses(m: Math)
    requires Lawful(m)
    ensures SolveQuadratic(m, 2.0, -3.0, 1.0) == [Complex(1.0, 0.0), Complex(0.5, 0.0)]
    ensures QuadraticAt(1.0, -3.0, 2.0, SolveQuadratic(m, 2.0, -3.0, 1.0)[1]) != Complex(0.0, 0.0)
    ensures FactorRoots(m, 3.0, -2.0) == [Complex(2.0, 0.0), Complex(1.0, 0.0)]
  {
    SqrtOfSquare(m, 1.0, 1.0);
  }

  /** The coefficient k of a polynomial, zero outside its range. */
  function Coeff(h: seq<real>, k: int): real {
    if 0 <= k < |h| then h[k] else 0.0
  }

  /** The next quotient entry after the entries q: p_i + r·b[i−1] + s·b[i−2]. */
  function Recurrence(pi: real, r: real, s: real, q: seq<real>): real {
    pi + r * Coeff(q, |q| - 1) + s * Coeff(q, |q| - 2)
  }

  /** Synthetic division of p (leading coefficient first) by x² − r·x − s:
      b[0] = p[0], b[1] = p[1] + r·b[0], b[i] = p[i] + r·b[i−1] + s·b[i−2]. */
  function Quotient(p: seq<real>, r: real, s: real): (b: seq<real>)
    ensures |b| == |p|
    decreases |p|
  {
    if p == [] then []
    else
      var q := Quotient(p[..|p| - 1], r, s);
      q + [Recurrence(p[|p| - 1], r, s, q)]
  }

  /** The prefix of length k of the quotient depends only on the first k
      coefficients. */
  lemma {:induction false} QuotientPrefix(p: seq<real>, r: real, s: real, k: nat)
    requires k <= |p|
    ensures Quotient(p[..k], r, s) == Quotient(p, r, s)[..k]
    decreases |p|
  {
    if k == |p| {
      assert p[..k] == p;
    } else {
      var front := p[..|p| - 1];
      QuotientPrefix(front, r, s, k);
      assert front[..k] == p[..k];
      var q := Quotient(front, r, s);
      assert Quotient(p, r, s) == q + [Recurrence(p[|p| - 1], r, s, q)];
      assert (q + [Recurrence(p[|p| - 1], r, s, q)])[..k] == q[..k];
    }
  }

  /** Entry i of the quotient obeys the recurrence of roots.ts:36-40. */
  lemma QuotientEntry(p: seq<real>, r: real, s: real, i: nat)
    requires i < |p|
    ensures var b := Quotient(p, r, s); b[i] == Recurrence(p[i], r, s, b[..i])
  {
    var b := Quotient(p, r, s);
    QuotientPrefix(p, r, s, i + 1);
    QuotientPrefix(p, r, s, i);
    assert p[..i + 1][..i] == p[..i];
    var q := Quotient(p[..i], r, s);
    assert Quotient(p[..i + 1], r, s) == q + [Recurrence(p[i], r, s, q)];
    assert b[i] == Quotient(p[..i + 1], r, s)[i];
  }

  /** The coefficients, leading first, of the product (x² − r·x − s)·h. */
  function TimesQuadratic(h: seq<real>, r: real, s: real): (product: seq<real>)
    ensures |product| == |h| + 2
    ensures |h| > 0 ==> product[0] == h[0]
  {
    seq(|h| + 2, i => Coeff(h, i) - r * Coeff(h, i - 1) - s * Coeff(h, i - 2))
  }

  /** The coefficients, leading first and padded to n entries, of the
      remainder u·(x − r) + v. */
  function LinearRemainder(u: real, v: real, r: real, n: nat): (rem: seq<real>)
    requires n >= 2
    ensures |rem| == n
  {
    seq(n - 2, _ => 0.0) + [u, v - r * u]
  }

  /** The synthetic-division identity, as an equality of polynomials: with b
      the quotient of p by x² − r·x − s,
      p = (x² − r·x − s)·b[0..n−3] + b[n−2]·(x − r) + b[n−1]. */
  lemma SyntheticDivision(p: seq<real>, r: real, s: real)
    requires |p| >= 2
    ensures var b := Quotient(p, r, s); var n := |p|;
      var product := TimesQuadratic(b[..n - 2], r, s);
      var rem := LinearRemainder(b[n - 2], b[n - 1], r, n);
      forall i | 0 <= i < n :: p[i] == product[i] + rem[i]
  {
    forall i | 0 <= i < |p| {
      SyntheticEntry(p, r, s, i);
    }
  }

  /** Coefficient i of the synthetic-division identity. */
  lemma SyntheticEntry(p: seq<real>, r: real, s: real, i: nat)
    requires 2 <= |p| && i < |p|
    ensures var b := Quotient(p, r, s); var n := |p|;
      p[i] == TimesQuadratic(b[..n - 2], r, s)[i] + LinearRemainder(b[n - 2], b[n - 1], r, n)[i]
  {
    QuotientEntry(p, r, s, i);
    ExpandEntry(p, Quotient(p, r, s), r, s, i);
  }

  /** Coefficient i of the identity, for any b whose entry i follows the
      recurrence. */
  lemma ExpandEntry(p: seq<real>, b: seq<real>, r: real, s: real, i: nat)
    requires 2 <= |p| == |b| && i < |p|
    requires b[i] == Recurrence(p[i], r, s, b[..i])
    ensures var n := |p|;
      p[i] == TimesQuadratic(b[..n - 2], r, s)[i] + LinearRemainder(b[n - 2], b[n - 1], r, n)[i]
  {
    var n := |p|;
    var h := b[..n - 2];
    var c0, c1, c2 := Coeff(h, i), Coeff(h, i - 1), Coeff(h, i - 2);
    var rem := LinearRemainder(b[n - 2], b[n - 1], r, n)[i];
    assert TimesQuadratic(h, r, s)[i] == c0 - r * c1 - s * c2;
    var q := b[..i];
    var b1, b2 := Coeff(q, |q| - 1), Coeff(q, |q| - 2);
    assert b[i] == p[i] + r * b1 + s * b2;
    assert c2 == b2;
    if i < n - 2 {
      assert c0 == b[i] && c1 == b1 && rem == 0.0;
    } else if i == n - 2 {
      assert c0 == 0.0 && c1 == b1 && rem == b[i];
    } else {
      assert c0 == 0.0 && c1 == 0.0 && rem == b[i] - r * b1;
    }
    EntryAlgebra(p[i], b[i], b1, b2, c0, c1, c2, rem, r, s);
  }

  /** The arithmetic of SyntheticEntry: b_i = p_i + r·b_{i−1} + s·b_{i−2},
      rearranged against the three shapes coefficient i of the product and of
      the remainder can take. */
  lemma EntryAlgebra(pi: real, bi: real, b1: real, b2: real, c0: real, c1: real, c2: real,
                     rem: real, r: real, s: real)
    requires bi == pi + r * b1 + s * b2 && c2 == b2
    requires || (c0 == bi && c1 == b1 && rem == 0.0)
             || (c0 == 0.0 && c1 == b1 && rem == bi)
             || (c0 == 0.0 && c1 == 0.0 && rem == bi - r * b1)
    ensures pi == c0 - r * c1 - s * c2 + rem
  {
  }

  /** An exact quadratic factor: when the last two quotient entries vanish,
      x² − r·x − s divides p and b[0..n−3] is the cofactor. */
  lemma ExactFactor(p: seq<real>, r: real, s: real)
    requires |p| >= 2
    requires var b := Quotient(p, r, s); b[|p| - 1] == 0.0 && b[|p| - 2] == 0.0
    ensures p == TimesQuadratic(Quotient(p, r, s)[..|p| - 2], r, s)
  {
    SyntheticDivision(p, r, s);
  }

  /** The denominator of the Newton step (roots.ts:50), from the entries
      c2 = c[n−2], c3 = c[n−3], c4 = c[n−4] of the second quotient. */
  function Jacobian(c2: real, c3: real, c4: real): real {
    c3 * c3 - c2 * c4
  }

  /** The Newton corrections h to r and k to s (roots.ts:48-54), from
      bLast = b[n−1], bPrev = b[n−2] and the entries of Jacobian. */
  function NewtonR(bLast: real, bPrev: real, c2: real, c3: real, c4: real): real
    requires Jacobian(c2, c3, c4) != 0.0
  {
    (-bPrev * c3 + bLast * c4) / Jacobian(c2, c3, c4)
  }

  function NewtonS(bLast: real, bPrev: real, c2: real, c3: real, c4: real): real
    requires Jacobian(c2, c3, c4) != 0.0
  {
    (-bLast * c3 + bPrev * c2) / Jacobian(c2, c3, c4)
  }

  /** What the refinement loop leaves behind: the factor parameters r, s and
      the quotient b computed in the last pass. */
  datatype Factor = Factor(r: real, s: real, quotient: seq<real>)

  /** One pass of the refinement loop (roots.ts:34-57): b and c are computed
      with the current r, s, and r, s move by the Newton step (h, k).  The
      result carries the moved r, s and the b of this pass.  None: the step
      divides by zero. */
  function NewtonStep(p: seq<real>, r: real, s: real): (f: Option<Factor>)
    requires |p| >= 4
    ensures f.Some? ==> |f.value.quotient| == |p|
  {
    var n := |p|;
    var b := Quotient(p, r, s);
    var c := Quotient(b[..n - 1], r, s);
    if Jacobian(c[n - 2], c[n - 3], c[n - 4]) == 0.0 then None
    else
      var h := NewtonR(b[n - 1], b[n - 2], c[n - 2], c[n - 3], c[n - 4]);
      var k := NewtonS(b[n - 1], b[n - 2], c[n - 2], c[n - 3], c[n - 4]);
      Some(Factor(r + h, s + k, b))
  }

  /** Whether the loop of roots.ts:31-32 stops on the two leading remainder
      entries last = b[n−1] and prev = b[n−2]. */
  predicate Converged(last: real, prev: real) {
    Abs(last) + Abs(prev) <= Epsilon
  }

  /** The refinement loop of roots.ts:31-58 at its test, in the state r, s, b
      with budget passes left: stop when b has converged or the budget is
      spent, otherwise make a pass.  None: some pass divides by zero. */
  function Iterate(p: seq<real>, state: Factor, budget: nat): (f: Option<Factor>)
    requires |p| >= 4 && |state.quotient| == |p|
    ensures f.Some? ==> |f.value.quotient| == |p|
    decreases budget, 1
  {
    var n := |p|;
    if !Converged(state.quotient[n - 1], state.quotient[n - 2]) && budget > 0 then
      Step(p, state.r, state.s, budget)
    else Some(state)
  }

  /** The body of the refinement loop (roots.ts:33-57): one pass, then the
      test again with one pass less in the budget. */
  function Step(p: seq<real>, r: real, s: real, budget: nat): (f: Option<Factor>)
    requires |p| >= 4 && budget > 0
    ensures f.Some? ==> |f.value.quotient| == |p|
    decreases budget, 0
  {
    match NewtonStep(p, r, s)
    case None => None
    case Some(state) => Iterate(p, state, budget - 1)
  }

  /** b as roots.ts:26-27 leaves it before the loop: its two leading
      remainder entries are 1.  The other entries are not read before the
      first pass overwrites them, so they are set to 1 as well. */
  function Unsettled(n: nat): (b: seq<real>)
    ensures |b| == n
  {
    seq(n, _ => 1.0)
  }

  /** The refinement of roots.ts:26-58 from r, s: the loop test first sees
      b[n−1] = b[n−2] = 1, so at least one pass and at most Budget passes
      are made. */
  function Refine(p: seq<real>, r: real, s: real): (f: Option<Factor>)
    requires |p| >= 4
    ensures f.Some? ==> |f.value.quotient| == |p|
  {
    Iterate(p, Factor(r, s, Unsettled(|p|)), Budget)
  }

  /** The step of Iterate, unfolded for callers that need it. */
  lemma StepUnfold(p: seq<real>, r: real, s: real, budget: nat)
    requires |p| >= 4 && budget > 0
    ensures Step(p, r, s, budget) ==
      match NewtonStep(p, r, s)
      case None => None
      case Some(state) => Iterate(p, state, budget - 1)
  {
  }

  /** The roots findRootsOfPolynomial returns for p, starting the refinement
      from r, s: while more than three coefficients remain, refine, push the
      roots of solveQuadratic(−s, −r, 1) and deflate to b[0..n−3]; then solve
      the remaining quadratic or linear polynomial.  None: some step divides
      by zero. */
  function Bairstow(m: Math, p: seq<real>, r: real, s: real): (roots: Option<seq<Complex>>)
    requires |p| >= 2
    ensures roots.Some? ==> |roots.value| == |p| - 1
    decreases |p|
  {
    if |p| > 3 then
      match Refine(p, r, s)
      case None => None
      case Some(f) =>
        if f.s == 0.0 then None
        else
          match Bairstow(m, f.quotient[..|p| - 2], f.r, f.s)
          case None => None
          case Some(rest) => Some(SolveQuadratic(m, -f.s, -f.r, 1.0) + rest)
    else if p[0] == 0.0 then None
    else if |p| == 3 then Some(SolveQuadratic(m, p[0], p[1], p[2]))
    else Some([Complex(-p[1] / p[0], 0.0)])
  }

  /** One deflation step of Bairstow, unfolded: the refinement from r, s ends
      at fr, fs with quotient q. */
  lemma BairstowStep(m: Math, p: seq<real>, r: real, s: real, fr: real, fs: real, q: seq<real>)
    requires |p| > 3 && Bairstow(m, p, r, s).Some?
    requires Refine(p, r, s) == Some(Factor(fr, fs, q))
    ensures fs != 0.0 && Bairstow(m, q[..|p| - 2], fr, fs).Some?
    ensures Bairstow(m, p, r, s).value
      == SolveQuadratic(m, -fs, -fr, 1.0) + Bairstow(m, q[..|p| - 2], fr, fs).value
  {
  }

  /** The first two roots findRootsOfPolynomial reports for |p| > 3 are the
      reciprocals of the roots of x² − fr·x − fs, the quadratic factor the
      refinement settled on, not those roots themselves. */
  lemma BairstowLeadingPair(m: Math, p: seq<real>, r: real, s: real, fr: real, fs: real, q: seq<real>)
    requires Lawful(m) && |p| > 3 && Bairstow(m, p, r, s).Some?
    requires Refine(p, r, s) == Some(Factor(fr, fs, q))
    ensures var roots := Bairstow(m, p, r, s).value; var factor := FactorRoots(m, fr, fs);
      && Times(roots[0], factor[1]) == Complex(1.0, 0.0)
      && Times(roots[1], factor[0]) == Complex(1.0, 0.0)
  {
    BairstowStep(m, p, r, s, fr, fs, q);
    PushedPairReciprocal(m, fr, fs);
  }

  /** The last step of Bairstow, on a quadratic or linear polynomial, unfolded. */
  lemma BairstowBase(m: Math, p: seq<real>, r: real, s: real)
    requires 2 <= |p| <= 3 && Bairstow(m, p, r, s).Some?
    ensures p[0] != 0.0
    ensures |p| == 3 ==> Bairstow(m, p, r, s).value == SolveQuadratic(m, p[0], p[1], p[2])
    ensures |p| == 2 ==> Bairstow(m, p, r, s).value == [Complex(-p[1] / p[0], 0.0)]
  {
  }

  /** One pass of the recurrence b[i] = p[i] + r·b[i−1] + s·b[i−2] written over
      the first |p| slots of the scratch array `scratch` (roots.ts:36-40, and
      with p = b[0..n−2] the c recurrence of roots.ts:42-46). */
  method Divide(scratch: seq<real>, p: seq<real>, r: real, s: real) returns (b: seq<real>)
    requires 2 <= |p| <= |scratch|
    ensures |b| == |scratch|
    ensures b[..|p|] == Quotient(p, r, s)
    ensures b[|p|..] == scratch[|p|..]
  {
    b := scratch;
    b := b[0 := p[0]];
    b := b[1 := p[1] + r * b[0]];
    assert p[..1][..0] == [];
    assert Quotient(p[..1], r, s) == [Recurrence(p[0], r, s, [])];
    ghost var q1 := Quotient(p[..1], r, s);
    assert Recurrence(p[0], r, s, []) == p[0];
    assert q1 == [p[0]];
    assert p[..2][..1] == p[..1] && p[..2][1] == p[1];
    assert Quotient(p[..2], r, s) == q1 + [Recurrence(p[1], r, s, q1)];
    assert Recurrence(p[1], r, s, q1) == p[1] + r * p[0];
    assert b[0] == p[0] && b[1] == p[1] + r * p[0];
    assert b[..2] == [p[0]] + [p[1] + r * p[0]];
    for i := 2 to |p|
      invariant |b| == |scratch|
      invariant b[..i] == Quotient(p[..i], r, s)
      invariant b[|p|..] == scratch[|p|..]
    {
      ghost var q := b[..i];
      assert p[..i + 1][..i] == p[..i];
      assert Quotient(p[..i + 1], r, s) == q + [Recurrence(p[i], r, s, q)];
      assert Coeff(q, |q| - 1) == b[i - 1] && Coeff(q, |q| - 2) == b[i - 2];
      assert Recurrence(p[i], r, s, q) == p[i] + r * b[i - 1] + s * b[i - 2];
      b := b[i := p[i] + r * b[i - 1] + s * b[i - 2]];
      assert b[..i + 1] == q + [b[i]];
    }
    assert p[..|p|] == p;
  }

  /** One pass of the refinement loop on the scratch arrays b and c
      (roots.ts:36-54): entries from |coeffs| on are left alone. */
  method Pass(coeffs: seq<real>, r: real, s: real, b0: seq<real>, c0: seq<real>)
    returns (b: seq<real>, c: seq<real>, h: real, k: real)
    requires 4 <= |coeffs| <= |b0| && |c0| == |b0|
    requires NewtonStep(coeffs, r, s).Some?
    ensures |b| == |b0| && |c| == |c0|
    ensures NewtonStep(coeffs, r, s) == Some(Factor(r + h, s + k, b[..|coeffs|]))
  {
    var n := |coeffs|;
    ghost var bq := Quotient(coeffs, r, s);
    ghost var cq := Quotient(bq[..n - 1], r, s);
    b := Divide(b0, coeffs, r, s);
    c := Divide(c0, b[..n - 1], r, s);
    assert b[..n - 1] == bq[..n - 1];
    assert c[..n - 1] == cq;
    assert c[n - 4] == cq[n - 4] && c[n - 3] == cq[n - 3] && c[n - 2] == cq[n - 2];
    assert b[n - 2] == bq[n - 2] && b[n - 1] == bq[n - 1];
    h := NewtonR(b[n - 1], b[n - 2], c[n - 2], c[n - 3], c[n - 4]);
    k := NewtonS(b[n - 1], b[n - 2], c[n - 2], c[n - 3], c[n - 4]);
  }

  /** The refinement loop of roots.ts:26-58 for the current n = |coeffs|: b and
      c are the scratch arrays (entries from n on are left alone), r and s the
      factor parameters carried over from the previous deflation. */
  method RefineFactor(coeffs: seq<real>, r0: real, s0: real, b0: seq<real>, c0: seq<real>)
    returns (r: real, s: real, b: seq<real>, c: seq<real>, ghost passes: nat)
    requires 4 <= |coeffs| <= |b0| && |c0| == |b0|
    requires Refine(coeffs, r0, s0).Some?
    ensures |b| == |b0| && |c| == |c0|
    ensures Refine(coeffs, r0, s0) == Some(Factor(r, s, b[..|coeffs|]))
    ensures 1 <= passes <= Budget
  {
    var n := |coeffs|;
    r, s, b, c := r0, s0, b0, c0;
    b := b[n - 1 := 1.0][n - 2 := 1.0];
    var budget: nat := Budget;
    passes := 0;
    assert b[..n][n - 1] == 1.0 && b[..n][n - 2] == 1.0;
    while !Converged(b[n - 1], b[n - 2]) && budget > 0
      invariant |b| == |b0| && |c| == |c0| && budget + passes == Budget
      invariant Refine(coeffs, r0, s0) == Iterate(coeffs, Factor(r, s, b[..n]), budget)
      invariant passes == 0 ==> !Converged(b[n - 1], b[n - 2])
      decreases budget
    {
      assert b[..n][n - 1] == b[n - 1] && b[..n][n - 2] == b[n - 2];
      StepUnfold(coeffs, r, s, budget);
      budget := budget - 1;
      var h, k;
      b, c, h, k := Pass(coeffs, r, s, b, c);
      passes := passes + 1;
      r := r + h;
      s := s + k;
    }
    assert b[..n][n - 1] == b[n - 1] && b[..n][n - 2] == b[n - 2];
  }

  /** One outer iteration of roots.ts:22-63 up to the push: refine r, s on
      the scratch arrays; Bairstow's next two roots are then those of
      solveQuadratic(−s, −r, 1) and the rest are those of the deflated
      b[0..n−3]. */
  method Deflate(m: Math, coeffs: seq<real>, r0: real, s0: real, b0: seq<real>, c0: seq<real>)
    returns (r: real, s: real, b: seq<real>, c: seq<real>)
    requires 4 <= |coeffs| <= |b0| && |c0| == |b0|
    requires Bairstow(m, coeffs, r0, s0).Some?
    ensures |b| == |b0| && |c| == |c0|
    ensures s != 0.0 && Bairstow(m, b[..|coeffs| - 2], r, s).Some?
    ensures Bairstow(m, coeffs, r0, s0).value
      == SolveQuadratic(m, -s, -r, 1.0) + Bairstow(m, b[..|coeffs| - 2], r, s).value
  {
    var n := |coeffs|;
    ghost var passes;
    r, s, b, c, passes := RefineFactor(coeffs, r0, s0, b0, c0);
    BairstowStep(m, coeffs, r0, s0, r, s, b[..n]);
    assert b[..n][..n - 2] == b[..n - 2];
  }

  /** findRootsOfPolynomial (roots.ts:11-71): the roots of p, leading
      coefficient first, one per degree. */
  method FindRootsOfPolynomial(m: Math, p: seq<real>) returns (result: seq<Complex>)
    requires |p| >= 2
    requires Bairstow(m, p, 0.0, 0.0).Some?
    ensures result == Bairstow(m, p, 0.0, 0.0).value
    ensures |result| == |p| - 1
  {
    result := [];
    var coeffs := p;
    var b := seq(|p|, _ => 0.0);
    var c := seq(|p|, _ => 0.0);
    var r, s := 0.0, 0.0;
    while |coeffs| > 3
      invariant 2 <= |coeffs| <= |p| && |b| == |p| && |c| == |p|
      invariant Bairstow(m, coeffs, r, s).Some?
      invariant result + Bairstow(m, coeffs, r, s).value == Bairstow(m, p, 0.0, 0.0).value
      decreases |coeffs|
    {
      var n := |coeffs|;
      ghost var before := Bairstow(m, coeffs, r, s).value;
      r, s, b, c := Deflate(m, coeffs, r, s, b, c);
      ghost var pair := SolveQuadratic(m, -s, -r, 1.0);
      ghost var rest := Bairstow(m, b[..n - 2], r, s).value;
      assert result + before == (result + pair) + rest;
      result := result + SolveQuadratic(m, -s, -r, 1.0);
      coeffs := b[..n - 2];
    }
    BairstowBase(m, coeffs, r, s);
    if |coeffs| == 3 {
      result := result + SolveQuadratic(m, coeffs[0], coeffs[1], coeffs[2]);
    } else {
      result := result + [Complex(-coeffs[1] / coeffs[0], 0.0)];
    }
  }
}
