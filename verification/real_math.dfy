/** The numeric ground the formant pipeline stands on.

    The TypeScript source computes in IEEE doubles and calls Math.exp, Math.sqrt,
    Math.log, Math.atan2 and Math.PI.  Here every number is a Dafny `real`, and
    the transcendental functions are not defined at all: they travel as the
    fields of a `Math` value, and the lemmas that need them assume only the
    laws collected in `Lawful`. */
module RealMath {

  /** The conventional Some/None datatype. */
  datatype Option<+T> = None | Some(value: T)

  /** The transcendental functions of JavaScript's Math object, as values. */
  datatype Math = Math(
    exp: real -> real,
    sqrt: real -> real,
    log: real -> real,
    atan2: (real, real) -> real,
    pi: real)

  /** The few laws of exp, sqrt, atan2 and pi that the proofs rely on. */
  ghost predicate Lawful(m: Math) {
    && m.exp(0.0) == 1.0
    && (forall x :: m.exp(x) > 0.0)
    && (forall x, y :: x < y ==> m.exp(x) < m.exp(y))
    && (forall x :: x >= 0.0 ==> m.sqrt(x) >= 0.0 && m.sqrt(x) * m.sqrt(x) == x)
    && m.pi > 0.0
    && (forall y, x :: y >= 0.0 ==> 0.0 <= m.atan2(y, x) <= m.pi)
  }

  function Abs(x: real): real {
    if x < 0.0 then -x else x
  }

  function Min(a: int, b: int): int {
    if a <= b then a else b
  }

  /** exp is monotone in the non-strict sense too. */
  lemma ExpMonotone(m: Math, x: real, y: real)
    requires Lawful(m) && x <= y
    ensures m.exp(x) <= m.exp(y)
  {
    if x < y {
      assert m.exp(x) < m.exp(y);
    }
  }

  /** The square root of a square of a non-negative number is that number. */
  lemma SqrtOfSquare(m: Math, x: real, y: real)
    requires Lawful(m) && y >= 0.0 && x == y * y
    ensures m.sqrt(x) == y
  {
    var q := m.sqrt(x);
    assert q >= 0.0 && q * q == x;
    assert (q - y) * (q + y) == 0.0;
    if y == 0.0 {
      assert q * q == 0.0;
    } else {
      assert q + y > 0.0;
    }
  }

  /** sqrt preserves the order of non-negative numbers against 1. */
  lemma SqrtAgainstOne(m: Math, x: real)
    requires Lawful(m) && x >= 0.0
    ensures m.sqrt(x) <= 1.0 <==> x <= 1.0
    ensures m.sqrt(x) < 1.0 <==> x < 1.0
  {
    var q := m.sqrt(x);
    assert q >= 0.0 && q * q == x;
    if q <= 1.0 {
      assert q * q <= q * 1.0;
    }
    if q > 1.0 {
      assert q * q > q * 1.0;
    }
  }

  /** sqrt of a positive number is positive. */
  lemma SqrtPositive(m: Math, x: real)
    requires Lawful(m) && x > 0.0
    ensures m.sqrt(x) > 0.0
  {
    var q := m.sqrt(x);
    assert q >= 0.0 && q * q == x;
  }

  /** A product of two reals, named so that the sign rules below, and the
      callers that use them, can speak about it as one term. */
  function Product(a: real, b: real): real {
    a * b
  }

  lemma BothPositive(a: real, b: real)
    requires a > 0.0 && b > 0.0
    ensures Product(a, b) > 0.0
  {
  }

  lemma BothNegative(a: real, b: real)
    requires a < 0.0 && b < 0.0
    ensures Product(a, b) > 0.0
  {
  }

  /** The square of a non-zero number is positive. */
  lemma SquarePositive(v: real)
    requires v != 0.0
    ensures Product(v, v) > 0.0
  {
    if v > 0.0 {
      BothPositive(v, v);
    } else {
      BothNegative(v, v);
    }
  }

  /** No square is negative. */
  lemma SquareNonNegative(v: real)
    ensures Product(v, v) >= 0.0
  {
    if v != 0.0 {
      SquarePositive(v);
    } else {
      assert Product(v, v) == 0.0;
    }
  }

  lemma ScaleNonNegative(x: real, f: real)
    requires x >= 0.0 && f >= 0.0
    ensures Product(x, f) >= 0.0
  {
  }

  /** A square of a number in [−1, 1] is at most 1. */
  lemma SquareAtMostOne(c: real)
    requires -1.0 <= c <= 1.0
    ensures Product(c, c) <= 1.0
  {
    if c >= 0.0 {
      ScaleNonNegative(c, 1.0 - c);
      assert Product(c, 1.0 - c) == c - Product(c, c);
    } else {
      ScaleNonNegative(-c, 1.0 + c);
      assert Product(-c, 1.0 + c) == -c - Product(c, c);
    }
  }

  /** Multiplying by q and dividing by q cancel. */
  lemma Cancel(x: real, c: real, q: real)
    requires q != 0.0 && x == c * q
    ensures x / q == c
  {
  }

  /** c·q² divided twice by q is c. */
  lemma CancelTwice(c: real, q: real)
    requires q != 0.0
    ensures c * Product(q, q) / q / q == c
  {
    var x := c * Product(q, q);
    Cancel(x, c * q, q);
    Cancel(x / q, c, q);
  }

  /** Dividing twice by a positive number keeps the order. */
  lemma DivideTwiceMonotone(x: real, y: real, q: real)
    requires q > 0.0 && x <= y
    ensures x / q / q <= y / q / q
  {
    assert x / q <= y / q;
  }

  /** A quotient of a non-negative number by a larger one lies in [0, 1]. */
  lemma RatioInUnit(a: real, b: real)
    requires 0.0 <= a <= b && b > 0.0
    ensures 0.0 <= a / b <= 1.0
  {
    var c := a / b;
    assert c * b == a;
  }

  /** Dividing by a positive number keeps the order of non-negative numbers. */
  lemma DivideMonotone(x: real, y: real, q: real)
    requires q > 0.0 && 0.0 <= x <= y
    ensures 0.0 <= x / q <= y / q
  {
  }
}
