/**
 Cubic polynomials over exact reals, as the spline generators use them: the
 powers the basis and derivative formulas are built from, a coefficient form
 with its formal derivative, and the sign facts the range proofs rest on.
 */
module Cubic {

  function Sq(x: real): real { x * x }
  function Cube(x: real): real { x * x * x }

  /** a0 + a1 t + a2 t^2 + a3 t^3. */
  datatype Poly = Poly(a0: real, a1: real, a2: real, a3: real)

  function Eval(p: Poly, t: real): real
  {
    p.a0 + p.a1 * t + p.a2 * Sq(t) + p.a3 * Cube(t)
  }

  /** The formal derivative: a1 + 2 a2 t + 3 a3 t^2. */
  function Derivative(p: Poly): Poly
  {
    Poly(p.a1, 2.0 * p.a2, 3.0 * p.a3, 0.0)
  }

  function Add(p: Poly, q: Poly): Poly
  {
    Poly(p.a0 + q.a0, p.a1 + q.a1, p.a2 + q.a2, p.a3 + q.a3)
  }

  /** Adding coefficients adds the polynomial functions. */
  lemma EvalAdd(p: Poly, q: Poly, t: real)
    ensures Eval(Add(p, q), t) == Eval(p, t) + Eval(q, t)
  {
  }

  /** Differentiation is additive. */
  lemma DerivativeOfSum(p: Poly, q: Poly)
    ensures Derivative(Add(p, q)) == Add(Derivative(p), Derivative(q))
  {
  }

  /** Differentiation is additive over a sum of four polynomials, added left to right. */
  lemma DerivativeOfSum4(p0: Poly, p1: Poly, p2: Poly, p3: Poly)
    ensures Derivative(Add(Add(Add(p0, p1), p2), p3))
         == Add(Add(Add(Derivative(p0), Derivative(p1)), Derivative(p2)), Derivative(p3))
  {
    DerivativeOfSum(Add(Add(p0, p1), p2), p3);
    DerivativeOfSum(Add(p0, p1), p2);
    DerivativeOfSum(p0, p1);
  }

  lemma SqNonneg(x: real)
    ensures 0.0 <= Sq(x)
  {
    if x < 0.0 {
      MulNonneg(-x, -x);
    } else {
      MulNonneg(x, x);
    }
  }

  lemma MulNonneg(a: real, b: real)
    requires 0.0 <= a && 0.0 <= b
    ensures 0.0 <= a * b
  {
  }

  /** Scaling by a factor in [0, 1] never increases a non-negative value. */
  lemma MulAtMost(a: real, b: real)
    requires 0.0 <= a <= 1.0 && 0.0 <= b
    ensures 0.0 <= a * b <= b
  {
    MulNonneg(a, b);
    MulNonneg(1.0 - a, b);
    assert b - a * b == (1.0 - a) * b;
  }

  /** When `t * c` is the integer n, the square and cube of t, scaled by c^2 and c^3, are n^2 and n^3. */
  lemma ScaledPowers(t: real, c: real, n: int)
    requires t * c == n as real
    ensures Sq(t) * (c * c) == (n * n) as real
    ensures Cube(t) * (c * c * c) == (n * n * n) as real
  {
    assert Sq(t) * (c * c) == (t * c) * (t * c);
    assert Cube(t) * (c * c * c) == (t * c) * (t * c) * (t * c);
  }

  /** On [0, 1] the powers shrink: 0 <= t^3 <= t^2 <= t <= 1. */
  lemma PowersInUnit(t: real)
    requires 0.0 <= t <= 1.0
    ensures 0.0 <= Cube(t) <= Sq(t) <= t
  {
    MulAtMost(t, t);
    var q := Sq(t);
    MulAtMost(t, q);
    assert t * q <= q;
    assert Cube(t) == t * q;
    assert Cube(t) <= q;
  }
}
