/** Square roots and the inequality of Cauchy and Schwarz, for any sums that come as a non-negative quadratic form. */
module Inequalities {
  import opened Reals

  /** What the proofs need of the square root of the C library. */
  ghost predicate IsSqrt(sqrt: real -> real)
  {
    forall v: real :: v >= 0.0 ==> sqrt(v) >= 0.0 && SMul(sqrt(v), sqrt(v)) == v
  }

  /** The root of a positive number. */
  lemma RootOfPositive(sqrt: real -> real, v: real)
    requires IsSqrt(sqrt) && v > 0.0
    ensures sqrt(v) > 0.0 && SMul(sqrt(v), sqrt(v)) == v
  {
    hide SMul;
    assert SMul(sqrt(v), sqrt(v)) == v;
    SMulUnit(0.0);
  }

  /** s^2 X - 2 s t P + t^2 Y. */
  ghost function Form(X: real, P: real, Y: real, s: real, t: real): real
  {
    SMul(SMul(s, s), X) - 2.0 * SMul(SMul(s, t), P) + SMul(SMul(t, t), Y)
  }

  lemma FormZero(s: real, t: real)
    ensures Form(0.0, 0.0, 0.0, s, t) == 0.0
  {
  }

  lemma FormStep(X: real, P: real, Y: real, s: real, t: real, u: real, v: real)
    ensures Form(X + SMul(u, u), P + SMul(u, v), Y + SMul(v, v), s, t) >= Form(X, P, Y, s, t)
  {
    var p, q := s * u, t * v;
    assert (s * s) * (u * u) == p * p;
    assert (s * t) * (u * v) == p * q;
    assert (t * t) * (v * v) == q * q;
    SMulSquare(p - q);
    assert (p - q) * (p - q) == p * p - 2.0 * (p * q) + q * q;
  }

  lemma FromForms(X: real, P: real, Y: real)
    requires X >= 0.0 && Y >= 0.0
    requires Form(X, P, Y, P, X) >= 0.0 && Form(X, P, Y, Y + 1.0, P) >= 0.0
    ensures SMul(P, P) <= SMul(X, Y)
  {
    if X > 0.0 {
      PositiveCase(X, P, Y);
    } else {
      ZeroCase(P, Y);
    }
  }

  lemma PositiveCase(X: real, P: real, Y: real)
    requires X > 0.0 && Form(X, P, Y, P, X) >= 0.0
    ensures SMul(P, P) <= SMul(X, Y)
  {
    var d := X * Y - P * P;
    assert Form(X, P, Y, P, X) == X * d;
    assert d < 0.0 ==> X * d < 0.0;
  }

  lemma ZeroCase(P: real, Y: real)
    requires Y >= 0.0 && Form(0.0, P, Y, Y + 1.0, P) >= 0.0
    ensures SMul(P, P) <= SMul(0.0, Y)
  {
    var z := P * P;
    assert Form(0.0, P, Y, Y + 1.0, P) == -((Y + 2.0) * z);
    assert z > 0.0 ==> (Y + 2.0) * z > 0.0;
  }

  lemma SmallerThanRoot(a: real, s: real)
    requires s > 0.0 && SMul(a, a) < SMul(s, s)
    ensures -1.0 < a / s < 1.0
  {
    assert a >= s ==> a * a >= s * a >= s * s;
    assert -a >= s ==> a * a == (-a) * (-a) >= s * (-a) >= s * s;
    var r := a / s;
    assert a == r * s;
    assert r >= 1.0 ==> r * s >= s;
    assert r <= -1.0 ==> (-r) * s >= s;
  }
}
