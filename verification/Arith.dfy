/** Facts about Euclidean division that the solver does not find alone. */
module Arith {

  function Abs(x: int): int { if x < 0 then -x else x }

  lemma DivModUnique(a: int, n: int, q: int, r: int)
    requires n > 0 && a == q * n + r && 0 <= r < n
    ensures a / n == q && a % n == r
  {
    var d := a / n - q;
    assert d * n == r - a % n;
    assert d >= 1 ==> d * n >= n;
    assert d <= -1 ==> d * n <= -n;
  }

  lemma ModShift(a: int, k: int, n: int)
    requires n > 0
    ensures (a + k * n) % n == a % n
  {
    assert a + k * n == (a / n + k) * n + a % n;
    DivModUnique(a + k * n, n, a / n + k, a % n);
  }

  lemma ModAdd(a: int, b: int, n: int)
    requires n > 0
    ensures (a % n + b % n) % n == (a + b) % n
  {
    assert a + b == a % n + b % n + (a / n + b / n) * n;
    ModShift(a % n + b % n, a / n + b / n, n);
  }

  lemma MulLe(a: int, b: int, c: int)
    requires a <= b && c >= 0
    ensures a * c <= b * c
  {
  }

  lemma MulPos(a: int, b: int)
    requires a > 0 && b > 0
    ensures a * b > 0 && a * b >= a && a * b >= b
  {
  }

  lemma Assoc(a: int, b: int, c: int)
    ensures a * (b * c) == (a * b) * c
  {
  }

  lemma Rotate(a: int, b: int, c: int)
    ensures a * (b * c) == b * (c * a) && a * b * c == b * (c * a)
  {
  }

  /** (j + 1) q == j q + q, and the j-th of p steps of size q ends within p q. */
  lemma Next(j: int, q: int)
    ensures (j + 1) * q == j * q + q
  {
  }

  lemma StepFits(j: int, p: int, q: int)
    requires 0 <= j < p && q >= 0
    ensures 0 <= j * q && j * q + q <= p * q
  {
    Next(j, q);
    MulLe(j + 1, p, q);
    MulLe(0, j, q);
  }

  lemma NegMod(a: int, n: int)
    requires n > 0
    ensures (-a) % n == (-(a % n)) % n
  {
    var q := a / n;
    assert -a == -(a % n) + (-q) * n;
    ModShift(-(a % n), -q, n);
  }

  lemma DivTrans(n: int, d: int, k: int)
    requires d > 0 && k > 0 && n % d == 0 && d % k == 0
    ensures n % k == 0
  {
    var a, b := n / d, d / k;
    assert n == a * d && d == b * k;
    Assoc(a, b, k);
    DivModUnique(n, k, a * b, 0);
  }

  lemma MultipleMod(n: int, p: int, q: int, k: int)
    requires k > 0 && n == p * q && q % k == 0
    ensures n % k == 0
  {
    Assoc(p, q / k, k);
    DivModUnique(n, k, p * (q / k), 0);
  }
}
