/** Products and finite sums of exact reals, standing for the float arithmetic of the signal code. */
module Reals {

  // S_MUL of _kiss_fft_guts.h:106 and MULT16_16 of arch.h. It has a name so that proofs can treat products as atoms.
  function SMul(a: real, b: real): real { a * b }

  lemma SMulLinear(x: real, y: real, a: real)
    ensures SMul(x + y, a) == SMul(x, a) + SMul(y, a) && SMul(x - y, a) == SMul(x, a) - SMul(y, a)
    ensures SMul(a, x + y) == SMul(a, x) + SMul(a, y) && SMul(a, x - y) == SMul(a, x) - SMul(a, y)
  {
  }

  lemma SMulSign(x: real, a: real)
    ensures SMul(x, a) == SMul(a, x) && SMul(x, -a) == -SMul(x, a) && SMul(-x, a) == -SMul(x, a)
  {
  }

  lemma SMulUnit(x: real)
    ensures SMul(x, 0.0) == 0.0 && SMul(x, 1.0) == x && SMul(x, -1.0) == -x && SMul(x, -0.5) == -0.5 * x
    ensures SMul(0.0, x) == 0.0 && SMul(1.0, x) == x && SMul(0.5, x) == 0.5 * x
  {
  }

  lemma SMulAssoc(a: real, b: real, c: real)
    ensures SMul(SMul(a, b), c) == SMul(a, SMul(b, c))
  {
  }

  lemma SMulSquare(a: real)
    ensures SMul(a, a) >= 0.0
  {
  }

  lemma SMulNonNegative(a: real, b: real)
    requires a >= 0.0 && b >= 0.0
    ensures SMul(a, b) >= 0.0
  {
  }

  lemma SMulPositive(a: real, b: real)
    requires a > 0.0 && b > 0.0
    ensures SMul(a, b) > 0.0
  {
  }

  lemma SMulBetween(y: real, lo: real, x: real, hi: real)
    requires y >= 0.0 && lo <= x <= hi
    ensures SMul(y, lo) <= SMul(y, x) <= SMul(y, hi)
  {
    hide SMul;
    SMulNonNegative(y, x - lo);
    SMulNonNegative(y, hi - x);
    SMulLinear(x, lo, y);
    SMulLinear(hi, x, y);
  }

  /** f(0) + ... + f(n-1). */
  ghost function RSum(n: nat, f: int -> real): real
  {
    if n == 0 then 0.0 else RSum(n - 1, f) + f(n - 1)
  }

  lemma {:induction false} RSumCong(n: nat, f: int -> real, g: int -> real)
    requires forall j :: 0 <= j < n ==> f(j) == g(j)
    ensures RSum(n, f) == RSum(n, g)
  {
    if n > 0 {
      RSumCong(n - 1, f, g);
    }
  }

  lemma {:induction false} RSumAdd(n: nat, f: int -> real, g: int -> real)
    ensures RSum(n, j => f(j) + g(j)) == RSum(n, f) + RSum(n, g)
  {
    if n > 0 {
      RSumAdd(n - 1, f, g);
    }
  }

  lemma {:induction false} RSumMul(n: nat, f: int -> real, c: real)
    ensures RSum(n, j => SMul(c, f(j))) == SMul(c, RSum(n, f))
  {
    hide SMul;
    SMulUnit(c);
    if n > 0 {
      RSumMul(n - 1, f, c);
      SMulLinear(RSum(n - 1, f), f(n - 1), c);
    }
  }

  lemma {:induction false} RSumCombine(n: nat, f: int -> real, g: int -> real, h: int -> real, c: real)
    requires forall j :: 0 <= j < n ==> f(j) == g(j) + SMul(c, h(j))
    ensures RSum(n, f) == RSum(n, g) + SMul(c, RSum(n, h))
  {
    hide SMul;
    SMulUnit(c);
    if n > 0 {
      RSumCombine(n - 1, f, g, h, c);
      SMulLinear(RSum(n - 1, h), h(n - 1), c);
    }
  }

  lemma {:induction false} RSumShift(n: nat, f: int -> real)
    ensures RSum(n + 1, f) == f(0) + RSum(n, j => f(j + 1))
  {
    if n > 0 {
      RSumShift(n - 1, f);
      RSumCong(n - 1, j => f(j + 1), j => f(j + 1));
    }
  }

  /** The terms in the opposite order. */
  lemma {:induction false} RSumReverse(n: nat, f: int -> real)
    ensures RSum(n, j => f(n - 1 - j)) == RSum(n, f)
  {
    if n > 0 {
      var g := (j: int) => f(n - 1 - j);
      RSumShift(n - 1, g);
      RSumCong(n, g, j => f(n - 1 - j));
      RSumReverse(n - 1, f);
      RSumCong(n - 1, j => g(j + 1), j => f(n - 1 - 1 - j));
    }
  }

  lemma {:induction false} RSumSplit(a: nat, b: nat, f: int -> real)
    ensures RSum(a + b, f) == RSum(a, f) + RSum(b, j => f(a + j))
  {
    if b > 0 {
      RSumSplit(a, b - 1, f);
      RSumCong(b - 1, j => f(a + j), j => f(a + j));
    }
  }

  lemma {:induction false} RSumZero(n: nat, f: int -> real)
    requires forall j :: 0 <= j < n ==> f(j) == 0.0
    ensures RSum(n, f) == 0.0
  {
    if n > 0 {
      RSumZero(n - 1, f);
    }
  }

  /** A sum with one term other than zero. */
  lemma {:induction false} RSumOne(n: nat, f: int -> real, k: nat)
    requires k < n && forall j :: 0 <= j < n && j != k ==> f(j) == 0.0
    ensures RSum(n, f) == f(k)
  {
    if k == n - 1 {
      RSumZero(n - 1, f);
    } else {
      RSumOne(n - 1, f, k);
    }
  }

  lemma {:induction false} RSumNonNegative(n: nat, f: int -> real)
    requires forall j :: 0 <= j < n ==> f(j) >= 0.0
    ensures RSum(n, f) >= 0.0
  {
    if n > 0 {
      RSumNonNegative(n - 1, f);
    }
  }

  /** Element i, or zero outside. */
  ghost function RAt(s: seq<real>, i: int): real
  {
    if 0 <= i < |s| then s[i] else 0.0
  }

  /** Inner product of n samples of x from xo and of y from yo. */
  ghost function Dot(x: seq<real>, xo: int, y: seq<real>, yo: int, n: nat): real
  {
    RSum(n, j => SMul(RAt(x, xo + j), RAt(y, yo + j)))
  }

  lemma DotNext(x: seq<real>, xo: int, y: seq<real>, yo: int, n: nat)
    ensures Dot(x, xo, y, yo, 0) == 0.0
    ensures Dot(x, xo, y, yo, n + 1) == Dot(x, xo, y, yo, n) + SMul(RAt(x, xo + n), RAt(y, yo + n))
  {
    hide SMul, RAt;
  }
}
