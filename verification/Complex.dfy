/** Exact complex numbers, as kiss_fft_cpx holds them, and finite complex sums. */
module Complex {
  import opened Reals

  datatype Cpx = Cpx(r: real, i: real)

  const Zero: Cpx := Cpx(0.0, 0.0)
  const One: Cpx := Cpx(1.0, 0.0)

  // C_ADD, C_SUB, C_MUL and C_MULBYSCALAR of the float configuration (_kiss_fft_guts.h:107-150).
  function Add(a: Cpx, b: Cpx): Cpx { Cpx(a.r + b.r, a.i + b.i) }
  function Sub(a: Cpx, b: Cpx): Cpx { Cpx(a.r - b.r, a.i - b.i) }
  function Mul(a: Cpx, b: Cpx): Cpx { Cpx(SMul(a.r, b.r) - SMul(a.i, b.i), SMul(a.r, b.i) + SMul(a.i, b.r)) }
  function Scale(s: real, a: Cpx): Cpx { Cpx(SMul(s, a.r), SMul(s, a.i)) }
  function Conj(a: Cpx): Cpx { Cpx(a.r, -a.i) }

  lemma MulComm(a: Cpx, b: Cpx)
    ensures Mul(a, b) == Mul(b, a)
  {
  }

  lemma MulAssoc(a: Cpx, b: Cpx, c: Cpx)
    ensures Mul(Mul(a, b), c) == Mul(a, Mul(b, c))
  {
    hide SMul;
    Triple(a.r, a.i, b, c.r);
    Triple(a.r, a.i, b, c.i);
    Triple'(a.r, b, c);
    Triple'(a.i, b, c);
  }

  lemma Triple(x: real, y: real, b: Cpx, z: real)
    ensures SMul(SMul(x, b.r) - SMul(y, b.i), z) == SMul(x, SMul(b.r, z)) - SMul(y, SMul(b.i, z))
    ensures SMul(SMul(x, b.i) + SMul(y, b.r), z) == SMul(x, SMul(b.i, z)) + SMul(y, SMul(b.r, z))
  {
    hide SMul;
    SMulLinear(SMul(x, b.r), SMul(y, b.i), z);
    SMulLinear(SMul(x, b.i), SMul(y, b.r), z);
    SMulAssoc(x, b.r, z);
    SMulAssoc(y, b.i, z);
    SMulAssoc(x, b.i, z);
    SMulAssoc(y, b.r, z);
  }

  lemma Triple'(x: real, b: Cpx, c: Cpx)
    ensures SMul(x, SMul(b.r, c.r) - SMul(b.i, c.i)) == SMul(x, SMul(b.r, c.r)) - SMul(x, SMul(b.i, c.i))
    ensures SMul(x, SMul(b.r, c.i) + SMul(b.i, c.r)) == SMul(x, SMul(b.r, c.i)) + SMul(x, SMul(b.i, c.r))
  {
    hide SMul;
    SMulLinear(SMul(b.r, c.r), SMul(b.i, c.i), x);
    SMulLinear(SMul(b.r, c.i), SMul(b.i, c.r), x);
  }

  lemma MulAddLeft(a: Cpx, b: Cpx, c: Cpx)
    ensures Mul(Add(a, b), c) == Add(Mul(a, c), Mul(b, c))
  {
    hide SMul;
    SMulLinear(a.r, b.r, c.r);
    SMulLinear(a.i, b.i, c.i);
    SMulLinear(a.r, b.r, c.i);
    SMulLinear(a.i, b.i, c.r);
  }

  lemma MulOne(a: Cpx)
    ensures Mul(a, One) == a && Mul(One, a) == a && Mul(a, Zero) == Zero && Mul(Zero, a) == Zero
  {
    hide SMul;
    SMulUnit(a.r);
    SMulUnit(a.i);
  }

  lemma ConjMul(a: Cpx, b: Cpx)
    ensures Conj(Mul(a, b)) == Mul(Conj(a), Conj(b))
  {
    hide SMul;
    SMulSign(a.r, b.r);
    SMulSign(a.r, b.i);
    SMulSign(a.i, b.r);
    SMulSign(a.i, b.i);
    SMulSign(-a.i, b.i);
  }

  lemma ScaleMul(s: real, a: Cpx, b: Cpx)
    ensures Mul(Scale(s, a), b) == Scale(s, Mul(a, b))
  {
    hide SMul;
    SMulAssoc(s, a.r, b.r);
    SMulAssoc(s, a.i, b.i);
    SMulAssoc(s, a.r, b.i);
    SMulAssoc(s, a.i, b.r);
    SMulLinear(SMul(a.r, b.r), SMul(a.i, b.i), s);
    SMulLinear(SMul(a.r, b.i), SMul(a.i, b.r), s);
  }

  /** The complex numbers have no zero divisors. */
  lemma NoZeroDivisor(a: Cpx, b: Cpx)
    requires Mul(a, b) == b
    requires a != One
    ensures b == Zero
  {
    Singular(a.r - 1.0, a.i, b.r, b.i);
  }

  lemma Singular(x: real, y: real, u: real, v: real)
    requires x * u - y * v == 0.0 && x * v + y * u == 0.0
    requires x != 0.0 || y != 0.0
    ensures u == 0.0 && v == 0.0
  {
    var d := x * x + y * y;
    assert x * (x * u - y * v) + y * (x * v + y * u) == d * u;
    assert x * (x * v + y * u) - y * (x * u - y * v) == d * v;
    assert x * x >= 0.0 && y * y >= 0.0;
    assert x != 0.0 ==> x * x > 0.0;
    assert y != 0.0 ==> y * y > 0.0;
    assert u != 0.0 ==> d * u != 0.0;
    assert v != 0.0 ==> d * v != 0.0;
  }

  /** f(0) + ... + f(n-1). */
  ghost function Sum(n: nat, f: int -> Cpx): Cpx
  {
    if n == 0 then Zero else Add(Sum(n - 1, f), f(n - 1))
  }

  lemma {:induction false} SumCong(n: nat, f: int -> Cpx, g: int -> Cpx)
    requires forall j :: 0 <= j < n ==> f(j) == g(j)
    ensures Sum(n, f) == Sum(n, g)
  {
    hide Add;
    if n > 0 {
      SumCong(n - 1, f, g);
    }
  }

  lemma {:induction false} SumZero(n: nat, f: int -> Cpx)
    requires forall j :: 0 <= j < n ==> f(j) == Zero
    ensures Sum(n, f) == Zero
  {
    if n > 0 {
      SumZero(n - 1, f);
    }
  }

  lemma {:induction false} SumAdd(n: nat, f: int -> Cpx, g: int -> Cpx)
    ensures Sum(n, j => Add(f(j), g(j))) == Add(Sum(n, f), Sum(n, g))
  {
    if n > 0 {
      SumAdd(n - 1, f, g);
    }
  }

  lemma {:induction false} SumMul(n: nat, f: int -> Cpx, c: Cpx)
    ensures Sum(n, j => Mul(f(j), c)) == Mul(Sum(n, f), c)
  {
    var g := (j: int) => Mul(f(j), c);
    hide Add, Mul;
    if n > 0 {
      SumMul(n - 1, f, c);
      MulAddLeft(Sum(n - 1, f), f(n - 1), c);
    } else {
      MulOne(c);
    }
  }

  lemma {:induction false} SumScale(n: nat, f: int -> Cpx, s: real)
    ensures Sum(n, j => Scale(s, f(j))) == Scale(s, Sum(n, f))
  {
    hide SMul;
    SMulUnit(s);
    if n > 0 {
      SumScale(n - 1, f, s);
      var a, b := Sum(n - 1, f), f(n - 1);
      SMulLinear(a.r, b.r, s);
      SMulLinear(a.i, b.i, s);
    }
  }

  lemma ConjAdd(a: Cpx, b: Cpx)
    ensures Conj(Add(a, b)) == Add(Conj(a), Conj(b)) && Conj(Zero) == Zero
  {
  }

  lemma {:induction false} SumConj(n: nat, f: int -> Cpx)
    ensures Sum(n, j => Conj(f(j))) == Conj(Sum(n, f))
  {
    hide Add, Conj, Mul;
    ConjAdd(Zero, Zero);
    if n > 0 {
      SumConj(n - 1, f);
      ConjAdd(Sum(n - 1, f), f(n - 1));
    }
  }

  /** Only one term of the sum can be nonzero. */
  lemma {:induction false} SumSingle(n: nat, f: int -> Cpx, k: nat)
    requires k < n
    requires forall j :: 0 <= j < n && j != k ==> f(j) == Zero
    ensures Sum(n, f) == f(k)
  {
    if k == n - 1 {
      SumZero(n - 1, f);
    } else {
      SumSingle(n - 1, f, k);
    }
  }

  lemma {:induction false} SumSwap(n: nat, m: nat, f: (int, int) -> Cpx)
    ensures Sum(n, j => Sum(m, k => f(j, k))) == Sum(m, k => Sum(n, j => f(j, k)))
  {
    hide Add;
    if n == 0 {
      SumZero(m, k => Sum(n, j => f(j, k)));
    } else {
      var last := (k: int) => f(n - 1, k);
      var rest := (k: int) => Sum(n - 1, j => f(j, k));
      SumSwap(n - 1, m, f);
      assert Sum(m, k => f(n - 1, k)) == Sum(m, last) by { SumCong(m, k => f(n - 1, k), last); }
      assert Sum(n - 1, j => Sum(m, k => f(j, k))) == Sum(m, rest) by {
        SumCong(m, k => Sum(n - 1, j => f(j, k)), rest);
      }
      SumAdd(m, rest, last);
      forall k | 0 <= k < m
        ensures Add(rest(k), last(k)) == Sum(n, j => f(j, k))
      {
        SumCong(n - 1, j => f(j, k), j => f(j, k));
      }
      SumCong(m, k => Add(rest(k), last(k)), k => Sum(n, j => f(j, k)));
      SumCong(n - 1, j => Sum(m, k => f(j, k)), j => Sum(m, k => f(j, k)));
    }
  }

  lemma {:induction false} SumByBlock(p: nat, m: nat, f: int -> Cpx)
    ensures Sum(m * p, f) == Sum(m, j => Sum(p, r => f(j * p + r)))
  {
    hide Add;
    if m > 0 {
      SumByBlock(p, m - 1, f);
      var done := (m - 1) * p;
      assert m * p == done + p;
      SumExtend(done, p, f);
      SumCong(p, r => f(done + r), r => f((m - 1) * p + r));
      SumCong(m - 1, j => Sum(p, r => f(j * p + r)), j => Sum(p, r => f(j * p + r)));
    }
  }

  /** A sum over m * p terms, gathered by residue modulo p. */
  lemma SumByResidue(p: nat, m: nat, f: int -> Cpx)
    ensures Sum(m * p, f) == Sum(p, r => Sum(m, j => f(j * p + r)))
  {
    var g := (j: int, r: int) => f(j * p + r);
    hide Add, Sum;
    SumByBlock(p, m, f);
    forall j | 0 <= j < m
      ensures Sum(p, r => f(j * p + r)) == Sum(p, r => g(j, r))
    {
      SumCong(p, r => f(j * p + r), r => g(j, r));
    }
    SumCong(m, j => Sum(p, r => f(j * p + r)), j => Sum(p, r => g(j, r)));
    SumSwap(m, p, g);
    var viaG, direct := (r: int) => Sum(m, j => g(j, r)), (r: int) => Sum(m, j => f(j * p + r));
    forall r | 0 <= r < p
      ensures viaG(r) == direct(r)
    {
      SumCong(m, j => g(j, r), j => f(j * p + r));
    }
    SumCong(p, viaG, direct);
  }

  lemma SumOfResidues(p: nat, m: nat, f: int -> Cpx, g: int -> Cpx)
    requires forall r {:trigger g(r)} :: 0 <= r < p ==> Sum(m, j => f(j * p + r)) == g(r)
    ensures Sum(p * m, f) == Sum(p, g)
  {
    SumByResidue(p, m, f);
    assert p * m == m * p;
    hide Add, Sum;
    SumCong(p, r => Sum(m, j => f(j * p + r)), g);
  }

  lemma {:induction false} SumExtend(a: nat, b: nat, f: int -> Cpx)
    ensures Sum(a + b, f) == Add(Sum(a, f), Sum(b, r => f(a + r)))
  {
    var g := (r: int) => f(a + r);
    if b > 0 {
      SumExtend(a, b - 1, f);
      SumCong(b - 1, r => f(a + r), g);
      SumCong(b, r => f(a + r), g);
    }
  }

  lemma SmallSums(f: int -> Cpx)
    ensures Sum(1, f) == f(0)
    ensures Sum(2, f) == Add(f(0), f(1))
    ensures Sum(3, f) == Add(Add(f(0), f(1)), f(2))
    ensures Sum(4, f) == Add(Add(Add(f(0), f(1)), f(2)), f(3))
    ensures Sum(5, f) == Add(Add(Add(Add(f(0), f(1)), f(2)), f(3)), f(4))
  {
    assert Sum(1, f) == Add(Zero, f(0));
    assert Sum(2, f) == Add(Sum(1, f), f(1));
    assert Sum(3, f) == Add(Sum(2, f), f(2));
    assert Sum(4, f) == Add(Sum(3, f), f(3));
    assert Sum(5, f) == Add(Sum(4, f), f(4));
  }

  /** An element, or zero behind either end. */
  ghost function At(a: seq<Cpx>, i: int): Cpx
  {
    if 0 <= i < |a| then a[i] else Zero
  }
}
