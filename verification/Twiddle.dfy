/** The twiddle table of kiss_fft.c, known only by the algebra of the roots of unity. */
module Twiddle {
  import opened Complex
  import opened Reals
  import Arith

  /** What compute_twiddles stores, entry i being exp(-2 pi i / n): the entries form a cyclic group
      of order n, the inverse is the conjugate, and entries n/4 and n/8 are -i and (c, -c). */
  ghost predicate IsTwiddleTable(t: seq<Cpx>, c: real)
  {
    && |t| > 0
    && t[0] == One
    && (forall i, j {:trigger Mul(t[i], t[j])} :: 0 <= i < |t| && 0 <= j < |t| ==> Mul(t[i], t[j]) == t[(i + j) % |t|])
    && (forall k :: 0 < k < |t| ==> t[k] != One)
    && (forall k {:trigger Conj(t[k])} :: 0 <= k < |t| ==> Conj(t[k]) == t[(-k) % |t|])
    && (|t| % 4 == 0 ==> t[|t| / 4] == Cpx(0.0, -1.0))
    && (|t| % 8 == 0 ==> t[|t| / 8] == Cpx(c, -c))
  }

  /** The table read periodically: the e-th power of the root. */
  function W(t: seq<Cpx>, e: int): Cpx
    requires |t| > 0
  {
    t[e % |t|]
  }

  lemma NotEmpty(t: seq<Cpx>, c: real)
    requires IsTwiddleTable(t, c)
    ensures |t| > 0
  {
  }

  lemma WAdd(t: seq<Cpx>, c: real, a: int, b: int)
    requires IsTwiddleTable(t, c)
    ensures Mul(W(t, a), W(t, b)) == W(t, a + b)
  {
    hide Mul;
    Arith.ModAdd(a, b, |t|);
    var i, j := a % |t|, b % |t|;
    assert Mul(t[i], t[j]) == t[(i + j) % |t|];
  }

  lemma WPeriod(t: seq<Cpx>, a: int, k: int)
    requires |t| > 0
    ensures W(t, a + k * |t|) == W(t, a)
  {
    Arith.ModShift(a, k, |t|);
  }

  lemma WConj(t: seq<Cpx>, c: real, a: int)
    requires IsTwiddleTable(t, c)
    ensures Conj(W(t, a)) == W(t, -a)
  {
    hide Conj;
    var k := a % |t|;
    assert Conj(t[k]) == t[(-k) % |t|];
    Arith.NegMod(a, |t|);
  }

  /** A geometric sum whose ratio is not 1 and whose last power is 1. */
  lemma GeometricSum(t: seq<Cpx>, c: real, count: nat, e: int)
    requires IsTwiddleTable(t, c)
    requires e % |t| != 0 && (count * e) % |t| == 0
    ensures Sum(count, k => W(t, k * e)) == Zero
  {
    assert W(t, e) != One by {
      hide Mul, Sum;
    }
    hide *;
    var f := (k: int) => W(t, k * e);
    var s := Sum(count, f);
    MulComm(W(t, e), s);
    SumMul(count, f, W(t, e));
    SumCong(count, k => Mul(f(k), W(t, e)), k => Mul(W(t, k * e), W(t, e)));
    Telescope(t, c, count, e);
    NoZeroDivisor(W(t, e), s);
  }

  lemma Ends(t: seq<Cpx>, c: real, count: nat, e: int)
    requires IsTwiddleTable(t, c) && (count * e) % |t| == 0
    ensures |t| > 0 && W(t, 0 * e) == One && W(t, count * e) == One
  {
    hide Mul, Conj;
  }

  lemma NextPower(t: seq<Cpx>, c: real, k: int, e: int)
    requires IsTwiddleTable(t, c)
    ensures |t| > 0 && Mul(W(t, k * e), W(t, e)) == W(t, (k + 1) * e)
  {
    hide *;
    NotEmpty(t, c);
    WAdd(t, c, k * e, e);
    Arith.Next(k, e);
  }

  lemma Telescope(t: seq<Cpx>, c: real, count: nat, e: int)
    requires IsTwiddleTable(t, c)
    requires (count * e) % |t| == 0
    ensures Sum(count, k => Mul(W(t, k * e), W(t, e))) == Sum(count, k => W(t, k * e))
  {
    hide *;
    Ends(t, c, count, e);
    var f := (k: int) => W(t, k * e);
    var g := (k: int) => W(t, (k + 1) * e);
    forall k | 0 <= k < count
      ensures Mul(W(t, k * e), W(t, e)) == g(k)
    {
      NextPower(t, c, k, e);
    }
    SumCong(count, k => Mul(W(t, k * e), W(t, e)), g);
    ShiftedSum(count, f, g);
    AddCancel(Sum(count, g), Sum(count, f), One);
    SumCong(count, f, k => W(t, k * e));
  }

  lemma AddCancel(a: Cpx, b: Cpx, c: Cpx)
    requires Add(a, c) == Add(b, c)
    ensures a == b
  {
  }

  lemma {:induction false} ShiftedSum(count: nat, f: int -> Cpx, g: int -> Cpx)
    requires forall k :: 0 <= k < count ==> g(k) == f(k + 1)
    ensures Add(Sum(count, g), f(0)) == Add(Sum(count, f), f(count))
  {
    if count > 0 {
      ShiftedSum(count - 1, f, g);
    }
  }

  /** Orthogonality of the characters. */
  lemma Orthogonal(t: seq<Cpx>, c: real, e: int)
    requires IsTwiddleTable(t, c)
    ensures Sum(|t|, k => W(t, k * e)) == if e % |t| == 0 then Cpx(|t| as real, 0.0) else Zero
  {
    if e % |t| == 0 {
      forall k | 0 <= k < |t|
        ensures W(t, k * e) == One
      {
        assert k * e == 0 + (k * (e / |t|)) * |t|;
        WPeriod(t, 0, k * (e / |t|));
      }
      SumOnes(|t|, k => W(t, k * e));
    } else {
      Arith.ModShift(0, e, |t|);
      assert |t| * e == 0 + e * |t|;
      GeometricSum(t, c, |t|, e);
    }
  }

  lemma {:induction false} SumOnes(n: nat, f: int -> Cpx)
    requires forall j :: 0 <= j < n ==> f(j) == One
    ensures Sum(n, f) == Cpx(n as real, 0.0)
  {
    if n > 0 {
      SumOnes(n - 1, f);
    }
  }

  /** The four-point table. */
  function Quarter(i: int): Cpx
  {
    if i == 0 then One else if i == 1 then Cpx(0.0, -1.0) else if i == 2 then Cpx(-1.0, 0.0) else Cpx(0.0, 1.0)
  }

  lemma QuarterProduct(i: int, z: Cpx)
    ensures i == 0 ==> Mul(Quarter(i), z) == z
    ensures i == 1 ==> Mul(Quarter(i), z) == Cpx(z.i, -z.r)
    ensures i == 2 ==> Mul(Quarter(i), z) == Cpx(-z.r, -z.i)
    ensures i == 3 ==> Mul(Quarter(i), z) == Cpx(-z.i, z.r)
  {
    hide SMul;
    SMulUnit(z.r);
    SMulUnit(z.i);
    SMulSign(-1.0, z.r);
    SMulSign(-1.0, z.i);
  }

  lemma QuarterShift(i: int, j: int, s: int)
    requires 0 <= i < 4 && 0 <= j < 4 && s == if i + j >= 4 then i + j - 4 else i + j
    ensures Mul(Quarter(i), Quarter(j)) == Quarter(s)
  {
    hide Mul;
    QuarterProduct(i, Quarter(j));
  }

  lemma QuarterTurns(i: int, j: int)
    requires 0 <= i < 4 && 0 <= j < 4
    ensures Mul(Quarter(i), Quarter(j)) == Quarter((i + j) % 4)
    ensures Conj(Quarter(i)) == Quarter((-i) % 4) && (i != 0 ==> Quarter(i) != One)
  {
    hide Mul;
    Arith.DivModUnique(i + j, 4, if i + j >= 4 then 1 else 0, if i + j >= 4 then i + j - 4 else i + j);
    Arith.DivModUnique(-i, 4, if i == 0 then 0 else -1, if i == 0 then 0 else 4 - i);
    QuarterShift(i, j, (i + j) % 4);
  }

  /** Such tables exist: the four-point one. */
  lemma FourPoint()
    ensures IsTwiddleTable([Quarter(0), Quarter(1), Quarter(2), Quarter(3)], 0.0)
  {
    hide Mul, Conj;
    var t := [Quarter(0), Quarter(1), Quarter(2), Quarter(3)];
    forall i | 0 <= i < 4
      ensures t[i] == Quarter(i)
    {
    }
    forall i, j | 0 <= i < 4 && 0 <= j < 4
      ensures Mul(t[i], t[j]) == t[(i + j) % 4]
    {
      QuarterTurns(i, j);
    }
    forall i | 0 <= i < 4
      ensures Conj(t[i]) == t[(-i) % 4] && (i != 0 ==> t[i] != One)
    {
      QuarterTurns(i, 0);
    }
  }

  lemma UnitRoot(t: seq<Cpx>, c: real)
    requires IsTwiddleTable(t, c)
    ensures |t| > 0 && W(t, 0) == One
  {
  }
}
