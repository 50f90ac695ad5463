/** The 2-, 3-, 4- and 5-point combinations of kiss_fft.c are transforms with the roots of unity of the table. */
module RadixAlgebra {
  import opened Complex
  import opened Reals
  import opened Twiddle
  import Arith

  // ---- the combinations as the code computes them ----

  function Out3(e: real, c0: Cpx, c1: Cpx, c2: Cpx): (Cpx, Cpx, Cpx)
  {
    var s3, s0 := Add(c1, c2), Scale(e, Sub(c1, c2));
    var mid := Sub(c0, Scale(0.5, s3));
    (Add(c0, s3), Cpx(mid.r - s0.i, mid.i + s0.r), Cpx(mid.r + s0.i, mid.i - s0.r))
  }

  function Out4(c0: Cpx, c1: Cpx, c2: Cpx, c3: Cpx): (Cpx, Cpx, Cpx, Cpx)
  {
    var s5, s0, s3, s4 := Sub(c0, c2), Add(c0, c2), Add(c1, c3), Sub(c1, c3);
    (Add(s0, s3), Cpx(s5.r + s4.i, s5.i - s4.r), Sub(s0, s3), Cpx(s5.r - s4.i, s5.i + s4.r))
  }

  // scratch[5] and scratch[11], scratch[6], scratch[12] of kf_bfly5
  function Mid5(c0: Cpx, s7: Cpx, s8: Cpx, x: real, y: real): Cpx
  {
    Cpx(c0.r + (SMul(s7.r, x) + SMul(s8.r, y)), c0.i + (SMul(s7.i, x) + SMul(s8.i, y)))
  }

  function Cross6(s10: Cpx, s9: Cpx, x: real, y: real): Cpx
  {
    Cpx(SMul(s10.i, x) + SMul(s9.i, y), -(SMul(s10.r, x) + SMul(s9.r, y)))
  }

  function Cross12(s10: Cpx, s9: Cpx, x: real, y: real): Cpx
  {
    Cpx(SMul(s9.i, x) - SMul(s10.i, y), SMul(s10.r, y) - SMul(s9.r, x))
  }

  function Out5(ya: Cpx, yb: Cpx, c0: Cpx, c1: Cpx, c2: Cpx, c3: Cpx, c4: Cpx): (Cpx, Cpx, Cpx, Cpx, Cpx)
  {
    var s7, s10, s8, s9 := Add(c1, c4), Sub(c1, c4), Add(c2, c3), Sub(c2, c3);
    var s5, s6 := Mid5(c0, s7, s8, ya.r, yb.r), Cross6(s10, s9, ya.i, yb.i);
    var s11, s12 := Mid5(c0, s7, s8, yb.r, ya.r), Cross12(s10, s9, ya.i, yb.i);
    (Add(c0, Add(s7, s8)), Sub(s5, s6), Add(s11, s12), Sub(s11, s12), Add(s5, s6))
  }

  // ---- ... are the p-point transforms of the roots of unity ----

  lemma Algebra3(w: Cpx, c0: Cpx, c1: Cpx, c2: Cpx)
    requires w.r == -0.5
    ensures Out3(w.i, c0, c1, c2).0 == Add(Add(Mul(c0, One), Mul(c1, One)), Mul(c2, One))
    ensures Out3(w.i, c0, c1, c2).1 == Add(Add(Mul(c0, One), Mul(c1, w)), Mul(c2, Conj(w)))
    ensures Out3(w.i, c0, c1, c2).2 == Add(Add(Mul(c0, One), Mul(c1, Conj(w))), Mul(c2, w))
  {
    hide SMul;
    SMulUnit(c0.r);
    SMulUnit(c0.i);
    SMulUnit(c1.r);
    SMulUnit(c1.i);
    SMulUnit(c2.r);
    SMulUnit(c2.i);
    SMulUnit(c1.r + c2.r);
    SMulUnit(c1.i + c2.i);
    SMulLinear(c1.r, c2.r, w.i);
    SMulLinear(c1.i, c2.i, w.i);
    SMulSign(c1.r, w.i);
    SMulSign(c1.i, w.i);
    SMulSign(c2.r, w.i);
    SMulSign(c2.i, w.i);
  }

  lemma Algebra4(c0: Cpx, c1: Cpx, c2: Cpx, c3: Cpx)
    ensures Out4(c0, c1, c2, c3).0 == Add(Add(Add(Mul(c0, One), Mul(c1, One)), Mul(c2, One)), Mul(c3, One))
    ensures Out4(c0, c1, c2, c3).1
         == Add(Add(Add(Mul(c0, One), Mul(c1, Cpx(0.0, -1.0))), Mul(c2, Cpx(-1.0, 0.0))), Mul(c3, Cpx(0.0, 1.0)))
    ensures Out4(c0, c1, c2, c3).2
         == Add(Add(Add(Mul(c0, One), Mul(c1, Cpx(-1.0, 0.0))), Mul(c2, One)), Mul(c3, Cpx(-1.0, 0.0)))
    ensures Out4(c0, c1, c2, c3).3
         == Add(Add(Add(Mul(c0, One), Mul(c1, Cpx(0.0, 1.0))), Mul(c2, Cpx(-1.0, 0.0))), Mul(c3, Cpx(0.0, -1.0)))
  {
    hide SMul;
    SMulUnit(c0.r);
    SMulUnit(c0.i);
    SMulUnit(c1.r);
    SMulUnit(c1.i);
    SMulUnit(c2.r);
    SMulUnit(c2.i);
    SMulUnit(c3.r);
    SMulUnit(c3.i);
  }

  ghost function Turn(s: Cpx, d: Cpx, a: Cpx): Cpx
  {
    Cpx(SMul(s.r, a.r) - SMul(d.i, a.i), SMul(s.i, a.r) + SMul(d.r, a.i))
  }

  ghost function TurnBack(s: Cpx, d: Cpx, a: Cpx): Cpx
  {
    Cpx(SMul(s.r, a.r) + SMul(d.i, a.i), SMul(s.i, a.r) - SMul(d.r, a.i))
  }

  lemma ConjPair(x: Cpx, y: Cpx, a: Cpx)
    ensures Add(Mul(x, a), Mul(y, Conj(a))) == Turn(Add(x, y), Sub(x, y), a)
  {
    hide SMul;
    SMulLinear(x.r, y.r, a.r);
    SMulLinear(x.i, y.i, a.i);
    SMulLinear(x.i, y.i, a.r);
    SMulLinear(x.r, y.r, a.i);
    SMulSign(y.i, a.i);
    SMulSign(y.r, a.i);
  }

  lemma ConjPair'(x: Cpx, y: Cpx, a: Cpx)
    ensures Add(Mul(x, Conj(a)), Mul(y, a)) == TurnBack(Add(x, y), Sub(x, y), a)
  {
    hide Mul, Add, Sub, SMul;
    ConjPair(x, y, Conj(a));
    assert Conj(Conj(a)) == a;
    SMulSign(Sub(x, y).i, a.i);
    SMulSign(Sub(x, y).r, a.i);
  }

  lemma Cross1(c0: Cpx, s7: Cpx, s8: Cpx, s10: Cpx, s9: Cpx, a: Cpx, b: Cpx)
    ensures Sub(Mid5(c0, s7, s8, a.r, b.r), Cross6(s10, s9, a.i, b.i))
         == Add(Add(c0, Turn(s7, s10, a)), Turn(s8, s9, b))
  {
    hide SMul;
  }

  lemma Cross4(c0: Cpx, s7: Cpx, s8: Cpx, s10: Cpx, s9: Cpx, a: Cpx, b: Cpx)
    ensures Add(Mid5(c0, s7, s8, a.r, b.r), Cross6(s10, s9, a.i, b.i))
         == Add(Add(c0, TurnBack(s7, s10, a)), TurnBack(s8, s9, b))
  {
    hide SMul;
  }

  lemma Cross2(c0: Cpx, s7: Cpx, s8: Cpx, s10: Cpx, s9: Cpx, a: Cpx, b: Cpx)
    ensures Add(Mid5(c0, s7, s8, b.r, a.r), Cross12(s10, s9, a.i, b.i))
         == Add(Add(c0, Turn(s7, s10, b)), TurnBack(s8, s9, a))
  {
    hide SMul;
  }

  lemma Cross3(c0: Cpx, s7: Cpx, s8: Cpx, s10: Cpx, s9: Cpx, a: Cpx, b: Cpx)
    ensures Sub(Mid5(c0, s7, s8, b.r, a.r), Cross12(s10, s9, a.i, b.i))
         == Add(Add(c0, TurnBack(s7, s10, b)), Turn(s8, s9, a))
  {
    hide SMul;
  }

  /** Out5 in the order of the assignments of kf_bfly5. */
  lemma Out5Steps(ya: Cpx, yb: Cpx, c0: Cpx, c1: Cpx, c2: Cpx, c3: Cpx, c4: Cpx)
    ensures
      var s7, s10, s8, s9 := Add(c1, c4), Sub(c1, c4), Add(c2, c3), Sub(c2, c3);
      var s5, s6 := Mid5(c0, s7, s8, ya.r, yb.r), Cross6(s10, s9, ya.i, yb.i);
      var s11, s12 := Mid5(c0, s7, s8, yb.r, ya.r), Cross12(s10, s9, ya.i, yb.i);
      Out5(ya, yb, c0, c1, c2, c3, c4)
      == (Add(c0, Add(s7, s8)), Sub(s5, s6), Add(s11, s12), Sub(s11, s12), Add(s5, s6))
  {
    hide Add, Sub, Mid5, Cross6, Cross12;
  }

  /** Each output of Out5 but the first, as c0 and the products paired by conjugate twiddles. */
  lemma Algebra5(a: Cpx, b: Cpx, c0: Cpx, c1: Cpx, c2: Cpx, c3: Cpx, c4: Cpx)
    ensures var y := Out5(a, b, c0, c1, c2, c3, c4);
      && y.1 == Add(Add(c0, Add(Mul(c1, a), Mul(c4, Conj(a)))), Add(Mul(c2, b), Mul(c3, Conj(b))))
      && y.2 == Add(Add(c0, Add(Mul(c1, b), Mul(c4, Conj(b)))), Add(Mul(c2, Conj(a)), Mul(c3, a)))
      && y.3 == Add(Add(c0, Add(Mul(c1, Conj(b)), Mul(c4, b))), Add(Mul(c2, a), Mul(c3, Conj(a))))
      && y.4 == Add(Add(c0, Add(Mul(c1, Conj(a)), Mul(c4, a))), Add(Mul(c2, Conj(b)), Mul(c3, b)))
  {
    hide *;
    ConjPair(c1, c4, a);
    ConjPair(c1, c4, b);
    ConjPair(c2, c3, a);
    ConjPair(c2, c3, b);
    ConjPair'(c1, c4, a);
    ConjPair'(c1, c4, b);
    ConjPair'(c2, c3, a);
    ConjPair'(c2, c3, b);
    var s7, s8, s10, s9 := Add(c1, c4), Add(c2, c3), Sub(c1, c4), Sub(c2, c3);
    Out5Steps(a, b, c0, c1, c2, c3, c4);
    Cross1(c0, s7, s8, s10, s9, a, b);
    Cross2(c0, s7, s8, s10, s9, a, b);
    Cross3(c0, s7, s8, s10, s9, a, b);
    Cross4(c0, s7, s8, s10, s9, a, b);
  }

  lemma Algebra5Sum(a: Cpx, b: Cpx, c0: Cpx, c1: Cpx, c2: Cpx, c3: Cpx, c4: Cpx)
    ensures Out5(a, b, c0, c1, c2, c3, c4).0 == Add(Add(Add(Add(c0, c1), c2), c3), c4)
  {
    hide Mul, Mid5, Cross6, Cross12;
  }

  lemma Regroup5(c0: Cpx, p1: Cpx, p2: Cpx, p3: Cpx, p4: Cpx)
    ensures Add(Add(c0, Add(p1, p4)), Add(p2, p3)) == Add(Add(Add(Add(c0, p1), p2), p3), p4)
  {
  }

  /** The j-th power of the p-th root of unity W(q), p q being the order. */
  function Root(t: seq<Cpx>, q: int, j: int): Cpx
    requires |t| > 0
  {
    W(t, j * q)
  }

  lemma RootCycle(t: seq<Cpx>, c: real, q: int, p: int, j: int)
    requires IsTwiddleTable(t, c) && p * q == |t|
    ensures Root(t, q, 0) == One
    ensures Conj(Root(t, q, j)) == Root(t, q, p - j)
    ensures Root(t, q, j + p) == Root(t, q, j)
  {
    hide Conj, Mul;
    WConj(t, c, j * q);
    WPeriod(t, -(j * q), 1);
    WPeriod(t, j * q, 1);
    hide IsTwiddleTable, W;
    CycleExponents(q, p, j, |t|);
    UnitRoot(t, c);
  }

  lemma CycleExponents(q: int, p: int, j: int, n: int)
    requires p * q == n
    ensures (p - j) * q == -(j * q) + 1 * n && (j + p) * q == j * q + 1 * n
  {
  }

  lemma SmallExponent(q: int, p: nat, n: int)
    requires p * q == n && p >= 2 && n > 0
    ensures q % n != 0 && n % n == 0
  {
    assert 0 < q < n;
    Arith.DivModUnique(q, n, 0, q);
  }

  lemma RootSum(t: seq<Cpx>, c: real, q: int, p: nat)
    requires IsTwiddleTable(t, c) && p * q == |t| && p >= 2
    ensures Sum(p, j => Root(t, q, j)) == Zero
  {
    hide IsTwiddleTable, W, Sum, Mul;
    NotEmpty(t, c);
    SmallExponent(q, p, |t|);
    GeometricSum(t, c, p, q);
    SumCong(p, j => Root(t, q, j), k => W(t, k * q));
  }

  lemma Roots2(t: seq<Cpx>, c: real, q: int)
    requires IsTwiddleTable(t, c) && 2 * q == |t|
    ensures Root(t, q, 0) == One && Root(t, q, 1) == Cpx(-1.0, 0.0)
  {
    hide *;
    NotEmpty(t, c);
    RootCycle(t, c, q, 2, 0);
    RootSum(t, c, q, 2);
    SmallSums(j => Root(t, q, j));
    SquareRoot(Root(t, q, 1));
  }

  lemma SquareRoot(w: Cpx)
    ensures Add(One, w) == Zero ==> w == Cpx(-1.0, 0.0)
  {
  }

  lemma Roots3(t: seq<Cpx>, c: real, q: int)
    requires IsTwiddleTable(t, c) && 3 * q == |t|
    ensures Root(t, q, 0) == One && Root(t, q, 1).r == -0.5
    ensures Root(t, q, 2) == Conj(Root(t, q, 1)) && Root(t, q, 4) == Root(t, q, 1)
  {
    hide *;
    NotEmpty(t, c);
    RootCycle(t, c, q, 3, 0);
    RootCycle(t, c, q, 3, 1);
    RootSum(t, c, q, 3);
    SmallSums(j => Root(t, q, j));
    CubeRoot(Root(t, q, 1));
  }

  lemma CubeRoot(w: Cpx)
    ensures Add(Add(One, w), Conj(w)) == Zero ==> w.r == -0.5
  {
    hide Mul;
  }

  lemma Roots4(t: seq<Cpx>, c: real, q: int)
    requires IsTwiddleTable(t, c) && 4 * q == |t|
    ensures Root(t, q, 0) == One && Root(t, q, 1) == Cpx(0.0, -1.0)
    ensures Root(t, q, 2) == Cpx(-1.0, 0.0) && Root(t, q, 3) == Cpx(0.0, 1.0)
    ensures Root(t, q, 4) == One && Root(t, q, 6) == Cpx(-1.0, 0.0) && Root(t, q, 9) == Cpx(0.0, -1.0)
  {
    hide *;
    NotEmpty(t, c);
    QuarterRoot(t, c, q);
    RootCycle(t, c, q, 4, 0);
    RootCycle(t, c, q, 4, 1);
    RootCycle(t, c, q, 4, 2);
    RootCycle(t, c, q, 4, 5);
    ConjOfMinusI();
  }

  lemma ConjOfMinusI()
    ensures Conj(Cpx(0.0, -1.0)) == Cpx(0.0, 1.0)
  {
  }

  lemma QuarterRoot(t: seq<Cpx>, c: real, q: int)
    requires IsTwiddleTable(t, c) && 4 * q == |t|
    ensures Root(t, q, 1) == Cpx(0.0, -1.0) && Root(t, q, 2) == Cpx(-1.0, 0.0)
  {
    hide *;
    NotEmpty(t, c);
    Roots2(t, c, 2 * q);
    QuarterEntry(t, c, q);
  }

  lemma QuarterEntry(t: seq<Cpx>, c: real, q: int)
    requires IsTwiddleTable(t, c) && 4 * q == |t|
    ensures Root(t, q, 1) == Cpx(0.0, -1.0) && Root(t, q, 2) == Root(t, 2 * q, 1)
  {
    hide Mul, Conj;
    var n := |t|;
    assert n % 4 == 0 && n / 4 == q;
    Arith.DivModUnique(q, n, 0, q);
  }

  lemma Roots5(t: seq<Cpx>, c: real, q: int)
    requires IsTwiddleTable(t, c) && 5 * q == |t|
    ensures Root(t, q, 0) == One
    ensures Root(t, q, 3) == Conj(Root(t, q, 2)) && Root(t, q, 4) == Conj(Root(t, q, 1))
    ensures Root(t, q, 6) == Root(t, q, 1) && Root(t, q, 8) == Root(t, q, 3)
    ensures Root(t, q, 9) == Root(t, q, 4) && Root(t, q, 12) == Root(t, q, 2) && Root(t, q, 16) == Root(t, q, 1)
  {
    hide *;
    RootCycle(t, c, q, 5, 0);
    RootCycle(t, c, q, 5, 1);
    RootCycle(t, c, q, 5, 2);
    RootCycle(t, c, q, 5, 3);
    RootCycle(t, c, q, 5, 4);
    RootCycle(t, c, q, 5, 6);
    RootCycle(t, c, q, 5, 7);
    RootCycle(t, c, q, 5, 11);
  }

  /** The p-point transform of c0, c1, ... with root W(q). */
  ghost function Point(t: seq<Cpx>, q: int, p: nat, cs: seq<Cpx>, u: int): Cpx
    requires |t| > 0
  {
    Sum(p, r => Mul(At(cs, r), Root(t, q, r * u)))
  }

  lemma PointTerms(t: seq<Cpx>, q: int, cs: seq<Cpx>, u: int)
    requires |t| > 0
    ensures |cs| == 2 ==> Point(t, q, 2, cs, u) == Add(Mul(cs[0], Root(t, q, 0)), Mul(cs[1], Root(t, q, u)))
    ensures |cs| == 3 ==>
      Point(t, q, 3, cs, u)
      == Add(Add(Mul(cs[0], Root(t, q, 0)), Mul(cs[1], Root(t, q, u))), Mul(cs[2], Root(t, q, 2 * u)))
    ensures |cs| == 4 ==>
      Point(t, q, 4, cs, u) ==
      Add(Add(Add(Mul(cs[0], Root(t, q, 0)), Mul(cs[1], Root(t, q, u))), Mul(cs[2], Root(t, q, 2 * u))),
          Mul(cs[3], Root(t, q, 3 * u)))
    ensures |cs| == 5 ==>
      Point(t, q, 5, cs, u) ==
      Add(Add(Add(Add(Mul(cs[0], Root(t, q, 0)), Mul(cs[1], Root(t, q, u))), Mul(cs[2], Root(t, q, 2 * u))),
              Mul(cs[3], Root(t, q, 3 * u))), Mul(cs[4], Root(t, q, 4 * u)))
  {
    hide Sum, Mul, Add, Root;
    SmallSums(r => Mul(At(cs, r), Root(t, q, r * u)));
  }

  lemma Point2(t: seq<Cpx>, c: real, q: int, cs: seq<Cpx>)
    requires IsTwiddleTable(t, c) && 2 * q == |t| && |cs| == 2
    ensures Point(t, q, 2, cs, 0) == Add(cs[0], cs[1])
    ensures Point(t, q, 2, cs, 1) == Sub(cs[0], cs[1])
  {
    hide *;
    NotEmpty(t, c);
    Roots2(t, c, q);
    PointTerms(t, q, cs, 0);
    PointTerms(t, q, cs, 1);
    MulOne(cs[0]);
    MulOne(cs[1]);
    MulMinusOne(cs[0], cs[1]);
  }

  lemma MulMinusOne(a: Cpx, b: Cpx)
    ensures Add(a, Mul(b, Cpx(-1.0, 0.0))) == Sub(a, b)
  {
    hide SMul;
    SMulUnit(b.r);
    SMulUnit(b.i);
  }

  lemma Point3(t: seq<Cpx>, c: real, q: int, cs: seq<Cpx>)
    requires IsTwiddleTable(t, c) && 3 * q == |t| && |cs| == 3
    ensures var y := Out3(Root(t, q, 1).i, cs[0], cs[1], cs[2]);
      y.0 == Point(t, q, 3, cs, 0) && y.1 == Point(t, q, 3, cs, 1) && y.2 == Point(t, q, 3, cs, 2)
  {
    hide *;
    NotEmpty(t, c);
    Roots3(t, c, q);
    PointTerms(t, q, cs, 0);
    PointTerms(t, q, cs, 1);
    PointTerms(t, q, cs, 2);
    Algebra3(Root(t, q, 1), cs[0], cs[1], cs[2]);
  }

  lemma Point4(t: seq<Cpx>, c: real, q: int, cs: seq<Cpx>)
    requires IsTwiddleTable(t, c) && 4 * q == |t| && |cs| == 4
    ensures var y := Out4(cs[0], cs[1], cs[2], cs[3]);
      y.0 == Point(t, q, 4, cs, 0) && y.1 == Point(t, q, 4, cs, 1) && y.2 == Point(t, q, 4, cs, 2)
      && y.3 == Point(t, q, 4, cs, 3)
  {
    hide *;
    NotEmpty(t, c);
    Roots4(t, c, q);
    PointTerms(t, q, cs, 0);
    PointTerms(t, q, cs, 1);
    PointTerms(t, q, cs, 2);
    PointTerms(t, q, cs, 3);
    Algebra4(cs[0], cs[1], cs[2], cs[3]);
  }

  lemma Point5(t: seq<Cpx>, c: real, q: int, cs: seq<Cpx>)
    requires IsTwiddleTable(t, c) && 5 * q == |t| && |cs| == 5
    ensures var y := Out5(Root(t, q, 1), Root(t, q, 2), cs[0], cs[1], cs[2], cs[3], cs[4]);
      y.0 == Point(t, q, 5, cs, 0) && y.1 == Point(t, q, 5, cs, 1) && y.2 == Point(t, q, 5, cs, 2)
      && y.3 == Point(t, q, 5, cs, 3) && y.4 == Point(t, q, 5, cs, 4)
  {
    hide *;
    NotEmpty(t, c);
    Roots5(t, c, q);
    PointTerms(t, q, cs, 0);
    PointTerms(t, q, cs, 1);
    PointTerms(t, q, cs, 2);
    PointTerms(t, q, cs, 3);
    PointTerms(t, q, cs, 4);
    var a, b := Root(t, q, 1), Root(t, q, 2);
    var c0, c1, c2, c3, c4 := cs[0], cs[1], cs[2], cs[3], cs[4];
    Algebra5(a, b, c0, c1, c2, c3, c4);
    Algebra5Sum(a, b, c0, c1, c2, c3, c4);
    MulOne(c0);
    MulOne(c1);
    MulOne(c2);
    MulOne(c3);
    MulOne(c4);
    Regroup5(c0, Mul(c1, a), Mul(c2, b), Mul(c3, Conj(b)), Mul(c4, Conj(a)));
    Regroup5(c0, Mul(c1, b), Mul(c2, Conj(a)), Mul(c3, a), Mul(c4, Conj(b)));
    Regroup5(c0, Mul(c1, Conj(b)), Mul(c2, a), Mul(c3, Conj(a)), Mul(c4, b));
    Regroup5(c0, Mul(c1, Conj(a)), Mul(c2, Conj(b)), Mul(c3, b), Mul(c4, a));
  }
}
