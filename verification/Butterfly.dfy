/** kf_bfly2, kf_bfly3, kf_bfly4 and kf_bfly5: the in-place stages of the transform. */
module Butterfly {
  import opened Complex
  import opened Reals
  import opened Twiddle
  import opened CooleyTukey
  import opened RadixAlgebra
  import Arith

  /** Element r of column k of the block at o, with its twiddle. */
  ghost function Col(t: seq<Cpx>, s: int, m: int, a: seq<Cpx>, o: int, k: int, r: int): Cpx
    requires |t| > 0
  {
    Mul(At(a, o + r * m + k), W(t, r * k * s))
  }

  lemma RadixIsPoint(t: seq<Cpx>, s: int, p: nat, m: int, a: seq<Cpx>, o: int, k: int, u: int, cs: seq<Cpx>)
    requires |t| > 0 && |cs| == p
    requires forall r :: 0 <= r < p ==> cs[r] == Col(t, s, m, a, o, k, r)
    ensures Radix(t, s, p, m, a, o, k, u) == Point(t, m * s, p, cs, u)
  {
    hide Mul, Sum, W;
    forall r | 0 <= r < p
      ensures Part(t, s, m, a, o, k, u, r) == Mul(At(cs, r), Root(t, m * s, r * u))
    {
      assert cs[r] == Col(t, s, m, a, o, k, r);
    }
    hide Root, At, Part, Radix, Col, Point;
    RadixParts(t, s, p, m, a, o, k, u);
    PointSum(t, m * s, p, cs, u);
    SumCong(p, r => Part(t, s, m, a, o, k, u, r), r => Mul(At(cs, r), Root(t, m * s, r * u)));
  }

  lemma PointSum(t: seq<Cpx>, q: int, p: nat, cs: seq<Cpx>, u: int)
    requires |t| > 0
    ensures Point(t, q, p, cs, u) == Sum(p, r => Mul(At(cs, r), Root(t, q, r * u)))
  {
  }

  /** The block at o has been combined and nothing else has changed. */
  ghost predicate BlockDone(t: seq<Cpx>, s: int, p: nat, m: int, o: int, before: seq<Cpx>, after: seq<Cpx>)
    requires |t| > 0
  {
    && |before| == |after|
    && (forall x :: 0 <= x < |after| && (x < o || o + p * m <= x) ==> after[x] == before[x])
    && (forall u, k :: 0 <= u < p && 0 <= k < m ==> At(after, o + u * m + k) == Radix(t, s, p, m, before, o, k, u))
  }

  /** The first i blocks have been combined, the rest is untouched. */
  ghost predicate StageUpTo(t: seq<Cpx>, s: int, p: nat, m: int, i: int, before: seq<Cpx>, after: seq<Cpx>)
    requires |t| > 0
  {
    && |before| == |after|
    && (forall x :: 0 <= x < |after| && i * (p * m) <= x ==> after[x] == before[x])
    && (forall b, u, k :: 0 <= b < i && 0 <= u < p && 0 <= k < m ==>
          At(after, b * (p * m) + u * m + k) == Radix(t, s, p, m, before, b * (p * m), k, u))
  }

  lemma StageStart(t: seq<Cpx>, s: int, p: nat, m: int, before: seq<Cpx>)
    requires |t| > 0
    ensures StageUpTo(t, s, p, m, 0, before, before)
  {
  }

  lemma InBlock(p: int, m: int, u: int, k: int)
    requires 0 <= u < p && 0 <= k < m
    ensures 0 <= u * m + k < p * m && 0 <= u * m
  {
    Arith.MulLe(u, p - 1, m);
    assert (p - 1) * m == p * m - m;
  }

  lemma BlockFits(i: int, count: int, size: int)
    requires 0 <= i < count && size >= 0
    ensures 0 <= i * size && i * size + size <= count * size && (i + 1) * size == i * size + size
  {
    Arith.MulLe(i + 1, count, size);
  }

  lemma EarlierBlock(b: int, i: int, p: int, m: int, u: int, k: int)
    requires 0 <= b < i && 0 <= u < p && 0 <= k < m
    ensures 0 <= b * (p * m) + u * m + k < i * (p * m)
  {
    InBlock(p, m, u, k);
    BlockFits(b, i, p * m);
  }

  lemma RadixReads(t: seq<Cpx>, s: int, p: nat, m: int, a: seq<Cpx>, a': seq<Cpx>, o: int, k: int, u: int)
    requires |t| > 0
    requires |a| == |a'| && 0 <= o && 0 <= k < m
    requires forall x :: o <= x < |a| ==> a[x] == a'[x]
    ensures Radix(t, s, p, m, a, o, k, u) == Radix(t, s, p, m, a', o, k, u)
  {
    hide Mul, Sum, W, Radix;
    forall r | 0 <= r < p
      ensures Part(t, s, m, a, o, k, u, r) == Part(t, s, m, a', o, k, u, r)
    {
      assert r * m >= 0;
      assert At(a, o + r * m + k) == At(a', o + r * m + k);
    }
    RadixParts(t, s, p, m, a, o, k, u);
    RadixParts(t, s, p, m, a', o, k, u);
    hide Part;
    SumCong(p, r => Part(t, s, m, a, o, k, u, r), r => Part(t, s, m, a', o, k, u, r));
  }

  lemma StageStep(t: seq<Cpx>, s: int, p: nat, m: int, i: int, before: seq<Cpx>, mid: seq<Cpx>, after: seq<Cpx>)
    requires |t| > 0 && 0 <= i && m >= 1
    requires StageUpTo(t, s, p, m, i, before, mid)
    requires BlockDone(t, s, p, m, i * (p * m), mid, after)
    ensures StageUpTo(t, s, p, m, i + 1, before, after)
  {
    hide Radix;
    var size := p * m;
    assert (i + 1) * size == i * size + size && 0 <= i * size;
    forall b, u, k | 0 <= b < i + 1 && 0 <= u < p && 0 <= k < m
      ensures At(after, b * size + u * m + k) == Radix(t, s, p, m, before, b * size, k, u)
    {
      if b < i {
        EarlierBlock(b, i, p, m, u, k);
        assert At(mid, b * size + u * m + k) == Radix(t, s, p, m, before, b * size, k, u);
      } else {
        RadixReads(t, s, p, m, before, mid, i * size, k, u);
      }
    }
  }

  /** The twiddle addresses stay inside the table, and element 0 needs no twiddle. */
  lemma ColumnRead(t: seq<Cpx>, c: real, s: int, p: nat, m: int, a: seq<Cpx>, o: int, k: int, r: int)
    requires IsTwiddleTable(t, c) && s * (p * m) == |t| && 0 <= r < p && 0 <= k < m
    requires 0 <= o && o + p * m <= |a|
    ensures
      var e, x := r * k * s, o + r * m + k;
      0 <= e < |t| && 0 <= x < |a| && Col(t, s, m, a, o, k, r) == Mul(a[x], t[e])
    ensures 0 <= o + k < |a| && Col(t, s, m, a, o, k, 0) == a[o + k]
  {
    hide IsTwiddleTable, Mul, W, Col;
    NotEmpty(t, c);
    InBlock(p, m, r, k);
    InBlock(p, m, 0, k);
    TwiddleIndex(r, k, s, p, m, |t|);
    ColumnEntry(t, s, m, a, o, k, r);
    ColumnEntry(t, s, m, a, o, k, 0);
    UnitEntry(t, c);
    MulOne(a[o + k]);
  }

  lemma UnitEntry(t: seq<Cpx>, c: real)
    requires IsTwiddleTable(t, c)
    ensures |t| > 0 && t[0] == One
  {
  }

  lemma ColumnEntry(t: seq<Cpx>, s: int, m: int, a: seq<Cpx>, o: int, k: int, r: int)
    requires 0 <= r * k * s < |t| && 0 <= o + r * m + k < |a|
    ensures Col(t, s, m, a, o, k, r) == Mul(a[o + r * m + k], t[r * k * s])
  {
    hide Mul;
    Arith.DivModUnique(r * k * s, |t|, 0, r * k * s);
  }

  lemma TwiddleIndex(r: int, k: int, s: int, p: int, m: int, n: int)
    requires s * (p * m) == n && n > 0 && 0 <= r < p && 0 <= k < m
    ensures s >= 1 && 0 <= r * k * s < n
  {
    Arith.MulPos(p, m);
    assert s >= 1;
    RowColumn(r, k, p, m);
    Arith.MulLe(r * k + 1, p * m, s);
  }

  lemma RowColumn(r: int, k: int, p: int, m: int)
    requires 0 <= r < p && 0 <= k < m
    ensures 0 <= r * k < p * m
  {
    Arith.MulLe(r, p, k);
    Arith.MulLe(k + 1, m, p);
  }

  // ---- one block, column by column ----

  ghost predicate InColumn(p: nat, m: int, o: int, j: int, x: int)
    requires m >= 1
  {
    o <= x < o + p * m && (x - o) % m == j
  }

  /** Columns below j of the block at o have been combined and nothing else has changed. */
  ghost predicate BlockUpTo(t: seq<Cpx>, s: int, p: nat, m: int, o: int, j: int, before: seq<Cpx>, after: seq<Cpx>)
    requires |t| > 0
  {
    && |before| == |after|
    && (forall x :: 0 <= x < |after| && (x < o || o + p * m <= x) ==> after[x] == before[x])
    && (forall u, k :: 0 <= u < p && 0 <= k < j ==> At(after, o + u * m + k) == Radix(t, s, p, m, before, o, k, u))
    && (forall x :: o <= x < o + p * m && m >= 1 && (x - o) % m >= j ==> At(after, x) == At(before, x))
  }

  lemma ColumnIndex(p: nat, m: int, o: int, u: int, k: int)
    requires 0 <= u < p && 0 <= k < m
    ensures o <= o + u * m + k < o + p * m && (o + u * m + k - o) % m == k
  {
    InBlock(p, m, u, k);
    Arith.DivModUnique(u * m + k, m, u, k);
  }

  lemma BlockStart(t: seq<Cpx>, s: int, p: nat, m: int, o: int, before: seq<Cpx>)
    requires |t| > 0
    ensures BlockUpTo(t, s, p, m, o, 0, before, before)
  {
  }

  lemma BlockEnd(t: seq<Cpx>, s: int, p: nat, m: int, o: int, before: seq<Cpx>, after: seq<Cpx>)
    requires |t| > 0 && BlockUpTo(t, s, p, m, o, m, before, after)
    ensures BlockDone(t, s, p, m, o, before, after)
  {
    hide Radix;
  }

  /** Column j still holds its input. */
  lemma ColumnPending(t: seq<Cpx>, s: int, p: nat, m: int, o: int, j: int, before: seq<Cpx>, mid: seq<Cpx>, r: int)
    requires |t| > 0 && 0 <= j < m && 0 <= o && o + p * m <= |before| && 0 <= r < p
    requires BlockUpTo(t, s, p, m, o, j, before, mid)
    ensures |before| == |mid| && 0 <= o + r * m + j < |mid| && mid[o + r * m + j] == before[o + r * m + j]
  {
    hide Radix;
    ColumnIndex(p, m, o, r, j);
    assert At(mid, o + r * m + j) == At(before, o + r * m + j);
  }

  lemma ColumnStep(t: seq<Cpx>, s: int, p: nat, m: int, o: int, j: int, before: seq<Cpx>, mid: seq<Cpx>,
                   after: seq<Cpx>)
    requires |t| > 0 && 0 <= j < m && 0 <= o && o + p * m <= |before|
    requires BlockUpTo(t, s, p, m, o, j, before, mid)
    requires |after| == |mid|
    requires forall x :: 0 <= x < |mid| && !InColumn(p, m, o, j, x) ==> after[x] == mid[x]
    requires forall u :: 0 <= u < p ==> At(after, o + u * m + j) == Radix(t, s, p, m, before, o, j, u)
    ensures BlockUpTo(t, s, p, m, o, j + 1, before, after)
  {
    hide Radix;
    forall u, k | 0 <= u < p && 0 <= k < j + 1
      ensures At(after, o + u * m + k) == Radix(t, s, p, m, before, o, k, u)
    {
      if k < j {
        ColumnIndex(p, m, o, u, k);
        assert At(mid, o + u * m + k) == Radix(t, s, p, m, before, o, k, u);
      }
    }
  }

  // ---- radix 4 ----

  /** What kf_bfly4 computes from column j is what the stage asks for. */
  lemma Column4(t: seq<Cpx>, c: real, s: int, m: int, o: int, j: int, before: seq<Cpx>, mid: seq<Cpx>)
    requires IsTwiddleTable(t, c) && s * (4 * m) == |t| && 0 <= j < m && 0 <= o && o + 4 * m <= |before|
    requires BlockUpTo(t, s, 4, m, o, j, before, mid)
    ensures |mid| == |before|
    ensures
      var e := j * s;
      0 <= 3 * e < |t| &&
      var y := Out4(mid[o + j], Mul(mid[o + m + j], t[e]),
                    Mul(mid[o + 2 * m + j], t[2 * e]), Mul(mid[o + 3 * m + j], t[3 * e]));
      y.0 == Radix(t, s, 4, m, before, o, j, 0) && y.1 == Radix(t, s, 4, m, before, o, j, 1)
      && y.2 == Radix(t, s, 4, m, before, o, j, 2) && y.3 == Radix(t, s, 4, m, before, o, j, 3)
  {
    hide *;
    NotEmpty(t, c);
    Arith.Assoc(2, j, s);
    Arith.Assoc(3, j, s);
    ColumnRead(t, c, s, 4, m, before, o, j, 1);
    ColumnRead(t, c, s, 4, m, before, o, j, 2);
    ColumnRead(t, c, s, 4, m, before, o, j, 3);
    ColumnPending(t, s, 4, m, o, j, before, mid, 0);
    ColumnPending(t, s, 4, m, o, j, before, mid, 1);
    ColumnPending(t, s, 4, m, o, j, before, mid, 2);
    ColumnPending(t, s, 4, m, o, j, before, mid, 3);
    var cs := [Col(t, s, m, before, o, j, 0), Col(t, s, m, before, o, j, 1),
               Col(t, s, m, before, o, j, 2), Col(t, s, m, before, o, j, 3)];
    Point4(t, c, m * s, cs);
    RadixIsPoint(t, s, 4, m, before, o, j, 0, cs);
    RadixIsPoint(t, s, 4, m, before, o, j, 1, cs);
    RadixIsPoint(t, s, 4, m, before, o, j, 2, cs);
    RadixIsPoint(t, s, 4, m, before, o, j, 3, cs);
  }

  lemma ColumnDone4(t: seq<Cpx>, s: int, m: int, o: int, j: int, before: seq<Cpx>, mid: seq<Cpx>,
                    y0: Cpx, y1: Cpx, y2: Cpx, y3: Cpx)
    requires |t| > 0 && 0 <= j < m && 0 <= o && o + 4 * m <= |before| == |mid|
    requires BlockUpTo(t, s, 4, m, o, j, before, mid)
    requires y0 == Radix(t, s, 4, m, before, o, j, 0) && y1 == Radix(t, s, 4, m, before, o, j, 1)
    requires y2 == Radix(t, s, 4, m, before, o, j, 2) && y3 == Radix(t, s, 4, m, before, o, j, 3)
    ensures BlockUpTo(t, s, 4, m, o, j + 1, before,
                      mid[o + j := y0][o + m + j := y1][o + 2 * m + j := y2][o + 3 * m + j := y3])
  {
    hide Radix, BlockUpTo;
    var after := mid[o + j := y0][o + m + j := y1][o + 2 * m + j := y2][o + 3 * m + j := y3];
    ColumnIndex(4, m, o, 0, j);
    ColumnIndex(4, m, o, 1, j);
    ColumnIndex(4, m, o, 2, j);
    ColumnIndex(4, m, o, 3, j);
    forall u | 0 <= u < 4
      ensures At(after, o + u * m + j) == Radix(t, s, 4, m, before, o, j, u)
    {
      assert u == 0 || u == 1 || u == 2 || u == 3;
    }
    ColumnStep(t, s, 4, m, o, j, before, mid, after);
  }

  lemma FourWrites(mid: seq<Cpx>, after: seq<Cpx>, i0: int, i1: int, i2: int, i3: int)
    requires |mid| == |after|
    requires 0 <= i0 < |mid| && 0 <= i1 < |mid| && 0 <= i2 < |mid| && 0 <= i3 < |mid|
    requires forall x :: 0 <= x < |mid| && x != i0 && x != i1 && x != i2 && x != i3 ==> after[x] == mid[x]
    ensures after == mid[i0 := after[i0]][i1 := after[i1]][i2 := after[i2]][i3 := after[i3]]
  {
  }

  /** The inner loop of kf_bfly4 (kiss_fft.c:141-165) over one block. */
  method Block4(fout: array<Cpx>, o: int, fstride: int, t: seq<Cpx>, m: int, ghost c: real)
    requires IsTwiddleTable(t, c) && m >= 1 && fstride * (4 * m) == |t|
    requires 0 <= o && o + 4 * m <= fout.Length
    modifies fout
    ensures |t| > 0 && BlockDone(t, fstride, 4, m, o, old(fout[..]), fout[..])
  {
    hide *;
    ghost var was := fout[..];
    NotEmpty(t, c);
    BlockStart(t, fstride, 4, m, o, was);
    var tw1, tw2, tw3 := 0, 0, 0;
    var at := o;
    var j := 0;
    while j < m
      invariant 0 <= j <= m && at == o + j
      invariant tw1 == j * fstride && tw2 == 2 * tw1 && tw3 == 3 * tw1
      invariant BlockUpTo(t, fstride, 4, m, o, j, was, fout[..])
    {
      ghost var mid := fout[..];
      Column4(t, c, fstride, m, o, j, was, mid);
      var s0 := Mul(fout[at + m], t[tw1]);
      var s1 := Mul(fout[at + 2 * m], t[tw2]);
      var s2 := Mul(fout[at + 3 * m], t[tw3]);
      Out4Steps(mid[o + j], s0, s1, s2);
      var s5 := Sub(fout[at], s1);
      fout[at] := Add(fout[at], s1);
      var s3 := Add(s0, s2);
      var s4 := Sub(s0, s2);
      fout[at + 2 * m] := Sub(fout[at], s3);
      tw1 := tw1 + fstride;
      tw2 := tw2 + fstride * 2;
      tw3 := tw3 + fstride * 3;
      fout[at] := Add(fout[at], s3);
      fout[at + m] := Cpx(s5.r + s4.i, s5.i - s4.r);
      fout[at + 3 * m] := Cpx(s5.r - s4.i, s5.i + s4.r);
      ColumnDone4(t, fstride, m, o, j, was, mid, fout[at], fout[at + m], fout[at + 2 * m], fout[at + 3 * m]);
      FourWrites(mid, fout[..], at, at + m, at + 2 * m, at + 3 * m);
      Arith.Next(j, fstride);
      at := at + 1;
      j := j + 1;
    }
    BlockEnd(t, fstride, 4, m, o, was, fout[..]);
  }

  /** Out4 in the order of the assignments of kf_bfly4. */
  lemma Out4Steps(c0: Cpx, c1: Cpx, c2: Cpx, c3: Cpx)
    ensures
      var s5, f0, s3, s4 := Sub(c0, c2), Add(c0, c2), Add(c1, c3), Sub(c1, c3);
      Out4(c0, c1, c2, c3)
      == (Add(f0, s3), Cpx(s5.r + s4.i, s5.i - s4.r), Sub(f0, s3), Cpx(s5.r - s4.i, s5.i + s4.r))
  {
  }

  // ---- radix 3 ----

  /** What kf_bfly3 computes from column j is what the stage asks for. */
  lemma Column3(t: seq<Cpx>, c: real, s: int, m: int, o: int, j: int, before: seq<Cpx>, mid: seq<Cpx>)
    requires IsTwiddleTable(t, c) && s * (3 * m) == |t| && 0 <= j < m && 0 <= o && o + 3 * m <= |before|
    requires BlockUpTo(t, s, 3, m, o, j, before, mid)
    ensures |mid| == |before|
    ensures
      var e := j * s;
      0 <= 2 * e < |t| &&
      var y := Out3(Root(t, m * s, 1).i, mid[o + j], Mul(mid[o + m + j], t[e]), Mul(mid[o + 2 * m + j], t[2 * e]));
      y.0 == Radix(t, s, 3, m, before, o, j, 0) && y.1 == Radix(t, s, 3, m, before, o, j, 1)
      && y.2 == Radix(t, s, 3, m, before, o, j, 2)
  {
    hide *;
    NotEmpty(t, c);
    Arith.Assoc(2, j, s);
    ColumnRead(t, c, s, 3, m, before, o, j, 1);
    ColumnRead(t, c, s, 3, m, before, o, j, 2);
    ColumnPending(t, s, 3, m, o, j, before, mid, 0);
    ColumnPending(t, s, 3, m, o, j, before, mid, 1);
    ColumnPending(t, s, 3, m, o, j, before, mid, 2);
    var cs := [Col(t, s, m, before, o, j, 0), Col(t, s, m, before, o, j, 1), Col(t, s, m, before, o, j, 2)];
    Point3(t, c, m * s, cs);
    RadixIsPoint(t, s, 3, m, before, o, j, 0, cs);
    RadixIsPoint(t, s, 3, m, before, o, j, 1, cs);
    RadixIsPoint(t, s, 3, m, before, o, j, 2, cs);
  }

  lemma ColumnDone3(t: seq<Cpx>, s: int, m: int, o: int, j: int, before: seq<Cpx>, mid: seq<Cpx>,
                    y0: Cpx, y1: Cpx, y2: Cpx)
    requires |t| > 0 && 0 <= j < m && 0 <= o && o + 3 * m <= |before| == |mid|
    requires BlockUpTo(t, s, 3, m, o, j, before, mid)
    requires y0 == Radix(t, s, 3, m, before, o, j, 0)
    requires y1 == Radix(t, s, 3, m, before, o, j, 1)
    requires y2 == Radix(t, s, 3, m, before, o, j, 2)
    ensures BlockUpTo(t, s, 3, m, o, j + 1, before, mid[o + j := y0][o + m + j := y1][o + 2 * m + j := y2])
  {
    hide Radix, BlockUpTo;
    var after := mid[o + j := y0][o + m + j := y1][o + 2 * m + j := y2];
    ColumnIndex(3, m, o, 0, j);
    ColumnIndex(3, m, o, 1, j);
    ColumnIndex(3, m, o, 2, j);
    forall u | 0 <= u < 3
      ensures At(after, o + u * m + j) == Radix(t, s, 3, m, before, o, j, u)
    {
      assert u == 0 || u == 1 || u == 2;
    }
    ColumnStep(t, s, 3, m, o, j, before, mid, after);
  }

  /** Entry j * m * s of the table, read by the code before its loops, is the j-th power of the p-th root. */
  lemma RootEntry(t: seq<Cpx>, c: real, s: int, m: int, p: int, j: int)
    requires IsTwiddleTable(t, c) && s * (p * m) == |t| && m >= 1 && 0 <= j < p
    ensures 0 <= s * j * m < |t| && t[s * j * m] == Root(t, m * s, j)
  {
    hide IsTwiddleTable;
    NotEmpty(t, c);
    RootIndex(s, m, p, j, |t|);
    Arith.DivModUnique(s * j * m, |t|, 0, s * j * m);
  }

  lemma RootIndex(s: int, m: int, p: int, j: int, n: int)
    requires s * (p * m) == n && n > 0 && m >= 1 && 0 <= j < p
    ensures 0 <= s * j * m < n && s * j * m == j * (m * s)
  {
    TwiddleIndex(0, 0, s, p, m, n);
    Arith.MulPos(m, s);
    Arith.Rotate(s, p, m);
    Arith.Rotate(s, j, m);
    Arith.StepFits(j, p, m * s);
  }

  /** The inner loop of kf_bfly3 (kiss_fft.c:198-226) over one block; k counts down from m. */
  method Block3(fout: array<Cpx>, o: int, fstride: int, t: seq<Cpx>, m: int, epi3: Cpx, ghost c: real)
    requires IsTwiddleTable(t, c) && m >= 1 && fstride * (3 * m) == |t|
    requires 0 <= o && o + 3 * m <= fout.Length
    requires |t| > 0 && epi3 == Root(t, m * fstride, 1)
    modifies fout
    ensures BlockDone(t, fstride, 3, m, o, old(fout[..]), fout[..])
  {
    hide *;
    ghost var was := fout[..];
    BlockStart(t, fstride, 3, m, o, was);
    var tw1, tw2 := 0, 0;
    var at := o;
    var k := m;
    while k > 0
      invariant 0 <= k <= m && at == o + (m - k)
      invariant tw1 == (m - k) * fstride && tw2 == 2 * tw1
      invariant BlockUpTo(t, fstride, 3, m, o, m - k, was, fout[..])
    {
      ghost var mid := fout[..];
      ghost var j := m - k;
      Column3(t, c, fstride, m, o, j, was, mid);
      var s1 := Mul(fout[at + m], t[tw1]);
      var s2 := Mul(fout[at + 2 * m], t[tw2]);
      Out3Steps(epi3.i, mid[o + j], s1, s2);
      var s3 := Add(s1, s2);
      var s0 := Sub(s1, s2);
      tw1 := tw1 + fstride;
      tw2 := tw2 + fstride * 2;
      fout[at + m] := Sub(fout[at], Scale(0.5, s3));
      s0 := Scale(epi3.i, s0);
      fout[at] := Add(fout[at], s3);
      fout[at + 2 * m] := Cpx(fout[at + m].r + s0.i, fout[at + m].i - s0.r);
      fout[at + m] := Cpx(fout[at + m].r - s0.i, fout[at + m].i + s0.r);
      ColumnDone3(t, fstride, m, o, j, was, mid, fout[at], fout[at + m], fout[at + 2 * m]);
      assert fout[..] == mid[o + j := fout[at]][o + m + j := fout[at + m]][o + 2 * m + j := fout[at + 2 * m]];
      Arith.Next(j, fstride);
      at := at + 1;
      k := k - 1;
    }
    BlockEnd(t, fstride, 3, m, o, was, fout[..]);
  }

  lemma Out3Steps(e: real, c0: Cpx, c1: Cpx, c2: Cpx)
    ensures
      var s3, s0 := Add(c1, c2), Scale(e, Sub(c1, c2));
      var mid := Sub(c0, Scale(0.5, s3));
      Out3(e, c0, c1, c2) == (Add(c0, s3), Cpx(mid.r - s0.i, mid.i + s0.r), Cpx(mid.r + s0.i, mid.i - s0.r))
  {
  }

  // ---- radix 5 ----

  /** What kf_bfly5 computes from column j is what the stage asks for. */
  lemma Column5(t: seq<Cpx>, c: real, s: int, m: int, o: int, j: int, before: seq<Cpx>, mid: seq<Cpx>)
    requires IsTwiddleTable(t, c) && s * (5 * m) == |t| && 0 <= j < m && 0 <= o && o + 5 * m <= |before|
    requires BlockUpTo(t, s, 5, m, o, j, before, mid)
    ensures |mid| == |before|
    ensures 0 <= j * s < |t| && 0 <= 2 * j * s < |t| && 0 <= 3 * j * s < |t| && 0 <= 4 * j * s < |t|
    ensures
      var y := Out5(Root(t, m * s, 1), Root(t, m * s, 2),
                    mid[o + j], Mul(mid[o + m + j], t[j * s]), Mul(mid[o + 2 * m + j], t[2 * j * s]),
                    Mul(mid[o + 3 * m + j], t[3 * j * s]), Mul(mid[o + 4 * m + j], t[4 * j * s]));
      y.0 == Radix(t, s, 5, m, before, o, j, 0)
      && y.1 == Radix(t, s, 5, m, before, o, j, 1)
      && y.2 == Radix(t, s, 5, m, before, o, j, 2)
      && y.3 == Radix(t, s, 5, m, before, o, j, 3)
      && y.4 == Radix(t, s, 5, m, before, o, j, 4)
  {
    hide *;
    NotEmpty(t, c);
    ColumnRead(t, c, s, 5, m, before, o, j, 1);
    ColumnRead(t, c, s, 5, m, before, o, j, 2);
    ColumnRead(t, c, s, 5, m, before, o, j, 3);
    ColumnRead(t, c, s, 5, m, before, o, j, 4);
    ColumnPending(t, s, 5, m, o, j, before, mid, 0);
    ColumnPending(t, s, 5, m, o, j, before, mid, 1);
    ColumnPending(t, s, 5, m, o, j, before, mid, 2);
    ColumnPending(t, s, 5, m, o, j, before, mid, 3);
    ColumnPending(t, s, 5, m, o, j, before, mid, 4);
    var cs := [Col(t, s, m, before, o, j, 0), Col(t, s, m, before, o, j, 1), Col(t, s, m, before, o, j, 2),
               Col(t, s, m, before, o, j, 3), Col(t, s, m, before, o, j, 4)];
    Point5(t, c, m * s, cs);
    RadixIsPoint(t, s, 5, m, before, o, j, 0, cs);
    RadixIsPoint(t, s, 5, m, before, o, j, 1, cs);
    RadixIsPoint(t, s, 5, m, before, o, j, 2, cs);
    RadixIsPoint(t, s, 5, m, before, o, j, 3, cs);
    RadixIsPoint(t, s, 5, m, before, o, j, 4, cs);
  }

  lemma ColumnDone5(t: seq<Cpx>, s: int, m: int, o: int, j: int, before: seq<Cpx>, mid: seq<Cpx>,
                    y0: Cpx, y1: Cpx, y2: Cpx, y3: Cpx, y4: Cpx)
    requires |t| > 0 && 0 <= j < m && 0 <= o && o + 5 * m <= |before| == |mid|
    requires BlockUpTo(t, s, 5, m, o, j, before, mid)
    requires y0 == Radix(t, s, 5, m, before, o, j, 0)
    requires y1 == Radix(t, s, 5, m, before, o, j, 1)
    requires y2 == Radix(t, s, 5, m, before, o, j, 2)
    requires y3 == Radix(t, s, 5, m, before, o, j, 3)
    requires y4 == Radix(t, s, 5, m, before, o, j, 4)
    ensures BlockUpTo(t, s, 5, m, o, j + 1, before,
              mid[o + j := y0][o + m + j := y1][o + 2 * m + j := y2][o + 3 * m + j := y3][o + 4 * m + j := y4])
  {
    hide Radix, BlockUpTo;
    var after := mid[o + j := y0][o + m + j := y1][o + 2 * m + j := y2][o + 3 * m + j := y3][o + 4 * m + j := y4];
    ColumnIndex(5, m, o, 0, j);
    ColumnIndex(5, m, o, 1, j);
    ColumnIndex(5, m, o, 2, j);
    ColumnIndex(5, m, o, 3, j);
    ColumnIndex(5, m, o, 4, j);
    forall u | 0 <= u < 5
      ensures At(after, o + u * m + j) == Radix(t, s, 5, m, before, o, j, u)
    {
      assert u == 0 || u == 1 || u == 2 || u == 3 || u == 4;
    }
    ColumnStep(t, s, 5, m, o, j, before, mid, after);
  }

  /** The inner loop of kf_bfly5 (kiss_fft.c:261-303) over one block. */
  method Block5(fout: array<Cpx>, o: int, fstride: int, tw: seq<Cpx>, m: int, ya: Cpx, yb: Cpx, ghost c: real)
    requires IsTwiddleTable(tw, c) && m >= 1 && fstride * (5 * m) == |tw|
    requires 0 <= o && o + 5 * m <= fout.Length
    requires |tw| > 0 && ya == Root(tw, m * fstride, 1) && yb == Root(tw, m * fstride, 2)
    modifies fout
    ensures BlockDone(tw, fstride, 5, m, o, old(fout[..]), fout[..])
  {
    hide *;
    ghost var was := fout[..];
    BlockStart(tw, fstride, 5, m, o, was);
    var at0, at1, at2, at3, at4 := o, o + m, o + 2 * m, o + 3 * m, o + 4 * m;
    var u := 0;
    while u < m
      invariant 0 <= u <= m
      invariant at0 == o + u && at1 == o + m + u && at2 == o + 2 * m + u && at3 == o + 3 * m + u && at4 == o + 4 * m + u
      invariant BlockUpTo(tw, fstride, 5, m, o, u, was, fout[..])
    {
      ghost var mid := fout[..];
      Column5(tw, c, fstride, m, o, u, was, mid);
      var s0 := fout[at0];
      var s1 := Mul(fout[at1], tw[u * fstride]);
      var s2 := Mul(fout[at2], tw[2 * u * fstride]);
      var s3 := Mul(fout[at3], tw[3 * u * fstride]);
      var s4 := Mul(fout[at4], tw[4 * u * fstride]);
      Out5Steps(ya, yb, s0, s1, s2, s3, s4);
      var s7, s10, s8, s9 := Add(s1, s4), Sub(s1, s4), Add(s2, s3), Sub(s2, s3);
      fout[at0] := Add(fout[at0], Add(s7, s8));
      var s5 := Mid5(s0, s7, s8, ya.r, yb.r);
      var s6 := Cross6(s10, s9, ya.i, yb.i);
      fout[at1] := Sub(s5, s6);
      fout[at4] := Add(s5, s6);
      var s11 := Mid5(s0, s7, s8, yb.r, ya.r);
      var s12 := Cross12(s10, s9, ya.i, yb.i);
      fout[at2] := Add(s11, s12);
      fout[at3] := Sub(s11, s12);
      ColumnDone5(tw, fstride, m, o, u, was, mid, fout[at0], fout[at1], fout[at2], fout[at3], fout[at4]);
      assert fout[..] == mid[o + u := fout[at0]][o + m + u := fout[at1]][o + 2 * m + u := fout[at2]]
                            [o + 3 * m + u := fout[at3]][o + 4 * m + u := fout[at4]];
      at0, at1, at2, at3, at4 := at0 + 1, at1 + 1, at2 + 1, at3 + 1, at4 + 1;
      u := u + 1;
    }
    BlockEnd(tw, fstride, 5, m, o, was, fout[..]);
  }

  // ---- radix 2 ----

  /** What kf_bfly2 computes from column j is what the stage asks for. */
  lemma Column2(t: seq<Cpx>, c: real, s: int, m: int, o: int, j: int, before: seq<Cpx>, mid: seq<Cpx>)
    requires IsTwiddleTable(t, c) && s * (2 * m) == |t| && 0 <= j < m && 0 <= o && o + 2 * m <= |before|
    requires BlockUpTo(t, s, 2, m, o, j, before, mid)
    ensures |mid| == |before|
    ensures 0 <= j * s < |t|
    ensures Add(mid[o + j], Mul(mid[o + m + j], t[j * s])) == Radix(t, s, 2, m, before, o, j, 0)
    ensures Sub(mid[o + j], Mul(mid[o + m + j], t[j * s])) == Radix(t, s, 2, m, before, o, j, 1)
  {
    hide *;
    NotEmpty(t, c);
    ColumnRead(t, c, s, 2, m, before, o, j, 1);
    ColumnPending(t, s, 2, m, o, j, before, mid, 0);
    ColumnPending(t, s, 2, m, o, j, before, mid, 1);
    var cs := [Col(t, s, m, before, o, j, 0), Col(t, s, m, before, o, j, 1)];
    Point2(t, c, m * s, cs);
    RadixIsPoint(t, s, 2, m, before, o, j, 0, cs);
    RadixIsPoint(t, s, 2, m, before, o, j, 1, cs);
  }

  lemma ColumnDone2(t: seq<Cpx>, s: int, m: int, o: int, j: int, before: seq<Cpx>, mid: seq<Cpx>,
                    y0: Cpx, y1: Cpx)
    requires |t| > 0 && 0 <= j < m && 0 <= o && o + 2 * m <= |before| == |mid|
    requires BlockUpTo(t, s, 2, m, o, j, before, mid)
    requires y0 == Radix(t, s, 2, m, before, o, j, 0)
    requires y1 == Radix(t, s, 2, m, before, o, j, 1)
    ensures BlockUpTo(t, s, 2, m, o, j + 1, before, mid[o + j := y0][o + m + j := y1])
  {
    hide Radix, BlockUpTo;
    var after := mid[o + j := y0][o + m + j := y1];
    ColumnIndex(2, m, o, 0, j);
    ColumnIndex(2, m, o, 1, j);
    forall u | 0 <= u < 2
      ensures At(after, o + u * m + j) == Radix(t, s, 2, m, before, o, j, u)
    {
      assert u == 0 || u == 1;
    }
    ColumnStep(t, s, 2, m, o, j, before, mid, after);
  }

  lemma EighthRoots(t: seq<Cpx>, c: real, s: int)
    requires IsTwiddleTable(t, c) && 8 * s == |t|
    ensures s >= 1 && t[0] == One && t[s] == Cpx(c, -c) && t[2 * s] == Cpx(0.0, -1.0) && t[3 * s] == Cpx(-c, -c)
  {
    hide *;
    EighthEntries(t, c, s);
    assert Cpx(c, -c).i == -c;
    MulMinusI(t[s]);
  }

  lemma MulMinusI(f: Cpx)
    ensures Mul(f, Cpx(0.0, -1.0)) == Cpx(f.i, -f.r)
  {
    hide SMul;
    SMulUnit(f.r);
    SMulUnit(f.i);
  }

  lemma EighthEntries(t: seq<Cpx>, c: real, s: int)
    requires IsTwiddleTable(t, c) && 8 * s == |t|
    ensures s >= 1 && t[0] == One && t[s] == Cpx(c, -c) && t[2 * s] == Cpx(0.0, -1.0)
    ensures Mul(t[s], t[2 * s]) == t[3 * s]
  {
    hide Mul, Conj;
    var n := |t|;
    assert n / 8 == s && n / 4 == 2 * s;
    Arith.DivModUnique(3 * s, n, 0, 3 * s);
  }

  lemma EighthProducts(f: Cpx, c: real)
    ensures Mul(f, One) == f
    ensures Mul(f, Cpx(c, -c)) == Cpx(SMul(f.r + f.i, c), SMul(f.i - f.r, c))
    ensures Mul(f, Cpx(0.0, -1.0)) == Cpx(f.i, -f.r)
    ensures Mul(f, Cpx(-c, -c)) == Cpx(SMul(f.i - f.r, c), SMul(-(f.i + f.r), c))
  {
    hide SMul;
    MulOne(f);
    SMulUnit(f.r);
    SMulUnit(f.i);
    SMulSign(f.r, c);
    SMulSign(f.i, c);
    SMulSign(f.i + f.r, c);
    SMulLinear(f.i, f.r, c);
    SMulLinear(f.r, f.i, c);
  }

  /** One pass of the first loop of kf_bfly2 (kiss_fft.c:58-66). */
  method Block2Plain(fout: array<Cpx>, at: int, ghost fstride: int, ghost t: seq<Cpx>, ghost c: real)
    requires IsTwiddleTable(t, c) && fstride * (2 * 1) == |t|
    requires 0 <= at && at + 2 <= fout.Length
    modifies fout
    ensures |t| > 0 && BlockDone(t, fstride, 2, 1, at, old(fout[..]), fout[..])
  {
    hide *;
    ghost var was := fout[..];
    NotEmpty(t, c);
    BlockStart(t, fstride, 2, 1, at, was);
    Column2(t, c, fstride, 1, at, 0, was, was);
    UnitEntry(t, c);
    MulOne(was[at + 1]);
    var tmp := fout[at + 1];
    fout[at + 1] := Sub(fout[at], tmp);
    fout[at] := Add(fout[at], tmp);
    ColumnDone2(t, fstride, 1, at, 0, was, was, fout[at], fout[at + 1]);
    assert fout[..] == was[at := fout[at]][at + 1 := fout[at + 1]];
    BlockEnd(t, fstride, 2, 1, at, was, fout[..]);
  }

  /** One column of the unrolled branch of kf_bfly2, its twiddled element already in tmp. */
  method Pair2(fout: array<Cpx>, at: int, j: int, tmp: Cpx, ghost fstride: int, ghost t: seq<Cpx>, ghost c: real,
               ghost was: seq<Cpx>)
    requires IsTwiddleTable(t, c) && fstride * (2 * 4) == |t| && 0 <= j < 4
    requires 0 <= at && at + 8 <= fout.Length && |was| == fout.Length
    requires |t| > 0 && BlockUpTo(t, fstride, 2, 4, at, j, was, fout[..])
    requires 0 <= j * fstride < |t| && tmp == Mul(fout[at + 4 + j], t[j * fstride])
    modifies fout
    ensures BlockUpTo(t, fstride, 2, 4, at, j + 1, was, fout[..])
    ensures forall x :: 0 <= x < fout.Length && x != at + j && x != at + 4 + j ==> fout[x] == old(fout[x])
  {
    hide *;
    ghost var mid := fout[..];
    Column2(t, c, fstride, 4, at, j, was, mid);
    fout[at + 4 + j] := Sub(fout[at + j], tmp);
    fout[at + j] := Add(fout[at + j], tmp);
    ColumnDone2(t, fstride, 4, at, j, was, mid, fout[at + j], fout[at + 4 + j]);
    assert fout[..] == mid[at + j := fout[at + j]][at + 4 + j := fout[at + 4 + j]];
  }

  /** One pass of the second loop of kf_bfly2 (kiss_fft.c:74-97): a radix-2 stage right after a radix-4 one. */
  method Block2After4(fout: array<Cpx>, at: int, tw: real, ghost fstride: int, ghost t: seq<Cpx>)
    requires IsTwiddleTable(t, tw) && fstride * (2 * 4) == |t|
    requires 0 <= at && at + 8 <= fout.Length
    modifies fout
    ensures |t| > 0 && BlockDone(t, fstride, 2, 4, at, old(fout[..]), fout[..])
  {
    hide *;
    ghost var was := fout[..];
    NotEmpty(t, tw);
    EighthRoots(t, tw, fstride);
    BlockStart(t, fstride, 2, 4, at, was);
    var tmp := fout[at + 4];
    EighthProducts(fout[at + 4], tw);
    Pair2(fout, at, 0, tmp, fstride, t, tw, was);
    EighthProducts(fout[at + 5], tw);
    tmp := Cpx(SMul(fout[at + 5].r + fout[at + 5].i, tw), SMul(fout[at + 5].i - fout[at + 5].r, tw));
    Pair2(fout, at, 1, tmp, fstride, t, tw, was);
    EighthProducts(fout[at + 6], tw);
    tmp := Cpx(fout[at + 6].i, -fout[at + 6].r);
    Pair2(fout, at, 2, tmp, fstride, t, tw, was);
    EighthProducts(fout[at + 7], tw);
    tmp := Cpx(SMul(fout[at + 7].i - fout[at + 7].r, tw), SMul(-(fout[at + 7].i + fout[at + 7].r), tw));
    Pair2(fout, at, 3, tmp, fstride, t, tw, was);
    BlockEnd(t, fstride, 2, 4, at, was, fout[..]);
  }

  // ---- whole stages ----

  /** Every block of the stage has been combined. */
  ghost predicate StageDone(t: seq<Cpx>, s: int, p: nat, m: int, before: seq<Cpx>, after: seq<Cpx>)
    requires |t| > 0
  {
    StageUpTo(t, s, p, m, s, before, after)
  }

  lemma StageEnd(t: seq<Cpx>, s: int, p: nat, m: int, before: seq<Cpx>, after: seq<Cpx>)
    requires |t| > 0 && StageUpTo(t, s, p, m, s, before, after)
    ensures StageDone(t, s, p, m, before, after)
  {
  }

  lemma NextBlock(i: int, s: int, p: int, m: int, n: int)
    requires 0 <= i < s && p >= 1 && m >= 1 && s * (p * m) == n
    ensures 0 <= i * (p * m) && i * (p * m) + p * m <= n && (i + 1) * (p * m) == i * (p * m) + p * m
  {
    Arith.MulPos(p, m);
    BlockFits(i, s, p * m);
  }

  /** kf_bfly2 (kiss_fft.c:45-99). */
  method KfBfly2(fout: array<Cpx>, m: int, N: int, tw: real, ghost t: seq<Cpx>)
    requires IsTwiddleTable(t, tw) && (m == 1 || m == 4) && N * (2 * m) == |t| == fout.Length
    modifies fout
    ensures |t| > 0 && StageDone(t, N, 2, m, old(fout[..]), fout[..])
  {
    hide *;
    ghost var was := fout[..];
    NotEmpty(t, tw);
    StageStart(t, N, 2, m, was);
    var at := 0;
    var i := 0;
    if m == 1 {
      while i < N
        invariant 0 <= i <= N && at == i * (2 * 1)
        invariant StageUpTo(t, N, 2, 1, i, was, fout[..])
      {
        ghost var mid := fout[..];
        NextBlock(i, N, 2, 1, |t|);
        Block2Plain(fout, at, N, t, tw);
        StageStep(t, N, 2, 1, i, was, mid, fout[..]);
        at := at + 2;
        i := i + 1;
      }
    } else {
      while i < N
        invariant 0 <= i <= N && at == i * (2 * 4)
        invariant StageUpTo(t, N, 2, 4, i, was, fout[..])
      {
        ghost var mid := fout[..];
        NextBlock(i, N, 2, 4, |t|);
        Block2After4(fout, at, tw, N, t);
        StageStep(t, N, 2, 4, i, was, mid, fout[..]);
        at := at + 8;
        i := i + 1;
      }
    }
    StageEnd(t, N, 2, m, was, fout[..]);
  }

  /** One pass of the degenerate loop of kf_bfly4 (kiss_fft.c:115-131): all twiddles are 1. */
  method Block4Plain(fout: array<Cpx>, at: int, ghost fstride: int, ghost t: seq<Cpx>, ghost c: real)
    requires IsTwiddleTable(t, c) && fstride * (4 * 1) == |t|
    requires 0 <= at && at + 4 <= fout.Length
    modifies fout
    ensures |t| > 0 && BlockDone(t, fstride, 4, 1, at, old(fout[..]), fout[..])
  {
    hide *;
    ghost var was := fout[..];
    NotEmpty(t, c);
    BlockStart(t, fstride, 4, 1, at, was);
    Column4(t, c, fstride, 1, at, 0, was, was);
    UnitEntry(t, c);
    MulOne(was[at + 1]);
    MulOne(was[at + 2]);
    MulOne(was[at + 3]);
    Out4Steps(was[at], was[at + 1], was[at + 2], was[at + 3]);
    var scratch0 := Sub(fout[at], fout[at + 2]);
    fout[at] := Add(fout[at], fout[at + 2]);
    var scratch1 := Add(fout[at + 1], fout[at + 3]);
    fout[at + 2] := Sub(fout[at], scratch1);
    fout[at] := Add(fout[at], scratch1);
    scratch1 := Sub(fout[at + 1], fout[at + 3]);
    fout[at + 1] := Cpx(scratch0.r + scratch1.i, scratch0.i - scratch1.r);
    fout[at + 3] := Cpx(scratch0.r - scratch1.i, scratch0.i + scratch1.r);
    ColumnDone4(t, fstride, 1, at, 0, was, was, fout[at], fout[at + 1], fout[at + 2], fout[at + 3]);
    assert fout[..] == was[at := fout[at]][at + 1 := fout[at + 1]][at + 2 := fout[at + 2]][at + 3 := fout[at + 3]];
    BlockEnd(t, fstride, 4, 1, at, was, fout[..]);
  }

  /** kf_bfly4 (kiss_fft.c:101-168). The distance mm between blocks only matters when there are several. */
  method KfBfly4(fout: array<Cpx>, fstride: int, t: seq<Cpx>, m: int, N: int, mm: int, ghost c: real)
    requires IsTwiddleTable(t, c) && m >= 1 && fstride == N && N * (4 * m) == |t| == fout.Length
    requires N == 1 || mm == 4 * m
    modifies fout
    ensures |t| > 0 && StageDone(t, N, 4, m, old(fout[..]), fout[..])
  {
    hide *;
    ghost var was := fout[..];
    NotEmpty(t, c);
    StageStart(t, N, 4, m, was);
    var i := 0;
    if m == 1 {
      var at := 0;
      while i < N
        invariant 0 <= i <= N && at == i * (4 * 1)
        invariant StageUpTo(t, N, 4, 1, i, was, fout[..])
      {
        ghost var mid := fout[..];
        NextBlock(i, N, 4, 1, |t|);
        Block4Plain(fout, at, N, t, c);
        StageStep(t, N, 4, 1, i, was, mid, fout[..]);
        at := at + 4;
        i := i + 1;
      }
    } else {
      while i < N
        invariant 0 <= i <= N
        invariant StageUpTo(t, N, 4, m, i, was, fout[..])
      {
        ghost var mid := fout[..];
        NextBlock(i, N, 4, m, |t|);
        Block4(fout, i * mm, fstride, t, m, c);
        StageStep(t, N, 4, m, i, was, mid, fout[..]);
        i := i + 1;
      }
    }
    StageEnd(t, N, 4, m, was, fout[..]);
  }

  /** kf_bfly3 (kiss_fft.c:173-228). */
  method KfBfly3(fout: array<Cpx>, fstride: int, t: seq<Cpx>, m: int, N: int, mm: int, ghost c: real)
    requires IsTwiddleTable(t, c) && m >= 1 && fstride == N && N * (3 * m) == |t| == fout.Length
    requires N == 1 || mm == 3 * m
    modifies fout
    ensures |t| > 0 && StageDone(t, N, 3, m, old(fout[..]), fout[..])
  {
    hide *;
    ghost var was := fout[..];
    NotEmpty(t, c);
    RootEntry(t, c, fstride, m, 3, 1);
    StageStart(t, N, 3, m, was);
    var epi3 := t[fstride * m];
    var i := 0;
    while i < N
      invariant 0 <= i <= N
      invariant StageUpTo(t, N, 3, m, i, was, fout[..])
    {
      ghost var mid := fout[..];
      NextBlock(i, N, 3, m, |t|);
      Block3(fout, i * mm, fstride, t, m, epi3, c);
      StageStep(t, N, 3, m, i, was, mid, fout[..]);
      i := i + 1;
    }
    StageEnd(t, N, 3, m, was, fout[..]);
  }

  /** kf_bfly5 (kiss_fft.c:232-305). */
  method KfBfly5(fout: array<Cpx>, fstride: int, t: seq<Cpx>, m: int, N: int, mm: int, ghost c: real)
    requires IsTwiddleTable(t, c) && m >= 1 && fstride == N && N * (5 * m) == |t| == fout.Length
    requires N == 1 || mm == 5 * m
    modifies fout
    ensures |t| > 0 && StageDone(t, N, 5, m, old(fout[..]), fout[..])
  {
    hide *;
    ghost var was := fout[..];
    NotEmpty(t, c);
    RootEntry(t, c, fstride, m, 5, 1);
    RootEntry(t, c, fstride, m, 5, 2);
    StageStart(t, N, 5, m, was);
    var ya := t[fstride * m];
    var yb := t[fstride * 2 * m];
    var i := 0;
    while i < N
      invariant 0 <= i <= N
      invariant StageUpTo(t, N, 5, m, i, was, fout[..])
    {
      ghost var mid := fout[..];
      NextBlock(i, N, 5, m, |t|);
      Block5(fout, i * mm, fstride, t, m, ya, yb, c);
      StageStep(t, N, 5, m, i, was, mid, fout[..]);
      i := i + 1;
    }
    StageEnd(t, N, 5, m, was, fout[..]);
  }
}
