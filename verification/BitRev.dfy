/** compute_bitrev_table: the mixed-radix digit reversal that loads the input of the transform. */
module BitRev {
  import opened Factor
  import Arith

  /** Distance, in the input, between the samples that one block of stage l combines. */
  ghost function Stride(f: seq<int>, l: nat): int
    requires 2 * l <= |f|
  {
    if l == 0 then 1 else Stride(f, l - 1) * f[2 * (l - 1)]
  }

  /** Place, within a block of stage l, of the t-th of its samples: the digits of t in reverse order. */
  ghost function Rev(f: seq<int>, n: nat, stages: nat, l: nat, t: int): int
    requires IsFactorList(f, n, stages) && l <= stages
    decreases stages - l
  {
    if l == stages then 0
    else (t % f[2 * l]) * f[2 * l + 1] + Rev(f, n, stages, l + 1, t / f[2 * l])
  }

  /** The inverse reading: which sample of the block stands at place q. */
  ghost function Src(f: seq<int>, n: nat, stages: nat, l: nat, q: int): int
    requires IsFactorList(f, n, stages) && l <= stages
    decreases stages - l
  {
    if l == stages then 0
    else q / f[2 * l + 1] + f[2 * l] * Src(f, n, stages, l + 1, q % f[2 * l + 1])
  }

  lemma LenPositive(f: seq<int>, n: nat, stages: nat, l: nat)
    requires IsFactorList(f, n, stages) && l <= stages
    ensures 2 * stages <= |f| && Len(f, n, l) >= 1
    ensures l < stages ==> Len(f, n, l) == f[2 * l] * f[2 * l + 1] && f[2 * l] >= 1 && f[2 * l + 1] == Len(f, n, l + 1)
    ensures l == stages ==> Len(f, n, l) == 1
  {
    if l > 0 {
      assert f[2 * (l - 1) + 1] == Len(f, n, l);
    }
  }

  lemma {:induction false} StrideLen(f: seq<int>, n: nat, stages: nat, l: nat)
    requires IsFactorList(f, n, stages) && l <= stages
    ensures Stride(f, l) >= 1 && Stride(f, l) * Len(f, n, l) == n
  {
    if l > 0 {
      StrideLen(f, n, stages, l - 1);
      LenPositive(f, n, stages, l - 1);
      hide IsFactorList;
      Arith.Assoc(Stride(f, l - 1), f[2 * (l - 1)], f[2 * (l - 1) + 1]);
      Arith.MulPos(Stride(f, l - 1), f[2 * (l - 1)]);
    }
  }

  lemma DigitBound(d: int, p: int, m: int, r: int)
    requires 0 <= d < p && 0 <= r < m
    ensures 0 <= d * m + r < p * m
    ensures (d * m + r) / m == d && (d * m + r) % m == r
  {
    Arith.MulLe(d, p - 1, m);
    assert d * m >= 0;
    assert (p - 1) * m == p * m - m;
    Arith.DivModUnique(d * m + r, m, d, r);
  }

  /** Rev maps a block onto itself and Src undoes it, so no two samples meet. */
  lemma {:induction false} SrcRev(f: seq<int>, n: nat, stages: nat, l: nat, t: int)
    requires IsFactorList(f, n, stages) && l <= stages && 0 <= t < Len(f, n, l)
    ensures 0 <= Rev(f, n, stages, l, t) < Len(f, n, l)
    ensures Src(f, n, stages, l, Rev(f, n, stages, l, t)) == t
    decreases stages - l
  {
    LenPositive(f, n, stages, l);
    if l < stages {
      var p, m := f[2 * l], f[2 * l + 1];
      QuotientBound(t, p, m);
      SrcRev(f, n, stages, l + 1, t / p);
      DigitBound(t % p, p, m, Rev(f, n, stages, l + 1, t / p));
    }
  }

  lemma QuotientBound(t: int, p: int, m: int)
    requires p >= 1 && 0 <= t < p * m
    ensures 0 <= t / p < m && 0 <= t % p < p && t == t % p + p * (t / p)
  {
    if t / p >= m {
      Arith.MulLe(m, t / p, p);
    }
  }

  /** Both readings unfolded by one stage. */
  lemma OneStage(f: seq<int>, n: nat, stages: nat, l: nat, x: int)
    requires IsFactorList(f, n, stages) && l < stages
    ensures f[2 * l] >= 1 && f[2 * l + 1] >= 1
    ensures Src(f, n, stages, l, x) == x / f[2 * l + 1] + f[2 * l] * Src(f, n, stages, l + 1, x % f[2 * l + 1])
    ensures Rev(f, n, stages, l, x) == (x % f[2 * l]) * f[2 * l + 1] + Rev(f, n, stages, l + 1, x / f[2 * l])
  {
    LenPositive(f, n, stages, l);
  }

  /** The index made of low digit d and the rest r. */
  lemma LowDigit(d: int, r: int, p: int, m: int)
    requires 0 <= d < p && 0 <= r < m
    ensures 0 <= d + p * r < p * m && (d + p * r) % p == d && (d + p * r) / p == r
  {
    DigitBound(r, m, p, d);
    assert r * p == p * r && m * p == p * m;
  }

  lemma HighDigit(q: int, p: int, m: int)
    requires m >= 1 && 0 <= q < p * m
    ensures 0 <= q / m < p && 0 <= q % m < m && (q / m) * m + q % m == q
  {
    assert p * m == m * p;
    QuotientBound(q, m, p);
    assert (q / m) * m == m * (q / m);
  }

  /** ... and Rev undoes Src: every place is filled. */
  lemma {:induction false} RevSrc(f: seq<int>, n: nat, stages: nat, l: nat, q: int)
    requires IsFactorList(f, n, stages) && l <= stages && 0 <= q < Len(f, n, l)
    ensures 0 <= Src(f, n, stages, l, q) < Len(f, n, l)
    ensures Rev(f, n, stages, l, Src(f, n, stages, l, q)) == q
    decreases stages - l
  {
    hide IsFactorList, Len;
    LenPositive(f, n, stages, l);
    if l < stages {
      hide Rev, Src;
      var p, m := f[2 * l], f[2 * l + 1];
      HighDigit(q, p, m);
      OneStage(f, n, stages, l, q);
      RevSrc(f, n, stages, l + 1, q % m);
      var rest := Src(f, n, stages, l + 1, q % m);
      LowDigit(q / m, rest, p, m);
      OneStage(f, n, stages, l, q / m + p * rest);
    }
  }

  /** First sample, in the input, of block b of stage l. */
  ghost function Base(f: seq<int>, n: nat, stages: nat, l: nat, b: int): int
    requires IsFactorList(f, n, stages) && l <= stages
  {
    if l == 0 then 0
    else Base(f, n, stages, l - 1, b / f[2 * (l - 1)]) + (b % f[2 * (l - 1)]) * Stride(f, l - 1)
  }

  /** The digit reversal puts sample Base + t * Stride of the input into block b at place Rev(t). */
  lemma {:induction false} RevOfBlock(f: seq<int>, n: nat, stages: nat, l: nat, b: int, t: int)
    requires IsFactorList(f, n, stages) && l <= stages
    requires 0 <= b < Stride(f, l) && 0 <= t < Len(f, n, l)
    ensures 0 <= Base(f, n, stages, l, b) + Stride(f, l) * t < n
    ensures Rev(f, n, stages, 0, Base(f, n, stages, l, b) + Stride(f, l) * t)
         == b * Len(f, n, l) + Rev(f, n, stages, l, t)
  {
    if l > 0 {
      LenPositive(f, n, stages, l - 1);
      StrideLen(f, n, stages, l - 1);
      var s, p, m := Stride(f, l - 1), f[2 * (l - 1)], f[2 * (l - 1) + 1];
      var d, c := b % p, b / p;
      BlockIndices(s, p, m, b, t, Base(f, n, stages, l - 1, c), Rev(f, n, stages, l, t));
      hide IsFactorList;
      RevOfBlock(f, n, stages, l - 1, c, t * p + d);
      assert Rev(f, n, stages, l - 1, t * p + d) == d * m + Rev(f, n, stages, l, t);
    }
  }

  lemma BlockIndices(s: int, p: int, m: int, b: int, t: int, base: int, rev: int)
    requires s >= 1 && p >= 1 && 0 <= b < s * p && 0 <= t < m
    ensures 0 <= b / p < s
    ensures 0 <= t * p + b % p < p * m
    ensures (t * p + b % p) / p == t && (t * p + b % p) % p == b % p
    ensures base + s * (t * p + b % p) == base + (b % p) * s + (s * p) * t
    ensures (b / p) * (p * m) + ((b % p) * m + rev) == b * m + rev
  {
    var d, c := b % p, b / p;
    assert s * p == p * s;
    QuotientBound(b, p, s);
    DigitBound(t, m, p, d);
    assert m * p == p * m;
    assert s * (t * p + d) == s * (t * p) + s * d;
    assert s * (t * p) == (s * p) * t;
    assert b * m == (d + p * c) * m == d * m + c * (p * m);
  }

  /** Only the last stage has m = 1. */
  lemma LastStage(f: seq<int>, n: nat, stages: nat, l: nat)
    requires IsFactorList(f, n, stages) && l < stages
    ensures f[2 * l + 1] == 1 <==> l == stages - 1
  {
    if l < stages - 1 {
      LenPositive(f, n, stages, l + 1);
      var p, m := f[2 * (l + 1)], f[2 * (l + 1) + 1];
      assert p >= 2 && m >= 1 ==> p * m >= 2;
    }
  }

  lemma SplitIndex(i: int, s: int, p: int, pos: int, j: int)
    requires s >= 1 && p >= 1 && 0 <= i && 0 <= pos < s && 0 <= j < p
    ensures s * p >= 1 && 0 <= pos + j * s < s * p
    ensures i % (s * p) == pos + j * s <==> i % s == pos && (i / s) % p == j
    ensures i / (s * p) == (i / s) / p
  {
    var t := i / s;
    var q, d, e := t / p, t % p, i % s;
    DigitBound(j, p, s, pos);
    DigitBound(d, p, s, e);
    assert p * s == s * p;
    assert i == q * (s * p) + (d * s + e) by {
      assert i == (q * p + d) * s + e;
      assert (q * p) * s == q * (s * p);
    }
    Arith.DivModUnique(i, s * p, q, d * s + e);
  }

  /** after differs from before exactly at the entries congruent to pos modulo s, which hold the
      reversed digits of their position in that subsequence, counted from place. */
  ghost predicate Written(
      f: seq<int>, n: nat, stages: nat, l: nat, pos: int, s: int, place: int, before: seq<int>, after: seq<int>)
    requires IsFactorList(f, n, stages) && l <= stages && s >= 1
  {
    && |before| == |after| == n
    && forall i :: 0 <= i < n ==>
         after[i] == if i % s == pos then place + Rev(f, n, stages, l, i / s) else before[i]
  }

  /** The same when only the first j of the p residues of stage l are done. */
  ghost predicate WrittenUpTo(
      f: seq<int>, n: nat, stages: nat, l: nat, pos: int, s: int, place: int, j: int, before: seq<int>, after: seq<int>)
    requires IsFactorList(f, n, stages) && l < stages && s >= 1
  {
    && |before| == |after| == n
    && forall i :: 0 <= i < n ==>
         after[i] == if i % s == pos && (i / s) % f[2 * l] < j
                     then place + Rev(f, n, stages, l, i / s) else before[i]
  }

  lemma ResidueDone(f: seq<int>, n: nat, stages: nat, l: nat, pos: int, s: int, place: int, j: int,
                    before: seq<int>, mid: seq<int>, after: seq<int>)
    requires IsFactorList(f, n, stages) && l < stages && s >= 1 && 0 <= pos < s && 0 <= j < f[2 * l]
    requires s * f[2 * l] >= 1
    requires WrittenUpTo(f, n, stages, l, pos, s, place, j, before, mid)
    requires Written(f, n, stages, l + 1, pos + j * s, s * f[2 * l], place + j * f[2 * l + 1], mid, after)
    ensures WrittenUpTo(f, n, stages, l, pos, s, place, j + 1, before, after)
  {
    var p, m := f[2 * l], f[2 * l + 1];
    hide IsFactorList;
    forall i | 0 <= i < n
      ensures after[i] == if i % s == pos && (i / s) % p < j + 1
                          then place + Rev(f, n, stages, l, i / s) else before[i]
    {
      SplitIndex(i, s, p, pos, j);
      var t := i / s;
      assert Rev(f, n, stages, l, t) == (t % p) * m + Rev(f, n, stages, l + 1, t / p);
    }
  }

  /** In the last stage the subsequence has just p entries, written in order. */
  lemma LastResidue(f: seq<int>, n: nat, stages: nat, l: nat, pos: int, s: int, place: int, j: int, mid: seq<int>)
    requires IsFactorList(f, n, stages) && l == stages - 1 && s == Stride(f, l) && 0 <= pos < s && 0 <= j < f[2 * l]
    requires |mid| == n
    ensures s * f[2 * l] == n && 0 <= pos + j * s < n
    ensures Written(f, n, stages, l + 1, pos + j * s, s * f[2 * l], place + j, mid, mid[pos + j * s := place + j])
  {
    var p := f[2 * l];
    StrideLen(f, n, stages, l);
    LenPositive(f, n, stages, l);
    LastStage(f, n, stages, l);
    assert Len(f, n, l + 1) == 1;
    SplitIndex(0, s, p, pos, j);
    assert s * p == n;
    var e := pos + j * s;
    var after := mid[e := place + j];
    hide IsFactorList, Stride, Len;
    forall i | 0 <= i < n
      ensures after[i] == if i % n == e then place + j + Rev(f, n, stages, l + 1, i / n) else mid[i]
    {
      Arith.DivModUnique(i, n, 0, i);
    }
  }

  lemma AllResidues(f: seq<int>, n: nat, stages: nat, l: nat, pos: int, s: int, place: int,
                    before: seq<int>, after: seq<int>)
    requires IsFactorList(f, n, stages) && l < stages && s >= 1
    requires WrittenUpTo(f, n, stages, l, pos, s, place, f[2 * l], before, after)
    ensures Written(f, n, stages, l, pos, s, place, before, after)
  {
  }

  lemma NoResidue(f: seq<int>, n: nat, stages: nat, l: nat, pos: int, s: int, place: int, before: seq<int>)
    requires IsFactorList(f, n, stages) && l < stages && s >= 1 && |before| == n
    ensures WrittenUpTo(f, n, stages, l, pos, s, place, 0, before, before)
  {
  }

  /** compute_bitrev_table (kiss_fft.c:315-345) with in_stride 1: pos is the moving address f and l the number of
      factor pairs already consumed. Exactly the entries congruent to pos modulo fstride are written. */
  method ComputeBitrevTable(
      fout: int, f: array<int>, pos: int, fstride: int, factors: seq<int>, l: nat, ghost n: nat, ghost stages: nat)
    requires IsFactorList(factors, n, stages) && l < stages && f.Length == n
    requires fstride == Stride(factors, l) && 0 <= pos < fstride
    modifies f
    ensures fstride >= 1 && Written(factors, n, stages, l, pos, fstride, fout, old(f[..]), f[..])
    decreases stages - l
  {
    hide *;
    ghost var was := f[..];
    var p, m := StageEntry(factors, l, n, stages, pos, fstride, fout, was);
    var j := 0;
    var at := pos;
    if m == 1 {
      while j < p
        invariant 0 <= j <= p && at == pos + j * fstride
        invariant WrittenUpTo(factors, n, stages, l, pos, fstride, fout, j, was, f[..])
      {
        ghost var mid := f[..];
        LastResidue(factors, n, stages, l, pos, fstride, fout, j, mid);
        f[at] := fout + j;
        assert f[..] == mid[at := fout + j];
        ResidueDone(factors, n, stages, l, pos, fstride, fout, j, was, mid, f[..]);
        Arith.Next(j, fstride);
        at := at + fstride;
        j := j + 1;
      }
    } else {
      var place := fout;
      while j < p
        invariant 0 <= j <= p && at == pos + j * fstride && place == fout + j * m
        invariant WrittenUpTo(factors, n, stages, l, pos, fstride, fout, j, was, f[..])
      {
        ghost var mid := f[..];
        SplitIndex(0, fstride, p, pos, j);
        ComputeBitrevTable(place, f, at, fstride * p, factors, l + 1, n, stages);
        ResidueDone(factors, n, stages, l, pos, fstride, fout, j, was, mid, f[..]);
        Arith.Next(j, fstride);
        Arith.Next(j, m);
        at := at + fstride;
        place := place + m;
        j := j + 1;
      }
    }
    AllResidues(factors, n, stages, l, pos, fstride, fout, was, f[..]);
  }

  /** The radix and the length of stage l, and the facts the recursion starts from. */
  method StageEntry(factors: seq<int>, l: nat, ghost n: nat, ghost stages: nat, ghost pos: int, ghost fstride: int,
                    ghost place: int, ghost was: seq<int>) returns (p: int, m: int)
    requires IsFactorList(factors, n, stages) && l < stages && |was| == n
    requires fstride == Stride(factors, l) && 0 <= pos < fstride
    ensures 2 * l + 1 < |factors| && p == factors[2 * l] && m == factors[2 * l + 1] && p >= 1
    ensures m == 1 <==> l == stages - 1
    ensures fstride * p >= 1 && Stride(factors, l + 1) == fstride * p
    ensures WrittenUpTo(factors, n, stages, l, pos, fstride, place, 0, was, was)
  {
    p := factors[2 * l];
    m := factors[2 * l + 1];
    StrideLen(factors, n, stages, l);
    LenPositive(factors, n, stages, l);
    LastStage(factors, n, stages, l);
    NoResidue(factors, n, stages, l, pos, fstride, place, was);
    Arith.MulPos(fstride, p);
  }
}
