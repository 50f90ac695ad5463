/** pitch_search of pitch.c: a coarse search on decimated signals, a fine search around its two answers, an offset. */
module PitchSearch {
  import opened Arith
  import opened Reals
  import opened Correlation
  import opened BestPitch

  /** Every second sample of x from xo, n of them. */
  ghost function Decimated(x: seq<real>, xo: int, n: nat): (d: seq<real>)
    ensures |d| == n
  {
    seq(n, j => RAt(x, xo + 2 * j))
  }

  /** Lags 0 to n - 1 of the correlation of len samples. */
  ghost function Lags(x: seq<real>, xo: int, y: seq<real>, len: nat, n: nat): (c: seq<real>)
    ensures |c| == n
  {
    seq(n, i => Dot(x, xo, y, i, len))
  }

  /** Lag i lies within two of one of the doubled coarse answers. */
  predicate Near(i: int, p0: int, p1: int)
  {
    Abs(i - 2 * p0) <= 2 || Abs(i - 2 * p1) <= 2
  }

  /** The correlations of the fine search: only lags near a coarse answer are computed, floored at -1. */
  ghost function FineLag(x: seq<real>, xo: int, y: seq<real>, len: nat, p0: int, p1: int, i: int): real
  {
    if !Near(i, p0, p1) then 0.0
    else if -1.0 > Dot(x, xo, y, i, len) then -1.0 else Dot(x, xo, y, i, len)
  }

  lemma FineLagIs(x: seq<real>, xo: int, y: seq<real>, len: nat, p0: int, p1: int, i: int)
    ensures
      var near := 2 * p0 - 2 <= i <= 2 * p0 + 2 || 2 * p1 - 2 <= i <= 2 * p1 + 2;
      var c := Dot(x, xo, y, i, len);
      FineLag(x, xo, y, len, p0, p1, i) == if near then if c < -1.0 then -1.0 else c else 0.0
  {
    hide Dot;
  }

  ghost function FineLags(x: seq<real>, xo: int, y: seq<real>, len: nat, n: nat, p0: int, p1: int): (c: seq<real>)
    ensures |c| == n
  {
    seq(n, i => FineLag(x, xo, y, len, p0, p1, i))
  }

  /** The pseudo-interpolation rule, shared by pitch_search (pitch.c:375-380) and remove_doubling (pitch.c:513-518). */
  function Interpolate(a: real, b: real, c: real): int
  {
    if c - a > SMul(0.7, b - a) then 1 else if a - c > SMul(0.7, b - c) then -1 else 0
  }

  /** At a peak the rule moves towards the larger neighbour, and mirroring the samples mirrors the move. */
  lemma InterpolateAtPeak(a: real, b: real, c: real)
    requires b >= a && b >= c
    ensures Interpolate(c, b, a) == -Interpolate(a, b, c)
    ensures (Interpolate(a, b, c) == 1 ==> c > a) && (Interpolate(a, b, c) == -1 ==> a > c)
    ensures a == c && b > a ==> Interpolate(a, b, c) == 0
  {
  }

  /** h - a (u - d)^2: a peak of height h, d steps from the middle. */
  function Parabola(h: real, a: real, d: real, u: real): real
  {
    h - SMul(a, SMul(u - d, u - d))
  }

  /** On a parabola the rule finds the top: it moves towards it exactly when that is more than 7/26 of a step away. */
  lemma InterpolateParabola(h: real, a: real, d: real)
    requires a > 0.0
    ensures Interpolate(Parabola(h, a, d, -1.0), Parabola(h, a, d, 0.0), Parabola(h, a, d, 1.0))
         == if 26.0 * d > 7.0 then 1 else if 26.0 * d < -7.0 then -1 else 0
  {
    hide *;
    ParabolaSteps(h, a, d);
    ScaledSign(a, 2.6 * d - 0.7);
    ScaledSign(a, -2.6 * d - 0.7);
    InterpolateIs(Parabola(h, a, d, -1.0), Parabola(h, a, d, 0.0), Parabola(h, a, d, 1.0));
  }

  lemma InterpolateIs(a: real, b: real, c: real)
    ensures Interpolate(a, b, c)
         == if c - a - 0.7 * (b - a) > 0.0 then 1 else if a - c - 0.7 * (b - c) > 0.0 then -1 else 0
  {
  }

  lemma ParabolaSteps(h: real, a: real, d: real)
    ensures
      var x, y, z := Parabola(h, a, d, -1.0), Parabola(h, a, d, 0.0), Parabola(h, a, d, 1.0);
      && z - x - 0.7 * (y - x) == SMul(a, 2.6 * d - 0.7) && x - z - 0.7 * (y - z) == SMul(a, -2.6 * d - 0.7)
  {
    var x, y, z := Parabola(h, a, d, -1.0), Parabola(h, a, d, 0.0), Parabola(h, a, d, 1.0);
    assert x == h - a * (d * d) - 2.0 * (a * d) - a;
    assert y == h - a * (d * d);
    assert z == h - a * (d * d) + 2.0 * (a * d) - a;
  }

  lemma ScaledSign(a: real, u: real)
    requires a > 0.0
    ensures SMul(a, u) > 0.0 <==> u > 0.0
  {
  }

  ghost function Refined(fine: seq<real>, n: int, q: int): int
  {
    if 0 < q < n - 1 < |fine| then 2 * q - Interpolate(fine[q - 1], fine[q], fine[q + 1]) else 2 * q
  }

  /** Around a parabola's top the doubled lag is moved by one, against the direction of the top, as pitch.c:384
      subtracts the offset that remove_doubling adds. */
  lemma RefinedMoves(fine: seq<real>, n: int, q: int, h: real, a: real, d: real)
    requires 0 < q < n - 1 < |fine| && a > 0.0
    ensures
      var x, y, z := Parabola(h, a, d, -1.0), Parabola(h, a, d, 0.0), Parabola(h, a, d, 1.0);
      Refined(fine[q - 1 := x][q := y][q + 1 := z], n, q)
      == if 26.0 * d > 7.0 then 2 * q - 1 else if 26.0 * d < -7.0 then 2 * q + 1 else 2 * q
  {
    hide Parabola, Interpolate;
    InterpolateParabola(h, a, d);
  }

  /** What pitch_search returns, with the answers of its two stages as witnesses. */
  ghost predicate Searched(x: seq<real>, xo: int, y: seq<real>, len: nat, maxPitch: nat,
                           p0: int, p1: int, q0: int, q1: int, pitch: int)
  {
    var y4 := Decimated(y, 0, (len + maxPitch) / 4);
    var fine := FineLags(x, xo, y, len / 2, maxPitch / 2, p0, p1);
    && BestPair(Lags(Decimated(x, xo, len / 4), 0, y4, len / 4, maxPitch / 4), y4, len / 4, maxPitch / 4, p0, p1)
    && BestPair(fine, y, len / 2, maxPitch / 2, q0, q1)
    && pitch == Refined(fine, maxPitch / 2, q0)
  }

  /** The two downsampling loops (pitch.c:305-308). */
  method Decimate(x: array<real>, xo: nat, n: nat) returns (d: array<real>)
    requires n > 0 ==> xo + 2 * n - 1 <= x.Length
    ensures fresh(d) && d[..] == Decimated(x[..], xo, n)
  {
    d := new real[n];
    var j := 0;
    while j < n
      invariant 0 <= j <= n
      invariant forall k :: 0 <= k < j ==> d[k] == RAt(x[..], xo + 2 * k)
      modifies d
    {
      d[j] := x[xo + 2 * j];
      j := j + 1;
    }
  }

  /** One pass of the fine loop (pitch.c:346-357). */
  method FineStep(x: array<real>, xo: nat, y: array<real>, len: nat, p0: int, p1: int, i: nat) returns (v: real)
    requires xo + len <= x.Length && i + len <= y.Length
    ensures v == FineLag(x[..], xo, y[..], len, p0, p1, i)
  {
    hide SMul, Dot;
    v := 0.0;
    if Abs(i - 2 * p0) > 2 && Abs(i - 2 * p1) > 2 {
      return;
    }
    var sum := InnerProd(x, xo, y, i, len);
    v := if -1.0 > sum then -1.0 else sum;
  }

  /** The fine loop (pitch.c:344-361). */
  method FineSearch(x: array<real>, xo: nat, y: array<real>, xcorr: array<real>, len: nat, n: nat, p0: int, p1: int)
    requires xo + len <= x.Length && n + len <= y.Length && n <= xcorr.Length && xcorr != x && xcorr != y
    modifies xcorr
    ensures xcorr[..n] == FineLags(x[..], xo, y[..], len, n, p0, p1)
  {
    hide SMul, Dot, FineLag;
    ghost var xs, ys := x[..], y[..];
    var i := 0;
    while i < n
      invariant 0 <= i <= n && x[..] == xs && y[..] == ys
      invariant forall k :: 0 <= k < i ==> xcorr[k] == FineLag(xs, xo, ys, len, p0, p1, k)
      modifies xcorr
    {
      var v := FineStep(x, xo, y, len, p0, p1, i);
      xcorr[i] := v;
      i := i + 1;
    }
  }

  /** pitch_search (pitch.c:283-385); x + xo is the address x_lp of the code, into the same buffer as y or another. */
  method PitchSearch(x: array<real>, xo: nat, y: array<real>, len: nat, maxPitch: nat)
      returns (pitch: int, ghost p0: int, ghost p1: int, ghost q0: int, ghost q1: int)
    requires len > 0 && maxPitch >= 4 && (maxPitch >= 16 ==> len >= 12)
    requires xo + len / 2 <= x.Length && len / 2 + maxPitch / 2 <= y.Length
    ensures Searched(x[..], xo, y[..], len, maxPitch, p0, p1, q0, q1, pitch)
    ensures 0 <= pitch <= maxPitch - 2
  {
    hide *;
    ghost var xs, ys := x[..], y[..];
    var lag := len + maxPitch;
    var xLp4 := Decimate(x, xo, len / 4);
    var yLp4 := Decimate(y, 0, lag / 4);
    DecimatedLength(xs, xo, len / 4, xLp4[..]);
    DecimatedLength(ys, 0, lag / 4, yLp4[..]);
    ghost var x4, y4 := xLp4[..], yLp4[..];
    var xcorr := new real[maxPitch / 2];
    PitchXcorr(xLp4, yLp4, xcorr, len / 4, maxPitch / 4);
    ghost var coarse := xcorr[..];
    var c0, c1 := FindBestPitch(xcorr, yLp4, len / 4, maxPitch / 4);
    p0, p1 := c0, c1;
    IsLags(x4, y4, len / 4, maxPitch / 4, coarse);
    SamePair(coarse, Lags(x4, 0, y4, len / 4, maxPitch / 4), y4, len / 4, maxPitch / 4, p0, p1);
    FineSearch(x, xo, y, xcorr, len / 2, maxPitch / 2, c0, c1);
    ghost var fine := xcorr[..];
    assert fine == xcorr[..maxPitch / 2];
    var b0, b1 := FindBestPitch(xcorr, y, len / 2, maxPitch / 2);
    q0, q1 := b0, b1;
    PairRange(fine, ys, len / 2, maxPitch / 2, b0, b1);
    var offset := 0;
    if b0 > 0 && b0 < maxPitch / 2 - 1 {
      offset := Interpolate(xcorr[b0 - 1], xcorr[b0], xcorr[b0 + 1]);
    }
    pitch := 2 * b0 - offset;
    RefinedRange(fine, maxPitch / 2, b0);
    RefinedIs(fine, maxPitch / 2, b0);
    SearchedIs(xs, xo, ys, len, maxPitch, p0, p1, q0, q1, pitch);
    assert x[..] == xs && y[..] == ys;
  }

  lemma DecimatedLength(x: seq<real>, xo: int, n: nat, d: seq<real>)
    requires d == Decimated(x, xo, n)
    ensures |d| == n
  {
  }

  lemma IsLags(x: seq<real>, y: seq<real>, len: nat, n: nat, c: seq<real>)
    requires n <= |c| && forall i :: 0 <= i < |c| && i < n ==> c[i] == Dot(x, 0, y, i, len)
    ensures c[..n] == Lags(x, 0, y, len, n)
  {
    hide Dot;
  }

  /** A pair depends only on the correlations that were searched. */
  lemma SamePair(c: seq<real>, d: seq<real>, y: seq<real>, len: nat, n: nat, b0: int, b1: int)
    requires n <= |c| && d == c[..n] && BestPair(c, y, len, n, b0, b1)
    ensures BestPair(d, y, len, n, b0, b1)
  {
    hide SMul, Syy;
    assert forall j: nat :: j < n ==> d[j] == c[j];
    assert forall j: nat :: j < n ==> Score(d, y, len, j) == Score(c, y, len, j);
    assert NonePositive(d, n, -1) == NonePositive(c, n, -1);
    assert NonePositive(d, n, b0) == NonePositive(c, n, b0);
  }

  lemma RefinedIs(fine: seq<real>, n: int, q: int)
    requires n == |fine| && 0 <= q
    ensures Refined(fine, n, q) == 2 * q - if 0 < q < n - 1 then Interpolate(fine[q - 1], fine[q], fine[q + 1]) else 0
  {
  }

  lemma RefinedRange(fine: seq<real>, n: int, q: int)
    requires 0 <= q < n
    ensures 0 <= Refined(fine, n, q) <= 2 * n - 2
  {
    hide SMul;
  }

  lemma SearchedIs(x: seq<real>, xo: int, y: seq<real>, len: nat, maxPitch: nat,
                   p0: int, p1: int, q0: int, q1: int, pitch: int)
    requires
      var y4 := Decimated(y, 0, (len + maxPitch) / 4);
      var fine := FineLags(x, xo, y, len / 2, maxPitch / 2, p0, p1);
      && BestPair(Lags(Decimated(x, xo, len / 4), 0, y4, len / 4, maxPitch / 4), y4, len / 4, maxPitch / 4, p0, p1)
      && BestPair(fine, y, len / 2, maxPitch / 2, q0, q1)
      && pitch == Refined(fine, maxPitch / 2, q0)
    ensures Searched(x, xo, y, len, maxPitch, p0, p1, q0, q1, pitch)
  {
  }

  /** A lag the fine search computes and whose correlation is positive. */
  ghost predicate Candidate(x: seq<real>, xo: int, y: seq<real>, len: nat, maxPitch: nat, p0: int, p1: int, i: int)
  {
    0 <= i < maxPitch / 2 && Near(i, p0, p1) && Dot(x, xo, y, i, len / 2) > 0.0
  }

  /** The squared correlation at a lag over the energy of y there. */
  ghost function Strength(x: seq<real>, xo: int, y: seq<real>, len: nat, i: int): real
  {
    EnergyPositive(y, len, i);
    SMul(Dot(x, xo, y, i, len), Dot(x, xo, y, i, len)) / Syy(y, len, i)
  }

  /** A candidate is a lag in range, within two of a doubled coarse answer, with a positive correlation; its strength is
      the squared correlation over one plus the energy of its window. */
  lemma CandidatesAre(x: seq<real>, xo: int, y: seq<real>, len: nat, maxPitch: nat, p0: int, p1: int, i: int)
    ensures Candidate(x, xo, y, len, maxPitch, p0, p1, i) <==>
      && 0 <= i < maxPitch / 2 && (2 * p0 - 2 <= i <= 2 * p0 + 2 || 2 * p1 - 2 <= i <= 2 * p1 + 2)
      && Dot(x, xo, y, i, len / 2) > 0.0
    ensures SMul(Strength(x, xo, y, len, i), 1.0 + Dot(y, i, y, i, len))
         == SMul(Dot(x, xo, y, i, len), Dot(x, xo, y, i, len))
  {
    hide Dot, SMul;
    EnergyPositive(y, len, i);
    OverTimes(SMul(Dot(x, xo, y, i, len), Dot(x, xo, y, i, len)), 1.0 + Dot(y, i, y, i, len));
  }

  lemma OverTimes(a: real, b: real)
    requires b > 0.0
    ensures SMul(a / b, b) == a
  {
  }

  /** The search answers the earliest of the strongest positive lags near the two coarse answers, to within one
      sample, and 0 exactly when there is no such lag or it is lag 0. */
  lemma SearchOptimal(x: seq<real>, xo: int, y: seq<real>, len: nat, maxPitch: nat,
                      p0: int, p1: int, q0: int, q1: int, pitch: int)
    requires maxPitch >= 4 && Searched(x, xo, y, len, maxPitch, p0, p1, q0, q1, pitch)
    ensures 2 * q0 - 1 <= pitch <= 2 * q0 + 1 && (pitch == 0 <==> q0 == 0)
    ensures forall i :: Candidate(x, xo, y, len, maxPitch, p0, p1, i) ==>
      Candidate(x, xo, y, len, maxPitch, p0, p1, q0)
      && Strength(x, xo, y, len / 2, i) <= Strength(x, xo, y, len / 2, q0)
      && (i < q0 ==> Strength(x, xo, y, len / 2, i) < Strength(x, xo, y, len / 2, q0))
    ensures q0 != 0 ==> Candidate(x, xo, y, len, maxPitch, p0, p1, q0)
  {
    hide SMul, Dot, Strength, Score, Syy, Lags, Decimated;
    var n := maxPitch / 2;
    var fine := FineLags(x, xo, y, len / 2, n, p0, p1);
    forall i: nat | i < n
      ensures fine[i] > 0.0 <==> Candidate(x, xo, y, len, maxPitch, p0, p1, i)
      ensures fine[i] > 0.0 ==> Score(fine, y, len / 2, i) == Strength(x, xo, y, len / 2, i)
    {
      ScoreIsStrength(x, xo, y, len / 2, n, p0, p1, i);
    }
    PairRange(fine, y, len / 2, n, q0, q1);
    forall i | Candidate(x, xo, y, len, maxPitch, p0, p1, i)
      ensures Candidate(x, xo, y, len, maxPitch, p0, p1, q0)
      ensures Strength(x, xo, y, len / 2, i) <= Strength(x, xo, y, len / 2, q0)
      ensures i < q0 ==> Strength(x, xo, y, len / 2, i) < Strength(x, xo, y, len / 2, q0)
    {
      var j: nat := i;
      assert fine[j] > 0.0;
      assert FirstBest(fine, y, len / 2, n, -1, q0);
      assert Score(fine, y, len / 2, j) <= Score(fine, y, len / 2, q0);
    }
  }

  lemma ScoreIsStrength(x: seq<real>, xo: int, y: seq<real>, len: nat, n: nat, p0: int, p1: int, i: nat)
    requires i < n
    ensures
      var fine := FineLags(x, xo, y, len, n, p0, p1);
      && (fine[i] > 0.0 <==> Near(i, p0, p1) && Dot(x, xo, y, i, len) > 0.0)
      && (fine[i] > 0.0 ==> Score(fine, y, len, i) == Strength(x, xo, y, len, i))
  {
    hide Dot;
  }
}
