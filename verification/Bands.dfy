/** Band energies, band correlations and gain interpolation of denoise.c. */
module Bands {
  import opened Reals
  import opened Complex
  import opened Inequalities
  import opened Sizes

  /** Band edges in units of four bins (denoise.c:73-76). */
  const EBAND5MS: seq<nat> := [0, 1, 2, 3, 4, 5, 6, 7, 8, 10, 12, 14, 16, 20, 24, 28, 34, 40, 48, 60, 78, 100]

  /** What the code needs of a table of band edges. memset(g, 0, FREQ_SIZE) in interp_band_gain clears FREQ_SIZE bytes
      and leaves a torn word at index 120, which the bands have to cover. */
  predicate IsBands(e: seq<nat>)
  {
    && |e| >= 2 && e[0] == 0 && 4 * e[|e| - 1] <= FREQ_SIZE && 4 * e[|e| - 1] > FREQ_SIZE / 4
    && forall i, j :: 0 <= i < j < |e| ==> e[i] <= e[j]
  }

  lemma EbandIsBands()
    ensures IsBands(EBAND5MS) && |EBAND5MS| == NB_BANDS && 4 * EBAND5MS[NB_BANDS - 1] == 400
  {
  }

  /** In steps of 200 Hz: the bands never get narrower, from one step each up to 22. */
  lemma EbandWidths()
    ensures forall i :: 0 <= i < 21 ==>
      EBAND5MS[i + 1] - EBAND5MS[i] == [1, 1, 1, 1, 1, 1, 1, 1, 2, 2, 2, 2, 4, 4, 4, 6, 6, 8, 12, 18, 22][i]
  {
  }

  function Start(e: seq<nat>, i: nat): nat
    requires i < |e|
  {
    4 * e[i]
  }

  function Size(e: seq<nat>, i: nat): int
    requires i + 1 < |e|
  {
    4 * (e[i + 1] as int - e[i] as int)
  }

  /** (float)j / band_size. */
  function Frac(j: int, size: int): real
  {
    if size == 0 then 0.0 else j as real / size as real
  }

  lemma FracRange(j: int, size: int)
    requires 0 <= j < size
    ensures 0.0 <= Frac(j, size) < 1.0
  {
    var f := j as real / size as real;
    assert f * size as real == j as real;
    assert f < 0.0 ==> f * size as real < 0.0;
    assert f >= 1.0 ==> f * size as real >= size as real;
  }

  // ---- Specification of the two band sums ----

  /** The part of bin start + j that counts for the band below. */
  ghost function Low(p: int -> real, start: int, size: int, j: int): real
  {
    SMul(1.0 - Frac(j, size), p(start + j))
  }

  /** The part that counts for the band above. */
  ghost function High(p: int -> real, start: int, size: int, j: int): real
  {
    SMul(Frac(j, size), p(start + j))
  }

  ghost function LowSum(p: int -> real, start: int, size: int, n: nat): real
  {
    RSum(n, j => Low(p, start, size, j))
  }

  ghost function HighSum(p: int -> real, start: int, size: int, n: nat): real
  {
    RSum(n, j => High(p, start, size, j))
  }

  /** What the triangles around edge b collect of p. */
  ghost function Triangle(e: seq<nat>, p: int -> real, b: nat): real
    requires IsBands(e) && b < |e|
  {
    (if b + 1 < |e| then LowSum(p, Start(e, b), Size(e, b), Size(e, b)) else 0.0)
    + (if b > 0 then HighSum(p, Start(e, b - 1), Size(e, b - 1), Size(e, b - 1)) else 0.0)
  }

  /** Band value: the end bands have half a triangle and are doubled. */
  ghost function Band(e: seq<nat>, p: int -> real, b: nat): real
    requires IsBands(e) && b < |e|
  {
    if b == 0 || b == |e| - 1 then 2.0 * Triangle(e, p, b) else Triangle(e, p, b)
  }

  /** Real part of X_k conj P_k. */
  ghost function Together(X: seq<Cpx>, P: seq<Cpx>, k: int): real
  {
    SMul(At(X, k).r, At(P, k).r) + SMul(At(X, k).i, At(P, k).i)
  }

  ghost function Product(X: seq<Cpx>, P: seq<Cpx>): int -> real
  {
    k => Together(X, P, k)
  }

  ghost function BandCorr(e: seq<nat>, X: seq<Cpx>, P: seq<Cpx>, b: nat): real
    requires IsBands(e) && b < |e|
  {
    Band(e, Product(X, P), b)
  }

  // ---- The code ----

  lemma SumsNext(p: int -> real, start: int, size: int, n: nat)
    ensures LowSum(p, start, size, 0) == 0.0 && HighSum(p, start, size, 0) == 0.0
    ensures LowSum(p, start, size, n + 1) == LowSum(p, start, size, n) + Low(p, start, size, n)
    ensures HighSum(p, start, size, n + 1) == HighSum(p, start, size, n) + High(p, start, size, n)
  {
    hide Low, High;
  }

  /** After the first i bands: sum[b] has its lower half for b < i and its upper half for b <= i. */
  ghost function PartSum(e: seq<nat>, p: int -> real, i: nat, b: nat): real
    requires IsBands(e) && i < |e| && b < |e|
  {
    (if b < i then LowSum(p, Start(e, b), Size(e, b), Size(e, b)) else 0.0)
    + (if 0 < b <= i then HighSum(p, Start(e, b - 1), Size(e, b - 1), Size(e, b - 1)) else 0.0)
  }

  lemma SizeFits(e: seq<nat>, i: nat)
    requires IsBands(e) && i + 1 < |e|
    ensures 0 <= Size(e, i) && Start(e, i) + Size(e, i) == Start(e, i + 1) && Start(e, i) + Size(e, i) <= FREQ_SIZE
  {
    assert e[i] <= e[i + 1];
    if i + 1 < |e| - 1 {
      assert e[i + 1] <= e[|e| - 1];
    }
  }

  /** One pass of the outer loop of compute_band_corr (denoise.c:128-141). */
  method CorrBand(e: seq<nat>, sum: array<real>, X: array<Cpx>, P: array<Cpx>, i: nat)
    requires IsBands(e) && i + 1 < |e| && sum.Length == |e| && X.Length >= FREQ_SIZE && P.Length >= FREQ_SIZE
    modifies sum
    ensures
      var p := Product(X[..], P[..]);
      && sum[i] == old(sum[i]) + LowSum(p, Start(e, i), Size(e, i), Size(e, i))
      && sum[i + 1] == old(sum[i + 1]) + HighSum(p, Start(e, i), Size(e, i), Size(e, i))
    ensures forall b :: 0 <= b < |e| && b != i && b != i + 1 ==> sum[b] == old(sum[b])
  {
    hide SMul, LowSum, HighSum, Frac, IsBands, Size, Start;
    SizeFits(e, i);
    ghost var xs, ps := X[..], P[..];
    ghost var p := Product(xs, ps);
    ghost var s0, s1 := sum[i], sum[i + 1];
    var bandSize := Size(e, i);
    var start := Start(e, i);
    SumsNext(p, start, bandSize, 0);
    var j := 0;
    while j < bandSize
      invariant 0 <= j <= bandSize && X[..] == xs && P[..] == ps
      invariant sum[i] == s0 + LowSum(p, start, bandSize, j) && sum[i + 1] == s1 + HighSum(p, start, bandSize, j)
      invariant forall b :: 0 <= b < |e| && b != i && b != i + 1 ==> sum[b] == old(sum[b])
      modifies sum
    {
      SumsNext(p, start, bandSize, j);
      var frac := Frac(j, bandSize);
      var tmp := SMul(X[start + j].r, P[start + j].r);
      tmp := tmp + SMul(X[start + j].i, P[start + j].i);
      assert tmp == p(start + j);
      sum[i] := sum[i] + SMul(1.0 - frac, tmp);
      sum[i + 1] := sum[i + 1] + SMul(frac, tmp);
      j := j + 1;
    }
  }

  /** compute_band_corr (denoise.c:125-148). */
  method ComputeBandCorr(e: seq<nat>, bandE: array<real>, X: array<Cpx>, P: array<Cpx>)
    requires IsBands(e) && bandE.Length == |e| && X.Length >= FREQ_SIZE && P.Length >= FREQ_SIZE
    modifies bandE
    ensures forall b :: 0 <= b < |e| ==> bandE[b] == BandCorr(e, X[..], P[..], b)
  {
    hide IsBands, Start, Size, LowSum, HighSum, Together, PartSum, Triangle, Product;
    AtLeastTwo(e);
    ghost var xs, ps := X[..], P[..];
    ghost var p := Product(xs, ps);
    var sum := new real[|e|](_ => 0.0);
    PartStart(e, p);
    var i := 0;
    while i < |e| - 1
      invariant 0 <= i <= |e| - 1 && X[..] == xs && P[..] == ps
      invariant forall b :: 0 <= b < |e| ==> sum[b] == PartSum(e, p, i, b)
      modifies sum
    {
      ghost var before := sum[..];
      CorrBand(e, sum, X, P, i);
      assert X[..] == xs && P[..] == ps;
      PartNext(e, p, i, before, sum[..]);
      i := i + 1;
    }
    PartEnd(e, p);
    sum[0] := 2.0 * sum[0];
    sum[|e| - 1] := 2.0 * sum[|e| - 1];
    i := 0;
    while i < |e|
      invariant 0 <= i <= |e|
      invariant forall b :: 0 <= b < i ==> bandE[b] == sum[b]
      modifies bandE
    {
      bandE[i] := sum[i];
      i := i + 1;
    }
    assert X[..] == xs && P[..] == ps;
  }

  /** One pass of the outer loop of compute_band_energy (denoise.c:103-116). */
  method EnergyPass(e: seq<nat>, sum: array<real>, X: array<Cpx>, i: nat)
    requires IsBands(e) && i + 1 < |e| && sum.Length == |e| && X.Length >= FREQ_SIZE
    modifies sum
    ensures
      var p := Product(X[..], X[..]);
      && sum[i] == old(sum[i]) + LowSum(p, Start(e, i), Size(e, i), Size(e, i))
      && sum[i + 1] == old(sum[i + 1]) + HighSum(p, Start(e, i), Size(e, i), Size(e, i))
    ensures forall b :: 0 <= b < |e| && b != i && b != i + 1 ==> sum[b] == old(sum[b])
  {
    hide SMul, LowSum, HighSum, Frac, IsBands, Size, Start;
    SizeFits(e, i);
    ghost var xs := X[..];
    ghost var p := Product(xs, xs);
    ghost var s0, s1 := sum[i], sum[i + 1];
    var bandSize := Size(e, i);
    var start := Start(e, i);
    SumsNext(p, start, bandSize, 0);
    var j := 0;
    while j < bandSize
      invariant 0 <= j <= bandSize && X[..] == xs
      invariant sum[i] == s0 + LowSum(p, start, bandSize, j) && sum[i + 1] == s1 + HighSum(p, start, bandSize, j)
      invariant forall b :: 0 <= b < |e| && b != i && b != i + 1 ==> sum[b] == old(sum[b])
      modifies sum
    {
      SumsNext(p, start, bandSize, j);
      var frac := Frac(j, bandSize);
      var tmp := SMul(X[start + j].r, X[start + j].r);
      tmp := tmp + SMul(X[start + j].i, X[start + j].i);
      assert tmp == p(start + j);
      sum[i] := sum[i] + SMul(1.0 - frac, tmp);
      sum[i + 1] := sum[i + 1] + SMul(frac, tmp);
      j := j + 1;
    }
  }

  /** compute_band_energy (denoise.c:100-123). */
  method ComputeBandEnergy(e: seq<nat>, bandE: array<real>, X: array<Cpx>)
    requires IsBands(e) && bandE.Length == |e| && X.Length >= FREQ_SIZE
    modifies bandE
    ensures forall b :: 0 <= b < |e| ==> bandE[b] == BandCorr(e, X[..], X[..], b)
    ensures forall b :: 0 <= b < |e| ==> bandE[b] >= 0.0
  {
    hide IsBands, Start, Size, LowSum, HighSum, Together, PartSum, Triangle, Product;
    AtLeastTwo(e);
    ghost var xs := X[..];
    ghost var p := Product(xs, xs);
    var sum := new real[|e|](_ => 0.0);
    PartStart(e, p);
    var i := 0;
    while i < |e| - 1
      invariant 0 <= i <= |e| - 1 && X[..] == xs
      invariant forall b :: 0 <= b < |e| ==> sum[b] == PartSum(e, p, i, b)
      modifies sum
    {
      ghost var before := sum[..];
      EnergyPass(e, sum, X, i);
      assert X[..] == xs;
      PartNext(e, p, i, before, sum[..]);
      i := i + 1;
    }
    PartEnd(e, p);
    sum[0] := 2.0 * sum[0];
    sum[|e| - 1] := 2.0 * sum[|e| - 1];
    i := 0;
    while i < |e|
      invariant 0 <= i <= |e|
      invariant forall b :: 0 <= b < i ==> bandE[b] == sum[b]
      modifies bandE
    {
      bandE[i] := sum[i];
      i := i + 1;
    }
    assert X[..] == xs;
    forall b | 0 <= b < |e|
      ensures BandCorr(e, xs, xs, b) >= 0.0
    {
      EnergyBand(e, xs, b);
    }
  }

  lemma AtLeastTwo(e: seq<nat>)
    requires IsBands(e)
    ensures |e| >= 2
  {
  }

  lemma PartStart(e: seq<nat>, p: int -> real)
    requires IsBands(e)
    ensures forall b: nat :: b < |e| ==> PartSum(e, p, 0, b) == 0.0
  {
  }

  lemma PartNext(e: seq<nat>, p: int -> real, i: nat, before: seq<real>, after: seq<real>)
    requires IsBands(e) && i + 1 < |e| && |before| == |after| == |e|
    requires forall b :: 0 <= b < |e| ==> before[b] == PartSum(e, p, i, b)
    requires after[i] == before[i] + LowSum(p, Start(e, i), Size(e, i), Size(e, i))
    requires after[i + 1] == before[i + 1] + HighSum(p, Start(e, i), Size(e, i), Size(e, i))
    requires forall b :: 0 <= b < |e| && b != i && b != i + 1 ==> after[b] == before[b]
    ensures forall b :: 0 <= b < |e| ==> after[b] == PartSum(e, p, i + 1, b)
  {
    hide LowSum, HighSum, Start, Size;
    forall b | 0 <= b < |e|
      ensures after[b] == PartSum(e, p, i + 1, b)
    {
      assert before[b] == PartSum(e, p, i, b);
    }
  }

  lemma PartEnd(e: seq<nat>, p: int -> real)
    requires IsBands(e)
    ensures forall b: nat :: b < |e| ==> PartSum(e, p, |e| - 1, b) == Triangle(e, p, b)
  {
    hide LowSum, HighSum;
  }

  // ---- Gain interpolation ----

  /** The gain of bin start + j between the gains of the two edges around it. */
  function Mix(a: real, b: real, j: int, size: int): real
  {
    SMul(1.0 - Frac(j, size), a) + SMul(Frac(j, size), b)
  }

  ghost predicate MixedAt(g: seq<real>, start: int, size: int, a: real, b: real, j: int)
  {
    0 <= start + j < |g| && g[start + j] == Mix(a, b, j, size)
  }

  ghost predicate BandMixed(e: seq<nat>, gains: seq<real>, g: seq<real>, i: nat)
    requires IsBands(e) && i + 1 < |e| && |gains| == |e| && |g| == FREQ_SIZE
  {
    var below, above, start, size := gains[i], gains[i + 1], Start(e, i), Size(e, i);
    forall j :: 0 <= j < size ==> MixedAt(g, start, size, below, above, j)
  }

  /** g interpolates gains over the first n bands. */
  ghost predicate Interpolated(e: seq<nat>, gains: seq<real>, g: seq<real>, n: nat)
    requires IsBands(e) && n < |e| && |gains| == |e| && |g| == FREQ_SIZE
  {
    forall i: nat :: i < n ==> BandMixed(e, gains, g, i)
  }

  /** interp_band_gain (denoise.c:150-163). The clearing at its start covers FREQ_SIZE bytes, not FREQ_SIZE bins: 120
      bins and a quarter; the torn bin 120 enters as any value. Bins past the last band edge keep what the caller had
      there. */
  method InterpBandGain(e: seq<nat>, g: array<real>, bandE: seq<real>, torn: real)
    requires IsBands(e) && g.Length == FREQ_SIZE && |bandE| == |e|
    modifies g
    ensures Interpolated(e, bandE, g[..], |e| - 1)
    ensures forall k :: Start(e, |e| - 1) <= k < FREQ_SIZE ==> g[k] == old(g[k])
  {
    hide Mix;
    var k := 0;
    while k < FREQ_SIZE / 4
      invariant 0 <= k <= FREQ_SIZE / 4 && forall m :: FREQ_SIZE / 4 <= m < FREQ_SIZE ==> g[m] == old(g[m])
    {
      g[k] := 0.0;
      k := k + 1;
    }
    g[FREQ_SIZE / 4] := torn;
    var i := 0;
    while i < |e| - 1
      invariant 0 <= i <= |e| - 1 && Interpolated(e, bandE, g[..], i)
      invariant forall m :: Start(e, |e| - 1) <= m < FREQ_SIZE ==> g[m] == old(g[m])
    {
      ghost var before := g[..];
      InterpBand(e, g, bandE, i);
      KeepsBands(e, bandE, before, g[..], i);
      i := i + 1;
    }
  }

  /** One pass of its outer loop. */
  method InterpBand(e: seq<nat>, g: array<real>, bandE: seq<real>, i: nat)
    requires IsBands(e) && g.Length == FREQ_SIZE && |bandE| == |e| && i + 1 < |e|
    modifies g
    ensures BandMixed(e, bandE, g[..], i)
    ensures forall k :: 0 <= k < FREQ_SIZE && !(Start(e, i) <= k < Start(e, i + 1)) ==> g[k] == old(g[k])
  {
    hide Mix, IsBands;
    SizeFits(e, i);
    var bandSize := Size(e, i);
    var start := Start(e, i);
    var below, above := bandE[i], bandE[i + 1];
    var j := 0;
    while j < bandSize
      invariant 0 <= j <= bandSize
      invariant forall m :: 0 <= m < j ==> MixedAt(g[..], start, bandSize, below, above, m)
      invariant forall k :: 0 <= k < FREQ_SIZE && !(start <= k < start + bandSize) ==> g[k] == old(g[k])
    {
      ghost var before := g[..];
      g[start + j] := Mix(below, above, j, bandSize);
      MixedNext(before, g[..], start, bandSize, below, above, j);
      j := j + 1;
    }
  }

  lemma MixedNext(before: seq<real>, after: seq<real>, start: int, size: int, below: real, above: real, j: nat)
    requires 0 <= start + j < |before| && after == before[start + j := Mix(below, above, j, size)]
    requires forall m :: 0 <= m < j ==> MixedAt(before, start, size, below, above, m)
    ensures forall m :: 0 <= m < j + 1 ==> MixedAt(after, start, size, below, above, m)
  {
    hide Mix;
    forall m | 0 <= m < j + 1
      ensures MixedAt(after, start, size, below, above, m)
    {
      if m < j {
        assert MixedAt(before, start, size, below, above, m);
      }
    }
  }

  /** Writing band i leaves the bands below it alone. */
  lemma KeepsBands(e: seq<nat>, gains: seq<real>, before: seq<real>, after: seq<real>, i: nat)
    requires IsBands(e) && i + 1 < |e| && |gains| == |e| && |before| == |after| == FREQ_SIZE
    requires Interpolated(e, gains, before, i) && BandMixed(e, gains, after, i)
    requires forall k :: 0 <= k < FREQ_SIZE && !(Start(e, i) <= k < Start(e, i + 1)) ==> after[k] == before[k]
    ensures Interpolated(e, gains, after, i + 1)
  {
    hide Mix;
    forall m: nat | m < i + 1
      ensures BandMixed(e, gains, after, m)
    {
      if m < i {
        assert BandMixed(e, gains, before, m);
        SizeFits(e, m);
        assert e[m + 1] <= e[i];
        var below, above, start, size := gains[m], gains[m + 1], Start(e, m), Size(e, m);
        forall j | 0 <= j < size
          ensures MixedAt(after, start, size, below, above, j)
        {
          assert MixedAt(before, start, size, below, above, j);
        }
      }
    }
  }

  lemma FracTimes(j: int, size: int, x: real)
    requires size > 0
    ensures SMul(Frac(j, size), x) * size as real == j as real * x
  {
    var f := j as real / size as real;
    assert f * size as real == j as real;
    assert (f * x) * size as real == (f * size as real) * x;
  }

  /** Within band i the gain is a straight line: it starts at the band's own gain, and each bin adds the same part of
      the way to the next. */
  lemma Ramp(e: seq<nat>, gains: seq<real>, g: seq<real>, i: nat, j: int)
    requires IsBands(e) && |gains| == |e| && |g| == FREQ_SIZE && Interpolated(e, gains, g, |e| - 1)
    requires i + 1 < |e| && 0 <= j < 4 * e[i + 1] - 4 * e[i]
    ensures 0 <= 4 * e[i] + j < |g|
    ensures (g[4 * e[i] + j] - gains[i]) * (4 * e[i + 1] - 4 * e[i]) as real == j as real * (gains[i + 1] - gains[i])
    ensures j == 0 ==> g[4 * e[i]] == gains[i]
  {
    hide SMul, Frac;
    var size := Size(e, i);
    assert BandMixed(e, gains, g, i);
    assert MixedAt(g, Start(e, i), size, gains[i], gains[i + 1], j);
    var d := gains[i + 1] - gains[i];
    LinearMix(gains[i], gains[i + 1], Frac(j, size));
    assert size == 4 * e[i + 1] - 4 * e[i];
    Along(j, size, d, g[4 * e[i] + j] - gains[i]);
    if j == 0 {
      NoFraction(size, gains[i + 1] - gains[i]);
    }
  }

  lemma Along(j: int, size: int, d: real, w: real)
    requires size > 0 && w == SMul(Frac(j, size), d)
    ensures w * size as real == j as real * d
  {
    hide SMul, Frac;
    FracTimes(j, size, d);
  }

  lemma NoFraction(size: int, x: real)
    ensures SMul(Frac(0, size), x) == 0.0
  {
  }

  lemma LinearMix(a: real, b: real, f: real)
    ensures SMul(1.0 - f, a) + SMul(f, b) == a + SMul(f, b - a)
  {
    hide SMul;
    SMulLinear(1.0, f, a);
    SMulUnit(a);
    SMulLinear(b, a, f);
  }

  /** An interpolated gain lies between the gains around it. */
  lemma MixBetween(a: real, b: real, j: int, size: int)
    requires 0 <= j < size
    ensures a <= b ==> a <= Mix(a, b, j, size) <= b
    ensures b <= a ==> b <= Mix(a, b, j, size) <= a
  {
    FracRange(j, size);
    Between(a, b, Frac(j, size));
  }

  lemma Between(a: real, b: real, f: real)
    requires 0.0 <= f < 1.0
    ensures a <= b ==> a <= SMul(1.0 - f, a) + SMul(f, b) <= b
    ensures b <= a ==> b <= SMul(1.0 - f, a) + SMul(f, b) <= a
  {
    var m := SMul(1.0 - f, a) + SMul(f, b);
    assert m == a + SMul(f, b - a) && m == b - SMul(1.0 - f, b - a);
    assert m == a - SMul(f, a - b) && m == b + SMul(1.0 - f, a - b);
    if a <= b {
      SMulNonNegative(f, b - a);
      SMulNonNegative(1.0 - f, b - a);
    }
    if b <= a {
      SMulNonNegative(f, a - b);
      SMulNonNegative(1.0 - f, a - b);
    }
  }

  lemma MixEqual(a: real, j: int, size: int)
    ensures Mix(a, a, j, size) == a
  {
    assert (1.0 - Frac(j, size)) * a + Frac(j, size) * a == a;
  }

  // ---- Adjointness ----

  ghost function Weighted(g: seq<real>, p: int -> real, k: int): real
  {
    SMul(RAt(g, k), p(k))
  }

  ghost function WeightedSum(g: seq<real>, p: int -> real, n: nat): real
  {
    RSum(n, k => Weighted(g, p, k))
  }

  /** One band of the gained spectrum. */
  lemma BandAdjoint(e: seq<nat>, gains: seq<real>, g: seq<real>, p: int -> real, i: nat)
    requires IsBands(e) && i + 1 < |e| && |gains| == |e| && |g| == FREQ_SIZE && BandMixed(e, gains, g, i)
    ensures
      var size := Size(e, i);
      size >= 0 && WeightedSum(g, p, Start(e, i + 1))
      == WeightedSum(g, p, Start(e, i)) + SMul(gains[i], LowSum(p, Start(e, i), size, size))
         + SMul(gains[i + 1], HighSum(p, Start(e, i), size, size))
  {
    hide SMul, Low, High, Weighted, IsBands, Mix;
    SizeFits(e, i);
    var size: nat := Size(e, i);
    var start := Start(e, i);
    RSumSplit(start, size, k => Weighted(g, p, k));
    RSumCong(size, j => (k => Weighted(g, p, k))(start + j), j => Weighted(g, p, start + j));
    forall j | 0 <= j < size
      ensures Weighted(g, p, start + j)
           == SMul(gains[i], Low(p, start, size, j)) + SMul(gains[i + 1], High(p, start, size, j))
    {
      assert MixedAt(g, start, size, gains[i], gains[i + 1], j);
      MixedTerm(gains[i], gains[i + 1], g, p, start, size, j);
    }
    RSumMul(size, j => Low(p, start, size, j), gains[i]);
    RSumMul(size, j => High(p, start, size, j), gains[i + 1]);
    TwoParts(size, p, g, start, gains[i], gains[i + 1]);
  }

  lemma MixedTerm(a: real, b: real, g: seq<real>, p: int -> real, start: int, size: int, j: int)
    requires 0 <= start && 0 <= j < size && start + size <= |g| && g[start + j] == Mix(a, b, j, size)
    ensures Weighted(g, p, start + j) == SMul(a, Low(p, start, size, j)) + SMul(b, High(p, start, size, j))
  {
    hide SMul, Frac;
    var f, v := Frac(j, size), p(start + j);
    SMulLinear(SMul(1.0 - f, a), SMul(f, b), v);
    SMulSign(1.0 - f, a);
    SMulSign(f, b);
    SMulAssoc(a, 1.0 - f, v);
    SMulAssoc(b, f, v);
  }

  lemma TwoParts(size: nat, p: int -> real, g: seq<real>, start: int, a: real, b: real)
    requires forall j :: 0 <= j < size ==>
      Weighted(g, p, start + j) == SMul(a, Low(p, start, size, j)) + SMul(b, High(p, start, size, j))
    ensures RSum(size, j => Weighted(g, p, start + j))
         == SMul(a, LowSum(p, start, size, size)) + SMul(b, HighSum(p, start, size, size))
  {
    hide SMul, Low, High, Weighted;
    var lows := (j: int) => Low(p, start, size, j);
    var scaled := (j: int) => SMul(a, lows(j));
    RSumCombine(size, j => Weighted(g, p, start + j), scaled, j => High(p, start, size, j), b);
    RSumMul(size, lows, a);
    RSumCong(size, scaled, j => SMul(a, lows(j)));
    RSumCong(size, lows, j => Low(p, start, size, j));
  }

  /** Gains against band parts: the first n bands, edge n with only its upper half so far. */
  ghost function Collected(e: seq<nat>, gains: seq<real>, p: int -> real, n: nat): real
    requires IsBands(e) && n < |e| && |gains| == |e|
  {
    if n == 0 then 0.0 else
      Collected(e, gains, p, n - 1)
       + SMul(gains[n - 1], LowSum(p, Start(e, n - 1), Size(e, n - 1), Size(e, n - 1)))
       + SMul(gains[n], HighSum(p, Start(e, n - 1), Size(e, n - 1), Size(e, n - 1)))
  }

  lemma {:induction false} CollectedIsWeighted(e: seq<nat>, gains: seq<real>, g: seq<real>, p: int -> real, n: nat)
    requires IsBands(e) && n < |e| && |gains| == |e| && |g| == FREQ_SIZE && Interpolated(e, gains, g, n)
    ensures WeightedSum(g, p, Start(e, n)) == Collected(e, gains, p, n)
  {
    hide LowSum, HighSum, BandMixed, SMul;
    if n > 0 {
      assert Interpolated(e, gains, g, n - 1);
      CollectedIsWeighted(e, gains, g, p, n - 1);
      BandAdjoint(e, gains, g, p, n - 1);
    }
  }

  /** Gains times triangles, for the first n edges. */
  ghost function GainedBands(e: seq<nat>, gains: seq<real>, p: int -> real, n: nat): real
    requires IsBands(e) && n <= |e| && |gains| == |e|
  {
    if n == 0 then 0.0 else GainedBands(e, gains, p, n - 1) + SMul(gains[n - 1], Triangle(e, p, n - 1))
  }

  lemma {:induction false} GainedIsCollected(e: seq<nat>, gains: seq<real>, p: int -> real, n: nat)
    requires IsBands(e) && n < |e| && |gains| == |e|
    ensures GainedBands(e, gains, p, n) + SMul(gains[n], Half(e, p, n)) == Collected(e, gains, p, n)
  {
    hide LowSum, HighSum, SMul, IsBands;
    SMulUnit(gains[n]);
    if n > 0 {
      GainedIsCollected(e, gains, p, n - 1);
      SizeFits(e, n - 1);
      TriangleSplit(e, p, n - 1);
      SMulLinear(LowSum(p, Start(e, n - 1), Size(e, n - 1), Size(e, n - 1)), Half(e, p, n - 1), gains[n - 1]);
    }
  }

  /** The upper half below edge b. */
  ghost function Half(e: seq<nat>, p: int -> real, b: nat): real
    requires IsBands(e) && b < |e|
  {
    if b > 0 then HighSum(p, Start(e, b - 1), Size(e, b - 1), Size(e, b - 1)) else 0.0
  }

  lemma TriangleSplit(e: seq<nat>, p: int -> real, b: nat)
    requires IsBands(e) && b + 1 < |e|
    ensures Triangle(e, p, b) == LowSum(p, Start(e, b), Size(e, b), Size(e, b)) + Half(e, p, b)
  {
    hide LowSum, HighSum;
  }

  /** The two end bands with half their value. */
  ghost function EndHalved(e: seq<nat>, p: int -> real, b: nat): real
    requires IsBands(e) && b < |e|
  {
    if b == 0 || b == |e| - 1 then 0.5 * Band(e, p, b) else Band(e, p, b)
  }

  ghost function GainedEnergy(e: seq<nat>, gains: seq<real>, p: int -> real, n: nat): real
    requires IsBands(e) && n <= |e| && |gains| == |e|
  {
    if n == 0 then 0.0 else GainedEnergy(e, gains, p, n - 1) + SMul(gains[n - 1], EndHalved(e, p, n - 1))
  }

  lemma {:induction false} GainedEnergyIs(e: seq<nat>, gains: seq<real>, p: int -> real, n: nat)
    requires IsBands(e) && n <= |e| && |gains| == |e|
    ensures GainedEnergy(e, gains, p, n) == GainedBands(e, gains, p, n)
  {
    hide SMul, Triangle;
    if n > 0 {
      GainedEnergyIs(e, gains, p, n - 1);
    }
  }

  /** Interpolating gains over bins is the transpose of collecting bins into bands. */
  lemma Adjoint(e: seq<nat>, gains: seq<real>, g: seq<real>, p: int -> real)
    requires IsBands(e) && |gains| == |e| && |g| == FREQ_SIZE && Interpolated(e, gains, g, |e| - 1)
    ensures WeightedSum(g, p, Start(e, |e| - 1)) == GainedEnergy(e, gains, p, |e|)
  {
    hide LowSum, HighSum, SMul, Interpolated;
    var n := |e| - 1;
    CollectedIsWeighted(e, gains, g, p, n);
    GainedIsCollected(e, gains, p, n);
    GainedEnergyIs(e, gains, p, |e|);
    assert Triangle(e, p, n) == Half(e, p, n);
  }

  ghost function Total(p: int -> real, n: nat): real
  {
    RSum(n, p)
  }

  /** Gains of 1: the band energies, the two end bands halved, add up to the energy of the covered bins. */
  lemma Conservation(e: seq<nat>, ones: seq<real>, p: int -> real)
    requires IsBands(e) && |ones| == |e| && forall b :: 0 <= b < |e| ==> ones[b] == 1.0
    ensures GainedEnergy(e, ones, p, |e|) == Total(p, Start(e, |e| - 1))
  {
    hide GainedEnergy, Interpolated, Mix, Size;
    var n := Start(e, |e| - 1);
    var g := seq(FREQ_SIZE, k => 1.0);
    forall i: nat | i < |e| - 1
      ensures BandMixed(e, ones, g, i)
    {
      OnesMixed(e, ones, g, i);
    }
    OnesInterpolated(e, ones, g);
    Adjoint(e, ones, g, p);
    OnesWeigh(g, p, n);
  }

  lemma OnesMixed(e: seq<nat>, ones: seq<real>, g: seq<real>, i: nat)
    requires IsBands(e) && |ones| == |e| && |g| == FREQ_SIZE && i + 1 < |e|
    requires ones[i] == ones[i + 1] == 1.0 && forall k :: 0 <= k < FREQ_SIZE ==> g[k] == 1.0
    ensures BandMixed(e, ones, g, i)
  {
    hide Mix;
    SizeFits(e, i);
    forall j
      ensures Mix(1.0, 1.0, j, Size(e, i)) == 1.0
    {
      MixEqual(1.0, j, Size(e, i));
    }
  }

  lemma OnesInterpolated(e: seq<nat>, ones: seq<real>, g: seq<real>)
    requires IsBands(e) && |ones| == |e| && |g| == FREQ_SIZE
    requires forall i: nat :: i < |e| - 1 ==> BandMixed(e, ones, g, i)
    ensures Interpolated(e, ones, g, |e| - 1)
  {
  }

  lemma OnesWeigh(g: seq<real>, p: int -> real, n: nat)
    requires n <= |g| && forall k :: 0 <= k < |g| ==> g[k] == 1.0
    ensures WeightedSum(g, p, n) == Total(p, n)
  {
    hide SMul;
    forall k | 0 <= k < n
      ensures Weighted(g, p, k) == p(k)
    {
      SMulUnit(p(k));
    }
    RSumCong(n, k => Weighted(g, p, k), p);
  }

  // ---- Band correlation against band energy ----

  /** Sums of the triangle weights are monotone. */
  lemma LowSumNonNegative(p: int -> real, start: int, size: nat)
    requires forall k :: p(k) >= 0.0
    ensures LowSum(p, start, size, size) >= 0.0 && HighSum(p, start, size, size) >= 0.0
  {
    hide SMul, Frac;
    forall j | 0 <= j < size
      ensures Low(p, start, size, j) >= 0.0 && High(p, start, size, j) >= 0.0
    {
      FracRange(j, size);
      SMulNonNegative(1.0 - Frac(j, size), p(start + j));
      SMulNonNegative(Frac(j, size), p(start + j));
    }
    RSumNonNegative(size, j => Low(p, start, size, j));
    RSumNonNegative(size, j => High(p, start, size, j));
  }

  lemma BandNonNegative(e: seq<nat>, p: int -> real, b: nat)
    requires IsBands(e) && b < |e| && forall k :: p(k) >= 0.0
    ensures Band(e, p, b) >= 0.0
  {
    hide LowSum, HighSum;
    if b + 1 < |e| {
      SizeFits(e, b);
      LowSumNonNegative(p, Start(e, b), Size(e, b));
    }
    if b > 0 {
      SizeFits(e, b - 1);
      LowSumNonNegative(p, Start(e, b - 1), Size(e, b - 1));
    }
  }

  /** s^2 |X_k|^2 - 2 s t Re X_k conj P_k + t^2 |P_k|^2 = |s X_k - t P_k|^2. */
  ghost function Mixture(X: seq<Cpx>, P: seq<Cpx>, s: real, t: real): int -> real
  {
    k => Form(Together(X, X, k), Together(X, P, k), Together(P, P, k), s, t)
  }

  lemma MixtureNonNegative(X: seq<Cpx>, P: seq<Cpx>, s: real, t: real)
    ensures forall k :: Mixture(X, P, s, t)(k) >= 0.0
  {
    hide SMul, Form, At;
    forall k
      ensures Mixture(X, P, s, t)(k) >= 0.0
    {
      var x, q := At(X, k), At(P, k);
      FormZero(s, t);
      SMulUnit(0.0);
      FormStep(0.0, 0.0, 0.0, s, t, x.r, q.r);
      FormStep(0.0 + SMul(x.r, x.r), 0.0 + SMul(x.r, q.r), 0.0 + SMul(q.r, q.r), s, t, x.i, q.i);
    }
  }

  /** A sum that is linear in p distributes over the mixture. */
  lemma FormWeighted(w: real, A: real, B: real, C: real, s: real, t: real)
    ensures SMul(w, Form(A, B, C, s, t)) == Form(SMul(w, A), SMul(w, B), SMul(w, C), s, t)
  {
    hide SMul;
    var u, v, z := SMul(s, s), SMul(s, t), SMul(t, t);
    SMulLinear(SMul(u, A) - 2.0 * SMul(v, B), SMul(z, C), w);
    SMulLinear(SMul(u, A), SMul(v, B) + SMul(v, B), w);
    SMulLinear(SMul(v, B), SMul(v, B), w);
    Swap(w, u, A);
    Swap(w, v, B);
    Swap(w, z, C);
  }

  lemma Swap(w: real, u: real, a: real)
    ensures SMul(w, SMul(u, a)) == SMul(u, SMul(w, a))
  {
    hide SMul;
    SMulAssoc(w, u, a);
    SMulAssoc(u, w, a);
    SMulSign(w, u);
  }

  lemma FormAdd(A: real, B: real, C: real, A': real, B': real, C': real, s: real, t: real)
    ensures Form(A + A', B + B', C + C', s, t) == Form(A, B, C, s, t) + Form(A', B', C', s, t)
  {
    hide SMul;
    SMulLinear(A, A', SMul(s, s));
    SMulLinear(B, B', SMul(s, t));
    SMulLinear(C, C', SMul(t, t));
  }

  lemma {:induction false} SumsOfMixture(X: seq<Cpx>, P: seq<Cpx>, s: real, t: real, start: int, size: int, n: nat)
    ensures LowSum(Mixture(X, P, s, t), start, size, n)
         == Form(LowSum(Product(X, X), start, size, n), LowSum(Product(X, P), start, size, n),
                 LowSum(Product(P, P), start, size, n), s, t)
    ensures HighSum(Mixture(X, P, s, t), start, size, n)
         == Form(HighSum(Product(X, X), start, size, n), HighSum(Product(X, P), start, size, n),
                 HighSum(Product(P, P), start, size, n), s, t)
  {
    hide SMul, LowSum, HighSum, Form, Together, Frac;
    var m := Mixture(X, P, s, t);
    SumsNext(m, start, size, 0);
    SumsNext(Product(X, X), start, size, 0);
    SumsNext(Product(X, P), start, size, 0);
    SumsNext(Product(P, P), start, size, 0);
    FormZero(s, t);
    if n > 0 {
      SumsOfMixture(X, P, s, t, start, size, n - 1);
      SumsNext(m, start, size, n - 1);
      SumsNext(Product(X, X), start, size, n - 1);
      SumsNext(Product(X, P), start, size, n - 1);
      SumsNext(Product(P, P), start, size, n - 1);
      var k, f := start + (n - 1), Frac(n - 1, size);
      var A, B, C := Together(X, X, k), Together(X, P, k), Together(P, P, k);
      FormWeighted(f, A, B, C, s, t);
      FormWeighted(1.0 - f, A, B, C, s, t);
      FormAdd(LowSum(Product(X, X), start, size, n - 1), LowSum(Product(X, P), start, size, n - 1),
              LowSum(Product(P, P), start, size, n - 1), SMul(1.0 - f, A), SMul(1.0 - f, B), SMul(1.0 - f, C), s, t);
      FormAdd(HighSum(Product(X, X), start, size, n - 1), HighSum(Product(X, P), start, size, n - 1),
              HighSum(Product(P, P), start, size, n - 1), SMul(f, A), SMul(f, B), SMul(f, C), s, t);
    }
  }

  lemma BandOfMixture(e: seq<nat>, X: seq<Cpx>, P: seq<Cpx>, s: real, t: real, b: nat)
    requires IsBands(e) && b < |e|
    ensures Band(e, Mixture(X, P, s, t), b)
         == Form(BandCorr(e, X, X, b), BandCorr(e, X, P, b), BandCorr(e, P, P, b), s, t)
  {
    hide SMul, LowSum, HighSum, Form, Mixture, Product;
    FormZero(s, t);
    var A, B, C := 0.0, 0.0, 0.0;
    if b + 1 < |e| {
      SizeFits(e, b);
      var start, n := Start(e, b), Size(e, b);
      SumsOfMixture(X, P, s, t, start, n, n);
      A, B, C := LowSum(Product(X, X), start, n, n), LowSum(Product(X, P), start, n, n),
        LowSum(Product(P, P), start, n, n);
    }
    var A', B', C' := 0.0, 0.0, 0.0;
    if b > 0 {
      SizeFits(e, b - 1);
      var start, n := Start(e, b - 1), Size(e, b - 1);
      SumsOfMixture(X, P, s, t, start, n, n);
      A', B', C' := HighSum(Product(X, X), start, n, n), HighSum(Product(X, P), start, n, n),
        HighSum(Product(P, P), start, n, n);
    }
    FormAdd(A, B, C, A', B', C', s, t);
    FormAdd(A + A', B + B', C + C', A + A', B + B', C + C', s, t);
  }

  /** The square of a band correlation is at most the product of the two band energies, so the normalised correlation
      Exp / sqrt(.001 + Ex Ep) of compute_frame_features (denoise.c:343) is strictly between -1 and 1. */
  lemma CorrelationBound(e: seq<nat>, X: seq<Cpx>, P: seq<Cpx>, b: nat, sqrt: real -> real)
    requires IsBands(e) && b < |e| && IsSqrt(sqrt)
    ensures
      var ex, ep, c := BandCorr(e, X, X, b), BandCorr(e, P, P, b), BandCorr(e, X, P, b);
      && ex >= 0.0 && ep >= 0.0 && SMul(c, c) <= SMul(ex, ep)
      && sqrt(0.001 + SMul(ex, ep)) > 0.0 && -1.0 < c / sqrt(0.001 + SMul(ex, ep)) < 1.0
  {
    hide SMul, Form, Band, Mixture;
    var ex, ep, c := BandCorr(e, X, X, b), BandCorr(e, P, P, b), BandCorr(e, X, P, b);
    EnergyBand(e, X, b);
    EnergyBand(e, P, b);
    MixtureNonNegative(X, P, c, ex);
    BandNonNegative(e, Mixture(X, P, c, ex), b);
    BandOfMixture(e, X, P, c, ex, b);
    MixtureNonNegative(X, P, ep + 1.0, c);
    BandNonNegative(e, Mixture(X, P, ep + 1.0, c), b);
    BandOfMixture(e, X, P, ep + 1.0, c, b);
    FromForms(ex, c, ep);
    SMulNonNegative(ex, ep);
    RootOfPositive(sqrt, 0.001 + SMul(ex, ep));
    SmallerThanRoot(c, sqrt(0.001 + SMul(ex, ep)));
  }

  lemma EnergyBand(e: seq<nat>, X: seq<Cpx>, b: nat)
    requires IsBands(e) && b < |e|
    ensures BandCorr(e, X, X, b) >= 0.0
  {
    hide SMul, At, Band;
    forall k
      ensures Product(X, X)(k) >= 0.0
    {
      SMulSquare(At(X, k).r);
      SMulSquare(At(X, k).i);
    }
    BandNonNegative(e, Product(X, X), b);
  }

  // ---- One bin ----

  /** p is zero but for bin j of band i. */
  ghost predicate OnlyBin(e: seq<nat>, p: int -> real, i: nat, j: int)
    requires IsBands(e) && i + 1 < |e|
  {
    0 <= j < Size(e, i) && forall k :: k != Start(e, i) + j ==> p(k) == 0.0
  }

  lemma OneBinSums(e: seq<nat>, p: int -> real, i: nat, j: int, b: nat)
    requires IsBands(e) && i + 1 < |e| && OnlyBin(e, p, i, j) && b + 1 < |e|
    ensures 0 <= Size(e, b) && 0 < Size(e, i)
    ensures LowSum(p, Start(e, b), Size(e, b), Size(e, b)) == if b == i then Low(p, Start(e, i), Size(e, i), j) else 0.0
    ensures HighSum(p, Start(e, b), Size(e, b), Size(e, b))
         == if b == i then High(p, Start(e, i), Size(e, i), j) else 0.0
  {
    hide SMul, Frac;
    SizeFits(e, b);
    var start, size := Start(e, b), Size(e, b);
    forall m | 0 <= m < size && (b != i || m != j)
      ensures Low(p, start, size, m) == 0.0 && High(p, start, size, m) == 0.0
    {
      OtherBin(e, i, j, b, m);
      SMulUnit(Frac(m, size));
      SMulUnit(1.0 - Frac(m, size));
    }
    if b == i {
      RSumOne(size, m => Low(p, start, size, m), j);
      RSumOne(size, m => High(p, start, size, m), j);
    } else {
      RSumZero(size, m => Low(p, start, size, m));
      RSumZero(size, m => High(p, start, size, m));
    }
  }

  lemma OtherBin(e: seq<nat>, i: nat, j: int, b: nat, m: int)
    requires IsBands(e) && i + 1 < |e| && b + 1 < |e| && 0 <= j < Size(e, i) && 0 <= m < Size(e, b)
    requires b != i || m != j
    ensures Start(e, b) + m != Start(e, i) + j
  {
    if b < i {
      assert e[b + 1] <= e[i];
    } else if i < b {
      assert e[i + 1] <= e[b];
    }
  }

  /** A spectrum with one bin, j bins into band i: band i collects it by the part of the way that is left, the next band
      by the part of the way done, both doubled at the two ends of the table, and no other band sees it. */
  lemma OneBin(e: seq<nat>, X: seq<Cpx>, P: seq<Cpx>, i: nat, j: int, b: nat)
    requires IsBands(e) && i + 1 < |e| && 0 <= j < 4 * e[i + 1] - 4 * e[i] && b < |e|
    requires forall k :: 0 <= k < |X| && k != 4 * e[i] + j ==> X[k] == Zero
    requires |X| == |P| == FREQ_SIZE
    ensures 0 <= 4 * e[i] + j < |X|
    ensures
      var k, size := 4 * e[i] + j, 4 * e[i + 1] - 4 * e[i];
      var v := X[k].r * P[k].r + X[k].i * P[k].i;
      BandCorr(e, X, P, b) * size as real
      == (if b == 0 || b == |e| - 1 then 2.0 else 1.0)
         * (if b == i then (size - j) as real * v else if b == i + 1 then j as real * v else 0.0)
  {
    hide *;
    BinFits(e, i, j);
    var k, size := 4 * e[i] + j, 4 * e[i + 1] - 4 * e[i];
    var p, v := Product(X, P), X[k].r * P[k].r + X[k].i * P[k].i;
    ValueIs(X, P, k);
    OnlyOne(e, X, P, i, j);
    TriangleOfOne(e, p, i, j, b);
    PartsOfOne(p, 4 * e[i], size, j, v);
    var low, high := Low(p, 4 * e[i], size, j), High(p, 4 * e[i], size, j);
    ShareOf(Triangle(e, p, b), low, high, size as real, (size - j) as real * v, j as real * v, b == i, b == i + 1);
    BandIs(e, X, P, b);
    AtEnds(Triangle(e, p, b), size as real, b == 0 || b == |e| - 1);
  }

  lemma BinFits(e: seq<nat>, i: nat, j: int)
    requires IsBands(e) && i + 1 < |e| && 0 <= j < 4 * e[i + 1] - 4 * e[i]
    ensures 0 <= 4 * e[i] + j < FREQ_SIZE
    ensures Start(e, i) == 4 * e[i] && Size(e, i) == 4 * e[i + 1] - 4 * e[i]
  {
    SizeFits(e, i);
  }

  lemma BandIs(e: seq<nat>, X: seq<Cpx>, P: seq<Cpx>, b: nat)
    requires IsBands(e) && b < |e|
    ensures var t := Triangle(e, Product(X, P), b);
      BandCorr(e, X, P, b) == if b == 0 || b == |e| - 1 then 2.0 * t else t
  {
    hide Triangle;
  }

  lemma ShareOf(t: real, low: real, high: real, y: real, a: real, b: real, here: bool, next: bool)
    requires t == if here then low else if next then high else 0.0
    requires low * y == a && high * y == b
    ensures t * y == if here then a else if next then b else 0.0
  {
  }

  lemma AtEnds(x: real, y: real, end: bool)
    ensures (if end then 2.0 * x else x) * y == (if end then 2.0 else 1.0) * (x * y)
  {
  }

  lemma TriangleOfOne(e: seq<nat>, p: int -> real, i: nat, j: int, b: nat)
    requires IsBands(e) && i + 1 < |e| && OnlyBin(e, p, i, j) && b < |e|
    ensures Triangle(e, p, b)
         == if b == i then Low(p, Start(e, i), Size(e, i), j)
            else if b == i + 1 then High(p, Start(e, i), Size(e, i), j) else 0.0
  {
    hide LowSum, HighSum, Low, High, OnlyBin, IsBands, Size, Start;
    AtLeastTwo(e);
    if b + 1 < |e| {
      OneBinSums(e, p, i, j, b);
    }
    if b > 0 {
      OneBinSums(e, p, i, j, b - 1);
    }
  }

  lemma ValueIs(X: seq<Cpx>, P: seq<Cpx>, k: int)
    requires 0 <= k < |X| == |P|
    ensures Product(X, P)(k) == X[k].r * P[k].r + X[k].i * P[k].i
  {
  }

  lemma OnlyOne(e: seq<nat>, X: seq<Cpx>, P: seq<Cpx>, i: nat, j: int)
    requires IsBands(e) && i + 1 < |e| && 0 <= j < Size(e, i)
    requires forall k :: 0 <= k < |X| && k != Start(e, i) + j ==> X[k] == Zero
    ensures OnlyBin(e, Product(X, P), i, j)
  {
    hide SMul;
    forall k | k != Start(e, i) + j
      ensures Product(X, P)(k) == 0.0
    {
      SMulUnit(At(P, k).r);
      SMulUnit(At(P, k).i);
    }
  }

  lemma PartsOfOne(p: int -> real, start: int, size: int, j: int, v: real)
    requires size > 0 && p(start + j) == v
    ensures Low(p, start, size, j) * size as real == (size - j) as real * v
    ensures High(p, start, size, j) * size as real == j as real * v
  {
    hide SMul, Frac;
    FracTimes(j, size, v);
    SMulLinear(1.0, Frac(j, size), v);
    SMulUnit(v);
    Apart(size, j, v, SMul(Frac(j, size), v));
  }

  lemma Apart(size: int, j: int, v: real, w: real)
    requires w * size as real == j as real * v
    ensures (v - w) * size as real == (size - j) as real * v
  {
    assert (size - j) as real == size as real - j as real;
    assert (v - w) * size as real == v * size as real - w * size as real;
    assert (size as real - j as real) * v == size as real * v - j as real * v;
  }
}
