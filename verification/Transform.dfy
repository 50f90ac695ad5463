/** forward_transform and inverse_transform of denoise.c: the transform of a real window through FREQ_SIZE bins. */
module Transform {
  import opened Complex
  import opened Reals
  import opened Sizes
  import opened Twiddle
  import opened CooleyTukey
  import opened Fft
  import opened Factor

  ghost function Signal(x: seq<real>): (s: seq<Cpx>)
    ensures |s| == |x| && forall i :: 0 <= i < |x| ==> s[i] == Cpx(x[i], 0.0)
  {
    seq(|x|, i requires 0 <= i < |x| => Cpx(x[i], 0.0))
  }

  /** The bins that forward_transform keeps. */
  ghost function Bins(st: KissFft, x: seq<real>): (b: seq<Cpx>)
    requires |st.twiddles| > 0
    ensures |b| == FREQ_SIZE
    ensures forall k :: 0 <= k < FREQ_SIZE ==> b[k] == Scale(st.scale, Dft(st.twiddles, Signal(x), k))
  {
    seq(FREQ_SIZE, k => Scale(st.scale, Dft(st.twiddles, Signal(x), k)))
  }

  /** The full spectrum that inverse_transform rebuilds from them. */
  ghost function Mirror(b: seq<Cpx>): (m: seq<Cpx>)
    requires |b| == FREQ_SIZE
    ensures |m| == WINDOW_SIZE
    ensures forall k :: 0 <= k < WINDOW_SIZE ==> m[k] == if k < FREQ_SIZE then b[k] else Conj(b[WINDOW_SIZE - k])
  {
    seq(WINDOW_SIZE, k requires 0 <= k < WINDOW_SIZE => if k < FREQ_SIZE then b[k] else Conj(b[WINDOW_SIZE - k]))
  }

  /** forward_transform (denoise.c:212-225). */
  method ForwardTransform(st: KissFft, out: array<Cpx>, inp: array<real>, ghost stages: nat)
    requires IsState(st, stages) && st.nfft == WINDOW_SIZE
    requires out.Length >= FREQ_SIZE && inp.Length == WINDOW_SIZE
    modifies out
    ensures |st.twiddles| > 0 && out[..FREQ_SIZE] == Bins(st, inp[..])
    ensures out[FREQ_SIZE..] == old(out[FREQ_SIZE..])
  {
    hide IsState, Dft, Scale;
    StateSize(st, stages);
    var x := new Cpx[WINDOW_SIZE](_ => Zero);
    var y := new Cpx[WINDOW_SIZE](_ => Zero);
    var i := 0;
    while i < WINDOW_SIZE
      invariant 0 <= i <= WINDOW_SIZE
      invariant forall j :: 0 <= j < i ==> x[j] == Cpx(inp[j], 0.0)
      modifies x
    {
      x[i] := Cpx(inp[i], 0.0);
      i := i + 1;
    }
    assert x[..] == Signal(inp[..]);
    var overflow := OpusFft(st, x, y, stages);
    NoOverflow(st, stages);
    i := 0;
    while i < FREQ_SIZE
      invariant 0 <= i <= FREQ_SIZE
      invariant forall j :: 0 <= j < i ==> out[j] == y[j]
      invariant out[FREQ_SIZE..] == old(out[FREQ_SIZE..])
      modifies out
    {
      out[i] := y[i];
      i := i + 1;
    }
  }

  /** The window's length leaves a stage to spare. */
  lemma NoOverflow(st: KissFft, stages: nat)
    requires IsState(st, stages) && st.nfft == WINDOW_SIZE
    ensures stages < MAXFACTORS
  {
    hide IsFactorList, IsTwiddleTable;
    FewStages(st.factors, st.nfft, stages);
  }

  lemma StateSize(st: KissFft, stages: nat)
    requires IsState(st, stages)
    ensures |st.twiddles| == st.nfft > 0 && IsTwiddleTable(st.twiddles, st.sqrtHalf)
      && st.scale == 1.0 / st.nfft as real
  {
  }

  /** inverse_transform (denoise.c:227-245): a forward transform read backwards. */
  method InverseTransform(st: KissFft, out: array<real>, inp: array<Cpx>, ghost stages: nat)
    requires IsState(st, stages) && st.nfft == WINDOW_SIZE
    requires out.Length == WINDOW_SIZE && inp.Length >= FREQ_SIZE
    modifies out
    ensures |st.twiddles| > 0
    ensures forall i :: 0 <= i < WINDOW_SIZE ==> out[i] == InverseDft(st.twiddles, Mirror(inp[..FREQ_SIZE]), i).r
  {
    hide IsState, Dft, InverseDft, Scale, Conj;
    StateSize(st, stages);
    var x := new Cpx[WINDOW_SIZE](_ => Zero);
    var y := new Cpx[WINDOW_SIZE](_ => Zero);
    var i := 0;
    while i < FREQ_SIZE
      invariant 0 <= i <= FREQ_SIZE
      invariant forall j :: 0 <= j < i ==> x[j] == inp[j]
      modifies x
    {
      x[i] := inp[i];
      i := i + 1;
    }
    while i < WINDOW_SIZE
      invariant FREQ_SIZE <= i <= WINDOW_SIZE
      invariant forall j :: 0 <= j < FREQ_SIZE ==> x[j] == inp[j]
      invariant forall j :: FREQ_SIZE <= j < i ==> x[j] == Conj(inp[WINDOW_SIZE - j])
      modifies x
    {
      ConjIs(x[WINDOW_SIZE - i]);
      x[i] := Cpx(x[WINDOW_SIZE - i].r, -x[WINDOW_SIZE - i].i);
      i := i + 1;
    }
    ghost var full := Mirror(inp[..FREQ_SIZE]);
    assert x[..] == full;
    var overflow := OpusFft(st, x, y, stages);
    NoOverflow(st, stages);
    Backwards(st, stages, full, 0, 0);
    out[0] := SMul(WINDOW_SIZE as real, y[0].r);
    i := 1;
    while i < WINDOW_SIZE
      invariant 1 <= i <= WINDOW_SIZE
      invariant forall j :: 0 <= j < i ==> out[j] == InverseDft(st.twiddles, full, j).r
      modifies out
    {
      Backwards(st, stages, full, i, WINDOW_SIZE - i);
      out[i] := SMul(WINDOW_SIZE as real, y[WINDOW_SIZE - i].r);
      i := i + 1;
    }
  }

  lemma ConjIs(a: Cpx)
    ensures Conj(a) == Cpx(a.r, -a.i)
  {
  }

  /** Bin k = n - i of the forward transform, times n / n, is sample i of the inverse one. */
  lemma Backwards(st: KissFft, stages: nat, x: seq<Cpx>, i: int, k: int)
    requires IsState(st, stages) && st.nfft == WINDOW_SIZE && (k == WINDOW_SIZE - i || k == i == 0)
    ensures |st.twiddles| > 0
    ensures SMul(WINDOW_SIZE as real, Scale(st.scale, Dft(st.twiddles, x, k)).r) == InverseDft(st.twiddles, x, i).r
  {
    hide IsState, Dft, InverseDft;
    StateSize(st, stages);
    DftBackwards(st.twiddles, x, i, k);
    var v := Dft(st.twiddles, x, k).r;
    assert SMul(960.0, 1.0 / 960.0) == 1.0;
    hide SMul;
    SMulAssoc(960.0, 1.0 / 960.0, v);
    SMulUnit(v);
  }

  lemma DftBackwards(t: seq<Cpx>, x: seq<Cpx>, i: int, k: int)
    requires |t| > 0 && (k == |t| - i || k == -i)
    ensures Dft(t, x, k) == InverseDft(t, x, i)
  {
    hide Mul, Sum, W, At;
    forall j
      ensures W(t, j * k) == W(t, -(j * i))
    {
      BackwardsExponent(j, i, k, |t|);
      WPeriod(t, -(j * i), j);
    }
    SumCong(|t|, j => Mul(At(x, j), W(t, j * k)), j => Mul(At(x, j), W(t, -(j * i))));
  }

  lemma BackwardsExponent(j: int, i: int, k: int, n: int)
    requires k == n - i || k == -i
    ensures j * k == -(j * i) + j * n || j * k == -(j * i)
  {
    if k == n - i {
      assert j * (n - i) == j * n - j * i;
    } else {
      assert j * -i == -(j * i);
    }
  }

  // ---- the spectrum of a real signal ----

  lemma RealSpectrum(t: seq<Cpx>, c: real, x: seq<real>, k: int)
    requires IsTwiddleTable(t, c)
    ensures |t| > 0 && Conj(Dft(t, Signal(x), |t| - k)) == Dft(t, Signal(x), k)
  {
    hide IsTwiddleTable, Dft, InverseDft, Conj;
    NotEmpty(t, c);
    RealConjugate(x);
    ConjDft(t, c, Signal(x), |t| - k);
    DftBackwards(t, Signal(x), |t| - k, k);
  }

  lemma RealConjugate(x: seq<real>)
    ensures Conjugated(Signal(x)) == Signal(x)
  {
    assert forall i :: 0 <= i < |x| ==> Conjugated(Signal(x))[i] == Signal(x)[i];
  }

  lemma ConjScale(s: real, a: Cpx)
    ensures Conj(Scale(s, a)) == Scale(s, Conj(a))
  {
    hide SMul;
    SMulSign(s, a.i);
  }

  lemma MirrorOfBins(st: KissFft, stages: nat, x: seq<real>)
    requires IsState(st, stages) && st.nfft == WINDOW_SIZE
    ensures |st.twiddles| > 0
    ensures Mirror(Bins(st, x)) == Scaled(st.scale, Spectrum(st.twiddles, Signal(x)))
  {
    hide IsState, IsTwiddleTable, Dft, Scale, Conj;
    StateSize(st, stages);
    var t, m := st.twiddles, Mirror(Bins(st, x));
    forall k | 0 <= k < WINDOW_SIZE
      ensures m[k] == Scaled(st.scale, Spectrum(t, Signal(x)))[k]
    {
      if k >= FREQ_SIZE {
        RealSpectrum(t, st.sqrtHalf, x, k);
        ConjScale(st.scale, Dft(t, Signal(x), WINDOW_SIZE - k));
      }
    }
  }

  /** The FREQ_SIZE bins of a real window determine it: inverse_transform undoes forward_transform. */
  lemma TransformRoundTrip(st: KissFft, stages: nat, x: seq<real>, i: int)
    requires IsState(st, stages) && st.nfft == WINDOW_SIZE && |x| == WINDOW_SIZE && 0 <= i < WINDOW_SIZE
    ensures |st.twiddles| > 0
    ensures InverseDft(st.twiddles, Mirror(Bins(st, x)), i) == Cpx(x[i], 0.0)
  {
    hide IsState, IsTwiddleTable, Dft, InverseDft, Scale, Conj;
    StateSize(st, stages);
    var t := st.twiddles;
    MirrorOfBins(st, stages, x);
    InverseScaled(t, Spectrum(t, Signal(x)), st.scale, i);
    Inversion(t, st.sqrtHalf, Signal(x), Spectrum(t, Signal(x)), i);
    ScaleInverse(WINDOW_SIZE, Signal(x)[i]);
  }
}
