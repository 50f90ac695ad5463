/** opus_fft_alloc_twiddles, opus_fft_impl, opus_fft_c and opus_ifft_c of kiss_fft.c, for a table of their own
    (base == NULL, shift <= 0) in the float configuration. */
module Fft {
  import opened Complex
  import opened Reals
  import opened Factor
  import opened BitRev
  import opened Options
  import opened Trig
  import opened Twiddle
  import opened CooleyTukey
  import opened Butterfly
  import Arith

  /** kiss_fft_state; sqrtHalf stands for the literal 0.7071067812f of kf_bfly2. */
  datatype KissFft = KissFft(nfft: nat, scale: real, factors: seq<int>, bitrev: seq<int>,
                             twiddles: seq<Cpx>, sqrtHalf: real)

  ghost predicate IsState(st: KissFft, stages: nat)
  {
    && IsTwiddleTable(st.twiddles, st.sqrtHalf) && |st.twiddles| == st.nfft
    && stages <= MAXFACTORS && |st.factors| == 2 * MAXFACTORS
    && IsFactorList(st.factors, st.nfft, stages)
    && |st.bitrev| == st.nfft
    && (forall i :: 0 <= i < st.nfft ==> st.bitrev[i] == Rev(st.factors, st.nfft, stages, 0, i))
    && st.scale == 1.0 / st.nfft as real
  }

  // ---- the stage invariant ----

  /** After the stages above l, every block of stage l holds the transform of its decimated subsequence. */
  ghost predicate StageInv(f: seq<int>, n: nat, stages: nat, t: seq<Cpx>, l: nat, x: seq<Cpx>, a: seq<Cpx>)
    requires IsFactorList(f, n, stages) && l <= stages && |t| == n
  {
    && |a| == n
    && forall b, k :: 0 <= b < Stride(f, l) && 0 <= k < Len(f, n, l) ==>
         BlockHolds(f, n, stages, t, l, x, a, b, k)
  }

  ghost predicate BlockHolds(f: seq<int>, n: nat, stages: nat, t: seq<Cpx>, l: nat, x: seq<Cpx>, a: seq<Cpx>, b: int,
                             k: int)
    requires IsFactorList(f, n, stages) && l <= stages && |t| == n
  {
    LenPositive(f, n, stages, l);
    At(a, b * Len(f, n, l) + k) == SubDft(t, x, Base(f, n, stages, l, b), Stride(f, l), Len(f, n, l), k)
  }

  lemma SubBlockIndex(b: int, p: int, r: int, m: int, s: int, k: int)
    requires 0 <= b < s && 0 <= r < p
    ensures 0 <= b * p + r < s * p
    ensures (b * p + r) / p == b && (b * p + r) % p == r
    ensures (b * p + r) * m + k == b * (p * m) + r * m + k
  {
    DigitBound(b, s, p, r);
  }

  /** Sub-block r of block b is the block b * p + r of the stage below. */
  lemma SubBlockReady(f: seq<int>, n: nat, stages: nat, t: seq<Cpx>, l: nat, x: seq<Cpx>, a: seq<Cpx>, b: int, k: int,
                      r: int)
    requires IsFactorList(f, n, stages) && l < stages && |t| == n
    requires StageInv(f, n, stages, t, l + 1, x, a)
    requires 0 <= b < Stride(f, l) && 0 <= k < f[2 * l + 1] && 0 <= r < f[2 * l]
    ensures t != [] && f[2 * l + 1] >= 0
    ensures BlockReady(t, x, a, Base(f, n, stages, l, b), Stride(f, l), f[2 * l], f[2 * l + 1],
                       b * (f[2 * l] * f[2 * l + 1]), k, r)
  {
    LenPositive(f, n, stages, l);
    LenPositive(f, n, stages, l + 1);
    hide At, SubDft, IsFactorList;
    var p, m, s := f[2 * l], f[2 * l + 1], Stride(f, l);
    SubBlockIndex(b, p, r, m, s, k);
    assert Stride(f, l + 1) == s * p;
    assert BlockHolds(f, n, stages, t, l + 1, x, a, b * p + r, k);
    assert Base(f, n, stages, l + 1, b * p + r) == Base(f, n, stages, l, b) + r * s;
  }

  lemma StageAdvance(f: seq<int>, n: nat, stages: nat, t: seq<Cpx>, c: real, l: nat, x: seq<Cpx>, a: seq<Cpx>,
                     a': seq<Cpx>)
    requires IsFactorList(f, n, stages) && l < stages && |t| == n && IsTwiddleTable(t, c) && f[2 * l] >= 0
    requires StageInv(f, n, stages, t, l + 1, x, a)
    requires StageDone(t, Stride(f, l), f[2 * l], f[2 * l + 1], a, a')
    ensures StageInv(f, n, stages, t, l, x, a')
  {
    hide IsTwiddleTable, At, SubDft, Radix, Base, Stride, BlockReady, BlockHolds;
    LenPositive(f, n, stages, l);
    StrideLen(f, n, stages, l);
    hide IsFactorList;
    forall b, k | 0 <= b < Stride(f, l) && 0 <= k < Len(f, n, l)
      ensures BlockHolds(f, n, stages, t, l, x, a', b, k)
    {
      BlockAdvance(f, n, stages, t, c, l, x, a, a', b, k);
    }
  }

  lemma BlockAdvance(f: seq<int>, n: nat, stages: nat, t: seq<Cpx>, c: real, l: nat, x: seq<Cpx>, a: seq<Cpx>,
                     a': seq<Cpx>, b: int, k: int)
    requires IsFactorList(f, n, stages) && l < stages && |t| == n && IsTwiddleTable(t, c) && f[2 * l] >= 0
    requires StageInv(f, n, stages, t, l + 1, x, a)
    requires StageDone(t, Stride(f, l), f[2 * l], f[2 * l + 1], a, a')
    requires 0 <= b < Stride(f, l) && 0 <= k < Len(f, n, l)
    ensures BlockHolds(f, n, stages, t, l, x, a', b, k)
  {
    hide IsTwiddleTable, At, SubDft, Radix, Base, Stride, BlockReady, StageInv;
    LenPositive(f, n, stages, l);
    StrideLen(f, n, stages, l);
    hide IsFactorList;
    var p, m, s := f[2 * l], f[2 * l + 1], Stride(f, l);
    var u, k0 := k / m, k % m;
    assert p * m == m * p;
    QuotientBound(k, m, p);
    assert k == k0 + u * m;
    assert At(a', b * (p * m) + u * m + k0) == Radix(t, s, p, m, a, b * (p * m), k0, u);
    forall r | 0 <= r < p
      ensures BlockReady(t, x, a, Base(f, n, stages, l, b), s, p, m, b * (p * m), k0, r)
    {
      SubBlockReady(f, n, stages, t, l, x, a, b, k0, r);
    }
    CombineBlocks(t, c, x, a, Base(f, n, stages, l, b), s, p, m, b * (p * m), k0, u);
  }

  // ---- loading the input ----

  /** A block of one sample is its own transform. */
  lemma OnePoint(t: seq<Cpx>, c: real, x: seq<Cpx>, base: int, s: int)
    requires IsTwiddleTable(t, c)
    ensures SubDft(t, x, base, s, 1, 0) == At(x, base)
  {
    hide At, IsTwiddleTable, Mul, W, Sum;
    UnitRoot(t, c);
    SmallSums(j => Mul(At(x, base + j * s), W(t, j * 0 * s)));
    MulOne(At(x, base));
  }

  /** a holds x in digit-reversed order. */
  ghost predicate Loaded(f: seq<int>, n: nat, stages: nat, x: seq<Cpx>, a: seq<Cpx>)
    requires IsFactorList(f, n, stages)
  {
    && |x| == |a| == n
    && forall i :: 0 <= i < n ==> At(a, Rev(f, n, stages, 0, i)) == x[i]
  }

  lemma LoadedIsStageInv(f: seq<int>, n: nat, stages: nat, t: seq<Cpx>, c: real, x: seq<Cpx>, a: seq<Cpx>)
    requires IsFactorList(f, n, stages) && |t| == n && IsTwiddleTable(t, c)
    requires Loaded(f, n, stages, x, a)
    ensures StageInv(f, n, stages, t, stages, x, a)
  {
    hide At, SubDft, IsTwiddleTable;
    LenPositive(f, n, stages, stages);
    StrideLen(f, n, stages, stages);
    forall b, k | 0 <= b < Stride(f, stages) && 0 <= k < Len(f, n, stages)
      ensures BlockHolds(f, n, stages, t, stages, x, a, b, k)
    {
      LoadedBlock(f, n, stages, t, c, x, a, b);
    }
  }

  lemma LoadedBlock(f: seq<int>, n: nat, stages: nat, t: seq<Cpx>, c: real, x: seq<Cpx>, a: seq<Cpx>, b: int)
    requires IsFactorList(f, n, stages) && |t| == n && IsTwiddleTable(t, c)
    requires Loaded(f, n, stages, x, a) && 0 <= b < Stride(f, stages)
    ensures BlockHolds(f, n, stages, t, stages, x, a, b, 0)
  {
    hide IsTwiddleTable, SubDft, Stride, Base, Rev;
    LenPositive(f, n, stages, stages);
    RevOfBlock(f, n, stages, stages, b, 0);
    RevEmpty(f, n, stages);
    var i := Base(f, n, stages, stages, b);
    assert Rev(f, n, stages, 0, i) == b;
    OnePoint(t, c, x, i, Stride(f, stages));
  }

  lemma RevEmpty(f: seq<int>, n: nat, stages: nat)
    requires IsFactorList(f, n, stages)
    ensures Rev(f, n, stages, stages, 0) == 0
  {
  }

  lemma WholeTransform(f: seq<int>, n: nat, stages: nat, t: seq<Cpx>, x: seq<Cpx>, a: seq<Cpx>, k: int)
    requires IsFactorList(f, n, stages) && |t| == n && 0 <= k < n
    requires StageInv(f, n, stages, t, 0, x, a)
    ensures |a| == n && a[k] == Dft(t, x, k)
  {
    hide SubDft, Dft;
    assert BlockHolds(f, n, stages, t, 0, x, a, 0, k);
    WholeDft(t, x, k);
  }

  /** The transform of one sample has radix 1, for which no butterfly runs. */
  lemma SingleSample(t: seq<Cpx>, c: real, a: seq<Cpx>)
    requires IsTwiddleTable(t, c) && |t| == 1 && |a| == 1
    ensures StageDone(t, 1, 1, 1, a, a)
  {
    hide Radix, IsTwiddleTable;
    SingleRadix(t, c, a);
  }

  lemma SingleRadix(t: seq<Cpx>, c: real, a: seq<Cpx>)
    requires IsTwiddleTable(t, c) && |t| == 1 && |a| == 1
    ensures Radix(t, 1, 1, 1, a, 0, 0, 0) == a[0]
  {
    hide *;
    RadixParts(t, 1, 1, 1, a, 0, 0, 0);
    SmallSums(r => Part(t, 1, 1, a, 0, 0, 0, r));
    SinglePart(t, c, a);
  }

  lemma SinglePart(t: seq<Cpx>, c: real, a: seq<Cpx>)
    requires IsTwiddleTable(t, c) && |t| == 1 && |a| == 1
    ensures Part(t, 1, 1, a, 0, 0, 0, 0) == a[0]
  {
    hide Mul;
    MulOne(a[0]);
  }

  // ---- the transforms ----

  /** The loop of opus_fft_impl that fills fstride (kiss_fft.c:530-537). It writes entry L + 1 for stage L, so with
      MAXFACTORS stages the last write would lie outside the array, and overflow says so. */
  method FillStrides(st: KissFft, ghost stages: nat) returns (fstride: array<int>, L: nat, overflow: bool)
    requires IsState(st, stages)
    ensures fresh(fstride) && fstride.Length == MAXFACTORS
    ensures overflow <==> stages == MAXFACTORS
    ensures !overflow ==> L == stages && stages < MAXFACTORS
    ensures !overflow ==> forall i :: 0 <= i <= stages ==> fstride[i] == Stride(st.factors, i)
  {
    hide IsTwiddleTable, Rev, Stride;
    ghost var f, n := st.factors, st.nfft;
    fstride := new int[MAXFACTORS];
    fstride[0] := 1;
    StrideZero(f);
    L := 0;
    overflow := false;
    var m := 0;
    var more := true;
    while more
      invariant 0 <= L <= stages && (more ==> L < stages) && (!more ==> L == stages)
      invariant L < MAXFACTORS && forall i :: 0 <= i <= L ==> fstride[i] == Stride(f, i)
      decreases stages - L
      modifies fstride
    {
      var p := st.factors[2 * L];
      m := st.factors[2 * L + 1];
      LastStage(f, n, stages, L);
      StrideNext(f, L);
      if L + 1 == MAXFACTORS {
        return fstride, L, true;
      }
      fstride[L + 1] := fstride[L] * p;
      L := L + 1;
      more := m != 1;
    }
  }

  /** opus_fft_impl (kiss_fft.c:518-564). */
  method OpusFftImpl(st: KissFft, fout: array<Cpx>, ghost stages: nat, ghost x: seq<Cpx>) returns (overflow: bool)
    requires IsState(st, stages) && fout.Length == st.nfft
    requires StageInv(st.factors, st.nfft, stages, st.twiddles, stages, x, fout[..])
    modifies fout
    ensures overflow <==> stages == MAXFACTORS
    ensures !overflow ==> forall k :: 0 <= k < st.nfft ==> st.nfft > 0 && fout[k] == Dft(st.twiddles, x, k)
  {
    hide StageInv, StageDone, IsTwiddleTable, Dft, Rev, Base, Stride;
    ghost var f, n, t, loaded := st.factors, st.nfft, st.twiddles, fout[..];
    var fstride, L;
    fstride, L, overflow := FillStrides(st, stages);
    assert fout[..] == loaded;
    if overflow {
      return;
    }
    var m := st.factors[2 * L - 1];
    var i := L - 1;
    while i >= 0
      invariant -1 <= i < stages
      invariant i >= 0 ==> m == st.factors[2 * i + 1]
      invariant forall k :: 0 <= k <= stages ==> fstride[k] == Stride(f, k)
      invariant StageInv(f, n, stages, t, i + 1, x, fout[..])
    {
      ghost var a := fout[..];
      var m2 := if i != 0 then st.factors[2 * i - 1] else 1;
      LenPositive(f, n, stages, i);
      StrideLen(f, n, stages, i);
      StrideZero(f);
      RunStage(st, fout, i, m, fstride[i], m2, stages);
      StageAdvance(f, n, stages, t, st.sqrtHalf, i, x, a, fout[..]);
      m := m2;
      i := i - 1;
    }
    forall k | 0 <= k < n
      ensures n > 0 && fout[k] == Dft(t, x, k)
    {
      WholeTransform(f, n, stages, t, x, fout[..], k);
    }
  }

  lemma StrideZero(f: seq<int>)
    ensures Stride(f, 0) == 1
  {
  }

  lemma StrideNext(f: seq<int>, l: nat)
    requires 2 * (l + 1) <= |f|
    ensures Stride(f, l + 1) == Stride(f, l) * f[2 * l]
  {
  }

  /** The switch of opus_fft_impl (kiss_fft.c:545-561). */
  method RunStage(st: KissFft, fout: array<Cpx>, i: nat, m: int, fstride: int, m2: int, ghost stages: nat)
    requires IsState(st, stages) && fout.Length == st.nfft && i < stages
    requires m == st.factors[2 * i + 1] && fstride == Stride(st.factors, i)
    requires m2 == if i != 0 then st.factors[2 * i - 1] else 1
    modifies fout
    ensures st.nfft > 0 && st.factors[2 * i] >= 0
    ensures StageDone(st.twiddles, Stride(st.factors, i), st.factors[2 * i], st.factors[2 * i + 1],
                      old(fout[..]), fout[..])
  {
    hide StageDone, IsTwiddleTable, Rev;
    ghost var f, n := st.factors, st.nfft;
    LenPositive(f, n, stages, i);
    StrideLen(f, n, stages, i);
    match st.factors[2 * i] {
      case 2 => KfBfly2(fout, m, fstride, st.sqrtHalf, st.twiddles);
      case 4 => KfBfly4(fout, fstride, st.twiddles, m, fstride, m2, st.sqrtHalf);
      case 3 => KfBfly3(fout, fstride, st.twiddles, m, fstride, m2, st.sqrtHalf);
      case 5 => KfBfly5(fout, fstride, st.twiddles, m, fstride, m2, st.sqrtHalf);
      case _ => SingleSample(st.twiddles, st.sqrtHalf, fout[..]);
    }
  }

  /** The digit reversal never sends two samples to one place. */
  lemma RevInjective(f: seq<int>, n: nat, stages: nat, i: int, j: int)
    requires IsFactorList(f, n, stages) && 0 <= i < n && 0 <= j < n && i != j
    ensures 0 <= Rev(f, n, stages, 0, i) < n && Rev(f, n, stages, 0, i) != Rev(f, n, stages, 0, j)
  {
    hide IsFactorList, Rev, Src;
    SrcRev(f, n, stages, 0, i);
    SrcRev(f, n, stages, 0, j);
  }

  ghost function Scaled(c: real, x: seq<Cpx>): (y: seq<Cpx>)
    ensures |y| == |x|
  {
    seq(|x|, i requires 0 <= i < |x| => Scale(c, x[i]))
  }

  ghost function Conjugated(x: seq<Cpx>): (y: seq<Cpx>)
    ensures |y| == |x|
  {
    seq(|x|, i requires 0 <= i < |x| => Conj(x[i]))
  }

  lemma DftScaled(t: seq<Cpx>, x: seq<Cpx>, s: real, k: int)
    requires |t| > 0
    ensures Dft(t, Scaled(s, x), k) == Scale(s, Dft(t, x, k))
  {
    hide Mul, Sum, W;
    forall j
      ensures Mul(At(Scaled(s, x), j), W(t, j * k)) == Scale(s, Mul(At(x, j), W(t, j * k)))
    {
      if 0 <= j < |x| {
        ScaleMul(s, x[j], W(t, j * k));
      } else {
        MulOne(W(t, j * k));
      }
    }
    var f := (j: int) => Mul(At(x, j), W(t, j * k));
    SumScale(|t|, f, s);
    SumCong(|t|, f, j => Mul(At(x, j), W(t, j * k)));
    SumCong(|t|, j => Mul(At(Scaled(s, x), j), W(t, j * k)), j => Scale(s, f(j)));
  }

  /** The Fourier sum of x[j] exp(-2 pi sqrt(-1) j k / n), in terms of cosine and sine. */
  ghost function Fourier(cos: real -> real, sin: real -> real, pi: real, x: seq<Cpx>, k: int): Cpx
    requires |x| > 0
  {
    Sum(|x|, j => Mul(At(x, j), Turn(cos, sin, pi, |x|, j * k)))
  }

  /** The sum of x[j] exp(2 pi sqrt(-1) j k / n). */
  ghost function InverseFourier(cos: real -> real, sin: real -> real, pi: real, x: seq<Cpx>, k: int): Cpx
    requires |x| > 0
  {
    Sum(|x|, j => Mul(At(x, j), Turn(cos, sin, pi, |x|, -(j * k))))
  }

  /** What a transform over a table of turns adds up. */
  lemma FourierSum(cos: real -> real, sin: real -> real, pi: real, t: seq<Cpx>, x: seq<Cpx>, k: int)
    requires IsTrig(cos, sin, pi) && |x| == |t| > 0 && HoldsTurns(cos, sin, pi, t)
    ensures Dft(t, x, k) == Fourier(cos, sin, pi, x, k)
    ensures InverseDft(t, x, k) == InverseFourier(cos, sin, pi, x, k)
  {
    hide IsTrig, HoldsTurns, Mul, Sum, W, At, Turn;
    forall e
      ensures W(t, e) == Turn(cos, sin, pi, |t|, e)
    {
      TurnAt(cos, sin, pi, t, e);
    }
    SumCong(|t|, j => Mul(At(x, j), W(t, j * k)), j => Mul(At(x, j), Turn(cos, sin, pi, |t|, j * k)));
    SumCong(|t|, j => Mul(At(x, j), W(t, -(j * k))), j => Mul(At(x, j), Turn(cos, sin, pi, |t|, -(j * k))));
  }

  lemma FourierSums(t: seq<Cpx>, x: seq<Cpx>)
    ensures forall cos, sin, pi, k {:trigger HoldsTurns(cos, sin, pi, t), Dft(t, x, k)} ::
      IsTrig(cos, sin, pi) && |x| == |t| > 0 && HoldsTurns(cos, sin, pi, t) ==>
        Dft(t, x, k) == Fourier(cos, sin, pi, x, k)
    ensures forall cos, sin, pi, k {:trigger HoldsTurns(cos, sin, pi, t), InverseDft(t, x, k)} ::
      IsTrig(cos, sin, pi) && |x| == |t| > 0 && HoldsTurns(cos, sin, pi, t) ==>
        InverseDft(t, x, k) == InverseFourier(cos, sin, pi, x, k)
  {
    hide *;
    forall cos, sin, pi, k | IsTrig(cos, sin, pi) && |x| == |t| > 0 && HoldsTurns(cos, sin, pi, t)
      ensures Dft(t, x, k) == Fourier(cos, sin, pi, x, k)
      ensures InverseDft(t, x, k) == InverseFourier(cos, sin, pi, x, k)
    {
      FourierSum(cos, sin, pi, t, x, k);
    }
  }

  /** opus_fft_c (kiss_fft.c:566-586): the discrete Fourier transform, scaled by 1/n. */
  method OpusFft(st: KissFft, fin: array<Cpx>, fout: array<Cpx>, ghost stages: nat) returns (overflow: bool)
    requires IsState(st, stages) && fin.Length == fout.Length == st.nfft && fin != fout
    modifies fout
    ensures overflow <==> stages == MAXFACTORS
    ensures !overflow ==> forall k :: 0 <= k < st.nfft ==>
      st.nfft > 0 && fout[k] == Scale(st.scale, Dft(st.twiddles, fin[..], k))
    ensures !overflow ==> forall cos, sin, pi, k {:trigger HoldsTurns(cos, sin, pi, st.twiddles), fout[k]} ::
      IsTrig(cos, sin, pi) && HoldsTurns(cos, sin, pi, st.twiddles) && 0 <= k < st.nfft ==>
        fout[k] == Scale(1.0 / st.nfft as real, Fourier(cos, sin, pi, fin[..], k))
  {
    hide IsFactorList, IsTwiddleTable, Rev, Dft, Scale, StageInv, At, IsTrig, HoldsTurns, Fourier, InverseFourier;
    ghost var f, n := st.factors, st.nfft;
    ghost var x := Scaled(st.scale, fin[..]);
    var i := 0;
    while i < st.nfft
      invariant 0 <= i <= st.nfft
      invariant forall j :: 0 <= j < i ==> 0 <= Rev(f, n, stages, 0, j) < n && fout[Rev(f, n, stages, 0, j)] == x[j]
    {
      forall j | 0 <= j < i
        ensures Rev(f, n, stages, 0, i) != Rev(f, n, stages, 0, j)
      {
        RevInjective(f, n, stages, i, j);
      }
      RevRange(f, n, stages, i);
      fout[st.bitrev[i]] := Scale(st.scale, fin[i]);
      i := i + 1;
    }
    AtInside(fout[..]);
    LoadedIsStageInv(f, n, stages, st.twiddles, st.sqrtHalf, x, fout[..]);
    overflow := OpusFftImpl(st, fout, stages, x);
    if overflow {
      return;
    }
    forall k | 0 <= k < n
      ensures n > 0 && fout[k] == Scale(st.scale, Dft(st.twiddles, fin[..], k))
    {
      DftScaled(st.twiddles, fin[..], st.scale, k);
    }
    FourierSums(st.twiddles, fin[..]);
  }

  lemma RevRange(f: seq<int>, n: nat, stages: nat, i: int)
    requires IsFactorList(f, n, stages) && 0 <= i < n
    ensures 0 <= Rev(f, n, stages, 0, i) < n
  {
    hide IsFactorList, Rev, Src;
    SrcRev(f, n, stages, 0, i);
  }

  lemma AtInside(a: seq<Cpx>)
    ensures forall i :: 0 <= i < |a| ==> At(a, i) == a[i]
  {
  }

  /** The inverse sum, unscaled. */
  ghost function InverseDft(t: seq<Cpx>, x: seq<Cpx>, i: int): Cpx
    requires |t| > 0
  {
    Sum(|t|, k => Mul(At(x, k), W(t, -(k * i))))
  }

  lemma ConjDft(t: seq<Cpx>, c: real, x: seq<Cpx>, i: int)
    requires IsTwiddleTable(t, c)
    ensures |t| > 0 && Conj(Dft(t, Conjugated(x), i)) == InverseDft(t, x, i)
  {
    hide IsTwiddleTable, Mul, Sum, W;
    NotEmpty(t, c);
    var f := (k: int) => Mul(At(Conjugated(x), k), W(t, k * i));
    forall k
      ensures Conj(f(k)) == Mul(At(x, k), W(t, -(k * i)))
    {
      WConj(t, c, k * i);
      ConjMul(At(Conjugated(x), k), W(t, k * i));
    }
    SumConj(|t|, f);
    SumCong(|t|, f, k => Mul(At(Conjugated(x), k), W(t, k * i)));
    SumCong(|t|, k => Conj(f(k)), k => Mul(At(x, k), W(t, -(k * i))));
  }

  /** opus_ifft_c (kiss_fft.c:589-601): the inverse transform, unscaled, through the forward butterflies. */
  method OpusIfft(st: KissFft, fin: array<Cpx>, fout: array<Cpx>, ghost stages: nat) returns (overflow: bool)
    requires IsState(st, stages) && fin.Length == fout.Length == st.nfft && fin != fout
    modifies fout
    ensures overflow <==> stages == MAXFACTORS
    ensures !overflow ==> forall k :: 0 <= k < st.nfft ==> st.nfft > 0 && fout[k] == InverseDft(st.twiddles, fin[..], k)
    ensures !overflow ==> forall cos, sin, pi, k {:trigger HoldsTurns(cos, sin, pi, st.twiddles), fout[k]} ::
      IsTrig(cos, sin, pi) && HoldsTurns(cos, sin, pi, st.twiddles) && 0 <= k < st.nfft ==>
        fout[k] == InverseFourier(cos, sin, pi, fin[..], k)
  {
    hide IsFactorList, IsTwiddleTable, Rev, Dft, InverseDft, Conj, StageInv, At, IsTrig, HoldsTurns, Fourier,
         InverseFourier;
    ghost var f, n := st.factors, st.nfft;
    ghost var x := Conjugated(fin[..]);
    var i := 0;
    while i < st.nfft
      invariant 0 <= i <= st.nfft
      invariant forall j :: 0 <= j < i ==> 0 <= Rev(f, n, stages, 0, j) < n && fout[Rev(f, n, stages, 0, j)] == fin[j]
    {
      forall j | 0 <= j < i
        ensures Rev(f, n, stages, 0, i) != Rev(f, n, stages, 0, j)
      {
        RevInjective(f, n, stages, i, j);
      }
      RevRange(f, n, stages, i);
      fout[st.bitrev[i]] := fin[i];
      i := i + 1;
    }
    ConjugateAll(fout);
    forall j | 0 <= j < n
      ensures 0 <= Rev(f, n, stages, 0, j) < n && fout[Rev(f, n, stages, 0, j)] == x[j]
    {
    }
    AtInside(fout[..]);
    LoadedIsStageInv(f, n, stages, st.twiddles, st.sqrtHalf, x, fout[..]);
    overflow := OpusFftImpl(st, fout, stages, x);
    if overflow {
      return;
    }
    ConjugateAll(fout);
    forall k | 0 <= k < n
      ensures n > 0 && fout[k] == InverseDft(st.twiddles, fin[..], k)
    {
      ConjDft(st.twiddles, st.sqrtHalf, fin[..], k);
    }
    FourierSums(st.twiddles, fin[..]);
  }

  /** The two sign-flipping loops of opus_ifft_c. */
  method ConjugateAll(fout: array<Cpx>)
    modifies fout
    ensures forall i :: 0 <= i < fout.Length ==> fout[i] == Conj(old(fout[i]))
  {
    var i := 0;
    while i < fout.Length
      invariant 0 <= i <= fout.Length
      invariant forall j :: 0 <= j < fout.Length ==> fout[j] == if j < i then Conj(old(fout[j])) else old(fout[j])
    {
      fout[i] := Cpx(fout[i].r, -fout[i].i);
      i := i + 1;
    }
  }

  // ---- allocation ----

  /** opus_fft_alloc_twiddles (kiss_fft.c:434-493) with memory to spare: unless the factor list overruns, a state exists
      exactly for the lengths without a prime factor above 5. */
  method OpusFftAlloc(nfft: nat, cos: real -> real, sin: real -> real, pi: real)
      returns (st: Option<KissFft>, overflow: bool, ghost stages: nat)
    requires IsTrig(cos, sin, pi) && 1 <= nfft <= 32767
    ensures overflow <==> StageCount(nfft) > MAXFACTORS
    ensures !overflow ==> (st.Some? <==> FiveSmooth(nfft))
    ensures st.Some? ==> !overflow && st.value.nfft == nfft && IsState(st.value, stages)
    ensures st.Some? ==> HoldsTurns(cos, sin, pi, st.value.twiddles)
    ensures st.Some? ==> (stages == MAXFACTORS <==> StageCount(nfft) == MAXFACTORS)
  {
    hide IsTwiddleTable, IsFactorList, FiveSmooth, StageCount, FirstRadix, Rev, InOrder, IsTrig, HoldsTurns;
    var twiddles := ComputeTwiddles(cos, sin, pi, nfft);
    var factors := new int[2 * MAXFACTORS](_ => 0);
    var ok;
    ok, overflow, stages := KfFactor(nfft, factors);
    if overflow || !ok {
      return None, overflow, 0;
    }
    var f := factors[..];
    ListStarts(f, nfft, stages);
    if nfft == 1 {
      OneHasNoStage();
    }
    var bitrev := new int[nfft];
    ComputeBitrevTable(0, bitrev, 0, 1, f, 0, nfft, stages);
    var state := KissFft(nfft, 1.0 / nfft as real, f, bitrev[..], twiddles[..], cos(0.25 * pi));
    return Some(state), false, stages;
  }

  lemma ListStarts(f: seq<int>, n: nat, stages: nat)
    requires IsFactorList(f, n, stages)
    ensures stages >= 1
  {
  }

  // ---- round trips ----

  /** Fourier inversion over the table. */
  lemma Inversion(t: seq<Cpx>, c: real, x: seq<Cpx>, y: seq<Cpx>, i: int)
    requires IsTwiddleTable(t, c) && |x| == |y| == |t| && 0 <= i < |t|
    requires forall k :: 0 <= k < |t| ==> y[k] == Dft(t, x, k)
    ensures InverseDft(t, y, i) == Scale(|t| as real, x[i])
  {
    hide IsTwiddleTable, Mul, Sum, W, Dft, Scale;
    NotEmpty(t, c);
    var n := |t|;
    var g := (k: int, j: int) => Mul(At(x, j), W(t, k * (j - i)));
    var row, col := (k: int) => Sum(n, j => g(k, j)), (j: int) => Sum(n, k => g(k, j));
    forall k | 0 <= k < n
      ensures Mul(At(y, k), W(t, -(k * i))) == row(k)
    {
      InversionRow(t, c, x, i, k);
      SumCong(n, j => g(k, j), j => Mul(At(x, j), W(t, k * (j - i))));
    }
    SumCong(n, k => Mul(At(y, k), W(t, -(k * i))), row);
    SumSwap(n, n, g);
    SumCong(n, k => Sum(n, j => g(k, j)), row);
    SumCong(n, j => Sum(n, k => g(k, j)), col);
    forall j | 0 <= j < n
      ensures col(j) == if j == i then Scale(n as real, x[i]) else Zero
    {
      InversionColumn(t, c, x, i, j);
      SumCong(n, k => g(k, j), k => Mul(At(x, j), W(t, k * (j - i))));
    }
    SumSingle(n, col, i);
  }

  lemma InversionRow(t: seq<Cpx>, c: real, x: seq<Cpx>, i: int, k: int)
    requires IsTwiddleTable(t, c)
    ensures |t| > 0
    ensures Mul(Dft(t, x, k), W(t, -(k * i))) == Sum(|t|, j => Mul(At(x, j), W(t, k * (j - i))))
  {
    hide IsTwiddleTable, Mul, Sum, W, At;
    NotEmpty(t, c);
    var f := (j: int) => Mul(At(x, j), W(t, j * k));
    var w := W(t, -(k * i));
    forall j
      ensures Mul(f(j), w) == Mul(At(x, j), W(t, k * (j - i)))
    {
      MulAssoc(At(x, j), W(t, j * k), w);
      WAdd(t, c, j * k, -(k * i));
      ShiftExponent(j, k, i);
    }
    SumCong(|t|, f, j => Mul(At(x, j), W(t, j * k)));
    SumMul(|t|, f, w);
    SumCong(|t|, j => Mul(f(j), w), j => Mul(At(x, j), W(t, k * (j - i))));
  }

  lemma ShiftExponent(j: int, k: int, i: int)
    ensures j * k + -(k * i) == k * (j - i)
  {
  }

  lemma InversionColumn(t: seq<Cpx>, c: real, x: seq<Cpx>, i: int, j: int)
    requires IsTwiddleTable(t, c) && |x| == |t| && 0 <= i < |t| && 0 <= j < |t|
    ensures Sum(|t|, k => Mul(At(x, j), W(t, k * (j - i)))) == if j == i then Scale(|t| as real, x[i]) else Zero
  {
    hide IsTwiddleTable, Mul, Sum, W;
    var n, e := |t|, j - i;
    var f := (k: int) => W(t, k * e);
    forall k
      ensures Mul(f(k), x[j]) == Mul(At(x, j), W(t, k * e))
    {
      MulComm(f(k), x[j]);
    }
    SumMul(n, f, x[j]);
    SumCong(n, k => Mul(f(k), x[j]), k => Mul(At(x, j), W(t, k * (j - i))));
    Orthogonal(t, c, e);
    SumCong(n, f, k => W(t, k * e));
    SmallMod(e, n);
    RealMul(n as real, x[j]);
    MulOne(x[j]);
  }

  lemma SmallMod(e: int, n: int)
    requires -n < e < n
    ensures e % n == 0 <==> e == 0
  {
    if e < 0 {
      Arith.DivModUnique(e, n, -1, e + n);
    } else {
      Arith.DivModUnique(e, n, 0, e);
    }
  }

  lemma RealMul(s: real, a: Cpx)
    ensures Mul(Cpx(s, 0.0), a) == Scale(s, a)
  {
    hide SMul;
    SMulUnit(a.r);
    SMulUnit(a.i);
  }

  lemma ScaleInverse(n: int, a: Cpx)
    requires n > 0
    ensures Scale(1.0 / n as real, Scale(n as real, a)) == a
  {
    var s, r := n as real, 1.0 / n as real;
    assert SMul(r, s) == 1.0;
    hide SMul;
    SMulAssoc(r, s, a.r);
    SMulAssoc(r, s, a.i);
    SMulUnit(a.r);
    SMulUnit(a.i);
  }

  lemma InverseScaled(t: seq<Cpx>, x: seq<Cpx>, s: real, i: int)
    requires |t| > 0
    ensures InverseDft(t, Scaled(s, x), i) == Scale(s, InverseDft(t, x, i))
  {
    hide Mul, Sum, W;
    forall k
      ensures Mul(At(Scaled(s, x), k), W(t, -(k * i))) == Scale(s, Mul(At(x, k), W(t, -(k * i))))
    {
      if 0 <= k < |x| {
        ScaleMul(s, x[k], W(t, -(k * i)));
      } else {
        MulOne(W(t, -(k * i)));
      }
    }
    var f := (k: int) => Mul(At(x, k), W(t, -(k * i)));
    SumScale(|t|, f, s);
    SumCong(|t|, f, k => Mul(At(x, k), W(t, -(k * i))));
    SumCong(|t|, k => Mul(At(Scaled(s, x), k), W(t, -(k * i))), k => Scale(s, f(k)));
  }

  ghost function Spectrum(t: seq<Cpx>, x: seq<Cpx>): (y: seq<Cpx>)
    requires |t| > 0
    ensures |y| == |t| && forall k :: 0 <= k < |t| ==> y[k] == Dft(t, x, k)
  {
    seq(|t|, k => Dft(t, x, k))
  }

  /** opus_ifft_c undoes opus_fft_c on every input of every length both can transform. */
  method RoundTrip(st: KissFft, x: array<Cpx>, ghost stages: nat) returns (z: array<Cpx>, overflow: bool)
    requires IsState(st, stages) && x.Length == st.nfft
    ensures overflow <==> stages == MAXFACTORS
    ensures !overflow ==> z.Length == st.nfft && z[..] == x[..]
  {
    hide IsFactorList, IsTwiddleTable, Rev, Dft, InverseDft, Scale, At;
    ghost var t, n := st.twiddles, st.nfft;
    var y := new Cpx[st.nfft](_ => Zero);
    z := new Cpx[st.nfft](_ => Zero);
    overflow := OpusFft(st, x, y, stages);
    if overflow {
      return;
    }
    overflow := OpusIfft(st, y, z, stages);
    NotEmpty(t, st.sqrtHalf);
    ghost var input := x[..];
    ghost var plain := Spectrum(t, input);
    assert y[..] == Scaled(st.scale, plain);
    forall i | 0 <= i < n
      ensures z[i] == x[i]
    {
      InverseScaled(t, plain, st.scale, i);
      Inversion(t, st.sqrtHalf, input, plain, i);
      ScaleInverse(n, x[i]);
    }
  }
}
