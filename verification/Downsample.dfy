/** celt_fir5 and pitch_downsample of pitch.c: the signal in which the pitch is searched. */
module Downsample {
  import opened Reals
  import Correlation
  import Levinson

  // ---- celt_fir5 ----

  /** The five samples before the input, oldest first, and then the input. */
  ghost function History(mem: seq<real>, x: seq<real>): (h: seq<real>)
    requires |mem| == 5
    ensures |h| == 5 + |x|
  {
    [mem[4], mem[3], mem[2], mem[1], mem[0]] + x
  }

  /** One output of a filter with coefficients 1, num[0], num[1], ... */
  ghost function Filtered(num: seq<real>, h: seq<real>, at: int): real
  {
    RAt(h, at) + Correlation.Convolved(num, h, at)
  }

  lemma Taps(num: seq<real>, h: seq<real>, at: int)
    requires |num| == 5
    ensures Correlation.Convolved(num, h, at)
         == SMul(num[0], RAt(h, at - 1)) + SMul(num[1], RAt(h, at - 2)) + SMul(num[2], RAt(h, at - 3))
          + SMul(num[3], RAt(h, at - 4)) + SMul(num[4], RAt(h, at - 5))
  {
    hide SMul;
    var f := (j: int) => SMul(RAt(num, j), RAt(h, at - 1 - j));
    assert Correlation.Convolved(num, h, at) == RSum(5, f) by {
      RSumCong(5, f, j => SMul(RAt(num, j), RAt(h, at - 1 - j)));
    }
    assert RSum(5, f) == RSum(4, f) + f(4);
    assert RSum(4, f) == RSum(3, f) + f(3);
    assert RSum(3, f) == RSum(2, f) + f(2);
    assert RSum(2, f) == RSum(1, f) + f(1);
    assert RSum(1, f) == RSum(0, f) + f(0);
  }

  /** The delay line of celt_fir5 before sample i: the five last samples of the history. */
  ghost predicate Delayed(h: seq<real>, i: int, m0: real, m1: real, m2: real, m3: real, m4: real)
  {
    m0 == RAt(h, i + 4) && m1 == RAt(h, i + 3) && m2 == RAt(h, i + 2) && m3 == RAt(h, i + 1) && m4 == RAt(h, i)
  }

  /** celt_fir5 (pitch.c:106-145), also in place: y may be x. */
  method CeltFir5(x: array<real>, num: seq<real>, y: array<real>, N: nat, mem: array<real>)
    requires |num| == 5 && mem.Length == 5 && x.Length == N && y.Length == N && mem != x && mem != y
    modifies y, mem
    ensures forall i :: 0 <= i < N ==> y[i] == Filtered(num, History(old(mem[..]), old(x[..])), 5 + i)
    ensures History(mem[..], []) == History(old(mem[..]), old(x[..]))[N..]
  {
    hide SMul, Filtered, RAt;
    ghost var xs := x[..];
    ghost var h := History(mem[..], xs);
    var mem0, mem1, mem2, mem3, mem4 := mem[0], mem[1], mem[2], mem[3], mem[4];
    Inside(h);
    var i := 0;
    while i < N
      invariant 0 <= i <= N && forall k :: i <= k < N ==> x[k] == xs[k]
      invariant Delayed(h, i, mem0, mem1, mem2, mem3, mem4)
      invariant forall k :: 0 <= k < i ==> y[k] == Filtered(num, h, 5 + k)
      modifies y
    {
      var xi := x[i];
      InHistory(h, xs, i);
      OneOutput(num, h, i, xi, mem0, mem1, mem2, mem3, mem4);
      var sum := xi;
      sum := sum + SMul(num[0], mem0);
      sum := sum + SMul(num[1], mem1);
      sum := sum + SMul(num[2], mem2);
      sum := sum + SMul(num[3], mem3);
      sum := sum + SMul(num[4], mem4);
      mem4 := mem3;
      mem3 := mem2;
      mem2 := mem1;
      mem1 := mem0;
      mem0 := x[i];
      y[i] := sum;
      i := i + 1;
    }
    mem[0], mem[1], mem[2], mem[3], mem[4] := mem0, mem1, mem2, mem3, mem4;
    LastFive(h, N, mem[..]);
  }

  lemma Inside(h: seq<real>)
    requires |h| >= 5
    ensures RAt(h, 0) == h[0] && RAt(h, 1) == h[1] && RAt(h, 2) == h[2] && RAt(h, 3) == h[3] && RAt(h, 4) == h[4]
  {
  }

  lemma InHistory(h: seq<real>, x: seq<real>, i: nat)
    requires |h| == |x| + 5 && h[5..] == x && i < |x|
    ensures RAt(h, i + 5) == x[i]
  {
    assert x[i] == h[5..][i];
  }

  lemma OneOutput(num: seq<real>, h: seq<real>, i: nat, xi: real, m0: real, m1: real, m2: real, m3: real, m4: real)
    requires |num| == 5 && Delayed(h, i, m0, m1, m2, m3, m4) && xi == RAt(h, i + 5)
    ensures xi + SMul(num[0], m0) + SMul(num[1], m1) + SMul(num[2], m2) + SMul(num[3], m3) + SMul(num[4], m4)
         == Filtered(num, h, 5 + i)
  {
    hide SMul, RAt;
    Taps(num, h, 5 + i);
  }

  lemma LastFive(h: seq<real>, n: nat, mem: seq<real>)
    requires |mem| == 5 && |h| == n + 5 && Delayed(h, n, mem[0], mem[1], mem[2], mem[3], mem[4])
    ensures History(mem, []) == h[n..]
  {
  }

  // ---- pitch_downsample ----

  /** Half-band smoothing and decimation by two (pitch.c:173-175). */
  ghost function Halved(x: seq<real>, i: int): real
  {
    if i == 0 then 0.5 * (0.5 * RAt(x, 1) + RAt(x, 0))
    else 0.5 * (0.5 * (RAt(x, 2 * i - 1) + RAt(x, 2 * i + 1)) + RAt(x, 2 * i))
  }

  /** The smoothing keeps a constant and removes a signal that alternates from sample to sample, but for the first
      output, which has one neighbour only. */
  lemma HalvedBand(x: seq<real>, u: real, i: int)
    requires 0 <= i && 2 * i + 1 < |x|
    ensures (forall k :: 0 <= k < |x| ==> x[k] == u) ==> Halved(x, i) == if i == 0 then 0.75 * u else u
    ensures (forall k :: 0 <= k < |x| ==> x[k] == if k % 2 == 0 then u else -u) ==>
      Halved(x, i) == if i == 0 then 0.25 * u else 0.0
  {
  }

  ghost function HalvedSignal(x: seq<real>, n: nat): (h: seq<real>)
    ensures |h| == n
  {
    seq(n, i => Halved(x, i))
  }

  /** One channel, or the sum of two. */
  ghost function Mixed(x0: seq<real>, x1: seq<real>, C: int, n: nat): (h: seq<real>)
    ensures |h| == n
  {
    seq(n, i => if C == 2 then Halved(x0, i) + Halved(x1, i) else Halved(x0, i))
  }

  /** Two channels are added, sample by sample. */
  lemma TwoChannels(x0: seq<real>, x1: seq<real>, n: nat, i: nat)
    requires i < n
    ensures Mixed(x0, x1, 2, n)[i] == HalvedSignal(x0, n)[i] + HalvedSignal(x1, n)[i]
  {
    hide Halved;
  }

  /** The loops over the first channel (pitch.c:173-175). */
  method Halve(x: array<real>, xLp: array<real>)
    requires xLp != x && xLp.Length > 0 && x.Length >= 2 * xLp.Length
    modifies xLp
    ensures xLp[..] == HalvedSignal(x[..], xLp.Length)
  {
    ghost var xs := x[..];
    var i := 1;
    while i < xLp.Length
      invariant 1 <= i <= xLp.Length && x[..] == xs
      invariant forall k :: 1 <= k < i ==> xLp[k] == Halved(xs, k)
    {
      xLp[i] := 0.5 * (0.5 * (x[2 * i - 1] + x[2 * i + 1]) + x[2 * i]);
      i := i + 1;
    }
    xLp[0] := 0.5 * (0.5 * x[1] + x[0]);
  }

  /** The loop over the second channel (pitch.c:176-181). */
  method AddHalved(x: array<real>, xLp: array<real>)
    requires xLp != x && xLp.Length > 0 && x.Length >= 2 * xLp.Length
    modifies xLp
    ensures forall k :: 0 <= k < xLp.Length ==> xLp[k] == old(xLp[k]) + Halved(x[..], k)
  {
    ghost var xs := x[..];
    var i := 1;
    while i < xLp.Length
      invariant 1 <= i <= xLp.Length && x[..] == xs
      invariant forall k :: 0 <= k < xLp.Length ==>
        xLp[k] == if 1 <= k < i then old(xLp[k]) + Halved(xs, k) else old(xLp[k])
    {
      xLp[i] := xLp[i] + 0.5 * (0.5 * (x[2 * i - 1] + x[2 * i + 1]) + x[2 * i]);
      i := i + 1;
    }
    xLp[0] := xLp[0] + 0.5 * (0.5 * x[1] + x[0]);
  }

  /** Both (pitch.c:173-181). */
  method Mix(x0: array<real>, x1: array<real>, C: int, xLp: array<real>)
    requires xLp != x0 && xLp.Length > 0 && x0.Length >= 2 * xLp.Length
    requires C == 2 ==> xLp != x1 && x1.Length >= 2 * xLp.Length
    modifies xLp
    ensures xLp[..] == Mixed(old(x0[..]), old(x1[..]), C, xLp.Length)
  {
    hide Halved;
    Halve(x0, xLp);
    if C == 2 {
      AddHalved(x1, xLp);
    }
  }

  /** Noise floor and lag window (pitch.c:186-201). */
  ghost function LagWindowed(ac: seq<real>, i: int): real
  {
    if i == 0 then SMul(RAt(ac, 0), 1.0001)
    else RAt(ac, i) - SMul(SMul(RAt(ac, i), 0.008 * i as real), 0.008 * i as real)
  }

  /** Lag 0 grows by a ten-thousandth, the others shrink by (0.008 i)^2 of themselves. */
  lemma LagFactors(ac: seq<real>)
    requires |ac| == 5
    ensures LagWindowed(ac, 0) == 1.0001 * ac[0]
    ensures LagWindowed(ac, 1) == 0.999936 * ac[1] && LagWindowed(ac, 2) == 0.999744 * ac[2]
    ensures LagWindowed(ac, 3) == 0.999424 * ac[3] && LagWindowed(ac, 4) == 0.998976 * ac[4]
  {
  }

  method LagWindow(ac: array<real>)
    requires ac.Length == 5
    modifies ac
    ensures forall k :: 0 <= k < 5 ==> ac[k] == LagWindowed(old(ac[..]), k)
  {
    hide SMul;
    ghost var was := ac[..];
    ac[0] := SMul(ac[0], 1.0001);
    var i := 1;
    while i <= 4
      invariant 1 <= i <= 5
      invariant forall k :: 0 <= k < 5 ==> ac[k] == if k < i then LagWindowed(was, k) else was[k]
    {
      ac[i] := ac[i] - SMul(SMul(ac[i], 0.008 * i as real), 0.008 * i as real);
      i := i + 1;
    }
  }

  ghost function Power(b: real, n: nat): real
  {
    if n == 0 then 1.0 else SMul(b, Power(b, n - 1))
  }

  /** Coefficients pulled towards zero (pitch.c:204-208). */
  ghost function Expanded(lpc: seq<real>): (r: seq<real>)
    ensures |r| == |lpc|
  {
    seq(|lpc|, i requires 0 <= i < |lpc| => SMul(lpc[i], Power(0.9, i + 1)))
  }

  /** The four coefficients shrink to 0.9, 0.81, 0.729 and 0.6561 of themselves. */
  lemma ExpandFactors(lpc: seq<real>)
    requires |lpc| == 4
    ensures Expanded(lpc) == [0.9 * lpc[0], 0.81 * lpc[1], 0.729 * lpc[2], 0.6561 * lpc[3]]
  {
    assert Power(0.9, 0) == 1.0;
    assert Power(0.9, 1) == 0.9;
    assert Power(0.9, 2) == 0.81;
    assert Power(0.9, 3) == 0.729;
    assert Power(0.9, 4) == 0.6561;
    var x := Expanded(lpc);
    assert x[0] == SMul(lpc[0], 0.9) && x[1] == SMul(lpc[1], 0.81);
    assert x[2] == SMul(lpc[2], 0.729) && x[3] == SMul(lpc[3], 0.6561);
  }

  method Expand(lpc: array<real>)
    requires lpc.Length == 4
    modifies lpc
    ensures lpc[..] == Expanded(old(lpc[..]))
  {
    hide SMul;
    ghost var was := lpc[..];
    var tmp := 1.0;
    var i := 0;
    while i < 4
      invariant 0 <= i <= 4 && tmp == Power(0.9, i)
      invariant forall k :: 0 <= k < 4 ==> lpc[k] == if k < i then SMul(was[k], Power(0.9, k + 1)) else was[k]
    {
      tmp := SMul(0.9, tmp);
      lpc[i] := SMul(lpc[i], tmp);
      i := i + 1;
    }
  }

  /** The five coefficients with a zero added (pitch.c:209-214). */
  function WithZero(a: seq<real>): (b: seq<real>)
    requires |a| == 4
    ensures |b| == 5
  {
    [a[0] + 0.8, a[1] + SMul(0.8, a[0]), a[2] + SMul(0.8, a[1]), a[3] + SMul(0.8, a[2]), SMul(0.8, a[3])]
  }

  lemma FourTaps(a: seq<real>, h: seq<real>, at: int)
    requires |a| == 4
    ensures Correlation.Convolved(a, h, at)
         == SMul(a[0], RAt(h, at - 1)) + SMul(a[1], RAt(h, at - 2)) + SMul(a[2], RAt(h, at - 3))
          + SMul(a[3], RAt(h, at - 4))
  {
    hide SMul;
    var f := (j: int) => SMul(RAt(a, j), RAt(h, at - 1 - j));
    assert Correlation.Convolved(a, h, at) == RSum(4, f) by {
      RSumCong(4, f, j => SMul(RAt(a, j), RAt(h, at - 1 - j)));
    }
    assert RSum(4, f) == RSum(3, f) + f(3);
    assert RSum(3, f) == RSum(2, f) + f(2);
    assert RSum(2, f) == RSum(1, f) + f(1);
    assert RSum(1, f) == RSum(0, f) + f(0);
  }

  /** Filtering with the added zero is whitening first and then adding 0.8 of the previous sample. */
  lemma ZeroIsCascade(a: seq<real>, h: seq<real>, at: int)
    requires |a| == 4
    ensures Filtered(WithZero(a), h, at) == Filtered(a, h, at) + SMul(0.8, Filtered(a, h, at - 1))
  {
    hide SMul, RAt, Correlation.Convolved;
    Taps(WithZero(a), h, at);
    FourTaps(a, h, at);
    FourTaps(a, h, at - 1);
    var x1, x2, x3, x4, x5 := RAt(h, at - 1), RAt(h, at - 2), RAt(h, at - 3), RAt(h, at - 4), RAt(h, at - 5);
    assert x1 == RAt(h, at - 1) && x2 == RAt(h, at - 1 - 1) && x3 == RAt(h, at - 1 - 2)
        && x4 == RAt(h, at - 1 - 3) && x5 == RAt(h, at - 1 - 4);
    Cascade(a[0], a[1], a[2], a[3], x1, x2, x3, x4, x5);
  }

  lemma Cascade(a: real, b: real, c: real, d: real, x1: real, x2: real, x3: real, x4: real, x5: real)
    ensures SMul(a + 0.8, x1) + SMul(b + SMul(0.8, a), x2) + SMul(c + SMul(0.8, b), x3) + SMul(d + SMul(0.8, c), x4)
          + SMul(SMul(0.8, d), x5)
         == SMul(a, x1) + SMul(b, x2) + SMul(c, x3) + SMul(d, x4)
          + SMul(0.8, x1 + (SMul(a, x2) + SMul(b, x3) + SMul(c, x4) + SMul(d, x5)))
  {
  }

  ghost function Zeros5(): seq<real> { [0.0, 0.0, 0.0, 0.0, 0.0] }

  /** With an empty delay line the history is zero before the start. */
  lemma ZeroHistory(num: seq<real>, x: seq<real>, i: nat)
    requires |num| == 5 && i < |x|
    ensures Filtered(num, History(Zeros5(), x), 5 + i) == Filtered(num, x, i)
  {
    hide SMul, Correlation.Convolved;
    var h := History(Zeros5(), x);
    Taps(num, h, 5 + i);
    Taps(num, x, i);
    Shifted(x, i);
    Shifted(x, i - 1);
    Shifted(x, i - 2);
    Shifted(x, i - 3);
    Shifted(x, i - 4);
    Shifted(x, i - 5);
  }

  lemma Shifted(x: seq<real>, i: int)
    requires -5 <= i < |x|
    ensures RAt(History(Zeros5(), x), 5 + i) == RAt(x, i)
  {
  }

  /** pitch_downsample (pitch.c:148-216) of one channel or two: a decimated signal, whitened with the first m
      coefficients of its own lag-windowed predictor, pulled in, and followed by a zero. */
  method PitchDownsample(x0: array<real>, x1: array<real>, xLp: array<real>, C: int)
      returns (ghost R: seq<real>, ghost a: seq<real>, ghost m: nat)
    requires xLp != x0 && xLp.Length >= 7 && x0.Length >= 2 * xLp.Length
    requires C == 2 ==> xLp != x1 && x1.Length >= 2 * xLp.Length
    modifies xLp
    ensures |R| == 5 && |a| == 4 && m <= 4
    ensures
      var h := Mixed(old(x0[..]), old(x1[..]), C, xLp.Length);
      && (forall k :: 0 <= k < 5 ==> R[k] == LagWindowed(Autocorrelations(h), k))
      && Levinson.Solves(a, R, m) && (forall j :: m <= j < 4 ==> a[j] == 0.0)
      && forall i :: 0 <= i < xLp.Length ==>
           xLp[i] == Filtered(Expanded(a), h, i) + SMul(0.8, Filtered(Expanded(a), h, i - 1))
  {
    hide *;
    Mix(x0, x1, C, xLp);
    ghost var h := xLp[..];
    var ac := new real[5];
    ghost var used := Correlation.CeltAutocorr(xLp, ac, [], 0, 4);
    NoTaper(h, used);
    LagsAre(h, ac[..]);
    ghost var plain := ac[..];
    LagWindow(ac);
    R := ac[..];
    FloorNonNegative(plain);
    var lpc := new real[4];
    var zeroDivisor;
    ghost var refl;
    zeroDivisor, m, refl := Levinson.CeltLpc(lpc, ac, 4);
    a := lpc[..];
    Expand(lpc);
    var lpc2 := WithZero(lpc[..]);
    var mem := new real[5](_ => 0.0);
    ghost var z := mem[..];
    CeltFir5(xLp, lpc2, xLp, xLp.Length, mem);
    forall i | 0 <= i < xLp.Length
      ensures xLp[i] == Filtered(Expanded(a), h, i) + SMul(0.8, Filtered(Expanded(a), h, i - 1))
    {
      AreZeros(z);
      ZeroHistory(lpc2, h, i);
      ZeroIsCascade(Expanded(a), h, i);
    }
  }

  lemma OneChannel(x0: seq<real>, x1: seq<real>, n: nat)
    ensures Mixed(x0, x1, 1, n) == HalvedSignal(x0, n)
  {
  }

  ghost function Autocorrelations(h: seq<real>): (s: seq<real>)
    requires |h| >= 4
    ensures |s| == 5
  {
    seq(5, k requires 0 <= k < 5 => Correlation.Autocorrelation(h, k))
  }

  lemma AreZeros(z: seq<real>)
    requires |z| == 5 && forall i :: 0 <= i < 5 ==> z[i] == 0.0
    ensures z == Zeros5()
  {
  }

  lemma NoTaper(x: seq<real>, used: seq<real>)
    requires |used| == |x| && forall i :: 0 <= i < |used| ==> used[i] == Correlation.Tapered(x, [], 0, i)
    ensures used == x
  {
  }

  lemma LagsAre(h: seq<real>, ac: seq<real>)
    requires |h| >= 4 && |ac| == 5 && forall k :: 0 <= k <= 4 ==> ac[k] == Correlation.Autocorrelation(h, k)
    ensures ac == Autocorrelations(h)
  {
  }

  lemma FloorNonNegative(ac: seq<real>)
    requires |ac| == 5 && ac[0] >= 0.0
    ensures LagWindowed(ac, 0) >= 0.0
  {
  }
}
