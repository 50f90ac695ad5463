/** The correlation kernels of pitch.h and pitch.c and what celt_lpc.c builds on them. */
module Correlation {
  import opened Reals

  // ---- pitch.h ----

  /** Four multiply-accumulates with one sample of x (one quarter of the body of xcorr_kernel). */
  method Mac4(sum: array<real>, tmp: real, a: real, b: real, c: real, d: real)
    requires sum.Length == 4
    modifies sum
    ensures sum[0] == old(sum[0]) + SMul(tmp, a) && sum[1] == old(sum[1]) + SMul(tmp, b)
    ensures sum[2] == old(sum[2]) + SMul(tmp, c) && sum[3] == old(sum[3]) + SMul(tmp, d)
  {
    hide SMul;
    sum[0] := sum[0] + SMul(tmp, a);
    sum[1] := sum[1] + SMul(tmp, b);
    sum[2] := sum[2] + SMul(tmp, c);
    sum[3] := sum[3] + SMul(tmp, d);
  }

  /** sum holds s0 plus the first j terms of the four shifted inner products. */
  ghost predicate Partial(s0: seq<real>, s: seq<real>, x: seq<real>, xo: int, y: seq<real>, yo: int, j: nat)
  {
    |s0| == 4 && |s| == 4
    && s[0] == s0[0] + Dot(x, xo, y, yo, j) && s[1] == s0[1] + Dot(x, xo, y, yo + 1, j)
    && s[2] == s0[2] + Dot(x, xo, y, yo + 2, j) && s[3] == s0[3] + Dot(x, xo, y, yo + 3, j)
  }

  lemma PartialStart(s: seq<real>, x: seq<real>, xo: int, y: seq<real>, yo: int)
    requires |s| == 4
    ensures Partial(s, s, x, xo, y, yo, 0)
  {
    DotNext(x, xo, y, yo, 0);
    DotNext(x, xo, y, yo + 1, 0);
    DotNext(x, xo, y, yo + 2, 0);
    DotNext(x, xo, y, yo + 3, 0);
  }

  lemma PartialNext(s0: seq<real>, s: seq<real>, s': seq<real>, x: seq<real>, xo: nat, y: seq<real>, yo: nat, j: nat)
    requires Partial(s0, s, x, xo, y, yo, j) && |s'| == 4 && xo + j < |x| && yo + j + 3 < |y|
    requires s'[0] == s[0] + SMul(x[xo + j], y[yo + j]) && s'[1] == s[1] + SMul(x[xo + j], y[yo + j + 1])
    requires s'[2] == s[2] + SMul(x[xo + j], y[yo + j + 2]) && s'[3] == s[3] + SMul(x[xo + j], y[yo + j + 3])
    ensures Partial(s0, s', x, xo, y, yo, j + 1)
  {
    hide SMul, Dot;
    DotNext(x, xo, y, yo, j);
    DotNext(x, xo, y, yo + 1, j);
    DotNext(x, xo, y, yo + 2, j);
    DotNext(x, xo, y, yo + 3, j);
  }

  /** xcorr_kernel (pitch.h:53-117): four inner products at once through four rotating registers. Of y exactly
      the len + 3 samples from yo are read. */
  method XcorrKernel(x: array<real>, xo: nat, y: array<real>, yo: nat, sum: array<real>, len: nat)
    requires len >= 3 && xo + len <= x.Length && yo + len + 3 <= y.Length
    requires sum.Length == 4 && sum != x && sum != y
    modifies sum
    ensures forall k :: 0 <= k < 4 ==> sum[k] == old(sum[k]) + Dot(x[..], xo, y[..], yo + k, len)
  {
    hide *;
    ghost var s0, xs, ys := sum[..], x[..], y[..];
    PartialStart(s0, xs, xo, ys, yo);
    var xp, yp := xo, yo;
    var y3 := 0.0;
    var y0 := y[yp];
    var y1 := y[yp + 1];
    var y2 := y[yp + 2];
    yp := yp + 3;
    var j := 0;
    while j < len - 3
      invariant 0 <= j <= len && xp == xo + j && yp == yo + j + 3
      invariant y0 == ys[yo + j] && y1 == ys[yo + j + 1] && y2 == ys[yo + j + 2]
      invariant Partial(s0, sum[..], xs, xo, ys, yo, j)
    {
      ghost var s := sum[..];
      var tmp := x[xp];
      y3 := y[yp];
      Mac4(sum, tmp, y0, y1, y2, y3);
      PartialNext(s0, s, sum[..], xs, xo, ys, yo, j);
      s := sum[..];
      tmp := x[xp + 1];
      y0 := y[yp + 1];
      Mac4(sum, tmp, y1, y2, y3, y0);
      PartialNext(s0, s, sum[..], xs, xo, ys, yo, j + 1);
      s := sum[..];
      tmp := x[xp + 2];
      y1 := y[yp + 2];
      Mac4(sum, tmp, y2, y3, y0, y1);
      PartialNext(s0, s, sum[..], xs, xo, ys, yo, j + 2);
      s := sum[..];
      tmp := x[xp + 3];
      y2 := y[yp + 3];
      Mac4(sum, tmp, y3, y0, y1, y2);
      PartialNext(s0, s, sum[..], xs, xo, ys, yo, j + 3);
      xp := xp + 4;
      yp := yp + 4;
      j := j + 4;
    }
    ghost var s := sum[..];
    if j < len {
      var tmp := x[xp];
      xp := xp + 1;
      y3 := y[yp];
      yp := yp + 1;
      Mac4(sum, tmp, y0, y1, y2, y3);
      PartialNext(s0, s, sum[..], xs, xo, ys, yo, j);
      s := sum[..];
    }
    j := j + 1;
    if j < len {
      var tmp := x[xp];
      xp := xp + 1;
      y0 := y[yp];
      yp := yp + 1;
      Mac4(sum, tmp, y1, y2, y3, y0);
      PartialNext(s0, s, sum[..], xs, xo, ys, yo, j);
      s := sum[..];
    }
    j := j + 1;
    if j < len {
      var tmp := x[xp];
      y1 := y[yp];
      Mac4(sum, tmp, y2, y3, y0, y1);
      PartialNext(s0, s, sum[..], xs, xo, ys, yo, j);
    }
    PartialEnd(s0, sum[..], xs, xo, ys, yo, len);
    assert x[..] == xs && y[..] == ys;
  }

  lemma PartialEnd(s0: seq<real>, s: seq<real>, x: seq<real>, xo: int, y: seq<real>, yo: int, n: nat)
    requires Partial(s0, s, x, xo, y, yo, n)
    ensures |s0| == |s| == 4 && forall k :: 0 <= k < 4 ==> s[k] == s0[k] + Dot(x, xo, y, yo + k, n)
  {
    hide Dot;
    forall k | 0 <= k < 4
      ensures s[k] == s0[k] + Dot(x, xo, y, yo + k, n)
    {
      assert k == 0 || k == 1 || k == 2 || k == 3;
    }
  }

  /** celt_inner_prod (pitch.h:136-144). */
  method InnerProd(x: array<real>, xo: nat, y: array<real>, yo: nat, N: nat) returns (xy: real)
    requires xo + N <= x.Length && yo + N <= y.Length
    ensures xy == Dot(x[..], xo, y[..], yo, N)
  {
    hide SMul, Dot;
    DotNext(x[..], xo, y[..], yo, 0);
    xy := 0.0;
    var i := 0;
    while i < N
      invariant 0 <= i <= N && xy == Dot(x[..], xo, y[..], yo, i)
    {
      DotNext(x[..], xo, y[..], yo, i);
      xy := xy + SMul(x[xo + i], y[yo + i]);
      i := i + 1;
    }
  }

  /** dual_inner_prod (pitch.h:119-132). */
  method DualInnerProd(x: array<real>, xo: nat, y01: array<real>, o1: nat, y02: array<real>, o2: nat, N: nat)
      returns (xy1: real, xy2: real)
    requires xo + N <= x.Length && o1 + N <= y01.Length && o2 + N <= y02.Length
    ensures xy1 == Dot(x[..], xo, y01[..], o1, N) && xy2 == Dot(x[..], xo, y02[..], o2, N)
  {
    hide SMul, Dot;
    DotNext(x[..], xo, y01[..], o1, 0);
    DotNext(x[..], xo, y02[..], o2, 0);
    xy1, xy2 := 0.0, 0.0;
    var i := 0;
    while i < N
      invariant 0 <= i <= N && xy1 == Dot(x[..], xo, y01[..], o1, i) && xy2 == Dot(x[..], xo, y02[..], o2, i)
    {
      DotNext(x[..], xo, y01[..], o1, i);
      DotNext(x[..], xo, y02[..], o2, i);
      xy1 := xy1 + SMul(x[xo + i], y01[o1 + i]);
      xy2 := xy2 + SMul(x[xo + i], y02[o2 + i]);
      i := i + 1;
    }
  }

  // ---- celt_pitch_xcorr ----

  /** The reference form kept under #if 0 (pitch.c:222-240). */
  method PitchXcorrSimple(x: array<real>, y: array<real>, xcorr: array<real>, len: nat, maxPitch: nat)
    requires len <= x.Length && xcorr.Length >= maxPitch && xcorr != x && xcorr != y
    requires maxPitch > 0 ==> len + maxPitch - 1 <= y.Length
    modifies xcorr
    ensures forall i :: 0 <= i < xcorr.Length ==>
      xcorr[i] == if i < maxPitch then Dot(x[..], 0, y[..], i, len) else old(xcorr[i])
  {
    hide SMul, Dot;
    ghost var xs, ys := x[..], y[..];
    var i := 0;
    while i < maxPitch
      invariant 0 <= i <= maxPitch && x[..] == xs && y[..] == ys
      invariant forall k :: 0 <= k < xcorr.Length ==>
        xcorr[k] == if k < i then Dot(xs, 0, ys, k, len) else old(xcorr[k])
    {
      DotNext(xs, 0, ys, i, 0);
      var sum := 0.0;
      var j := 0;
      while j < len
        invariant 0 <= j <= len && sum == Dot(xs, 0, ys, i, j)
        modifies {}
      {
        DotNext(xs, 0, ys, i, j);
        sum := sum + SMul(x[j], y[i + j]);
        j := j + 1;
      }
      xcorr[i] := sum;
      i := i + 1;
    }
  }

  /** celt_pitch_xcorr (pitch.c:218-281) writes the same values as the reference form. */
  method PitchXcorr(x: array<real>, y: array<real>, xcorr: array<real>, len: nat, maxPitch: nat)
    requires maxPitch > 0 && (maxPitch > 3 ==> len >= 3)
    requires len <= x.Length && len + maxPitch - 1 <= y.Length
    requires xcorr.Length >= maxPitch && xcorr != x && xcorr != y
    modifies xcorr
    ensures forall i :: 0 <= i < xcorr.Length ==>
      xcorr[i] == if i < maxPitch then Dot(x[..], 0, y[..], i, len) else old(xcorr[i])
  {
    hide SMul, Dot;
    ghost var xs, ys := x[..], y[..];
    var sum := new real[4](_ => 0.0);
    var i := 0;
    while i < maxPitch - 3
      invariant 0 <= i <= maxPitch && x[..] == xs && y[..] == ys
      invariant forall k :: 0 <= k < xcorr.Length ==>
        xcorr[k] == if k < i then Dot(xs, 0, ys, k, len) else old(xcorr[k])
      modifies sum, xcorr
    {
      sum[0], sum[1], sum[2], sum[3] := 0.0, 0.0, 0.0, 0.0;
      XcorrKernel(x, 0, y, i, sum, len);
      xcorr[i] := sum[0];
      xcorr[i + 1] := sum[1];
      xcorr[i + 2] := sum[2];
      xcorr[i + 3] := sum[3];
      i := i + 4;
    }
    while i < maxPitch
      invariant 0 <= i <= maxPitch && x[..] == xs && y[..] == ys
      invariant forall k :: 0 <= k < xcorr.Length ==>
        xcorr[k] == if k < i then Dot(xs, 0, ys, k, len) else old(xcorr[k])
      modifies xcorr
    {
      var s := InnerProd(x, 0, y, i, len);
      xcorr[i] := s;
      i := i + 1;
    }
  }

  // ---- celt_fir ----

  ghost function Reversed(s: seq<real>): (r: seq<real>)
    ensures |r| == |s| && forall i :: 0 <= i < |s| ==> r[i] == s[|s| - 1 - i]
  {
    seq(|s|, i requires 0 <= i < |s| => s[|s| - 1 - i])
  }

  /** The inner product with reversed coefficients is a convolution. */
  lemma Convolution(num: seq<real>, x: seq<real>, at: int)
    ensures Dot(Reversed(num), 0, x, at - |num|, |num|) == Convolved(num, x, at)
  {
    hide SMul;
    var n := |num|;
    var f := (j: int) => SMul(RAt(Reversed(num), 0 + j), RAt(x, at - n + j));
    RSumCong(n, j => SMul(RAt(Reversed(num), 0 + j), RAt(x, at - n + j)), f);
    RSumReverse(n, f);
    RSumCong(n, j => f(n - 1 - j), j => SMul(RAt(num, j), RAt(x, at - 1 - j)));
  }

  /** num[0] x[at - 1] + num[1] x[at - 2] + ... */
  ghost function Convolved(num: seq<real>, x: seq<real>, at: int): real
  {
    RSum(|num|, j => SMul(RAt(num, j), RAt(x, at - 1 - j)))
  }

  /** The loop that reverses the coefficients (celt_lpc.c:100-101 and 152-153). */
  method ReverseInto(num: array<real>, ord: nat) returns (rnum: array<real>)
    requires num.Length == ord
    ensures fresh(rnum) && rnum.Length == ord && rnum[..] == Reversed(num[..])
  {
    rnum := new real[ord];
    var i := 0;
    while i < ord
      invariant 0 <= i <= ord
      invariant forall k :: 0 <= k < i ==> rnum[k] == num[ord - 1 - k]
      modifies rnum
    {
      rnum[i] := num[ord - i - 1];
      i := i + 1;
    }
  }

  /** One output of the tail loop of celt_fir (celt_lpc.c:117-119). */
  method FirSample(rnum: array<real>, x: array<real>, at: nat, ord: nat, ghost num: seq<real>) returns (sum: real)
    requires rnum.Length == |num| == ord && rnum[..] == Reversed(num) && ord <= at < x.Length
    ensures sum == x[at] + Convolved(num, x[..], at)
  {
    hide SMul, Dot, Convolved;
    ghost var xs, rs := x[..], rnum[..];
    sum := x[at];
    DotNext(rs, 0, xs, at - ord, 0);
    var j := 0;
    while j < ord
      invariant 0 <= j <= ord && sum == xs[at] + Dot(rs, 0, xs, at - ord, j)
    {
      DotNext(rs, 0, xs, at - ord, j);
      sum := sum + SMul(rnum[j], x[at + j - ord]);
      j := j + 1;
    }
    Convolution(num, xs, at);
  }

  /** celt_fir (celt_lpc.c:91-122): x + xo is the address x of the code, with ord samples of history before it. */
  method CeltFir(x: array<real>, xo: nat, num: array<real>, y: array<real>, N: nat, ord: nat)
    requires ord <= xo && xo + N <= x.Length && num.Length == ord && y.Length >= N
    requires N > 3 ==> ord >= 3
    requires y != x && y != num
    modifies y
    ensures forall i :: 0 <= i < y.Length ==>
      y[i] == if i < N then x[xo + i] + Convolved(num[..], x[..], xo + i) else old(y[i])
  {
    hide *;
    ghost var xs, ns, was := x[..], num[..], y[..];
    var rnum := ReverseInto(num, ord);
    ghost var rs := rnum[..];
    var sum := new real[4](_ => 0.0);
    var i := 0;
    while i < N - 3
      invariant 0 <= i <= N && x[..] == xs && rnum[..] == rs
      invariant forall k :: 0 <= k < y.Length ==>
        y[k] == if k < i then xs[xo + k] + Convolved(ns, xs, xo + k) else was[k]
      modifies sum, y
    {
      sum[0], sum[1], sum[2], sum[3] := x[xo + i], x[xo + i + 1], x[xo + i + 2], x[xo + i + 3];
      ghost var s0 := sum[..];
      XcorrKernel(rnum, 0, x, xo + i - ord, sum, ord);
      FirSums(ns, xs, xo + i, ord, s0, sum[..]);
      y[i] := sum[0];
      y[i + 1] := sum[1];
      y[i + 2] := sum[2];
      y[i + 3] := sum[3];
      i := i + 4;
    }
    while i < N
      invariant 0 <= i <= N && x[..] == xs && rnum[..] == rs
      invariant forall k :: 0 <= k < y.Length ==>
        y[k] == if k < i then xs[xo + k] + Convolved(ns, xs, xo + k) else was[k]
      modifies y
    {
      var s := FirSample(rnum, x, xo + i, ord, ns);
      y[i] := s;
      i := i + 1;
    }
    assert x[..] == xs && num[..] == ns;
  }

  lemma FirSums(num: seq<real>, x: seq<real>, at: int, ord: nat, s0: seq<real>, s: seq<real>)
    requires |num| == ord && |s0| == 4 && |s| == 4
    requires forall k :: 0 <= k < 4 ==> s[k] == s0[k] + Dot(Reversed(num), 0, x, at - ord + k, ord)
    ensures s[0] == s0[0] + Convolved(num, x, at) && s[1] == s0[1] + Convolved(num, x, at + 1)
    ensures s[2] == s0[2] + Convolved(num, x, at + 2) && s[3] == s0[3] + Convolved(num, x, at + 3)
  {
    hide Dot, Convolved;
    Convolution(num, x, at);
    Convolution(num, x, at + 1);
    Convolution(num, x, at + 2);
    Convolution(num, x, at + 3);
    assert s[0] == s0[0] + Dot(Reversed(num), 0, x, at - ord + 0, ord);
    assert at - ord + 1 == at + 1 - ord && at - ord + 2 == at + 2 - ord && at - ord + 3 == at + 3 - ord;
  }

  // ---- _celt_autocorr ----

  /** The input after the tapering loop: of the two writes to a sample the one in the later pass stands. */
  ghost function Tapered(x: seq<real>, window: seq<real>, overlap: nat, i: int): real
    requires overlap <= |window| && overlap <= |x| && 0 <= i < |x|
  {
    var back := |x| - 1 - i;
    if back < overlap && (i >= overlap || back >= i) then SMul(x[i], window[back])
    else if i < overlap then SMul(x[i], window[i])
    else x[i]
  }

  /** The tapering loop of _celt_autocorr (celt_lpc.c:218-224). */
  method Taper(x: array<real>, window: seq<real>, overlap: nat) returns (xx: array<real>)
    requires overlap <= |window| && overlap <= x.Length
    ensures fresh(xx) && xx.Length == x.Length
    ensures forall i :: 0 <= i < x.Length ==> xx[i] == Tapered(x[..], window, overlap, i)
  {
    hide SMul;
    var n := x.Length;
    xx := new real[n];
    var i := 0;
    while i < n
      invariant 0 <= i <= n && forall k :: 0 <= k < i ==> xx[k] == x[k]
      modifies xx
    {
      xx[i] := x[i];
      i := i + 1;
    }
    i := 0;
    while i < overlap
      invariant 0 <= i <= overlap
      invariant forall k :: 0 <= k < n ==> xx[k] == Tapered(x[..], window, i, k)
      modifies xx
    {
      xx[i] := SMul(x[i], window[i]);
      xx[n - i - 1] := SMul(x[n - i - 1], window[i]);
      i := i + 1;
    }
  }

  ghost function LagTerm(x: seq<real>, k: int, i: int): real
  {
    SMul(RAt(x, k + i), RAt(x, i))
  }

  /** x[k] x[0] + x[k+1] x[1] + ... + x[n-1] x[n-1-k]. */
  ghost function Autocorrelation(x: seq<real>, k: nat): real
    requires k <= |x|
  {
    RSum(|x| - k, i => LagTerm(x, k, i))
  }

  lemma DotIsLag(x: seq<real>, k: int, n: nat)
    ensures Dot(x, 0, x, k, n) == RSum(n, i => LagTerm(x, k, i))
  {
    hide SMul, RAt;
    forall j
      ensures SMul(RAt(x, 0 + j), RAt(x, k + j)) == LagTerm(x, k, j)
    {
      SMulSign(RAt(x, j), RAt(x, k + j));
    }
    RSumCong(n, j => SMul(RAt(x, 0 + j), RAt(x, k + j)), i => LagTerm(x, k, i));
  }

  /** The fast part over n - lag samples and the tail of lag - k samples make the whole sum. */
  lemma AutocorrSplit(x: seq<real>, lag: nat, k: nat)
    requires k <= lag <= |x|
    ensures Autocorrelation(x, k) == Dot(x, 0, x, k, |x| - lag) + Tail(x, k, |x| - lag, lag - k)
  {
    hide Dot, LagTerm;
    var fast := |x| - lag;
    DotIsLag(x, k, fast);
    var f := (i: int) => LagTerm(x, k, i);
    RSumSplit(fast, lag - k, f);
    RSumCong(fast, f, i => LagTerm(x, k, i));
    RSumCong(fast + (lag - k), f, i => LagTerm(x, k, i));
    RSumCong(lag - k, j => f(fast + j), i => LagTerm(x, k, fast + i));
  }

  lemma EnergyNonNegative(x: seq<real>)
    ensures Autocorrelation(x, 0) >= 0.0
  {
    forall j | 0 <= j < |x|
      ensures LagTerm(x, 0, j) >= 0.0
    {
      SMulSquare(RAt(x, j));
    }
    RSumNonNegative(|x|, i => LagTerm(x, 0, i));
  }

  ghost function Tail(x: seq<real>, k: int, fastN: int, count: nat): real
  {
    RSum(count, i => LagTerm(x, k, fastN + i))
  }

  lemma TailNext(x: seq<real>, k: int, fastN: int, q: nat)
    ensures Tail(x, k, fastN, 0) == 0.0
    ensures Tail(x, k, fastN, q + 1) == Tail(x, k, fastN, q) + SMul(RAt(x, k + fastN + q), RAt(x, fastN + q))
  {
    hide SMul, RAt;
    assert LagTerm(x, k, fastN + q) == SMul(RAt(x, k + (fastN + q)), RAt(x, fastN + q));
    assert LagTerm(x, k, fastN + q) == SMul(RAt(x, k + fastN + q), RAt(x, fastN + q));
    assert Tail(x, k, fastN, q + 1) == Tail(x, k, fastN, q) + LagTerm(x, k, fastN + q);
  }

  /** The correction loop of _celt_autocorr (celt_lpc.c:253-254) for lag k. */
  method TailSum(x: array<real>, k: nat, fastN: nat) returns (d: real)
    requires k + fastN <= x.Length
    ensures d == Tail(x[..], k, fastN, x.Length - fastN - k)
  {
    hide SMul, Tail;
    d := 0.0;
    var i := k + fastN;
    TailNext(x[..], k, fastN, 0);
    while i < x.Length
      invariant k + fastN <= i <= x.Length && d == Tail(x[..], k, fastN, i - fastN - k)
    {
      TailNext(x[..], k, fastN, i - fastN - k);
      d := d + SMul(x[i], x[i - k]);
      i := i + 1;
    }
  }

  /** _celt_autocorr (celt_lpc.c:198-256) in the float configuration, which never shifts. */
  method CeltAutocorr(x: array<real>, ac: array<real>, window: seq<real>, overlap: nat, lag: nat)
      returns (ghost used: seq<real>)
    requires x.Length > 0 && lag <= x.Length && overlap <= |window| && overlap <= x.Length
    requires lag >= 3 ==> x.Length - lag >= 3
    requires ac.Length >= lag + 1 && ac != x
    modifies ac
    ensures |used| == x.Length && forall i :: 0 <= i < |used| ==> used[i] == Tapered(old(x[..]), window, overlap, i)
    ensures forall k :: 0 <= k <= lag ==> ac[k] == Autocorrelation(used, k)
    ensures ac[0] >= 0.0
  {
    hide SMul, Dot, Autocorrelation, RSum, LagTerm, Tail;
    var n := x.Length;
    var fastN := n - lag;
    var xptr := x;
    if overlap != 0 {
      xptr := Taper(x, window, overlap);
    }
    ghost var xs := xptr[..];
    used := xs;
    PitchXcorr(xptr, xptr, ac, fastN, lag + 1);
    assert xptr[..] == xs;
    var k := 0;
    while k <= lag
      invariant 0 <= k <= lag + 1 && xptr[..] == xs
      invariant forall m :: 0 <= m <= lag ==>
        ac[m] == if m < k then Autocorrelation(xs, m) else Dot(xs, 0, xs, m, fastN)
      modifies ac
    {
      var d := TailSum(xptr, k, fastN);
      AutocorrSplit(xs, lag, k);
      ac[k] := ac[k] + d;
      k := k + 1;
    }
    EnergyNonNegative(xs);
  }
}
