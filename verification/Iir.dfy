/** celt_iir of celt_lpc.c: the plain recurrence and its four-fold unrolling. */
module Iir {
  import opened Reals
  import opened Correlation

  /** The filter's past and its outputs so far, oldest first. */
  ghost function Line(mem: seq<real>, ys: seq<real>): (h: seq<real>)
    ensures |h| == |mem| + |ys|
  {
    Reversed(mem) + ys
  }

  /** The first n outputs of y[i] = x[i] - den[0] y[i-1] - den[1] y[i-2] - ... */
  ghost function Recurrence(x: seq<real>, den: seq<real>, mem: seq<real>, n: nat): (ys: seq<real>)
    requires n <= |x|
    ensures |ys| == n
  {
    if n == 0 then [] else
      var ys := Recurrence(x, den, mem, n - 1);
      ys + [x[n - 1] - Convolved(den, Line(mem, ys), |mem| + n - 1)]
  }

  /** The filter memory after the outputs ys: the last |mem| samples, newest first. */
  ghost function MemAfter(mem: seq<real>, ys: seq<real>): (m: seq<real>)
    ensures |m| == |mem|
    ensures forall j {:trigger m[j]} :: 0 <= j < |mem| ==> m[j] == Line(mem, ys)[|mem| + |ys| - 1 - j]
  {
    seq(|mem|, j requires 0 <= j < |mem| => Line(mem, ys)[|mem| + |ys| - 1 - j])
  }

  // ---- the reference branch ----

  /** One output of the reference loop (celt_lpc.c:135-139). */
  method FeedBack(x: real, den: array<real>, mem: array<real>, ord: nat, ghost mem0: seq<real>,
                  ghost ys: seq<real>) returns (sum: real)
    requires den.Length == ord == mem.Length == |mem0| && mem[..] == MemAfter(mem0, ys)
    ensures sum == x - Convolved(den[..], Line(mem0, ys), ord + |ys|)
  {
    hide SMul;
    ghost var h, ds := Line(mem0, ys), den[..];
    ghost var f := (j: int) => SMul(RAt(ds, j), RAt(h, ord + |ys| - 1 - j));
    sum := x;
    var j := 0;
    while j < ord
      invariant 0 <= j <= ord && sum == x - RSum(j, f)
    {
      assert mem[j] == h[ord + |ys| - 1 - j];
      sum := sum - SMul(den[j], mem[j]);
      j := j + 1;
    }
    RSumCong(ord, f, j => SMul(RAt(ds, j), RAt(h, ord + |ys| - 1 - j)));
  }

  /** The shift of the memory in the reference loop (celt_lpc.c:140-144). */
  method Shift(mem: array<real>, ord: nat, y: real)
    requires mem.Length == ord && ord > 0
    modifies mem
    ensures mem[0] == y && forall j :: 1 <= j < ord ==> mem[j] == old(mem[j - 1])
  {
    var j := ord - 1;
    while j >= 1
      invariant 0 <= j < ord
      invariant forall k :: 0 <= k < ord ==> mem[k] == if k > j then old(mem[k - 1]) else old(mem[k])
    {
      mem[j] := mem[j - 1];
      j := j - 1;
    }
    mem[0] := y;
  }

  lemma MemShift(mem0: seq<real>, ys: seq<real>, y: real, m: seq<real>, m': seq<real>)
    requires m == MemAfter(mem0, ys) && |m'| == |m| > 0
    requires m'[0] == y && forall j :: 1 <= j < |m| ==> m'[j] == m[j - 1]
    ensures m' == MemAfter(mem0, ys + [y])
  {
    assert Line(mem0, ys + [y]) == Line(mem0, ys) + [y];
    forall j | 0 <= j < |m|
      ensures m'[j] == MemAfter(mem0, ys + [y])[j]
    {
      if j > 0 {
        assert m[j - 1] == Line(mem0, ys)[|mem0| + |ys| - j];
      }
    }
  }

  lemma MemStart(mem0: seq<real>)
    ensures MemAfter(mem0, []) == mem0
  {
    forall j | 0 <= j < |mem0|
      ensures MemAfter(mem0, [])[j] == mem0[j]
    {
      assert Line(mem0, [])[|mem0| - 1 - j] == mem0[j];
    }
  }

  /** The SMALL_FOOTPRINT branch of celt_iir (celt_lpc.c:131-146), also in place: y may be x. */
  method CeltIirPlain(x: array<real>, den: array<real>, y: array<real>, N: nat, ord: nat, mem: array<real>)
    requires x.Length >= N && y.Length >= N && den.Length == ord == mem.Length && ord > 0
    requires y != den && y != mem && mem != x && mem != den
    modifies y, mem
    ensures y[..N] == Recurrence(old(x[..]), den[..], old(mem[..]), N)
    ensures mem[..] == MemAfter(old(mem[..]), y[..N])
  {
    hide Convolved, Recurrence, Line, MemAfter;
    ghost var xs, ds, m0 := x[..], den[..], mem[..];
    MemStart(m0);
    RecurrenceEmpty(xs, ds, m0);
    var i := 0;
    while i < N
      invariant 0 <= i <= N && (forall k :: i <= k < N ==> x[k] == xs[k]) && den[..] == ds
      invariant y[..i] == Recurrence(xs, ds, m0, i) && mem[..] == MemAfter(m0, y[..i])
    {
      ghost var ys, m := y[..i], mem[..];
      RecurrenceNext(xs, ds, m0, i);
      var sum := FeedBack(x[i], den, mem, ord, m0, ys);
      Shift(mem, ord, sum);
      y[i] := sum;
      MemShift(m0, ys, sum, m, mem[..]);
      assert y[..i + 1] == ys + [sum];
      i := i + 1;
    }
  }

  lemma RecurrenceEmpty(x: seq<real>, den: seq<real>, mem: seq<real>)
    ensures Recurrence(x, den, mem, 0) == []
  {
  }

  lemma RecurrenceNext(x: seq<real>, den: seq<real>, mem: seq<real>, n: nat)
    requires n < |x|
    ensures var ys := Recurrence(x, den, mem, n);
      Recurrence(x, den, mem, n + 1) == ys + [x[n] - Convolved(den, Line(mem, ys), |mem| + n)]
  {
    hide Convolved, Line;
  }

  // ---- the unrolled branch ----

  ghost function Negated(s: seq<real>): (t: seq<real>)
    ensures |t| == |s| && forall i {:trigger t[i]} :: 0 <= i < |s| ==> t[i] == -s[i]
  {
    seq(|s|, i requires 0 <= i < |s| => -s[i])
  }

  /** The local array y after n samples. Up to cut, where the unrolled loop ends, it holds negated outputs; the tail
      loop stores them without the sign. */
  ghost function Buffer(x: seq<real>, den: seq<real>, mem: seq<real>, cut: nat, n: nat): (b: seq<real>)
    requires n <= |x|
    ensures |b| == |mem| + n
  {
    if n == 0 then Negated(Reversed(mem)) else
      var b := Buffer(x, den, mem, cut, n - 1);
      var fed := Convolved(den, b, |mem| + n - 1);
      b + [if n - 1 < cut then -(x[n - 1] + fed) else x[n - 1] - fed]
  }

  /** What the unrolled branch writes to _y. */
  ghost function Unrolled(x: seq<real>, den: seq<real>, mem: seq<real>, cut: nat, n: nat): (ys: seq<real>)
    requires n <= |x|
    ensures |ys| == n
  {
    seq(n, i requires 0 <= i < n =>
      var v := Buffer(x, den, mem, cut, n)[|mem| + i];
      if i < cut then -v else v)
  }

  lemma BufferNext(x: seq<real>, den: seq<real>, mem: seq<real>, cut: nat, n: nat)
    requires n < |x|
    ensures var b := Buffer(x, den, mem, cut, n);
      var fed := Convolved(den, b, |mem| + n);
      Buffer(x, den, mem, cut, n + 1) == b + [if n < cut then -(x[n] + fed) else x[n] - fed]
  {
    hide Convolved;
  }

  lemma {:induction false} BufferPrefix(x: seq<real>, den: seq<real>, mem: seq<real>, cut: nat, n: nat, n': nat)
    requires n <= n' <= |x|
    ensures Buffer(x, den, mem, cut, n) <= Buffer(x, den, mem, cut, n')
  {
    hide Convolved, Buffer;
    if n < n' {
      BufferPrefix(x, den, mem, cut, n, n' - 1);
      BufferNext(x, den, mem, cut, n' - 1);
    }
  }

  /** y is buf followed by zeros. */
  ghost predicate Padded(buf: seq<real>, y: seq<real>)
  {
    buf <= y && forall k :: |buf| <= k < |y| ==> y[k] == 0.0
  }

  /** Reading ahead over the zeros adds nothing. */
  lemma PaddedConvolution(den: seq<real>, buf: seq<real>, y: seq<real>, at: int)
    requires Padded(buf, y)
    ensures Convolved(den, y, at) == Convolved(den, buf, at)
  {
    hide SMul;
    var f, g := (j: int) => SMul(RAt(den, j), RAt(y, at - 1 - j)), (j: int) => SMul(RAt(den, j), RAt(buf, at - 1 - j));
    forall j
      ensures f(j) == g(j)
    {
      assert RAt(y, at - 1 - j) == RAt(buf, at - 1 - j);
    }
    RSumCong(|den|, f, g);
    RSumCong(|den|, f, j => SMul(RAt(den, j), RAt(y, at - 1 - j)));
    RSumCong(|den|, g, j => SMul(RAt(den, j), RAt(buf, at - 1 - j)));
  }

  lemma {:induction false} OneMore(n: nat, f: int -> real, g: int -> real, k: nat, v: real)
    requires k < n && g(k) == f(k) + v
    requires forall j :: 0 <= j < n && j != k ==> g(j) == f(j)
    ensures RSum(n, g) == RSum(n, f) + v
  {
    if k == n - 1 {
      RSumCong(n - 1, f, g);
    } else {
      OneMore(n - 1, f, g, k, v);
    }
  }

  /** The patch-up: a sample written after the kernel has run enters with its own coefficient. */
  lemma Patch(den: seq<real>, buf: seq<real>, v: real, at: int)
    requires |buf| < at <= |buf| + |den|
    ensures Convolved(den, buf + [v], at) == Convolved(den, buf, at) + SMul(v, den[at - 1 - |buf|])
  {
    hide SMul;
    var k := at - 1 - |buf|;
    var f, g := (j: int) => SMul(RAt(den, j), RAt(buf, at - 1 - j)),
                (j: int) => SMul(RAt(den, j), RAt(buf + [v], at - 1 - j));
    SMulSign(den[k], v);
    SMulUnit(den[k]);
    forall j | 0 <= j < |den| && j != k
      ensures g(j) == f(j)
    {
      assert RAt(buf + [v], at - 1 - j) == RAt(buf, at - 1 - j);
    }
    OneMore(|den|, f, g, k, SMul(v, den[k]));
    RSumCong(|den|, f, j => SMul(RAt(den, j), RAt(buf, at - 1 - j)));
    RSumCong(|den|, g, j => SMul(RAt(den, j), RAt(buf + [v], at - 1 - j)));
  }

  /** The kernel's four sums in terms of the buffer. */
  lemma KernelSums(den: seq<real>, rden: seq<real>, buf: seq<real>, y: seq<real>, i: int, ord: nat, s0: seq<real>,
                   s: seq<real>)
    requires rden == Reversed(den) && |den| == ord && Padded(buf, y) && |s0| == |s| == 4
    requires forall k :: 0 <= k < 4 ==> s[k] == s0[k] + Dot(rden, 0, y, i + k, ord)
    ensures s[0] == s0[0] + Convolved(den, buf, i + ord) && s[1] == s0[1] + Convolved(den, buf, i + ord + 1)
    ensures s[2] == s0[2] + Convolved(den, buf, i + ord + 2) && s[3] == s0[3] + Convolved(den, buf, i + ord + 3)
  {
    hide Dot, Convolved, Padded, Reversed;
    forall k | 0 <= k < 4
      ensures s[k] == s0[k] + Convolved(den, buf, i + ord + k)
    {
      Convolution(den, y, i + ord + k);
      assert i + ord + k - ord == i + k;
      PaddedConvolution(den, buf, y, i + ord + k);
    }
    assert s[0] == s0[0] + Convolved(den, buf, i + ord + 0);
    assert s[1] == s0[1] + Convolved(den, buf, i + ord + 1);
    assert s[2] == s0[2] + Convolved(den, buf, i + ord + 2);
    assert s[3] == s0[3] + Convolved(den, buf, i + ord + 3);
  }

  /** Four more samples of the buffer, from the kernel's sums and the patch-ups. */
  lemma FourMore(x: seq<real>, den: seq<real>, mem: seq<real>, cut: nat, i: nat, s: seq<real>, ya: real, yb: real,
                 yc: real, yd: real)
    requires i + 4 <= cut <= |x| && |den| == |mem| >= 4 && |s| == 4
    requires var b, at := Buffer(x, den, mem, cut, i), i + |mem|;
      s[0] == x[i] + Convolved(den, b, at) && s[1] == x[i + 1] + Convolved(den, b, at + 1)
      && s[2] == x[i + 2] + Convolved(den, b, at + 2) && s[3] == x[i + 3] + Convolved(den, b, at + 3)
    requires ya == -s[0] && yb == -(s[1] + SMul(ya, den[0]))
    requires yc == -(s[2] + SMul(yb, den[0]) + SMul(ya, den[1]))
    requires yd == -(s[3] + SMul(yc, den[0]) + SMul(yb, den[1]) + SMul(ya, den[2]))
    ensures Buffer(x, den, mem, cut, i + 4) == Buffer(x, den, mem, cut, i) + [ya, yb, yc, yd]
  {
    hide SMul, Convolved, Buffer;
    var b, at := Buffer(x, den, mem, cut, i), i + |mem|;
    BufferNext(x, den, mem, cut, i);
    var b1 := b + [ya];
    BufferNext(x, den, mem, cut, i + 1);
    Patch(den, b, ya, at + 1);
    var b2 := b1 + [yb];
    BufferNext(x, den, mem, cut, i + 2);
    Patch(den, b, ya, at + 2);
    Patch(den, b1, yb, at + 2);
    var b3 := b2 + [yc];
    BufferNext(x, den, mem, cut, i + 3);
    Patch(den, b, ya, at + 3);
    Patch(den, b1, yb, at + 3);
    Patch(den, b2, yc, at + 3);
    assert b + [ya, yb, yc, yd] == b3 + [yd];
  }

  /** The patch-up (celt_lpc.c:168-183). */
  method PatchUp(den: array<real>, y: array<real>, out: array<real>, sum: array<real>, i: nat, ord: nat)
    requires den.Length == ord >= 4 && i + ord + 4 <= y.Length && i + 4 <= out.Length && sum.Length == 4
    requires {y, out, sum} !! {den} && y != out && y != sum && out != sum
    modifies y, out, sum
    ensures y[i + ord] == -old(sum[0]) && y[i + ord + 1] == -(old(sum[1]) + SMul(y[i + ord], den[0]))
    ensures y[i + ord + 2] == -(old(sum[2]) + SMul(y[i + ord + 1], den[0]) + SMul(y[i + ord], den[1]))
    ensures y[i + ord + 3]
         == -(old(sum[3]) + SMul(y[i + ord + 2], den[0]) + SMul(y[i + ord + 1], den[1]) + SMul(y[i + ord], den[2]))
    ensures forall k :: 0 <= k < y.Length && !(i + ord <= k < i + ord + 4) ==> y[k] == old(y[k])
    ensures forall k :: 0 <= k < out.Length ==> out[k] == if i <= k < i + 4 then -y[ord + k] else old(out[k])
  {
    hide *;
    y[i + ord] := -sum[0];
    out[i] := sum[0];
    sum[1] := sum[1] + SMul(y[i + ord], den[0]);
    y[i + ord + 1] := -sum[1];
    out[i + 1] := sum[1];
    sum[2] := sum[2] + SMul(y[i + ord + 1], den[0]);
    sum[2] := sum[2] + SMul(y[i + ord], den[1]);
    y[i + ord + 2] := -sum[2];
    out[i + 2] := sum[2];
    sum[3] := sum[3] + SMul(y[i + ord + 2], den[0]);
    sum[3] := sum[3] + SMul(y[i + ord + 1], den[1]);
    sum[3] := sum[3] + SMul(y[i + ord], den[2]);
    y[i + ord + 3] := -sum[3];
    out[i + 3] := sum[3];
  }

  /** The body of the unrolled loop (celt_lpc.c:160-183). */
  method IirBlock(x: array<real>, den: array<real>, rden: array<real>, y: array<real>, out: array<real>,
                  sum: array<real>,
                  i: nat, N: nat, ord: nat, ghost mem: seq<real>, ghost cut: nat, ghost xs: seq<real>)
    requires x.Length >= N && out.Length >= N && den.Length == ord == rden.Length == |mem| >= 4 && y.Length == N + ord
    requires |xs| >= N && forall k :: i <= k < N ==> x[k] == xs[k]
    requires i + 4 <= cut <= N && rden[..] == Reversed(den[..]) && sum.Length == 4
    requires Padded(Buffer(xs, den[..], mem, cut, i), y[..])
    requires {y, out, sum} !! {den, rden} && {y, sum} !! {x, out} && y != sum
    modifies y, out, sum
    ensures Padded(Buffer(xs, den[..], mem, cut, i + 4), y[..])
    ensures forall k :: 0 <= k < out.Length ==> out[k] == if i <= k < i + 4 then -y[ord + k] else old(out[k])
  {
    hide *;
    ghost var ds, was := den[..], y[..];
    ghost var b := Buffer(xs, ds, mem, cut, i);
    sum[0] := x[i];
    sum[1] := x[i + 1];
    sum[2] := x[i + 2];
    sum[3] := x[i + 3];
    ghost var s0 := sum[..];
    XcorrKernel(rden, 0, y, i, sum, ord);
    ghost var s := sum[..];
    KernelSums(ds, rden[..], b, was, i, ord, s0, s);
    PatchUp(den, y, out, sum, i, ord);
    FourMore(xs, ds, mem, cut, i, s, y[i + ord], y[i + ord + 1], y[i + ord + 2], y[i + ord + 3]);
    PaddedFour(b, was, y[..], y[i + ord], y[i + ord + 1], y[i + ord + 2], y[i + ord + 3]);
    assert den[..] == ds;
  }

  lemma PaddedFour(b: seq<real>, was: seq<real>, y: seq<real>, ya: real, yb: real, yc: real, yd: real)
    requires Padded(b, was) && |y| == |was| >= |b| + 4
    requires y[|b|] == ya && y[|b| + 1] == yb && y[|b| + 2] == yc && y[|b| + 3] == yd
    requires forall k :: 0 <= k < |y| && !(|b| <= k < |b| + 4) ==> y[k] == was[k]
    ensures Padded(b + [ya, yb, yc, yd], y)
  {
  }

  /** Length of the part that the unrolled loop covers. */
  function Cut(N: nat): nat
  {
    N - N % 4
  }

  lemma PaddedOne(b: seq<real>, was: seq<real>, y: seq<real>, v: real)
    requires Padded(b, was) && |y| == |was| > |b| && y == was[|b| := v]
    ensures Padded(b + [v], y)
  {
  }

  /** One sample of the tail loop (celt_lpc.c:187-189). */
  method TailSample(x: real, rden: array<real>, y: array<real>, i: nat, ord: nat, ghost den: seq<real>,
                    ghost b: seq<real>) returns (sum: real)
    requires rden.Length == |den| == ord && rden[..] == Reversed(den) && i + ord < y.Length
    requires Padded(b, y[..])
    ensures sum == x - Convolved(den, b, i + ord)
  {
    hide *;
    ghost var rs, ys := rden[..], y[..];
    DotNext(rs, 0, ys, i, 0);
    sum := x;
    var j := 0;
    while j < ord
      invariant 0 <= j <= ord && sum == x - Dot(rs, 0, ys, i, j)
    {
      DotNext(rs, 0, ys, i, j);
      RAtInside(rs, j);
      RAtInside(ys, i + j);
      sum := sum - SMul(rden[j], y[i + j]);
      j := j + 1;
    }
    Convolution(den, ys, i + ord);
    assert i + ord - ord == i;
    PaddedConvolution(den, b, ys, i + ord);
  }

  lemma RAtInside(s: seq<real>, i: int)
    requires 0 <= i < |s|
    ensures RAt(s, i) == s[i]
  {
  }

  /** The history part of the local array (celt_lpc.c:154-157). */
  method LoadHistory(mem: array<real>, N: nat, ord: nat) returns (y: array<real>)
    requires mem.Length == ord
    ensures fresh(y) && y.Length == N + ord && Padded(Negated(Reversed(mem[..])), y[..])
  {
    y := new real[N + ord];
    var i := 0;
    while i < ord
      invariant 0 <= i <= ord
      invariant forall k :: 0 <= k < i ==> y[k] == -mem[ord - k - 1]
      modifies y
    {
      y[i] := -mem[ord - i - 1];
      i := i + 1;
    }
    while i < N + ord
      invariant ord <= i <= N + ord
      invariant forall k :: 0 <= k < ord ==> y[k] == -mem[ord - k - 1]
      invariant forall k :: ord <= k < i ==> y[k] == 0.0
      modifies y
    {
      y[i] := 0.0;
      i := i + 1;
    }
    assert y[..ord] == Negated(Reversed(mem[..]));
  }

  lemma BufferEmpty(x: seq<real>, den: seq<real>, mem: seq<real>, cut: nat)
    ensures Buffer(x, den, mem, cut, 0) == Negated(Reversed(mem))
  {
  }

  /** The tail loop of celt_iir (celt_lpc.c:185-192). */
  method IirTail(x: array<real>, rden: array<real>, y: array<real>, out: array<real>, cut: nat, N: nat, ord: nat,
                 ghost den: seq<real>, ghost mem: seq<real>, ghost xs: seq<real>)
    requires x.Length >= N && out.Length >= N && |den| == ord == rden.Length == |mem| && y.Length == N + ord
    requires cut <= N <= |xs| && rden[..] == Reversed(den) && forall k :: cut <= k < N ==> x[k] == xs[k]
    requires Padded(Buffer(xs, den, mem, cut, cut), y[..])
    requires {y, out} !! {rden} && y != x && y != out
    modifies y, out
    ensures Padded(Buffer(xs, den, mem, cut, N), y[..])
    ensures forall k :: 0 <= k < cut + ord ==> y[k] == old(y[k])
    ensures forall k :: 0 <= k < N ==> out[k] == if k < cut then old(out[k]) else y[ord + k]
  {
    hide *;
    ghost var rs, y0, out0 := rden[..], y[..], out[..];
    var i := cut;
    while i < N
      invariant cut <= i <= N && (forall k :: i <= k < N ==> x[k] == xs[k]) && rden[..] == rs
      invariant Padded(Buffer(xs, den, mem, cut, i), y[..])
      invariant forall k :: 0 <= k < cut + ord ==> y[k] == y0[k]
      invariant forall k :: 0 <= k < i ==> out[k] == if k < cut then out0[k] else y[ord + k]
    {
      ghost var was, b := y[..], Buffer(xs, den, mem, cut, i);
      var s := TailSample(x[i], rden, y, i, ord, den, b);
      BufferNext(xs, den, mem, cut, i);
      y[i + ord] := s;
      PaddedOne(b, was, y[..], s);
      out[i] := s;
      i := i + 1;
    }
  }

  /** celt_iir as compiled (celt_lpc.c:147-195), also in place: out may be x. */
  method CeltIir(x: array<real>, den: array<real>, out: array<real>, N: nat, ord: nat, mem: array<real>)
    requires x.Length >= N && out.Length >= N && den.Length == ord == mem.Length
    requires ord % 4 == 0 && 4 <= ord <= N
    requires out != den && out != mem && mem != x && mem != den
    modifies out, mem
    ensures out[..N] == Unrolled(old(x[..]), den[..], old(mem[..]), Cut(N), N)
    ensures forall j :: 0 <= j < ord ==> mem[j] == out[N - j - 1]
  {
    hide *;
    ghost var xs, ds, m0, cut := x[..], den[..], mem[..], Cut(N);
    CutFacts(N);
    var rden := ReverseInto(den, ord);
    ghost var rs := rden[..];
    var y := LoadHistory(mem, N, ord);
    BufferEmpty(xs, ds, m0, cut);
    var sum := new real[4](_ => 0.0);
    var i := 0;
    while i < N - 3
      invariant 0 <= i <= cut && i % 4 == 0
      invariant (forall k :: i <= k < N ==> x[k] == xs[k]) && den[..] == ds && rden[..] == rs
      invariant Padded(Buffer(xs, ds, m0, cut, i), y[..])
      invariant forall k :: 0 <= k < i ==> out[k] == -y[ord + k]
      modifies y, out, sum
    {
      ghost var was := y[..];
      IirBlock(x, den, rden, y, out, sum, i, N, ord, m0, cut, xs);
      BufferKept(xs, ds, m0, cut, i, i + 4, was, y[..]);
      i := i + 4;
    }
    IirTail(x, rden, y, out, i, N, ord, ds, m0, xs);
    UnrolledIs(xs, ds, m0, cut, N, y[..], out[..N]);
    SaveMemory(out, mem, N, ord);
    assert den[..] == ds;
  }

  /** The last loop of celt_iir (celt_lpc.c:193-194). */
  method SaveMemory(out: array<real>, mem: array<real>, N: nat, ord: nat)
    requires ord <= N <= out.Length && mem.Length == ord && mem != out
    modifies mem
    ensures forall j :: 0 <= j < ord ==> mem[j] == out[N - j - 1]
  {
    var i := 0;
    while i < ord
      invariant 0 <= i <= ord
      invariant forall k :: 0 <= k < i ==> mem[k] == out[N - k - 1]
    {
      mem[i] := out[N - i - 1];
      i := i + 1;
    }
  }

  /** With at least ord samples the memory of both branches is the last ord outputs, newest first. */
  lemma FinalMemory(mem: seq<real>, ys: seq<real>, j: nat)
    requires |mem| <= |ys| && j < |mem|
    ensures MemAfter(mem, ys)[j] == ys[|ys| - 1 - j]
  {
  }

  lemma CutFacts(N: nat)
    ensures 0 <= Cut(N) <= N && Cut(N) % 4 == 0 && N - Cut(N) < 4
  {
  }

  lemma BufferKept(x: seq<real>, den: seq<real>, mem: seq<real>, cut: nat, i: nat, i': nat, was: seq<real>,
                   y: seq<real>)
    requires i <= i' <= |x|
    requires Padded(Buffer(x, den, mem, cut, i), was) && Padded(Buffer(x, den, mem, cut, i'), y)
    ensures forall k :: 0 <= k < |mem| + i ==> k < |y| && k < |was| && y[k] == was[k]
  {
    hide Buffer;
    BufferPrefix(x, den, mem, cut, i, i');
  }

  lemma UnrolledIs(x: seq<real>, den: seq<real>, mem: seq<real>, cut: nat, n: nat, y: seq<real>, out: seq<real>)
    requires n <= |x| && Padded(Buffer(x, den, mem, cut, n), y) && |out| == n
    requires |y| == |mem| + n && forall k :: 0 <= k < n ==> out[k] == if k < cut then -y[|mem| + k] else y[|mem| + k]
    ensures out == Unrolled(x, den, mem, cut, n)
  {
    hide Buffer;
  }

  // ---- when the two branches agree ----

  lemma ConvolvedNegated(den: seq<real>, h: seq<real>, at: int)
    ensures Convolved(den, Negated(h), at) == -Convolved(den, h, at)
  {
    hide SMul;
    var f, g := (j: int) => SMul(RAt(den, j), RAt(h, at - 1 - j)),
                (j: int) => SMul(RAt(den, j), RAt(Negated(h), at - 1 - j));
    forall j
      ensures g(j) == SMul(-1.0, f(j))
    {
      assert RAt(Negated(h), at - 1 - j) == -RAt(h, at - 1 - j);
      SMulSign(RAt(den, j), RAt(h, at - 1 - j));
      SMulUnit(f(j));
      SMulSign(-1.0, f(j));
    }
    RSumMul(|den|, f, -1.0);
    RSumCong(|den|, g, j => SMul(-1.0, f(j)));
    SMulUnit(RSum(|den|, f));
    SMulSign(-1.0, RSum(|den|, f));
    RSumCong(|den|, f, j => SMul(RAt(den, j), RAt(h, at - 1 - j)));
    RSumCong(|den|, g, j => SMul(RAt(den, j), RAt(Negated(h), at - 1 - j)));
  }

  /** As far as the unrolled loop runs, the buffer holds the negated line of the plain recurrence. */
  lemma {:induction false} BufferIsNegatedLine(x: seq<real>, den: seq<real>, mem: seq<real>, cut: nat, n: nat)
    requires n <= cut && n <= |x|
    ensures Buffer(x, den, mem, cut, n) == Negated(Line(mem, Recurrence(x, den, mem, n)))
  {
    hide Convolved, Buffer, Recurrence;
    if n == 0 {
      BufferEmpty(x, den, mem, cut);
      RecurrenceEmpty(x, den, mem);
      assert Line(mem, []) == Reversed(mem);
    } else {
      BufferIsNegatedLine(x, den, mem, cut, n - 1);
      BufferNext(x, den, mem, cut, n - 1);
      RecurrenceNext(x, den, mem, n - 1);
      var ys := Recurrence(x, den, mem, n - 1);
      ConvolvedNegated(den, Line(mem, ys), |mem| + n - 1);
      assert Line(mem, Recurrence(x, den, mem, n)) == Line(mem, ys) + [Recurrence(x, den, mem, n)[n - 1]];
    }
  }

  /** For a multiple of four samples both branches compute the same outputs, on every input. */
  lemma UnrolledIsRecurrence(x: seq<real>, den: seq<real>, mem: seq<real>, N: nat)
    requires N % 4 == 0 && N <= |x|
    ensures Unrolled(x, den, mem, Cut(N), N) == Recurrence(x, den, mem, N)
  {
    hide Buffer, Recurrence;
    BufferIsNegatedLine(x, den, mem, N, N);
    forall i | 0 <= i < N
      ensures Unrolled(x, den, mem, N, N)[i] == Recurrence(x, den, mem, N)[i]
    {
      assert Line(mem, Recurrence(x, den, mem, N))[|mem| + i] == Recurrence(x, den, mem, N)[i];
    }
  }

  /** The first sample of the tail loop feeds back with the wrong sign: it agrees exactly when there is nothing to feed
      back. */
  lemma FirstTailSample(x: seq<real>, den: seq<real>, mem: seq<real>, N: nat)
    requires N % 4 != 0 && N <= |x|
    ensures var cut := Cut(N);
      var fed := Convolved(den, Line(mem, Recurrence(x, den, mem, cut)), |mem| + cut);
      && Recurrence(x, den, mem, N)[cut] == x[cut] - fed
      && Unrolled(x, den, mem, cut, N)[cut] == x[cut] + fed
  {
    var cut := Cut(N);
    hide Buffer, Recurrence, Convolved;
    var ys := Recurrence(x, den, mem, cut);
    BufferIsNegatedLine(x, den, mem, cut, cut);
    BufferNext(x, den, mem, cut, cut);
    ConvolvedNegated(den, Line(mem, ys), |mem| + cut);
    BufferPrefix(x, den, mem, cut, cut + 1, N);
    assert Buffer(x, den, mem, cut, N)[|mem| + cut] == Buffer(x, den, mem, cut, cut + 1)[|mem| + cut];
    RecurrenceNext(x, den, mem, cut);
    RecurrencePrefix(x, den, mem, cut + 1, N);
    assert Recurrence(x, den, mem, N)[cut] == Recurrence(x, den, mem, cut + 1)[cut];
  }

  lemma {:induction false} RecurrencePrefix(x: seq<real>, den: seq<real>, mem: seq<real>, n: nat, n': nat)
    requires n <= n' <= |x|
    ensures Recurrence(x, den, mem, n) <= Recurrence(x, den, mem, n')
  {
    hide Convolved, Recurrence;
    if n < n' {
      RecurrencePrefix(x, den, mem, n, n' - 1);
      RecurrenceNext(x, den, mem, n' - 1);
    }
  }

  ghost predicate AgreesOn(x: seq<real>, den: seq<real>, mem: seq<real>, N: nat)
    requires N <= |x|
  {
    Unrolled(x, den, mem, Cut(N), N) == Recurrence(x, den, mem, N)
  }

  ghost function Unit(n: nat, k: nat): (s: seq<real>)
    ensures |s| == n && forall i :: 0 <= i < n ==> s[i] == if i == k then 1.0 else 0.0
  {
    seq(n, i => if i == k then 1.0 else 0.0)
  }

  /** With den = [1, 0, ...] only the last sample of the line is fed back. */
  lemma UnitFeedback(ord: nat, h: seq<real>, at: nat)
    requires 0 < ord && 0 < at <= |h|
    ensures Convolved(Unit(ord, 0), h, at) == h[at - 1]
  {
    hide SMul;
    var den := Unit(ord, 0);
    var zero, g := (j: int) => 0.0, (j: int) => SMul(RAt(den, j), RAt(h, at - 1 - j));
    forall j | 0 <= j < ord && j != 0
      ensures g(j) == zero(j)
    {
      SMulUnit(RAt(h, at - 1 - j));
    }
    SMulUnit(RAt(h, at - 1));
    RSumZero(ord, zero);
    OneMore(ord, zero, g, 0, h[at - 1]);
    RSumCong(ord, g, j => SMul(RAt(den, j), RAt(h, at - 1 - j)));
  }

  /** The input 0, ..., 0, 1 with den = [1, 0, ...] from zero memory gives 0, ..., 0, 1. */
  lemma {:induction false} ImpulseOutput(ord: nat, k: nat, n: nat, len: nat)
    requires 0 < ord && n <= k + 1 <= len
    ensures Recurrence(Unit(len, k), Unit(ord, 0), Unit(ord, ord), n)
         == seq(n, i => if i == k then 1.0 else 0.0)
  {
    hide Convolved, Recurrence;
    var x, den, mem := Unit(len, k), Unit(ord, 0), Unit(ord, ord);
    if n == 0 {
      RecurrenceEmpty(x, den, mem);
    } else {
      ImpulseOutput(ord, k, n - 1, len);
      RecurrenceNext(x, den, mem, n - 1);
      var ys := Recurrence(x, den, mem, n - 1);
      UnitFeedback(ord, Line(mem, ys), ord + n - 1);
    }
  }

  /** The unrolled branch meets the plain recurrence on all inputs if and only if N is a multiple of four. */
  lemma AgreeExactlyOnMultiplesOfFour(N: nat, ord: nat)
    requires ord % 4 == 0 && 4 <= ord <= N
    ensures N % 4 == 0 <==>
      forall x: seq<real>, den: seq<real>, mem: seq<real> ::
        |x| == N && |den| == |mem| == ord ==> AgreesOn(x, den, mem, N)
  {
    hide Unrolled, Recurrence, Convolved;
    if N % 4 == 0 {
      forall x: seq<real>, den: seq<real>, mem: seq<real> | |x| == N && |den| == |mem| == ord
        ensures AgreesOn(x, den, mem, N)
      {
        UnrolledIsRecurrence(x, den, mem, N);
      }
    } else {
      var cut := Cut(N);
      var x, den, mem := Unit(N, cut - 1), Unit(ord, 0), Unit(ord, ord);
      ImpulseOutput(ord, cut - 1, cut, N);
      UnitFeedback(ord, Line(mem, Recurrence(x, den, mem, cut)), ord + cut);
      FirstTailSample(x, den, mem, N);
      assert !AgreesOn(x, den, mem, N);
    }
  }
}
