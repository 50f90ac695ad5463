/** The decimation-in-time step: what one butterfly stage has to compute, and why. */
module CooleyTukey {
  import opened Complex
  import opened Twiddle
  import Arith

  /** k-th bin of the m-point transform of x[base], x[base + s], x[base + 2 s], ...; m * s == |t|. */
  ghost function SubDft(t: seq<Cpx>, x: seq<Cpx>, base: int, s: int, m: nat, k: int): Cpx
    requires |t| > 0
  {
    Sum(m, j => Mul(At(x, base + j * s), W(t, j * k * s)))
  }

  /** The discrete Fourier transform of the whole input. */
  ghost function Dft(t: seq<Cpx>, x: seq<Cpx>, k: int): Cpx
    requires |t| > 0
  {
    Sum(|t|, j => Mul(At(x, j), W(t, j * k)))
  }

  /** Output u of the p-point combination of a[o + k], a[o + m + k], a[o + 2 m + k], ... */
  ghost function Radix(t: seq<Cpx>, s: int, p: nat, m: int, a: seq<Cpx>, o: int, k: int, u: int): Cpx
    requires |t| > 0
  {
    Sum(p, r => Mul(Mul(At(a, o + r * m + k), W(t, r * k * s)), W(t, r * u * (m * s))))
  }

  lemma WholeDft(t: seq<Cpx>, x: seq<Cpx>, k: int)
    requires |t| > 0
    ensures SubDft(t, x, 0, 1, |t|, k) == Dft(t, x, k)
  {
    hide Mul, Sum, W, At;
    forall j
      ensures Mul(At(x, 0 + j * 1), W(t, j * k * 1)) == Mul(At(x, j), W(t, j * k))
    {
    }
    SumCong(|t|, j => Mul(At(x, 0 + j * 1), W(t, j * k * 1)), j => Mul(At(x, j), W(t, j * k)));
  }

  lemma Exponent(j: int, p: int, r: int, k: int, u: int, m: int, s: int, n: int)
    requires s * (p * m) == n
    ensures (j * p + r) * (k + u * m) * s == (j * k * (s * p) + r * k * s + r * u * (m * s)) + (j * u) * n
  {
    assert (j * p + r) * (k + u * m) == (j * p) * k + (j * p) * (u * m) + r * k + r * (u * m);
    assert (j * p) * k * s == j * k * (s * p);
    assert (j * p) * (u * m) * s == (j * u) * (s * (p * m));
    assert r * (u * m) * s == r * u * (m * s);
  }

  lemma SplitTwiddle(t: seq<Cpx>, c: real, v: Cpx, e1: int, e2: int, e3: int)
    requires IsTwiddleTable(t, c)
    ensures Mul(v, W(t, e1 + e2 + e3)) == Mul(Mul(Mul(v, W(t, e1)), W(t, e2)), W(t, e3))
  {
    hide *;
    NotEmpty(t, c);
    WAdd(t, c, e1 + e2, e3);
    WAdd(t, c, e1, e2);
    MulAssoc(v, W(t, e1), W(t, e2));
    MulAssoc(v, W(t, e1 + e2), W(t, e3));
  }

  /** Term j of the k-th bin of a sub-transform. */
  ghost function Term(t: seq<Cpx>, x: seq<Cpx>, base: int, s: int, k: int, j: int): Cpx
    requires |t| > 0
  {
    Mul(At(x, base + j * s), W(t, j * k * s))
  }

  /** One term of the long transform is the term of the short one with its two twiddles. */
  lemma SplitTerm(t: seq<Cpx>, c: real, x: seq<Cpx>, base: int, s: int, p: int, m: int, k: int, u: int, r: int, j: int)
    requires IsTwiddleTable(t, c) && s * (p * m) == |t|
    ensures Term(t, x, base, s, k + u * m, j * p + r)
         == Mul(Mul(Term(t, x, base + r * s, s * p, k, j), W(t, r * k * s)), W(t, r * u * (m * s)))
  {
    hide IsTwiddleTable, Mul, W, At;
    NotEmpty(t, c);
    Exponent(j, p, r, k, u, m, s, |t|);
    assert base + (j * p + r) * s == base + r * s + j * (s * p) by {
      Arith.Assoc(j, p, s);
    }
    var e1, e2, e3 := j * k * (s * p), r * k * s, r * u * (m * s);
    WPeriod(t, e1 + e2 + e3, j * u);
    SplitTwiddle(t, c, At(x, base + (j * p + r) * s), e1, e2, e3);
  }

  /** The residue-r part of the long transform is the twiddled bin of the r-th short one. */
  lemma ResiduePart(t: seq<Cpx>, c: real, x: seq<Cpx>, base: int, s: int, p: int, m: nat, k: int, u: int, r: int)
    requires IsTwiddleTable(t, c) && s * (p * m) == |t|
    ensures Sum(m, j => Term(t, x, base, s, k + u * m, j * p + r))
         == Mul(Mul(SubDft(t, x, base + r * s, s * p, m, k), W(t, r * k * s)), W(t, r * u * (m * s)))
  {
    hide *;
    NotEmpty(t, c);
    var w2, w3 := W(t, r * k * s), W(t, r * u * (m * s));
    var f := (j: int) => Term(t, x, base + r * s, s * p, k, j);
    var g := (j: int) => Mul(f(j), w2);
    SubDftTerms(t, x, base + r * s, s * p, m, k);
    SumCong(m, j => Term(t, x, base + r * s, s * p, k, j), f);
    forall j | 0 <= j < m
      ensures Term(t, x, base, s, k + u * m, j * p + r) == Mul(g(j), w3)
    {
      SplitTerm(t, c, x, base, s, p, m, k, u, r, j);
    }
    SumCong(m, j => Term(t, x, base, s, k + u * m, j * p + r), j => Mul(g(j), w3));
    SumMul(m, g, w3);
    SumMul(m, f, w2);
  }

  /** One term of the combination. */
  ghost function Part(t: seq<Cpx>, s: int, m: int, a: seq<Cpx>, o: int, k: int, u: int, r: int): Cpx
    requires |t| > 0
  {
    Mul(Mul(At(a, o + r * m + k), W(t, r * k * s)), W(t, r * u * (m * s)))
  }

  /** Sub-block r of the block at o holds, at k, the short transform of residue r. */
  ghost predicate BlockReady(t: seq<Cpx>, x: seq<Cpx>, a: seq<Cpx>, base: int, s: int, p: int, m: nat, o: int, k: int,
                             r: int)
    requires |t| > 0
  {
    At(a, o + r * m + k) == SubDft(t, x, base + r * s, s * p, m, k)
  }

  lemma ReadyPart(t: seq<Cpx>, c: real, x: seq<Cpx>, a: seq<Cpx>, base: int, s: int, p: int, m: nat, o: int, k: int,
                  u: int, r: int)
    requires IsTwiddleTable(t, c) && s * (p * m) == |t|
    requires BlockReady(t, x, a, base, s, p, m, o, k, r)
    ensures Sum(m, j => Term(t, x, base, s, k + u * m, j * p + r)) == Part(t, s, m, a, o, k, u, r)
  {
    hide IsTwiddleTable, Mul, W, Sum, At, Term, SubDft;
    ResiduePart(t, c, x, base, s, p, m, k, u, r);
  }

  lemma SubDftTerms(t: seq<Cpx>, x: seq<Cpx>, base: int, s: int, m: nat, k: int)
    requires |t| > 0
    ensures SubDft(t, x, base, s, m, k) == Sum(m, j => Term(t, x, base, s, k, j))
  {
    hide Mul, W, Sum, At;
    SumCong(m, j => Mul(At(x, base + j * s), W(t, j * k * s)), j => Term(t, x, base, s, k, j));
  }

  lemma RadixParts(t: seq<Cpx>, s: int, p: nat, m: int, a: seq<Cpx>, o: int, k: int, u: int)
    requires |t| > 0
    ensures Radix(t, s, p, m, a, o, k, u) == Sum(p, r => Part(t, s, m, a, o, k, u, r))
  {
    hide Mul, W, Sum, At;
    SumCong(p, r => Mul(Mul(At(a, o + r * m + k), W(t, r * k * s)), W(t, r * u * (m * s))),
            r => Part(t, s, m, a, o, k, u, r));
  }

  lemma ReadySum(t: seq<Cpx>, c: real, x: seq<Cpx>, a: seq<Cpx>, base: int, s: int, p: int, m: nat, o: int, k: int,
                 u: int,
                 f: int -> Cpx, r: int)
    requires IsTwiddleTable(t, c) && s * (p * m) == |t|
    requires BlockReady(t, x, a, base, s, p, m, o, k, r)
    requires forall j :: f(j) == Term(t, x, base, s, k + u * m, j)
    ensures Sum(m, j => f(j * p + r)) == Part(t, s, m, a, o, k, u, r)
  {
    hide *;
    NotEmpty(t, c);
    ReadyPart(t, c, x, a, base, s, p, m, o, k, u, r);
    SumCong(m, j => f(j * p + r), j => Term(t, x, base, s, k + u * m, j * p + r));
  }

  /** Cooley-Tukey: if the p sub-blocks hold the short transforms of the p residues, the combination
      Radix holds the long transform. */
  lemma CombineBlocks(t: seq<Cpx>, c: real, x: seq<Cpx>, a: seq<Cpx>, base: int, s: int, p: nat, m: nat, o: int,
                      k: int, u: int)
    requires IsTwiddleTable(t, c) && s * (p * m) == |t|
    requires forall r :: 0 <= r < p ==> BlockReady(t, x, a, base, s, p, m, o, k, r)
    ensures SubDft(t, x, base, s, p * m, k + u * m) == Radix(t, s, p, m, a, o, k, u)
  {
    hide *;
    NotEmpty(t, c);
    var big := k + u * m;
    var f := (j: int) => Term(t, x, base, s, big, j);
    var term := (r: int) => Part(t, s, m, a, o, k, u, r);
    forall r | 0 <= r < p
      ensures Sum(m, j => f(j * p + r)) == term(r)
    {
      ReadySum(t, c, x, a, base, s, p, m, o, k, u, f, r);
    }
    SumOfResidues(p, m, f, term);
    SubDftTerms(t, x, base, s, p * m, big);
    RadixParts(t, s, p, m, a, o, k, u);
  }
}
