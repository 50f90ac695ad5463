/** kf_factor: the radices of the transform and the length each stage leaves. */
module Factor {
  import Arith

  const MAXFACTORS := 8

  ghost predicate IsPrime(d: int)
  {
    d >= 2 && forall k :: 2 <= k < d ==> d % k != 0
  }

  /** No prime factor above 5. */
  ghost predicate FiveSmooth(n: int)
  {
    forall d :: IsPrime(d) && n % d == 0 ==> d <= 5
  }

  /** The radix that the order 4, 2, 3, 5 takes from n first. */
  function FirstRadix(n: nat): (p: nat)
    ensures p == 0 || (p >= 2 && n % p == 0)
  {
    if n % 4 == 0 then 4 else if n % 2 == 0 then 2 else if n % 3 == 0 then 3 else if n % 5 == 0 then 5 else 0
  }

  lemma Quotient(n: nat, p: nat)
    requires n > 0 && p >= 2 && n % p == 0
    ensures n == p * (n / p) && 0 < n / p < n
  {
  }

  /** How many stages the radices, taken greedily in that order, make of n. */
  function StageCount(n: nat): nat
    requires n > 0
  {
    var p := FirstRadix(n);
    if p == 0 then 0 else
      Quotient(n, p);
      1 + StageCount(n / p)
  }

  ghost function Prod(rs: seq<int>): int
  {
    if rs == [] then 1 else Prod(rs[..|rs| - 1]) * rs[|rs| - 1]
  }

  /** Length of the sub-transforms that stage i combines into; stage 0 makes the whole transform. */
  function Len(f: seq<int>, n: nat, i: nat): int
    requires 2 * i <= |f|
  {
    if i == 0 then n else f[2 * i - 1]
  }

  /** facbuf holds p0, m0, p1, m1, ... with p[i] * m[i] = m[i-1], ending with m = 1. */
  ghost predicate IsFactorList(f: seq<int>, n: nat, stages: nat)
  {
    && 1 <= n && 1 <= stages && 2 * stages <= |f|
    && (forall i :: 0 <= i < stages ==> 2 <= f[2 * i] <= 5 || (n == 1 && stages == 1 && f[2 * i] == 1))
    && (forall i :: 0 <= i < stages ==> f[2 * i + 1] >= 1 && f[2 * i] * f[2 * i + 1] == Len(f, n, i))
    && (forall i :: 0 <= i < stages ==> f[2 * i] == 2 ==> f[2 * i + 1] == 1 || f[2 * i + 1] == 4)
    && f[2 * stages - 1] == 1
  }

  lemma {:induction false} ProdUpdate(rs: seq<int>, k: nat, v: int)
    requires k < |rs|
    ensures Prod(rs[k := v]) * rs[k] == Prod(rs) * v
  {
    var last := |rs| - 1;
    if k == last {
      assert rs[k := v][..last] == rs[..last];
    } else {
      assert rs[k := v][..last] == rs[..last][k := v];
      ProdUpdate(rs[..last], k, v);
      var a, b, x, y := Prod(rs[..last][k := v]), Prod(rs[..last]), rs[last], rs[k];
      assert a * y == b * v ==> (a * x) * y == (b * x) * v;
    }
  }

  // ---- prime factors ----

  lemma Invertible(p: int, b: int, q: int, z: int)
    requires p == 2 || p == 3 || p == 5
    requires 0 < b < p && b * q == p * z
    ensures q % p == 0
  {
    var w :=
      if b == 1 then z
      else if p == 3 then q - z
      else if b == 2 then q - 2 * z
      else if b == 3 then 2 * z - q
      else q - z;
    assert q == p * w;
  }

  lemma QuotientTakesFactor(p: int, n: int, d: int, q: int)
    requires p == 2 || p == 3 || p == 5
    requires d % p != 0 && p * n == d * q
    ensures q % p == 0
  {
    var a, b := d / p, d % p;
    assert d * q == p * (a * q) + b * q by {
      assert d == p * a + b;
      assert (p * a + b) * q == p * a * q + b * q;
    }
    Invertible(p, b, q, n - a * q);
  }

  /** d divides p * n and shares no factor with p, hence divides n. */
  lemma Coprime(p: int, n: int, d: int)
    requires p == 2 || p == 3 || p == 5
    requires d > 1 && d % p != 0 && (p * n) % d == 0
    ensures n % d == 0
  {
    var q := (p * n) / d;
    QuotientTakesFactor(p, n, d, q);
    var w := q / p;
    assert q == p * w && p * n == p * (w * d) by {
      assert d * (p * w) == p * (w * d);
    }
    Arith.DivModUnique(n, d, w, 0);
  }

  lemma SmoothTimes(p: int, n: int)
    requires (p == 2 || p == 3 || p == 5) && n > 0
    ensures FiveSmooth(p * n) <==> FiveSmooth(n)
  {
    forall d | IsPrime(d) && n % d == 0
      ensures (p * n) % d == 0
    {
      assert p * n == (p * (n / d)) * d + 0;
      Arith.DivModUnique(p * n, d, p * (n / d), 0);
    }
    forall d | IsPrime(d) && d > 5 && (p * n) % d == 0
      ensures n % d == 0
    {
      Coprime(p, n, d);
    }
  }

  lemma {:induction false} HasPrimeFactor(n: int, d: int) returns (q: int)
    requires n >= 2 && 2 <= d <= n
    requires forall k :: 2 <= k < d ==> n % k != 0
    ensures IsPrime(q) && n % q == 0
    decreases n - d
  {
    if n % d == 0 {
      q := d;
      forall k | 2 <= k < d
        ensures d % k != 0
      {
        if d % k == 0 {
          Arith.DivTrans(n, d, k);
        }
      }
    } else {
      q := HasPrimeFactor(n, d + 1);
    }
  }

  lemma RoughNotSmooth(n: int)
    requires n > 1 && n % 2 != 0 && n % 3 != 0 && n % 5 != 0
    ensures !FiveSmooth(n)
  {
    var q := HasPrimeFactor(n, 2);
    assert IsPrime(q) && q <= 5 ==> q == 2 || q == 3 || q == 5 by {
      assert 4 % 2 == 0;
    }
  }

  function Pow3(k: nat): (r: nat)
    ensures r > 0
  {
    if k == 0 then 1 else 3 * Pow3(k - 1)
  }

  lemma {:induction false} PowMono(a: nat, b: nat)
    requires a >= b
    ensures Pow3(a) >= Pow3(b)
  {
    if a > b {
      PowMono(a - 1, b);
    }
  }

  lemma RadixCases(n: nat)
    requires n > 0
    ensures FirstRadix(n) in {0, 2, 3, 4, 5}
    ensures FirstRadix(n) == 2 ==> (n / 2) % 2 != 0
    ensures FirstRadix(n) == 3 ==> n % 2 != 0 && (n / 3) % 2 != 0
    ensures FirstRadix(n) == 5 ==> n % 2 != 0 && (n / 5) % 2 != 0
  {
    if FirstRadix(n) == 2 {
      HalfOfTwiceOdd(n);
    } else if FirstRadix(n) == 3 {
      QuotientNotBy(n, 3, 2);
    } else if FirstRadix(n) == 5 {
      QuotientNotBy(n, 5, 2);
    }
  }

  lemma StageUnfold(n: nat, p: nat, m: nat)
    requires n > 0 && m > 0 && p == FirstRadix(n) && (p > 0 ==> m == n / p)
    ensures StageCount(n) == if p == 0 then 0 else 1 + StageCount(m)
  {
  }

  ghost predicate Bounded(n: nat, k: nat)
  {
    if n % 2 == 0 then 3 * n >= 2 * Pow3(k) else n >= Pow3(k)
  }

  lemma BoundStep(n: nat, p: nat, m: nat, k: nat)
    requires n == p * m && p in {2, 3, 4, 5} && Bounded(m, k)
    requires p == 2 ==> m % 2 != 0
    requires p == 3 || p == 5 ==> n % 2 != 0 && m % 2 != 0
    ensures Bounded(n, 1 + k)
  {
    assert Pow3(1 + k) == 3 * Pow3(k);
    hide Pow3;
    if p == 4 || p == 2 {
      assert n % 2 == 0;
    }
  }

  lemma {:induction false} StageBound(n: nat)
    requires n > 0
    ensures Bounded(n, StageCount(n))
  {
    hide *;
    RadixCases(n);
    var p := FirstRadix(n);
    if p == 0 {
      StageUnfold(n, 0, 1);
      BoundZero(n);
    } else {
      Quotient(n, p);
      StageUnfold(n, p, n / p);
      StageBound(n / p);
      BoundStep(n, p, n / p, StageCount(n / p));
    }
  }

  lemma BoundZero(n: nat)
    requires n > 0
    ensures Bounded(n, 0)
  {
  }

  lemma StageOfTriple(m: nat)
    requires m % 2 != 0
    ensures (3 * m) % 2 != 0 && StageCount(3 * m) == 1 + StageCount(m)
  {
    hide StageCount;
    Arith.DivModUnique(3 * m, 2, 3 * (m / 2) + 1, 1);
    NotByFour(3 * m);
    Arith.DivModUnique(3 * m, 3, m, 0);
    StageUnfold(3 * m, 3, m);
  }

  lemma StageOfDouble(m: nat)
    requires m % 2 != 0
    ensures StageCount(2 * m) == 1 + StageCount(m)
  {
    hide StageCount;
    Arith.DivModUnique(2 * m, 4, m / 2, 2);
    Arith.DivModUnique(2 * m, 2, m, 0);
    StageUnfold(2 * m, 2, m);
  }

  lemma {:induction false} StagesOfPower(k: nat)
    ensures Pow3(k) % 2 != 0
    ensures StageCount(Pow3(k)) == k
  {
    if k > 0 {
      StagesOfPower(k - 1);
      hide StageCount;
      StageOfTriple(Pow3(k - 1));
    }
  }

  /** k slots are enough for every length below 2 * 3^k ... */
  lemma StagesSuffice(n: nat, k: nat)
    requires 0 < n < 2 * Pow3(k)
    ensures StageCount(n) <= k
  {
    hide StageCount;
    StageBound(n);
    if StageCount(n) > k {
      PowMono(StageCount(n), k + 1);
    }
  }

  /** ... and not for 2 * 3^k itself. */
  lemma StagesSharp(k: nat)
    ensures StageCount(2 * Pow3(k)) == k + 1
  {
    hide *;
    StagesOfPower(k);
    StageOfDouble(Pow3(k));
  }

  // ---- kf_factor ----

  /** Where the radices 2 can stand before the list is reversed. */
  ghost predicate TwoPlacement(rs: seq<int>)
  {
    forall i :: 0 <= i < |rs| && rs[i] == 2 ==> i == 0 || (i == 1 && rs[0] == 4)
  }

  /** State of the factoring loop: what has been stored times what is left is n0. */
  ghost predicate Factored(rs: seq<int>, n: int, n0: int)
  {
    && n >= 1 && n0 >= 1
    && Prod(rs) * n == n0
    && (forall i :: 0 <= i < |rs| ==> 2 <= rs[i] <= 5)
    && TwoPlacement(rs)
    && |rs| + StageCount(n) == StageCount(n0)
    && (FiveSmooth(n0) <==> FiveSmooth(n))
  }

  /** The trial radix p only moves on when it and its predecessors have been used up. */
  ghost predicate Tried(p: int, n: int)
  {
    && (p != 4 ==> n % 4 != 0)
    && (p != 4 && p != 2 ==> n % 2 != 0)
    && (p > 3 && p != 4 ==> n % 3 != 0)
    && (p > 5 ==> n % 5 != 0)
  }

  ghost predicate LoopInv(rs: seq<int>, n: int, n0: int, p: int)
  {
    && Factored(rs, n, n0)
    && p in {2, 3, 4, 5} && Tried(p, n)
    && (p == 2 ==> n % 2 != 0)
    && (p == 4 ==> forall i :: 0 <= i < |rs| ==> rs[i] == 4)
  }

  /** p is the radix the greedy order takes from n next. */
  ghost predicate NextFactor(rs: seq<int>, n: int, p: int)
  {
    && p in {2, 3, 4, 5} && n >= 1 && n % p == 0
    && (p != 4 ==> n % 4 != 0)
    && (p > 2 && p != 4 ==> n % 2 != 0)
    && (p == 5 ==> n % 3 != 0)
    && (p == 2 || p == 4 ==> forall i :: 0 <= i < |rs| ==> rs[i] == 4)
  }

  ghost function Stored(rs: seq<int>, p: int): seq<int>
  {
    if p == 2 && |rs| > 1 then rs[1 := 2] + [4] else rs + [p]
  }

  lemma StoreRadix(rs: seq<int>, n: int, n0: int, p: int)
    requires Factored(rs, n, n0) && NextFactor(rs, n, p)
    ensures LoopInv(Stored(rs, p), n / p, n0, p)
    ensures n / p < n
  {
    hide Prod, FiveSmooth, StageCount, FirstRadix, Tried;
    var m := n / p;
    Quotient(n, p);
    StoredProduct(rs, p);
    SmoothDivide(p, m);
    StageDivide(rs, n, p);
    Regroup(Prod(rs), p, m, n0);
    TriedQuotient(rs, n, p);
  }

  lemma Regroup(a: int, p: int, m: int, n0: int)
    requires a * (p * m) == n0
    ensures (a * p) * m == n0
  {
  }

  lemma TriedQuotient(rs: seq<int>, n: int, p: int)
    requires NextFactor(rs, n, p)
    ensures Tried(p, n / p) && (p == 2 ==> (n / p) % 2 != 0)
  {
    NotByFour(n / p);
    if p == 2 {
      HalfOfTwiceOdd(n);
    } else if p == 3 || p == 5 {
      QuotientNotBy(n, p, 2);
      if p == 5 {
        QuotientNotBy(n, p, 3);
      }
    }
  }

  lemma NotByFour(q: int)
    ensures q % 2 != 0 ==> q % 4 != 0
  {
    if q % 4 == 0 {
      Arith.DivModUnique(q, 2, 2 * (q / 4), 0);
    }
  }

  lemma HalfOfTwiceOdd(n: int)
    requires n % 2 == 0 && n % 4 != 0
    ensures (n / 2) % 2 != 0
  {
    if (n / 2) % 2 == 0 {
      Arith.DivModUnique(n, 4, n / 2 / 2, 0);
    }
  }

  lemma QuotientNotBy(n: int, p: int, k: int)
    requires p > 0 && k > 0 && n % p == 0 && n % k != 0
    ensures (n / p) % k != 0
  {
    if (n / p) % k == 0 {
      Arith.MultipleMod(n, p, n / p, k);
    }
  }

  lemma StageDivide(rs: seq<int>, n: int, p: int)
    requires NextFactor(rs, n, p)
    ensures n / p >= 1 && StageCount(n) == 1 + StageCount(n / p)
  {
    assert FirstRadix(n) == p;
  }

  lemma SmoothDivide(p: int, m: int)
    requires 2 <= p <= 5 && m >= 1
    ensures FiveSmooth(p * m) <==> FiveSmooth(m)
  {
    hide *;
    if p == 4 {
      SmoothTimes(2, 2 * m);
      SmoothTimes(2, m);
    } else {
      SmoothTimes(p, m);
    }
  }

  lemma StoredProduct(rs: seq<int>, p: int)
    requires p == 2 ==> forall i :: 0 <= i < |rs| ==> rs[i] == 4
    ensures Prod(Stored(rs, p)) == Prod(rs) * p
  {
    assert (rs + [p])[..|rs|] == rs;
    if p == 2 && |rs| > 1 {
      assert (rs[1 := 2] + [4])[..|rs|] == rs[1 := 2];
      ProdUpdate(rs, 1, 2);
    }
  }

  /** State of the search for the next radix. */
  ghost predicate Trial(rs: seq<int>, n: int, p: int)
  {
    && 1 <= n <= 32767 && 1 <= p
    && (p == 1 ==> n == 1)
    && (p == 4 || (p == 2 && n % 2 == 0) ==> forall i :: 0 <= i < |rs| ==> rs[i] == 4)
    && Tried(p, n)
    && (if n % p == 0
        then 1 < p <= 5 ==> NextFactor(rs, n, p)
        else p != n && p >= 2 && (p in {2, 3, 4} || p % 2 != 0))
    && (p > 5 ==> n % 5 != 0)
  }

  lemma TrialStart(rs: seq<int>, n: int, n0: int, p: int)
    requires n <= 32767 && LoopInv(rs, n, n0, p)
    ensures Trial(rs, n, p)
  {
    hide FirstRadix, FiveSmooth, StageCount, Prod, TwoPlacement;
  }

  function NextTrial(n: int, p: int): int
  {
    var q := if p == 4 then 2 else if p == 2 then 3 else p + 2;
    if q > 32000 || q * q > n then n else q
  }

  lemma NextIsTried(rs: seq<int>, n: int, p: int, q: int)
    requires Trial(rs, n, p) && n % p != 0
    requires q == if p == 4 then 2 else if p == 2 then 3 else p + 2
    ensures n <= 32767 && Tried(q, n) && (q in {2, 3} || (q >= 5 && q % 2 != 0)) && (q == 2 ==> p == 4)
  {
  }

  /** After a failed trial the next radix is tried, unless nothing but n itself is left to find. */
  lemma TrialStep(rs: seq<int>, n: int, p: int)
    requires Trial(rs, n, p) && n % p != 0
    ensures Trial(rs, n, NextTrial(n, p))
  {
    hide Trial, Tried;
    var q := if p == 4 then 2 else if p == 2 then 3 else p + 2;
    NextIsTried(rs, n, p, q);
    Arith.MulLe(2, q, q);
    if q * q > n {
      LastTrial(rs, n, p, q);
    } else {
      MiddleTrial(rs, n, p, q);
    }
  }

  lemma LastTrial(rs: seq<int>, n: int, p: int, q: int)
    requires Trial(rs, n, p) && n % p != 0 && (q == 2 ==> p == 4)
    requires q >= 2 && q * q > n && Tried(q, n)
    requires q in {2, 3} || (q >= 5 && q % 2 != 0)
    ensures Trial(rs, n, n)
  {
    assert n in {1, 2, 3, 5} || (n > 5 && n % 2 != 0 && n % 3 != 0 && n % 5 != 0) by {
      LastFactor(n, q);
    }
    assert n == 2 ==> q == 2;
    assert n % n == 0;
  }

  lemma LastFactor(n: int, q: int)
    requires n >= 1 && q >= 2 && q * q > n && Tried(q, n)
    requires q in {2, 3} || (q >= 5 && q % 2 != 0)
    ensures n in {1, 2, 3, 5} || (n > 5 && n % 2 != 0 && n % 3 != 0 && n % 5 != 0)
  {
    if q == 2 {
    } else if q == 3 {
      assert n == 7 ==> n % 5 != 0;
    } else if q == 5 {
      assert n < 25;
    }
  }

  lemma MiddleTrial(rs: seq<int>, n: int, p: int, q: int)
    requires Trial(rs, n, p) && n % p != 0 && (q == 2 ==> p == 4)
    requires 2 <= q && 2 * q <= n && Tried(q, n)
    requires q in {2, 3} || (q >= 5 && q % 2 != 0)
    ensures Trial(rs, n, q)
  {
  }

  ghost function Rank(n: int, p: int): nat
    requires n >= 0 && p >= 1
  {
    if n % p == 0 then 0 else if p == 4 then n + 3 else if p == 2 then n + 2 else if n > p then 1 + n - p else 1
  }

  lemma TrialTerminates(rs: seq<int>, n: int, p: int)
    requires Trial(rs, n, p) && n % p != 0
    ensures n >= 0 && NextTrial(n, p) >= 1 && Rank(n, NextTrial(n, p)) < Rank(n, p)
  {
    hide Tried, NextFactor;
    var q := if p == 4 then 2 else if p == 2 then 3 else p + 2;
    Arith.MulLe(2, q, q);
    if q > 32000 || q * q > n {
      Arith.DivModUnique(n, n, 1, 0);
    }
  }

  /** The inner loop of kf_factor: the next trial radix that divides n. */
  method NextRadix(n: int, p0: int, ghost rs: seq<int>, ghost n0: int) returns (p: int)
    requires n <= 32767 && LoopInv(rs, n, n0, p0)
    ensures 1 <= p && n % p == 0
    ensures p > 5 ==> n >= 1 && !FiveSmooth(n) && StageCount(n) == 0
    ensures 1 < p <= 5 ==> NextFactor(rs, n, p)
    ensures p == 1 ==> n == 1
  {
    hide Trial, Tried, NextFactor, LoopInv, FiveSmooth, Rank, StageCount;
    TrialStart(rs, n, n0, p0);
    TrialFacts(rs, n, p0);
    p := p0;
    while n % p != 0
      invariant 0 <= n && 1 <= p && Trial(rs, n, p)
      decreases Rank(n, p)
    {
      TrialStep(rs, n, p);
      TrialTerminates(rs, n, p);
      p := if p == 4 then 2 else if p == 2 then 3 else p + 2;
      if p > 32000 || p * p > n {
        p := n;
      }
    }
    TrialFacts(rs, n, p);
    if p > 5 {
      RoughNotSmooth(n);
      RoughHasNoStage(n);
    }
  }

  lemma RoughHasNoStage(n: nat)
    requires n > 1 && n % 2 != 0 && n % 3 != 0 && n % 5 != 0
    ensures StageCount(n) == 0
  {
    NotByFour(n);
  }

  lemma TrialFacts(rs: seq<int>, n: int, p: int)
    requires Trial(rs, n, p)
    ensures 0 <= n && 1 <= p && (p == 1 ==> n == 1) && (n % p == 0 && 1 < p <= 5 ==> NextFactor(rs, n, p))
    ensures n % p == 0 && p > 5 ==> n > 1 && n % 2 != 0 && n % 3 != 0 && n % 5 != 0
  {
  }

  lemma StartFactoring(n0: int)
    requires n0 >= 1
    ensures LoopInv([], n0, n0, 4)
  {
  }

  lemma OneIsSmooth()
    ensures FiveSmooth(1)
  {
  }

  /** kf_factor (kiss_fft.c:352-404). The ninth store would lie outside facbuf; overflow says that it comes to that, and
      otherwise exactly the lengths without a prime factor above 5 are accepted. */
  method KfFactor(n0: int, facbuf: array<int>) returns (ok: bool, overflow: bool, ghost stages: nat)
    requires 1 <= n0 <= 32767
    requires facbuf.Length == 2 * MAXFACTORS
    modifies facbuf
    ensures overflow <==> StageCount(n0) > MAXFACTORS
    ensures !overflow ==> (ok <==> FiveSmooth(n0))
    ensures ok ==> !overflow && IsFactorList(facbuf[..], n0, stages) && (stages == StageCount(n0) || stages == n0 == 1)
    ensures ok ==> 1 <= stages <= MAXFACTORS && InOrder(facbuf[..], n0, stages)
  {
    hide *;
    Slots();
    var p := 4;
    var count := 0;
    var n := n0;
    ghost var rs: seq<int> := [];
    var more := true;
    StartFactoring(n0);
    ArrangedStart(n0);
    while more
      invariant 0 <= count == |rs|
      invariant more ==> 1 <= n <= n0 && LoopInv(rs, n, n0, p) && (n > 1 || count == 0)
      invariant !more ==> Finished(rs, n0) && (n0 == 1 ==> rs == [1])
      invariant Arranged(rs, n0, p)
      invariant count <= MAXFACTORS && forall i :: 0 <= i < count ==> facbuf[2 * i] == rs[i]
      decreases if more then n + 1 else 0
    {
      ghost var p0 := p;
      p := NextRadix(n, p, rs, n0);
      if p > 5 {
        Rejected(rs, n, n0, p0);
        return false, false, 0;
      }
      ghost var left := n;
      n := n / p;
      if p == 1 {
        rs := FinishedOne(rs, left, n0, p0);
        ArrangedOne(n0, p);
      } else {
        RadixStored(rs, left, n0, p0, p);
        if count == MAXFACTORS {
          return false, true, 0;
        }
        ArrangedStep(rs, left, n0, p0, p);
        rs := Stored(rs, p);
        if n <= 1 {
          FinishedList(rs, n, n0, p);
        }
      }
      facbuf[2 * count] := p;
      if p == 2 && count > 1 {
        facbuf[2 * count] := 4;
        facbuf[2] := 2;
      }
      count := count + 1;
      more := n > 1;
    }
    FinishedFacts(rs, n0);
    Reverse(facbuf, count, rs);
    FillLengths(facbuf, count, rs, n0);
    OrderOfArranged(facbuf[..], rs, n0, p);
    return true, false, count;
  }

  lemma Slots()
    ensures MAXFACTORS == 8
  {
  }

  /** The shortest length that overruns the factor list, and the shortest that fills it. */
  lemma LongestLengths()
    ensures StageCount(13122) == 9 && StageCount(4374) == 8
    ensures forall n: nat :: 0 < n < 13122 ==> StageCount(n) <= 8
    ensures forall n: nat :: 0 < n < 4374 ==> StageCount(n) <= 7
  {
    hide StageCount;
    PowSeven();
    StagesSharp(8);
    StagesSharp(7);
    forall n: nat | 0 < n < 13122
      ensures StageCount(n) <= 8
    {
      StagesSuffice(n, 8);
    }
    forall n: nat | 0 < n < 4374
      ensures StageCount(n) <= 7
    {
      StagesSuffice(n, 7);
    }
  }

  /** Which group a radix belongs to: the 4s and the 2, then the 3s, then the 5s. */
  function Phase(p: int): int
  {
    if p == 5 then 2 else if p == 3 then 1 else 0
  }

  /** The radices found so far are grouped, none comes after the trial radix, and the first is the first of the greedy
      order. */
  ghost predicate Arranged(rs: seq<int>, n0: int, p: int)
  {
    && (forall i, j :: 0 <= i < j < |rs| ==> Phase(rs[i]) <= Phase(rs[j]))
    && (forall i :: 0 <= i < |rs| ==> Phase(rs[i]) <= Phase(p))
    && (rs != [] ==> n0 >= 0 && (rs[0] == FirstRadix(n0) || n0 == rs[0] == 1))
  }

  lemma ArrangedStart(n0: int)
    ensures Arranged([], n0, 4)
  {
  }

  lemma PhaseGrows(n: int, p0: int, p: int)
    requires Tried(p0, n) && p0 in {2, 3, 4, 5} && p in {2, 3, 4, 5} && n % p == 0
    ensures Phase(p0) <= Phase(p)
  {
    if p == 4 {
      Arith.DivTrans(n, 4, 2);
    }
  }

  lemma ArrangedStep(rs: seq<int>, n: int, n0: int, p0: int, p: int)
    requires LoopInv(rs, n, n0, p0) && Arranged(rs, n0, p0) && NextFactor(rs, n, p)
    ensures Arranged(Stored(rs, p), n0, p)
  {
    hide LoopInv, FirstRadix, NextFactor;
    StepFacts(rs, n, n0, p0, p);
  }

  lemma StepFacts(rs: seq<int>, n: int, n0: int, p0: int, p: int)
    requires LoopInv(rs, n, n0, p0) && NextFactor(rs, n, p)
    ensures Phase(p0) <= Phase(p) && n0 >= 0 && p >= 2
    ensures rs == [] ==> p == FirstRadix(n0)
    ensures p == 2 ==> forall i :: 0 <= i < |rs| ==> rs[i] == 4
  {
    hide FiveSmooth, StageCount, TwoPlacement, Prod;
    PhaseGrows(n, p0, p);
    if rs == [] {
      WholeLeft(n, n0);
    }
  }

  lemma WholeLeft(n: int, n0: int)
    ensures Prod([]) * n == n
  {
  }

  lemma ArrangedOne(n0: int, p: int)
    requires n0 == 1
    ensures Arranged([1], n0, p)
  {
  }

  /** The finished list, last stage first: 5s, 3s, then the 4s and the 2, and radix 4 in the last stage whenever 4
      divides n. */
  ghost predicate InOrder(f: seq<int>, n: nat, stages: nat)
    requires 1 <= stages && 2 * stages <= |f|
  {
    && (forall i, j :: 0 <= i < j < stages ==> Phase(f[2 * i]) >= Phase(f[2 * j]))
    && f[2 * (stages - 1)] == if n == 1 then 1 else FirstRadix(n)
  }

  lemma OrderOfArranged(f: seq<int>, rs: seq<int>, n0: int, p: int)
    requires n0 >= 1 && |rs| >= 1 && 2 * |rs| <= |f| && Arranged(rs, n0, p)
    requires n0 == 1 ==> rs == [1]
    requires forall k :: 0 <= k < |rs| ==> f[2 * k] == rs[|rs| - 1 - k]
    ensures InOrder(f, n0, |rs|)
  {
    hide FirstRadix, Phase;
  }

  lemma Rejected(rs: seq<int>, n: int, n0: int, p: int)
    requires n0 >= 1 && n >= 1 && LoopInv(rs, n, n0, p) && !FiveSmooth(n) && StageCount(n) == 0
    ensures !FiveSmooth(n0) && StageCount(n0) == |rs|
  {
  }

  /** The factoring loop has ended. */
  ghost predicate Finished(rs: seq<int>, n0: int)
  {
    n0 >= 1 && Complete(rs, n0) && FiveSmooth(n0) && StageCount(n0) <= |rs|
      && (|rs| == StageCount(n0) || |rs| == n0 == 1)
  }

  lemma FinishedFacts(rs: seq<int>, n0: int)
    requires Finished(rs, n0)
    ensures n0 >= 1 && |rs| >= 1 && Complete(rs, n0) && FiveSmooth(n0)
    ensures StageCount(n0) <= |rs| && (|rs| == StageCount(n0) || |rs| == n0 == 1)
  {
  }

  lemma FinishedOne(rs: seq<int>, n: int, n0: int, p: int) returns (done: seq<int>)
    requires LoopInv(rs, n, n0, p) && n == 1 && |rs| == 0
    ensures done == [1] && n0 == 1 && Finished(done, n0) && MAXFACTORS > 0
  {
    done := [1];
    assert n0 == 1;
    CompleteOne(n0);
    OneIsSmooth();
  }

  lemma FinishedList(rs: seq<int>, n: int, n0: int, p: int)
    requires LoopInv(rs, n, n0, p) && n <= 1 && |rs| >= 1
    ensures Finished(rs, n0)
  {
    CompleteList(rs, n0, p);
  }

  lemma RadixStored(rs: seq<int>, n: int, n0: int, p0: int, p: int)
    requires n0 >= 1 && LoopInv(rs, n, n0, p0) && NextFactor(rs, n, p)
    ensures |rs| < StageCount(n0) && |Stored(rs, p)| == |rs| + 1
    ensures 1 <= n / p < n && LoopInv(Stored(rs, p), n / p, n0, p)
    ensures p >= 2 && forall i :: 0 <= i < |rs| + 1 ==>
      Stored(rs, p)[i] == if p == 2 && |rs| > 1 then (if i == 1 then 2 else if i == |rs| then 4 else rs[i])
                          else if i == |rs| then p else rs[i]
  {
    hide Prod, FiveSmooth, FirstRadix, Tried, TwoPlacement;
    StageDivide(rs, n, p);
    StoreRadix(rs, n, n0, p);
  }

  /** The radices of all stages of n0, before they are reversed. */
  ghost predicate Complete(rs: seq<int>, n0: int)
  {
    && Prod(rs) == n0 && TwoPlacement(rs) && |rs| >= 1
    && forall i :: 0 <= i < |rs| ==> 2 <= rs[i] <= 5 || (n0 == 1 && rs == [1])
  }

  lemma CompleteOne(n0: int)
    requires n0 == 1
    ensures Complete([1], n0)
  {
    assert [1][..0] == [];
  }

  lemma CompleteList(rs: seq<int>, n0: int, p: int)
    requires LoopInv(rs, 1, n0, p) && |rs| >= 1
    ensures Complete(rs, n0) && FiveSmooth(n0) && |rs| == StageCount(n0)
  {
    hide FiveSmooth, StageCount, Prod, TwoPlacement, Tried, FirstRadix;
    OneIsSmooth();
    OneHasNoStage();
  }

  lemma OneHasNoStage()
    ensures StageCount(1) == 0
  {
  }

  /** The loop that reverses the order of the stages (kiss_fft.c:391-397). */
  method Reverse(facbuf: array<int>, count: nat, ghost rs: seq<int>)
    requires |rs| == count && 2 * count <= facbuf.Length
    requires forall k :: 0 <= k < count ==> facbuf[2 * k] == rs[k]
    modifies facbuf
    ensures forall k :: 0 <= k < count ==> facbuf[2 * k] == rs[count - 1 - k]
  {
    var i := 0;
    while i < count / 2
      invariant 0 <= i <= count / 2
      invariant forall k :: 0 <= k < i ==> facbuf[2 * k] == rs[count - 1 - k]
      invariant forall k :: count - i <= k < count ==> facbuf[2 * k] == rs[count - 1 - k]
      invariant forall k :: i <= k < count - i ==> facbuf[2 * k] == rs[k]
    {
      var tmp := facbuf[2 * i];
      facbuf[2 * i] := facbuf[2 * (count - i - 1)];
      facbuf[2 * (count - i - 1)] := tmp;
      i := i + 1;
    }
  }

  /** The loop that stores what is left after each stage (kiss_fft.c:398-402). */
  method FillLengths(facbuf: array<int>, count: nat, ghost rs: seq<int>, n0: int)
    requires |rs| == count >= 1 && 2 * count <= facbuf.Length && 1 <= n0
    requires Complete(rs, n0)
    requires forall k :: 0 <= k < count ==> facbuf[2 * k] == rs[count - 1 - k]
    modifies facbuf
    ensures IsFactorList(facbuf[..], n0, count)
    ensures forall k :: 0 <= k < count ==> facbuf[2 * k] == rs[count - 1 - k]
  {
    hide IsFactorList, TwoPlacement;
    var n := n0;
    assert rs[..count] == rs;
    var i := 0;
    while i < count
      invariant 0 <= i <= count
      invariant n == Prod(rs[..count - i])
      invariant forall k :: 0 <= k < count ==> facbuf[2 * k] == rs[count - 1 - k]
      invariant forall k :: 0 <= k < i ==> facbuf[2 * k + 1] == Prod(rs[..count - 1 - k])
    {
      assert rs[..count - i][..count - i - 1] == rs[..count - i - 1];
      ghost var rest := Prod(rs[..count - i - 1]);
      assert facbuf[2 * i] >= 1 && n == rest * facbuf[2 * i];
      Arith.DivModUnique(n, facbuf[2 * i], rest, 0);
      n := n / facbuf[2 * i];
      facbuf[2 * i + 1] := n;
      i := i + 1;
    }
    ListOfRadices(facbuf[..], rs, n0);
  }

  lemma ListOfRadices(f: seq<int>, rs: seq<int>, n0: int)
    requires 1 <= n0 && |rs| >= 1 && 2 * |rs| <= |f| && Complete(rs, n0)
    requires forall k :: 0 <= k < |rs| ==> f[2 * k] == rs[|rs| - 1 - k]
    requires forall k :: 0 <= k < |rs| ==> f[2 * k + 1] == Prod(rs[..|rs| - 1 - k])
    ensures IsFactorList(f, n0, |rs|)
  {
    var count := |rs|;
    assert rs[..count] == rs && rs[..0] == [];
    forall i | 0 <= i < count
      ensures f[2 * i + 1] >= 1 && f[2 * i] * f[2 * i + 1] == Len(f, n0, i)
      ensures f[2 * i] == 2 ==> f[2 * i + 1] == 1 || f[2 * i + 1] == 4
    {
      var k := count - 1 - i;
      assert rs[..k + 1][..k] == rs[..k];
      ProdPositive(rs, k, n0);
      assert Prod(rs[..k + 1]) == Prod(rs[..k]) * rs[k];
      if rs[k] == 2 && k == 1 {
        assert rs[..1][..0] == [];
        assert Prod(rs[..1]) == rs[0];
      }
      if i > 0 {
        assert f[2 * (i - 1) + 1] == Prod(rs[..k + 1]);
      }
    }
    assert f[2 * (count - 1) + 1] == Prod(rs[..0]);
  }

  lemma {:induction false} ProdPositive(rs: seq<int>, k: nat, n0: int)
    requires k <= |rs|
    requires forall i :: 0 <= i < |rs| ==> 2 <= rs[i] <= 5 || (n0 == 1 && rs == [1])
    ensures Prod(rs[..k]) >= 1
  {
    if k > 0 {
      ProdPositive(rs, k - 1, n0);
      assert rs[..k][..k - 1] == rs[..k - 1];
    }
  }

  /** A list of k + 1 stages belongs to a length of at least 2 * 3^k. */
  lemma {:induction false} LongListLongLength(f: seq<int>, n: nat, stages: nat, i: nat)
    requires IsFactorList(f, n, stages) && n > 1 && i < stages
    ensures Len(f, n, i) >= 2 * Pow3(stages - 1 - i)
    decreases stages - i
  {
    var p, m := f[2 * i], f[2 * i + 1];
    RadixAt(f, n, stages, i);
    if i + 1 < stages {
      LongListLongLength(f, n, stages, i + 1);
      assert Len(f, n, i + 1) == m;
      hide Pow3;
      PowNext(stages - 1 - (i + 1));
      ThreeTimes(p, m, Pow3(stages - 1 - (i + 1)));
    } else {
      assert Pow3(0) == 1;
      hide Pow3;
    }
  }

  lemma RadixAt(f: seq<int>, n: nat, stages: nat, i: nat)
    requires IsFactorList(f, n, stages) && n > 1 && i < stages
    ensures 2 <= f[2 * i] <= 5 && f[2 * i + 1] >= 1 && f[2 * i] * f[2 * i + 1] == Len(f, n, i)
    ensures f[2 * i] == 2 ==> f[2 * i + 1] == 1 || f[2 * i + 1] == 4
    ensures i + 1 == stages ==> f[2 * i + 1] == 1
  {
  }

  lemma PowNext(k: nat)
    ensures Pow3(k + 1) == 3 * Pow3(k) && (Pow3(k) == 1 || Pow3(k) >= 3)
  {
  }

  lemma PowSeven()
    ensures Pow3(7) == 2187 && Pow3(8) == 6561
  {
    assert Pow3(4) == 81;
  }

  lemma ThreeTimes(p: int, m: int, q: nat)
    requires 2 <= p <= 5 && m >= 2 * q && (q == 1 || q >= 3) && (p == 2 ==> m == 1 || m == 4)
    ensures p * m >= 2 * (3 * q)
  {
    if p > 2 {
      Arith.MulLe(3, p, m);
    }
  }

  /** Below 4374 every list leaves a slot free. */
  lemma FewStages(f: seq<int>, n: nat, stages: nat)
    requires IsFactorList(f, n, stages) && n < 4374
    ensures stages < MAXFACTORS
  {
    if n > 1 {
      LongListLongLength(f, n, stages, 0);
      hide IsFactorList;
      PowSeven();
      if stages >= MAXFACTORS {
        PowMono(stages - 1, 7);
      }
    } else {
      OneStage(f, n, stages);
    }
  }

  lemma AtLeastOne(f: seq<int>, n: nat, stages: nat)
    requires IsFactorList(f, n, stages)
    ensures n >= 1 && stages >= 1 && 2 * stages <= |f|
  {
  }

  lemma RadixOfOne(f: seq<int>, n: nat, stages: nat)
    requires IsFactorList(f, n, stages) && stages > 1
    ensures 2 <= f[0] && f[1] >= 1 && f[0] * f[1] == n
  {
    assert f[0] == f[2 * 0] && f[1] == f[2 * 0 + 1];
  }

  lemma OneStage(f: seq<int>, n: nat, stages: nat)
    requires IsFactorList(f, n, stages) && n == 1
    ensures stages == 1
  {
    hide IsFactorList;
    AtLeastOne(f, n, stages);
    if stages > 1 {
      RadixOfOne(f, n, stages);
      Arith.MulLe(1, f[1], f[0]);
    }
  }
}
