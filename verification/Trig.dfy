/** compute_twiddles of kiss_fft.c: from the addition theorems of cosine and sine to the table the transform needs. */
module Trig {
  import opened Complex
  import opened Reals
  import opened Twiddle
  import Arith

  ghost predicate AddsUp(cos: real -> real, sin: real -> real, a: real, b: real)
  {
    && cos(a + b) == SMul(cos(a), cos(b)) - SMul(sin(a), sin(b))
    && sin(a + b) == SMul(sin(a), cos(b)) + SMul(cos(a), sin(b))
  }

  ghost predicate Mirrors(cos: real -> real, sin: real -> real, a: real)
  {
    cos(-a) == cos(a) && sin(-a) == -sin(a)
  }

  /** Only whole turns have cosine 1. */
  ghost predicate NoWholeTurn(cos: real -> real, pi: real, a: real)
  {
    0.0 < a < 2.0 * pi ==> cos(a) != 1.0
  }

  /** What the proofs need of the cosine and sine of the C library: addition theorems, parity, a quarter turn, and the
      period. */
  ghost predicate IsTrig(cos: real -> real, sin: real -> real, pi: real)
  {
    && (forall a, b :: AddsUp(cos, sin, a, b))
    && (forall a :: Mirrors(cos, sin, a))
    && (forall a :: NoWholeTurn(cos, pi, a))
    && pi > 0.0 && cos(0.0) == 1.0 && sin(0.0) == 0.0 && cos(0.5 * pi) == 0.0 && sin(0.5 * pi) == 1.0
  }

  /** exp(i a). */
  function Exp(cos: real -> real, sin: real -> real, a: real): Cpx
  {
    Cpx(cos(a), sin(a))
  }

  lemma ExpAdd(cos: real -> real, sin: real -> real, pi: real, a: real, b: real)
    requires IsTrig(cos, sin, pi)
    ensures Mul(Exp(cos, sin, a), Exp(cos, sin, b)) == Exp(cos, sin, a + b)
  {
    hide SMul;
    assert AddsUp(cos, sin, a, b);
    SMulSign(cos(a), sin(b));
  }

  lemma ExpConj(cos: real -> real, sin: real -> real, pi: real, a: real)
    requires IsTrig(cos, sin, pi)
    ensures Conj(Exp(cos, sin, a)) == Exp(cos, sin, -a)
  {
    hide SMul;
    assert Mirrors(cos, sin, a);
  }

  /** The values at a half, a whole and an eighth of a turn follow from those at a quarter. */
  lemma Turns(cos: real -> real, sin: real -> real, pi: real)
    requires IsTrig(cos, sin, pi)
    ensures Exp(cos, sin, 0.0) == One && Exp(cos, sin, -(0.5 * pi)) == Cpx(0.0, -1.0)
    ensures Exp(cos, sin, -2.0 * pi) == One
    ensures Exp(cos, sin, -(0.25 * pi)) == Cpx(cos(0.25 * pi), -cos(0.25 * pi))
  {
    hide SMul;
    assert Mirrors(cos, sin, 0.5 * pi) && Mirrors(cos, sin, 0.25 * pi) && Mirrors(cos, sin, 2.0 * pi);
    Doubled(cos, sin, pi, 0.5 * pi);
    Doubled(cos, sin, pi, pi);
    SMulUnit(1.0);
    SMulUnit(-1.0);
    SMulUnit(0.0);
    assert AddsUp(cos, sin, 0.5 * pi, -(0.25 * pi));
    SMulUnit(cos(0.25 * pi));
    SMulUnit(-sin(0.25 * pi));
    assert 0.5 * pi + -(0.25 * pi) == 0.25 * pi;
    assert -2.0 * pi == -(2.0 * pi);
  }

  lemma Doubled(cos: real -> real, sin: real -> real, pi: real, a: real)
    requires IsTrig(cos, sin, pi)
    ensures cos(2.0 * a) == SMul(cos(a), cos(a)) - SMul(sin(a), sin(a))
    ensures sin(2.0 * a) == SMul(sin(a), cos(a)) + SMul(cos(a), sin(a))
  {
    hide SMul;
    assert AddsUp(cos, sin, a, a);
    assert a + a == 2.0 * a;
  }

  /** sin^2(a) + sin^2(pi/2 - a) = 1, which the window of denoise.c rests on. */
  lemma Complement(cos: real -> real, sin: real -> real, pi: real, a: real)
    requires IsTrig(cos, sin, pi)
    ensures SMul(sin(a), sin(a)) + SMul(sin(0.5 * pi - a), sin(0.5 * pi - a)) == 1.0
  {
    hide SMul;
    assert Mirrors(cos, sin, a) && AddsUp(cos, sin, 0.5 * pi, -a) && AddsUp(cos, sin, a, -a);
    SMulUnit(cos(a));
    SMulUnit(-sin(a));
    SMulSign(sin(a), sin(a));
    assert 0.5 * pi + -a == 0.5 * pi - a && a + -a == 0.0;
  }

  /** (-2 pi / nfft) i. */
  function Phase(pi: real, n: nat, i: int): real
    requires n > 0
  {
    SMul(-2.0 * pi / n as real, i as real)
  }

  lemma PhaseAdd(pi: real, n: nat, i: int, j: int)
    requires n > 0
    ensures Phase(pi, n, i) + Phase(pi, n, j) == Phase(pi, n, i + j) && Phase(pi, n, -i) == -Phase(pi, n, i)
  {
    hide SMul;
    SMulLinear(i as real, j as real, -2.0 * pi / n as real);
    SMulSign(-2.0 * pi / n as real, i as real);
    assert (i + j) as real == i as real + j as real && (-i) as real == -(i as real);
  }

  /** n steps are a whole turn, a quarter of them a quarter turn, and so on. */
  lemma PhaseParts(pi: real, n: nat, q: nat, parts: nat)
    requires n > 0 && parts > 0 && n == parts * q
    ensures parts as real * Phase(pi, n, q) == -2.0 * pi && Phase(pi, n, 0) == 0.0
  {
    var u := -2.0 * pi / n as real;
    assert u * n as real == -2.0 * pi;
    assert n as real == parts as real * q as real;
    Swapped(parts as real, u, q as real);
  }

  lemma Swapped(p: real, u: real, q: real)
    ensures p * SMul(u, q) == u * (p * q)
  {
  }

  lemma PhaseInside(pi: real, n: nat, k: nat)
    requires pi > 0.0 && 0 < k < n
    ensures 0.0 < -Phase(pi, n, k) < 2.0 * pi
  {
    PhaseParts(pi, n, n, 1);
    PhaseAdd(pi, n, k, n - k);
    NegativePhase(pi, n, k);
    NegativePhase(pi, n, n - k);
  }

  lemma NegativePhase(pi: real, n: nat, k: nat)
    requires pi > 0.0 && n > 0 && k > 0
    ensures Phase(pi, n, k) < 0.0
  {
    var u, w := 2.0 * pi / n as real, k as real;
    assert u * n as real == 2.0 * pi;
    assert u <= 0.0 ==> u * n as real <= 0.0;
    assert -2.0 * pi / n as real == -u;
    Product(u, w);
  }

  lemma Product(u: real, w: real)
    requires u > 0.0 && w > 0.0
    ensures SMul(-u, w) < 0.0
  {
  }

  /** Entry i of the table. */
  function Entry(cos: real -> real, sin: real -> real, pi: real, n: nat, i: int): Cpx
    requires n > 0
  {
    Exp(cos, sin, Phase(pi, n, i))
  }

  lemma WholeTurn(cos: real -> real, sin: real -> real, pi: real, n: nat, i: int)
    requires IsTrig(cos, sin, pi) && n > 0
    ensures Entry(cos, sin, pi, n, i + n) == Entry(cos, sin, pi, n, i)
  {
    hide IsTrig, Phase, Exp, Mul;
    PhaseAdd(pi, n, i, n);
    PhaseParts(pi, n, n, 1);
    Turns(cos, sin, pi);
    ExpAdd(cos, sin, pi, Phase(pi, n, i), Phase(pi, n, n));
    MulOne(Exp(cos, sin, Phase(pi, n, i)));
  }

  lemma EntryProduct(cos: real -> real, sin: real -> real, pi: real, n: nat, i: nat, j: nat)
    requires IsTrig(cos, sin, pi) && i < n && j < n
    ensures Mul(Entry(cos, sin, pi, n, i), Entry(cos, sin, pi, n, j)) == Entry(cos, sin, pi, n, (i + j) % n)
  {
    hide IsTrig, Phase, Exp, Mul;
    PhaseAdd(pi, n, i, j);
    ExpAdd(cos, sin, pi, Phase(pi, n, i), Phase(pi, n, j));
    Arith.DivModUnique(i + j, n, if i + j >= n then 1 else 0, if i + j >= n then i + j - n else i + j);
    if i + j >= n {
      WholeTurn(cos, sin, pi, n, i + j - n);
    }
  }

  lemma EntryConj(cos: real -> real, sin: real -> real, pi: real, n: nat, k: int)
    requires IsTrig(cos, sin, pi) && 0 <= k < n
    ensures Conj(Entry(cos, sin, pi, n, k)) == Entry(cos, sin, pi, n, (-k) % n)
  {
    hide IsTrig, Phase, Exp, Conj;
    ExpConj(cos, sin, pi, Phase(pi, n, k));
    PhaseAdd(pi, n, k, 0);
    Arith.DivModUnique(-k, n, if k == 0 then 0 else -1, if k == 0 then 0 else n - k);
    if k > 0 {
      WholeTurn(cos, sin, pi, n, -k);
    }
  }

  lemma EntryNotOne(cos: real -> real, sin: real -> real, pi: real, n: nat, k: nat)
    requires IsTrig(cos, sin, pi) && 0 < k < n
    ensures Entry(cos, sin, pi, n, k) != One
  {
    hide Phase;
    PhaseInside(pi, n, k);
    var a := -Phase(pi, n, k);
    assert NoWholeTurn(cos, pi, a) && Mirrors(cos, sin, a);
  }

  lemma EntryParts(cos: real -> real, sin: real -> real, pi: real, n: nat)
    requires IsTrig(cos, sin, pi) && n > 0
    ensures Entry(cos, sin, pi, n, 0) == One
    ensures n % 4 == 0 ==> Entry(cos, sin, pi, n, n / 4) == Cpx(0.0, -1.0)
    ensures n % 8 == 0 ==> Entry(cos, sin, pi, n, n / 8) == Cpx(cos(0.25 * pi), -cos(0.25 * pi))
  {
    hide IsTrig, Phase, Exp;
    Turns(cos, sin, pi);
    PhaseParts(pi, n, n, 1);
    if n % 4 == 0 {
      PhaseParts(pi, n, n / 4, 4);
    }
    if n % 8 == 0 {
      PhaseParts(pi, n, n / 8, 8);
    }
  }

  lemma TableOf(cos: real -> real, sin: real -> real, pi: real, t: seq<Cpx>)
    requires IsTrig(cos, sin, pi) && |t| > 0
    requires forall i :: 0 <= i < |t| ==> t[i] == Entry(cos, sin, pi, |t|, i)
    ensures IsTwiddleTable(t, cos(0.25 * pi))
  {
    hide IsTrig, Entry, Mul, Conj;
    var n := |t|;
    EntryParts(cos, sin, pi, n);
    forall i, j | 0 <= i < n && 0 <= j < n
      ensures Mul(t[i], t[j]) == t[(i + j) % n]
    {
      EntryProduct(cos, sin, pi, n, i, j);
    }
    forall k | 0 <= k < n
      ensures Conj(t[k]) == t[(-k) % n] && (k > 0 ==> t[k] != One)
    {
      EntryConj(cos, sin, pi, n, k);
      if k > 0 {
        EntryNotOne(cos, sin, pi, n, k);
      }
    }
  }

  /** The root of unity exp(-2 pi sqrt(-1) e / n). */
  function Turn(cos: real -> real, sin: real -> real, pi: real, n: nat, e: int): Cpx
    requires n > 0
  {
    Cpx(cos(-2.0 * pi * e as real / n as real), sin(-2.0 * pi * e as real / n as real))
  }

  ghost predicate HoldsTurns(cos: real -> real, sin: real -> real, pi: real, t: seq<Cpx>)
  {
    forall i {:trigger t[i]} :: 0 <= i < |t| ==> t[i] == Turn(cos, sin, pi, |t|, i)
  }

  lemma TurnsOf(cos: real -> real, sin: real -> real, pi: real, t: seq<Cpx>)
    requires |t| > 0 && forall i :: 0 <= i < |t| ==> t[i] == Entry(cos, sin, pi, |t|, i)
    ensures HoldsTurns(cos, sin, pi, t)
  {
    hide Entry, Turn;
    forall i | 0 <= i < |t|
      ensures t[i] == Turn(cos, sin, pi, |t|, i)
    {
      EntryIs(cos, sin, pi, |t|, i);
    }
  }

  lemma PhaseAngle(pi: real, n: nat, i: int)
    requires n > 0
    ensures Phase(pi, n, i) == -2.0 * pi * i as real / n as real
  {
    var u := -2.0 * pi / n as real;
    assert u * n as real == -2.0 * pi;
    assert (u * i as real) * n as real == (u * n as real) * i as real;
  }

  /** q whole turns further. */
  lemma {:induction false} WholeTurns(cos: real -> real, sin: real -> real, pi: real, n: nat, i: int, q: nat)
    requires IsTrig(cos, sin, pi) && n > 0
    ensures Entry(cos, sin, pi, n, i + q * n) == Entry(cos, sin, pi, n, i)
  {
    hide IsTrig, Entry;
    if q > 0 {
      WholeTurns(cos, sin, pi, n, i, q - 1);
      WholeTurn(cos, sin, pi, n, i + (q - 1) * n);
      assert i + (q - 1) * n + n == i + q * n;
    }
  }

  /** The table read at any exponent, as the transform reads it, is the root of unity with that exponent. */
  lemma TurnAt(cos: real -> real, sin: real -> real, pi: real, t: seq<Cpx>, e: int)
    requires IsTrig(cos, sin, pi) && |t| > 0 && HoldsTurns(cos, sin, pi, t)
    ensures W(t, e) == Turn(cos, sin, pi, |t|, e)
  {
    hide IsTrig, Turn, Entry;
    EntryAt(cos, sin, pi, |t|, e);
    EntryIs(cos, sin, pi, |t|, e);
    EntryIs(cos, sin, pi, |t|, e % |t|);
  }

  lemma EntryIs(cos: real -> real, sin: real -> real, pi: real, n: nat, i: int)
    requires n > 0
    ensures Entry(cos, sin, pi, n, i) == Turn(cos, sin, pi, n, i)
  {
    hide Phase;
    PhaseAngle(pi, n, i);
  }

  lemma EntryAt(cos: real -> real, sin: real -> real, pi: real, n: nat, e: int)
    requires IsTrig(cos, sin, pi) && n > 0
    ensures Entry(cos, sin, pi, n, e) == Entry(cos, sin, pi, n, e % n)
  {
    hide IsTrig, Entry;
    var q, r := e / n, e % n;
    if q >= 0 {
      assert e == r + q * n;
      WholeTurns(cos, sin, pi, n, r, q);
    } else {
      assert r == e + (-q) * n;
      WholeTurns(cos, sin, pi, n, e, -q);
    }
  }

  /** compute_twiddles (kiss_fft.c:406-421). */
  method ComputeTwiddles(cos: real -> real, sin: real -> real, pi: real, nfft: nat) returns (twiddles: array<Cpx>)
    requires IsTrig(cos, sin, pi) && nfft > 0
    ensures fresh(twiddles) && twiddles.Length == nfft && IsTwiddleTable(twiddles[..], cos(0.25 * pi))
    ensures HoldsTurns(cos, sin, pi, twiddles[..])
  {
    hide IsTrig, Phase, IsTwiddleTable, HoldsTurns;
    twiddles := new Cpx[nfft];
    var i := 0;
    while i < nfft
      invariant 0 <= i <= nfft
      invariant forall j :: 0 <= j < i ==> twiddles[j] == Entry(cos, sin, pi, nfft, j)
    {
      var phase := SMul(-2.0 * pi / nfft as real, i as real);
      PhaseIs(pi, nfft, i);
      twiddles[i] := Cpx(cos(phase), sin(phase));
      i := i + 1;
    }
    TableOf(cos, sin, pi, twiddles[..]);
    TurnsOf(cos, sin, pi, twiddles[..]);
  }

  lemma PhaseIs(pi: real, n: nat, i: int)
    requires n > 0
    ensures Phase(pi, n, i) == SMul(-2.0 * pi / n as real, i as real)
  {
  }
}
