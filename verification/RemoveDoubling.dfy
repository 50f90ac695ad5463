/** remove_doubling of pitch.c: is the pitch found really a multiple of the true period? */
module RemoveDoubling {
  import opened Arith
  import opened Reals
  import opened Correlation
  import opened BestPitch
  import opened Inequalities
  import opened PitchSearch

  const SECOND_CHECK: seq<nat> := [0, 0, 3, 2, 3, 2, 5, 2, 3, 2, 3, 2, 5, 2, 3, 2]

  // ---- Periods ----

  /** t0 / k to the nearest integer. */
  function Fraction(t0: nat, k: nat): nat
    requires k > 0
  {
    (2 * t0 + k) / (2 * k)
  }

  /** The second lag to check for the fraction 1/k. */
  function Partner(t0: nat, maxPeriod: nat, k: nat): nat
    requires 2 <= k <= 15
  {
    if k == 2 then if Fraction(t0, k) + t0 > maxPeriod then t0 else t0 + Fraction(t0, k)
    else (2 * SECOND_CHECK[k] * t0 + k) / (2 * k)
  }

  /** The second lag for 1/k is the multiple c/k of the period, to the nearest sample, with the smallest c above 1 that
      has no factor in common with k: a lag where a signal of period t0 / k correlates again and one of a longer
      period t0 / d, d a divisor of k, need not. */
  lemma SecondCheckCoprime(k: nat)
    requires 2 <= k <= 15
    ensures 1 < SECOND_CHECK[k] && Coprime(SECOND_CHECK[k], k)
    ensures forall c: nat :: 1 < c < SECOND_CHECK[k] ==> !Coprime(c, k)
  {
    var c := SECOND_CHECK[k];
    if c > 2 {
      assert Divides(2, 2) && Divides(2, k);
    }
    if c > 3 {
      assert Divides(3, 3) && Divides(3, k);
      assert Divides(2, 4);
    }
  }

  predicate Coprime(a: nat, b: nat)
  {
    forall d: nat :: 1 < d <= a ==> !(Divides(d, a) && Divides(d, b))
  }

  predicate Divides(d: nat, n: nat)
    requires d > 0
  {
    n % d == 0
  }

  lemma Nearest(a: nat, k: nat)
    requires k > 0
    ensures 2 * a - k < 2 * k * ((2 * a + k) / (2 * k)) <= 2 * a + k
  {
  }

  /** Both lags to the nearest sample; for k = 2 the second is 3/2 of the period if that lies in the history. */
  lemma LagsNearest(t0: nat, maxPeriod: nat, k: nat)
    requires 2 <= k <= 15
    ensures 2 * t0 - k < 2 * k * Fraction(t0, k) <= 2 * t0 + k
    ensures k > 2 ==> 2 * SECOND_CHECK[k] * t0 - k < 2 * k * Partner(t0, maxPeriod, k) <= 2 * SECOND_CHECK[k] * t0 + k
    ensures k == 2 ==> Partner(t0, maxPeriod, k) == if t0 + (t0 + 1) / 2 > maxPeriod then t0 else t0 + (t0 + 1) / 2
  {
    Nearest(t0, k);
    if k > 2 {
      var a := SECOND_CHECK[k] * t0;
      Nearest(a, k);
      assert 2 * SECOND_CHECK[k] * t0 == 2 * a;
    } else {
      HalfIs(t0);
    }
  }

  lemma HalfIs(t0: nat)
    ensures Fraction(t0, 2) == (t0 + 1) / 2
  {
  }

  lemma DivLower(a: nat, n: nat, q: nat)
    requires n > 0
    ensures q * n <= a <==> q <= a / n
  {
    if q > a / n {
      assert (a / n + 1) * n <= q * n;
    } else {
      assert q * n <= (a / n) * n;
    }
  }

  /** The fractions of a period shrink with k, so once one is too short all later ones are. */
  lemma FractionShrinks(t0: nat, k: nat)
    requires k > 0
    ensures Fraction(t0, k + 1) <= Fraction(t0, k)
  {
    var q := Fraction(t0, k + 1);
    DivLower(2 * t0 + (k + 1), 2 * (k + 1), q);
    Unfolded(q, k);
    DivLower(2 * t0 + k, 2 * k, q);
  }

  lemma Unfolded(q: nat, k: nat)
    ensures q * (2 * (k + 1)) == q * (2 * k) + 2 * q
  {
  }

  lemma {:induction false} FractionsShrink(t0: nat, k: nat, m: nat)
    requires 0 < k <= m
    ensures Fraction(t0, m) <= Fraction(t0, k)
    decreases m - k
  {
    hide Fraction;
    if k < m {
      FractionShrinks(t0, k);
      FractionsShrink(t0, k + 1, m);
    }
  }

  /** Every lag the loop looks at lies in the history. */
  lemma PartnerRange(t0: nat, maxPeriod: nat, k: nat)
    requires 2 <= k <= 15 && t0 <= maxPeriod
    ensures Fraction(t0, k) <= t0 && Partner(t0, maxPeriod, k) <= maxPeriod
  {
    FractionsShrink(t0, 1, k);
    assert Fraction(t0, 1) == t0;
    if k > 2 {
      var s := SECOND_CHECK[k];
      SecondCheckSmall(k);
      DivLower(2 * s * t0 + k, 2 * k, t0 + 1);
      PartnerFits(s, t0, k);
    }
  }

  lemma SecondCheckSmall(k: nat)
    requires 2 < k <= 15
    ensures SECOND_CHECK[k] < k
  {
  }

  lemma PartnerFits(s: nat, t0: nat, k: nat)
    requires s < k
    ensures (t0 + 1) * (2 * k) > 2 * s * t0 + k
  {
    assert s * t0 <= k * t0;
    assert (t0 + 1) * (2 * k) == 2 * (k * t0) + 2 * k;
    assert 2 * s * t0 == 2 * (s * t0);
  }

  // ---- Correlation bounds ----

  lemma {:induction false} Quadratic(x: seq<real>, a: int, y: seq<real>, b: int, n: nat, s: real, t: real)
    ensures Form(Dot(x, a, x, a, n), Dot(x, a, y, b, n), Dot(y, b, y, b, n), s, t) >= 0.0
  {
    hide SMul, RAt, Dot, Form;
    DotNext(x, a, x, a, 0);
    DotNext(x, a, y, b, 0);
    DotNext(y, b, y, b, 0);
    FormZero(s, t);
    if n > 0 {
      Quadratic(x, a, y, b, n - 1, s, t);
      DotNext(x, a, x, a, n - 1);
      DotNext(x, a, y, b, n - 1);
      DotNext(y, b, y, b, n - 1);
      FormStep(Dot(x, a, x, a, n - 1), Dot(x, a, y, b, n - 1), Dot(y, b, y, b, n - 1), s, t,
               RAt(x, a + (n - 1)), RAt(y, b + (n - 1)));
    }
  }

  /** The square of a correlation is at most the product of the energies. */
  lemma CauchySchwarz(x: seq<real>, a: int, y: seq<real>, b: int, n: nat)
    ensures SMul(Dot(x, a, y, b, n), Dot(x, a, y, b, n)) <= SMul(Dot(x, a, x, a, n), Dot(y, b, y, b, n))
  {
    hide SMul, Dot, Form;
    var X, P, Y := Dot(x, a, x, a, n), Dot(x, a, y, b, n), Dot(y, b, y, b, n);
    EnergyPositive(x, n, a);
    EnergyPositive(y, n, b);
    Quadratic(x, a, y, b, n, P, X);
    Quadratic(x, a, y, b, n, Y + 1.0, P);
    FromForms(X, P, Y);
  }

  /** The mean of two correlations against the mean of the energies. */
  lemma MeanBound(X: real, p: real, q: real, Y: real, Z: real)
    requires SMul(p, p) <= SMul(X, Y) && SMul(q, q) <= SMul(X, Z)
    ensures SMul(0.5 * (p + q), 0.5 * (p + q)) <= SMul(X, 0.5 * (Y + Z))
  {
    assert SMul(X, 0.5 * (Y + Z)) == 0.5 * (X * Y) + 0.5 * (X * Z);
    SMulSquare(p - q);
    assert (p - q) * (p - q) == p * p - 2.0 * (p * q) + q * q;
    assert (0.5 * (p + q)) * (0.5 * (p + q)) == 0.25 * (p * p) + 0.5 * (p * q) + 0.25 * (q * q);
  }

  // ---- Gains ----

  /** compute_pitch_gain (pitch.c:416-419). */
  function PitchGain(sqrt: real -> real, xy: real, xx: real, yy: real): (g: real)
    requires IsSqrt(sqrt) && xx >= 0.0 && yy >= 0.0
    ensures SMul(g, sqrt(1.0 + SMul(xx, yy))) == xy
  {
    RootPositive(sqrt, xx, yy);
    QuotientTimes(xy, sqrt(1.0 + SMul(xx, yy)));
    xy / sqrt(1.0 + SMul(xx, yy))
  }

  lemma QuotientTimes(a: real, b: real)
    requires b > 0.0
    ensures SMul(a / b, b) == a
  {
  }

  lemma RootPositive(sqrt: real -> real, xx: real, yy: real)
    requires IsSqrt(sqrt) && xx >= 0.0 && yy >= 0.0
    ensures sqrt(1.0 + SMul(xx, yy)) > 0.0 && SMul(xx, yy) >= 0.0
    ensures SMul(sqrt(1.0 + SMul(xx, yy)), sqrt(1.0 + SMul(xx, yy))) == 1.0 + SMul(xx, yy)
  {
    hide SMul;
    SMulNonNegative(xx, yy);
    RootOfPositive(sqrt, 1.0 + SMul(xx, yy));
  }

  lemma GainBelowOne(sqrt: real -> real, xy: real, xx: real, yy: real)
    requires IsSqrt(sqrt) && xx >= 0.0 && yy >= 0.0 && SMul(xy, xy) <= SMul(xx, yy)
    ensures -1.0 < PitchGain(sqrt, xy, xx, yy) < 1.0
  {
    RootPositive(sqrt, xx, yy);
    hide SMul;
    SmallerThanRoot(xy, sqrt(1.0 + SMul(xx, yy)));
  }

  // ---- The search over fractions of the period ----

  /** The halved arguments: n samples of x from at, the period t0 in question, what the previous frame answered. */
  datatype Query = Query(x: seq<real>, at: nat, n: nat, t0: nat, minPeriod: nat, maxPeriod: nat,
                         prevPeriod: nat, prevGain: real, sqrt: real -> real)

  ghost predicate IsQuery(e: Query)
  {
    e.t0 < e.maxPeriod <= e.at && e.at + e.n + Ahead(e.t0, e.minPeriod) <= |e.x| && IsSqrt(e.sqrt)
  }

  /** The samples read beyond the window: one when the period can come out as 0. */
  function Ahead(t0: nat, minPeriod: nat): nat
  {
    if t0 == 0 || minPeriod == 0 then 1 else 0
  }

  /** Energy of the window t samples back. */
  ghost function Energy(e: Query, t: int): (r: real)
    ensures r >= 0.0
  {
    EnergyPositive(e.x, e.n, e.at - t);
    Dot(e.x, e.at - t, e.x, e.at - t, e.n)
  }

  ghost function Cross(e: Query, t: int): real
  {
    Dot(e.x, e.at, e.x, e.at - t, e.n)
  }

  /** The correlation judged for the fraction 1/k; 1 stands for the period itself. */
  ghost function Xy(e: Query, k: nat): real
    requires 1 <= k <= 15
  {
    if k == 1 then Cross(e, e.t0)
    else 0.5 * (Cross(e, Fraction(e.t0, k)) + Cross(e, Partner(e.t0, e.maxPeriod, k)))
  }

  ghost function Yy(e: Query, k: nat): (r: real)
    requires 1 <= k <= 15
    ensures r >= 0.0
  {
    if k == 1 then Energy(e, e.t0)
    else 0.5 * (Energy(e, Fraction(e.t0, k)) + Energy(e, Partner(e.t0, e.maxPeriod, k)))
  }

  ghost function GainAt(e: Query, k: nat): real
    requires 1 <= k <= 15 && IsSqrt(e.sqrt)
  {
    PitchGain(e.sqrt, Xy(e, k), Energy(e, 0), Yy(e, k))
  }

  /** The credit for continuing the previous frame's pitch (pitch.c:484-489). */
  function Credit(t: int, t0: int, k: int, prevPeriod: int, prevGain: real): real
  {
    if Abs(t - prevPeriod) <= 1 then prevGain
    else if Abs(t - prevPeriod) <= 2 && 5 * k * k < t0 then 0.5 * prevGain
    else 0.0
  }

  function Max(a: real, b: real): real { if a > b then a else b }

  /** What a fraction of period t must beat. The third branch of the code (pitch.c:495-496) is never taken, because
      a period below twice the minimum is also below three times the minimum. */
  function Threshold(t: int, minPeriod: nat, g0: real, credit: real): real
  {
    if t < 3 * minPeriod then Max(0.4, SMul(0.85, g0) - credit) else Max(0.3, SMul(0.7, g0) - credit)
  }

  /** The fraction 1/k is long enough and correlates well enough. */
  ghost predicate Accepted(e: Query, k: nat)
    requires 1 <= k <= 15 && IsSqrt(e.sqrt)
  {
    var t := Fraction(e.t0, k);
    e.minPeriod <= t
    && GainAt(e, k) > Threshold(t, e.minPeriod, GainAt(e, 1), Credit(t, e.t0, k, e.prevPeriod, e.prevGain))
  }

  /** The smallest accepted fraction among 1/2 to 1/k, or 1 if there is none. */
  ghost function Winner(e: Query, k: nat): (w: nat)
    requires 1 <= k <= 15 && IsSqrt(e.sqrt)
    ensures 1 <= w <= k && (w > 1 ==> Accepted(e, w))
    ensures forall m {:trigger Accepted(e, m)} :: w < m <= k ==> !Accepted(e, m)
  {
    if k == 1 then 1 else if Accepted(e, k) then k else Winner(e, k - 1)
  }

  /** Leaving the loop at the first fraction that is too short loses nothing. */
  lemma {:induction false} BreakIsComplete(e: Query, k: nat, m: nat)
    requires 2 <= k <= m + 1 <= 16 && IsSqrt(e.sqrt)
    requires m >= k ==> Fraction(e.t0, k) < e.minPeriod
    ensures Winner(e, m) == Winner(e, k - 1)
  {
    hide Fraction, GainAt, Credit, Threshold;
    if m >= k {
      FractionsShrink(e.t0, k, m);
      BreakIsComplete(e, k, m - 1);
    }
  }

  /** What being accepted means in numbers: the gain has a floor, and it has to come up to a part of the gain at the
      original period, less a credit for continuing the pitch of the previous frame. */
  lemma AcceptedExactly(e: Query, k: nat)
    requires 2 <= k <= 15 && IsSqrt(e.sqrt)
    ensures
      var t, g0, g1 := Fraction(e.t0, k), GainAt(e, 1), GainAt(e, k);
      var near := if t > e.prevPeriod then t - e.prevPeriod else e.prevPeriod - t;
      var credit := if near <= 1 then e.prevGain
                    else if near == 2 && 5 * (k * k) < e.t0 then e.prevGain / 2.0 else 0.0;
      Accepted(e, k) <==>
        e.minPeriod <= t
        && if t < 3 * e.minPeriod then g1 > 0.4 && g1 + credit > 0.85 * g0
           else g1 > 0.3 && g1 + credit > 0.7 * g0
  {
    hide GainAt, Fraction;
    assert 5 * k * k == 5 * (k * k);
  }

  /** The gain the chosen correlation is worth (pitch.c:505-520). */
  function FinalGain(bestXy: real, bestYy: real, g: real): (pg: real)
    requires bestYy >= 0.0
    ensures pg <= g && pg <= 1.0 && (g >= 0.0 ==> pg >= 0.0) && (g < 0.0 ==> pg == g)
  {
    var xy := Max(0.0, bestXy);
    var pg := if bestYy <= xy then 1.0 else (GainRange(xy, bestYy); xy / (bestYy + 1.0));
    if pg > g then g else pg
  }

  /** The final gain is the smaller of g and the ratio of correlation to energy plus one, which counts as 1 when the
      correlation is no less than the energy, and as 0 when it is negative. */
  lemma FinalGainIs(xy: real, yy: real, g: real)
    requires yy >= 0.0
    ensures
      var pg := FinalGain(xy, yy, g);
      var floored := if xy < 0.0 then 0.0 else xy;
      && (yy <= floored ==> pg == if g <= 1.0 then g else 1.0)
      && (yy > floored ==>
            && (pg == g || SMul(pg, yy + 1.0) == floored)
            && pg <= g && SMul(pg, yy + 1.0) <= floored)
  {
    var floored := if xy < 0.0 then 0.0 else xy;
    if yy > floored {
      QuotientTimes(floored, yy + 1.0);
      var cap := floored / (yy + 1.0);
      if g <= cap {
        assert (cap - g) * (yy + 1.0) >= 0.0;
        assert (cap - g) * (yy + 1.0) == cap * (yy + 1.0) - g * (yy + 1.0);
      }
    }
  }

  /** The window is the same as the one t samples back. */
  ghost predicate RepeatsAfter(e: Query, t: int)
  {
    forall j :: 0 <= j < e.n ==> SameAfter(e, t, j)
  }

  ghost predicate SameAfter(e: Query, t: int, j: int)
  {
    RAt(e.x, e.at - t + j) == RAt(e.x, e.at + j)
  }

  lemma RepeatedCross(e: Query, t: int)
    requires RepeatsAfter(e, t)
    ensures Cross(e, t) == Energy(e, t) == Energy(e, 0)
  {
    hide SMul, RAt;
    assert e.at - 0 == e.at;
    var cross := (j: int) => SMul(RAt(e.x, e.at + j), RAt(e.x, e.at - t + j));
    var back := (j: int) => SMul(RAt(e.x, e.at - t + j), RAt(e.x, e.at - t + j));
    var here := (j: int) => SMul(RAt(e.x, e.at + j), RAt(e.x, e.at + j));
    forall j | 0 <= j < e.n
      ensures cross(j) == here(j) && back(j) == here(j)
    {
      assert SameAfter(e, t, j);
    }
    RSumCong(e.n, cross, here);
    RSumCong(e.n, back, here);
    DotIs(e.x, e.at, e.at - t, e.n);
    DotIs(e.x, e.at - t, e.at - t, e.n);
    DotIs(e.x, e.at, e.at, e.n);
  }

  lemma DotIs(x: seq<real>, a: int, b: int, n: nat)
    ensures Dot(x, a, x, b, n) == RSum(n, j => SMul(RAt(x, a + j), RAt(x, b + j)))
  {
  }

  /** A periodic signal keeps its gain: if the window repeats after both lags of the fraction that wins, the gain
      answered is E / sqrt(1 + E^2) for the energy E of the window. */
  lemma PeriodicGain(e: Query, minPeriod: int)
    requires IsSqrt(e.sqrt)
    requires
      var k := Winner(e, 15);
      RepeatsAfter(e, Fraction(e.t0, k)) && (k > 1 ==> RepeatsAfter(e, Partner(e.t0, e.maxPeriod, k)))
    ensures
      var gain, E := Answer(e, minPeriod).1, Energy(e, 0);
      SMul(gain, e.sqrt(1.0 + SMul(E, E))) == E && gain >= 0.0 && (E > 0.0 ==> gain > 0.0)
  {
    hide SMul, RepeatsAfter, Cross, Energy, PitchGain, Fraction, Partner, FinalGain;
    var k := Winner(e, 15);
    WholePeriod(e.t0);
    RepeatedCross(e, Fraction(e.t0, k));
    if k > 1 {
      RepeatedCross(e, Partner(e.t0, e.maxPeriod, k));
    }
    var E := Energy(e, 0);
    GainsBelowOne(e, k);
    FinalGainIs(E, E, GainAt(e, k));
    AnswerIs(e, minPeriod);
    GainSign(e.sqrt, E, GainAt(e, k));
  }

  lemma GainSign(sqrt: real -> real, E: real, g: real)
    requires IsSqrt(sqrt) && E >= 0.0 && SMul(g, sqrt(1.0 + SMul(E, E))) == E
    ensures g >= 0.0 && (E > 0.0 ==> g > 0.0)
  {
    RootPositive(sqrt, E, E);
    var r := sqrt(1.0 + SMul(E, E));
    assert g < 0.0 ==> g * r < 0.0;
  }

  /** The three correlations around the chosen period lie on a parabola with its top d samples behind it: the answer
      moves by one when d is more than 7/26 of a sample, towards the top, and stops at the smallest period allowed. */
  lemma PeriodMoves(e: Query, minPeriod: int, h: real, a: real, d: real)
    requires IsSqrt(e.sqrt) && a > 0.0
    requires
      var T := Fraction(e.t0, Winner(e, 15));
      && Cross(e, T - 1) == Parabola(h, a, d, -1.0) && Cross(e, T) == Parabola(h, a, d, 0.0)
      && Cross(e, T + 1) == Parabola(h, a, d, 1.0)
    ensures
      var T := Fraction(e.t0, Winner(e, 15));
      var t := if 26.0 * d > 7.0 then 2 * T + 1 else if 26.0 * d < -7.0 then 2 * T - 1 else 2 * T;
      Answer(e, minPeriod).0 == if t < minPeriod then minPeriod else t
  {
    hide Cross, Fraction, Winner, FinalGain, GainAt, Xy, Yy, Parabola, Interpolate;
    InterpolateParabola(h, a, d);
  }

  lemma GainRange(xy: real, yy: real)
    requires 0.0 <= xy < yy
    ensures 0.0 <= xy / (yy + 1.0) <= 1.0
  {
    var r := xy / (yy + 1.0);
    assert xy == r * (yy + 1.0);
    assert r < 0.0 ==> r * (yy + 1.0) < 0.0;
    assert r > 1.0 ==> r * (yy + 1.0) > yy + 1.0;
  }

  ghost function Offset(e: Query, t: int): int
  {
    Interpolate(Cross(e, t - 1), Cross(e, t), Cross(e, t + 1))
  }

  /** The period and gain that remove_doubling answers. */
  ghost function Answer(e: Query, minPeriod: int): (int, real)
    requires IsSqrt(e.sqrt)
  {
    var k := Winner(e, 15);
    var t := 2 * Fraction(e.t0, k) + Offset(e, Fraction(e.t0, k));
    (if t < minPeriod then minPeriod else t, FinalGain(Xy(e, k), Yy(e, k), GainAt(e, k)))
  }

  lemma GainsBelowOne(e: Query, k: nat)
    requires 1 <= k <= 15 && IsSqrt(e.sqrt)
    ensures -1.0 < GainAt(e, k) < 1.0
  {
    hide SMul, Dot, Fraction, Partner;
    CauchySchwarz(e.x, e.at, e.x, e.at - e.t0, e.n);
    assert e.at - 0 == e.at;
    if k > 1 {
      var t, u := Fraction(e.t0, k), Partner(e.t0, e.maxPeriod, k);
      CauchySchwarz(e.x, e.at, e.x, e.at - t, e.n);
      CauchySchwarz(e.x, e.at, e.x, e.at - u, e.n);
      MeanBound(Energy(e, 0), Cross(e, t), Cross(e, u), Energy(e, t), Energy(e, u));
    }
    GainBelowOne(e.sqrt, Xy(e, k), Energy(e, 0), Yy(e, k));
  }

  /** The answer is a usable period and a gain strictly between -1 and 1, and the gain is negative exactly when the
      original period was kept although it correlates negatively. */
  lemma AnswerRange(e: Query, minPeriod: nat)
    requires IsQuery(e) && e.minPeriod == minPeriod / 2
    ensures
      var (period, gain) := Answer(e, minPeriod);
      && minPeriod <= period && (period <= minPeriod || period <= 2 * e.maxPeriod - 1)
      && -1.0 < gain < 1.0
      && (gain < 0.0 <==> Winner(e, 15) == 1 && GainAt(e, 1) < 0.0)
  {
    hide GainAt, Xy, Yy, Fraction, Interpolate;
    var k := Winner(e, 15);
    GainsBelowOne(e, k);
    FractionsShrink(e.t0, 1, k);
    WholePeriod(e.t0);
    OffsetSmall(e, Fraction(e.t0, k));
    if k > 1 {
      AcceptedPositive(e, k);
    }
  }

  lemma WholePeriod(t0: nat)
    ensures Fraction(t0, 1) == t0
  {
  }

  lemma OffsetSmall(e: Query, t: int)
    ensures -1 <= Offset(e, t) <= 1
  {
    hide Cross, SMul;
  }

  lemma AcceptedPositive(e: Query, k: nat)
    requires 1 <= k <= 15 && IsSqrt(e.sqrt) && Accepted(e, k)
    ensures GainAt(e, k) > 0.3
  {
    hide GainAt, Credit, SMul;
  }

  // ---- The code ----

  /** The table of window energies (pitch.c:446-454): each is exact, so the clamp at zero never acts. */
  method EnergyTable(x: array<real>, maxPeriod: nat, N: nat, xx: real, ghost e: Query) returns (lookup: array<real>)
    requires maxPeriod + N <= x.Length && e.x == x[..] && e.at == maxPeriod && e.n == N && xx == Energy(e, 0)
    ensures fresh(lookup) && lookup.Length == maxPeriod + 1
    ensures forall i :: 0 <= i <= maxPeriod ==> lookup[i] == Energy(e, i)
  {
    hide SMul, Dot;
    lookup := new real[maxPeriod + 1];
    lookup[0] := xx;
    var yy := xx;
    var i := 1;
    while i <= maxPeriod
      invariant 1 <= i <= maxPeriod + 1 && yy == Energy(e, i - 1)
      invariant forall k :: 0 <= k < i ==> lookup[k] == Energy(e, k)
      modifies lookup
    {
      EnergySlide(e.x, N, maxPeriod - i);
      assert maxPeriod - i + 1 == e.at - (i - 1);
      yy := yy + SMul(x[maxPeriod - i], x[maxPeriod - i]) - SMul(x[maxPeriod + N - i], x[maxPeriod + N - i]);
      lookup[i] := if 0.0 > yy then 0.0 else yy;
      i := i + 1;
    }
  }

  /** One fraction of the loop (pitch.c:469-496): what it correlates to and what it has to beat. */
  method Examine(x: array<real>, lookup: array<real>, k: nat, g0: real, ghost e: Query,
                 at: nat, N: nat, T0: nat, minPeriod: nat, maxPeriod: nat, prevPeriod: nat, prevGain: real,
                 sqrt: real -> real, xx: real)
      returns (xy: real, yy: real, g1: real, thresh: real)
    requires IsQuery(e) && 2 <= k <= 15 && g0 == GainAt(e, 1) && xx == Energy(e, 0)
    requires e == Query(x[..], at, N, T0, minPeriod, maxPeriod, prevPeriod, prevGain, sqrt)
    requires minPeriod <= Fraction(T0, k)
    requires lookup.Length == maxPeriod + 1 && forall i :: 0 <= i <= maxPeriod ==> lookup[i] == Energy(e, i)
    ensures yy >= 0.0 && xy == Xy(e, k) && yy == Yy(e, k) && g1 == GainAt(e, k)
    ensures xy + xy == Dot(x[..], at, x[..], at - Fraction(T0, k), N)
                       + Dot(x[..], at, x[..], at - Partner(T0, maxPeriod, k), N)
    ensures g1 > thresh <==> Accepted(e, k)
  {
    hide SMul, Dot, Energy, PitchGain, Fraction, Partner;
    PartnerRange(T0, maxPeriod, k);
    var T1 := Fraction(T0, k);
    var T1b := Partner(T0, maxPeriod, k);
    var xy2;
    xy, xy2 := DualInnerProd(x, at, x, at - T1, x, at - T1b, N);
    xy := 0.5 * (xy + xy2);
    yy := 0.5 * (lookup[T1] + lookup[T1b]);
    g1 := PitchGain(sqrt, xy, xx, yy);
    var cont := Credit(T1, T0, k, prevPeriod, prevGain);
    thresh := Max(0.3, SMul(0.7, g0) - cont);
    if T1 < 3 * minPeriod {
      thresh := Max(0.4, SMul(0.85, g0) - cont);
    } else if T1 < 2 * minPeriod {
      thresh := Max(0.5, SMul(0.9, g0) - cont);
    }
  }

  /** remove_doubling (pitch.c:423-526) in the float configuration; *T0_ enters as T0 and leaves as period. */
  method RemoveDoubling(x: array<real>, maxperiod: nat, minperiod: nat, N0: nat, T0: nat, prevperiod: nat,
                        prevGain: real,
                        sqrt: real -> real) returns (period: int, pg: real, ghost e: Query)
    requires IsSqrt(sqrt) && maxperiod >= 2
    requires maxperiod / 2 + N0 / 2 + (if T0 < 2 || minperiod < 2 || maxperiod < 4 then 1 else 0) <= x.Length
    ensures e == Query(x[..], maxperiod / 2, N0 / 2, if T0 / 2 >= maxperiod / 2 then maxperiod / 2 - 1 else T0 / 2,
                       minperiod / 2, maxperiod / 2, prevperiod / 2, prevGain, sqrt)
    ensures IsQuery(e) && (period, pg) == Answer(e, minperiod)
    ensures minperiod <= period <= (if minperiod > maxperiod - 1 then minperiod else maxperiod - 1) && -1.0 < pg < 1.0
  {
    hide *;
    var maxPeriod, minPeriod, prevPeriod, N := maxperiod / 2, minperiod / 2, prevperiod / 2, N0 / 2;
    var t0 := if T0 / 2 >= maxPeriod then maxPeriod - 1 else T0 / 2;
    e := Query(x[..], maxPeriod, N, t0, minPeriod, maxPeriod, prevPeriod, prevGain, sqrt);
    QueryOk(e);
    var T := t0;
    var xx, xy := DualInnerProd(x, maxPeriod, x, maxPeriod, x, maxPeriod - t0, N);
    Names(e);
    var lookup := EnergyTable(x, maxPeriod, N, xx, e);
    var yy := lookup[t0];
    var bestXy, bestYy := xy, yy;
    var g0 := PitchGain(sqrt, xy, xx, yy);
    var g := g0;
    var k := 2;
    WinnerStep(e, 1);
    while k <= 15
      invariant 2 <= k <= 16
      invariant Held(e, Winner(e, k - 1), T, g, bestXy, bestYy)
      modifies {}
    {
      var T1 := Fraction(t0, k);
      if T1 < minPeriod {
        break;
      }
      var xyK, yyK, g1, thresh := Examine(x, lookup, k, g0, e, maxPeriod, N, t0, minPeriod,
                                  maxPeriod, prevPeriod, prevGain, sqrt, xx);
      WinnerStep(e, k);
      HeldHere(e, k);
      if g1 > thresh {
        bestXy := xyK;
        bestYy := yyK;
        T := T1;
        g := g1;
      }
      k := k + 1;
    }
    BreakIsComplete(e, k, 15);
    HeldFacts(e, Winner(e, 15), T, g, bestXy, bestYy);
    pg := FinalGain(bestXy, bestYy, g);
    var x0 := InnerProd(x, maxPeriod, x, maxPeriod - (T - 1), N);
    var x1 := InnerProd(x, maxPeriod, x, maxPeriod - T, N);
    var x2 := InnerProd(x, maxPeriod, x, maxPeriod - (T + 1), N);
    period := 2 * T + Interpolate(x0, x1, x2);
    OffsetIs(e, T);
    period := if period < minperiod then minperiod else period;
    AnswerIs(e, minperiod);
    AnswerRange(e, minperiod);
  }

  lemma QueryOk(e: Query)
    requires e.t0 < e.maxPeriod <= e.at && IsSqrt(e.sqrt)
    requires e.at + e.n + (if e.t0 == 0 || e.minPeriod == 0 then 1 else 0) <= |e.x|
    ensures IsQuery(e)
  {
  }

  lemma Names(e: Query)
    requires IsSqrt(e.sqrt)
    ensures Energy(e, 0) == Dot(e.x, e.at, e.x, e.at, e.n) && Cross(e, e.t0) == Dot(e.x, e.at, e.x, e.at - e.t0, e.n)
    ensures Energy(e, 0) >= 0.0 && Energy(e, e.t0) >= 0.0
    ensures Xy(e, 1) == Cross(e, e.t0) && Yy(e, 1) == Energy(e, e.t0)
    ensures GainAt(e, 1) == PitchGain(e.sqrt, Cross(e, e.t0), Energy(e, 0), Energy(e, e.t0))
  {
    hide Dot, PitchGain;
    assert e.at - 0 == e.at;
  }

  /** The local variables of the code hold the values of fraction 1/w. */
  ghost predicate Held(e: Query, w: nat, T: int, g: real, xy: real, yy: real)
    requires 1 <= w <= 15 && IsSqrt(e.sqrt)
  {
    (w > 1 ==> e.minPeriod <= Fraction(e.t0, w))
    && T == Fraction(e.t0, w) && g == GainAt(e, w) && xy == Xy(e, w) && yy == Yy(e, w)
  }

  lemma HeldHere(e: Query, k: nat)
    requires 1 <= k <= 15 && IsSqrt(e.sqrt) && (k > 1 ==> e.minPeriod <= Fraction(e.t0, k))
    ensures Held(e, k, Fraction(e.t0, k), GainAt(e, k), Xy(e, k), Yy(e, k))
  {
  }

  lemma WinnerStep(e: Query, k: nat)
    requires 1 <= k <= 15 && IsSqrt(e.sqrt)
    ensures Winner(e, 1) == 1
    ensures Winner(e, k) == if k == 1 then 1 else if Accepted(e, k) then k else Winner(e, k - 1)
    ensures Held(e, 1, e.t0, GainAt(e, 1), Xy(e, 1), Yy(e, 1))
  {
    hide Accepted, GainAt, Xy, Yy;
    WholePeriod(e.t0);
  }

  lemma HeldFacts(e: Query, w: nat, T: int, g: real, xy: real, yy: real)
    requires IsQuery(e) && 1 <= w <= 15 && Held(e, w, T, g, xy, yy)
    ensures 0 <= T <= e.t0 < e.maxPeriod && yy >= 0.0 && (T == 0 ==> e.at + e.n + 1 <= |e.x|)
    ensures T == Fraction(e.t0, w) && g == GainAt(e, w) && xy == Xy(e, w) && yy == Yy(e, w)
  {
    hide Fraction, GainAt, Xy, Yy;
    FractionsShrink(e.t0, 1, w);
    WholePeriod(e.t0);
  }

  lemma OffsetIs(e: Query, t: int)
    ensures Offset(e, t) == Interpolate(Dot(e.x, e.at, e.x, e.at - (t - 1), e.n), Dot(e.x, e.at, e.x, e.at - t, e.n),
                                        Dot(e.x, e.at, e.x, e.at - (t + 1), e.n))
  {
    hide Dot, Interpolate;
  }

  lemma AnswerIs(e: Query, minPeriod: int)
    requires IsSqrt(e.sqrt)
    ensures
      var k := Winner(e, 15);
      var t := 2 * Fraction(e.t0, k) + Offset(e, Fraction(e.t0, k));
      Answer(e, minPeriod) == (if t < minPeriod then minPeriod else t, FinalGain(Xy(e, k), Yy(e, k), GainAt(e, k)))
  {
    hide Fraction, Xy, Yy, GainAt, Offset, FinalGain;
  }
}
