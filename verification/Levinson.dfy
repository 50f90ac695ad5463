/** _celt_lpc of celt_lpc.c: the in-place Levinson-Durbin recursion. */
module Levinson {
  import opened Arith
  import opened Reals

  ghost function Term(a: seq<real>, R: seq<real>, k: int, j: int): real
  {
    SMul(RAt(a, j), RAt(R, Abs(k - j)))
  }

  /** Row k of the product of the m x m Toeplitz matrix of R with a[0..m). */
  ghost function Row(a: seq<real>, R: seq<real>, m: nat, k: int): real
  {
    RSum(m, j => Term(a, R, k, j))
  }

  /** a[0..m) solves the normal equations of order m. */
  ghost predicate Solves(a: seq<real>, R: seq<real>, m: nat)
  {
    forall k :: 0 <= k < m ==> RowHolds(a, R, m, k)
  }

  ghost predicate RowHolds(a: seq<real>, R: seq<real>, m: nat, k: int)
  {
    Row(a, R, m, k) == -RAt(R, k + 1)
  }

  /** The prediction error of a[0..m): R[0] + a[0] R[1] + ... + a[m-1] R[m]. */
  ghost function PredictionError(a: seq<real>, R: seq<real>, m: nat): real
  {
    RAt(R, 0) + Row(a, R, m, -1)
  }

  /** The coefficients after one more reflection by r. */
  ghost function Reflected(a: seq<real>, m: nat, r: real): (b: seq<real>)
    requires m < |a|
    ensures |b| == |a|
    ensures forall j {:trigger b[j]} :: 0 <= j < m ==> b[j] == a[j] + SMul(r, a[m - 1 - j])
    ensures b[m] == r && forall j {:trigger b[j]} :: m < j < |a| ==> b[j] == a[j]
  {
    seq(|a|, j requires 0 <= j < |a| => if j < m then a[j] + SMul(r, a[m - 1 - j]) else if j == m then r else a[j])
  }

  ghost function BackTerm(a: seq<real>, R: seq<real>, m: nat, k: int, j: int): real
  {
    SMul(RAt(a, m - 1 - j), RAt(R, Abs(k - j)))
  }

  /** The reversed coefficients read the matrix backwards. */
  lemma RowReversed(a: seq<real>, R: seq<real>, m: nat, k: int)
    ensures RSum(m, j => BackTerm(a, R, m, k, j)) == Row(a, R, m, m - 1 - k)
  {
    hide SMul, RAt;
    var f := (j: int) => Term(a, R, m - 1 - k, j);
    forall j
      ensures BackTerm(a, R, m, k, j) == f(m - 1 - j)
    {
      assert Abs(m - 1 - k - (m - 1 - j)) == Abs(k - j);
    }
    hide BackTerm, Term;
    RSumReverse(m, f);
    RSumCong(m, f, j => Term(a, R, m - 1 - k, j));
    RSumCong(m, j => BackTerm(a, R, m, k, j), j => f(m - 1 - j));
  }

  lemma ReflectedTerm(a: seq<real>, R: seq<real>, m: nat, r: real, k: int, j: int)
    requires m < |a| && 0 <= j < m
    ensures Term(Reflected(a, m, r), R, k, j) == Term(a, R, k, j) + SMul(r, BackTerm(a, R, m, k, j))
  {
    hide SMul;
    SMulLinear(a[j], SMul(r, a[m - 1 - j]), RAt(R, Abs(k - j)));
    SMulAssoc(r, a[m - 1 - j], RAt(R, Abs(k - j)));
  }

  /** A row of the reflected coefficients in terms of two rows of the old ones. */
  lemma ReflectedRow(a: seq<real>, R: seq<real>, m: nat, r: real, k: int)
    requires m < |a|
    ensures Row(Reflected(a, m, r), R, m + 1, k)
         == Row(a, R, m, k) + SMul(r, Row(a, R, m, m - 1 - k)) + SMul(r, RAt(R, Abs(k - m)))
  {
    hide SMul, Row, Term, BackTerm, RAt;
    var b := Reflected(a, m, r);
    RowNext(b, R, m, k);
    forall j | 0 <= j < m
      ensures Term(b, R, k, j) == Term(a, R, k, j) + SMul(r, BackTerm(a, R, m, k, j))
    {
      ReflectedTerm(a, R, m, r, k, j);
    }
    RSumCombine(m, j => Term(b, R, k, j), j => Term(a, R, k, j), j => BackTerm(a, R, m, k, j), r);
    RowIs(b, R, m, k);
    RowIs(a, R, m, k);
    RowReversed(a, R, m, k);
  }

  lemma RowIs(a: seq<real>, R: seq<real>, m: nat, k: int)
    ensures Row(a, R, m, k) == RSum(m, j => Term(a, R, k, j))
  {
  }

  lemma RowNext(b: seq<real>, R: seq<real>, m: nat, k: int)
    requires m < |b|
    ensures Row(b, R, m + 1, k) == Row(b, R, m, k) + SMul(b[m], RAt(R, Abs(k - m)))
  {
    hide SMul;
    assert Term(b, R, k, m) == SMul(b[m], RAt(R, Abs(k - m)));
  }

  /** One step of the recursion keeps the normal equations and multiplies the error by 1 - r^2. */
  lemma LevinsonStep(a: seq<real>, R: seq<real>, m: nat, r: real, rr: real)
    requires m < |a| && Solves(a, R, m)
    requires rr == Row(a, R, m, m) + RAt(R, m + 1)
    requires SMul(r, PredictionError(a, R, m)) == -rr
    ensures Solves(Reflected(a, m, r), R, m + 1)
    ensures PredictionError(Reflected(a, m, r), R, m + 1)
         == PredictionError(a, R, m) - SMul(SMul(r, r), PredictionError(a, R, m))
  {
    hide SMul, Row, Reflected;
    var b, n := Reflected(a, m, r), m + 1;
    forall k | 0 <= k < n
      ensures RowHolds(b, R, n, k)
    {
      ReflectedRow(a, R, m, r, k);
      if k < m {
        OldRow(a, R, m, m - 1 - k);
        OldRow(a, R, m, k);
        SMulSign(r, RAt(R, m - k));
      } else {
        SMulLinear(RAt(R, 0), Row(a, R, m, -1), r);
      }
    }
    ReflectedRow(a, R, m, r, -1);
    SMulLinear(Row(a, R, m, m), RAt(R, m + 1), r);
    SMulAssoc(r, r, PredictionError(a, R, m));
    SMulSign(r, rr);
  }

  lemma OldRow(a: seq<real>, R: seq<real>, m: nat, k: int)
    requires Solves(a, R, m) && 0 <= k < m
    ensures Row(a, R, m, k) == -RAt(R, k + 1)
  {
    hide Row;
    assert RowHolds(a, R, m, k);
  }

  lemma NoCoefficients(a: seq<real>, R: seq<real>)
    ensures Solves(a, R, 0) && PredictionError(a, R, 0) == RAt(R, 0)
  {
  }

  /** The error left of e after the given reflections. */
  ghost function ErrorAfter(e: real, refl: seq<real>): real
  {
    if refl == [] then e else
      var before := ErrorAfter(e, refl[..|refl| - 1]);
      before - SMul(SMul(refl[|refl| - 1], refl[|refl| - 1]), before)
  }

  /** If a positive error stays positive, the reflection was less than one in magnitude. */
  lemma StableReflection(e: real, r: real)
    requires e > 0.0 && e - SMul(SMul(r, r), e) > 0.0
    ensures SMul(r, r) < 1.0
  {
    var q := r * r;
    assert q >= 1.0 ==> q * e >= e;
  }

  /** One term of the sum for the reflection coefficient. */
  lemma RowSum(a: seq<real>, R: seq<real>, m: nat, k: nat)
    requires m < |a| && m <= k && k - m < |R|
    ensures Row(a, R, 0, k) == 0.0
    ensures Row(a, R, m + 1, k) == Row(a, R, m, k) + SMul(a[m], R[k - m])
  {
    hide SMul;
    RowNext(a, R, m, k);
  }

  /** The mirrored update of _celt_lpc (celt_lpc.c:63-71), in place and with its middle element. */
  method ReflectInPlace(lpc: array<real>, i: nat, r: real)
    requires i < lpc.Length
    modifies lpc
    ensures lpc[..] == Reflected(old(lpc[..]), i, r)
  {
    hide SMul, Reflected;
    ghost var a := lpc[..];
    ghost var b := Reflected(a, i, r);
    lpc[i] := r;
    var j := 0;
    while j < (i + 1) / 2
      invariant 0 <= j <= (i + 1) / 2
      invariant forall q :: 0 <= q < lpc.Length && (q < j || i - j <= q) ==> lpc[q] == b[q]
      invariant forall q :: j <= q < i - j ==> lpc[q] == a[q]
    {
      var tmp1 := lpc[j];
      var tmp2 := lpc[i - 1 - j];
      lpc[j] := tmp1 + SMul(r, tmp2);
      lpc[i - 1 - j] := tmp2 + SMul(r, tmp1);
      j := j + 1;
    }
  }

  /** The sum over the coefficients found so far (celt_lpc.c:57-60). */
  method ReflectionSum(lpc: array<real>, ac: array<real>, i: nat) returns (rr: real)
    requires i <= lpc.Length && i + 1 < ac.Length
    ensures rr == Row(lpc[..], ac[..], i, i) + ac[i + 1]
  {
    hide SMul, Row;
    rr := 0.0;
    var j := 0;
    if i > 0 {
      RowSum(lpc[..], ac[..], 0, i);
    } else {
      EmptyRow(lpc[..], ac[..], i);
    }
    while j < i
      invariant 0 <= j <= i && rr == Row(lpc[..], ac[..], j, i)
    {
      RowSum(lpc[..], ac[..], j, i);
      rr := rr + SMul(lpc[j], ac[i - j]);
      j := j + 1;
    }
    rr := rr + ac[i + 1];
  }

  lemma EmptyRow(a: seq<real>, R: seq<real>, k: int)
    ensures Row(a, R, 0, k) == 0.0
  {
  }

  /** What _celt_lpc has established after m steps with the given reflections. */
  ghost predicate LpcInv(a: seq<real>, R: seq<real>, p: nat, m: nat, refl: seq<real>, error: real)
  {
    && m <= p <= |a| && |refl| == m && |R| >= 1
    && Solves(a, R, m)
    && error == PredictionError(a, R, m) == ErrorAfter(R[0], refl)
    && (forall j :: m <= j < p ==> a[j] == 0.0)
    && (R[0] > 0.0 ==> forall j :: 0 <= j < m - 1 ==> SMul(refl[j], refl[j]) < 1.0)
  }

  lemma LpcStep(a: seq<real>, R: seq<real>, p: nat, m: nat, refl: seq<real>, error: real, rr: real, r: real)
    requires LpcInv(a, R, p, m, refl, error) && m < p
    requires R[0] > 0.0 && m > 0 ==> error > 0.0 && SMul(refl[m - 1], refl[m - 1]) < 1.0
    requires rr == Row(a, R, m, m) + RAt(R, m + 1) && SMul(r, error) == -rr
    ensures LpcInv(Reflected(a, m, r), R, p, m + 1, refl + [r], error - SMul(SMul(r, r), error))
    ensures error > 0.0 && error - SMul(SMul(r, r), error) > 0.0 ==> SMul(r, r) < 1.0
  {
    hide SMul, Row, Solves, Reflected, PredictionError, ErrorAfter;
    LevinsonStep(a, R, m, r, rr);
    ErrorNext(R[0], refl, r);
    ZeroTail(a, p, m, r);
    if error > 0.0 && error - SMul(SMul(r, r), error) > 0.0 {
      StableReflection(error, r);
    }
  }

  lemma ErrorNext(e: real, refl: seq<real>, r: real)
    ensures ErrorAfter(e, refl + [r]) == ErrorAfter(e, refl) - SMul(SMul(r, r), ErrorAfter(e, refl))
  {
    hide SMul;
    assert (refl + [r])[..|refl|] == refl;
  }

  lemma ZeroTail(a: seq<real>, p: nat, m: nat, r: real)
    requires m < p <= |a| && forall j :: m <= j < p ==> a[j] == 0.0
    ensures forall j :: m + 1 <= j < p ==> Reflected(a, m, r)[j] == 0.0
  {
    hide SMul;
  }

  lemma Quotient(rr: real, error: real)
    requires error != 0.0
    ensures SMul(-rr / error, error) == -rr
  {
  }

  /** The reflection that the normal equations of order m + 1 ask for. */
  ghost function Reflection(a: seq<real>, R: seq<real>, m: nat): real
    requires PredictionError(a, R, m) != 0.0
  {
    -(Row(a, R, m, m) + RAt(R, m + 1)) / PredictionError(a, R, m)
  }

  /** The p coefficients after m steps of the recursion over the input alone, as long as no error before was zero. */
  ghost function Coefs(R: seq<real>, p: nat, m: nat): (a: seq<real>)
    requires m <= p
    ensures |a| == p
  {
    if m == 0 then seq(p, j => 0.0) else
      var a := Coefs(R, p, m - 1);
      if PredictionError(a, R, m - 1) == 0.0 then a else Reflected(a, m - 1, Reflection(a, R, m - 1))
  }

  /** The error left after m steps. */
  ghost function Err(R: seq<real>, p: nat, m: nat): real
    requires m <= p
  {
    PredictionError(Coefs(R, p, m), R, m)
  }

  /** After m > 0 steps the error is below a thousandth of the energy, which ends the loop. */
  ghost predicate GainReached(R: seq<real>, p: nat, m: nat)
    requires m <= p
  {
    m > 0 && Err(R, p, m) < 0.001 * RAt(R, 0)
  }

  /** There is no step from order m: it is the last one, or its error ends the loop, or it cannot be divided by. */
  ghost predicate Final(R: seq<real>, p: nat, m: nat)
    requires m <= p
  {
    m == p || GainReached(R, p, m) || Err(R, p, m) == 0.0
  }

  /** Every order before m has a step. */
  ghost predicate Steps(R: seq<real>, p: nat, m: nat)
    requires m <= p
  {
    forall j {:trigger Final(R, p, j)} :: 0 <= j < m ==> !Final(R, p, j)
  }

  /** The recursion comes to order k < p without a reason to end there, and the error is zero. */
  ghost predicate StopsOnZero(R: seq<real>, p: nat, k: nat)
  {
    k < p && Steps(R, p, k) && !GainReached(R, p, k) && Err(R, p, k) == 0.0
  }

  /** _celt_lpc (celt_lpc.c:37-88) in the float configuration. It takes the steps of the recursion up to the first order
      that has none, and the result solves the normal equations of that order. Of an autocorrelation, where ac[0] is not
      negative, every division is by a positive error, and every reflection that did not end the loop is smaller than
      one. With a negative ac[0] the error can become zero without ending the loop; zeroDivisor says that the next
      division would be by that. */
  method CeltLpc(lpc: array<real>, ac: array<real>, p: nat) returns (zeroDivisor: bool, ghost m: nat,
                 ghost refl: seq<real>)
    requires lpc.Length == p && ac.Length >= p + 1 && lpc != ac
    modifies lpc
    ensures m <= p && Final(ac[..], p, m) && Steps(ac[..], p, m)
    ensures lpc[..] == Coefs(ac[..], p, m) && Solves(lpc[..], ac[..], m)
    ensures forall j :: m <= j < p ==> lpc[j] == 0.0
    ensures zeroDivisor <==> ac[0] != 0.0 && exists k: nat :: StopsOnZero(ac[..], p, k)
    ensures zeroDivisor ==> ac[0] < 0.0 && StopsOnZero(ac[..], p, m)
    ensures |refl| == m && PredictionError(lpc[..], ac[..], m) == ErrorAfter(ac[0], refl)
    ensures ac[0] > 0.0 ==> forall j :: 0 <= j < m - 1 ==> SMul(refl[j], refl[j]) < 1.0
    ensures ac[0] > 0.0 && m > 0 && PredictionError(lpc[..], ac[..], m) > 0.0 ==> SMul(refl[m - 1], refl[m - 1]) < 1.0
  {
    hide SMul, Row, Solves, PredictionError, Reflected, Coefs, Steps, Final, GainReached, StopsOnZero;
    ghost var R := ac[..];
    var error := ac[0];
    var k := 0;
    while k < p
      invariant 0 <= k <= p && forall j :: 0 <= j < k ==> lpc[j] == 0.0
    {
      lpc[k] := 0.0;
      k := k + 1;
    }
    zeroDivisor, m, refl := false, 0, [];
    NoCoefficients(lpc[..], R);
    FirstOrder(lpc[..], R, p);
    if ac[0] != 0.0 {
      var i := 0;
      var more := true;
      while i < p && more
        invariant 0 <= i <= p && m == i && ac[..] == R && !zeroDivisor
        invariant LpcInv(lpc[..], R, p, i, refl, error)
        invariant R[0] > 0.0 && i > 0 && error > 0.0 ==> SMul(refl[i - 1], refl[i - 1]) < 1.0
        invariant more && R[0] > 0.0 ==> error > 0.0
        invariant lpc[..] == Coefs(R, p, i) && Steps(R, p, i)
        invariant more <==> !GainReached(R, p, i)
        invariant i == 0 ==> error != 0.0
        decreases p - i, more
      {
        if error == 0.0 {
          ZeroFound(R, p, i);
          return true, m, refl;
        }
        ghost var a := lpc[..];
        var rr := ReflectionSum(lpc, ac, i);
        var r := -rr / error;
        Quotient(rr, error);
        LpcStep(a, R, p, i, refl, error, rr, r);
        NextOrder(R, p, i, rr, r);
        ReflectInPlace(lpc, i, r);
        error := error - SMul(SMul(r, r), error);
        refl := refl + [r];
        i := i + 1;
        m := i;
        if error < 0.001 * ac[0] {
          more := false;
        }
        GainIs(R, p, i);
      }
      NoZeroFound(R, p, i);
    }
  }

  /** The cleared array is what no step leaves, and with R[0] == 0 there is no first step. */
  lemma FirstOrder(a: seq<real>, R: seq<real>, p: nat)
    requires |a| == p && |R| > 0 && forall j :: 0 <= j < p ==> a[j] == 0.0
    ensures a == Coefs(R, p, 0) && Steps(R, p, 0) && !GainReached(R, p, 0)
    ensures Final(R, p, 0) <==> p == 0 || R[0] == 0.0
  {
    hide SMul, Row, Reflected;
    NoCoefficients(a, R);
  }

  lemma GainIs(R: seq<real>, p: nat, m: nat)
    requires 0 < m <= p && |R| > 0
    ensures GainReached(R, p, m) <==> PredictionError(Coefs(R, p, m), R, m) < 0.001 * R[0]
  {
    hide PredictionError, Coefs;
  }

  /** A step with a divisor other than zero is the recursion's. */
  lemma NextOrder(R: seq<real>, p: nat, m: nat, rr: real, r: real)
    requires m < p && Steps(R, p, m) && !GainReached(R, p, m)
    requires Err(R, p, m) != 0.0 && r == -rr / Err(R, p, m)
    requires rr == Row(Coefs(R, p, m), R, m, m) + RAt(R, m + 1)
    ensures Coefs(R, p, m + 1) == Reflected(Coefs(R, p, m), m, r) && Steps(R, p, m + 1)
  {
    hide PredictionError, Row, Reflected, GainReached;
  }

  lemma ZeroFound(R: seq<real>, p: nat, m: nat)
    requires m < p && Steps(R, p, m) && !GainReached(R, p, m) && Err(R, p, m) == 0.0
    ensures StopsOnZero(R, p, m) && Final(R, p, m)
  {
    hide Steps, GainReached, Err;
  }

  /** A loop that ended by itself has met no zero, and would meet none. */
  lemma NoZeroFound(R: seq<real>, p: nat, m: nat)
    requires m <= p && Steps(R, p, m) && (m == p || GainReached(R, p, m))
    ensures Final(R, p, m) && !exists k: nat :: StopsOnZero(R, p, k)
  {
    hide GainReached, Err;
    forall k: nat
      ensures !StopsOnZero(R, p, k)
    {
      if k < m {
        assert !Final(R, p, k);
      } else if m < k < p {
        LaterOrder(R, p, m, k);
      }
    }
  }

  lemma LaterOrder(R: seq<real>, p: nat, m: nat, k: nat)
    requires m < k < p && Final(R, p, m)
    ensures !Steps(R, p, k)
  {
    hide Final;
  }

  /** The input decides it: after the first step of a negative energy the error is zero if and only if the first two
      values are equal in magnitude, as in -1, 1, ... */
  lemma ZeroAfterOneStep(R: seq<real>, p: nat)
    requires p >= 2 && |R| >= 2 && R[0] < 0.0
    ensures StopsOnZero(R, p, 1) <==> R[1] == R[0] || R[1] == -R[0]
  {
    hide SMul, Row, PredictionError, Reflected;
    var a := Coefs(R, p, 0);
    NoCoefficients(a, R);
    FirstOrder(a, R, p);
    EmptyRow(a, R, 0);
    EmptyRow(a, R, -1);
    var r := -R[1] / R[0];
    assert Reflection(a, R, 0) == r;
    ReflectedRow(a, R, 0, r, -1);
    ErrorOfOne(a, R, r);
    FirstError(R[0], R[1], r);
  }

  lemma ErrorOfOne(a: seq<real>, R: seq<real>, r: real)
    requires |a| > 0 && |R| >= 2
    ensures PredictionError(Reflected(a, 0, r), R, 1) == R[0] + SMul(r, R[1])
  {
    hide SMul;
  }

  lemma FirstError(e: real, x: real, r: real)
    requires e != 0.0 && r == -x / e
    ensures e + SMul(r, x) == 0.0 <==> x == e || x == -e
  {
  }

  /** So the division by zero is reached from -1, 1, ... */
  lemma ZeroDivisorReached(R: seq<real>, p: nat)
    requires p >= 2 && |R| >= 2 && R[0] == -1.0 && R[1] == 1.0
    ensures StopsOnZero(R, p, 1)
  {
    ZeroAfterOneStep(R, p);
  }
}
