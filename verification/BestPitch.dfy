/** find_best_pitch of pitch.c: the two best normalised correlations, with a running energy. */
module BestPitch {
  import opened Reals

  /** 1 plus the energy of the window of y that starts at i. */
  ghost function Syy(y: seq<real>, len: nat, i: int): real
  {
    1.0 + Dot(y, i, y, i, len)
  }

  lemma {:induction false} EnergyPositive(y: seq<real>, len: nat, i: int)
    ensures Dot(y, i, y, i, len) >= 0.0
  {
    hide SMul, RAt;
    DotNext(y, i, y, i, 0);
    if len > 0 {
      EnergyPositive(y, len - 1, i);
      DotNext(y, i, y, i, len - 1);
      SMulSquare(RAt(y, i + len - 1));
    }
  }

  /** Sliding the window by one sample. */
  lemma {:induction false} EnergySlide(y: seq<real>, len: nat, i: int)
    ensures Dot(y, i + 1, y, i + 1, len)
         == Dot(y, i, y, i, len) + (SMul(RAt(y, i + len), RAt(y, i + len)) - SMul(RAt(y, i), RAt(y, i)))
  {
    hide SMul, RAt, Dot;
    DotNext(y, i, y, i, 0);
    DotNext(y, i + 1, y, i + 1, 0);
    if len > 0 {
      EnergySlide(y, len - 1, i);
      DotNext(y, i, y, i, len - 1);
      DotNext(y, i + 1, y, i + 1, len - 1);
      assert i + 1 + (len - 1) == i + len && i + (len - 1) == i + len - 1;
    }
  }

  /** The squared correlation over the energy. */
  ghost function Score(xcorr: seq<real>, y: seq<real>, len: nat, i: nat): real
    requires i < |xcorr|
  {
    EnergyPositive(y, len, i);
    SMul(xcorr[i], xcorr[i]) / Syy(y, len, i)
  }

  /** The comparison of the code, on scaled correlations and without a division, compares scores. */
  lemma CrossMultiplied(a: real, da: real, b: real, db: real, k: real)
    requires da > 0.0 && db > 0.0 && k > 0.0
    ensures SMul(SMul(SMul(a, k), SMul(a, k)), db) > SMul(SMul(SMul(b, k), SMul(b, k)), da)
       <==> SMul(a, a) / da > SMul(b, b) / db
  {
    var p, q := SMul(a, a), SMul(b, b);
    ScaledSquare(a, k);
    ScaledSquare(b, k);
    hide SMul;
    Ratio(p, da, q, db);
    SMulAssoc(SMul(k, k), p, db);
    SMulAssoc(SMul(k, k), q, da);
    SMulPositive(k, k);
    ScaledOrder(SMul(k, k), SMul(p, db), SMul(q, da));
  }

  lemma ScaledSquare(a: real, k: real)
    ensures SMul(SMul(a, k), SMul(a, k)) == SMul(SMul(k, k), SMul(a, a))
  {
    hide SMul;
    SMulSign(a, k);
    SMulAssoc(k, a, SMul(k, a));
    SMulAssoc(a, k, a);
    SMulAssoc(k, a, a);
    SMulSign(SMul(k, a), a);
    SMulAssoc(k, k, SMul(a, a));
  }

  lemma ScaledOrder(k: real, u: real, v: real)
    requires k > 0.0
    ensures SMul(k, u) > SMul(k, v) <==> u > v
  {
    assert u > v ==> k * (u - v) > 0.0;
    assert u < v ==> k * (v - u) > 0.0;
  }

  lemma Ratio(p: real, da: real, q: real, db: real)
    requires da > 0.0 && db > 0.0
    ensures SMul(p, db) > SMul(q, da) <==> p / da > q / db
  {
    var u, v := p / da, q / db;
    assert p == SMul(u, da) && q == SMul(v, db);
    hide SMul;
    SMulAssoc(u, da, db);
    SMulAssoc(v, db, da);
    SMulSign(da, db);
    SMulSign(SMul(da, db), u);
    SMulSign(SMul(da, db), v);
    SMulPositive(da, db);
    ScaledOrder(SMul(da, db), u, v);
  }

  /** b is the earliest of the best-scoring positive correlations below n, not counting skip. */
  ghost predicate FirstBest(xcorr: seq<real>, y: seq<real>, len: nat, n: nat, skip: int, b: int)
    requires n <= |xcorr|
  {
    && 0 <= b < n && b != skip && xcorr[b] > 0.0
    && forall j :: 0 <= j < n && j != skip && xcorr[j] > 0.0 ==>
         Score(xcorr, y, len, j) <= Score(xcorr, y, len, b)
         && (j < b ==> Score(xcorr, y, len, j) < Score(xcorr, y, len, b))
  }

  ghost predicate NonePositive(xcorr: seq<real>, n: nat, skip: int)
    requires n <= |xcorr|
  {
    forall j :: 0 <= j < n && j != skip ==> xcorr[j] <= 0.0
  }

  /** What find_best_pitch promises about its two candidates. */
  ghost predicate BestPair(xcorr: seq<real>, y: seq<real>, len: nat, n: nat, b0: int, b1: int)
    requires n <= |xcorr|
  {
    if NonePositive(xcorr, n, -1) then b0 == 0 && b1 == 1
    else
      && FirstBest(xcorr, y, len, n, -1, b0)
      && if NonePositive(xcorr, n, b0) then b1 == 0 else FirstBest(xcorr, y, len, n, b0, b1)
  }

  /** The numerator of a candidate: its correlation, scaled against overflow and squared. */
  function Squared(c: real): real
  {
    SMul(SMul(c, 0.000000000001), SMul(c, 0.000000000001))
  }

  /** The candidate registers of the loop: a slot is either still (-1, 0) or holds the scaled correlation of its pitch.
      */
  ghost predicate Slot(xcorr: seq<real>, y: seq<real>, len: nat, used: bool, b: int, num: real, den: real)
  {
    if used then 0 <= b < |xcorr| && num == Squared(xcorr[b]) && den == Syy(y, len, b)
    else num == -1.0 && den == 0.0
  }

  /** The test of the code against a slot: true for an empty slot, else a comparison of scores. */
  lemma BeatsSlot(xcorr: seq<real>, y: seq<real>, len: nat, i: nat, used: bool, b: int, num: real, den: real)
    requires i < |xcorr| && Slot(xcorr, y, len, used, b, num, den)
    ensures SMul(Squared(xcorr[i]), den) > SMul(num, Syy(y, len, i))
       <==> !used || Score(xcorr, y, len, i) > Score(xcorr, y, len, b)
  {
    hide SMul, Dot;
    EnergyPositive(y, len, i);
    EnergyPositive(y, len, b);
    if used {
      CrossMultiplied(xcorr[i], Syy(y, len, i), xcorr[b], Syy(y, len, b), 0.000000000001);
    } else {
      SMulUnit(Squared(xcorr[i]));
      SMulUnit(Syy(y, len, i));
      SMulSign(1.0, Syy(y, len, i));
    }
  }

  lemma SlotOf(xcorr: seq<real>, y: seq<real>, len: nat, i: nat)
    requires i < |xcorr|
    ensures Slot(xcorr, y, len, true, i, Squared(xcorr[i]), Syy(y, len, i))
  {
  }

  ghost predicate LoopState(xcorr: seq<real>, y: seq<real>, len: nat, i: nat, b0: int, b1: int,
                            n0: real, n1: real, d0: real, d1: real)
    requires i <= |xcorr|
  {
    && BestPair(xcorr, y, len, i, b0, b1)
    && Slot(xcorr, y, len, !NonePositive(xcorr, i, -1), b0, n0, d0)
    && Slot(xcorr, y, len, !NonePositive(xcorr, i, -1) && !NonePositive(xcorr, i, b0), b1, n1, d1)
  }

  lemma Skipped(xcorr: seq<real>, y: seq<real>, len: nat, i: nat, b0: int, b1: int, n0: real, n1: real, d0: real,
                d1: real)
    requires i < |xcorr| && LoopState(xcorr, y, len, i, b0, b1, n0, n1, d0, d1) && xcorr[i] <= 0.0
    ensures LoopState(xcorr, y, len, i + 1, b0, b1, n0, n1, d0, d1)
  {
    hide Score, Slot, SMul;
    SameNone(xcorr, i, -1);
    SameNone(xcorr, i, b0);
  }

  lemma SameNone(xcorr: seq<real>, i: nat, skip: int)
    requires i < |xcorr| && xcorr[i] <= 0.0
    ensures NonePositive(xcorr, i + 1, skip) == NonePositive(xcorr, i, skip)
  {
  }

  /** One positive correlation enters: b0', b1' are the registers the code ends the pass with. */
  lemma Entered(xcorr: seq<real>, y: seq<real>, len: nat, i: nat, b0: int, b1: int, b0': int, b1': int)
    requires i < |xcorr| && BestPair(xcorr, y, len, i, b0, b1) && xcorr[i] > 0.0
    requires
      var one, two := !NonePositive(xcorr, i, -1), !NonePositive(xcorr, i, -1) && !NonePositive(xcorr, i, b0);
      if two && Score(xcorr, y, len, i) <= Score(xcorr, y, len, b1) then b0' == b0 && b1' == b1
      else if one && Score(xcorr, y, len, i) <= Score(xcorr, y, len, b0) then b0' == b0 && b1' == i
      else b0' == i && b1' == b0
    ensures BestPair(xcorr, y, len, i + 1, b0', b1')
    ensures !NonePositive(xcorr, i + 1, -1)
    ensures NonePositive(xcorr, i + 1, b0') <==> NonePositive(xcorr, i, -1)
  {
    hide Score, SMul;
    assert !NonePositive(xcorr, i + 1, -1);
    if NonePositive(xcorr, i, -1) {
      assert NonePositive(xcorr, i + 1, i);
    } else {
      assert xcorr[b0] > 0.0;
      if b0' == i {
        assert !NonePositive(xcorr, i + 1, i);
      } else {
        assert !NonePositive(xcorr, i + 1, b0);
      }
    }
  }

  /** Where one positive correlation goes: the registers after the pass, by the outcome of the two tests. */
  lemma Advance(xcorr: seq<real>, y: seq<real>, len: nat, i: nat, b0: int, b1: int, n0: real, n1: real, d0: real,
                d1: real,
                num: real, syy: real)
    requires i < |xcorr| && xcorr[i] > 0.0 && LoopState(xcorr, y, len, i, b0, b1, n0, n1, d0, d1)
    requires num == Squared(xcorr[i]) && syy == Syy(y, len, i)
    ensures
      if SMul(num, d1) > SMul(n1, syy) then
        if SMul(num, d0) > SMul(n0, syy) then LoopState(xcorr, y, len, i + 1, i, b0, num, n0, syy, d0)
        else LoopState(xcorr, y, len, i + 1, b0, i, n0, num, d0, syy)
      else LoopState(xcorr, y, len, i + 1, b0, b1, n0, n1, d0, d1)
  {
    hide SMul, Syy, Score, Slot, Squared, BestPair, NonePositive;
    var one := !NonePositive(xcorr, i, -1);
    var two := one && !NonePositive(xcorr, i, b0);
    BeatsSlot(xcorr, y, len, i, one, b0, n0, d0);
    BeatsSlot(xcorr, y, len, i, two, b1, n1, d1);
    if SMul(num, d1) > SMul(n1, syy) {
      if SMul(num, d0) > SMul(n0, syy) {
        Entered(xcorr, y, len, i, b0, b1, i, b0);
        SlotOf(xcorr, y, len, i);
      } else {
        Entered(xcorr, y, len, i, b0, b1, b0, i);
        SlotOf(xcorr, y, len, i);
      }
    } else {
      Entered(xcorr, y, len, i, b0, b1, b0, b1);
    }
  }

  lemma Begin(xcorr: seq<real>, y: seq<real>, len: nat)
    ensures LoopState(xcorr, y, len, 0, 0, 1, -1.0, -1.0, 0.0, 0.0)
  {
  }

  lemma AtInside(s: seq<real>, i: nat)
    requires i < |s|
    ensures RAt(s, i) == s[i]
  {
  }

  /** The loop that sets up the energy of the first window (pitch.c:69-70). */
  method WindowEnergy(y: array<real>, len: nat) returns (syy: real)
    requires len <= y.Length
    ensures syy == Syy(y[..], len, 0)
  {
    hide SMul, Dot;
    syy := 1.0;
    DotNext(y[..], 0, y[..], 0, 0);
    var j := 0;
    while j < len
      invariant 0 <= j <= len && syy == Syy(y[..], j, 0)
    {
      DotNext(y[..], 0, y[..], 0, j);
      syy := syy + SMul(y[j], y[j]);
      j := j + 1;
    }
  }

  /** The energy update at the end of a pass (pitch.c:101-102); the clamp at 1 has nothing to do. */
  method SlideEnergy(y: array<real>, len: nat, i: nat, syy: real) returns (next: real)
    requires i + len < y.Length && syy == Syy(y[..], len, i)
    ensures next == Syy(y[..], len, i + 1) && next >= 1.0
    ensures next == syy + (SMul(y[i + len], y[i + len]) - SMul(y[i], y[i]))
  {
    hide SMul, Dot;
    EnergySlide(y[..], len, i);
    EnergyPositive(y[..], len, i + 1);
    next := syy + (SMul(y[i + len], y[i + len]) - SMul(y[i], y[i]));
    next := if 1.0 > next then 1.0 else next;
  }

  /** find_best_pitch (pitch.c:46-104) in the float configuration. */
  method FindBestPitch(xcorr: array<real>, y: array<real>, len: nat, maxPitch: nat) returns (b0: int, b1: int)
    requires maxPitch <= xcorr.Length && len + maxPitch <= y.Length
    ensures BestPair(xcorr[..], y[..], len, maxPitch, b0, b1)
  {
    hide *;
    ghost var xs, ys := xcorr[..], y[..];
    var n0, n1, d0, d1 := -1.0, -1.0, 0.0, 0.0;
    b0, b1 := 0, 1;
    var syy := WindowEnergy(y, len);
    Begin(xs, ys, len);
    var i := 0;
    while i < maxPitch
      invariant 0 <= i <= maxPitch && syy == Syy(ys, len, i)
      invariant LoopState(xs, ys, len, i, b0, b1, n0, n1, d0, d1)
    {
      if xcorr[i] > 0.0 {
        var num := Squared(xcorr[i]);
        Advance(xs, ys, len, i, b0, b1, n0, n1, d0, d1, num, syy);
        if SMul(num, d1) > SMul(n1, syy) {
          if SMul(num, d0) > SMul(n0, syy) {
            n1 := n0;
            d1 := d0;
            b1 := b0;
            n0 := num;
            d0 := syy;
            b0 := i;
          } else {
            n1 := num;
            d1 := syy;
            b1 := i;
          }
        }
      } else {
        Skipped(xs, ys, len, i, b0, b1, n0, n1, d0, d1);
      }
      syy := SlideEnergy(y, len, i, syy);
      i := i + 1;
    }
    End(xs, ys, len, maxPitch, b0, b1, n0, n1, d0, d1);
  }

  lemma End(xcorr: seq<real>, y: seq<real>, len: nat, i: nat, b0: int, b1: int, n0: real, n1: real, d0: real, d1: real)
    requires i <= |xcorr| && LoopState(xcorr, y, len, i, b0, b1, n0, n1, d0, d1)
    ensures BestPair(xcorr, y, len, i, b0, b1)
  {
  }

  /** Both candidates name an entry of xcorr when there are two. */
  lemma PairRange(xcorr: seq<real>, y: seq<real>, len: nat, n: nat, b0: int, b1: int)
    requires n <= |xcorr| && BestPair(xcorr, y, len, n, b0, b1)
    ensures 0 <= b0 && (n > 0 ==> b0 < n) && 0 <= b1 && (n > 1 ==> b1 < n)
  {
    hide Score;
  }

  /** The promise leaves no choice. */
  lemma PairUnique(xcorr: seq<real>, y: seq<real>, len: nat, n: nat, b0: int, b1: int, c0: int, c1: int)
    requires n <= |xcorr| && BestPair(xcorr, y, len, n, b0, b1) && BestPair(xcorr, y, len, n, c0, c1)
    ensures b0 == c0 && b1 == c1
  {
    hide Score;
    if !NonePositive(xcorr, n, -1) {
      FirstUnique(xcorr, y, len, n, -1, b0, c0);
      if !NonePositive(xcorr, n, b0) {
        FirstUnique(xcorr, y, len, n, b0, b1, c1);
      }
    }
  }

  lemma FirstUnique(xcorr: seq<real>, y: seq<real>, len: nat, n: nat, skip: int, b: int, c: int)
    requires n <= |xcorr| && FirstBest(xcorr, y, len, n, skip, b) && FirstBest(xcorr, y, len, n, skip, c)
    ensures b == c
  {
    hide Score;
    var p: nat, q: nat := b, c;
    assert Score(xcorr, y, len, p) <= Score(xcorr, y, len, q) && Score(xcorr, y, len, q) <= Score(xcorr, y, len, p);
  }
}
