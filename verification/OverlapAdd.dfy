/** The frame pipeline of denoise.c: high-pass filter, windowed analysis, windowed synthesis and overlap-add. */
module OverlapAdd {
  import opened Complex
  import opened Reals
  import opened Sizes
  import opened Factor
  import opened Options
  import opened Trig
  import opened Fft
  import opened Transform

  // ---- the window ----

  /** Squares of a half window and of its mirror image add up to one. */
  ghost predicate PowerComplementary(w: seq<real>)
  {
    |w| == FRAME_SIZE
    && forall i {:trigger SMul(w[i], w[i])} :: 0 <= i < FRAME_SIZE ==>
         SMul(w[i], w[i]) + SMul(w[FRAME_SIZE - 1 - i], w[FRAME_SIZE - 1 - i]) == 1.0
  }

  /** What check_init needs of sin: sin^2(a) + sin^2(pi/2 - a) = 1. */
  ghost predicate Pythagorean(sin: real -> real, pi: real)
  {
    forall a {:trigger sin(a)} :: SMul(sin(a), sin(a)) + SMul(sin(0.5 * pi - a), sin(0.5 * pi - a)) == 1.0
  }

  function Phase(pi: real, i: int): real
  {
    0.5 * pi * (i as real + 0.5) / FRAME_SIZE as real
  }

  lemma MirrorPhase(pi: real, i: int)
    ensures Phase(pi, FRAME_SIZE - 1 - i) == 0.5 * pi - Phase(pi, i)
  {
    var u := 0.5 * pi;
    assert u * ((FRAME_SIZE - 1 - i) as real + 0.5) == u * 480.0 - u * (i as real + 0.5);
  }

  lemma Pythagoras(sin: real -> real, pi: real, a: real, b: real)
    requires Pythagorean(sin, pi) && b == 0.5 * pi - a
    ensures SMul(sin(a), sin(a)) + SMul(sin(b), sin(b)) == 1.0
  {
    hide SMul;
  }

  lemma WindowPair(sin: real -> real, pi: real, a: real, a': real, w: real, w': real)
    requires Pythagorean(sin, pi) && a' == 0.5 * pi - a
    requires w == sin(SMul(0.5 * pi, SMul(sin(a), sin(a)))) && w' == sin(SMul(0.5 * pi, SMul(sin(a'), sin(a'))))
    ensures SMul(w, w) + SMul(w', w') == 1.0
  {
    hide *;
    var s, s' := SMul(sin(a), sin(a)), SMul(sin(a'), sin(a'));
    Pythagoras(sin, pi, a, a');
    SMulLinear(s, s', 0.5 * pi);
    SMulUnit(0.5 * pi);
    Pythagoras(sin, pi, SMul(0.5 * pi, s), SMul(0.5 * pi, s'));
  }

  /** Sample i is sin(pi/2 sin^2(pi (i + 1/2) / 960)). */
  ghost predicate IsSineWindow(sin: real -> real, pi: real, w: seq<real>)
  {
    |w| == 480
    && forall i {:trigger w[i]} :: 0 <= i < 480 ==>
         var s := sin(0.5 * pi * (i as real + 0.5) / 480.0);
         w[i] == sin(SMul(0.5 * pi, SMul(s, s)))
  }

  /** From nowhere to a right angle, the sine grows from 0 to 1. */
  ghost predicate Rises(sin: real -> real, pi: real)
  {
    && pi > 0.0 && sin(0.0) == 0.0 && sin(0.5 * pi) == 1.0
    && forall a, b {:trigger sin(a), sin(b)} :: 0.0 <= a < b <= 0.5 * pi ==> sin(a) < sin(b)
  }

  /** The half window rises from one sample to the next, inside 0 and 1. */
  lemma WindowRises(sin: real -> real, pi: real, w: seq<real>, i: nat, j: nat)
    requires Rises(sin, pi) && IsSineWindow(sin, pi, w) && i < j < 480
    ensures 0.0 < w[i] < w[j] < 1.0
  {
    hide SMul, Phase, Rises, IsSineWindow;
    var a, b := Phase(pi, i), Phase(pi, j);
    Rise(sin, pi, 0.0, 0.0);
    Angles(pi, i, j);
    WindowAt(sin, pi, w, i);
    WindowAt(sin, pi, w, j);
    Rise(sin, pi, 0.0, a);
    Rise(sin, pi, a, b);
    Rise(sin, pi, b, 0.5 * pi);
    var s, t := SMul(0.5 * pi, SMul(sin(a), sin(a))), SMul(0.5 * pi, SMul(sin(b), sin(b)));
    Squares(0.5 * pi, sin(a), sin(b));
    Rise(sin, pi, 0.0, s);
    Rise(sin, pi, s, t);
    Rise(sin, pi, t, 0.5 * pi);
  }

  lemma Rise(sin: real -> real, pi: real, a: real, b: real)
    requires Rises(sin, pi)
    ensures pi > 0.0 && (0.0 <= a < b <= 0.5 * pi ==> sin(a) < sin(b)) && sin(0.0) == 0.0 && sin(0.5 * pi) == 1.0
  {
  }

  lemma WindowAt(sin: real -> real, pi: real, w: seq<real>, i: nat)
    requires IsSineWindow(sin, pi, w) && i < 480
    ensures |w| == 480 && w[i] == sin(SMul(0.5 * pi, SMul(sin(Phase(pi, i)), sin(Phase(pi, i)))))
  {
    hide SMul;
  }

  lemma Angles(pi: real, i: nat, j: nat)
    requires pi > 0.0 && i < j < 480
    ensures 0.0 < Phase(pi, i) < Phase(pi, j) < 0.5 * pi
  {
    hide SMul, Phase;
    var u, x, y := 0.5 * pi, i as real + 0.5, j as real + 0.5;
    PhaseOf(pi, i);
    PhaseOf(pi, j);
    SMulPositive(u, x);
    SMulPositive(u, y - x);
    SMulPositive(u, 480.0 - y);
    SMulLinear(y, x, u);
    SMulLinear(480.0, y, u);
  }

  lemma PhaseOf(pi: real, i: int)
    ensures 480.0 * Phase(pi, i) == SMul(0.5 * pi, i as real + 0.5) && SMul(0.5 * pi, 480.0) == 480.0 * (0.5 * pi)
  {
  }

  lemma Squares(u: real, s: real, t: real)
    requires u > 0.0 && 0.0 < s < t < 1.0
    ensures 0.0 < SMul(u, SMul(s, s)) < SMul(u, SMul(t, t)) < u
  {
    hide SMul;
    SMulPositive(s, s);
    SMulPositive(t - s, t + s);
    SMulLinear(t, s, t + s);
    SMulLinear(t, s, t);
    SMulLinear(t, s, s);
    SMulSign(t, s);
    SMulPositive(1.0 - t, 1.0 + t);
    SMulLinear(1.0, t, 1.0 + t);
    SMulLinear(1.0, t, t);
    SMulUnit(t);
    SMulUnit(1.0 + t);
    SMulPositive(u, SMul(s, s));
    SMulPositive(u, SMul(t, t) - SMul(s, s));
    SMulLinear(SMul(t, t), SMul(s, s), u);
    SMulPositive(u, 1.0 - SMul(t, t));
    SMulLinear(1.0, SMul(t, t), u);
    SMulUnit(u);
  }

  /** The window loop of check_init (denoise.c:172-173). */
  method MakeHalfWindow(sin: real -> real, pi: real) returns (w: array<real>)
    requires Pythagorean(sin, pi)
    ensures fresh(w) && PowerComplementary(w[..]) && IsSineWindow(sin, pi, w[..])
  {
    hide Pythagorean, Phase, SMul;
    w := new real[FRAME_SIZE];
    var i := 0;
    while i < FRAME_SIZE
      invariant 0 <= i <= FRAME_SIZE
      invariant forall j :: 0 <= j < i ==> w[j] == sin(SMul(0.5 * pi, SMul(sin(Phase(pi, j)), sin(Phase(pi, j)))))
    {
      w[i] := sin(SMul(0.5 * pi, SMul(sin(Phase(pi, i)), sin(Phase(pi, i)))));
      i := i + 1;
    }
    forall j | 0 <= j < FRAME_SIZE
      ensures SMul(w[j], w[j]) + SMul(w[FRAME_SIZE - 1 - j], w[FRAME_SIZE - 1 - j]) == 1.0
    {
      MirrorPhase(pi, j);
      WindowPair(sin, pi, Phase(pi, j), Phase(pi, FRAME_SIZE - 1 - j), w[j], w[FRAME_SIZE - 1 - j]);
    }
    PhasesAre(pi);
  }

  lemma PhasesAre(pi: real)
    ensures forall i :: Phase(pi, i) == 0.5 * pi * (i as real + 0.5) / 480.0
  {
  }

  function Weight(w: seq<real>, i: int): real
    requires |w| == FRAME_SIZE && 0 <= i < WINDOW_SIZE
  {
    if i < FRAME_SIZE then w[i] else w[WINDOW_SIZE - 1 - i]
  }

  ghost function Windowed(w: seq<real>, x: seq<real>): (y: seq<real>)
    requires |w| == FRAME_SIZE && |x| == WINDOW_SIZE
    ensures |y| == WINDOW_SIZE && forall i :: 0 <= i < WINDOW_SIZE ==> y[i] == SMul(x[i], Weight(w, i))
  {
    seq(WINDOW_SIZE, i requires 0 <= i < WINDOW_SIZE => SMul(x[i], Weight(w, i)))
  }

  /** apply_window (denoise.c:247-254). */
  method ApplyWindow(w: seq<real>, x: array<real>)
    requires |w| == FRAME_SIZE && x.Length == WINDOW_SIZE
    modifies x
    ensures x[..] == Windowed(w, old(x[..]))
    ensures forall i :: 0 <= i < FRAME_SIZE ==>
      x[i] == SMul(old(x[i]), w[i]) && x[WINDOW_SIZE - 1 - i] == SMul(old(x[WINDOW_SIZE - 1 - i]), w[i])
  {
    hide SMul;
    var i := 0;
    while i < FRAME_SIZE
      invariant 0 <= i <= FRAME_SIZE
      invariant forall j :: 0 <= j < WINDOW_SIZE ==>
        x[j] == if j < i || j >= WINDOW_SIZE - i then SMul(old(x[j]), Weight(w, j)) else old(x[j])
    {
      x[i] := SMul(x[i], w[i]);
      x[WINDOW_SIZE - 1 - i] := SMul(x[WINDOW_SIZE - 1 - i], w[i]);
      i := i + 1;
    }
  }

  // ---- the high-pass filter ----

  /** The filter memory after the first k samples. */
  ghost function BiquadMem(mem: (real, real), b: (real, real), a: (real, real), x: seq<real>, k: nat): (real, real)
    requires k <= |x|
  {
    if k == 0 then mem else
      var m := BiquadMem(mem, b, a, x, k - 1);
      var yi := x[k - 1] + m.0;
      (m.1 + (SMul(b.0, x[k - 1]) - SMul(a.0, yi)), SMul(b.1, x[k - 1]) - SMul(a.1, yi))
  }

  ghost function BiquadOut(mem: (real, real), b: (real, real), a: (real, real), x: seq<real>): (y: seq<real>)
    ensures |y| == |x| && forall k :: 0 <= k < |x| ==> y[k] == x[k] + BiquadMem(mem, b, a, x, k).0
  {
    seq(|x|, k requires 0 <= k < |x| => x[k] + BiquadMem(mem, b, a, x, k).0)
  }

  /** The two memory cells make a second-order recursion. */
  lemma DifferenceEquation(mem: (real, real), b: (real, real), a: (real, real), x: seq<real>, k: nat)
    requires 2 <= k < |x|
    ensures var y := BiquadOut(mem, b, a, x);
      y[k] == x[k] + SMul(b.0, x[k - 1]) + SMul(b.1, x[k - 2]) - SMul(a.0, y[k - 1]) - SMul(a.1, y[k - 2])
  {
    hide SMul, BiquadMem;
    BiquadNext(mem, b, a, x, k - 2);
    BiquadNext(mem, b, a, x, k - 1);
  }

  /** Filtering frame by frame is filtering the concatenation. */
  lemma {:induction false} BiquadSplit(mem: (real, real), b: (real, real), a: (real, real), x: seq<real>,
                                       x': seq<real>, k: nat)
    requires k <= |x'|
    ensures BiquadMem(mem, b, a, x + x', |x| + k) == BiquadMem(BiquadMem(mem, b, a, x, |x|), b, a, x', k)
  {
    hide SMul;
    if k == 0 {
      BiquadPrefix(mem, b, a, x, x', |x|);
    } else {
      BiquadSplit(mem, b, a, x, x', k - 1);
      assert (x + x')[|x| + k - 1] == x'[k - 1];
    }
  }

  lemma BiquadOutSplit(mem: (real, real), b: (real, real), a: (real, real), x: seq<real>, x': seq<real>, k: nat)
    requires k < |x'|
    ensures BiquadOut(mem, b, a, x + x')[|x| + k] == BiquadOut(BiquadMem(mem, b, a, x, |x|), b, a, x')[k]
  {
    hide SMul, BiquadMem;
    BiquadSplit(mem, b, a, x, x', k);
    assert (x + x')[|x| + k] == x'[k];
  }

  lemma {:induction false} BiquadPrefix(mem: (real, real), b: (real, real), a: (real, real), x: seq<real>,
                                        x': seq<real>, k: nat)
    requires k <= |x|
    ensures BiquadMem(mem, b, a, x + x', k) == BiquadMem(mem, b, a, x, k)
  {
    hide SMul;
    if k > 0 {
      BiquadPrefix(mem, b, a, x, x', k - 1);
    }
  }

  /** biquad (denoise.c:410-420), also in place: y may be x. */
  method Biquad(y: array<real>, mem: array<real>, x: array<real>, b: (real, real), a: (real, real), N: nat)
    requires y.Length == N == x.Length && mem.Length == 2 && y != mem && mem != x
    modifies y, mem
    ensures y[..] == BiquadOut((old(mem[0]), old(mem[1])), b, a, old(x[..]))
    ensures (mem[0], mem[1]) == BiquadMem((old(mem[0]), old(mem[1])), b, a, old(x[..]), N)
  {
    hide SMul, BiquadMem;
    ghost var m0, xs := (mem[0], mem[1]), x[..];
    BiquadStart(m0, b, a, xs);
    var i := 0;
    while i < N
      invariant 0 <= i <= N && forall k :: i <= k < N ==> x[k] == xs[k]
      invariant (mem[0], mem[1]) == BiquadMem(m0, b, a, xs, i)
      invariant forall k :: 0 <= k < i ==> y[k] == xs[k] + BiquadMem(m0, b, a, xs, k).0
    {
      var xi := x[i];
      var yi := x[i] + mem[0];
      BiquadNext(m0, b, a, xs, i);
      mem[0] := mem[1] + (SMul(b.0, xi) - SMul(a.0, yi));
      mem[1] := SMul(b.1, xi) - SMul(a.1, yi);
      y[i] := yi;
      i := i + 1;
    }
  }

  lemma BiquadStart(mem: (real, real), b: (real, real), a: (real, real), x: seq<real>)
    ensures BiquadMem(mem, b, a, x, 0) == mem
  {
  }

  lemma BiquadNext(mem: (real, real), b: (real, real), a: (real, real), x: seq<real>, k: nat)
    requires k < |x|
    ensures var m := BiquadMem(mem, b, a, x, k);
      var yi := x[k] + m.0;
      BiquadMem(mem, b, a, x, k + 1) == (m.1 + (SMul(b.0, x[k]) - SMul(a.0, yi)), SMul(b.1, x[k]) - SMul(a.1, yi))
  {
    hide SMul;
  }

  // ---- the frame state ----

  const A_HP: (real, real) := (-1.99599, 0.99600)
  const B_HP: (real, real) := (-2.0, 1.0)

  datatype Common = Common(kfft: KissFft, halfWindow: seq<real>)

  ghost predicate IsCommon(c: Common, stages: nat)
  {
    IsState(c.kfft, stages) && c.kfft.nfft == WINDOW_SIZE && PowerComplementary(c.halfWindow)
  }

  /** A right angle's sines: what the window needs follows from the addition theorems. */
  lemma PythagoreanOfTrig(cos: real -> real, sin: real -> real, pi: real)
    requires IsTrig(cos, sin, pi)
    ensures Pythagorean(sin, pi)
  {
    hide IsTrig, SMul;
    forall a
      ensures SMul(sin(a), sin(a)) + SMul(sin(0.5 * pi - a), sin(0.5 * pi - a)) == 1.0
    {
      Complement(cos, sin, pi, a);
    }
  }

  lemma WindowIsSmooth()
    ensures FiveSmooth(WINDOW_SIZE) && StageCount(WINDOW_SIZE) <= MAXFACTORS
  {
    hide FiveSmooth, StageCount;
    OneIsSmooth();
    SmoothDivide(5, 1);
    SmoothDivide(3, 5);
    SmoothDivide(4, 15);
    SmoothDivide(4, 60);
    SmoothDivide(4, 240);
    PowSeven();
    StagesSuffice(WINDOW_SIZE, 7);
  }

  /** check_init (denoise.c:168-174): the state and the window the whole pipeline rests on. */
  method CheckInit(cos: real -> real, sin: real -> real, pi: real) returns (c: Common, ghost stages: nat)
    requires IsTrig(cos, sin, pi)
    ensures IsCommon(c, stages) && HoldsTurns(cos, sin, pi, c.kfft.twiddles) && IsSineWindow(sin, pi, c.halfWindow)
  {
    hide *;
    PythagoreanOfTrig(cos, sin, pi);
    WindowIsSmooth();
    Lengths();
    var st, overflow;
    st, overflow, stages := OpusFftAlloc(2 * FRAME_SIZE, cos, sin, pi);
    var w := MakeHalfWindow(sin, pi);
    c := Common(st.value, w[..]);
    CommonOf(c, stages);
  }

  lemma Lengths()
    ensures 2 * FRAME_SIZE == WINDOW_SIZE == 960
  {
  }

  lemma CommonOf(c: Common, stages: nat)
    requires IsState(c.kfft, stages) && c.kfft.nfft == WINDOW_SIZE && PowerComplementary(c.halfWindow)
    ensures IsCommon(c, stages)
  {
  }

  /** The part of DenoiseState that the signal path carries from frame to frame. */
  datatype Memory = Memory(analysis: seq<real>, synthesis: seq<real>, highPass: (real, real))

  ghost predicate IsMemory(s: Memory)
  {
    |s.analysis| == FRAME_SIZE && |s.synthesis| == FRAME_SIZE
  }

  ghost function Zeros(n: nat): (z: seq<real>)
    ensures |z| == n && forall i :: 0 <= i < n ==> z[i] == 0.0
  {
    seq(n, _ => 0.0)
  }

  /** rnnoise_init clears the state. */
  ghost function Start(): (s: Memory)
    ensures IsMemory(s)
  {
    Memory(Zeros(FRAME_SIZE), Zeros(FRAME_SIZE), (0.0, 0.0))
  }

  /** A frame of input and what the network makes of its spectrum: None when the frame is silent and the
      spectrum is passed on unchanged. */
  datatype Frame = Frame(input: seq<real>, enhanced: Option<seq<Cpx>>)

  ghost predicate IsFrame(f: Frame)
  {
    |f.input| == FRAME_SIZE && (f.enhanced.Some? ==> |f.enhanced.value| == FREQ_SIZE)
  }

  ghost function HighPassed(s: Memory, f: Frame): (y: seq<real>)
    ensures |y| == |f.input|
  {
    BiquadOut(s.highPass, B_HP, A_HP, f.input)
  }

  ghost function Analysed(c: Common, s: Memory, x: seq<real>): (b: seq<Cpx>)
    requires |c.kfft.twiddles| > 0 && |c.halfWindow| == FRAME_SIZE && IsMemory(s) && |x| == FRAME_SIZE
    ensures |b| == FREQ_SIZE
  {
    Bins(c.kfft, Windowed(c.halfWindow, s.analysis + x))
  }

  ghost function Samples(t: seq<Cpx>, b: seq<Cpx>): (x: seq<real>)
    requires |t| > 0 && |b| == FREQ_SIZE
    ensures |x| == WINDOW_SIZE && forall i :: 0 <= i < WINDOW_SIZE ==> x[i] == InverseDft(t, Mirror(b), i).r
  {
    seq(WINDOW_SIZE, i => InverseDft(t, Mirror(b), i).r)
  }

  /** The windowed output of the inverse transform for this frame. */
  ghost function Synthesised(c: Common, b: seq<Cpx>): (y: seq<real>)
    requires |c.kfft.twiddles| > 0 && |c.halfWindow| == FRAME_SIZE && |b| == FREQ_SIZE
    ensures |y| == WINDOW_SIZE
  {
    Windowed(c.halfWindow, Samples(c.kfft.twiddles, b))
  }

  ghost function FrameSpectrum(c: Common, s: Memory, f: Frame): (b: seq<Cpx>)
    requires |c.kfft.twiddles| > 0 && |c.halfWindow| == FRAME_SIZE && IsMemory(s) && IsFrame(f)
    ensures |b| == FREQ_SIZE
  {
    if f.enhanced.Some? then f.enhanced.value else Analysed(c, s, HighPassed(s, f))
  }

  ghost function Next(c: Common, s: Memory, f: Frame): (s': Memory)
    requires |c.kfft.twiddles| > 0 && |c.halfWindow| == FRAME_SIZE && IsMemory(s) && IsFrame(f)
    ensures IsMemory(s')
  {
    Memory(HighPassed(s, f), Synthesised(c, FrameSpectrum(c, s, f))[FRAME_SIZE..],
           BiquadMem(s.highPass, B_HP, A_HP, f.input, FRAME_SIZE))
  }

  ghost function Output(c: Common, s: Memory, f: Frame): (y: seq<real>)
    requires |c.kfft.twiddles| > 0 && |c.halfWindow| == FRAME_SIZE && IsMemory(s) && IsFrame(f)
    ensures |y| == FRAME_SIZE
    ensures forall i :: 0 <= i < FRAME_SIZE ==> y[i] == Synthesised(c, FrameSpectrum(c, s, f))[i] + s.synthesis[i]
  {
    seq(FRAME_SIZE, i requires 0 <= i < FRAME_SIZE => Synthesised(c, FrameSpectrum(c, s, f))[i] + s.synthesis[i])
  }

  // ---- reconstruction ----

  /** The spectrum that goes into the synthesis is the one that came out of the analysis, whether the frame was passed
      on as silent or came back from the network and the gains as it was. */
  ghost predicate Unchanged(c: Common, s: Memory, f: Frame)
  {
    && |c.kfft.twiddles| > 0 && |c.halfWindow| == FRAME_SIZE && IsMemory(s) && IsFrame(f)
    && FrameSpectrum(c, s, f) == Analysed(c, s, HighPassed(s, f))
  }

  /** A silent frame is unchanged. */
  lemma SilentIsUnchanged(c: Common, stages: nat, s: Memory, f: Frame)
    requires IsCommon(c, stages) && IsMemory(s) && IsFrame(f) && f.enhanced.None?
    ensures Unchanged(c, s, f)
  {
    hide IsState, PowerComplementary;
    StateSize(c.kfft, stages);
    WindowSize(c, stages);
  }

  /** An unchanged spectrum comes back as the windowed samples, windowed a second time. */
  lemma TwiceWindowed(c: Common, stages: nat, s: Memory, x: seq<real>, i: int)
    requires IsCommon(c, stages) && IsMemory(s) && |x| == FRAME_SIZE && 0 <= i < WINDOW_SIZE
    ensures |c.kfft.twiddles| > 0
    ensures Synthesised(c, Analysed(c, s, x))[i]
         == SMul((s.analysis + x)[i], SMul(Weight(c.halfWindow, i), Weight(c.halfWindow, i)))
  {
    hide IsState, SMul, InverseDft, Bins, Mirror, Weight;
    StateSize(c.kfft, stages);
    var xw := Windowed(c.halfWindow, s.analysis + x);
    TransformRoundTrip(c.kfft, stages, xw, i);
    SMulAssoc((s.analysis + x)[i], Weight(c.halfWindow, i), Weight(c.halfWindow, i));
  }

  /** After an unchanged frame the state holds that frame, once plain and once weighted by its falling window. */
  lemma AfterUnchanged(c: Common, stages: nat, s: Memory, f: Frame, i: int)
    requires IsCommon(c, stages) && Unchanged(c, s, f) && 0 <= i < FRAME_SIZE
    ensures |c.kfft.twiddles| > 0
    ensures Next(c, s, f).analysis == HighPassed(s, f)
    ensures Next(c, s, f).synthesis[i]
         == SMul(HighPassed(s, f)[i], SMul(c.halfWindow[FRAME_SIZE - 1 - i], c.halfWindow[FRAME_SIZE - 1 - i]))
  {
    hide IsState, SMul, Analysed, Synthesised, BiquadOut, PowerComplementary;
    StateSize(c.kfft, stages);
    WindowSize(c, stages);
    TwiceWindowed(c, stages, s, HighPassed(s, f), FRAME_SIZE + i);
  }

  lemma WindowSize(c: Common, stages: nat)
    requires IsCommon(c, stages)
    ensures |c.halfWindow| == FRAME_SIZE
  {
  }

  lemma WindowsAdd(w: seq<real>, x: real, i: int)
    requires PowerComplementary(w) && 0 <= i < FRAME_SIZE
    ensures SMul(x, SMul(Weight(w, i), Weight(w, i))) + SMul(x, SMul(w[FRAME_SIZE - 1 - i], w[FRAME_SIZE - 1 - i])) == x
  {
    hide SMul;
    var u, v := SMul(w[i], w[i]), SMul(w[FRAME_SIZE - 1 - i], w[FRAME_SIZE - 1 - i]);
    SMulLinear(u, v, x);
    SMulUnit(x);
  }

  /** The high-pass filter of the pipeline in numbers. */
  lemma HighPassEquation(s: Memory, f: Frame, k: nat)
    requires 2 <= k < |f.input|
    ensures var x, y := f.input, HighPassed(s, f);
      y[k] == x[k] - 2.0 * x[k - 1] + x[k - 2] + 1.99599 * y[k - 1] - 0.996 * y[k - 2]
  {
    hide BiquadOut;
    DifferenceEquation(s.highPass, B_HP, A_HP, f.input, k);
  }

  /** A constant signal is removed: once the filter has settled on it, the output is zero. */
  lemma ConstantRemoved(s: Memory, f: Frame, u: real, k: nat)
    requires k < |f.input| && s.highPass == (-u, u) && forall j :: 0 <= j < |f.input| ==> f.input[j] == u
    ensures HighPassed(s, f)[k] == 0.0
  {
    hide BiquadMem;
    Settled(f.input, u, k);
  }

  lemma {:induction false} Settled(x: seq<real>, u: real, k: nat)
    requires k <= |x| && forall j :: 0 <= j < |x| ==> x[j] == u
    ensures BiquadMem((-u, u), B_HP, A_HP, x, k) == (-u, u)
  {
    hide SMul, BiquadMem;
    if k == 0 {
      BiquadStart((-u, u), B_HP, A_HP, x);
    } else {
      Settled(x, u, k - 1);
      BiquadNext((-u, u), B_HP, A_HP, x, k - 1);
      SettledStep(u);
    }
  }

  lemma SettledStep(u: real)
    ensures SMul(B_HP.0, u) == -2.0 * u && SMul(B_HP.1, u) == u
    ensures SMul(A_HP.0, 0.0) == 0.0 && SMul(A_HP.1, 0.0) == 0.0
  {
  }

  /** The network and the gains put the analysed spectrum back at a given level. */
  ghost predicate AtLevel(c: Common, s: Memory, f: Frame, level: real)
  {
    && |c.kfft.twiddles| > 0 && |c.halfWindow| == FRAME_SIZE && IsMemory(s) && IsFrame(f)
    && f.enhanced == Some(Scaled(level, Analysed(c, s, HighPassed(s, f))))
  }

  lemma MirrorScaled(level: real, b: seq<Cpx>)
    requires |b| == FREQ_SIZE
    ensures Mirror(Scaled(level, b)) == Scaled(level, Mirror(b))
  {
    hide Scale, Conj;
    forall k | 0 <= k < WINDOW_SIZE
      ensures Mirror(Scaled(level, b))[k] == Scaled(level, Mirror(b))[k]
    {
      if k >= FREQ_SIZE {
        ConjScale(level, b[WINDOW_SIZE - k]);
      }
    }
  }

  /** The synthesis is proportional to its spectrum. */
  lemma SynthesisScaled(c: Common, level: real, b: seq<Cpx>, i: int)
    requires |c.kfft.twiddles| > 0 && |c.halfWindow| == FRAME_SIZE && |b| == FREQ_SIZE && 0 <= i < WINDOW_SIZE
    ensures Synthesised(c, Scaled(level, b))[i] == SMul(level, Synthesised(c, b)[i])
  {
    hide SMul, InverseDft, Mirror, Weight, Scaled;
    ScaledLength(level, b);
    MirrorScaled(level, b);
    InverseScaled(c.kfft.twiddles, Mirror(b), level, i);
    SMulAssoc(level, InverseDft(c.kfft.twiddles, Mirror(b), i).r, Weight(c.halfWindow, i));
  }

  lemma ScaledLength(level: real, b: seq<Cpx>)
    ensures |Scaled(level, b)| == |b|
  {
  }

  lemma LevelSynthesised(c: Common, stages: nat, s: Memory, f: Frame, level: real, i: int)
    requires IsCommon(c, stages) && AtLevel(c, s, f, level) && 0 <= i < WINDOW_SIZE
    ensures |c.kfft.twiddles| > 0 && |c.halfWindow| == FRAME_SIZE && IsMemory(s) && IsFrame(f)
    ensures Synthesised(c, FrameSpectrum(c, s, f))[i]
         == SMul(level, SMul((s.analysis + HighPassed(s, f))[i],
                             SMul(Weight(c.halfWindow, i), Weight(c.halfWindow, i))))
  {
    hide IsState, SMul, Synthesised, Analysed, Weight, BiquadOut, PowerComplementary, Scaled;
    WindowSize(c, stages);
    var b := Analysed(c, s, HighPassed(s, f));
    SynthesisScaled(c, level, b, i);
    TwiceWindowed(c, stages, s, HighPassed(s, f), i);
  }

  /** Two frames in a row whose spectra come back at the levels p and q: sample i of the high-passed first frame comes
      out at p times its falling window's weight plus q times its rising one's, squared. Equal levels change the
      loudness only. */
  lemma LevelsCrossfade(c: Common, stages: nat, s: Memory, f: Frame, g: Frame, p: real, q: real, i: int)
    requires IsCommon(c, stages) && AtLevel(c, s, f, p) && AtLevel(c, Next(c, s, f), g, q) && 0 <= i < FRAME_SIZE
    ensures |c.kfft.twiddles| > 0 && |c.halfWindow| == FRAME_SIZE
    ensures
      var w, x := c.halfWindow, HighPassed(s, f)[i];
      Output(c, Next(c, s, f), g)[i]
      == SMul(p, SMul(x, SMul(w[FRAME_SIZE - 1 - i], w[FRAME_SIZE - 1 - i]))) + SMul(q, SMul(x, SMul(w[i], w[i])))
    ensures p == q ==> Output(c, Next(c, s, f), g)[i] == SMul(p, HighPassed(s, f)[i])
  {
    hide IsState, SMul, Analysed, Synthesised, BiquadOut, FrameSpectrum, Scaled;
    WindowSize(c, stages);
    var s', w, x := Next(c, s, f), c.halfWindow, HighPassed(s, f);
    LevelSynthesised(c, stages, s, f, p, FRAME_SIZE + i);
    LevelSynthesised(c, stages, s', g, q, i);
    assert (s.analysis + HighPassed(s, f))[FRAME_SIZE + i] == x[i];
    assert (s'.analysis + HighPassed(s', g))[i] == x[i];
    WindowsAdd(w, x[i], i);
    SMulLinear(SMul(x[i], SMul(w[i], w[i])), SMul(x[i], SMul(w[FRAME_SIZE - 1 - i], w[FRAME_SIZE - 1 - i])), p);
  }

  /** Two unchanged frames in a row: the output of the second is the high-passed input of the first. */
  lemma TwoUnchangedFrames(c: Common, stages: nat, s: Memory, f: Frame, g: Frame)
    requires IsCommon(c, stages) && Unchanged(c, s, f) && Unchanged(c, Next(c, s, f), g)
    ensures |c.kfft.twiddles| > 0
    ensures Output(c, Next(c, s, f), g) == HighPassed(s, f)
  {
    hide IsState, SMul, Analysed, Synthesised, BiquadOut;
    StateSize(c.kfft, stages);
    WindowSize(c, stages);
    var s', w, x := Next(c, s, f), c.halfWindow, HighPassed(s, f);
    forall i | 0 <= i < FRAME_SIZE
      ensures Output(c, s', g)[i] == x[i]
    {
      AfterUnchanged(c, stages, s, f, i);
      TwiceWindowed(c, stages, s', HighPassed(s', g), i);
      assert (s'.analysis + HighPassed(s', g))[i] == x[i];
      WindowsAdd(w, x[i], i);
    }
  }

  /** The state before frame n of a run that starts with rnnoise_init. */
  ghost function StateAt(c: Common, frames: seq<Frame>, n: nat): (s: Memory)
    requires |c.kfft.twiddles| > 0 && |c.halfWindow| == FRAME_SIZE && n <= |frames|
    requires forall i :: 0 <= i < |frames| ==> IsFrame(frames[i])
    ensures IsMemory(s)
  {
    if n == 0 then Start() else Next(c, StateAt(c, frames, n - 1), frames[n - 1])
  }

  /** The input of the whole run up to frame n. */
  ghost function Joined(frames: seq<Frame>, n: nat): (x: seq<real>)
    requires n <= |frames|
  {
    if n == 0 then [] else Joined(frames, n - 1) + frames[n - 1].input
  }

  /** The memory of the high-pass filter is that of one filter running over the whole input. */
  lemma {:induction false} HighPassRun(c: Common, frames: seq<Frame>, n: nat)
    requires |c.kfft.twiddles| > 0 && |c.halfWindow| == FRAME_SIZE && n <= |frames|
    requires forall i :: 0 <= i < |frames| ==> IsFrame(frames[i])
    ensures StateAt(c, frames, n).highPass
         == BiquadMem((0.0, 0.0), B_HP, A_HP, Joined(frames, n), |Joined(frames, n)|)
  {
    hide SMul, Synthesised, FrameSpectrum, BiquadOut;
    if n > 0 {
      HighPassRun(c, frames, n - 1);
      BiquadSplit((0.0, 0.0), B_HP, A_HP, Joined(frames, n - 1), frames[n - 1].input, FRAME_SIZE);
    }
  }

  /** Over any run from the cleared state: whenever two consecutive spectra are unchanged, the output is exactly the
      previous frame, high-passed as part of the whole input; whatever happened to earlier frames leaves no trace. */
  lemma Reconstruction(c: Common, stages: nat, frames: seq<Frame>, n: nat, i: int)
    requires IsCommon(c, stages) && n + 1 < |frames| && 0 <= i < FRAME_SIZE
    requires forall k :: 0 <= k < |frames| ==> IsFrame(frames[k])
    requires |c.kfft.twiddles| > 0 && |c.halfWindow| == FRAME_SIZE
    requires Unchanged(c, StateAt(c, frames, n), frames[n]) && Unchanged(c, StateAt(c, frames, n + 1), frames[n + 1])
    ensures var x := Joined(frames, n);
      Output(c, StateAt(c, frames, n + 1), frames[n + 1])[i]
      == BiquadOut((0.0, 0.0), B_HP, A_HP, x + frames[n].input)[|x| + i]
  {
    hide *;
    CommonFacts(c, stages);
    StateStep(c, frames, n);
    TwoUnchangedFrames(c, stages, StateAt(c, frames, n), frames[n], frames[n + 1]);
    HighPassedIs(StateAt(c, frames, n), frames[n]);
    HighPassRun(c, frames, n);
    FrameInput(frames[n]);
    BiquadOutSplit((0.0, 0.0), B_HP, A_HP, Joined(frames, n), frames[n].input, i);
  }

  lemma CommonFacts(c: Common, stages: nat)
    requires IsCommon(c, stages)
    ensures IsState(c.kfft, stages) && c.kfft.nfft == WINDOW_SIZE
    ensures |c.kfft.twiddles| > 0 && |c.halfWindow| == FRAME_SIZE
  {
    hide IsState;
    StateSize(c.kfft, stages);
  }

  lemma StateStep(c: Common, frames: seq<Frame>, n: nat)
    requires |c.kfft.twiddles| > 0 && |c.halfWindow| == FRAME_SIZE && n < |frames|
    requires forall i :: 0 <= i < |frames| ==> IsFrame(frames[i])
    ensures StateAt(c, frames, n + 1) == Next(c, StateAt(c, frames, n), frames[n])
  {
    hide Next;
  }

  lemma HighPassedIs(s: Memory, f: Frame)
    ensures HighPassed(s, f) == BiquadOut(s.highPass, B_HP, A_HP, f.input)
  {
  }

  lemma FrameInput(f: Frame)
    requires IsFrame(f)
    ensures |f.input| == FRAME_SIZE
  {
  }

  /** The very first frame, unchanged, comes out as silence: the delay is one frame. */
  lemma FirstFrame(c: Common, stages: nat, f: Frame)
    requires IsCommon(c, stages) && Unchanged(c, Start(), f)
    ensures |c.kfft.twiddles| > 0 && |c.halfWindow| == FRAME_SIZE
    ensures Output(c, Start(), f) == Zeros(FRAME_SIZE)
  {
    hide IsState, SMul, Analysed, Synthesised, BiquadOut, PowerComplementary;
    StateSize(c.kfft, stages);
    WindowSize(c, stages);
    forall i | 0 <= i < FRAME_SIZE
      ensures Output(c, Start(), f)[i] == 0.0
    {
      TwiceWindowed(c, stages, Start(), HighPassed(Start(), f), i);
      assert (Start().analysis + HighPassed(Start(), f))[i] == 0.0;
      SMulUnit(SMul(Weight(c.halfWindow, i), Weight(c.halfWindow, i)));
    }
  }

  // ---- the code ----

  /** DenoiseState (denoise.c:86-98): the buffers of the signal path. */
  class DenoiseState {
    const analysisMem: array<real>
    const synthesisMem: array<real>
    const memHpX: array<real>

    ghost predicate Valid()
    {
      analysisMem.Length == FRAME_SIZE && synthesisMem.Length == FRAME_SIZE && memHpX.Length == 2
      && analysisMem != synthesisMem && analysisMem != memHpX && synthesisMem != memHpX
    }

    ghost function Mem(): (s: Memory)
      reads analysisMem, synthesisMem, memHpX
      requires Valid()
      ensures IsMemory(s)
    {
      Memory(analysisMem[..], synthesisMem[..], (memHpX[0], memHpX[1]))
    }

    /** rnnoise_init (denoise.c:264-274). */
    constructor ()
      ensures Valid() && fresh(analysisMem) && fresh(synthesisMem) && fresh(memHpX)
      ensures Mem() == Start()
    {
      analysisMem := new real[FRAME_SIZE](_ => 0.0);
      synthesisMem := new real[FRAME_SIZE](_ => 0.0);
      memHpX := new real[2](_ => 0.0);
      new;
      assert analysisMem[..] == Zeros(FRAME_SIZE) && synthesisMem[..] == Zeros(FRAME_SIZE);
    }

    /** frame_analysis (denoise.c:295-308), up to the spectrum. */
    method FrameAnalysis(c: Common, X: array<Cpx>, inp: array<real>, ghost stages: nat)
      requires Valid() && IsCommon(c, stages) && X.Length == FREQ_SIZE && inp.Length == FRAME_SIZE && inp != analysisMem
      modifies X, analysisMem
      ensures |c.kfft.twiddles| > 0 && |c.halfWindow| == FRAME_SIZE
      ensures X[..] == Analysed(c, old(Mem()), inp[..])
      ensures analysisMem[..] == inp[..]
    {
      hide *;
      CommonFacts(c, stages);
      Sizes();
      ghost var s, xs, was := Mem(), inp[..], analysisMem[..];
      MemIs();
      var x := new real[WINDOW_SIZE];
      var i := 0;
      while i < FRAME_SIZE
        invariant 0 <= i <= FRAME_SIZE
        invariant forall j :: 0 <= j < i ==> x[j] == was[j]
        modifies x
      {
        x[i] := analysisMem[i];
        i := i + 1;
      }
      i := 0;
      while i < FRAME_SIZE
        invariant 0 <= i <= FRAME_SIZE
        invariant forall j :: 0 <= j < FRAME_SIZE ==> x[j] == was[j]
        invariant forall j :: 0 <= j < i ==> x[FRAME_SIZE + j] == xs[j]
        modifies x
      {
        x[FRAME_SIZE + i] := inp[i];
        i := i + 1;
      }
      ghost var joined := x[..];
      assert joined == was + xs;
      forall j | 0 <= j < FRAME_SIZE {
        analysisMem[j] := inp[j];
      }
      assert analysisMem[..] == xs && x[..] == joined;
      ApplyWindow(c.halfWindow, x);
      assert x[..] == Windowed(c.halfWindow, joined);
      ForwardTransform(c.kfft, X, x, stages);
      assert X[..] == X[..FREQ_SIZE];
      AnalysedIs(c, s, xs);
      assert s.analysis == was;
      assert inp[..] == xs && analysisMem[..] == xs;
    }

    lemma Sizes()
      ensures FRAME_SIZE == 480 && WINDOW_SIZE == 960 && FREQ_SIZE == 481
      ensures Valid() ==> analysisMem.Length == FRAME_SIZE && synthesisMem.Length == FRAME_SIZE && memHpX.Length == 2
      ensures Valid() ==> analysisMem != synthesisMem && analysisMem != memHpX && synthesisMem != memHpX
    {
    }

    lemma MemIs()
      requires Valid()
      ensures Mem() == Memory(analysisMem[..], synthesisMem[..], (memHpX[0], memHpX[1]))
    {
    }

    /** frame_synthesis (denoise.c:401-408). */
    method FrameSynthesis(c: Common, out: array<real>, y: array<Cpx>, ghost stages: nat)
      requires Valid() && IsCommon(c, stages) && y.Length == FREQ_SIZE && out.Length == FRAME_SIZE
        && out != synthesisMem
      modifies out, synthesisMem
      ensures |c.kfft.twiddles| > 0 && |c.halfWindow| == FRAME_SIZE
      ensures synthesisMem[..] == Synthesised(c, y[..])[FRAME_SIZE..]
      ensures forall i :: 0 <= i < FRAME_SIZE ==> out[i] == Synthesised(c, y[..])[i] + old(synthesisMem[i])
    {
      hide *;
      CommonFacts(c, stages);
      Sizes();
      ghost var b, before := y[..], synthesisMem[..];
      var x := new real[WINDOW_SIZE];
      InverseTransform(c.kfft, x, y, stages);
      assert y[..FREQ_SIZE] == b;
      assert x[..] == Samples(c.kfft.twiddles, b);
      ApplyWindow(c.halfWindow, x);
      SynthesisedIs(c, b);
      ghost var z := x[..];
      var i := 0;
      while i < FRAME_SIZE
        invariant 0 <= i <= FRAME_SIZE
        invariant forall j :: 0 <= j < i ==> out[j] == z[j] + before[j]
        modifies out
      {
        out[i] := x[i] + synthesisMem[i];
        i := i + 1;
      }
      assert x[..] == z;
      forall j | 0 <= j < FRAME_SIZE {
        synthesisMem[j] := x[FRAME_SIZE + j];
      }
      assert synthesisMem[..] == z[FRAME_SIZE..];
      assert y[..] == b;
    }

    /** The signal path of rnnoise_process_frame (denoise.c:458-494). The spectrum that the network, the pitch filter
        and the band gains make of a frame that is not silent enters as a parameter. */
    method ProcessFrame(c: Common, out: array<real>, inp: array<real>, enhanced: Option<seq<Cpx>>, ghost stages: nat)
      requires Valid() && IsCommon(c, stages)
      requires inp.Length == FRAME_SIZE && out.Length == FRAME_SIZE && IsFrame(Frame(inp[..], enhanced))
      requires {out, inp} !! {analysisMem, synthesisMem, memHpX}
      modifies out, analysisMem, synthesisMem, memHpX
      ensures |c.kfft.twiddles| > 0 && |c.halfWindow| == FRAME_SIZE
      ensures Mem() == Next(c, old(Mem()), Frame(old(inp[..]), enhanced))
      ensures out[..] == Output(c, old(Mem()), Frame(old(inp[..]), enhanced))
    {
      hide *;
      CommonFacts(c, stages);
      Sizes();
      ghost var s, f := Mem(), Frame(inp[..], enhanced);
      MemIs();
      StepIs(c, s, f);
      var x := new real[FRAME_SIZE];
      var X := new Cpx[FREQ_SIZE](_ => Zero);
      Biquad(x, memHpX, inp, B_HP, A_HP, FRAME_SIZE);
      assert (memHpX[0], memHpX[1]) == BiquadMem(s.highPass, B_HP, A_HP, f.input, FRAME_SIZE);
      ghost var hp := x[..];
      assert hp == HighPassed(s, f);
      MemIs();
      AnalysedFrame(c, s, Mem(), hp);
      FrameAnalysis(c, X, x, stages);
      if enhanced.Some? {
        forall k | 0 <= k < FREQ_SIZE {
          X[k] := enhanced.value[k];
        }
      }
      ghost var b := X[..];
      assert b == FrameSpectrum(c, s, f);
      FrameSynthesis(c, out, X, stages);
      assert out[..] == Output(c, s, f);
      assert analysisMem[..] == hp;
      MemIs();
    }
  }

  lemma AnalysedIs(c: Common, s: Memory, x: seq<real>)
    requires |c.kfft.twiddles| > 0 && |c.halfWindow| == FRAME_SIZE && IsMemory(s) && |x| == FRAME_SIZE
    ensures |s.analysis| == FRAME_SIZE && Analysed(c, s, x) == Bins(c.kfft, Windowed(c.halfWindow, s.analysis + x))
  {
  }

  lemma AnalysedFrame(c: Common, s: Memory, s': Memory, x: seq<real>)
    requires |c.kfft.twiddles| > 0 && |c.halfWindow| == FRAME_SIZE && IsMemory(s) && IsMemory(s') && |x| == FRAME_SIZE
    requires s.analysis == s'.analysis
    ensures Analysed(c, s, x) == Analysed(c, s', x)
  {
  }

  lemma SynthesisedIs(c: Common, b: seq<Cpx>)
    requires |c.kfft.twiddles| > 0 && |c.halfWindow| == FRAME_SIZE && |b| == FREQ_SIZE
    ensures Synthesised(c, b) == Windowed(c.halfWindow, Samples(c.kfft.twiddles, b))
  {
  }

  /** The step unfolded once. */
  lemma StepIs(c: Common, s: Memory, f: Frame)
    requires |c.kfft.twiddles| > 0 && |c.halfWindow| == FRAME_SIZE && IsMemory(s) && IsFrame(f)
    ensures HighPassed(s, f) == BiquadOut(s.highPass, B_HP, A_HP, f.input)
    ensures |f.input| == FRAME_SIZE && (f.enhanced.Some? ==> |f.enhanced.value| == FREQ_SIZE)
    ensures FrameSpectrum(c, s, f) == if f.enhanced.Some? then f.enhanced.value else Analysed(c, s, HighPassed(s, f))
    ensures Next(c, s, f)
         == Memory(HighPassed(s, f), Synthesised(c, FrameSpectrum(c, s, f))[FRAME_SIZE..],
                   BiquadMem(s.highPass, B_HP, A_HP, f.input, FRAME_SIZE))
  {
    hide Synthesised, Analysed, BiquadOut, BiquadMem;
  }
}
