/** The pitch bookkeeping of compute_frame_features in denoise.c: state kept from frame to frame. */
module PitchTracker {
  import opened Reals
  import opened Inequalities
  import opened PitchSearch
  import opened RemoveDoubling
  import opened Sizes
  import Downsample
  import Levinson

  /** Everything one frame computes on the way to its period. */
  datatype Trace = Trace(lp: seq<real>, lags: seq<real>, lpc: seq<real>, order: nat,
                         p0: int, p1: int, q0: int, q1: int, pitch: int)

  /** lp is what pitch_downsample makes of the buffer. */
  ghost predicate IsLowPassed(buf: seq<real>, t: Trace)
  {
    var h := Downsample.HalvedSignal(buf, PITCH_BUF_SIZE / 2);
    && |t.lags| == 5 && |t.lpc| == 4 && t.order <= 4 && |t.lp| == PITCH_BUF_SIZE / 2
    && (forall k :: 0 <= k < 5 ==> t.lags[k] == Downsample.LagWindowed(Downsample.Autocorrelations(h), k))
    && Levinson.Solves(t.lpc, t.lags, t.order) && (forall j :: t.order <= j < 4 ==> t.lpc[j] == 0.0)
    && forall i :: 0 <= i < |t.lp| ==>
         t.lp[i] == Downsample.Filtered(Downsample.Expanded(t.lpc), h, i)
                  + SMul(0.8, Downsample.Filtered(Downsample.Expanded(t.lpc), h, i - 1))
  }

  /** The search over that signal, with the newest frame as its template. */
  ghost predicate IsSearched(t: Trace)
  {
    Searched(t.lp, PITCH_MAX_PERIOD / 2, t.lp, PITCH_FRAME_SIZE, PITCH_MAX_PERIOD - 3 * PITCH_MIN_PERIOD,
             t.p0, t.p1, t.q0, t.q1, t.pitch)
    && 0 <= t.pitch <= PITCH_MAX_PERIOD - 3 * PITCH_MIN_PERIOD - 2
  }

  /** The question remove_doubling is asked, given what the previous frame answered. */
  ghost function Asked(t: Trace, lastPeriod: nat, lastGain: real, sqrt: real -> real): Query
    requires 0 <= t.pitch <= PITCH_MAX_PERIOD - 3 * PITCH_MIN_PERIOD - 2
  {
    Query(t.lp, PITCH_MAX_PERIOD / 2, PITCH_FRAME_SIZE / 2, FirstGuess(PITCH_MAX_PERIOD - t.pitch),
          PITCH_MIN_PERIOD / 2,
          PITCH_MAX_PERIOD / 2, lastPeriod / 2, lastGain, sqrt)
  }

  /** Half the searched period, kept inside the history. */
  function FirstGuess(t0: nat): nat
  {
    if t0 / 2 >= PITCH_MAX_PERIOD / 2 then PITCH_MAX_PERIOD / 2 - 1 else t0 / 2
  }

  /** The search and the question in the halved samples of one frame: a template of 480 samples at 384, lags up to 294,
      periods from 30 to 384, the first guess being half of what the search leaves of 768. */
  lemma AskedInNumbers(t: Trace, lastPeriod: nat, lastGain: real, sqrt: real -> real)
    requires IsSearched(t)
    ensures Searched(t.lp, 384, t.lp, 960, 588, t.p0, t.p1, t.q0, t.q1, t.pitch) && 0 <= t.pitch <= 586
    ensures Asked(t, lastPeriod, lastGain, sqrt)
         == Query(t.lp, 384, 480, if t.pitch <= 1 then 383 else (768 - t.pitch) / 2, 30, 384, lastPeriod / 2, lastGain,
                  sqrt)
  {
    hide Searched;
  }

  class PitchState {
    const pitchBuf: array<real>
    var lastGain: real
    var lastPeriod: nat
    ghost var signal: seq<real>

    /** The buffer holds the last samples heard, silence before the first; the remembered answer is usable. */
    ghost predicate Valid()
      reads this, pitchBuf
    {
      && pitchBuf.Length == PITCH_BUF_SIZE
      && (forall j :: 0 <= j < PITCH_BUF_SIZE ==> pitchBuf[j] == RAt(signal, |signal| - PITCH_BUF_SIZE + j))
      && (lastPeriod == 0 || PITCH_MIN_PERIOD <= lastPeriod < PITCH_MAX_PERIOD)
      && -1.0 < lastGain < 1.0
    }

    /** The pitch fields after rnnoise_init (denoise.c:264-274). */
    constructor ()
      ensures Valid() && fresh(pitchBuf) && signal == [] && lastPeriod == 0 && lastGain == 0.0
    {
      pitchBuf := new real[PITCH_BUF_SIZE](_ => 0.0);
      lastGain, lastPeriod, signal := 0.0, 0, [];
    }

    /** The shift of the buffer by one frame (denoise.c:325-326). */
    method Hear(inp: array<real>)
      requires Valid() && inp.Length == FRAME_SIZE && inp != pitchBuf
      modifies pitchBuf, this`signal
      ensures Valid() && signal == old(signal) + inp[..]
      ensures pitchBuf[..] == old(pitchBuf[..])[FRAME_SIZE..] + inp[..]
    {
      hide RAt;
      ghost var was, now := pitchBuf[..], inp[..];
      forall j | 0 <= j < PITCH_BUF_SIZE - FRAME_SIZE {
        pitchBuf[j] := pitchBuf[FRAME_SIZE + j];
      }
      forall j | 0 <= j < FRAME_SIZE {
        pitchBuf[PITCH_BUF_SIZE - FRAME_SIZE + j] := inp[j];
      }
      assert inp[..] == now && pitchBuf[..] == was[FRAME_SIZE..] + now;
      ShiftedSignal(was, signal, now);
      signal := signal + now;
      BufferIs(pitchBuf[..]);
    }

    lemma BufferIs(b: seq<real>)
      requires pitchBuf.Length == PITCH_BUF_SIZE && b == pitchBuf[..]
      ensures forall j :: 0 <= j < PITCH_BUF_SIZE ==> pitchBuf[j] == b[j]
    {
    }

    /** The window one period back (denoise.c:337-338). */
    method WindowBack() returns (p: array<real>)
      requires Valid() && lastPeriod < PITCH_MAX_PERIOD
      ensures fresh(p) && p.Length == WINDOW_SIZE
      ensures forall i :: 0 <= i < WINDOW_SIZE ==> p[i] == RAt(signal, |signal| - WINDOW_SIZE - lastPeriod + i)
    {
      hide RAt;
      p := new real[WINDOW_SIZE];
      var i := 0;
      while i < WINDOW_SIZE
        invariant 0 <= i <= WINDOW_SIZE && Valid()
        invariant forall k :: 0 <= k < i ==> p[k] == RAt(signal, |signal| - WINDOW_SIZE - lastPeriod + k)
        modifies p
      {
        ghost var j := PITCH_BUF_SIZE - WINDOW_SIZE - lastPeriod + i;
        assert |signal| - PITCH_BUF_SIZE + j == |signal| - WINDOW_SIZE - lastPeriod + i;
        p[i] := pitchBuf[PITCH_BUF_SIZE - WINDOW_SIZE - lastPeriod + i];
        i := i + 1;
      }
    }

    /** One frame (denoise.c:325-338): the period is found, remembered, and used to fetch the window one period back. */
    method Track(inp: array<real>, sqrt: real -> real) returns (p: array<real>, ghost t: Trace)
      requires Valid() && IsSqrt(sqrt) && inp.Length == FRAME_SIZE && inp != pitchBuf
      modifies this, pitchBuf
      ensures Valid() && signal == old(signal) + inp[..]
      ensures IsLowPassed(pitchBuf[..], t) && IsSearched(t)
      ensures IsSqrt(sqrt)
        && (lastPeriod as int, lastGain) == Answer(Asked(t, old(lastPeriod), old(lastGain), sqrt), PITCH_MIN_PERIOD)
      ensures PITCH_MIN_PERIOD <= lastPeriod < PITCH_MAX_PERIOD
      ensures fresh(p) && p.Length == WINDOW_SIZE
      ensures forall i :: 0 <= i < WINDOW_SIZE ==> p[i] == RAt(signal, |signal| - WINDOW_SIZE - lastPeriod + i)
    {
      hide IsLowPassed, Searched, Answer, RAt;
      Hear(inp);
      ghost var buf := pitchBuf[..];
      ghost var lags, lpc, order;
      var lp := new real[PITCH_BUF_SIZE / 2];
      lags, lpc, order := Downsample.PitchDownsample(pitchBuf, pitchBuf, lp, 1);
      Downsample.OneChannel(buf, buf, PITCH_BUF_SIZE / 2);
      assert pitchBuf[..] == buf;
      ghost var p0, p1, q0, q1;
      var pitch;
      pitch, p0, p1, q0, q1 := PitchSearch.PitchSearch(lp, PITCH_MAX_PERIOD / 2, lp, PITCH_FRAME_SIZE,
                                           PITCH_MAX_PERIOD - 3 * PITCH_MIN_PERIOD);
      t := Trace(lp[..], lags, lpc, order, p0, p1, q0, q1, pitch);
      LowPassedIs(buf, t);
      var period, gain;
      ghost var e;
      period, gain, e := RemoveDoubling.RemoveDoubling(lp, PITCH_MAX_PERIOD, PITCH_MIN_PERIOD, PITCH_FRAME_SIZE,
                                        PITCH_MAX_PERIOD - pitch, lastPeriod, lastGain, sqrt);
      assert e == Asked(t, old(lastPeriod), old(lastGain), sqrt);
      lastPeriod := period;
      lastGain := gain;
      p := WindowBack();
    }
  }

  lemma ShiftedSignal(was: seq<real>, s: seq<real>, now: seq<real>)
    requires |was| == PITCH_BUF_SIZE && |now| == FRAME_SIZE
    requires forall j :: 0 <= j < PITCH_BUF_SIZE ==> was[j] == RAt(s, |s| - PITCH_BUF_SIZE + j)
    ensures
      var b := was[FRAME_SIZE..] + now;
      |b| == PITCH_BUF_SIZE
        && forall j :: 0 <= j < PITCH_BUF_SIZE ==> b[j] == RAt(s + now, |s + now| - PITCH_BUF_SIZE + j)
  {
    var b := was[FRAME_SIZE..] + now;
    forall j | 0 <= j < PITCH_BUF_SIZE
      ensures b[j] == RAt(s + now, |s + now| - PITCH_BUF_SIZE + j)
    {
      if j < PITCH_BUF_SIZE - FRAME_SIZE {
        assert b[j] == was[FRAME_SIZE + j];
      }
    }
  }

  lemma LowPassedIs(buf: seq<real>, t: Trace)
    requires |t.lags| == 5 && |t.lpc| == 4 && t.order <= 4 && |t.lp| == PITCH_BUF_SIZE / 2
    requires
      var h := Downsample.HalvedSignal(buf, |t.lp|);
      && (forall k :: 0 <= k < 5 ==> t.lags[k] == Downsample.LagWindowed(Downsample.Autocorrelations(h), k))
      && Levinson.Solves(t.lpc, t.lags, t.order) && (forall j :: t.order <= j < 4 ==> t.lpc[j] == 0.0)
      && forall i :: 0 <= i < |t.lp| ==>
           t.lp[i] == Downsample.Filtered(Downsample.Expanded(t.lpc), h, i)
                    + SMul(0.8, Downsample.Filtered(Downsample.Expanded(t.lpc), h, i - 1))
    ensures IsLowPassed(buf, t)
  {
  }
}
