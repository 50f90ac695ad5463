/** The echo canceller wrapper of webrtc_aec_jni.cpp: a bounded queue of far-end frames in front of an engine, and byte
    buffers processed frame by frame. Engine and resamplers are opaque. */
module EchoCanceler {
  import opened Options
  import Arith

  type Byte = b: int | 0 <= b < 256
  type Sample = s: int | -32768 <= s < 32768
  type Frame = seq<Sample>

  const SAMPLE_BYTES := 2
  const MINIMUM_RATE := 16000
  const MAXIMUM_QUEUED := 100

  // ---- Bytes and samples ----

  function FromBytes(lo: Byte, hi: Byte): Sample
  {
    if hi < 128 then lo + 256 * hi else lo + 256 * hi - 65536
  }

  function LowByte(s: Sample): Byte
  {
    s % 256
  }

  function HighByte(s: Sample): Byte
  {
    (if s < 0 then s + 65536 else s) / 256
  }

  /** A little-endian byte buffer seen as 16-bit samples. */
  function Decode(b: seq<Byte>): (f: Frame)
    ensures |f| == |b| / 2
  {
    seq(|b| / 2, i requires 0 <= i < |b| / 2 => FromBytes(b[2 * i], b[2 * i + 1]))
  }

  function Encode(f: Frame): (b: seq<Byte>)
    ensures |b| == 2 * |f|
  {
    seq(2 * |f|, i requires 0 <= i < 2 * |f| => if i % 2 == 0 then LowByte(f[i / 2]) else HighByte(f[i / 2]))
  }

  /** The first byte is the low one, and the pair is the sample modulo 2^16. */
  lemma LittleEndian(b: seq<Byte>, i: nat)
    requires 2 * i + 1 < |b|
    ensures (Decode(b)[i] - (b[2 * i] as int + 256 * (b[2 * i + 1] as int))) % 65536 == 0
  {
  }

  lemma SampleRoundTrip(s: Sample)
    ensures FromBytes(LowByte(s), HighByte(s)) == s
  {
  }

  lemma DecodeEncode(f: Frame)
    ensures Decode(Encode(f)) == f
  {
    hide FromBytes, LowByte, HighByte;
    forall i | 0 <= i < |f|
      ensures Decode(Encode(f))[i] == f[i]
    {
      SampleRoundTrip(f[i]);
      assert (2 * i) % 2 == 0 && (2 * i) / 2 == i && (2 * i + 1) % 2 == 1 && (2 * i + 1) / 2 == i;
    }
  }

  // ---- The engine ----

  /** Echo control, high-pass filter and the three resamplers on one state S. A resampler that does not fill its output
      yields None. */
  datatype Engine<!S> = Engine(
    analyzeRender: (S, Frame) -> S,
    processCapture: (S, Frame, int) -> (S, Frame),
    renderToProcessing: (S, Frame) -> (S, Option<Frame>),
    captureToProcessing: (S, Frame) -> (S, Option<Frame>),
    captureFromProcessing: (S, Frame) -> (S, Option<Frame>))

  predicate Resampled(o: Option<Frame>, n: int)
  {
    o.Some? ==> |o.value| == n
  }

  /** Every output has the size of the buffer it is written to. */
  ghost predicate IsEngine<S(!new)>(g: Engine<S>, inSize: int, size: int)
  {
    && (forall s: S, f: Frame, d: int :: |f| == size ==> |g.processCapture(s, f, d).1| == size)
    && (forall s: S, f: Frame :: Resampled(g.renderToProcessing(s, f).1, size))
    && (forall s: S, f: Frame :: Resampled(g.captureToProcessing(s, f).1, size))
    && (forall s: S, f: Frame :: Resampled(g.captureFromProcessing(s, f).1, inSize))
  }

  // ---- State and history ----

  datatype Resampling = RenderIn | CaptureIn | CaptureOut

  /** What the engine was shown: a far-end frame, which of all queued frames it is (None for silence) and how many
      were waiting; a near-end frame and what came back; or a frame for one of the resamplers and what came back. */
  datatype Event =
    | Analyzed(frame: Frame, source: Option<nat>, waiting: nat)
    | Captured(frame: Frame, delayMs: int, out: Frame)
    | Converted(stage: Resampling, frame: Frame, converted: Option<Frame>)

  /** Engine state and queue, and the past: all far-end frames ever queued, the numbers of those shown to the engine,
      how many were dropped, and the events in order. */
  datatype Core<!S> = Core(state: S, queue: seq<Frame>, renders: seq<Frame>,
                           fed: seq<nat>, dropped: nat, log: seq<Event>)

  function Silence(n: nat): (f: Frame)
    ensures |f| == n && forall i :: 0 <= i < n ==> f[i] == 0
  {
    seq(n, i => 0)
  }

  /** QueueRenderFrame (webrtc_aec_jni.cpp:196-201). */
  function Queued<S>(c: Core<S>, frame: Frame): Core<S>
  {
    var full := |c.queue| >= MAXIMUM_QUEUED;
    c.(queue := (if full then c.queue[1..] else c.queue) + [frame], renders := c.renders + [frame],
       dropped := c.dropped + if full then 1 else 0)
  }

  /** FeedNextRenderFrame (webrtc_aec_jni.cpp:203-212). */
  function Fed<S>(g: Engine<S>, c: Core<S>, size: nat): Core<S>
  {
    if c.queue != [] && |c.queue| <= |c.renders| then
      var k := |c.renders| - |c.queue|;
      c.(state := g.analyzeRender(c.state, c.queue[0]), queue := c.queue[1..], fed := c.fed + [k],
         log := c.log + [Analyzed(c.queue[0], Some(k), |c.queue|)])
    else
      c.(state := g.analyzeRender(c.state, Silence(size)), log := c.log + [Analyzed(Silence(size), None, |c.queue|)])
  }

  datatype Format = Format(inputRate: int, processingRate: int, inSize: nat, size: nat)

  predicate IsSupported(rate: int)
  {
    rate == 8000 || rate == 16000 || rate == 32000 || rate == 48000
  }

  function FormatOf(rate: int): Format
    requires IsSupported(rate)
  {
    var processing := if rate < MINIMUM_RATE then MINIMUM_RATE else rate;
    Format(rate, processing, rate / 100, processing / 100)
  }

  function ToProcessing<S>(f: Format, resample: (S, Frame) -> (S, Option<Frame>), s: S, frame: Frame): (S,
                           Option<Frame>)
  {
    if f.inputRate == f.processingRate then (s, Some(frame)) else resample(s, frame)
  }

  /** The resampler in front of the engine, for near-end or far-end frames. */
  function Prepared<S>(f: Format, g: Engine<S>, capture: bool, s: S, frame: Frame): (S, Option<Frame>)
  {
    if capture then ToProcessing(f, g.captureToProcessing, s, frame)
    else ToProcessing(f, g.renderToProcessing, s, frame)
  }

  /** The history after a resampler's turn, of which there is none when the two rates agree. */
  function Noted<S>(c: Core<S>, f: Format, stage: Resampling, frame: Frame, p: (S, Option<Frame>)): Core<S>
  {
    c.(state := p.0, log := if f.inputRate == f.processingRate then c.log else c.log + [Converted(stage, frame, p.1)])
  }

  /** One frame: its effect, the frame that comes back if any, and an error code or 0. */
  datatype Outcome<!S> = Outcome(core: Core<S>, bytes: seq<Byte>, code: int)

  function RenderFrame<S>(g: Engine<S>, f: Format, c: Core<S>, b: seq<Byte>): Outcome<S>
  {
    var p := Prepared(f, g, false, c.state, Decode(b));
    var c1 := Noted(c, f, RenderIn, Decode(b), p);
    match p.1
    case None => Outcome(c1, [], -5)
    case Some(frame) => Outcome(Queued(c1, frame), b, 0)
  }

  function CaptureFrame<S>(g: Engine<S>, f: Format, c: Core<S>, b: seq<Byte>, delayMs: int): Outcome<S>
  {
    var c1 := Fed(g, c, f.size);
    var p := Prepared(f, g, true, c1.state, Decode(b));
    var c2 := Noted(c1, f, CaptureIn, Decode(b), p);
    match p.1
    case None => Outcome(c2, [], -5)
    case Some(frame) =>
      var delay := if delayMs > 0 then delayMs else 0;
      var q := g.processCapture(c2.state, frame, delay);
      var c3 := c2.(state := q.0, log := c2.log + [Captured(frame, delay, q.1)]);
      var r := ToProcessing(f, g.captureFromProcessing, c3.state, q.1);
      var c4 := Noted(c3, f, CaptureOut, q.1, r);
      match r.1
      case None => Outcome(c4, [], -6)
      case Some(out) => Outcome(c4, Encode(out), 0)
  }

  function OneFrame<S>(g: Engine<S>, f: Format, c: Core<S>, b: seq<Byte>, capture: bool, delayMs: int): Outcome<S>
  {
    if capture then CaptureFrame(g, f, c, b, delayMs) else RenderFrame(g, f, c, b)
  }

  function FrameBytes(f: Format): nat
  {
    f.inSize * SAMPLE_BYTES
  }

  /** A buffer, frame after frame, until an error or less than a frame is left. The bytes are those of the frames done.
      */
  function Frames<S>(g: Engine<S>, f: Format, c: Core<S>, b: seq<Byte>, capture: bool, delayMs: int): Outcome<S>
    requires f.inSize > 0
    decreases |b|
  {
    var n := FrameBytes(f);
    if |b| < n then Outcome(c, [], 0)
    else
      var first := OneFrame(g, f, c, b[..n], capture, delayMs);
      if first.code != 0 then first
      else
        var rest := Frames(g, f, first.core, b[n..], capture, delayMs);
        rest.(bytes := first.bytes + rest.bytes)
  }

  // ---- Splitting a buffer ----

  /** What comes after a part that went well. */
  function Then<S>(g: Engine<S>, f: Format, o: Outcome<S>, b: seq<Byte>, capture: bool, delayMs: int): Outcome<S>
    requires f.inSize > 0
  {
    if o.code != 0 then o
    else
      var rest := Frames(g, f, o.core, b, capture, delayMs);
      rest.(bytes := o.bytes + rest.bytes)
  }

  /** Two calls on the parts of a buffer cut at a frame boundary do what one call on the whole does. */
  lemma {:induction false} SplitCalls<S>(g: Engine<S>, f: Format, c: Core<S>, a: seq<Byte>, b: seq<Byte>, k: nat,
                                         capture: bool, delayMs: int)
    requires f.inSize > 0 && |a| == k * FrameBytes(f)
    ensures Frames(g, f, c, a + b, capture, delayMs)
         == Then(g, f, Frames(g, f, c, a, capture, delayMs), b, capture, delayMs)
    decreases k
  {
    hide OneFrame;
    var n := FrameBytes(f);
    if k == 0 {
      assert a + b == b;
    } else {
      OneLess(k, n);
      var first := OneFrame(g, f, c, a[..n], capture, delayMs);
      assert (a + b)[..n] == a[..n] && (a + b)[n..] == a[n..] + b;
      if first.code == 0 {
        SplitCalls(g, f, first.core, a[n..], b, k - 1, capture, delayMs);
        var x := Frames(g, f, first.core, a[n..], capture, delayMs);
        if x.code == 0 {
          var y := Frames(g, f, x.core, b, capture, delayMs);
          assert first.bytes + (x.bytes + y.bytes) == (first.bytes + x.bytes) + y.bytes;
        }
      }
    }
  }

  lemma OneLess(k: nat, n: nat)
    requires k > 0
    ensures k * n >= n && k * n - n == (k - 1) * n
  {
  }

  // ---- What holds over every run ----

  /** The numbers of the far-end frames shown to the engine, in order. */
  function Sources(log: seq<Event>): seq<nat>
  {
    if log == [] then []
    else
      var e := log[|log| - 1];
      Sources(log[..|log| - 1]) + if e.Analyzed? && e.source.Some? then [e.source.value] else []
  }

  /** The last far-end event has no near-end event behind it yet; at most the near-end frame has been resampled. */
  predicate MayCapture(log: seq<Event>)
  {
    var n := |log|;
    n > 0
    && (log[n - 1].Analyzed?
        || (n > 1 && log[n - 1].Converted? && log[n - 1].stage == CaptureIn && log[n - 2].Analyzed?))
  }

  /** A far-end event shows the frame it names, or silence exactly when nothing was waiting; a near-end event directly
      follows a far-end event, with at most its own resampling in between. */
  predicate EventOk(renders: seq<Frame>, size: int, log: seq<Event>, i: nat)
    requires i < |log|
  {
    match log[i]
    case Analyzed(frame, source, waiting) =>
      (match source
       case Some(k) => k < |renders| && frame == renders[k] && waiting > 0
       case None => |frame| == size && (forall j :: 0 <= j < |frame| ==> frame[j] == 0) && waiting == 0)
    case Captured(frame, delay, out) => MayCapture(log[..i]) && delay >= 0
    case Converted(stage, frame, converted) => true
  }

  predicate LogOk(renders: seq<Frame>, size: int, log: seq<Event>)
  {
    forall i: nat :: i < |log| ==> EventOk(renders, size, log, i)
  }

  /** The queue is what is left of the far-end frames: at most 100, the newest, in order. */
  predicate QueueOk<S>(c: Core<S>, size: int)
  {
    && |c.queue| <= MAXIMUM_QUEUED && |c.queue| <= |c.renders| && c.renders[|c.renders| - |c.queue|..] == c.queue
    && forall i :: 0 <= i < |c.renders| ==> |c.renders[i]| == size
  }

  /** Every far-end frame was shown, dropped, or waits; the shown ones are in order. */
  predicate FedOk<S>(c: Core<S>)
  {
    && |c.renders| == |c.fed| + c.dropped + |c.queue|
    && c.fed == Sources(c.log)
    && (forall i, j :: 0 <= i < j < |c.fed| ==> c.fed[i] < c.fed[j])
    && forall i :: 0 <= i < |c.fed| ==> c.fed[i] < |c.renders| - |c.queue|
  }

  predicate HistoryOk<S>(c: Core<S>, size: int)
  {
    QueueOk(c, size) && FedOk(c) && LogOk(c.renders, size, c.log)
  }

  lemma SourcesAppend(log: seq<Event>, e: Event)
    ensures Sources(log + [e]) == Sources(log) + if e.Analyzed? && e.source.Some? then [e.source.value] else []
  {
    assert (log + [e])[..|log|] == log;
  }

  lemma LogAppend(renders: seq<Frame>, size: int, log: seq<Event>, e: Event)
    requires LogOk(renders, size, log) && EventOk(renders, size, log + [e], |log|)
    ensures LogOk(renders, size, log + [e])
  {
    var l := log + [e];
    forall i: nat | i < |l|
      ensures EventOk(renders, size, l, i)
    {
      if i < |log| {
        assert EventOk(renders, size, log, i);
        assert l[..i] == log[..i];
      }
    }
  }

  lemma LogGrows(renders: seq<Frame>, frame: Frame, size: int, log: seq<Event>)
    requires LogOk(renders, size, log)
    ensures LogOk(renders + [frame], size, log)
  {
    forall i: nat | i < |log|
      ensures EventOk(renders + [frame], size, log, i)
    {
      assert EventOk(renders, size, log, i);
    }
  }

  lemma QueuedKeeps<S>(c: Core<S>, frame: Frame, size: int)
    requires HistoryOk(c, size) && |frame| == size
    ensures HistoryOk(Queued(c, frame), size)
  {
    hide LogOk, Sources;
    LogGrows(c.renders, frame, size, c.log);
    var d := Queued(c, frame);
    var kept := if |c.queue| >= MAXIMUM_QUEUED then c.queue[1..] else c.queue;
    var at := |c.renders| - |kept|;
    assert c.renders[at..] == kept;
    assert (c.renders + [frame])[at..] == c.renders[at..] + [frame];
    assert d.queue == kept + [frame] && |d.renders| - |d.queue| == at;
  }

  lemma FedKeeps<S>(g: Engine<S>, c: Core<S>, size: nat)
    requires HistoryOk(c, size)
    ensures HistoryOk(Fed(g, c, size), size)
    ensures Fed(g, c, size).log != [] && Fed(g, c, size).log[|c.log|].Analyzed? && |Fed(g, c, size).log| == |c.log| + 1
  {
    hide LogOk, Sources;
    var d := Fed(g, c, size);
    var e := d.log[|c.log|];
    SourcesAppend(c.log, e);
    if c.queue != [] {
      var k := |c.renders| - |c.queue|;
      assert c.renders[k..][0] == c.renders[k];
      assert c.renders[k..][1..] == c.renders[k + 1..];
    }
    LogAppend(c.renders, size, c.log, e);
  }

  lemma CapturedKeeps<S>(c: Core<S>, s: S, frame: Frame, delay: nat, out: Frame, size: int)
    requires HistoryOk(c, size) && MayCapture(c.log)
    ensures HistoryOk(c.(state := s, log := c.log + [Captured(frame, delay, out)]), size)
  {
    hide LogOk, Sources, MayCapture;
    var e := Captured(frame, delay, out);
    SourcesAppend(c.log, e);
    assert (c.log + [e])[..|c.log|] == c.log;
    LogAppend(c.renders, size, c.log, e);
  }

  lemma NotedKeeps<S>(c: Core<S>, f: Format, stage: Resampling, frame: Frame, p: (S, Option<Frame>), size: int)
    requires HistoryOk(c, size)
    ensures HistoryOk(Noted(c, f, stage, frame, p), size) && Noted(c, f, stage, frame, p).state == p.0
    ensures stage == CaptureIn && c.log != [] && c.log[|c.log| - 1].Analyzed? ==>
      MayCapture(Noted(c, f, stage, frame, p).log)
  {
    hide LogOk, Sources;
    var e := Converted(stage, frame, p.1);
    SourcesAppend(c.log, e);
    LogAppend(c.renders, size, c.log, e);
  }

  predicate IsFormat(f: Format)
  {
    f.inSize > 0 && f.size > 0 && (f.inputRate == f.processingRate ==> f.inSize == f.size)
  }

  lemma ToProcessingSize<S(!new)>(g: Engine<S>, f: Format, s: S, frame: Frame)
    requires IsFormat(f) && IsEngine(g, f.inSize, f.size)
    ensures |frame| == f.inSize ==> Resampled(ToProcessing(f, g.renderToProcessing, s, frame).1, f.size)
    ensures |frame| == f.inSize ==> Resampled(ToProcessing(f, g.captureToProcessing, s, frame).1, f.size)
    ensures |frame| == f.size ==> Resampled(ToProcessing(f, g.captureFromProcessing, s, frame).1, f.inSize)
  {
  }

  lemma OneFrameKeeps<S(!new)>(g: Engine<S>, f: Format, c: Core<S>, b: seq<Byte>, capture: bool, delayMs: int)
    requires IsFormat(f) && IsEngine(g, f.inSize, f.size) && HistoryOk(c, f.size) && |b| == FrameBytes(f)
    ensures HistoryOk(OneFrame(g, f, c, b, capture, delayMs).core, f.size)
    ensures OneFrame(g, f, c, b, capture, delayMs).code == 0 ==> |OneFrame(g, f, c, b, capture, delayMs).bytes| == |b|
    ensures OneFrame(g, f, c, b, capture, delayMs).code in {0, -5, -6}
  {
    hide HistoryOk, ToProcessing, Queued, Fed, IsEngine, Noted, MayCapture;
    if capture {
      FedKeeps(g, c, f.size);
      var c1 := Fed(g, c, f.size);
      var p := Prepared(f, g, true, c1.state, Decode(b));
      ToProcessingSize(g, f, c1.state, Decode(b));
      NotedKeeps(c1, f, CaptureIn, Decode(b), p, f.size);
      var c2 := Noted(c1, f, CaptureIn, Decode(b), p);
      if p.1.Some? {
        var delay := if delayMs > 0 then delayMs else 0;
        var q := g.processCapture(p.0, p.1.value, delay);
        CaptureSize(g, f, p.0, p.1.value, delay);
        CapturedKeeps(c2, q.0, p.1.value, delay, q.1, f.size);
        var c3 := c2.(state := q.0, log := c2.log + [Captured(p.1.value, delay, q.1)]);
        ToProcessingSize(g, f, q.0, q.1);
        NotedKeeps(c3, f, CaptureOut, q.1, ToProcessing(f, g.captureFromProcessing, q.0, q.1), f.size);
      }
    } else {
      var p := Prepared(f, g, false, c.state, Decode(b));
      ToProcessingSize(g, f, c.state, Decode(b));
      NotedKeeps(c, f, RenderIn, Decode(b), p, f.size);
      if p.1.Some? {
        QueuedKeeps(Noted(c, f, RenderIn, Decode(b), p), p.1.value, f.size);
      }
    }
  }

  lemma CaptureSize<S(!new)>(g: Engine<S>, f: Format, s: S, frame: Frame, delay: int)
    requires IsEngine(g, f.inSize, f.size) && |frame| == f.size
    ensures |g.processCapture(s, frame, delay).1| == f.size
  {
  }

  // ---- The history is what happened ----

  /** What the engine makes of one event. */
  function Effect<S>(g: Engine<S>, s: S, e: Event): S
  {
    match e
    case Analyzed(frame, source, waiting) => g.analyzeRender(s, frame)
    case Captured(frame, delay, out) => g.processCapture(s, frame, delay).0
    case Converted(stage, frame, converted) => Convert(g, s, stage, frame).0
  }

  function Convert<S>(g: Engine<S>, s: S, stage: Resampling, frame: Frame): (S, Option<Frame>)
  {
    match stage
    case RenderIn => g.renderToProcessing(s, frame)
    case CaptureIn => g.captureToProcessing(s, frame)
    case CaptureOut => g.captureFromProcessing(s, frame)
  }

  /** The engine shown the frames of the log one after the other. */
  function Replay<S>(g: Engine<S>, start: S, log: seq<Event>): S
  {
    if log == [] then start else Effect(g, Replay(g, start, log[..|log| - 1]), log[|log| - 1])
  }

  /** What the log says came back is what the engine gives for the event in state s. */
  predicate AnswerOk<S(==)>(g: Engine<S>, s: S, e: Event)
  {
    match e
    case Analyzed(frame, source, waiting) => true
    case Captured(frame, delay, out) => out == g.processCapture(s, frame, delay).1
    case Converted(stage, frame, converted) => converted == Convert(g, s, stage, frame).1
  }

  /** The state of the engine is that of an engine that was shown the frames of the log and nothing else, and what the
      log says came back is what that engine gave. */
  predicate Replays<S(==)>(g: Engine<S>, start: S, c: Core<S>)
  {
    c.state == Replay(g, start, c.log)
    && forall i :: 0 <= i < |c.log| ==> AnswerOk(g, Replay(g, start, c.log[..i]), c.log[i])
  }

  /** One more event. */
  lemma ReplaysOne<S>(g: Engine<S>, start: S, c: Core<S>, d: Core<S>, e: Event)
    requires Replays(g, start, c) && AnswerOk(g, c.state, e)
    requires d.state == Effect(g, c.state, e) && d.log == c.log + [e]
    ensures Replays(g, start, d)
  {
    hide Effect, AnswerOk;
    assert d.log[..|d.log| - 1] == c.log;
    forall i | 0 <= i < |d.log|
      ensures AnswerOk(g, Replay(g, start, d.log[..i]), d.log[i])
    {
      if i < |c.log| {
        assert d.log[..i] == c.log[..i];
        assert AnswerOk(g, Replay(g, start, c.log[..i]), c.log[i]);
      } else {
        assert d.log[..i] == c.log;
      }
    }
  }

  lemma FedReplays<S>(g: Engine<S>, start: S, c: Core<S>, size: nat)
    requires Replays(g, start, c)
    ensures Replays(g, start, Fed(g, c, size))
  {
    hide Replays;
    var d := Fed(g, c, size);
    ReplaysOne(g, start, c, d, d.log[|c.log|]);
  }

  lemma NotedReplays<S>(g: Engine<S>, start: S, c: Core<S>, f: Format, stage: Resampling, frame: Frame)
    requires Replays(g, start, c)
    ensures
      var p := ToProcessing(f, (s, x) => Convert(g, s, stage, x), c.state, frame);
      Replays(g, start, Noted(c, f, stage, frame, p))
  {
    if f.inputRate != f.processingRate {
      hide Replays;
      var p := Convert(g, c.state, stage, frame);
      var e := Converted(stage, frame, p.1);
      ReplaysOne(g, start, c, c.(state := p.0, log := c.log + [e]), e);
    }
  }

  lemma CapturedReplays<S>(g: Engine<S>, start: S, c: Core<S>, frame: Frame, delay: int)
    requires Replays(g, start, c)
    ensures
      var q := g.processCapture(c.state, frame, delay);
      Replays(g, start, c.(state := q.0, log := c.log + [Captured(frame, delay, q.1)]))
  {
    hide Replays;
    var q := g.processCapture(c.state, frame, delay);
    var e := Captured(frame, delay, q.1);
    ReplaysOne(g, start, c, c.(state := q.0, log := c.log + [e]), e);
  }

  lemma QueuedReplays<S>(g: Engine<S>, start: S, c: Core<S>, frame: Frame)
    requires Replays(g, start, c)
    ensures Replays(g, start, Queued(c, frame))
  {
  }

  lemma OneFrameReplays<S>(g: Engine<S>, f: Format, start: S, c: Core<S>, b: seq<Byte>, capture: bool, delayMs: int)
    requires Replays(g, start, c)
    ensures Replays(g, start, OneFrame(g, f, c, b, capture, delayMs).core)
  {
    hide Replays, Fed, Queued;
    if capture {
      FedReplays(g, start, c, f.size);
      var c1 := Fed(g, c, f.size);
      NotedReplays(g, start, c1, f, CaptureIn, Decode(b));
      var p := Prepared(f, g, true, c1.state, Decode(b));
      var c2 := Noted(c1, f, CaptureIn, Decode(b), p);
      if p.1.Some? {
        var delay := if delayMs > 0 then delayMs else 0;
        CapturedReplays(g, start, c2, p.1.value, delay);
        var q := g.processCapture(c2.state, p.1.value, delay);
        var c3 := c2.(state := q.0, log := c2.log + [Captured(p.1.value, delay, q.1)]);
        NotedReplays(g, start, c3, f, CaptureOut, q.1);
      }
    } else {
      NotedReplays(g, start, c, f, RenderIn, Decode(b));
      var p := Prepared(f, g, false, c.state, Decode(b));
      if p.1.Some? {
        QueuedReplays(g, start, Noted(c, f, RenderIn, Decode(b), p), p.1.value);
      }
    }
  }

  /** Over any buffer, and so over any run of calls: the engine is in the state of one that was shown the frames of the
      log in their order. */
  lemma {:induction false} FramesReplay<S>(g: Engine<S>, f: Format, start: S, c: Core<S>, b: seq<Byte>, capture: bool,
                                           delayMs: int)
    requires f.inSize > 0 && Replays(g, start, c)
    ensures Replays(g, start, Frames(g, f, c, b, capture, delayMs).core)
    decreases |b|
  {
    hide Replays, OneFrame;
    var n := FrameBytes(f);
    if |b| >= n {
      OneFrameReplays(g, f, start, c, b[..n], capture, delayMs);
      var first := OneFrame(g, f, c, b[..n], capture, delayMs);
      if first.code == 0 {
        FramesReplay(g, f, start, first.core, b[n..], capture, delayMs);
      }
    }
  }

  /** A near-end frame, call by call: the oldest far-end frame or silence is analysed, the near-end frame resampled if
      the rates differ, processed with a delay that is not negative, and resampled back; what comes back is the
      frame. */
  lemma CaptureByHand<S>(g: Engine<S>, f: Format, c: Core<S>, b: seq<Byte>, delayMs: int)
    requires |c.queue| <= |c.renders|
    ensures
      var o := CaptureFrame(g, f, c, b, delayMs);
      var s := g.analyzeRender(c.state, if c.queue != [] then c.queue[0] else Silence(f.size));
      var same := f.inputRate == f.processingRate;
      var near := if same then (s, Some(Decode(b))) else g.captureToProcessing(s, Decode(b));
      && o.core.queue == (if c.queue != [] then c.queue[1..] else [])
      && if near.1.None? then o.code == -5 && o.core.state == near.0 && o.bytes == []
         else
           var done := g.processCapture(near.0, near.1.value, if delayMs < 0 then 0 else delayMs);
           var back := if same then (done.0, Some(done.1)) else g.captureFromProcessing(done.0, done.1);
           && o.core.state == back.0
           && if back.1.None? then o.code == -6 && o.bytes == [] else o.code == 0 && o.bytes == Encode(back.1.value)
  {
    hide Decode, Encode, Silence;
  }

  /** A far-end frame, call by call: resampled if the rates differ and queued; the engine is left alone. */
  lemma RenderByHand<S>(g: Engine<S>, f: Format, c: Core<S>, b: seq<Byte>)
    ensures
      var o := RenderFrame(g, f, c, b);
      var far := if f.inputRate == f.processingRate then (c.state, Some(Decode(b)))
                 else g.renderToProcessing(c.state, Decode(b));
      && o.core.state == far.0
      && if far.1.None? then o.code == -5 && o.core.queue == c.queue
         else o.code == 0 && o.bytes == b
              && o.core.queue == (if |c.queue| < 100 then c.queue else c.queue[1..]) + [far.1.value]
  {
    hide Decode, Encode;
  }

  /** Ten milliseconds of samples at the rate of the caller and at that of the engine, which is at least 16 kHz. */
  lemma Formats()
    ensures FormatOf(8000) == Format(8000, 16000, 80, 160) && FormatOf(16000) == Format(16000, 16000, 160, 160)
    ensures FormatOf(32000) == Format(32000, 32000, 320, 320) && FormatOf(48000) == Format(48000, 48000, 480, 480)
  {
  }

  // ---- The object ----

  class WebRtcEchoCanceler<S(!new)> {
    const supported: bool
    const format: Format
    const engine: Engine<S>
    ghost const start: S
    var engineState: S
    var inputPcm: Frame
    var processingPcm: Frame
    var renderQueue: seq<Frame>
    var haveRenderReference: bool
    ghost var core: Core<S>

    ghost predicate Valid()
      reads this
    {
      supported ==>
        && IsFormat(format) && IsEngine(engine, format.inSize, format.size)
        && |inputPcm| == format.inSize && |processingPcm| == format.size
        && engineState == core.state && renderQueue == core.queue && HistoryOk(core, format.size)
        && Replays(engine, start, core)
    }

    /** The constructor (webrtc_aec_jni.cpp:29-78): an unsupported rate leaves an object that refuses every call. */
    constructor (sampleRate: int, g: Engine<S>, initial: S)
      requires IsSupported(sampleRate) ==> IsEngine(g, FormatOf(sampleRate).inSize, FormatOf(sampleRate).size)
      ensures Valid() && supported == IsSupported(sampleRate) && engine == g && !haveRenderReference
      ensures supported ==>
        format == FormatOf(sampleRate) && core == Core(initial, [], [], [], 0, []) && start == initial
    {
      var f := if IsSupported(sampleRate) then FormatOf(sampleRate) else Format(sampleRate, sampleRate, 0, 0);
      supported := IsSupported(sampleRate);
      format := f;
      engine := g;
      start := initial;
      engineState := initial;
      inputPcm := Silence(f.inSize);
      processingPcm := Silence(f.size);
      renderQueue := [];
      haveRenderReference := false;
      core := Core(initial, [], [], [], 0, []);
    }

    /** PrepareProcessingFrame (webrtc_aec_jni.cpp:159-177). */
    method PrepareProcessingFrame(capture: bool) returns (done: bool)
      requires Valid() && supported
      modifies this`engineState, this`processingPcm, this`core
      ensures
        var p := Prepared(format, engine, capture, old(core.state), inputPcm);
        && core == Noted(old(core), format, if capture then CaptureIn else RenderIn, inputPcm, p)
        && done == p.1.Some? && (done ==> processingPcm == p.1.value)
      ensures Valid()
    {
      hide IsEngine, HistoryOk, Replays;
      ToProcessingSize(engine, format, engineState, inputPcm);
      ghost var stage := if capture then CaptureIn else RenderIn;
      ghost var p := Prepared(format, engine, capture, core.state, inputPcm);
      NotedKeeps(core, format, stage, inputPcm, p, format.size);
      NotedReplays(engine, start, core, format, stage, inputPcm);
      if format.inputRate == format.processingRate {
        processingPcm := inputPcm;
        return true;
      }
      var r := if capture then engine.captureToProcessing(engineState, inputPcm)
               else engine.renderToProcessing(engineState, inputPcm);
      engineState := r.0;
      core := Noted(core, format, stage, inputPcm, r);
      done := r.1.Some?;
      if done {
        processingPcm := r.1.value;
      }
    }

    /** RestoreInputRateCaptureFrame (webrtc_aec_jni.cpp:179-194). */
    method RestoreInputRateCaptureFrame() returns (done: bool)
      requires Valid() && supported
      modifies this`engineState, this`inputPcm, this`core
      ensures
        var p := ToProcessing(format, engine.captureFromProcessing, old(core.state), processingPcm);
        && core == Noted(old(core), format, CaptureOut, processingPcm, p)
        && done == p.1.Some? && (done ==> inputPcm == p.1.value)
      ensures Valid()
    {
      hide IsEngine, HistoryOk, Replays;
      ToProcessingSize(engine, format, engineState, processingPcm);
      ghost var p := ToProcessing(format, engine.captureFromProcessing, core.state, processingPcm);
      NotedKeeps(core, format, CaptureOut, processingPcm, p, format.size);
      NotedReplays(engine, start, core, format, CaptureOut, processingPcm);
      if format.inputRate == format.processingRate {
        inputPcm := processingPcm;
        return true;
      }
      var r := engine.captureFromProcessing(engineState, processingPcm);
      engineState := r.0;
      core := Noted(core, format, CaptureOut, processingPcm, r);
      done := r.1.Some?;
      if done {
        inputPcm := r.1.value;
      }
    }

    /** QueueRenderFrame (webrtc_aec_jni.cpp:196-201): a full queue drops its oldest frame. */
    method QueueRenderFrame()
      requires Valid() && supported
      modifies this`renderQueue, this`core
      ensures Valid() && core == Queued(old(core), processingPcm)
    {
      QueuedKeeps(core, processingPcm, format.size);
      QueuedReplays(engine, start, core, processingPcm);
      core := Queued(core, processingPcm);
      if |renderQueue| >= MAXIMUM_QUEUED {
        renderQueue := renderQueue[1..];
      }
      renderQueue := renderQueue + [processingPcm];
    }

    /** FeedNextRenderFrame and ProcessRenderFrame (webrtc_aec_jni.cpp:203-228). */
    method FeedNextRenderFrame()
      requires Valid() && supported
      modifies this`engineState, this`processingPcm, this`renderQueue, this`haveRenderReference, this`core
      ensures Valid() && haveRenderReference && core == Fed(engine, old(core), format.size)
    {
      hide IsEngine, HistoryOk, Replays;
      HistoryFacts();
      FedKeeps(engine, core, format.size);
      FedReplays(engine, start, core, format.size);
      core := Fed(engine, core, format.size);
      if renderQueue != [] {
        processingPcm := renderQueue[0];
        renderQueue := renderQueue[1..];
        haveRenderReference := true;
      } else {
        processingPcm := Silence(format.size);
      }
      engineState := engine.analyzeRender(engineState, processingPcm);
      haveRenderReference := true;
    }

    lemma HistoryFacts()
      requires Valid() && supported
      ensures |core.queue| <= |core.renders| && forall i :: 0 <= i < |core.queue| ==> |core.queue[i]| == format.size
    {
      forall i | 0 <= i < |core.queue|
        ensures |core.queue[i]| == format.size
      {
        assert core.queue[i] == core.renders[|core.renders| - |core.queue| + i];
      }
    }

    /** ProcessCaptureFrame (webrtc_aec_jni.cpp:230-255): it does nothing before the first far-end frame, but is only
        ever called after one. */
    method ProcessCaptureFrame(delayMs: nat)
      requires Valid() && supported && haveRenderReference
      requires MayCapture(core.log)
      modifies this`engineState, this`processingPcm, this`core
      ensures
        var q := engine.processCapture(old(core.state), old(processingPcm), delayMs);
        core == old(core).(state := q.0, log := old(core.log) + [Captured(old(processingPcm), delayMs, q.1)])
          && processingPcm == q.1
      ensures Valid()
    {
      hide IsEngine, HistoryOk, Replays;
      if !haveRenderReference {
        return;
      }
      CaptureSize(engine, format, engineState, processingPcm, delayMs);
      var q := engine.processCapture(engineState, processingPcm, delayMs);
      CapturedKeeps(core, q.0, processingPcm, delayMs, q.1, format.size);
      CapturedReplays(engine, start, core, processingPcm, delayMs);
      core := core.(state := q.0, log := core.log + [Captured(processingPcm, delayMs, q.1)]);
      engineState := q.0;
      processingPcm := q.1;
    }

    /** The body of the frame loop (webrtc_aec_jni.cpp:111-142) once the frame has been fetched into inputPcm. */
    method ProcessFrame(b: seq<Byte>, capture: bool, delayMs: int) returns (code: int, bytes: seq<Byte>)
      requires Valid() && supported && |b| == FrameBytes(format)
      modifies this
      ensures Valid() && Outcome(core, bytes, code) == OneFrame(engine, format, old(core), b, capture, delayMs)
    {
      hide IsEngine, HistoryOk, ToProcessing, Queued, Fed, Noted, MayCapture, Replays;
      inputPcm := Decode(b);
      if capture {
        FedKeeps(engine, core, format.size);
        FeedNextRenderFrame();
        ghost var p := Prepared(format, engine, true, core.state, inputPcm);
        NotedKeeps(core, format, CaptureIn, inputPcm, p, format.size);
        var done := PrepareProcessingFrame(true);
        if !done {
          return -5, [];
        }
        ProcessCaptureFrame(if delayMs > 0 then delayMs else 0);
        done := RestoreInputRateCaptureFrame();
        if !done {
          return -6, [];
        }
        return 0, Encode(inputPcm);
      } else {
        var done := PrepareProcessingFrame(false);
        if !done {
          return -5, [];
        }
        QueueRenderFrame();
        return 0, b;
      }
    }

    /** The frame loop body with its two accesses to the byte array (webrtc_aec_jni.cpp:111-142). */
    method FrameAt(pcm: array<Byte>, at: nat, capture: bool, delayMs: int) returns (code: int, ghost bytes: seq<Byte>)
      requires Valid() && supported && at + FrameBytes(format) <= pcm.Length
      modifies this, pcm
      ensures Valid()
      ensures Outcome(core, bytes, code)
           == OneFrame(engine, format, old(core), old(pcm[..])[at..at + FrameBytes(format)], capture, delayMs)
      ensures code == 0 ==> |bytes| == FrameBytes(format)
      ensures code == 0 ==> pcm[..] == old(pcm[..])[..at] + bytes + old(pcm[..])[at + FrameBytes(format)..]
      ensures code != 0 ==> pcm[..] == old(pcm[..])
    {
      hide IsEngine, HistoryOk, OneFrame;
      ghost var p0 := pcm[..];
      var n := FrameBytes(format);
      var b := pcm[at..at + n];
      assert b == p0[at..at + n];
      OneFrameKeeps(engine, format, core, b, capture, delayMs);
      var out;
      code, out := ProcessFrame(b, capture, delayMs);
      bytes := out;
      if code != 0 {
        return;
      }
      forall i | 0 <= i < n {
        pcm[at + i] := out[i];
      }
      Written(p0, at, n, pcm[..], out);
    }

    /** The frame at place at of a region of which the frames before are done. */
    method RegionFrame(pcm: array<Byte>, offset: nat, whole: nat, at: nat, capture: bool, delayMs: int,
                       ghost p0: seq<Byte>, ghost c0: Core<S>, ghost region: seq<Byte>, ghost done: seq<Byte>)
        returns (code: int, ghost bytes: seq<Byte>)
      requires Valid() && supported && |done| == at && at + FrameBytes(format) <= whole
      requires offset + whole <= |p0| == pcm.Length && region == p0[offset..offset + whole]
      requires Patched(pcm[..], p0, offset, done) && Continues(core, c0, region, capture, delayMs, done, at)
      modifies this, pcm
      ensures Valid() && IsFormat(format)
      ensures code == 0 ==> |bytes| == FrameBytes(format) && Patched(pcm[..], p0, offset, done + bytes)
      ensures code == 0 ==>
        Continues(core, c0, region, capture, delayMs, done + bytes, at + FrameBytes(format))
      ensures code != 0 ==> Patched(pcm[..], p0, offset, done)
      ensures code != 0 ==> Frames(engine, format, c0, region, capture, delayMs) == Outcome(core, done, code)
    {
      hide *;
      FormatFacts();
      var n := FrameBytes(format);
      ghost var before, now := core, pcm[..];
      NextFrame(p0, offset, done, now, at, n, whole);
      code, bytes := FrameAt(pcm, offset + at, capture, delayMs);
      ghost var first := Outcome(core, bytes, code);
      assert first == OneFrame(engine, format, before, region[at..][..n], capture, delayMs);
      Continued(c0, region, capture, delayMs, done, at, before, first);
      if code != 0 {
        NoBytes(engine, format, before, region[at..][..n], capture, delayMs);
        assert done + [] == done;
        return;
      }
      Spliced(p0, offset, done, now, pcm[..], at, bytes);
    }

    /** The frame loop of Process (webrtc_aec_jni.cpp:109-143). */
    method ProcessFrames(pcm: array<Byte>, offset: nat, whole: nat, capture: bool, delayMs: int) returns (code: int)
      requires Valid() && supported && offset + whole <= pcm.Length && whole % FrameBytes(format) == 0
      modifies this, pcm
      ensures Valid() && IsFormat(format)
      ensures
        var o := Frames(engine, format, old(core), old(pcm[..])[offset..offset + whole], capture, delayMs);
        && core == o.core && code == o.code && |o.bytes| <= whole
        && pcm[..] == old(pcm[..])[..offset] + o.bytes + old(pcm[..])[offset + |o.bytes|..]
    {
      hide *;
      var n := FrameBytes(format);
      FormatFacts();
      ghost var p0, c0 := pcm[..], core;
      ghost var region := p0[offset..offset + whole];
      ghost var done: seq<Byte> := [];
      Untouched(p0, offset);
      Begun(c0, region, capture, delayMs);
      var frameOffset := 0;
      while frameOffset < whole
        invariant 0 <= frameOffset <= whole && |done| == frameOffset
        invariant (whole - frameOffset) % n == 0
        invariant Valid() && Patched(pcm[..], p0, offset, done)
        invariant Continues(core, c0, region, capture, delayMs, done, frameOffset)
        decreases whole - frameOffset
      {
        WholeFrames(whole - frameOffset, n);
        ghost var bytes;
        code, bytes := RegionFrame(pcm, offset, whole, frameOffset, capture, delayMs, p0, c0, region, done);
        if code != 0 {
          PatchedIs(pcm[..], p0, offset, done);
          return;
        }
        done := done + bytes;
        frameOffset := frameOffset + n;
      }
      NothingLeft(region, frameOffset);
      PatchedIs(pcm[..], p0, offset, done);
      Finished(core, c0, region, capture, delayMs, done, frameOffset);
      code := 0;
    }

    /** Process (webrtc_aec_jni.cpp:86-146). Every access to the array is inside it, so the exceptions behind the codes
        -3 and -4 do not occur. */
    method Process(pcm: array?<Byte>, offset: int, size: int, capture: bool, delayMs: int) returns (code: int)
      requires Valid()
      modifies this, pcm
      ensures Valid()
      ensures !supported || pcm == null || offset < 0 || size < 0 <==> code == -1
      ensures supported ==> Replays(engine, start, core)
      ensures supported && pcm != null && offset >= 0 && size >= 0 ==>
        (code == -2 <==> offset + size > pcm.Length)
      ensures code == -1 || code == -2 ==> core == old(core) && (pcm != null ==> pcm[..] == old(pcm[..]))
      ensures code != -1 && code != -2 ==>
        IsFormat(format) && pcm != null && 0 <= offset <= offset + size <= pcm.Length
      ensures code != -1 && code != -2 ==>
        var whole := size - size % FrameBytes(format);
        var o := Frames(engine, format, old(core), old(pcm[..])[offset..offset + whole], capture, delayMs);
        && core == o.core && code == (if o.code == 0 then whole else o.code) && |o.bytes| <= whole
        && pcm[..] == old(pcm[..])[..offset] + o.bytes + old(pcm[..])[offset + |o.bytes|..]
    {
      hide IsEngine, HistoryOk, OneFrame, Frames;
      if !supported || pcm == null || offset < 0 || size < 0 {
        return -1;
      }
      if offset > pcm.Length - size {
        return -2;
      }
      var frameBytes := FrameBytes(format);
      var processedBytes := size - size % frameBytes;
      ghost var p0 := pcm[..];
      WholeFrames(size, frameBytes);
      ghost var region := p0[offset..offset + processedBytes];
      FramesCode(engine, format, core, region, capture, delayMs);
      if processedBytes == 0 {
        EmptyFrames(engine, format, core, region, capture, delayMs);
        assert p0 == p0[..offset] + [] + p0[offset..];
        return 0;
      }
      code := ProcessFrames(pcm, offset, processedBytes, capture, delayMs);
      if code == 0 {
        code := processedBytes;
      }
    }

    lemma FormatFacts()
      requires Valid() && supported
      ensures IsFormat(format) && format.inSize > 0 && FrameBytes(format) > 0
    {
    }

    lemma Begun(c0: Core<S>, region: seq<Byte>, capture: bool, delayMs: int)
      requires format.inSize > 0
      ensures Continues(c0, c0, region, capture, delayMs, [], 0)
    {
      hide OneFrame;
      assert region[0..] == region;
      var rest := Frames(engine, format, c0, region, capture, delayMs);
      assert [] + rest.bytes == rest.bytes;
    }

    /** What the whole region comes to from c0 is done plus what the rest comes to from c. */
    ghost predicate Continues(c: Core<S>, c0: Core<S>, region: seq<Byte>, capture: bool, delayMs: int, done: seq<Byte>,
                              at: int)
    {
      && 0 <= at <= |region| && format.inSize > 0
      && Frames(engine, format, c0, region, capture, delayMs)
         == Then(engine, format, Outcome(c, done, 0), region[at..], capture, delayMs)
    }

    lemma Continued(c0: Core<S>, region: seq<Byte>, capture: bool, delayMs: int, done: seq<Byte>, at: int,
                    before: Core<S>,
                    first: Outcome<S>)
      requires format.inSize > 0 && 0 <= at && at + FrameBytes(format) <= |region|
      requires Continues(before, c0, region, capture, delayMs, done, at)
      requires first == OneFrame(engine, format, before, region[at..][..FrameBytes(format)], capture, delayMs)
      ensures first.code != 0 ==>
        Frames(engine, format, c0, region, capture, delayMs) == first.(bytes := done + first.bytes)
      ensures first.code == 0 ==>
        Continues(first.core, c0, region, capture, delayMs, done + first.bytes, at + FrameBytes(format))
    {
      hide OneFrame;
      var n := FrameBytes(format);
      assert region[at..][n..] == region[at + n..];
      if first.code == 0 {
        var rest := Frames(engine, format, first.core, region[at + n..], capture, delayMs);
        assert done + (first.bytes + rest.bytes) == (done + first.bytes) + rest.bytes;
      }
    }

    lemma Finished(c: Core<S>, c0: Core<S>, region: seq<Byte>, capture: bool, delayMs: int, done: seq<Byte>, at: int)
      requires Continues(c, c0, region, capture, delayMs, done, at) && region[at..] == []
      ensures Frames(engine, format, c0, region, capture, delayMs) == Outcome(c, done, 0)
    {
      assert done + [] == done;
    }
  }

  lemma EmptyFrames<S>(g: Engine<S>, f: Format, c: Core<S>, b: seq<Byte>, capture: bool, delayMs: int)
    requires f.inSize > 0 && b == []
    ensures Frames(g, f, c, b, capture, delayMs) == Outcome(c, [], 0)
  {
  }

  lemma NoBytes<S>(g: Engine<S>, f: Format, c: Core<S>, b: seq<Byte>, capture: bool, delayMs: int)
    ensures OneFrame(g, f, c, b, capture, delayMs).code != 0 ==> OneFrame(g, f, c, b, capture, delayMs).bytes == []
  {
  }

  lemma {:induction false} FramesCode<S>(g: Engine<S>, f: Format, c: Core<S>, b: seq<Byte>, capture: bool, delayMs: int)
    requires f.inSize > 0
    ensures Frames(g, f, c, b, capture, delayMs).code in {0, -5, -6}
    decreases |b|
  {
    if |b| >= FrameBytes(f) {
      OneCode(g, f, c, b[..FrameBytes(f)], capture, delayMs);
      hide OneFrame;
      var first := OneFrame(g, f, c, b[..FrameBytes(f)], capture, delayMs);
      if first.code == 0 {
        FramesCode(g, f, first.core, b[FrameBytes(f)..], capture, delayMs);
      }
    }
  }

  lemma OneCode<S>(g: Engine<S>, f: Format, c: Core<S>, b: seq<Byte>, capture: bool, delayMs: int)
    ensures OneFrame(g, f, c, b, capture, delayMs).code in {0, -5, -6}
  {
  }

  lemma WholeFrames(size: int, n: nat)
    requires n > 0 && size >= 0
    ensures 0 <= size - size % n <= size && (size - size % n) % n == 0
    ensures size > 0 && size % n == 0 ==> size >= n && (size - n) % n == 0
  {
    var q := size / n;
    assert size - size % n == q * n;
    MultipleOf(q, n);
    if size > 0 && size % n == 0 {
      MultipleOf(q - 1, n);
      assert q >= 1 by {
        assert q <= 0 ==> q * n <= 0;
      }
    }
  }

  lemma MultipleOf(q: int, n: nat)
    requires n > 0
    ensures (q * n) % n == 0 && (q + 1) * n == q * n + n
    ensures q >= 0 ==> (q + 1) * n >= n
  {
    Arith.DivModUnique(q * n, n, q, 0);
  }

  /** The buffer p0 with done in place of its bytes from offset. */
  ghost predicate Patched(now: seq<Byte>, p0: seq<Byte>, offset: nat, done: seq<Byte>)
  {
    offset + |done| <= |p0| && now == p0[..offset] + done + p0[offset + |done|..]
  }

  lemma PatchedIs(now: seq<Byte>, p0: seq<Byte>, offset: nat, done: seq<Byte>)
    requires Patched(now, p0, offset, done)
    ensures offset + |done| <= |p0| == |now| && now == p0[..offset] + done + p0[offset + |done|..]
  {
  }

  lemma Untouched(p0: seq<Byte>, offset: nat)
    requires offset <= |p0|
    ensures Patched(p0, p0, offset, [])
  {
  }

  lemma NothingLeft(b: seq<Byte>, at: nat)
    requires at == |b|
    ensures b[at..] == []
  {
  }

  /** The next frame is still as it was at the call. */
  lemma NextFrame(p0: seq<Byte>, offset: nat, done: seq<Byte>, now: seq<Byte>, at: nat, n: nat, whole: nat)
    requires |done| == at && at + n <= whole && offset + whole <= |p0| && Patched(now, p0, offset, done)
    ensures |now| == |p0| && now[offset + at..offset + at + n] == p0[offset..offset + whole][at..][..n]
  {
  }

  lemma Written(p0: seq<Byte>, at: nat, n: nat, now: seq<Byte>, bytes: seq<Byte>)
    requires at + n <= |p0| == |now| && |bytes| == n
    requires forall i :: 0 <= i < n ==> now[at + i] == bytes[i]
    requires forall i :: 0 <= i < |p0| && !(at <= i < at + n) ==> now[i] == p0[i]
    ensures now == p0[..at] + bytes + p0[at + n..]
  {
    var goal := p0[..at] + bytes + p0[at + n..];
    forall i | 0 <= i < |now|
      ensures now[i] == goal[i]
    {
      if at <= i < at + n {
        assert now[at + (i - at)] == bytes[i - at];
      }
    }
  }

  lemma Spliced(p0: seq<Byte>, offset: nat, done: seq<Byte>, was: seq<Byte>, now: seq<Byte>, at: nat, bytes: seq<Byte>)
    requires |done| == at && offset + at + |bytes| <= |p0| && Patched(was, p0, offset, done)
    requires now == was[..offset + at] + bytes + was[offset + at + |bytes|..]
    ensures Patched(now, p0, offset, done + bytes)
  {
    assert was[..offset + at] == p0[..offset] + done;
    assert was[offset + at + |bytes|..] == p0[offset + (at + |bytes|)..];
  }
}
