/** Opening and closing streams: the counters of Device.cpp and close(), the destructor and prepareForWriting() of
    StreamOut.cpp; StreamIn.cpp has the same code for its own direction. */
module StreamLifecycle {
  import opened Options

  datatype Result = OK | NOT_INITIALIZED | INVALID_ARGUMENTS | INVALID_STATE | NOT_SUPPORTED

  const EINVAL := 22
  const ENODATA := 61
  const ENODEV := 19
  const ENOSYS := 38

  /** util::analyzeStatus (Util.h:50-65): each of the four codes has a result of its own, everything else is an invalid
      state. */
  function AnalyzeStatus(status: int): (r: Result)
    ensures r == OK <==> status == 0
    ensures r == INVALID_ARGUMENTS <==> status == -EINVAL
    ensures r == NOT_INITIALIZED <==> status == -ENODEV
    ensures r == NOT_SUPPORTED <==> status == -ENOSYS
  {
    if status == 0 then OK
    else if status == -EINVAL then INVALID_ARGUMENTS
    else if status == -ENODATA then INVALID_STATE
    else if status == -ENODEV then NOT_INITIALIZED
    else if status == -ENOSYS then NOT_SUPPORTED
    else INVALID_STATE
  }

  ghost predicate NoDuplicates(s: seq<int>)
  {
    forall i, j :: 0 <= i < j < |s| ==> s[i] != s[j]
  }

  lemma {:induction false} OnceInNoDuplicates(s: seq<int>, x: int)
    requires NoDuplicates(s)
    ensures multiset(s)[x] == if x in s then 1 else 0
  {
    if s != [] {
      var t := s[..|s| - 1];
      assert s == t + [s[|s| - 1]];
      OnceInNoDuplicates(t, x);
      if x == s[|s| - 1] {
        assert x !in t;
      }
    }
  }

  // ---- Device ----

  class Device {
    var mIsClosed: bool
    var mOpenedStreamsCount: int

    // The history as the hardware sees it: streams open now, streams closed so far,
    // and how often the device was closed.
    ghost var open: set<int>
    ghost var closed: seq<int>
    ghost var deviceCloses: nat

    ghost predicate Valid()
      reads this
    {
      && mOpenedStreamsCount == |open| && NoDuplicates(closed) && (forall h :: h in closed ==> h !in open)
      && deviceCloses == if mIsClosed then 1 else 0
    }

    constructor ()
      ensures Valid() && !mIsClosed && open == {} && closed == []
    {
      mIsClosed, mOpenedStreamsCount := false, 0;
      open, closed, deviceCloses := {}, [], 0;
    }

    /** openOutputStreamCore (Device.cpp:157-193) and openInputStreamCore (Device.cpp:195-231): converted says whether
        all arguments translate to the hardware's types, status is the answer of the hardware and handle names the
        opening. */
    method OpenStreamCore(converted: bool, status: int, handle: int) returns (r: Result, stream: StreamOut?)
      requires Valid() && handle !in open && handle !in closed
      modifies this
      ensures Valid() && closed == old(closed) && mIsClosed == old(mIsClosed)
      ensures r == OK <==> converted && status == 0
      ensures r == OK <==> stream != null
      ensures open == if r == OK then old(open) + {handle} else old(open)
      ensures stream != null ==> fresh(stream) && stream.mDevice == this && stream.halStream == handle
      ensures stream != null ==> !stream.destroyed
      ensures stream != null ==> !stream.mStopWriteThread && stream.mDataMQ == None
    {
      stream := null;
      if !converted {
        return INVALID_ARGUMENTS, null;
      }
      if status == 0 {
        stream := new StreamOut(this, handle);
        mOpenedStreamsCount := mOpenedStreamsCount + 1;
        open := open + {handle};
      }
      r := AnalyzeStatus(status);
    }

    /** closeInputStream and closeOutputStream (Device.cpp:62-72). The fatal check at zero cannot fire. */
    method CloseStream(handle: int)
      requires Valid() && handle in open
      modifies this
      ensures Valid() && open == old(open) - {handle} && closed == old(closed) + [handle] && mIsClosed == old(mIsClosed)
    {
      assert mOpenedStreamsCount != 0;
      mOpenedStreamsCount := mOpenedStreamsCount - 1;
      open, closed := open - {handle}, closed + [handle];
    }

    /** doClose (Device.cpp:558-562): the device is closed at most once, and only while no stream is open. */
    method DoClose(status: int) returns (r: Result)
      requires Valid()
      modifies this
      ensures Valid() && open == old(open) && closed == old(closed)
      ensures !old(mIsClosed) && old(open) == {} ==> mIsClosed && r == AnalyzeStatus(status)
      ensures old(mIsClosed) || old(open) != {} ==> r == INVALID_STATE && mIsClosed == old(mIsClosed)
    {
      if mIsClosed || mOpenedStreamsCount != 0 {
        return INVALID_STATE;
      }
      mIsClosed := true;
      deviceCloses := deviceCloses + 1;
      r := AnalyzeStatus(status);
    }
  }

  // ---- Stream ----

  /** Stream.h:63 writes 2 << 30 and calls it 1 GiB; it is 2 GiB. */
  const MAX_BUFFER_SIZE: nat := 0x8000_0000

  class StreamOut {
    const mDevice: Device
    const halStream: int
    var mStopWriteThread: bool
    var mDataMQ: Option<nat>
    ghost var destroyed: bool

    /** From version 6 on close() closes the stream of the hardware, before that the destructor does. */
    ghost predicate Valid(version: nat)
      reads this, mDevice
    {
      && mDevice.Valid()
      && if destroyed || (version >= 6 && mStopWriteThread)
         then halStream in mDevice.closed else halStream in mDevice.open
    }

    constructor (device: Device, stream: int)
      ensures mDevice == device && halStream == stream && !mStopWriteThread && mDataMQ == None && !destroyed
    {
      mDevice, halStream, mStopWriteThread, mDataMQ, destroyed := device, stream, false, None, false;
    }

    /** close() (StreamOut.cpp:318-330, StreamIn.cpp:326-338). */
    method Close(version: nat) returns (r: Result)
      requires Valid(version) && !destroyed
      modifies this`mStopWriteThread, mDevice
      ensures Valid(version) && mStopWriteThread
      ensures r == if old(mStopWriteThread) then INVALID_STATE else OK
      ensures mDevice.mIsClosed == old(mDevice.mIsClosed)
      ensures version >= 6 && !old(mStopWriteThread) ==>
        mDevice.closed == old(mDevice.closed) + [halStream] && mDevice.open == old(mDevice.open) - {halStream}
      ensures version < 6 || old(mStopWriteThread) ==>
        mDevice.closed == old(mDevice.closed) && mDevice.open == old(mDevice.open)
    {
      if mStopWriteThread {
        return INVALID_STATE;
      }
      mStopWriteThread := true;
      if version >= 6 {
        mDevice.CloseStream(halStream);
      }
      r := OK;
    }

    /** The destructor (StreamOut.cpp:159-179, StreamIn.cpp:156-172), which calls close() whether or not it was called
        before. */
    method Destroy(version: nat)
      requires Valid(version) && !destroyed
      modifies this, mDevice
      ensures Valid(version) && destroyed
      ensures mDevice.closed == old(mDevice.closed) + if old(halStream in mDevice.open) then [halStream] else []
      ensures mDevice.open == old(mDevice.open) - {halStream}
      ensures multiset(mDevice.closed)[halStream] == 1
    {
      var _ := Close(version);
      if version <= 5 {
        mDevice.CloseStream(halStream);
      }
      destroyed := true;
      OnceInNoDuplicates(mDevice.closed, halStream);
    }

    /** prepareForWriting (StreamOut.cpp:349-434) and prepareForReading (StreamIn.cpp:362-448): created says whether
        queues, event flag, buffer and thread could be made. The queue is as large as asked, and the product was formed
        in 32 bits only when it fits. */
    method PrepareForWriting(frameSize: nat, framesCount: nat, created: bool) returns (r: Result)
      requires frameSize < 0x1_0000_0000 && framesCount < 0x1_0000_0000
      modifies this`mDataMQ
      ensures r == OK <==> old(mDataMQ) == None && 0 < frameSize * framesCount <= MAX_BUFFER_SIZE && created
      ensures r == INVALID_STATE <==> old(mDataMQ) != None
      ensures mDataMQ == if r == OK then Some(frameSize * framesCount) else old(mDataMQ)
    {
      if mDataMQ.Some? {
        return INVALID_STATE;
      }
      if frameSize == 0 || framesCount == 0 {
        return INVALID_ARGUMENTS;
      }
      BufferFits(frameSize, framesCount);
      if frameSize > MAX_BUFFER_SIZE / framesCount {
        return INVALID_ARGUMENTS;
      }
      var size := (frameSize * framesCount) % 0x1_0000_0000;
      if !created {
        return INVALID_ARGUMENTS;
      }
      mDataMQ := Some(size);
      r := OK;
    }
  }

  /** The division test admits exactly the sizes whose product is small enough. */
  lemma BufferFits(frameSize: nat, framesCount: nat)
    requires frameSize > 0 && framesCount > 0
    ensures frameSize * framesCount > 0
    ensures frameSize <= MAX_BUFFER_SIZE / framesCount <==> frameSize * framesCount <= MAX_BUFFER_SIZE
  {
    var q := MAX_BUFFER_SIZE / framesCount;
    var rem := MAX_BUFFER_SIZE % framesCount;
    assert MAX_BUFFER_SIZE == q * framesCount + rem;
    if frameSize <= q {
      assert frameSize * framesCount <= q * framesCount;
    } else {
      assert frameSize * framesCount >= (q + 1) * framesCount;
    }
  }
}
