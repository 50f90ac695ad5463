/** The protocol of StreamOut.cpp and StreamIn.cpp: a client, a worker thread and a closer around three bounded queues
    and an event flag, as one state machine whose steps interleave freely. For playback the worker waits on NOT_EMPTY
    and answers with NOT_FULL; for capture the two flags change places. */
module StreamWorker {
  import opened Options

  datatype Direction = Playback | Capture

  /** WRITE or READ with the number of bytes asked for, a query the hardware answers, or a code the worker does not
      know. */
  datatype Command = Transfer(requested: nat) | Query | Unknown(code: int)

  datatype Retval = Ok | Failed | NotSupported

  /** count is the number that stands in the reply, which is one of bytes for transfers only. */
  datatype Status = Status(replyTo: Command, retval: Retval, count: nat)

  /** Where the worker stands in threadLoop. */
  datatype Worker =
    | NotStarted
    | Checking
    | Waiting
    | Woken
    | Took(cmd: Command)
    | Measured(cmd: Command, n: nat)
    | Ready(status: Status)
    | Replied
    | Exited

  /** Where the client stands with its one outstanding command. */
  datatype Client = Idle | Sent(cmd: Command) | Awaiting(cmd: Command) | Looking(cmd: Command)

  /** Where close() stands: it sets the stop flag, wakes the worker, and from version 6 on closes the stream of the
      hardware. */
  datatype Closer = Open | Stopping | Announced | Closed

  /** One transfer with the hardware: the command it served, how much the data queue held when the worker measured, how
      many bytes were asked for, and the hardware's answer. */
  datatype Call = Call(cmd: Command, queued: nat, asked: nat, result: int)

  /** reply is the number left in the worker's status record by the last command. sent, received, moved, hal and calls
      record the past: commands put, statuses taken, bytes that crossed between client and data queue, bytes that
      crossed between worker and hardware, transfers; late counts the calls of the hardware after its stream was closed,
      atCommand the bytes moved before the last command was put, queued what the data queue held when the worker
      measured last. */
  datatype State = State(
    dir: Direction, version: nat, capacity: nat,
    commandMQ: seq<Command>, dataMQ: seq<int>, statusMQ: seq<Status>,
    toWorker: bool, toClient: bool, stop: bool, halOpen: bool, reply: nat,
    worker: Worker, client: Client, closer: Closer,
    sent: seq<Command>, received: seq<Status>, moved: seq<int>, hal: seq<int>, late: nat,
    calls: seq<Call>, atCommand: nat, queued: nat)

  function Start(dir: Direction, version: nat): State
  {
    State(dir, version, 0, [], [], [], false, false, false, true, 0, NotStarted, Idle, Open, [], [], [], [], 0, [],
          0, 0)
  }

  datatype ClientStep =
    | PutData(bytes: seq<int>)
    | TakeData(k: nat)
    | PutCommand(cmd: Command)
    | WakeWorker
    | WaitForWorker
    | LookForStatus

  datatype WorkerStep =
    | CheckStop
    | Wait
    | WaitFails
    | ReadCommand
    | Measure
    | Move(bytes: seq<int>, result: int)
    | Answer(retval: Retval, left: nat)
    | Reject
    | Reply
    | WakeClient

  datatype Step =
    | Prepare(capacity: nat, left: nat)
    | OfClient(c: ClientStep)
    | OfWorker(w: WorkerStep)
    | StopFlag
    | StopWake
    | HardwareClose

  /** The client's side: one command at a time, data whenever it fits or is there. */
  function ByClient(s: State, step: ClientStep): Option<State>
  {
    if s.worker == NotStarted then None
    else
      match step
      case PutData(bytes) =>
        if s.dir == Playback && |s.dataMQ| + |bytes| <= s.capacity
        then Some(s.(dataMQ := s.dataMQ + bytes, moved := s.moved + bytes)) else None
      case TakeData(k) =>
        if s.dir == Capture && k <= |s.dataMQ|
        then Some(s.(dataMQ := s.dataMQ[k..], moved := s.moved + s.dataMQ[..k])) else None
      case PutCommand(cmd) =>
        if s.client == Idle && |s.commandMQ| < 1
        then Some(s.(commandMQ := s.commandMQ + [cmd], sent := s.sent + [cmd], client := Sent(cmd),
                     atCommand := |s.moved|)) else None
      case WakeWorker =>
        if s.client.Sent? then Some(s.(toWorker := true, client := Awaiting(s.client.cmd))) else None
      case WaitForWorker =>
        if s.client.Awaiting? && s.toClient then Some(s.(toClient := false, client := Looking(s.client.cmd))) else None
      case LookForStatus =>
        if !s.client.Looking? then None
        else if s.statusMQ == [] then Some(s.(client := Awaiting(s.client.cmd)))
        else Some(s.(statusMQ := s.statusMQ[1..], received := s.received + [s.statusMQ[0]], client := Idle))
  }

  /** availableToRead for playback; for capture the request cut down to availableToWrite (StreamIn.cpp:85-93). */
  function Available(s: State, requested: nat): nat
  {
    match s.dir
    case Playback => |s.dataMQ|
    case Capture =>
      var room := if |s.dataMQ| <= s.capacity then s.capacity - |s.dataMQ| else 0;
      if requested > room then room else requested
  }

  /** The calls of a closed hardware stream, after one more call. */
  function LateAfter(s: State): nat
  {
    if s.halOpen then s.late else s.late + 1
  }

  function Called(s: State, cmd: Command, n: nat, result: int): seq<Call>
  {
    s.calls + [Call(cmd, s.queued, n, result)]
  }

  /** doWrite (StreamOut.cpp:88-98) once it has measured n: a hardware that answers with a result of at least 0 took
      that many of the bytes. A failed write reports 0. */
  function WriteOut(s: State, cmd: Command, n: nat, result: int): State
  {
    if n > |s.dataMQ| then s.(reply := 0, worker := Ready(Status(cmd, Ok, 0)))
    else
      var st := if result >= 0 then Status(cmd, Ok, result) else Status(cmd, Failed, 0);
      s.(dataMQ := s.dataMQ[n..], hal := s.hal + s.dataMQ[..n],
         late := LateAfter(s), calls := Called(s, cmd, n, result),
         reply := st.count, worker := Ready(st))
  }

  /** doRead (StreamIn.cpp:94-103): a failed read leaves in the reply what an earlier command put there. */
  function ReadIn(s: State, cmd: Command, n: nat, bytes: seq<int>, result: int): State
  {
    if result < 0
    then s.(late := LateAfter(s), calls := Called(s, cmd, n, result), worker := Ready(Status(cmd, Failed, s.reply)))
    else
      s.(dataMQ := if |s.dataMQ| + |bytes| <= s.capacity then s.dataMQ + bytes else s.dataMQ,
         hal := s.hal + bytes, late := LateAfter(s), calls := Called(s, cmd, n, result), reply := result,
         worker := Ready(Status(cmd, Ok, result)))
  }

  /** The transfer proper; the hardware takes or delivers at most n bytes. */
  function Transferred(s: State, cmd: Command, n: nat, bytes: seq<int>, result: int): Option<State>
  {
    if result > n then None
    else
      match s.dir
      case Playback => Some(WriteOut(s, cmd, n, result))
      case Capture => if result < 0 || |bytes| == result then Some(ReadIn(s, cmd, n, bytes, result)) else None
  }

  /** One step of threadLoop (StreamOut.cpp:112-147, StreamIn.cpp:111-144). */
  function ByWorker(s: State, step: WorkerStep): Option<State>
  {
    match step
    case CheckStop => if s.worker == Checking then Some(s.(worker := if s.stop then Exited else Waiting)) else None
    case Wait => if s.worker == Waiting && s.toWorker then Some(s.(toWorker := false, worker := Woken)) else None
    case WaitFails => if s.worker == Waiting then Some(s.(worker := Checking)) else None
    case ReadCommand =>
      if s.worker != Woken then None
      else if s.commandMQ == [] then Some(s.(worker := Checking))
      else Some(s.(commandMQ := s.commandMQ[1..], worker := Took(s.commandMQ[0])))
    case Measure =>
      if s.worker.Took? && s.worker.cmd.Transfer?
      then Some(s.(worker := Measured(s.worker.cmd, Available(s, s.worker.cmd.requested)), queued := |s.dataMQ|))
      else None
    case Move(bytes, result) =>
      if s.worker.Measured? then Transferred(s, s.worker.cmd, s.worker.n, bytes, result) else None
    case Answer(retval, left) =>
      if s.worker.Took? && s.worker.cmd.Query?
      then Some(s.(late := LateAfter(s), reply := left, worker := Ready(Status(s.worker.cmd, retval, left)))) else None
    case Reject =>
      if s.worker.Took? && s.worker.cmd.Unknown?
      then Some(s.(worker := Ready(Status(s.worker.cmd, NotSupported, s.reply)))) else None
    case Reply =>
      if !s.worker.Ready? then None
      else if |s.statusMQ| < 1 then Some(s.(statusMQ := s.statusMQ + [s.worker.status], worker := Replied))
      else Some(s.(worker := Replied))
    case WakeClient => if s.worker == Replied then Some(s.(toClient := true, worker := Checking)) else None
  }

  /** Any step of the system. Preparing and closing come from the same thread, so nothing is prepared in the middle of
      close() (StreamOut.cpp:318-330, StreamIn.cpp:326-338). The status record of a new worker holds any number. The
      stream of the hardware is closed at the end of close() from version 6 on, and before that in the destructor, after
      the join (StreamOut.cpp:159-175, StreamIn.cpp:156-170). */
  function Next(s: State, step: Step): Option<State>
  {
    match step
    case Prepare(capacity, left) =>
      if s.worker == NotStarted && (s.closer == Open || s.closer == Closed) && (s.version >= 6 || s.halOpen)
      then Some(s.(capacity := capacity, reply := left, worker := Checking)) else None
    case OfClient(c) => ByClient(s, c)
    case OfWorker(w) => ByWorker(s, w)
    case StopFlag => if s.stop then None else Some(s.(stop := true, closer := Stopping))
    case StopWake =>
      if s.closer == Stopping
      then Some(s.(toWorker := s.toWorker || s.worker != NotStarted,
                   closer := if s.version >= 6 then Announced else Closed))
      else None
    case HardwareClose =>
      if s.version >= 6 then if s.closer == Announced then Some(s.(halOpen := false, closer := Closed)) else None
      else if s.closer == Closed && s.halOpen && (s.worker == NotStarted || s.worker == Exited)
      then Some(s.(halOpen := false)) else None
  }

  /** A whole run; a step that is not possible changes nothing. */
  function Run(dir: Direction, version: nat, steps: seq<Step>): State
  {
    if steps == [] then Start(dir, version)
    else
      var s := Run(dir, version, steps[..|steps| - 1]);
      match Next(s, steps[|steps| - 1])
      case None => s
      case Some(t) => t
  }

  // ---- Invariants ----

  function Pending(c: Client): seq<Command>
  {
    if c == Idle then [] else [c.cmd]
  }

  function Held(w: Worker): seq<Command>
  {
    match w
    case Took(cmd) => [cmd]
    case Measured(cmd, n) => [cmd]
    case Ready(status) => [status.replyTo]
    case _ => []
  }

  function ReplyTos(q: seq<Status>): (r: seq<Command>)
    ensures |r| == |q|
  {
    seq(|q|, i requires 0 <= i < |q| => q[i].replyTo)
  }

  /** The outstanding command is in exactly one place: the command queue, the worker's hands, or the status queue. */
  predicate OnePlace(s: State)
  {
    s.commandMQ + Held(s.worker) + ReplyTos(s.statusMQ) == Pending(s.client)
  }

  /** Every command sent has been answered in order with a status of its own, save the outstanding one. */
  predicate Answered(s: State)
  {
    ReplyTos(s.received) + Pending(s.client) == s.sent
  }

  /** No byte is lost, repeated or reordered on its way through the data queue. */
  predicate Conserved(s: State)
  {
    && |s.dataMQ| <= s.capacity
    && (s.worker == NotStarted ==> s.dataMQ == [])
    && (s.worker.Measured? ==> s.worker.cmd.Transfer?)
    && match s.dir
       case Playback => s.hal + s.dataMQ == s.moved && (s.worker.Measured? ==> s.worker.n <= |s.dataMQ|)
       case Capture => s.moved + s.dataMQ == s.hal && (s.worker.Measured? ==> s.worker.n <= s.capacity - |s.dataMQ|)
  }

  /** A worker at its wait will be woken once stop is set. */
  predicate ShutdownKept(s: State)
  {
    (s.closer == Open <==> !s.stop) && (s.worker == Waiting && s.stop ==> s.toWorker || s.closer == Stopping)
  }

  /** A command that has been announced, and a status that has been queued, have their wake-up still coming. */
  predicate WakeupsKept(s: State)
  {
    && (s.client.Awaiting? || s.client.Looking? ==> s.commandMQ == [] || s.toWorker || s.worker == Woken)
    && (s.statusMQ == [] || s.toClient || s.worker == Replied || s.client.Looking?)
    && (s.client != Idle ==> s.worker != NotStarted)
  }

  /** All statuses so far: taken, queued, and about to be queued. */
  function Statuses(s: State): seq<Status>
  {
    s.received + s.statusMQ + if s.worker.Ready? then [s.worker.status] else []
  }

  /** The bytes a status reports when it is a transfer's and OK. */
  function Delivered(st: Status): nat
  {
    if st.replyTo.Transfer? && st.retval == Ok then st.count else 0
  }

  /** The number that stands in the status of a failed transfer. */
  function Stale(st: Status): nat
  {
    if st.replyTo.Transfer? && st.retval != Ok then st.count else 0
  }

  function DeliveredCounts(q: seq<Status>): nat
  {
    if q == [] then 0 else DeliveredCounts(q[..|q| - 1]) + Delivered(q[|q| - 1])
  }

  function StaleCounts(q: seq<Status>): nat
  {
    if q == [] then 0 else StaleCounts(q[..|q| - 1]) + Stale(q[|q| - 1])
  }

  /** For capture the counts of the successful transfers are exactly the bytes delivered, for playback no more than the
      bytes handed over, and then no failed transfer reports anything. */
  predicate CountsRight(s: State)
  {
    && DeliveredCounts(Statuses(s)) <= |s.hal|
    && (s.dir == Capture ==> DeliveredCounts(Statuses(s)) == |s.hal|)
    && (s.dir == Playback ==> StaleCounts(Statuses(s)) == 0)
  }

  /** The worker may still call the hardware before it looks at the stop flag again. */
  predicate MayCall(w: Worker)
  {
    w == Waiting || w == Woken || w.Took? || w.Measured?
  }

  /** Up to version 5 the hardware is never called after its stream is closed; from version 6 on at most once. */
  predicate LateRight(s: State)
  {
    && (!s.halOpen ==> s.stop) && (s.halOpen ==> s.late == 0)
    && (s.version <= 5 ==> s.late == 0 && (!s.halOpen ==> s.worker == NotStarted || s.worker == Exited))
    && s.late <= 1 && (MayCall(s.worker) ==> s.late == 0)
    && (s.worker == NotStarted ==> s.late == 0)
  }

  predicate Inv(s: State)
  {
    OnePlace(s) && Answered(s) && Conserved(s) && ShutdownKept(s) && WakeupsKept(s) && CountsRight(s) && LateRight(s)
  }

  /** The three places are never filled twice. */
  lemma Places(s: State)
    requires OnePlace(s)
    ensures |s.commandMQ| + |Held(s.worker)| + |s.statusMQ| == |Pending(s.client)| <= 1
    ensures s.client == Idle ==> s.commandMQ == [] && s.statusMQ == [] && Held(s.worker) == []
    ensures |s.commandMQ| == 1 ==> Held(s.worker) == [] && s.statusMQ == [] && Pending(s.client) == s.commandMQ
    ensures |Held(s.worker)| == 1 ==> s.commandMQ == [] && s.statusMQ == [] && Pending(s.client) == Held(s.worker)
    ensures |s.statusMQ| == 1 ==>
      s.commandMQ == [] && Held(s.worker) == [] && Pending(s.client) == [s.statusMQ[0].replyTo]
  {
    hide Held;
    var all := s.commandMQ + Held(s.worker) + ReplyTos(s.statusMQ);
    assert all == Pending(s.client);
    if |s.statusMQ| == 1 {
      assert ReplyTos(s.statusMQ) == [s.statusMQ[0].replyTo];
    }
  }

  lemma CountsAppend(q: seq<Status>, x: Status)
    ensures DeliveredCounts(q + [x]) == DeliveredCounts(q) + Delivered(x)
    ensures StaleCounts(q + [x]) == StaleCounts(q) + Stale(x)
  {
    assert (q + [x])[..|q|] == q;
  }

  lemma AppendReply(q: seq<Status>, x: Status)
    ensures ReplyTos(q + [x]) == ReplyTos(q) + [x.replyTo]
  {
  }

  lemma One<T>(q: seq<T>)
    requires |q| == 1
    ensures q == [q[0]] && q[1..] == []
  {
  }

  // ---- Steps of the client keep the invariants ----

  lemma ClientPlaces(s: State, step: ClientStep)
    requires OnePlace(s) && Answered(s) && ByClient(s, step).Some?
    ensures OnePlace(ByClient(s, step).value) && Answered(ByClient(s, step).value)
  {
    hide ByClient, OnePlace, Answered;
    match step
    case PutCommand(cmd) => CommandPut(s, cmd);
    case LookForStatus => StatusTaken(s);
    case _ => OtherPlaces(s, step);
  }

  lemma CommandPut(s: State, cmd: Command)
    requires OnePlace(s) && Answered(s) && ByClient(s, PutCommand(cmd)).Some?
    ensures OnePlace(ByClient(s, PutCommand(cmd)).value) && Answered(ByClient(s, PutCommand(cmd)).value)
  {
    hide Held, ReplyTos;
    Places(s);
    assert ReplyTos([]) == [];
    assert s.commandMQ + [cmd] == [cmd];
    assert s.sent == ReplyTos(s.received);
  }

  lemma StatusTaken(s: State)
    requires OnePlace(s) && Answered(s) && ByClient(s, LookForStatus).Some?
    ensures OnePlace(ByClient(s, LookForStatus).value) && Answered(ByClient(s, LookForStatus).value)
  {
    hide Held, ReplyTos;
    Places(s);
    if s.statusMQ != [] {
      One(s.statusMQ);
      AppendReply(s.received, s.statusMQ[0]);
      AppendReply([], s.statusMQ[0]);
      assert [] + [s.statusMQ[0]] == s.statusMQ;
    }
  }

  lemma OtherPlaces(s: State, step: ClientStep)
    requires OnePlace(s) && Answered(s) && ByClient(s, step).Some? && !step.PutCommand? && !step.LookForStatus?
    ensures OnePlace(ByClient(s, step).value) && Answered(ByClient(s, step).value)
  {
    hide Held, ReplyTos;
  }

  lemma PutConserves(s: State, bytes: seq<int>)
    requires Conserved(s) && ByClient(s, PutData(bytes)).Some?
    ensures Conserved(ByClient(s, PutData(bytes)).value)
  {
    assert s.hal + (s.dataMQ + bytes) == s.hal + s.dataMQ + bytes;
  }

  lemma TakeConserves(s: State, k: nat)
    requires Conserved(s) && ByClient(s, TakeData(k)).Some?
    ensures Conserved(ByClient(s, TakeData(k)).value)
  {
    assert s.moved + s.dataMQ[..k] + s.dataMQ[k..] == s.moved + (s.dataMQ[..k] + s.dataMQ[k..]);
    assert s.dataMQ[..k] + s.dataMQ[k..] == s.dataMQ;
  }

  lemma ClientConserves(s: State, step: ClientStep)
    requires Conserved(s) && ByClient(s, step).Some?
    ensures Conserved(ByClient(s, step).value)
  {
    hide Conserved, ByClient;
    if step.PutData? {
      PutConserves(s, step.bytes);
    } else if step.TakeData? {
      TakeConserves(s, step.k);
    } else {
      OnlyWords(s, step);
    }
  }

  /** Steps that move no data. */
  lemma OnlyWords(s: State, step: ClientStep)
    requires Conserved(s) && ByClient(s, step).Some? && !step.PutData? && !step.TakeData?
    ensures Conserved(ByClient(s, step).value)
  {
  }

  lemma ClientFlags(s: State, step: ClientStep)
    requires OnePlace(s) && ShutdownKept(s) && WakeupsKept(s) && LateRight(s) && ByClient(s, step).Some?
    ensures ShutdownKept(ByClient(s, step).value) && WakeupsKept(ByClient(s, step).value)
      && LateRight(ByClient(s, step).value)
  {
    hide Held, MayCall, OnePlace;
    Places(s);
  }

  lemma ClientCounts(s: State, step: ClientStep)
    requires CountsRight(s) && ByClient(s, step).Some?
    ensures CountsRight(ByClient(s, step).value)
  {
    hide DeliveredCounts, StaleCounts;
    ClientStatuses(s, step);
  }

  lemma ClientStatuses(s: State, step: ClientStep)
    requires ByClient(s, step).Some?
    ensures
      var t := ByClient(s, step).value;
      Statuses(t) == Statuses(s) && t.hal == s.hal && t.dir == s.dir && t.reply == s.reply
  {
    if step.LookForStatus? && s.statusMQ != [] {
      assert s.received + [s.statusMQ[0]] + s.statusMQ[1..] == s.received + s.statusMQ;
    }
  }

  // ---- Steps of the worker keep the invariants ----

  /** Steps that only look at flags. */
  predicate Looks(step: WorkerStep)
  {
    step.CheckStop? || step.Wait? || step.WaitFails? || step.WakeClient?
  }

  lemma LooksKeep(s: State, step: WorkerStep)
    requires Inv(s) && ByWorker(s, step).Some? && Looks(step)
    ensures Inv(ByWorker(s, step).value)
  {
    hide ReplyTos, DeliveredCounts, StaleCounts, Pending;
  }

  lemma ReadCommandKeeps(s: State)
    requires Inv(s) && ByWorker(s, ReadCommand).Some?
    ensures Inv(ByWorker(s, ReadCommand).value)
  {
    hide OnePlace, Answered, Conserved, ShutdownKept, WakeupsKept, CountsRight, LateRight, ByWorker;
    ReadCommandPlaces(s);
    ReadCommandFlags(s);
  }

  lemma ReadCommandPlaces(s: State)
    requires OnePlace(s) && Answered(s) && ByWorker(s, ReadCommand).Some?
    ensures OnePlace(ByWorker(s, ReadCommand).value) && Answered(ByWorker(s, ReadCommand).value)
  {
    hide ReplyTos, Pending;
    Places(s);
    if s.commandMQ != [] {
      One(s.commandMQ);
      assert s.commandMQ + Held(s.worker) == Held(Took(s.commandMQ[0]));
    }
  }

  lemma ReadCommandFlags(s: State)
    requires Conserved(s) && ShutdownKept(s) && WakeupsKept(s) && CountsRight(s) && LateRight(s) && OnePlace(s)
    requires ByWorker(s, ReadCommand).Some?
    ensures
      var t := ByWorker(s, ReadCommand).value;
      Conserved(t) && ShutdownKept(t) && WakeupsKept(t) && CountsRight(t) && LateRight(t)
  {
    hide ReplyTos, DeliveredCounts, StaleCounts, Pending, OnePlace;
    Places(s);
    if s.commandMQ != [] {
      One(s.commandMQ);
    }
  }

  lemma MeasureKeeps(s: State)
    requires Inv(s) && ByWorker(s, Measure).Some?
    ensures Inv(ByWorker(s, Measure).value)
  {
    hide ReplyTos, DeliveredCounts, StaleCounts, Pending;
  }

  lemma AnswerKeeps(s: State, step: WorkerStep)
    requires Inv(s) && ByWorker(s, step).Some? && (step.Answer? || step.Reject?)
    ensures Inv(ByWorker(s, step).value)
  {
    hide ReplyTos, DeliveredCounts, StaleCounts, Pending;
    StatusAdded(s, ByWorker(s, step).value.worker.status);
  }

  /** A new status to report. */
  lemma StatusAdded(s: State, st: Status)
    requires !s.worker.Ready?
    ensures Statuses(s) + [st] == s.received + s.statusMQ + [st]
    ensures DeliveredCounts(s.received + s.statusMQ + [st]) == DeliveredCounts(Statuses(s)) + Delivered(st)
    ensures StaleCounts(s.received + s.statusMQ + [st]) == StaleCounts(Statuses(s)) + Stale(st)
  {
    hide DeliveredCounts, StaleCounts;
    assert Statuses(s) == s.received + s.statusMQ;
    CountsAppend(Statuses(s), st);
  }

  lemma MoveConserves(s: State, bytes: seq<int>, result: int)
    requires Conserved(s) && ByWorker(s, Move(bytes, result)).Some?
    ensures Conserved(ByWorker(s, Move(bytes, result)).value)
  {
    var n := s.worker.n;
    match s.dir
    case Playback =>
      assert s.hal + s.dataMQ[..n] + s.dataMQ[n..] == s.hal + (s.dataMQ[..n] + s.dataMQ[n..]);
      assert s.dataMQ[..n] + s.dataMQ[n..] == s.dataMQ;
    case Capture =>
      assert s.moved + (s.dataMQ + bytes) == s.moved + s.dataMQ + bytes;
  }

  lemma MoveKeeps(s: State, bytes: seq<int>, result: int)
    requires Inv(s) && ByWorker(s, Move(bytes, result)).Some?
    ensures Inv(ByWorker(s, Move(bytes, result)).value)
  {
    hide OnePlace, Answered, Conserved, ShutdownKept, WakeupsKept, CountsRight, LateRight, ByWorker;
    MoveConserves(s, bytes, result);
    MovePlaces(s, bytes, result);
    MoveCounts(s, bytes, result);
    MoveFlags(s, bytes, result);
  }

  /** t differs from s in data, reply and worker only, and by at most one call of the hardware. */
  predicate MovedOnly(s: State, t: State, cmd: Command)
  {
    && t.worker.Ready? && t.worker.status.replyTo == cmd
    && t.dir == s.dir && t.commandMQ == s.commandMQ && t.statusMQ == s.statusMQ && t.client == s.client
    && t.sent == s.sent && t.received == s.received && t.toWorker == s.toWorker && t.toClient == s.toClient
    && t.stop == s.stop && t.closer == s.closer && t.halOpen == s.halOpen && t.version == s.version
    && (t.late == s.late || t.late == LateAfter(s))
  }

  lemma WriteFrame(s: State, cmd: Command, n: nat, result: int)
    ensures MovedOnly(s, WriteOut(s, cmd, n, result), cmd)
  {
    hide LateAfter;
  }

  lemma ReadFrame(s: State, cmd: Command, n: nat, bytes: seq<int>, result: int)
    ensures MovedOnly(s, ReadIn(s, cmd, n, bytes, result), cmd)
  {
    hide LateAfter;
  }

  /** What moving the data leaves alone. */
  lemma MoveFrame(s: State, bytes: seq<int>, result: int)
    requires ByWorker(s, Move(bytes, result)).Some?
    ensures s.worker.Measured? && MovedOnly(s, ByWorker(s, Move(bytes, result)).value, s.worker.cmd)
  {
    hide MovedOnly, WriteOut, ReadIn;
    var cmd := s.worker.cmd;
    match s.dir
    case Playback => WriteFrame(s, cmd, s.worker.n, result);
    case Capture => ReadFrame(s, cmd, s.worker.n, bytes, result);
  }

  lemma MoveFlags(s: State, bytes: seq<int>, result: int)
    requires ShutdownKept(s) && WakeupsKept(s) && LateRight(s) && ByWorker(s, Move(bytes, result)).Some?
    ensures ShutdownKept(ByWorker(s, Move(bytes, result)).value) && WakeupsKept(ByWorker(s, Move(bytes, result)).value)
    ensures LateRight(ByWorker(s, Move(bytes, result)).value)
  {
    hide ByWorker;
    MoveFrame(s, bytes, result);
  }

  lemma MovePlaces(s: State, bytes: seq<int>, result: int)
    requires OnePlace(s) && Answered(s) && ByWorker(s, Move(bytes, result)).Some?
    ensures OnePlace(ByWorker(s, Move(bytes, result)).value) && Answered(ByWorker(s, Move(bytes, result)).value)
  {
    hide ReplyTos, Pending, ByWorker;
    MoveFrame(s, bytes, result);
  }

  /** What the status of a transfer reports, and what the hardware got or gave. */
  lemma MoveReport(s: State, bytes: seq<int>, result: int)
    requires Conserved(s) && ByWorker(s, Move(bytes, result)).Some?
    ensures
      var t := ByWorker(s, Move(bytes, result)).value;
      && t.worker.Ready? && |t.hal| >= |s.hal| + Delivered(t.worker.status)
      && (s.dir == Capture ==> |t.hal| == |s.hal| + Delivered(t.worker.status))
      && (s.dir == Playback ==> Stale(t.worker.status) == 0)
      && (s.dir == Capture && result < 0 ==> t.worker.status == Status(s.worker.cmd, Failed, s.reply))
      && (s.dir == Playback && result < 0 ==> t.worker.status == Status(s.worker.cmd, Failed, 0))
  {
    hide LateAfter;
  }

  lemma MoveCounts(s: State, bytes: seq<int>, result: int)
    requires OnePlace(s) && Conserved(s) && CountsRight(s) && ByWorker(s, Move(bytes, result)).Some?
    ensures CountsRight(ByWorker(s, Move(bytes, result)).value)
  {
    hide DeliveredCounts, StaleCounts, ReplyTos, Pending, Conserved, ByWorker, OnePlace, Delivered, Stale;
    MoveFrame(s, bytes, result);
    MoveReport(s, bytes, result);
    StatusAdded(s, ByWorker(s, Move(bytes, result)).value.worker.status);
  }

  lemma ReplyKeeps(s: State)
    requires Inv(s) && ByWorker(s, Reply).Some?
    ensures Inv(ByWorker(s, Reply).value) && ByWorker(s, Reply).value.statusMQ == [s.worker.status]
  {
    hide DeliveredCounts, StaleCounts;
    ReplyPlaces(s);
    var t := ByWorker(s, Reply).value;
    assert Statuses(t) == Statuses(s);
  }

  lemma ReplyPlaces(s: State)
    requires OnePlace(s) && ByWorker(s, Reply).Some?
    ensures s.statusMQ == [] && s.commandMQ == [] && Pending(s.client) == [s.worker.status.replyTo]
    ensures ReplyTos([s.worker.status]) == [s.worker.status.replyTo]
      && s.statusMQ + [s.worker.status] == [s.worker.status]
  {
    Places(s);
  }

  /** The status write of the worker never finds the queue full. */
  lemma StatusWriteSucceeds(s: State)
    requires Inv(s) && s.worker.Ready?
    ensures |s.statusMQ| < 1
  {
    hide Conserved, CountsRight, LateRight;
    Places(s);
  }

  /** The command write of an idle client never finds the queue full. */
  lemma CommandWriteSucceeds(s: State)
    requires Inv(s) && s.client == Idle
    ensures |s.commandMQ| < 1
  {
    hide Conserved, CountsRight, LateRight;
    Places(s);
  }

  /** The worker's own data operations never fail: what it measured is still there, or still free. */
  lemma DataOperationsSucceed(s: State)
    requires Inv(s) && s.worker.Measured?
    ensures s.dir == Playback ==> s.worker.n <= |s.dataMQ|
    ensures s.dir == Capture ==> |s.dataMQ| + s.worker.n <= s.capacity
  {
    hide OnePlace, CountsRight, LateRight;
  }

  lemma StepKeeps(s: State, step: Step)
    requires Inv(s) && Next(s, step).Some?
    ensures Inv(Next(s, step).value)
  {
    hide Inv, ByClient, ByWorker;
    match step
    case OfClient(c) =>
      ClientKeeps(s, c);
    case OfWorker(w) =>
      WorkerKeeps(s, w);
    case _ =>
      CloserKeeps(s, step);
  }

  lemma ClientKeeps(s: State, step: ClientStep)
    requires Inv(s) && ByClient(s, step).Some?
    ensures Inv(ByClient(s, step).value)
  {
    hide OnePlace, Answered, Conserved, ShutdownKept, WakeupsKept, CountsRight, LateRight, ByClient;
    ClientPlaces(s, step);
    ClientConserves(s, step);
    ClientFlags(s, step);
    ClientCounts(s, step);
  }

  lemma WorkerKeeps(s: State, step: WorkerStep)
    requires Inv(s) && ByWorker(s, step).Some?
    ensures Inv(ByWorker(s, step).value)
  {
    hide Inv, ByWorker;
    match step
    case ReadCommand => ReadCommandKeeps(s);
    case Measure => MeasureKeeps(s);
    case Move(bytes, result) => MoveKeeps(s, bytes, result);
    case Answer(retval, left) => AnswerKeeps(s, step);
    case Reject => AnswerKeeps(s, step);
    case Reply => ReplyKeeps(s);
    case _ => LooksKeep(s, step);
  }

  /** Preparing, and the three parts of closing, the hardware's included. */
  lemma CloserKeeps(s: State, step: Step)
    requires Inv(s) && Next(s, step).Some? && !step.OfClient? && !step.OfWorker?
    ensures Inv(Next(s, step).value)
  {
    hide ReplyTos, DeliveredCounts, StaleCounts, Pending;
  }

  /** Every state of every run keeps the invariants. */
  lemma {:induction false} RunKeeps(dir: Direction, version: nat, steps: seq<Step>)
    ensures Inv(Run(dir, version, steps))
    decreases |steps|
  {
    if steps == [] {
      assert ReplyTos([]) == [];
    } else {
      hide Inv, Next;
      RunKeeps(dir, version, steps[..|steps| - 1]);
      var s := Run(dir, version, steps[..|steps| - 1]);
      if Next(s, steps[|steps| - 1]).Some? {
        StepKeeps(s, steps[|steps| - 1]);
      }
    }
  }

  // ---- What the protocol promises ----

  /** Replies come in the order of the commands, each to its own command, and at most the last one is missing. */
  lemma OneStatusEach(dir: Direction, version: nat, steps: seq<Step>)
    ensures
      var s := Run(dir, version, steps);
      && |s.received| <= |s.sent| <= |s.received| + 1
      && (forall i :: 0 <= i < |s.received| ==> s.received[i].replyTo == s.sent[i])
      && (s.client == Idle ==> |s.received| == |s.sent|)
  {
    hide Run, OnePlace, Conserved, ShutdownKept, WakeupsKept, CountsRight, LateRight;
    RunKeeps(dir, version, steps);
    var s := Run(dir, version, steps);
    forall i | 0 <= i < |s.received|
      ensures s.received[i].replyTo == s.sent[i]
    {
      assert s.sent[i] == ReplyTos(s.received)[i];
    }
  }

  /** Playback: what the hardware was given, followed by what is queued, is what the client wrote. Capture: what the
      client read, followed by what is queued, is what the hardware delivered, and the counts of the reads that
      succeeded add up to it. */
  lemma BytesConserved(version: nat, steps: seq<Step>)
    ensures
      var s := Run(Playback, version, steps);
      s.hal + s.dataMQ == s.moved && DeliveredCounts(Statuses(s)) <= |s.hal|
    ensures
      var s := Run(Capture, version, steps);
      s.moved + s.dataMQ == s.hal && DeliveredCounts(Statuses(s)) == |s.hal|
  {
    DirectionKept(Playback, version, steps);
    DirectionKept(Capture, version, steps);
    RunKeeps(Playback, version, steps);
    RunKeeps(Capture, version, steps);
    hide Run, OnePlace, Answered, ShutdownKept, WakeupsKept, LateRight, Statuses, DeliveredCounts, StaleCounts;
  }

  predicate FailedTransfer(st: Status)
  {
    st.replyTo.Transfer? && st.retval != Ok
  }

  /** Every transfer that failed came right after a status with the number 0; the first status of all has to be 0
      itself. */
  predicate FailsAfterZero(q: seq<Status>)
  {
    forall i :: 0 <= i < |q| && FailedTransfer(q[i]) ==> Before(q, i).count == 0
  }

  function Before(q: seq<Status>, i: nat): Status
    requires i < |q|
  {
    if i == 0 then q[0] else q[i - 1]
  }

  /** Every transfer that failed repeats the number of the status before it. */
  predicate Repeats(q: seq<Status>)
  {
    forall i :: 0 <= i < |q| && FailedTransfer(q[i]) ==> q[i].count == Before(q, i).count
  }

  /** The reply the worker keeps holds the number of the last status, and a failed read repeats it. */
  predicate ReplyKept(s: State)
  {
    var q := Statuses(s);
    && (s.worker == NotStarted ==> q == []) && (q != [] ==> s.reply == q[|q| - 1].count)
    && (s.dir == Capture ==> Repeats(q))
  }

  /** A step adds no status and leaves the reply alone, or adds one whose number then stands in the reply. */
  predicate AddsOneStatus(s: State, t: State)
  {
    && t.dir == s.dir && (s.worker != NotStarted ==> t.worker != NotStarted)
    && ((Statuses(t) == Statuses(s) && (t.reply == s.reply || s.worker == NotStarted))
        || (s.worker != NotStarted && t.worker.Ready? && Statuses(t) == Statuses(s) + [t.worker.status]
            && t.reply == t.worker.status.count
            && (s.dir == Capture && FailedTransfer(t.worker.status) ==> t.reply == s.reply)))
  }

  lemma StatusOfStep(s: State, step: Step)
    requires Inv(s) && Next(s, step).Some?
    ensures AddsOneStatus(s, Next(s, step).value)
  {
    hide Inv, Statuses, ByClient, ByWorker;
    SameDirection(s, step);
    match step
    case OfClient(c) =>
      ClientStatuses(s, c);
      ClientFrame(s, c);
    case OfWorker(w) =>
      StatusOfWorker(s, w);
    case _ =>
      CloserStatuses(s, step);
  }

  lemma CloserStatuses(s: State, step: Step)
    requires Next(s, step).Some? && !step.OfClient? && !step.OfWorker?
    ensures Statuses(Next(s, step).value) == Statuses(s)
  {
  }

  lemma StatusOfWorker(s: State, w: WorkerStep)
    requires Inv(s) && ByWorker(s, w).Some?
    ensures AddsOneStatus(s, ByWorker(s, w).value)
  {
    hide Inv, ByWorker, Statuses;
    WorkerFrame(s, w);
    WorkerDirection(s, w);
    match w
    case Move(bytes, result) => StatusOfMove(s, bytes, result);
    case Reply => ReplyStatuses(s);
    case Answer(retval, left) => StatusOfAnswer(s, w);
    case Reject => StatusOfAnswer(s, w);
    case _ => QuietStatuses(s, w);
  }

  lemma StatusOfMove(s: State, bytes: seq<int>, result: int)
    requires Inv(s) && ByWorker(s, Move(bytes, result)).Some?
    ensures AddsOneStatus(s, ByWorker(s, Move(bytes, result)).value)
  {
    hide OnePlace, Answered, ShutdownKept, WakeupsKept, CountsRight, LateRight, LateAfter, DeliveredCounts, StaleCounts;
    StatusAdded(s, ByWorker(s, Move(bytes, result)).value.worker.status);
  }

  lemma ReplyStatuses(s: State)
    requires Inv(s) && ByWorker(s, Reply).Some?
    ensures Statuses(ByWorker(s, Reply).value) == Statuses(s) && ByWorker(s, Reply).value.reply == s.reply
  {
    hide StaleCounts, DeliveredCounts, Answered, Conserved, ShutdownKept, WakeupsKept, CountsRight, LateRight;
    ReplyPlaces(s);
  }

  lemma StatusOfAnswer(s: State, w: WorkerStep)
    requires ByWorker(s, w).Some? && (w.Answer? || w.Reject?)
    ensures AddsOneStatus(s, ByWorker(s, w).value)
  {
    hide StaleCounts, DeliveredCounts, LateAfter;
    StatusAdded(s, ByWorker(s, w).value.worker.status);
  }

  lemma QuietStatuses(s: State, w: WorkerStep)
    requires ByWorker(s, w).Some? && (Looks(w) || w.ReadCommand? || w.Measure?)
    ensures Statuses(ByWorker(s, w).value) == Statuses(s) && ByWorker(s, w).value.reply == s.reply
  {
    hide Available;
  }

  lemma ReplyStays(s: State, t: State)
    requires ReplyKept(s) && AddsOneStatus(s, t)
    ensures ReplyKept(t)
  {
    hide Statuses, FailedTransfer;
    var p, q := Statuses(s), Statuses(t);
    if q != p {
      forall i | 0 <= i < |q| && FailedTransfer(q[i]) && s.dir == Capture
        ensures q[i].count == Before(q, i).count
      {
        if i < |p| {
          assert q[i] == p[i] && Before(q, i) == Before(p, i);
        }
      }
    }
  }

  lemma {:induction false} ReplyOfRun(dir: Direction, version: nat, steps: seq<Step>)
    ensures ReplyKept(Run(dir, version, steps))
    decreases |steps|
  {
    hide Inv, Next, ReplyKept, AddsOneStatus;
    if steps == [] {
      NoStatusYet(dir, version);
    } else {
      var front, step := steps[..|steps| - 1], steps[|steps| - 1];
      ReplyOfRun(dir, version, front);
      RunKeeps(dir, version, front);
      var s := Run(dir, version, front);
      if Next(s, step).Some? {
        StatusOfStep(s, step);
        ReplyStays(s, Next(s, step).value);
      }
    }
  }

  lemma NoStatusYet(dir: Direction, version: nat)
    ensures ReplyKept(Start(dir, version))
  {
  }

  lemma {:induction false} StaleIsZero(q: seq<Status>)
    ensures StaleCounts(q) == 0 <==> forall i :: 0 <= i < |q| && FailedTransfer(q[i]) ==> q[i].count == 0
  {
    if q != [] {
      var front := q[..|q| - 1];
      StaleIsZero(front);
      assert q == front + [q[|q| - 1]];
    }
  }

  lemma StaleOfRepeats(q: seq<Status>)
    requires Repeats(q)
    ensures StaleCounts(q) == 0 <==> FailsAfterZero(q)
  {
    hide StaleCounts, FailedTransfer, Before;
    StaleIsZero(q);
  }

  /** Adding up the counts of all transfers, failed ones too: for capture that gives the bytes delivered if and only if
      every read that failed came after a status with the number 0; for playback a failed write always reports 0. */
  lemma AllCountsRight(version: nat, steps: seq<Step>)
    ensures
      var s := Run(Capture, version, steps);
      && Repeats(Statuses(s))
      && (DeliveredCounts(Statuses(s)) + StaleCounts(Statuses(s)) == |s.hal| <==> FailsAfterZero(Statuses(s)))
    ensures StaleCounts(Statuses(Run(Playback, version, steps))) == 0
  {
    BytesConserved(version, steps);
    ReplyOfRun(Capture, version, steps);
    DirectionKept(Capture, version, steps);
    StaleOfRepeats(Statuses(Run(Capture, version, steps)));
    DirectionKept(Playback, version, steps);
    RunKeeps(Playback, version, steps);
    hide Run, OnePlace, Answered, Conserved, ShutdownKept, WakeupsKept, LateRight, Statuses, DeliveredCounts,
         StaleCounts, Repeats, FailsAfterZero;
  }

  /** A failed read reports whatever number an earlier command left in the reply, a failed write reports 0. */
  lemma FailureReports(s: State, bytes: seq<int>, result: int)
    requires Inv(s) && s.worker.Measured? && result < 0
    ensures ByWorker(s, Move(bytes, result)).Some?
    ensures ByWorker(s, Move(bytes, result)).value.worker
         == Ready(Status(s.worker.cmd, Failed, if s.dir == Capture then s.reply else 0))
  {
    hide OnePlace, Answered, ShutdownKept, WakeupsKept, CountsRight, LateRight;
  }

  lemma {:induction false} DirectionKept(dir: Direction, version: nat, steps: seq<Step>)
    ensures Run(dir, version, steps).dir == dir && Run(dir, version, steps).version == version
    decreases |steps|
  {
    hide Next;
    if steps != [] {
      var s := Run(dir, version, steps[..|steps| - 1]);
      DirectionKept(dir, version, steps[..|steps| - 1]);
      if Next(s, steps[|steps| - 1]).Some? {
        SameDirection(s, steps[|steps| - 1]);
      }
    }
  }

  lemma SameDirection(s: State, step: Step)
    requires Next(s, step).Some?
    ensures Next(s, step).value.dir == s.dir && Next(s, step).value.version == s.version
  {
    hide ByClient, ByWorker;
    match step
    case OfClient(c) => ClientDirection(s, c);
    case OfWorker(w) => WorkerDirection(s, w);
    case _ =>
  }

  lemma ClientDirection(s: State, step: ClientStep)
    requires ByClient(s, step).Some?
    ensures ByClient(s, step).value.dir == s.dir && ByClient(s, step).value.version == s.version
  {
  }

  lemma WorkerDirection(s: State, step: WorkerStep)
    requires ByWorker(s, step).Some?
    ensures ByWorker(s, step).value.dir == s.dir && ByWorker(s, step).value.version == s.version
  {
    hide Available, LateAfter;
  }

  // ---- What a transfer moves ----

  /** The statuses of transfers. */
  function Transfers(q: seq<Status>): seq<Status>
  {
    if q == [] then []
    else Transfers(q[..|q| - 1]) + if q[|q| - 1].replyTo.Transfer? then [q[|q| - 1]] else []
  }

  lemma TransfersAppend(q: seq<Status>, x: Status)
    ensures Transfers(q + [x]) == if x.replyTo.Transfer? then Transfers(q) + [x] else Transfers(q)
  {
    assert (q + [x])[..|q|] == q;
  }

  /** For playback the hardware is given all that was queued, for capture it is asked for as much as the command wants
      and the queue has room for. */
  predicate AsksRight(dir: Direction, capacity: nat, c: Call)
  {
    && c.cmd.Transfer?
    && match dir
       case Playback => c.asked == c.queued
       case Capture =>
         c.queued <= capacity
         && c.asked == if c.cmd.requested <= capacity - c.queued then c.cmd.requested else capacity - c.queued
  }

  /** The status says what the hardware answered. */
  predicate Reports(st: Status, c: Call)
  {
    && st.replyTo == c.cmd && (st.retval == Ok <==> c.result >= 0) && (c.result < 0 ==> st.retval == Failed)
    && (c.result >= 0 ==> st.count == c.result)
  }

  predicate ReportsAll(q: seq<Status>, calls: seq<Call>)
  {
    |q| == |calls| && forall i :: 0 <= i < |q| ==> Reports(q[i], calls[i])
  }

  /** The last command sent is a transfer and the worker has done it. */
  predicate Served(s: State)
  {
    s.sent != [] && s.sent[|s.sent| - 1].Transfer? && s.commandMQ == [] && !s.worker.Took? && !s.worker.Measured?
  }

  /** Every transfer asks the hardware for the right number of bytes, every answer has its status, and a transfer that
      is done has taken at least all the bytes the client had put before it. */
  predicate CallsKept(s: State)
  {
    && (s.worker == NotStarted ==> s.sent == [] && s.calls == [])
    && (forall i :: 0 <= i < |s.calls| ==> AsksRight(s.dir, s.capacity, s.calls[i]))
    && ReportsAll(Transfers(Statuses(s)), s.calls)
    && s.atCommand <= |s.moved|
    && (s.worker.Measured? ==> AsksRight(s.dir, s.capacity, Call(s.worker.cmd, s.queued, s.worker.n, 0)))
    && (s.dir == Playback && s.worker.Measured? ==> |s.hal| + s.worker.n >= s.atCommand)
    && (s.dir == Playback && Served(s) ==> |s.hal| >= s.atCommand)
  }

  lemma ClientCalls(s: State, step: ClientStep)
    requires OnePlace(s) && CallsKept(s) && ByClient(s, step).Some?
    ensures CallsKept(ByClient(s, step).value)
  {
    hide Statuses, Transfers, AsksRight, ReportsAll, OnePlace;
    ClientStatuses(s, step);
    match step
    case PutCommand(cmd) => Places(s);
    case PutData(bytes) => assert |s.moved + bytes| >= |s.moved|;
    case TakeData(k) => assert |s.moved + s.dataMQ[..k]| >= |s.moved|;
    case _ =>
  }

  lemma CloserCalls(s: State, step: Step)
    requires CallsKept(s) && Next(s, step).Some? && !step.OfClient? && !step.OfWorker?
    ensures CallsKept(Next(s, step).value)
  {
    hide Statuses, Transfers, AsksRight, ReportsAll;
    CloserStatuses(s, step);
  }

  lemma MeasureCalls(s: State)
    requires CallsKept(s) && Conserved(s) && ByWorker(s, Measure).Some?
    ensures CallsKept(ByWorker(s, Measure).value)
  {
    hide Statuses, Transfers, ReportsAll;
    QuietStatuses(s, Measure);
    assert s.dir == Playback ==> |s.hal + s.dataMQ| == |s.moved|;
  }

  /** What a move adds to the record. */
  lemma MoveRecord(s: State, bytes: seq<int>, result: int)
    requires Conserved(s) && ByWorker(s, Move(bytes, result)).Some?
    ensures
      var t := ByWorker(s, Move(bytes, result)).value;
      var c := Call(s.worker.cmd, s.queued, s.worker.n, result);
      && t.worker.Ready? && t.calls == s.calls + [c] && Reports(t.worker.status, c) && t.capacity == s.capacity
      && t.moved == s.moved && t.atCommand == s.atCommand && t.queued == s.queued
      && (s.dir == Playback ==> |t.hal| == |s.hal| + s.worker.n)
  {
    hide LateAfter;
  }

  lemma MoveCalls(s: State, bytes: seq<int>, result: int)
    requires Inv(s) && CallsKept(s) && ByWorker(s, Move(bytes, result)).Some?
    ensures CallsKept(ByWorker(s, Move(bytes, result)).value)
  {
    hide OnePlace, Answered, ShutdownKept, WakeupsKept, CountsRight, LateRight, ByWorker, Conserved, Transfers,
         AsksRight, Statuses, Reports;
    MoveFrame(s, bytes, result);
    MoveRecord(s, bytes, result);
    var t := ByWorker(s, Move(bytes, result)).value;
    var c := Call(s.worker.cmd, s.queued, s.worker.n, result);
    AsksAny(s.dir, s.capacity, c);
    AddedStatus(s, t);
    TransfersAppend(Statuses(s), t.worker.status);
    MeasuredTransfer(s);
  }

  lemma AsksAny(dir: Direction, capacity: nat, c: Call)
    ensures AsksRight(dir, capacity, c) <==> AsksRight(dir, capacity, c.(result := 0))
  {
  }

  lemma MeasuredTransfer(s: State)
    requires Conserved(s) && s.worker.Measured?
    ensures s.worker.cmd.Transfer?
  {
  }

  lemma AddedStatus(s: State, t: State)
    requires !s.worker.Ready? && t.worker.Ready? && t.received == s.received && t.statusMQ == s.statusMQ
    ensures Statuses(t) == Statuses(s) + [t.worker.status]
  {
  }

  lemma AnswerCalls(s: State, w: WorkerStep)
    requires Inv(s) && CallsKept(s) && ByWorker(s, w).Some? && (w.Answer? || w.Reject?)
    ensures CallsKept(ByWorker(s, w).value)
  {
    hide OnePlace, Answered, Conserved, ShutdownKept, WakeupsKept, CountsRight, LateRight, Transfers, AsksRight,
         Statuses, ReportsAll, ByWorker;
    var t := ByWorker(s, w).value;
    AnswerFrame(s, w);
    LastSent(s);
    AddedStatus(s, t);
    TransfersAppend(Statuses(s), t.worker.status);
  }

  lemma AnswerFrame(s: State, w: WorkerStep)
    requires ByWorker(s, w).Some? && (w.Answer? || w.Reject?)
    ensures s.worker.Took? && !s.worker.cmd.Transfer?
    ensures
      var t := ByWorker(s, w).value;
      && t.worker.Ready? && t.worker.status.replyTo == s.worker.cmd && t.sent == s.sent && t.calls == s.calls
      && t.dir == s.dir && t.capacity == s.capacity && t.moved == s.moved && t.hal == s.hal
      && t.atCommand == s.atCommand && t.queued == s.queued && t.received == s.received && t.statusMQ == s.statusMQ
  {
    hide LateAfter;
  }

  /** The command in the worker's hands is the last one sent. */
  lemma LastSent(s: State)
    requires OnePlace(s) && Answered(s) && s.worker.Took?
    ensures s.sent != [] && s.sent[|s.sent| - 1] == s.worker.cmd
  {
    Places(s);
    assert s.sent[|s.sent| - 1] == Pending(s.client)[0] == s.worker.cmd;
  }

  lemma QuietCalls(s: State, w: WorkerStep)
    requires CallsKept(s) && ByWorker(s, w).Some? && (Looks(w) || w.ReadCommand?)
    ensures CallsKept(ByWorker(s, w).value)
  {
    hide Transfers, AsksRight, Statuses, ReportsAll, ByWorker;
    QuietStatuses(s, w);
    QuietFrame(s, w);
  }

  lemma QuietFrame(s: State, w: WorkerStep)
    requires ByWorker(s, w).Some? && (Looks(w) || w.ReadCommand?)
    ensures
      var t := ByWorker(s, w).value;
      && t.dir == s.dir && t.capacity == s.capacity && t.sent == s.sent && t.calls == s.calls && t.moved == s.moved
      && t.hal == s.hal && t.atCommand == s.atCommand && t.queued == s.queued && t.worker != NotStarted
      && !t.worker.Measured? && (Served(t) ==> Served(s))
  {
  }

  lemma ReplyCalls(s: State)
    requires Inv(s) && CallsKept(s) && ByWorker(s, Reply).Some?
    ensures CallsKept(ByWorker(s, Reply).value)
  {
    hide Transfers, AsksRight, Statuses, ReportsAll, Inv;
    ReplyStatuses(s);
  }

  lemma StepCalls(s: State, step: Step)
    requires Inv(s) && CallsKept(s) && Next(s, step).Some?
    ensures CallsKept(Next(s, step).value)
  {
    hide Inv, CallsKept, ByClient, ByWorker;
    match step
    case OfClient(c) =>
      InvPlaces(s);
      ClientCalls(s, c);
    case OfWorker(w) => WorkerCalls(s, w);
    case _ => CloserCalls(s, step);
  }

  lemma InvPlaces(s: State)
    requires Inv(s)
    ensures OnePlace(s)
  {
    hide OnePlace;
  }

  lemma WorkerCalls(s: State, w: WorkerStep)
    requires Inv(s) && CallsKept(s) && ByWorker(s, w).Some?
    ensures CallsKept(ByWorker(s, w).value)
  {
    hide OnePlace, Answered, Conserved, ShutdownKept, WakeupsKept, CountsRight, LateRight, CallsKept, ByWorker;
    match w
    case Measure => MeasureCalls(s);
    case Move(bytes, result) => MoveCalls(s, bytes, result);
    case Answer(retval, left) => AnswerCalls(s, w);
    case Reject => AnswerCalls(s, w);
    case Reply => ReplyCalls(s);
    case _ => QuietCalls(s, w);
  }

  lemma {:induction false} CallsOfRun(dir: Direction, version: nat, steps: seq<Step>)
    ensures CallsKept(Run(dir, version, steps))
    decreases |steps|
  {
    hide Inv, Next, CallsKept;
    if steps == [] {
      NoCallsYet(dir, version);
    } else {
      var front, step := steps[..|steps| - 1], steps[|steps| - 1];
      CallsOfRun(dir, version, front);
      RunKeeps(dir, version, front);
      if Next(Run(dir, version, front), step).Some? {
        StepCalls(Run(dir, version, front), step);
      }
    }
  }

  lemma NoCallsYet(dir: Direction, version: nat)
    ensures CallsKept(Start(dir, version))
  {
  }

  /** In every run: a WRITE that the worker has done, or whose status has come, has handed the hardware at least all the
      bytes that the client had put before it. */
  lemma WriteHandsOver(version: nat, steps: seq<Step>)
    ensures
      var s := Run(Playback, version, steps);
      Served(s) ==> s.atCommand <= |s.hal| <= |s.moved| && s.moved[..s.atCommand] == s.hal[..s.atCommand]
  {
    hide Run, OnePlace, Answered, ShutdownKept, WakeupsKept, CountsRight, LateRight, Statuses, Transfers, ReportsAll,
         AsksRight;
    CallsOfRun(Playback, version, steps);
    RunKeeps(Playback, version, steps);
    DirectionKept(Playback, version, steps);
    var s := Run(Playback, version, steps);
    assert s.hal + s.dataMQ == s.moved;
  }

  /** In every run: the hardware is asked for what was queued, or for the smaller of the request and the free space, and
      the statuses of the transfers are its answers, in order. */
  lemma CallsReported(dir: Direction, version: nat, steps: seq<Step>)
    ensures
      var s := Run(dir, version, steps);
      && (forall i :: 0 <= i < |s.calls| ==> AsksRight(dir, s.capacity, s.calls[i]))
      && ReportsAll(Transfers(Statuses(s)), s.calls)
  {
    hide Run, Statuses, Transfers, ReportsAll, AsksRight;
    CallsOfRun(dir, version, steps);
    DirectionKept(dir, version, steps);
  }

  // ---- Shutdown ----

  /** How many steps the worker is from its exit once stop is set. */
  function Rank(w: Worker): nat
  {
    match w
    case NotStarted => 0
    case Exited => 0
    case Checking => 1
    case Replied => 2
    case Ready(_) => 3
    case Measured(_, _) => 4
    case Took(_) => 5
    case Woken => 6
    case Waiting => 7
  }

  /** The step the worker can take without waiting for anyone, the hardware answering with an error. */
  function OwnStep(w: Worker): WorkerStep
  {
    match w
    case Checking => CheckStop
    case Waiting => Wait
    case Woken => ReadCommand
    case Took(cmd) =>
      (match cmd
       case Transfer(_) => Measure
       case Query => Answer(Failed, 0)
       case Unknown(_) => Reject)
    case Measured(_, _) => Move([], -1)
    case Ready(_) => Reply
    case _ => WakeClient
  }

  /** Once close() has woken the worker, it is never stuck, and each of its steps brings it closer to its exit. */
  lemma ShutdownProgress(s: State)
    requires Inv(s) && (s.closer == Announced || s.closer == Closed)
    ensures Rank(s.worker) > 0 ==> ByWorker(s, OwnStep(s.worker)).Some?
    ensures forall w: WorkerStep :: ByWorker(s, w).Some? ==> Rank(ByWorker(s, w).value.worker) < Rank(s.worker)
  {
    hide OnePlace, Answered, Conserved, WakeupsKept, CountsRight, LateRight, Available, LateAfter;
    assert s.stop;
    forall w: WorkerStep | ByWorker(s, w).Some?
      ensures Rank(ByWorker(s, w).value.worker) < Rank(s.worker)
    {
      RankDrops(s, w);
    }
  }

  lemma RankDrops(s: State, w: WorkerStep)
    requires s.stop && ByWorker(s, w).Some?
    ensures Rank(ByWorker(s, w).value.worker) < Rank(s.worker)
  {
    if w.Move? {
      hide ByWorker;
      MoveFrame(s, w.bytes, w.result);
    } else {
      hide Transferred, Available, LateAfter;
    }
  }

  /** The steps the worker takes in a continuation of a run from s. */
  function WorkerMoves(s: State, steps: seq<Step>): nat
    decreases |steps|
  {
    if steps == [] then 0
    else
      match Next(s, steps[0])
      case None => WorkerMoves(s, steps[1..])
      case Some(t) => (if steps[0].OfWorker? then 1 else 0) + WorkerMoves(t, steps[1..])
  }

  function After(s: State, steps: seq<Step>): State
    decreases |steps|
  {
    if steps == [] then s
    else
      match Next(s, steps[0])
      case None => After(s, steps[1..])
      case Some(t) => After(t, steps[1..])
  }

  /** join() returns: after close(), whatever the client and the hardware do, a started worker takes at most seven more
      steps, and it has exited once it has taken as many steps as its rank. */
  lemma {:induction false} JoinReturns(s: State, steps: seq<Step>)
    requires Inv(s) && s.closer == Closed && s.worker != NotStarted
    ensures Inv(After(s, steps)) && After(s, steps).closer == Closed
    ensures WorkerMoves(s, steps) + Rank(After(s, steps).worker) <= Rank(s.worker) <= 7
    ensures After(s, steps).worker != NotStarted
      && (Rank(After(s, steps).worker) == 0 <==> After(s, steps).worker == Exited)
    decreases |steps|
  {
    hide Inv, ByClient, ByWorker;
    if steps != [] {
      match Next(s, steps[0])
      case None =>
        JoinReturns(s, steps[1..]);
      case Some(t) =>
        StepKeeps(s, steps[0]);
        ClosedStays(s, steps[0]);
        JoinReturns(t, steps[1..]);
    }
  }

  lemma ClosedStays(s: State, step: Step)
    requires Inv(s) && Next(s, step).Some? && s.closer == Closed && s.worker != NotStarted
    ensures Next(s, step).value.closer == Closed && Next(s, step).value.worker != NotStarted
    ensures if step.OfWorker? then Rank(Next(s, step).value.worker) < Rank(s.worker)
            else Next(s, step).value.worker == s.worker
  {
    hide OnePlace, Answered, Conserved, WakeupsKept, CountsRight, LateRight, ByClient, ByWorker;
    assert s.stop;
    match step
    case OfWorker(w) =>
      RankDrops(s, w);
      WorkerFrame(s, w);
    case OfClient(c) =>
      ClientFrame(s, c);
    case _ =>
  }

  lemma ClientFrame(s: State, step: ClientStep)
    requires ByClient(s, step).Some?
    ensures ByClient(s, step).value.closer == s.closer && ByClient(s, step).value.worker == s.worker
  {
  }

  lemma WorkerFrame(s: State, step: WorkerStep)
    requires ByWorker(s, step).Some?
    ensures ByWorker(s, step).value.closer == s.closer && ByWorker(s, step).value.worker != NotStarted
  {
    if step.Move? {
      hide ByWorker;
      MoveFrame(s, step.bytes, step.result);
    } else {
      hide Transferred, Available, LateAfter;
    }
  }

  /** No wake-up is lost: while the client awaits an answer and the worker has not exited, one of the two can go on. */
  lemma ClientNotStuck(s: State)
    requires Inv(s) && s.client.Awaiting? && s.worker != Exited
    ensures ByClient(s, WaitForWorker).Some? || ByWorker(s, OwnStep(s.worker)).Some?
  {
    hide Answered, Conserved, CountsRight, LateRight, Available, LateAfter;
    Places(s);
  }

  /** A worker that has exited stays so, and no status comes after its last one. */
  lemma {:induction false} NoMoreStatuses(s: State, steps: seq<Step>)
    requires Inv(s) && s.worker == Exited
    ensures After(s, steps).worker == Exited && Statuses(After(s, steps)) == Statuses(s)
    decreases |steps|
  {
    hide Inv, Next, Statuses;
    if steps != [] {
      match Next(s, steps[0])
      case None =>
        NoMoreStatuses(s, steps[1..]);
      case Some(t) =>
        StepKeeps(s, steps[0]);
        ExitedStep(s, steps[0]);
        NoMoreStatuses(t, steps[1..]);
    }
  }

  lemma ExitedStep(s: State, step: Step)
    requires Next(s, step).Some? && s.worker == Exited
    ensures Next(s, step).value.worker == Exited && Statuses(Next(s, step).value) == Statuses(s)
  {
    hide Statuses, ByClient;
    match step
    case OfClient(c) =>
      ClientStatuses(s, c);
      ClientFrame(s, c);
    case OfWorker(w) =>
    case _ =>
      CloserStatuses(s, step);
  }

  /** Every command sent has a status, save one that the worker left in the queue. */
  lemma StatusesOfExited(s: State)
    requires Inv(s) && s.worker == Exited
    ensures |Statuses(s)| + |s.commandMQ| == |s.sent|
  {
    hide Conserved, ShutdownKept, WakeupsKept, CountsRight, LateRight;
    assert |s.commandMQ + Held(s.worker) + ReplyTos(s.statusMQ)| == |Pending(s.client)|;
    assert |ReplyTos(s.received) + Pending(s.client)| == |s.sent|;
  }

  /** Once the worker has exited, a client that has a command outstanding gets its status if and only if the worker took
      the command: what is still in the queue then is never answered, whatever anyone does. */
  lemma AnsweredAfterExit(s: State)
    requires Inv(s) && s.worker == Exited && s.client != Idle
    ensures (exists steps :: |After(s, steps).received| >= |s.sent|) <==> s.commandMQ == []
  {
    StatusesOfExited(s);
    if s.commandMQ == [] {
      var steps := TakesStatus(s);
      assert |After(s, steps).received| >= |s.sent|;
    } else {
      forall steps
        ensures |After(s, steps).received| < |s.sent|
      {
        hide Inv, After;
        NoMoreStatuses(s, steps);
      }
    }
  }

  /** How far the client is from its status. */
  function Distance(c: Client): nat
  {
    match c
    case Sent(_) => 2
    case Awaiting(_) => 1
    case _ => 0
  }

  /** What the client does to take the last status. */
  lemma {:induction false} TakesStatus(s: State) returns (steps: seq<Step>)
    requires Inv(s) && s.worker == Exited && s.client != Idle && s.commandMQ == []
    ensures |After(s, steps).received| >= |s.sent|
    decreases Distance(s.client)
  {
    hide Inv, After;
    var c := ClientGoesOn(s);
    var step := OfClient(c);
    var t := Next(s, step).value;
    StepKeeps(s, step);
    if c.LookForStatus? {
      steps := [step];
      assert steps == [step] + [];
      AfterOne(s, step, []);
      AfterNone(t);
    } else {
      var rest := TakesStatus(t);
      steps := [step] + rest;
      AfterOne(s, step, rest);
    }
  }

  lemma AfterNone(s: State)
    ensures After(s, []) == s
  {
  }

  lemma AfterOne(s: State, step: Step, rest: seq<Step>)
    requires Next(s, step).Some?
    ensures After(s, [step] + rest) == After(Next(s, step).value, rest)
  {
    hide Next;
    assert ([step] + rest)[1..] == rest;
  }

  lemma ClientGoesOn(s: State) returns (c: ClientStep)
    requires Inv(s) && s.worker == Exited && s.client != Idle && s.commandMQ == []
    ensures ByClient(s, c).Some?
    ensures
      var t := ByClient(s, c).value;
      && t.worker == Exited && t.sent == s.sent && t.commandMQ == []
      && if c.LookForStatus? then |t.received| >= |s.sent|
         else t.client != Idle && Distance(t.client) < Distance(s.client)
  {
    hide Conserved, ShutdownKept, CountsRight, LateRight;
    Places(s);
    assert |s.commandMQ + Held(s.worker) + ReplyTos(s.statusMQ)| == |Pending(s.client)|;
    assert |ReplyTos(s.received) + Pending(s.client)| == |s.sent|;
    c := match s.client case Sent(_) => WakeWorker case Awaiting(_) => WaitForWorker case _ => LookForStatus;
  }

  // ---- Runs that show what does happen ----

  /** One more step of a run. */
  lemma Drive(dir: Direction, version: nat, steps: seq<Step>, s: State, step: Step) returns (more: seq<Step>, t: State)
    requires Run(dir, version, steps) == s && Next(s, step).Some?
    ensures t == Next(s, step).value && Run(dir, version, more) == t
  {
    more, t := steps + [step], Next(s, step).value;
    assert more[..|more| - 1] == steps;
  }

  /** Worker and client are at rest. */
  predicate AtRest(s: State)
  {
    && s.worker == Waiting && s.client == Idle && s.commandMQ == [] && s.statusMQ == [] && !s.toWorker && !s.toClient
    && s.closer == Open && !s.stop && s.halOpen
  }

  lemma ToRest(dir: Direction, version: nat) returns (steps: seq<Step>, s: State)
    ensures Run(dir, version, steps) == s && AtRest(s) && s.dir == dir && s.version == version && s.capacity == 8
    ensures s.dataMQ == [] && s.received == [] && s.hal == [] && s.late == 0
  {
    hide Run;
    steps, s := [], Start(dir, version);
    EmptyRun(dir, version);
    steps, s := Drive(dir, version, steps, s, Prepare(8, 0));
    steps, s := Drive(dir, version, steps, s, OfWorker(CheckStop));
  }

  lemma EmptyRun(dir: Direction, version: nat)
    ensures Run(dir, version, []) == Start(dir, version)
  {
  }

  /** A command travels from the client to the worker, which measures. */
  lemma ToMeasured(dir: Direction, version: nat, steps: seq<Step>, s: State, r: nat) returns (more: seq<Step>, t: State)
    requires Run(dir, version, steps) == s && AtRest(s)
    ensures Run(dir, version, more) == t
    ensures t == s.(worker := Measured(Transfer(r), Available(s, r)), client := Awaiting(Transfer(r)),
                    sent := s.sent + [Transfer(r)], atCommand := |s.moved|, queued := |s.dataMQ|)
  {
    hide Run;
    var cmd := Transfer(r);
    more, t := Drive(dir, version, steps, s, OfClient(PutCommand(cmd)));
    more, t := Drive(dir, version, more, t, OfClient(WakeWorker));
    more, t := Drive(dir, version, more, t, OfWorker(Wait));
    more, t := Drive(dir, version, more, t, OfWorker(ReadCommand));
    more, t := Drive(dir, version, more, t, OfWorker(Measure));
    assert [cmd][1..] == [];
  }

  /** A status travels from the worker to the client. */
  lemma ToAnswered(dir: Direction, version: nat, steps: seq<Step>, s: State) returns (more: seq<Step>, t: State)
    requires Run(dir, version, steps) == s && s.worker.Ready? && s.client.Awaiting? && s.statusMQ == []
    requires AtRest(s.(worker := Waiting, client := Idle))
    ensures Run(dir, version, more) == t
    ensures t == s.(worker := Waiting, client := Idle, received := s.received + [s.worker.status])
  {
    hide Run;
    var st := s.worker.status;
    more, t := Drive(dir, version, steps, s, OfWorker(Reply));
    more, t := Drive(dir, version, more, t, OfWorker(WakeClient));
    more, t := Drive(dir, version, more, t, OfWorker(CheckStop));
    more, t := Drive(dir, version, more, t, OfClient(WaitForWorker));
    more, t := Drive(dir, version, more, t, OfClient(LookForStatus));
    assert [st][1..] == [];
  }

  /** A read of three bytes and then one that fails: both statuses say 3, and the hardware delivered three bytes. */
  lemma FailedReadRepeatsCount(version: nat) returns (steps: seq<Step>)
    ensures
      var s := Run(Capture, version, steps);
      && Statuses(s) == [Status(Transfer(3), Ok, 3), Status(Transfer(3), Failed, 3)] && |s.hal| == 3
      && DeliveredCounts(Statuses(s)) == 3 && StaleCounts(Statuses(s)) == 3
  {
    hide Run, DeliveredCounts, StaleCounts;
    var s;
    steps, s := ToRest(Capture, version);
    steps, s := ToMeasured(Capture, version, steps, s, 3);
    steps, s := Drive(Capture, version, steps, s, OfWorker(Move([1, 2, 3], 3)));
    steps, s := ToAnswered(Capture, version, steps, s);
    steps, s := ToMeasured(Capture, version, steps, s, 3);
    steps, s := Drive(Capture, version, steps, s, OfWorker(Move([], -1)));
    var a, b := Status(Transfer(3), Ok, 3), Status(Transfer(3), Failed, 3);
    assert Statuses(s) == [a] + [b];
    CountsOfTwo(a, b);
  }

  lemma CountsOfTwo(a: Status, b: Status)
    ensures DeliveredCounts([a] + [b]) == Delivered(a) + Delivered(b) && StaleCounts([a] + [b]) == Stale(a) + Stale(b)
  {
    hide Delivered, Stale;
    CountsAppend([], a);
    assert [] + [a] == [a];
    CountsAppend([a], b);
  }

  /** From version 6 on close() closes the stream of the hardware before the worker is joined, and a worker that has
      already taken a command goes on to call it. */
  lemma CallAfterClose(dir: Direction, version: nat) returns (steps: seq<Step>)
    requires version >= 6
    ensures Run(dir, version, steps).late == 1
  {
    hide Run;
    var s;
    steps, s := ToRest(dir, version);
    steps, s := ToMeasured(dir, version, steps, s, 0);
    steps, s := Drive(dir, version, steps, s, StopFlag);
    steps, s := Drive(dir, version, steps, s, StopWake);
    steps, s := Drive(dir, version, steps, s, HardwareClose);
    steps, s := Drive(dir, version, steps, s, OfWorker(Move([], -1)));
  }

  /** A command that the client sends while the worker is on its way out stays in the queue. */
  lemma CommandLeftBehind(dir: Direction, version: nat) returns (steps: seq<Step>)
    ensures
      var s := Run(dir, version, steps);
      s.worker == Exited && s.client == Awaiting(Query) && s.commandMQ == [Query]
  {
    hide Run;
    var s;
    steps, s := ToRest(dir, version);
    steps, s := Drive(dir, version, steps, s, StopFlag);
    steps, s := Drive(dir, version, steps, s, StopWake);
    steps, s := Drive(dir, version, steps, s, OfWorker(Wait));
    steps, s := Drive(dir, version, steps, s, OfWorker(ReadCommand));
    steps, s := Drive(dir, version, steps, s, OfClient(PutCommand(Query)));
    steps, s := Drive(dir, version, steps, s, OfClient(WakeWorker));
    steps, s := Drive(dir, version, steps, s, OfWorker(CheckStop));
  }

  /** In every run the hardware is called at most once after its stream is closed, and never in any run exactly for the
      versions up to 5, which close it after the join. */
  lemma CallsAfterClose(dir: Direction, version: nat)
    ensures forall steps :: Run(dir, version, steps).late <= 1
    ensures (forall steps :: Run(dir, version, steps).late == 0) <==> version <= 5
  {
    hide Run, OnePlace, Answered, Conserved, ShutdownKept, WakeupsKept, CountsRight;
    forall steps
      ensures Run(dir, version, steps).late <= 1 && (version <= 5 ==> Run(dir, version, steps).late == 0)
    {
      RunKeeps(dir, version, steps);
      DirectionKept(dir, version, steps);
    }
    if version >= 6 {
      var steps := CallAfterClose(dir, version);
      assert Run(dir, version, steps).late != 0;
    }
  }
}
