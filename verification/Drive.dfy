/** One bounded turn of the dataplane: what it may spend, and what it reports. */
module Drive {
  import opened Bytes
  import opened Peers
  import opened Readiness
  import opened Wrappers
  import opened WriteQueues

  const USIZE_MAX: nat := 0xFFFF_FFFF_FFFF_FFFF

  type usize = n: nat | n <= USIZE_MAX

  function SaturatingAdd(a: usize, b: nat): usize {
    if a + b > USIZE_MAX then USIZE_MAX else a + b
  }

  function SaturatingSub(a: usize, b: nat): usize {
    if a < b then 0 else a - b
  }

  datatype Budget = Budget(events: usize, steps: usize, bytes: usize)
  {
    predicate CanContinue() {
      events > 0 && steps > 0 && bytes > 0
    }

    function Step(): Budget {
      this.(steps := SaturatingSub(steps, 1))
    }

    /** Moving bytes costs at least one, so that no operation is free. */
    function Spend(n: nat): Budget {
      this.(bytes := SaturatingSub(bytes, if n == 0 then 1 else n))
    }
  }

  datatype Progress = Progress(bytesRead: usize, bytesWritten: usize, guestBytesEnqueued: usize,
                               guestBytesDequeued: usize, eventsEmitted: usize, stateChanges: usize)
  {
    predicate Made() {
      bytesRead > 0 || bytesWritten > 0 || guestBytesEnqueued > 0 || guestBytesDequeued > 0 || eventsEmitted > 0
      || stateChanges > 0
    }

    function BytesMoved(): nat {
      bytesRead + bytesWritten + guestBytesEnqueued + guestBytesDequeued
    }

    predicate AtLeast(p: Progress) {
      && bytesRead >= p.bytesRead && bytesWritten >= p.bytesWritten && guestBytesEnqueued >= p.guestBytesEnqueued
      && guestBytesDequeued >= p.guestBytesDequeued && eventsEmitted >= p.eventsEmitted
      && stateChanges >= p.stateChanges
    }
  }

  const NO_PROGRESS := Progress(0, 0, 0, 0, 0, 0)

  /** The wait bits, one by one. */
  datatype Wait = Wait(reactorRead: bool, reactorWrite: bool, guestRecv: bool, guestSendCapacity: bool,
                       localBuffer: bool, connectionSlot: bool)
  {
    predicate Includes(w: Wait) {
      && (w.reactorRead ==> reactorRead) && (w.reactorWrite ==> reactorWrite) && (w.guestRecv ==> guestRecv)
      && (w.guestSendCapacity ==> guestSendCapacity) && (w.localBuffer ==> localBuffer)
      && (w.connectionSlot ==> connectionSlot)
    }

    function Merge(w: Wait): (r: Wait)
      ensures r.Includes(this) && r.Includes(w)
    {
      Wait(reactorRead || w.reactorRead, reactorWrite || w.reactorWrite, guestRecv || w.guestRecv,
           guestSendCapacity || w.guestSendCapacity, localBuffer || w.localBuffer, connectionSlot || w.connectionSlot)
    }
  }

  const NO_WAIT := Wait(false, false, false, false, false, false)

  datatype Report = Report(progress: Progress, wait: Wait, localBufferContinuation: bool, budgetExhausted: bool)
  {
    /** What the event loop asserts before it looks at a report. */
    predicate Explained() {
      localBufferContinuation ==> wait.localBuffer
    }

    function Exhausted(): Report {
      this.(budgetExhausted := true)
    }

    function StateChanged(): Report {
      this.(progress := progress.(stateChanges := SaturatingAdd(progress.stateChanges, 1)))
    }

    function EventEmitted(): Report {
      this.(progress := progress.(eventsEmitted := SaturatingAdd(progress.eventsEmitted, 1)))
    }

    function BytesRead(n: nat): Report {
      this.(progress := progress.(bytesRead := SaturatingAdd(progress.bytesRead, n)))
    }

    function BytesWritten(n: nat): Report {
      this.(progress := progress.(bytesWritten := SaturatingAdd(progress.bytesWritten, n)))
    }

    function GuestBytesEnqueued(n: nat): Report {
      this.(progress := progress.(guestBytesEnqueued := SaturatingAdd(progress.guestBytesEnqueued, n)))
    }

    function GuestBytesDequeued(n: nat): Report {
      this.(progress := progress.(guestBytesDequeued := SaturatingAdd(progress.guestBytesDequeued, n)))
    }

    function Waiting(w: Wait): Report {
      this.(wait := wait.Merge(w))
    }

    /** Spending bytes that leaves nothing to continue with is exhaustion. */
    function Settled(b: Budget): Report {
      if b.CanContinue() then this else Exhausted()
    }

    function Continuing(): Report {
      this.(wait := wait.(localBuffer := true), localBufferContinuation := true)
    }
  }

  const READ_WAIT := NO_WAIT.(reactorRead := true)
  const WRITE_WAIT := NO_WAIT.(reactorWrite := true)
  const GUEST_RECV_WAIT := NO_WAIT.(guestRecv := true)
  const GUEST_SEND_WAIT := NO_WAIT.(guestSendCapacity := true)
  const BUFFER_WAIT := NO_WAIT.(localBuffer := true)

  const NEW_REPORT := Report(NO_PROGRESS, NO_WAIT, false, false)

  // ---- What outcomes cost, and what they leave in the report ----

  datatype Counter = ReadBytes | WrittenBytes | EnqueuedBytes | DequeuedBytes | Changes

  function Counted(r: Report, counter: Counter, n: nat): Report {
    match counter
    case ReadBytes => r.BytesRead(n)
    case WrittenBytes => r.BytesWritten(n)
    case EnqueuedBytes => r.GuestBytesEnqueued(n)
    case DequeuedBytes => r.GuestBytesDequeued(n)
    case Changes => r.StateChanged()
  }

  datatype Charge =
    | Free
    | Refused
    | Waited(wait: Wait)
    | Continued
    | Stepped
    | SteppedRefused
    | SteppedWaited(wait: Wait)
    | SteppedContinued
    | SteppedBytes(n: nat, counter: Counter)
    | SteppedEvent(n: nat, counter: Counter, emitted: bool)

  /** The budget and the report after an operation with that charge. */
  function After(b: Budget, r: Report, c: Charge): (Budget, Report) {
    match c
    case Free => (b, r)
    case Refused => (b, r.Exhausted())
    case Waited(wait) => (b, r.Waiting(wait))
    case Continued => (b, r.Continuing())
    case Stepped => (b.Step(), r)
    case SteppedRefused => (b.Step(), r.Exhausted())
    case SteppedWaited(wait) => (b.Step(), r.Waiting(wait))
    case SteppedContinued => (b.Step(), r.Continuing())
    case SteppedBytes(n, counter) =>
      (b.Step().Spend(n), Counted(r.Settled(b.Step().Spend(n)), counter, n))
    case SteppedEvent(n, counter, emitted) =>
      (b.Step().Spend(n).(events := SaturatingSub(b.events, 1)),
       if emitted then Counted(r, counter, n).EventEmitted() else Counted(r, counter, n))
  }

  /** The bytes counted are never more than the bytes there were. */
  predicate Affordable(b: Budget, c: Charge) {
    (c.SteppedBytes? || c.SteppedEvent?) && !c.counter.Changes? ==> c.n <= b.bytes
  }

  /**
   * What every operation of a turn does to the budget and the report: budgets only shrink, everything reported stays
   * reported, the bytes moved are paid for, and a continuation is still explained by a wait.
   */
  predicate Advances(b: Budget, r: Report, b': Budget, r': Report) {
    && b'.events <= b.events && b'.steps <= b.steps && b'.bytes <= b.bytes
    && r'.progress.AtLeast(r.progress) && r'.wait.Includes(r.wait)
    && (r.localBufferContinuation ==> r'.localBufferContinuation) && (r.budgetExhausted ==> r'.budgetExhausted)
    && r'.progress.BytesMoved() + b'.bytes <= r.progress.BytesMoved() + b.bytes
    && (r.Explained() ==> r'.Explained())
  }

  lemma SpendingAdvances(b: Budget, r: Report, n: nat, counter: Counter)
    requires !counter.Changes? ==> n <= b.bytes
    ensures Advances(b, r, b.Spend(n), Counted(r, counter, n))
  {
    match counter
    case ReadBytes =>
    case WrittenBytes =>
    case EnqueuedBytes =>
    case DequeuedBytes =>
    case Changes =>
  }

  /** Every charge that counts no more bytes than there were keeps the rules. */
  lemma ChargesAdvance(b: Budget, r: Report, c: Charge)
    requires Affordable(b, c)
    ensures Advances(b, r, After(b, r, c).0, After(b, r, c).1)
  {
    match c
    case SteppedBytes(n, counter) =>
      SpendingAdvances(b.Step(), r.Settled(b.Step().Spend(n)), n, counter);
    case SteppedEvent(n, counter, emitted) =>
      SpendingAdvances(b.Step(), r, n, counter);
    case _ =>
  }

  lemma AdvancesIsTransitive(b: Budget, r: Report, b': Budget, r': Report, b'': Budget, r'': Report)
    requires Advances(b, r, b', r') && Advances(b', r', b'', r'')
    ensures Advances(b, r, b'', r'')
  {
  }

  /** Bytes written from a queue to a stream: none lost, all paid for and all counted. */
  predicate Transfers(b: Budget, r: Report, accepted: seq<byte>, queued: seq<byte>,
                   b': Budget, r': Report, accepted': seq<byte>, queued': seq<byte>)
  {
    && Advances(b, r, b', r') && accepted' + queued' == accepted + queued && accepted <= accepted'
    && 0 <= |accepted'| - |accepted| == b.bytes - b'.bytes
    && r'.progress == r.BytesWritten(|accepted'| - |accepted|).progress
  }

  lemma TransfersIsTransitive(b: Budget, r: Report, a: seq<byte>, q: seq<byte>, b': Budget, r': Report, a': seq<byte>,
                           q': seq<byte>, b'': Budget, r'': Report, a'': seq<byte>, q'': seq<byte>)
    requires Transfers(b, r, a, q, b', r', a', q') && Transfers(b', r', a', q', b'', r'', a'', q'')
    ensures Transfers(b, r, a, q, b'', r'', a'', q'')
  {
  }

  /** Recording a wait moves nothing. */
  lemma WaitingTransfers(b: Budget, r: Report, a: seq<byte>, q: seq<byte>, b': Budget, r': Report, a': seq<byte>,
                         q': seq<byte>, wait: Wait)
    requires Transfers(b, r, a, q, b', r', a', q')
    ensures Transfers(b, r, a, q, b', r'.Waiting(wait), a', q')
  {
  }

  /** Whatever a turn does, it moves no more bytes than its budget allowed, and its report can be acted on. */
  lemma TurnIsBounded(b: Budget, b': Budget, r': Report)
    requires Advances(b, NEW_REPORT, b', r')
    ensures r'.progress.BytesMoved() <= b.bytes - b'.bytes
    ensures r'.Explained()
  {
  }

  /** The counters of a report, in the order of its fields. */
  function Counters(r: Report): seq<nat> {
    [r.progress.bytesRead, r.progress.bytesWritten, r.progress.guestBytesEnqueued, r.progress.guestBytesDequeued,
     r.progress.eventsEmitted, r.progress.stateChanges]
  }

  ghost predicate CountsOnly(r: Report, r': Report, k: nat, n: nat)
    requires k < 6
  {
    && (forall j :: 0 <= j < 6 && j != k ==> Counters(r')[j] == Counters(r)[j])
    && (Counters(r)[k] + n <= USIZE_MAX ==> Counters(r')[k] == Counters(r)[k] + n)
    && (Counters(r)[k] + n > USIZE_MAX ==> Counters(r')[k] == USIZE_MAX)
    && r'.(progress := r.progress) == r
  }

  /** Each kind of progress has a counter of its own, and touches neither waits nor flags. */
  lemma CountersCountApart(r: Report, n: nat)
    ensures CountsOnly(r, r.BytesRead(n), 0, n) && CountsOnly(r, r.BytesWritten(n), 1, n)
    ensures CountsOnly(r, r.GuestBytesEnqueued(n), 2, n) && CountsOnly(r, r.GuestBytesDequeued(n), 3, n)
    ensures CountsOnly(r, r.EventEmitted(), 4, 1) && CountsOnly(r, r.StateChanged(), 5, 1)
  {
  }

  /** Progress was made exactly if some counter has left zero. */
  lemma MadeIffCounted(p: Progress)
    ensures p.Made() <==> p != NO_PROGRESS
  {
  }

  /** Counters only grow, so a difference between two looks at them means that something happened. */
  lemma ChangeIsProgress(before: Progress, after: Progress, end: Progress)
    requires after.AtLeast(before) && end.AtLeast(after) && before != after
    ensures end.Made()
  {
  }

  // ---- Answers of callbacks and results of operations ----

  datatype ProtocolAnswer = Moved(bytes: nat) | Idle | Blocked | Broken

  /** A callback is offered a number of bytes and may not report more. */
  predicate Respects(answer: ProtocolAnswer, chunk: nat) {
    answer.Moved? ==> answer.bytes <= chunk
  }

  datatype Poll = Complete | Pending | OutOfBudget | Error

  datatype StreamRead = Received(bytes: seq<byte>) | Closed | NotReady | ReadWouldBlock | ReadBlocked | ReadFailed

  datatype WriteBlock = OnBudget | OnReactorWrite

  datatype StreamWrite = Drained | WritePending(blockedOn: WriteBlock) | WriteFailed

  datatype Output = OutputBytes | OutputEmpty | OutputOfBudget | OutputNoBuffer

  datatype DatagramReceive = Datagram(bytes: seq<byte>) | DatagramNotReady | DatagramWouldBlock | DatagramBlocked
    | DatagramBudget | DatagramFailed

  datatype DatagramSend = Sent | SendNotReady | SendWouldBlock | SendBudget | SendFailed

  datatype GuestWrite = Flushed | GuestWouldBlock | GuestBudget | GuestWriteFailed

  datatype GuestRead = GuestFrame(frame: Frame) | GuestClosed | GuestReadWouldBlock | GuestReadBlocked | GuestReadFailed

  /** A chunk cannot be offered without budget, or when nothing is available; the step is spent in the second case. */
  function ChunkRefused(b: Budget): Charge {
    if b.CanContinue() then SteppedRefused else Refused
  }

  /** Reading callbacks wait for reading, all others here for writing. */
  function OpCharge(b: Budget, r: Poll, answer: ProtocolAnswer, counter: Counter): Charge {
    var wait := if counter.ReadBytes? then READ_WAIT else WRITE_WAIT;
    match r
    case Pending => Waited(wait)
    case OutOfBudget => ChunkRefused(b)
    case Error => Stepped
    case Complete =>
      if answer.Moved? && (answer.bytes > 0 || !counter.Changes?) then SteppedBytes(answer.bytes, counter)
      else if answer.Blocked? && !counter.Changes? then SteppedWaited(wait)
      else Stepped
  }

  function OutputCharge(b: Budget, r: Output, n: nat): Charge {
    match r
    case OutputBytes => SteppedBytes(n, Changes)
    case OutputEmpty => Free
    case OutputOfBudget => ChunkRefused(b)
    case OutputNoBuffer => SteppedWaited(BUFFER_WAIT)
  }

  function ReadCharge(b: Budget, r: StreamRead, bufferAvailable: bool): Charge {
    match r
    case Received(bytes) => SteppedBytes(|bytes|, ReadBytes)
    case Closed => Stepped
    case NotReady => Waited(READ_WAIT)
    case ReadWouldBlock => SteppedWaited(READ_WAIT)
    case ReadBlocked => if b.bytes > 0 && !bufferAvailable then Continued else Refused
    case ReadFailed => Stepped
  }

  function DatagramCharge(r: DatagramReceive): Charge {
    match r
    case Datagram(bytes) => SteppedBytes(|bytes|, ReadBytes)
    case DatagramNotReady => Waited(READ_WAIT)
    case DatagramWouldBlock => SteppedWaited(READ_WAIT)
    case DatagramBlocked => SteppedContinued
    case DatagramBudget => Refused
    case DatagramFailed => Stepped
  }

  function SendCharge(r: DatagramSend, n: nat): Charge {
    match r
    case Sent => SteppedBytes(n, WrittenBytes)
    case SendNotReady => Waited(WRITE_WAIT)
    case SendWouldBlock => SteppedWaited(WRITE_WAIT)
    case SendBudget => Refused
    case SendFailed => Stepped
  }

  function EnqueueCharge(reserved: bool, queued: nat, capacity: nat, n: nat): Charge {
    if reserved then SteppedBytes(n, EnqueuedBytes) else if queued >= capacity then Waited(GUEST_SEND_WAIT) else Refused
  }

  function GuestWriteCharge(r: GuestWrite, n: nat): Charge {
    match r
    case Flushed => SteppedEvent(n, DequeuedBytes, false)
    case GuestWouldBlock => SteppedWaited(GUEST_SEND_WAIT)
    case GuestBudget => Refused
    case GuestWriteFailed => Stepped
  }

  function GuestReadCharge(b: Budget, r: GuestRead, capacity: nat): Charge {
    match r
    case GuestFrame(frame) => SteppedEvent(|frame|, ReadBytes, true)
    case GuestClosed => SteppedEvent(0, ReadBytes, true)
    case GuestReadWouldBlock => SteppedWaited(GUEST_RECV_WAIT)
    case GuestReadBlocked => if capacity <= b.bytes && b.CanContinue() then SteppedContinued else Refused
    case GuestReadFailed => Stepped
  }

  class DriveTurn {
    var budget: Budget
    var report: Report

    constructor (budget: Budget)
      ensures this.budget == budget && report == NEW_REPORT
    {
      this.budget, report := budget, NEW_REPORT;
    }

    // ---- Budget ----

    method StepOrExhausted() returns (ok: bool)
      modifies this
      ensures ok <==> old(budget).CanContinue()
      ensures budget == if ok then old(budget).Step() else old(budget)
      ensures report == if ok then old(report) else old(report).Exhausted()
    {
      ok := budget.CanContinue();
      if ok {
        budget := budget.(steps := budget.steps - 1);
      } else {
        report := report.Exhausted();
      }
    }

    method CanEmitEventOrExhausted() returns (ok: bool)
      modifies `report
      ensures ok <==> budget.events > 0 && budget.bytes > 0
      ensures report == if ok then old(report) else old(report).Exhausted()
    {
      ok := budget.events > 0 && budget.bytes > 0;
      if !ok {
        report := report.Exhausted();
      }
    }

    /** Spends an event together with the bytes it carries. */
    method EventOrExhausted(bytes: nat) returns (ok: bool)
      modifies this
      ensures ok <==> old(budget).events > 0 && old(budget).bytes > 0
      ensures budget == if ok then old(budget).Spend(bytes).(events := old(budget).events - 1) else old(budget)
      ensures report == if ok then old(report) else old(report).Exhausted()
    {
      ok := budget.events > 0 && budget.bytes > 0;
      if ok {
        budget := budget.Spend(bytes).(events := budget.events - 1);
      } else {
        report := report.Exhausted();
      }
    }

    /**
     * A write of nothing still costs a byte, so that spending always comes to an end; when the budget cannot go on
     * afterwards, the report says so, and it says nothing else.
     */
    method SpendBytes(n: nat)
      modifies this
      ensures old(budget).bytes > 0 ==> budget.bytes < old(budget).bytes
      ensures n <= old(budget).bytes ==> budget.bytes + n <= old(budget).bytes <= budget.bytes + n + 1
      ensures 0 < n <= old(budget).bytes ==> budget.bytes == old(budget).bytes - n
      ensures n >= old(budget).bytes ==> budget.bytes == 0
      ensures budget.steps == old(budget).steps && budget.events == old(budget).events
      ensures report.budgetExhausted <==> old(report).budgetExhausted || !budget.CanContinue()
      ensures report.progress == old(report).progress && report.wait == old(report).wait
      ensures budget == old(budget).Spend(n)
      ensures report == old(report).Settled(budget)
    {
      budget := budget.Spend(n);
      if !budget.CanContinue() {
        report := report.Exhausted();
      }
    }

    /** Spends bytes on a change that is counted as one. */
    method SpendBytesOnChange(n: nat)
      modifies this
      ensures budget == old(budget).Spend(n)
      ensures report == old(report).Settled(budget).StateChanged()
    {
      SpendBytes(n);
      report := report.StateChanged();
    }

    /** An event needs a step and an event, but no bytes. */
    method PushEvent() returns (ok: bool)
      modifies this
      ensures Advances(old(budget), old(report), budget, report)
      ensures ok <==> old(budget).events > 0 && old(budget).steps > 0
      ensures ok ==> budget.events == old(budget).events - 1 && report == old(report).EventEmitted()
      ensures !ok ==> budget == old(budget) && report == old(report).Exhausted()
    {
      ok := budget.events > 0 && budget.steps > 0;
      if ok {
        budget := budget.(steps := budget.steps - 1);
        budget := budget.(events := budget.events - 1);
        report := report.EventEmitted();
      } else {
        report := report.Exhausted();
      }
    }

    method StartWholeItemOperation(len: nat) returns (ok: bool)
      modifies this
      ensures ok <==> len <= old(budget).bytes && old(budget).CanContinue()
      ensures budget == if ok then old(budget).Step() else old(budget)
      ensures report == if ok then old(report) else old(report).Exhausted()
    {
      if len > budget.bytes {
        report := report.Exhausted();
        return false;
      }
      ok := StepOrExhausted();
    }

    // ---- Waits and state changes ----

    method BlockOn(wait: Wait)
      modifies `report
      ensures report == old(report).Waiting(wait)
    {
      report := report.Waiting(wait);
    }

    /** The effect of a fallible change counts as progress only if it happened. */
    method TryApplyStateChange(succeeds: bool) returns (r: Poll)
      modifies this
      ensures Advances(old(budget), old(report), budget, report)
      ensures r == if !old(budget).CanContinue() then OutOfBudget else if succeeds then Complete else Error
      ensures budget == if r.OutOfBudget? then old(budget) else old(budget).Step()
      ensures report == if r.OutOfBudget? then old(report).Exhausted()
                        else if r.Complete? then old(report).StateChanged() else old(report)
    {
      var ok := StepOrExhausted();
      if !ok {
        return OutOfBudget;
      }
      if !succeeds {
        return Error;
      }
      report := report.StateChanged();
      return Complete;
    }

    /** One side effect for one step; without a step it must be put back. */
    method ApplyComponentOutput() returns (ok: bool)
      modifies this
      ensures Advances(old(budget), old(report), budget, report)
      ensures ok <==> old(budget).CanContinue()
      ensures budget == if ok then old(budget).Step() else old(budget)
      ensures report == if ok then old(report).StateChanged() else old(report).Exhausted()
    {
      ok := StepOrExhausted();
      if ok {
        report := report.StateChanged();
      }
    }

    /** One output for one step; a full queue is a wait for buffers, and costs nothing. */
    method PushComponentOutput(length: nat, capacity: nat) returns (ok: bool)
      modifies this
      ensures Advances(old(budget), old(report), budget, report)
      ensures ok <==> length < capacity && old(budget).CanContinue()
      ensures budget == if ok then old(budget).Step() else old(budget)
      ensures length >= capacity ==> report.wait.localBuffer
      ensures length >= capacity ==> report == old(report).(wait := report.wait)
      ensures length < capacity ==> report == if ok then old(report).StateChanged() else old(report).Exhausted()
    {
      if length >= capacity {
        BlockOn(BUFFER_WAIT);
        return false;
      }
      ok := ApplyComponentOutput();
    }

    // ---- Protocol engines ----

    method ProtocolChunk(available: nat) returns (chunk: nat)
      modifies this
      ensures chunk == if old(budget).CanContinue() then Min(available, old(budget).bytes) else 0
      ensures budget == if old(budget).CanContinue() then old(budget).Step() else old(budget)
      ensures report == if chunk > 0 then old(report) else old(report).Exhausted()
      ensures chunk == 0 ==> (budget, report) == After(old(budget), old(report), ChunkRefused(old(budget)))
    {
      chunk := 0;
      var ok := StepOrExhausted();
      if ok {
        chunk := Min(available, budget.bytes);
        if chunk == 0 {
          report := report.Exhausted();
        }
      }
    }

    method DriveProtocolOp(available: nat, answer: ProtocolAnswer) returns (r: Poll)
      requires Respects(answer, Min(available, budget.bytes))
      modifies this
      ensures r.OutOfBudget? <==> !old(budget).CanContinue() || available == 0
      ensures r.Error? <==> !r.OutOfBudget? && answer.Broken?
      ensures (budget, report) == After(old(budget), old(report), OpCharge(old(budget), r, answer, Changes))
    {
      var chunk := ProtocolChunk(available);
      if chunk == 0 {
        return OutOfBudget;
      }
      r := Complete;
      match answer
      case Moved(bytes) =>
        if bytes > 0 {
          SpendBytesOnChange(bytes);
        }
      case Idle =>
      case Blocked =>
      case Broken =>
        r := Error;
    }

    /** Moves the next bytes from an engine's output to a write queue; on any other outcome both stay as they were. */
    method QueueProtocolOutput(queue: WriteQueue, output: seq<byte>, offset: nat, bufferAvailable: bool, maxLen: nat)
      returns (r: Output, output': seq<byte>, offset': nat, ghost moved: nat)
      requires queue.Valid()
      modifies this, queue
      ensures queue.Valid()
      ensures r.OutputEmpty? <==> offset >= |output|
      ensures r.OutputEmpty? || offset' >= |output'| ==> output' == [] && offset' == 0
      ensures moved == if r.OutputBytes? then Min(Min(|output| - offset, maxLen), old(budget).bytes) else 0
      ensures r.OutputBytes? <==> moved > 0
      ensures queue.contents == old(queue.contents) + Unsent(output, offset)[..moved]
      ensures Unsent(output', offset') == Unsent(output, offset)[moved..]
      ensures (budget, report) == After(old(budget), old(report), OutputCharge(old(budget), r, moved))
    {
      output', offset', moved := output, offset, 0;
      NothingMoves(queue.contents, Unsent(output, offset));
      if offset >= |output| {
        r, output', offset' := OutputEmpty, [], 0;
      } else {
        var len := ProtocolChunk(Min(|output| - offset, maxLen));
        if len == 0 {
          r := OutputOfBudget;
        } else {
          r, output', offset', moved := QueueOffered(queue, output, offset, bufferAvailable, len, old(budget));
        }
      }
    }

    /** Moves a chunk that the budget covers, if there is a buffer for it. */
    method QueueOffered(queue: WriteQueue, output: seq<byte>, offset: nat, bufferAvailable: bool, len: nat,
                        ghost before: Budget)
      returns (r: Output, output': seq<byte>, offset': nat, ghost moved: nat)
      requires queue.Valid() && 0 < len && offset + len <= |output| && budget == before.Step()
      modifies this, queue
      ensures queue.Valid() && (offset' >= |output'| ==> output' == [] && offset' == 0)
      ensures r == if bufferAvailable then OutputBytes else OutputNoBuffer
      ensures moved == if bufferAvailable then len else 0
      ensures queue.contents == old(queue.contents) + Unsent(output, offset)[..moved]
      ensures Unsent(output', offset') == Unsent(output, offset)[moved..]
      ensures (budget, report) == After(before, old(report), OutputCharge(before, r, moved))
    {
      if !bufferAvailable {
        NothingMoves(queue.contents, Unsent(output, offset));
        r, output', offset', moved := OutputNoBuffer, output, offset, 0;
        BlockOn(BUFFER_WAIT);
      } else {
        r, moved := OutputBytes, len;
        output', offset' := QueueChunk(queue, output, offset, len, before);
      }
    }

    method QueueChunk(queue: WriteQueue, output: seq<byte>, offset: nat, len: nat, ghost before: Budget)
      returns (output': seq<byte>, offset': nat)
      requires queue.Valid() && 0 < len && offset + len <= |output| && budget == before.Step()
      modifies this, queue
      ensures queue.Valid() && (offset' >= |output'| ==> output' == [] && offset' == 0)
      ensures queue.contents == old(queue.contents) + Unsent(output, offset)[..len]
      ensures Unsent(output', offset') == Unsent(output, offset)[len..]
      ensures (budget, report) == After(before, old(report), SteppedBytes(len, Changes))
    {
      output', offset' := MoveOutput(queue, output, offset, len);
      SpendBytesOnChange(len);
      StepThenSpend(before, old(report), len);
    }

    static method MoveOutput(queue: WriteQueue, output: seq<byte>, offset: nat, len: nat)
      returns (output': seq<byte>, offset': nat)
      requires queue.Valid() && 0 < len && offset + len <= |output|
      modifies queue
      ensures queue.Valid() && (offset' >= |output'| ==> output' == [] && offset' == 0)
      ensures queue.contents == old(queue.contents) + Unsent(output, offset)[..len]
      ensures Unsent(output', offset') == Unsent(output, offset)[len..]
    {
      UnsentMoves(output, offset, len);
      queue.Push(output[offset..offset + len]);
      output', offset' := output, offset + len;
      if offset' >= |output| {
        output', offset' := [], 0;
      }
    }

    method TransportReadReady(io: IoSlotState, available: nat, answer: ProtocolAnswer) returns (r: Poll)
      requires io.Valid() && Respects(answer, Min(available, budget.bytes))
      modifies this, io`readable, io`readProbe
      ensures io.Valid()
      ensures r.Pending? <==> !old(io.CanRead())
      ensures r.OutOfBudget? <==> old(io.CanRead()) && (!old(budget).CanContinue() || available == 0)
      ensures r.Error? <==> !r.Pending? && !r.OutOfBudget? && answer.Broken?
      ensures io.CanRead() == (old(io.CanRead()) && !(r.Complete? && answer.Blocked?))
      ensures (budget, report) == After(old(budget), old(report), OpCharge(old(budget), r, answer, ReadBytes))
    {
      if !io.CanRead() {
        BlockOn(READ_WAIT);
        return Pending;
      }
      var chunk := ProtocolChunk(available);
      if chunk == 0 {
        return OutOfBudget;
      }
      r := Complete;
      match answer
      case Moved(bytes) =>
        SpendBytes(bytes);
        report := report.BytesRead(bytes);
      case Blocked =>
        BlockOn(READ_WAIT);
        io.ClearReadAfterWouldBlock();
      case Idle =>
      case Broken =>
        r := Error;
    }

    method TransportWriteReady(io: IoSlotState, available: nat, answer: ProtocolAnswer) returns (r: Poll)
      requires io.Valid() && Respects(answer, Min(available, budget.bytes))
      modifies this, io`writable, io`writeProbe
      ensures io.Valid()
      ensures r.Pending? <==> !old(io.CanWrite())
      ensures r.OutOfBudget? <==> old(io.CanWrite()) && (!old(budget).CanContinue() || available == 0)
      ensures r.Error? <==> !r.Pending? && !r.OutOfBudget? && answer.Broken?
      ensures io.CanWrite() == (old(io.CanWrite()) && !(r.Complete? && answer.Blocked?))
      ensures (budget, report) == After(old(budget), old(report), OpCharge(old(budget), r, answer, WrittenBytes))
    {
      if !io.CanWrite() {
        BlockOn(WRITE_WAIT);
        return Pending;
      }
      var chunk := ProtocolChunk(available);
      if chunk == 0 {
        return OutOfBudget;
      }
      r := Complete;
      match answer
      case Moved(bytes) =>
        SpendBytes(bytes);
        report := report.BytesWritten(bytes);
      case Blocked =>
        BlockOn(WRITE_WAIT);
        io.ClearWriteAfterWouldBlock();
      case Idle =>
      case Broken =>
        r := Error;
    }

    // ---- Streams ----

    /** Reads at most what the budget and one buffer allow; what is read is handed on, the rest stays in the stream. */
    method ReadStreamReady(io: IoSlotState, stream: Peer, bufferAvailable: bool, capacity: nat) returns (r: StreamRead)
      requires io.Valid()
      modifies this, io`readable, io`readProbe, stream`answers, stream`incoming
      ensures io.Valid()
      ensures old(stream.incoming) == (if r.Received? then r.bytes else []) + stream.incoming
      ensures r.Received? ==> 0 < |r.bytes| <= Min(capacity, old(budget).bytes)
      ensures r.NotReady? <==> !old(io.CanRead())
      ensures r.ReadBlocked? <==> old(io.CanRead()) && (!bufferAvailable || !old(budget).CanContinue())
      ensures r.ReadBlocked? || r.NotReady? ==> stream.answers == old(stream.answers)
      ensures !r.ReadBlocked? && !r.NotReady? ==>
        var a := AnswerAt(old(stream.answers), 0);
        && stream.answers == Dropped(old(stream.answers), 1)
        && (r.ReadWouldBlock? <==> a.Block?) && (r.ReadFailed? <==> a.Fail?)
        && (a.Accept? ==>
              var n := Min(Min(a.n, Min(capacity, old(budget).bytes)), |old(stream.incoming)|);
              if n == 0 then r.Closed? else r == Received(old(stream.incoming)[..n]))
      ensures io.CanRead() == (old(io.CanRead()) && !r.ReadWouldBlock?)
      ensures (budget, report) == After(old(budget), old(report), ReadCharge(old(budget), r, bufferAvailable))
    {
      if !io.CanRead() {
        BlockOn(READ_WAIT);
        return NotReady;
      }
      if budget.bytes == 0 {
        report := report.Exhausted();
        return ReadBlocked;
      }
      if !bufferAvailable {
        report := report.Continuing();
        return ReadBlocked;
      }
      var ok := StepOrExhausted();
      if !ok {
        return ReadBlocked;
      }
      var result, bytes := stream.Read(Min(capacity, budget.bytes));
      match result
      case Count(n) =>
        if n == 0 {
          return Closed;
        }
        SpendBytes(n);
        report := report.BytesRead(n);
        return Received(bytes);
      case WouldBlock =>
        BlockOn(READ_WAIT);
        io.ClearReadAfterWouldBlock();
        return ReadWouldBlock;
      case Failed =>
        return ReadFailed;
    }

    /** Writes queued bytes until the queue, the budget or the stream stops it; whatever the outcome, none is lost. */
    method WriteStreamQueueReady(io: IoSlotState, queue: WriteQueue, stream: Peer) returns (r: StreamWrite)
      requires io.Valid() && queue.Valid()
      modifies this, io`writable, io`writeProbe, queue, stream`answers, stream`accepted, stream`offers
      ensures io.Valid() && queue.Valid() && Advances(old(budget), old(report), budget, report)
      ensures stream.accepted + queue.contents == old(stream.accepted) + old(queue.contents)
      ensures old(stream.accepted) <= stream.accepted
      ensures 0 <= |stream.accepted| - |old(stream.accepted)| == old(budget).bytes - budget.bytes
      ensures report.progress == old(report).BytesWritten(|stream.accepted| - |old(stream.accepted)|).progress
      ensures |stream.offers| - |old(stream.offers)| == old(budget).steps - budget.steps
      ensures r.Drained? ==> queue.contents == []
      ensures queue.contents == [] && !r.WriteFailed? ==> r.Drained?
      ensures r == WritePending(OnBudget) ==> report.budgetExhausted && !budget.CanContinue()
      ensures r == WritePending(OnReactorWrite) ==> report.wait.reactorWrite && !io.CanWrite()
      ensures old(queue.contents) == [] || !old(io.CanWrite()) ==>
        stream.offers == old(stream.offers) && stream.answers == old(stream.answers)
      ensures old(queue.contents) != [] && !old(io.CanWrite()) ==> r == WritePending(OnReactorWrite)
      ensures old(queue.contents) != [] && old(io.CanWrite()) ==>
        Told(r, old(stream.answers), |stream.offers| - |old(stream.offers)|, stream.answers)
      ensures r != WritePending(OnReactorWrite) ==> io.CanWrite() == old(io.CanWrite())
    {
      queue.FrontIsFirst();
      if queue.IsEmpty() {
        return Drained;
      }
      if !io.CanWrite() {
        BlockOn(WRITE_WAIT);
        return WritePending(OnReactorWrite);
      }
      ghost var n;
      r, n := WriteWhileWritable(io, queue, stream);
    }

    /** Writes, and closes the write side when the stream would block. */
    method WriteWhileWritable(io: IoSlotState, queue: WriteQueue, stream: Peer) returns (r: StreamWrite, ghost n: nat)
      requires io.Valid() && queue.Valid()
      modifies this, io`writable, io`writeProbe, queue, stream`answers, stream`accepted, stream`offers
      ensures io.Valid() && queue.Valid()
      ensures Transfers(old(budget), old(report), old(stream.accepted), old(queue.contents),
                        budget, report, stream.accepted, queue.contents)
      ensures n == |stream.offers| - |old(stream.offers)| == old(budget).steps - budget.steps
      ensures !r.WriteFailed? ==> (r.Drained? <==> queue.contents == [])
      ensures r == WritePending(OnBudget) ==> report.budgetExhausted && !budget.CanContinue()
      ensures r == WritePending(OnReactorWrite) ==> report.wait.reactorWrite && !io.CanWrite()
      ensures Told(r, old(stream.answers), n, stream.answers)
      ensures r != WritePending(OnReactorWrite) ==> io.CanWrite() == old(io.CanWrite())
    {
      r, n := WriteStreamQueueUnchecked(queue, stream);
      ghost var b, t, a, q := budget, report, stream.accepted, queue.contents;
      ghost var offers, answers := stream.offers, stream.answers;
      if r == WritePending(OnReactorWrite) {
        io.ClearWriteAfterWouldBlock();
        assert budget == b && report == t && stream.accepted == a && queue.contents == q;
        assert stream.offers == offers && stream.answers == answers;
      }
    }

    method WriteStreamQueueUnchecked(queue: WriteQueue, stream: Peer) returns (r: StreamWrite, ghost n: nat)
      requires queue.Valid()
      modifies this, queue, stream`answers, stream`accepted, stream`offers
      ensures queue.Valid()
      ensures Transfers(old(budget), old(report), old(stream.accepted), old(queue.contents),
                        budget, report, stream.accepted, queue.contents)
      ensures n == |stream.offers| - |old(stream.offers)| == old(budget).steps - budget.steps
      ensures !r.WriteFailed? ==> (r.Drained? <==> queue.contents == [])
      ensures r == WritePending(OnBudget) ==> report.budgetExhausted && !budget.CanContinue()
      ensures r == WritePending(OnReactorWrite) ==> report.wait.reactorWrite
      ensures Told(r, old(stream.answers), n, stream.answers)
    {
      var last := WriteUntilStopped(queue, stream);
      queue.FrontIsFirst();
      r := OutcomeOf(last, queue.IsEmpty());
      n := |stream.offers| - |old(stream.offers)|;
      OutcomeIsTold(last, queue.IsEmpty(), old(stream.answers), n, stream.answers);
      if r == WritePending(OnReactorWrite) {
        WaitToWrite(old(budget), old(report), old(stream.accepted), old(queue.contents), stream.accepted,
                    queue.contents);
      }
    }

    /** Records that the reactor must say when writing can go on; nothing is transferred by that. */
    method WaitToWrite(ghost b: Budget, ghost t: Report, ghost a: seq<byte>, ghost q: seq<byte>,
                       ghost a': seq<byte>, ghost q': seq<byte>)
      requires Transfers(b, t, a, q, budget, report, a', q')
      modifies `report
      ensures Transfers(b, t, a, q, budget, report, a', q') && report.wait.reactorWrite
      ensures report == old(report).(wait := report.wait)
    {
      WaitingTransfers(b, t, a, q, budget, report, a', q', WRITE_WAIT);
      BlockOn(WRITE_WAIT);
    }

    method WriteUntilStopped(queue: WriteQueue, stream: Peer) returns (last: FrontWrite)
      requires queue.Valid()
      modifies this, queue, stream`answers, stream`accepted, stream`offers
      ensures queue.Valid()
      ensures Transfers(old(budget), old(report), old(stream.accepted), old(queue.contents),
                        budget, report, stream.accepted, queue.contents)
      ensures |stream.offers| - |old(stream.offers)| == old(budget).steps - budget.steps
      ensures last == Stopped(OnBudget) ==> report.budgetExhausted && !budget.CanContinue()
      ensures last.Wrote? ==> queue.IsEmpty()
      ensures last.Broke? || last == Stopped(OnReactorWrite) ==> queue.contents != []
      ensures var n := |stream.offers| - |old(stream.offers)|;
        n >= 0 && stream.answers == Dropped(old(stream.answers), n) && Follows(last, old(stream.answers), n)
    {
      ghost var b, t, a, q := budget, report, stream.accepted, queue.contents;
      ghost var script, n := stream.answers, 0;
      last := Wrote;
      queue.FrontIsFirst();
      while !queue.IsEmpty() && last.Wrote?
        invariant queue.Valid() && Transfers(b, t, a, q, budget, report, stream.accepted, queue.contents)
        invariant |stream.offers| - |old(stream.offers)| == b.steps - budget.steps
        invariant last == Stopped(OnBudget) ==> report.budgetExhausted && !budget.CanContinue()
        invariant last.Broke? || last == Stopped(OnReactorWrite) ==> queue.contents != []
        invariant n == |stream.offers| - |old(stream.offers)| && stream.answers == Dropped(script, n)
        invariant Follows(last, script, n)
        decreases last.Wrote?, budget.steps
      {
        ghost var b1, t1, a1, q1 := budget, report, stream.accepted, queue.contents;
        last, n := WriteNext(queue, stream, script, n);
        TransfersIsTransitive(b, t, a, q, b1, t1, a1, q1, budget, report, stream.accepted, queue.contents);
      }
    }

    /** One turn of that loop, after `n` writes that took something. */
    method WriteNext(queue: WriteQueue, stream: Peer, ghost script: seq<Answer>, ghost n: nat)
      returns (last: FrontWrite, ghost n': nat)
      requires queue.Valid() && !queue.IsEmpty()
      requires stream.answers == Dropped(script, n) && AllTook(script, n)
      modifies this, queue, stream`answers, stream`accepted, stream`offers
      ensures queue.Valid()
      ensures Transfers(old(budget), old(report), old(stream.accepted), old(queue.contents),
                        budget, report, stream.accepted, queue.contents)
      ensures last.Wrote? ==> budget.steps < old(budget).steps
      ensures last == Stopped(OnBudget) ==> report.budgetExhausted && !budget.CanContinue()
      ensures last.Broke? || last == Stopped(OnReactorWrite) ==> queue.contents != []
      ensures n' - n == |stream.offers| - |old(stream.offers)| == old(budget).steps - budget.steps
      ensures stream.answers == Dropped(script, n') && Follows(last, script, n')
    {
      NextAnswered(script, n);
      queue.FrontIsFirst();
      last := WriteFront(queue, stream, queue.FrontSlice().value);
      n' := if last == Stopped(OnBudget) then n else n + 1;
      if last.Wrote? && !budget.CanContinue() {
        last := Stopped(OnBudget);
      }
    }

    /** One write of the front buffer. */
    method WriteFront(queue: WriteQueue, stream: Peer, remaining: seq<byte>) returns (r: FrontWrite)
      requires queue.Valid() && queue.FrontSlice() == Some(remaining)
      modifies this, queue, stream`answers, stream`accepted, stream`offers
      ensures queue.Valid()
      ensures Transfers(old(budget), old(report), old(stream.accepted), old(queue.contents),
                        budget, report, stream.accepted, queue.contents)
      ensures |stream.offers| - |old(stream.offers)| == old(budget).steps - budget.steps
      ensures r.Wrote? ==> budget.steps < old(budget).steps
      ensures r.Wrote? && !budget.CanContinue() ==> report.budgetExhausted
      ensures r == Stopped(OnBudget) ==> report.budgetExhausted
      ensures r == Stopped(OnBudget) <==> !old(budget).CanContinue()
      ensures r == Stopped(OnBudget) ==> stream.offers == old(stream.offers) && stream.answers == old(stream.answers)
      ensures r != Stopped(OnBudget) ==>
        var a := AnswerAt(old(stream.answers), 0);
        && stream.offers == old(stream.offers) + [remaining[..Min(|remaining|, old(budget).bytes)]]
        && stream.answers == Dropped(old(stream.answers), 1)
        && (r.Wrote? <==> Took(a)) && (r.Broke? <==> Refuses(a)) && (r.Stopped? <==> a.Block?)
      ensures !r.Wrote? ==> queue.contents == old(queue.contents)
    {
      var writeLen := Min(|remaining|, budget.bytes);
      if writeLen == 0 {
        report := report.Exhausted();
        return Stopped(OnBudget);
      }
      var ok := StepOrExhausted();
      if !ok {
        return Stopped(OnBudget);
      }
      queue.FrontIsFirst();
      ghost var accepted, contents := stream.accepted, queue.contents;
      var result := stream.Write(remaining[..writeLen]);
      if result.WouldBlock? {
        r := Stopped(OnReactorWrite);
      } else if result.Failed? || result.n == 0 {
        r := Broke;
        assert stream.accepted == accepted;
      } else {
        WriteTransfers(old(budget), old(report), accepted, contents, remaining, writeLen, result.n);
        CountWritten(queue, remaining, result.n);
        r := Wrote;
      }
    }

    /** Pays for bytes the stream has taken, counts them, and drops them from the queue. */
    method CountWritten(queue: WriteQueue, remaining: seq<byte>, n: nat)
      requires queue.Valid() && queue.FrontSlice() == Some(remaining) && n <= |remaining|
      modifies this, queue
      ensures queue.Valid() && queue.contents == old(queue.contents)[n..]
      ensures budget == old(budget).Spend(n)
      ensures report == old(report).Settled(budget).BytesWritten(n)
    {
      SpendBytes(n);
      report := report.BytesWritten(n);
      var _ := queue.AdvanceFront(n);
    }

    // ---- Guest frames ----

    /** Accepting a frame needs a place in the queue and bytes for all of it. */
    method EnqueueGuestFrame(queued: nat, capacity: nat, frameLen: nat) returns (reserved: bool)
      modifies this
      ensures reserved <==> queued < capacity && frameLen <= old(budget).bytes && old(budget).CanContinue()
      ensures (budget, report) == After(old(budget), old(report), EnqueueCharge(reserved, queued, capacity, frameLen))
    {
      if queued >= capacity {
        BlockOn(GUEST_SEND_WAIT);
        return false;
      }
      var ok := StartWholeItemOperation(frameLen);
      if !ok {
        return false;
      }
      SpendBytes(frameLen);
      report := report.GuestBytesEnqueued(frameLen);
      return true;
    }

    /** Once the session has taken the frame, the event it is counted with cannot be refused. */
    method WriteGuestFrame(session: GuestSession, frame: Frame) returns (r: GuestWrite)
      modifies this, session`toWrite, session`delivered, session`offers, session`met
      ensures session.delivered == if r.Flushed? then old(session.delivered) + [frame] else old(session.delivered)
      ensures r.GuestBudget? <==> |frame| > old(budget).bytes || !old(budget).CanContinue()
      ensures r.GuestBudget? ==> session.toWrite == old(session.toWrite) && session.offers == old(session.offers)
      ensures r.GuestBudget? ==> session.met == old(session.met)
      ensures !r.GuestBudget? ==>
        var w := WriteAt(old(session.toWrite), 0);
        && session.toWrite == Dropped(old(session.toWrite), 1) && session.offers == old(session.offers) + 1
        && session.met == old(session.met) + [w]
        && (r.Flushed? <==> w.FrameFlushed?) && (r.GuestWouldBlock? <==> w.FrameWriteBlocked?)
        && (r.GuestWriteFailed? <==> w.FrameWriteFailed?)
      ensures (budget, report) == After(old(budget), old(report), GuestWriteCharge(r, |frame|))
    {
      var ok := CanEmitEventOrExhausted();
      if ok {
        ok := StartWholeItemOperation(|frame|);
      }
      if !ok {
        return GuestBudget;
      }
      var write := session.WriteFrame(frame);
      if write.FrameFlushed? {
        ok := EventOrExhausted(|frame|);
        if !ok {
          return GuestBudget;
        }
        report := report.GuestBytesDequeued(|frame|);
        r := Flushed;
      } else if write.FrameWriteBlocked? {
        BlockOn(GUEST_SEND_WAIT);
        r := GuestWouldBlock;
      } else {
        r := GuestWriteFailed;
      }
    }

    /** Once a frame has been read, the event it becomes cannot be refused. */
    method ReadGuestFrame(session: GuestSession, bufferAvailable: bool) returns (r: GuestRead)
      requires session.Valid()
      modifies this, session`toRead
      ensures session.Valid()
      ensures r.GuestReadBlocked? <==>
        session.frameCapacity > old(budget).bytes || !old(budget).CanContinue() || !bufferAvailable
      ensures r.GuestReadBlocked? ==> session.toRead == old(session.toRead)
      ensures r.GuestFrame? ==> |r.frame| <= old(budget).bytes
      ensures !r.GuestReadBlocked? && old(session.toRead) != [] ==> [ReadOf(r)] + session.toRead == old(session.toRead)
      ensures !r.GuestReadBlocked? && old(session.toRead) == [] ==> r.GuestReadWouldBlock? && session.toRead == []
      ensures (budget, report) ==
        After(old(budget), old(report), GuestReadCharge(old(budget), r, session.frameCapacity))
    {
      var ok := CanEmitEventOrExhausted();
      if ok {
        ok := StartWholeItemOperation(session.frameCapacity);
      }
      if !ok {
        r := GuestReadBlocked;
      } else if !bufferAvailable {
        report := report.Continuing();
        r := GuestReadBlocked;
      } else {
        var read := session.ReadFrame();
        match read {
          case FrameIn(frame) =>
            ok := EventOrExhausted(|frame|);
            if ok {
              report := report.BytesRead(|frame|);
              report := report.EventEmitted();
              r := GuestFrame(frame);
            } else {
              r := GuestReadBlocked;
            }
          case FrameBlocked =>
            BlockOn(GUEST_RECV_WAIT);
            r := GuestReadWouldBlock;
          case FrameClosed =>
            ok := EventOrExhausted(0);
            if ok {
              report := report.EventEmitted();
              r := GuestClosed;
            } else {
              r := GuestReadBlocked;
            }
          case FrameFailed =>
            r := GuestReadFailed;
        }
      }
    }

    // ---- Datagrams ----

    /** A datagram is only received when the budget covers the whole buffer: it is not cut short by the budget. */
    method ReceiveDatagramReady(io: IoSlotState, socket: DatagramSocket, bufferAvailable: bool, capacity: nat)
      returns (r: DatagramReceive)
      requires io.Valid()
      modifies this, io`readable, io`readProbe, socket`answers, socket`inbound
      ensures io.Valid()
      ensures r.Datagram? ==> old(socket.inbound) != [] && socket.inbound == old(socket.inbound)[1..]
      ensures r.Datagram? ==> |r.bytes| <= capacity && r.bytes <= old(socket.inbound)[0]
      ensures r.Datagram? && |old(socket.inbound)[0]| <= capacity ==> r.bytes == old(socket.inbound)[0]
      ensures !r.Datagram? ==> socket.inbound == old(socket.inbound)
      ensures r.DatagramNotReady? <==> !old(io.CanRead())
      ensures r.DatagramBudget? <==> old(io.CanRead()) && (capacity > old(budget).bytes || !old(budget).CanContinue())
      ensures r.DatagramBlocked? <==> old(io.CanRead()) && !r.DatagramBudget? && !bufferAvailable
      ensures r.DatagramBudget? || r.DatagramBlocked? ==> socket.answers == old(socket.answers)
      ensures !r.DatagramNotReady? && !r.DatagramBudget? && !r.DatagramBlocked? ==>
        var a := AnswerAt(old(socket.answers), 0);
        && (r.DatagramWouldBlock? <==> a.Block? || old(socket.inbound) == [])
        && (r.DatagramFailed? <==> a.Fail? && old(socket.inbound) != [])
      ensures io.CanRead() == (old(io.CanRead()) && !r.DatagramWouldBlock?)
      ensures (budget, report) == After(old(budget), old(report), DatagramCharge(r))
    {
      if !io.CanRead() {
        BlockOn(READ_WAIT);
        return DatagramNotReady;
      }
      var ok := StartWholeItemOperation(capacity);
      if !ok {
        return DatagramBudget;
      }
      if !bufferAvailable {
        report := report.Continuing();
        return DatagramBlocked;
      }
      var result, bytes := socket.Receive(capacity);
      if result.Count? {
        SpendBytes(result.n);
        report := report.BytesRead(result.n);
        r := Datagram(bytes);
      } else if result.WouldBlock? {
        BlockOn(READ_WAIT);
        io.ClearReadAfterWouldBlock();
        r := DatagramWouldBlock;
      } else {
        r := DatagramFailed;
      }
    }

    /** A datagram is sent whole or not at all; one refused for budget never reaches the socket. */
    method SendDatagramReady(io: IoSlotState, socket: DatagramSocket, bytes: seq<byte>) returns (r: DatagramSend)
      requires io.Valid()
      modifies this, io`writable, io`writeProbe, socket`answers, socket`sent
      ensures io.Valid()
      ensures socket.sent == if r.Sent? then old(socket.sent) + [bytes] else old(socket.sent)
      ensures r.SendNotReady? <==> !old(io.CanWrite())
      ensures r.SendBudget? <==> old(io.CanWrite()) && (|bytes| > old(budget).bytes || !old(budget).CanContinue())
      ensures r.SendBudget? ==> socket.answers == old(socket.answers)
      ensures !r.SendNotReady? && !r.SendBudget? ==>
        var a := AnswerAt(old(socket.answers), 0);
        && (r.SendWouldBlock? <==> a.Block?) && (r.Sent? <==> a.Accept? && a.n >= |bytes|)
      ensures io.CanWrite() == (old(io.CanWrite()) && !r.SendWouldBlock?)
      ensures (budget, report) == After(old(budget), old(report), SendCharge(r, |bytes|))
    {
      if !io.CanWrite() {
        BlockOn(WRITE_WAIT);
        return SendNotReady;
      }
      var ok := StartWholeItemOperation(|bytes|);
      if !ok {
        return SendBudget;
      }
      var result := socket.Send(bytes);
      if result == Count(|bytes|) {
        SpendBytes(result.n);
        report := report.BytesWritten(result.n);
        r := Sent;
      } else if result.WouldBlock? {
        BlockOn(WRITE_WAIT);
        io.ClearWriteAfterWouldBlock();
        r := SendWouldBlock;
      } else {
        r := SendFailed;
      }
    }
  }

  /** What the session answered for a read that was carried out. */
  function ReadOf(r: GuestRead): FrameRead {
    match r
    case GuestFrame(frame) => FrameIn(frame)
    case GuestClosed => FrameClosed
    case GuestReadFailed => FrameFailed
    case GuestReadWouldBlock => FrameBlocked
    case GuestReadBlocked => FrameBlocked
  }

  datatype FrontWrite = Wrote | Stopped(why: WriteBlock) | Broke

  // ---- What a stream answered to a run of writes ----

  predicate Took(a: Answer) {
    a.Accept? && a.n > 0
  }

  /** A write of nothing is an error, like a failure. */
  predicate Refuses(a: Answer) {
    a.Fail? || a == Accept(0)
  }

  ghost predicate AllTook(script: seq<Answer>, n: int) {
    forall k :: 0 <= k < n ==> Took(AnswerAt(script, k))
  }

  /** What the last of `n` writes means for the loop, when all before took something. */
  ghost predicate Follows(last: FrontWrite, script: seq<Answer>, n: int) {
    match last
    case Broke => n > 0 && Refuses(AnswerAt(script, n - 1)) && AllTook(script, n - 1)
    case Wrote => AllTook(script, n)
    case Stopped(why) =>
      if why.OnBudget? then AllTook(script, n)
      else n > 0 && AnswerAt(script, n - 1).Block? && AllTook(script, n - 1)
  }

  /**
   * The stream answered `n` writes, all but the last by taking something. The outcome is a failure exactly if the last
   * failed or took nothing, and waits for the reactor exactly if the last would block.
   */
  ghost predicate Told(r: StreamWrite, script: seq<Answer>, n: int, rest: seq<Answer>) {
    && n >= 0 && rest == Dropped(script, n) && AllTook(script, n - 1)
    && (r.WriteFailed? <==> n > 0 && Refuses(AnswerAt(script, n - 1)))
    && (r == WritePending(OnReactorWrite) <==> n > 0 && AnswerAt(script, n - 1).Block?)
  }

  function OutcomeOf(last: FrontWrite, drained: bool): StreamWrite {
    if last.Broke? then WriteFailed
    else if drained then Drained
    else WritePending(if last.Stopped? then last.why else OnReactorWrite)
  }

  lemma {:induction false} OutcomeIsTold(last: FrontWrite, drained: bool, script: seq<Answer>, n: int,
                                         rest: seq<Answer>)
    requires n >= 0 && rest == Dropped(script, n) && Follows(last, script, n)
    requires (last.Wrote? ==> drained) && (last.Broke? || last == Stopped(OnReactorWrite) ==> !drained)
    ensures Told(OutcomeOf(last, drained), script, n, rest)
  {
    if last.Wrote? || last == Stopped(OnBudget) {
      assert n > 0 ==> Took(AnswerAt(script, n - 1));
    }
  }

  lemma {:induction false} NextAnswered(script: seq<Answer>, n: nat)
    ensures AnswerAt(Dropped(script, n), 0) == AnswerAt(script, n)
    ensures Dropped(Dropped(script, n), 1) == Dropped(script, n + 1)
  {
    DroppedTwice(script, n, 1);
  }

  /** The part of an engine's output not yet queued. */
  function Unsent(output: seq<byte>, offset: nat): seq<byte> {
    if offset >= |output| then [] else output[offset..]
  }

  lemma {:induction false} NothingMoves(queued: seq<byte>, unsent: seq<byte>)
    ensures queued + unsent[..0] == queued && unsent[0..] == unsent
  {
  }

  lemma StepThenSpend(b: Budget, r: Report, n: nat)
    ensures var after := b.Step().Spend(n);
      After(b, r, SteppedBytes(n, Changes)) == (after, r.Settled(after).StateChanged())
  {
  }

  lemma {:induction false} UnsentMoves(output: seq<byte>, offset: nat, len: nat)
    requires offset + len <= |output|
    ensures Unsent(output, offset)[..len] == output[offset..offset + len]
    ensures Unsent(output, offset)[len..] == Unsent(output, offset + len)
  {
  }

  lemma {:induction false} WriteTransfers(b: Budget, r: Report, accepted: seq<byte>, queued: seq<byte>,
                                          front: seq<byte>, offered: nat, n: nat)
    requires 0 < n <= offered <= |front| && offered <= b.bytes && front <= queued
    ensures var b' := b.Step().Spend(n);
      Transfers(b, r, accepted, queued,
                b', r.Settled(b').BytesWritten(n), accepted + front[..offered][..n], queued[n..])
  {
    PrefixMoves(accepted, queued, front, offered, n);
  }

  lemma {:induction false} PrefixMoves(accepted: seq<byte>, queued: seq<byte>, front: seq<byte>, offered: nat, n: nat)
    requires n <= offered <= |front| && front <= queued
    ensures accepted + front[..offered][..n] + queued[n..] == accepted + queued
  {
    assert front[..offered][..n] == queued[..n];
  }
}
