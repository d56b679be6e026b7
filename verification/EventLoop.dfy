/** The phase of the event loop that works on what is already queued, and the timeout it then asks for. */
module EventLoop {
  import Buffers
  import opened Drive
  import opened DriveRuns
  import opened Fifo
  import opened Guest
  import opened Peers
  import opened Wrappers

  type Duration = nat

  // ---- Retry and timeout ----

  function ShouldRetryLocal(report: Report, localWorkPending: bool, followupProgress: bool): bool
    requires report.Explained()
  {
    || (report.budgetExhausted && report.progress.Made())
    || (localWorkPending && report.progress.Made())
    || (report.localBufferContinuation && (report.progress.Made() || followupProgress))
    || (report.wait.localBuffer && followupProgress)
  }

  function QueuedPhaseTimeout(report: Report, localWorkPending: bool, followupProgress: bool,
                              pollTimeout: Option<Duration>, timerTimeout: Option<Duration>, idlePollDelay: Duration)
    : Option<Duration>
    requires report.Explained()
  {
    if ShouldRetryLocal(report, localWorkPending, followupProgress) then Some(0)
    else if pollTimeout.Some? then pollTimeout
    else if timerTimeout == Some(0) then Some(idlePollDelay)
    else timerTimeout
  }

  /** A retry needs progress, provided follow-up progress is progress of the same report. */
  lemma RetryNeedsProgress(report: Report, pending: bool, followup: bool)
    requires report.Explained() && (followup ==> report.progress.Made())
    ensures ShouldRetryLocal(report, pending, followup) ==> report.progress.Made()
  {
  }

  /**
   * The loop asks not to wait at all exactly when it retries, or when the caller or a zero idle delay says so:
   * an expired timer alone never makes it spin.
   */
  lemma ZeroTimeoutIff(report: Report, pending: bool, followup: bool, poll: Option<Duration>, timer: Option<Duration>,
                       idle: Duration)
    requires report.Explained()
    ensures QueuedPhaseTimeout(report, pending, followup, poll, timer, idle) == Some(0) <==>
      ShouldRetryLocal(report, pending, followup) || poll == Some(0) || (poll == None && timer == Some(0) && idle == 0)
  {
  }

  /**
   * The loop goes again at once when something was done and something is left: budget ran out, work is queued or a
   * read waits for a buffer; or when a buffer is waited for and following up on queued work has done something.
   */
  predicate GoesAgain(report: Report, waiting: bool, moved: bool) {
    || (report.progress != NO_PROGRESS && (report.budgetExhausted || report.localBufferContinuation || waiting))
    || (report.wait.localBuffer && moved)
  }

  lemma RetryIffGoesAgain(report: Report, pending: bool, followup: bool)
    requires report.Explained() && (followup ==> report.progress.Made())
    ensures ShouldRetryLocal(report, pending, followup) <==> GoesAgain(report, pending, followup)
  {
    MadeIffCounted(report.progress);
  }

  // ---- The loop ----

  /** The queues of side effects for other components. */
  datatype OutputQueues<Item> = OutputQueues(egressUdp: seq<Item>, ingressTcp: seq<Item>, ingressUdp: seq<Item>)
  {
    function Then(later: OutputQueues<Item>): OutputQueues<Item> {
      OutputQueues(egressUdp + later.egressUdp, ingressTcp + later.ingressTcp, ingressUdp + later.ingressUdp)
    }

    ghost predicate Starts(later: OutputQueues<Item>) {
      egressUdp <= later.egressUdp && ingressTcp <= later.ingressTcp && ingressUdp <= later.ingressUdp
    }
  }

  function NoOutputs<Item>(): OutputQueues<Item> {
    OutputQueues([], [], [])
  }

  /** Frames for the guest, and outputs for other components. */
  datatype Appends<Item> = Appends(frames: seq<Frame>, outputs: OutputQueues<Item>)
  {
    function Then(later: Appends<Item>): Appends<Item> {
      Appends(frames + later.frames, outputs.Then(later.outputs))
    }
  }

  /** What components do while they are driven: operations, and what they append to the queues. */
  datatype Work<Item> = Work(ops: seq<Op>, appends: Appends<Item>)

  /** The work in a phase; while queues are worked off, the gateway may refuse a guest frame. */
  datatype PhaseWork<Item> = PhaseWork(queued: Work<Item>, components: Work<Item>, timers: Work<Item>,
                                       followup: Work<Item>, refused: seq<bool>, refusedAgain: seq<bool>,
                                       flushFails: bool, watchFails: seq<bool>)
  {
    predicate Watches() {
      flushFails || SomeTrue(watchFails)
    }

    function FirstAppends(): Appends<Item> {
      queued.appends.Then(components.appends).Then(timers.appends)
    }

    function Total(): Appends<Item> {
      FirstAppends().Then(followup.appends)
    }
  }

  /** What has left the queues, what was read from the session, and what was read or is still to be read. */
  datatype Account<Item> = Account(delivered: seq<Frame>, met: seq<FrameWrite>, applied: OutputQueues<Item>,
                                   handled: seq<GuestEvent>, taken: seq<FrameRead>, incoming: seq<FrameRead>)
  {
    ghost predicate GoesOn(later: Account<Item>) {
      && delivered <= later.delivered && met <= later.met && applied.Starts(later.applied)
      && handled <= later.handled && taken <= later.taken && incoming == later.incoming
    }

    /** The session was seen to fail or to end in between. */
    ghost predicate Fault(later: Account<Item>, generation: nat) {
      || WriteFault(met, later.met)
      || (exists k :: |taken| <= k < |later.taken| && later.taken[k].FrameFailed?)
      || (exists k :: |handled| <= k < |later.handled| && later.handled[k] == Disconnected(generation))
    }
  }

  /** A phase with all it is given. */
  datatype Phase<Item> = Phase(work: PhaseWork<Item>, budget: Budget, buffers: seq<bool>, otherEventsPending: bool,
                               poll: Option<Duration>, timer: Option<Duration>, idle: Duration)

  /** What is found and done once the reactor has been asked. */
  datatype ReadyWork<Item> = ReadyWork(readiness: seq<Ready>, components: Work<Item>, timers: Work<Item>,
                                       followup: Work<Item>, refused: seq<bool>, flushFails: bool,
                                       watchFails: seq<bool>, buffers: seq<bool>)
  {
    predicate Watches() {
      flushFails || SomeTrue(watchFails)
    }

    function Total(): Appends<Item> {
      components.appends.Then(timers.appends).Then(followup.appends)
    }
  }

  /** A turn of the loop: the phase on queued work, the reactor, and the phase on what is ready, with a budget each. */
  datatype Turn<Item> = Turn(phase: Phase<Item>, reactorFails: bool, ready: ReadyWork<Item>)
  {
    predicate Watches() {
      phase.work.Watches() || ready.Watches()
    }
  }

  /** How a turn ends; only if it gets past the reactor does the second phase take place. */
  datatype TurnOutcome = ReconnectBefore | ReactorFailed | Completed(reconnect: bool)

  predicate EndsSession(o: TurnOutcome) {
    o.ReconnectBefore? || (o.Completed? && o.reconnect)
  }

  function AppendsOf<Item>(turn: Turn<Item>, outcome: TurnOutcome): Appends<Item> {
    if outcome.Completed? then turn.phase.work.Total().Then(turn.ready.Total()) else turn.phase.work.Total()
  }

  /** What a run of turns appends, in order. */
  function AllAppends<Item>(turns: seq<Turn<Item>>, outcomes: seq<TurnOutcome>): Appends<Item>
    requires |outcomes| <= |turns|
    decreases |outcomes|
  {
    if outcomes == [] then Appends([], NoOutputs())
    else
      var last := |outcomes| - 1;
      AllAppends(turns, outcomes[..last]).Then(AppendsOf(turns[last], outcomes[last]))
  }

  /** Reports of phases that kept to the byte budget and can be acted on. */
  predicate WithinBudget(reports: seq<Report>, bytes: nat) {
    forall i :: 0 <= i < |reports| ==> reports[i].progress.BytesMoved() <= bytes && reports[i].Explained()
  }

  predicate AllWithinBudget<Item>(reports: seq<seq<Report>>, turns: seq<Turn<Item>>)
    requires |reports| <= |turns|
  {
    forall k :: 0 <= k < |reports| ==> WithinBudget(reports[k], turns[k].phase.budget.bytes)
  }

  /** All turns took place, or the last one that did ended the session. */
  predicate RunOf<Item>(turns: seq<Turn<Item>>, outcomes: seq<TurnOutcome>) {
    && |outcomes| <= |turns|
    && (|outcomes| < |turns| ==> outcomes != [] && EndsSession(outcomes[|outcomes| - 1]))
  }

  datatype Outcome = Reconnect | WaitFor(timeout: Option<Duration>)

  /** What becomes of guest events: only a frame of the current session can be refused, and nothing is appended. */
  function Verdicts(events: seq<GuestEvent>, generation: nat, refused: seq<bool>): (v: seq<Verdict<GuestEvent>>)
    ensures NoAppends(v)
  {
    seq(|events|, k requires 0 <= k < |events| => VerdictOn(events[k], generation, k < |refused| && refused[k]))
  }

  function VerdictOn(event: GuestEvent, generation: nat, refused: bool): Verdict<GuestEvent> {
    if event.FrameEvent? && event.generation == generation && refused then PutBack([]) else Handled([])
  }

  /** How many of the queued events are handled before the first that is refused. */
  function HandledCount(events: seq<GuestEvent>, generation: nat, refused: seq<bool>): (n: nat)
    ensures n <= |events|
  {
    HandledFrom(Verdicts(events, generation, refused), 0, |events|)
  }

  /** Works on the queue without losing anything, since no handler appends to it. */
  method PassOver(queue: EventQueue<GuestEvent>, generation: nat, refused: seq<bool>) returns (n: nat)
    requires queue.Valid() && queue.lost == []
    modifies queue
    ensures queue.Valid() && queue.lost == [] && queue.appended == old(queue.appended)
    ensures n == HandledCount(old(queue.items), generation, refused)
    ensures queue.handled == old(queue.handled) + old(queue.items)[..n] && queue.items == old(queue.items)[n..]
  {
    var was := queue.items;
    var verdicts := Verdicts(was, generation, refused);
    NothingAppended(verdicts, 0, |was|);
    queue.ProcessPass(verdicts);
    Unlost(queue.appended);
    n := |was| - |queue.items|;
  }

  /** The counters before and after a part of a phase. */
  datatype Span = Span(start: Progress, end: Progress)
  {
    predicate Moved() {
      start != end
    }

    ghost predicate Ascends() {
      end.AtLeast(start)
    }
  }

  /** The spans of queued work, of expired timers, and of queued work again. */
  datatype Marks = Marks(queued: Span, timers: Span, again: Span)
  {
    predicate Moved() {
      queued.Moved() || timers.Moved() || again.Moved()
    }

    ghost predicate Ascend(last: Progress) {
      && queued.Ascends() && timers.Ascends() && again.Ascends()
      && timers.start.AtLeast(queued.end) && again.start.AtLeast(timers.end) && last.AtLeast(again.end)
    }
  }

  predicate SomeTrue(flags: seq<bool>) {
    exists k :: 0 <= k < |flags| && flags[k]
  }

  predicate SomeDisconnect(events: seq<GuestEvent>, generation: nat) {
    exists k :: 0 <= k < |events| && events[k] == Disconnected(generation)
  }

  class EventLoop<Item> {
    /** The session of the current generation, if there is one; a phase does not change it. */
    const guest: GuestIo?
    const generation: nat
    var guestDisconnected: bool
    const guestEvents: EventQueue<GuestEvent>
    var guestFrames: seq<Frame>
    var outputs: OutputQueues<Item>

    /** Everything ever queued, what was taken from the output queues and applied, and what was read. */
    ghost var ever: Appends<Item>
    ghost var applied: OutputQueues<Item>
    ghost var taken: seq<FrameRead>

    ghost function GuestObjects(): set<object> {
      if guest == null then {} else {guest, guest.io, guest.session}
    }

    ghost function Objects(): set<object> {
      GuestObjects() + {guestEvents}
    }

    ghost function Books(): Account<Item>
      reads this, Objects()
    {
      var delivered := if guest == null then [] else guest.session.delivered;
      var met := if guest == null then [] else guest.session.met;
      var toRead := if guest == null then [] else guest.session.toRead;
      Account(delivered, met, applied, guestEvents.handled, taken, taken + toRead)
    }

    /**
     * No frame is lost while there is a session, and no output ever: all are passed on or queued, in order. What was
     * read from the session became events, and these are handled or queued, in order.
     */
    ghost predicate Valid()
      reads this, Objects()
    {
      && FramesKept() && applied.Then(outputs) == ever.outputs
      && guestEvents.Valid() && guestEvents.lost == [] && guestEvents.appended == EventsOf(generation, taken)
    }

    ghost predicate FramesKept()
      reads this, GuestObjects()
    {
      guest != null ==>
        && guest.Valid() && guest.generation == generation
        && guest.session.delivered + guest.outbound + guestFrames == ever.frames
    }

    /** What is left in the guest's queues could not go on: for want of budget, or because the session is not ready. */
    ghost predicate GuestWorkedOff(b: Budget, r: Report)
      reads this, GuestObjects()
    {
      if guest == null then guestFrames == []
      else
        && (guestFrames != [] ==> !Affords(b, guestFrames[0]) || r.wait.guestSendCapacity)
        && (guest.outbound != [] ==> !Affords(b, guest.outbound[0]) || !guest.io.CanWrite())
    }

    /** Nothing more could be read: for want of budget or a buffer, or because the session has nothing. */
    ghost predicate GuestReadOut(b: Budget, buffers: seq<bool>)
      reads this, GuestObjects()
    {
      guest != null && guest.io.CanRead() ==> NoRoom(b, guest.session.frameCapacity, buffers)
    }

    /**
     * What has left the queues stays out, and the end of a session is noticed when it shows, and only then, unless the
     * reactor fails to change a watch.
     */
    ghost predicate Proceeds(before: bool, was: Account<Item>, watch: bool, after: bool, now: Account<Item>) {
      && was.GoesOn(now)
      && (before || was.Fault(now, generation) ==> after)
      && (after ==> before || was.Fault(now, generation) || watch)
    }

    lemma ProceedsOn(x: bool, a: Account<Item>, v: bool, y: bool, b: Account<Item>, w: bool, z: bool,
                     c: Account<Item>)
      requires Proceeds(x, a, v, y, b) && Proceeds(y, b, w, z, c)
      ensures Proceeds(x, a, v || w, z, c)
    {
      FaultSplits(a, b, c, generation);
    }

    lemma StaysPut(x: bool, a: Account<Item>, w: bool)
      ensures Proceeds(x, a, w, x, a)
    {
      NoFault(a, generation);
    }

    /** What the session told: it fails exactly if a read or a write did, or a watch. */
    lemma SessionProceeds(x: bool, a: Account<Item>, b: Account<Item>, more: seq<FrameRead>, ok: bool, w: bool)
      requires a.GoesOn(b) && b.handled == a.handled && b.taken == a.taken + more
      requires WriteFault(a.met, b.met) || ReadFault(more) ==> !ok
      requires !ok ==> WriteFault(a.met, b.met) || ReadFault(more) || w
      ensures Proceeds(x, a, w, x || !ok, b)
    {
      TakenFault(a, b, more, generation);
    }

    /** The events that a pass over those queued before must handle have been handled, in order. */
    ghost predicate HandledFirst(items: seq<GuestEvent>, handled: seq<GuestEvent>, refused: seq<bool>)
      reads this, guestEvents
    {
      handled + items[..HandledCount(items, generation, refused)] <= guestEvents.handled
    }

    lemma GuestStaysWorkedOff(b: Budget, r: Report, b': Budget, r': Report)
      requires GuestWorkedOff(b, r) && Advances(b, r, b', r')
      ensures GuestWorkedOff(b', r')
    {
    }

    constructor (guest: GuestIo?, generation: nat)
      requires guest != null ==>
        guest.Valid() && guest.generation == generation && guest.session.delivered + guest.outbound == []
      ensures Valid() && this.guest == guest && ever == Appends([], NoOutputs()) && !guestDisconnected
      ensures fresh(guestEvents) && taken == []
    {
      this.guest, this.generation, guestDisconnected := guest, generation, false;
      guestEvents := new EventQueue();
      guestFrames, outputs, ever := [], NoOutputs(), Appends([], NoOutputs());
      applied, taken := NoOutputs(), [];
    }

    // ---- Guest events ----

    /** Handles queued guest events in order up to the first frame the gateway refuses, which stays first. */
    method HandleGuestEvents(refused: seq<bool>)
      requires Valid()
      modifies this`guestDisconnected, guestEvents
      ensures Valid()
      ensures var n := HandledCount(old(guestEvents.items), generation, refused);
        && guestEvents.handled == old(guestEvents.handled) + old(guestEvents.items)[..n]
        && guestEvents.items == old(guestEvents.items)[n..]
        && guestDisconnected ==
             (old(guestDisconnected) || SomeDisconnect(old(guestEvents.items)[..n], generation))
      ensures Proceeds(old(guestDisconnected), old(Books()), false, guestDisconnected, Books())
    {
      ghost var books := Books();
      var was := guestEvents.items;
      var n := PassOver(guestEvents, generation, refused);
      guestDisconnected := guestDisconnected || SomeDisconnect(was[..n], generation);
      HandledFault(books, Books(), was[..n], generation);
    }

    /** What was read is kept, and with it the events that it became. */
    method Record(events: seq<GuestEvent>, ghost now: seq<FrameRead>)
      requires guestEvents.Valid() && guestEvents.lost == [] && guestEvents.appended == EventsOf(generation, taken)
      requires events == guestEvents.items + EventsOf(generation, now)
      modifies this`taken, guestEvents
      ensures guestEvents.Valid() && guestEvents.lost == [] && guestEvents.appended == EventsOf(generation, taken)
      ensures guestEvents.items == events && guestEvents.handled == old(guestEvents.handled)
      ensures taken == old(taken) + now
    {
      guestEvents.Extend(events, EventsOf(generation, now));
      EventsAppend(generation, taken, now);
      taken := taken + now;
    }

    method ReadGuest(drive: DriveTurn, buffers: seq<bool>)
      requires Valid()
      modifies this`guestDisconnected, this`taken, Objects(), drive
      ensures Valid()
      ensures Advances(old(drive.budget), old(drive.report), drive.budget, drive.report)
      ensures old(guestEvents.items) <= guestEvents.items
      ensures Proceeds(old(guestDisconnected), old(Books()), false, guestDisconnected, Books())
      ensures guestDisconnected || GuestReadOut(drive.budget, buffers)
      ensures guest != null ==> guest.outbound == old(guest.outbound) && guest.io.CanWrite() == old(guest.io.CanWrite())
    {
      ghost var books, down := Books(), guestDisconnected;
      StaysPut(down, books, false);
      if guest != null {
        var ok, now := DrainSession(drive, buffers);
        guestDisconnected := guestDisconnected || !ok;
        SessionProceeds(down, books, Books(), now, ok, false);
      }
    }

    /** Every read of the session becomes an event behind those queued. */
    method DrainSession(drive: DriveTurn, buffers: seq<bool>) returns (ok: bool, ghost now: seq<FrameRead>)
      requires Valid() && guest != null
      modifies this`taken, Objects(), drive
      ensures Valid() && Books() == old(Books()).(taken := old(taken) + now)
      ensures Advances(old(drive.budget), old(drive.report), drive.budget, drive.report)
      ensures old(guestEvents.items) <= guestEvents.items
      ensures ok <==> !ReadFault(now)
      ensures ok ==> GuestReadOut(drive.budget, buffers)
      ensures guest.outbound == old(guest.outbound) && guest.io.CanWrite() == old(guest.io.CanWrite())
    {
      var events;
      events, ok, now := guest.DrainReadyReads(guestEvents.items, drive, buffers);
      Buffers.Associates(taken, now, guest.session.toRead);
      Record(events, now);
    }

    // ---- Queues ----

    /** Frames go to the session's queue in order; without a session they are dropped. */
    method SendGuestFrames(drive: DriveTurn, watchFails: seq<bool>)
      requires Valid()
      modifies this`guestFrames, this`guestDisconnected, GuestObjects(), drive
      ensures Valid() && old(Books()) == Books()
      ensures Advances(old(drive.budget), old(drive.report), drive.budget, drive.report)
      ensures guest == null ==> guestFrames == [] && drive.report == old(drive.report)
      ensures guest != null && guestFrames != [] ==>
        guestDisconnected
        || TurnedDown(drive.budget, drive.report, guestFrames[0], |guest.outbound|, guest.outboundCapacity)
      ensures Proceeds(old(guestDisconnected), old(Books()), SomeTrue(watchFails), guestDisconnected, Books())
    {
      NoFault(Books(), generation);
      if guest == null {
        guestFrames := [];
      } else {
        ghost var delivered, outbound, frames := guest.session.delivered, guest.outbound, guestFrames;
        var rest, failed := SendFrames(guest, guestFrames, drive, watchFails);
        guestFrames := rest;
        guestDisconnected := guestDisconnected || failed;
        Regroup(delivered, outbound, frames, guest.outbound, guestFrames);
      }
    }

    /** Hands queued frames to the session; a failure ends the session but loses no frame. */
    method FlushGuest(drive: DriveTurn, watchFails: bool)
      requires Valid()
      modifies this`guestDisconnected, GuestObjects(), drive
      ensures Valid()
      ensures Advances(old(drive.budget), old(drive.report), drive.budget, drive.report)
      ensures Proceeds(old(guestDisconnected), old(Books()), watchFails, guestDisconnected, Books())
      ensures guest != null && guest.outbound != [] ==>
        guestDisconnected || !Affords(drive.budget, guest.outbound[0]) || !guest.io.CanWrite()
    {
      ghost var books, down := Books(), guestDisconnected;
      StaysPut(down, books, watchFails);
      if guest != null {
        var ok := guest.FlushOutbound(drive, watchFails);
        guestDisconnected := guestDisconnected || !ok;
        Unlost(taken);
        SessionProceeds(down, books, Books(), [], ok, watchFails);
      }
    }

    method ApplyQueuedOutputs(drive: DriveTurn)
      requires Valid()
      modifies this`outputs, this`applied, drive
      ensures Valid()
      ensures Proceeds(old(guestDisconnected), old(Books()), false, guestDisconnected, Books())
      ensures Advances(old(drive.budget), old(drive.report), drive.budget, drive.report)
      ensures outputs != NoOutputs() ==> drive.report.budgetExhausted && !drive.budget.CanContinue()
    {
      ghost var b0, r0, books := drive.budget, drive.report, Books();
      var egressUdp, egressUdpRest := ApplyOutputs(outputs.egressUdp, drive);
      ghost var b1, r1 := drive.budget, drive.report;
      var ingressTcp, ingressTcpRest := ApplyOutputs(outputs.ingressTcp, drive);
      ghost var b2, r2 := drive.budget, drive.report;
      var ingressUdp, ingressUdpRest := ApplyOutputs(outputs.ingressUdp, drive);
      AdvancesIsTransitive(b0, r0, b1, r1, b2, r2);
      AdvancesIsTransitive(b0, r0, b2, r2, drive.budget, drive.report);
      ghost var now := OutputQueues(egressUdp, ingressTcp, ingressUdp);
      ThenIsAssociative(applied, now, OutputQueues(egressUdpRest, ingressTcpRest, ingressUdpRest));
      applied := applied.Then(now);
      outputs := OutputQueues(egressUdpRest, ingressTcpRest, ingressUdpRest);
      OnlyApplied(books, now, generation);
    }

    /** Components run their operations and append to the queues; nothing queued before is touched. */
    method Perform(work: Work<Item>, flow: Flow, drive: DriveTurn)
      requires Valid() && flow.Valid() && flow.Objects() !! Objects()
      modifies this`guestFrames, this`outputs, this`ever, drive, flow.Objects()
      ensures Valid() && flow.Valid() && old(Books()) == Books() && ever == old(ever).Then(work.appends)
      ensures Advances(old(drive.budget), old(drive.report), drive.budget, drive.report)
    {
      flow.RunOps(work.ops, drive);
      Append(work.appends);
    }

    method Append(appends: Appends<Item>)
      requires Valid()
      modifies this`guestFrames, this`outputs, this`ever
      ensures Valid() && old(Books()) == Books() && ever == old(ever).Then(appends)
    {
      if guest != null {
        Buffers.Associates(guest.session.delivered + guest.outbound, guestFrames, appends.frames);
      }
      ThenIsAssociative(applied, outputs, appends.outputs);
      guestFrames, outputs, ever := guestFrames + appends.frames, outputs.Then(appends.outputs), ever.Then(appends);
    }

    /** The handlers of queued events, then the queues they fill, in the loop's fixed order. */
    method ProcessComponentOutputs(handlers: Work<Item>, flow: Flow, drive: DriveTurn, refused: seq<bool>,
                                   watchFails: seq<bool>, flushFails: bool)
      requires Valid() && flow.Valid() && flow.Objects() !! Objects()
      modifies this`guestFrames, this`guestDisconnected, this`outputs, this`applied, this`ever, Objects(), drive,
               flow.Objects()
      ensures Valid() && flow.Valid() && ever == old(ever).Then(handlers.appends)
      ensures Proceeds(old(guestDisconnected), old(Books()), flushFails || SomeTrue(watchFails), guestDisconnected,
                       Books())
      ensures HandledFirst(old(guestEvents.items), old(guestEvents.handled), refused)
      ensures guestDisconnected || GuestWorkedOff(drive.budget, drive.report)
      ensures Advances(old(drive.budget), old(drive.report), drive.budget, drive.report)
      ensures outputs != NoOutputs() ==> drive.report.budgetExhausted && !drive.budget.CanContinue()
    {
      ghost var b0, r0, books0, down0 := drive.budget, drive.report, Books(), guestDisconnected;
      ProcessComponentEvents(handlers, flow, drive, refused);
      ghost var b1, r1, books1, down1 := drive.budget, drive.report, Books(), guestDisconnected;
      WorkOffQueues(drive, watchFails, flushFails);
      AdvancesIsTransitive(b0, r0, b1, r1, drive.budget, drive.report);
      ProceedsOn(down0, books0, false, down1, books1, flushFails || SomeTrue(watchFails), guestDisconnected, Books());
    }

    method ProcessComponentEvents(handlers: Work<Item>, flow: Flow, drive: DriveTurn, refused: seq<bool>)
      requires Valid() && flow.Valid() && flow.Objects() !! Objects()
      modifies this`guestFrames, this`guestDisconnected, this`outputs, this`ever, guestEvents, drive, flow.Objects()
      ensures Valid() && flow.Valid() && ever == old(ever).Then(handlers.appends)
      ensures Proceeds(old(guestDisconnected), old(Books()), false, guestDisconnected, Books())
      ensures HandledFirst(old(guestEvents.items), old(guestEvents.handled), refused)
      ensures Advances(old(drive.budget), old(drive.report), drive.budget, drive.report)
    {
      HandleGuestEvents(refused);
      Perform(handlers, flow, drive);
    }

    method WorkOffQueues(drive: DriveTurn, watchFails: seq<bool>, flushFails: bool)
      requires Valid()
      modifies this`guestFrames, this`guestDisconnected, this`outputs, this`applied, GuestObjects(), drive
      ensures Valid()
      ensures Proceeds(old(guestDisconnected), old(Books()), flushFails || SomeTrue(watchFails), guestDisconnected,
                       Books())
      ensures guestDisconnected || GuestWorkedOff(drive.budget, drive.report)
      ensures Advances(old(drive.budget), old(drive.report), drive.budget, drive.report)
      ensures outputs != NoOutputs() ==> drive.report.budgetExhausted && !drive.budget.CanContinue()
    {
      ghost var b1, r1, books1, down1 := drive.budget, drive.report, Books(), guestDisconnected;
      SendAndFlush(drive, watchFails, flushFails);
      ghost var b2, r2, books2 := drive.budget, drive.report, Books();
      ApplyQueuedOutputs(drive);
      AdvancesIsTransitive(b1, r1, b2, r2, drive.budget, drive.report);
      ProceedsOn(down1, books1, flushFails || SomeTrue(watchFails), guestDisconnected, books2, false,
                 guestDisconnected, Books());
      if !guestDisconnected {
        GuestStaysWorkedOff(b2, r2, drive.budget, drive.report);
      }
    }

    method SendAndFlush(drive: DriveTurn, watchFails: seq<bool>, flushFails: bool)
      requires Valid()
      modifies this`guestFrames, this`guestDisconnected, GuestObjects(), drive
      ensures Valid()
      ensures Proceeds(old(guestDisconnected), old(Books()), flushFails || SomeTrue(watchFails), guestDisconnected,
                       Books())
      ensures guestDisconnected || GuestWorkedOff(drive.budget, drive.report)
      ensures Advances(old(drive.budget), old(drive.report), drive.budget, drive.report)
    {
      ghost var b1, r1, books1, down1 := drive.budget, drive.report, Books(), guestDisconnected;
      SendGuestFrames(drive, watchFails);
      ghost var b2, r2, books2, down2 := drive.budget, drive.report, Books(), guestDisconnected;
      FlushGuest(drive, flushFails);
      AdvancesIsTransitive(b1, r1, b2, r2, drive.budget, drive.report);
      ProceedsOn(down1, books1, SomeTrue(watchFails), down2, books2, flushFails, guestDisconnected, Books());
    }

    /** Something is queued for the loop itself. */
    ghost predicate Waiting()
      reads this, guestEvents
    {
      guestEvents.items != [] || guestFrames != [] || outputs != NoOutputs()
    }

    predicate HasPendingLocalWork(otherEventsPending: bool)
      reads this, guestEvents
    {
      guestEvents.items != [] || otherEventsPending || guestFrames != [] || outputs.egressUdp != []
      || outputs.ingressTcp != [] || outputs.ingressUdp != []
    }

    // ---- The phase ----

    /** Works the queues off and tells whether the counters moved; then they show progress for the rest of the turn. */
    method WorkOff(work: Work<Item>, flow: Flow, drive: DriveTurn, refused: seq<bool>, watchFails: seq<bool>,
                   flushFails: bool)
      returns (progressed: bool)
      requires Valid() && flow.Valid() && flow.Objects() !! Objects()
      modifies this`guestFrames, this`guestDisconnected, this`outputs, this`applied, this`ever, Objects(), drive,
               flow.Objects()
      ensures Valid() && flow.Valid() && ever == old(ever).Then(work.appends)
      ensures Proceeds(old(guestDisconnected), old(Books()), flushFails || SomeTrue(watchFails), guestDisconnected,
                       Books())
      ensures HandledFirst(old(guestEvents.items), old(guestEvents.handled), refused)
      ensures guestDisconnected || GuestWorkedOff(drive.budget, drive.report)
      ensures outputs != NoOutputs() ==> !drive.budget.CanContinue()
      ensures Advances(old(drive.budget), old(drive.report), drive.budget, drive.report)
      ensures progressed ==> drive.report.progress.Made()
      ensures progressed <==> drive.report.progress != old(drive.report.progress)
    {
      var before := drive.report.progress;
      ProcessComponentOutputs(work, flow, drive, refused, watchFails, flushFails);
      progressed := drive.report.progress != before;
      if progressed {
        ChangeIsProgress(before, drive.report.progress, drive.report.progress);
      }
    }

    /** Other components, then expired timers, whose effect on the counters is told. */
    method DriveComponents(components: Work<Item>, timers: Work<Item>, flow: Flow, drive: DriveTurn)
      returns (progressed: bool, ghost before: Progress)
      requires Valid() && flow.Valid() && flow.Objects() !! Objects()
      modifies this`guestFrames, this`outputs, this`ever, drive, flow.Objects()
      ensures Valid() && flow.Valid() && old(Books()) == Books()
      ensures ever == old(ever).Then(components.appends).Then(timers.appends)
      ensures Advances(old(drive.budget), old(drive.report), drive.budget, drive.report)
      ensures progressed ==> drive.report.progress.Made()
      ensures before.AtLeast(old(drive.report.progress)) && drive.report.progress.AtLeast(before)
      ensures progressed <==> drive.report.progress != before
    {
      ghost var b, r := drive.budget, drive.report;
      Perform(components, flow, drive);
      ghost var b1, r1 := drive.budget, drive.report;
      before := drive.report.progress;
      var start := drive.report.progress;
      Perform(timers, flow, drive);
      progressed := drive.report.progress != start;
      if progressed {
        ChangeIsProgress(start, drive.report.progress, drive.report.progress);
      }
      AdvancesIsTransitive(b, r, b1, r1, drive.budget, drive.report);
    }

    /**
     * The phase before the reactor is asked: queued work, other components, expired timers, queued work again, and
     * guest frames. Nothing queued before or during it is lost, and what has left the queues stays out; every read
     * becomes an event. With no timeout from the caller and a positive idle delay, the loop asks not to wait only
     * after progress.
     */
    method QueuedPhase(budget: Budget, work: PhaseWork<Item>, flow: Flow, buffers: seq<bool>,
                       otherEventsPending: bool, poll: Option<Duration>, timer: Option<Duration>, idle: Duration)
      returns (outcome: Outcome, report: Report, ghost left: Budget, ghost marks: Marks)
      requires Valid() && flow.Valid() && flow.Objects() !! Objects()
      modifies this, Objects(), flow.Objects()
      ensures Valid() && flow.Valid() && ever == old(ever).Then(work.Total()) && !guestDisconnected
      ensures Proceeds(old(guestDisconnected), old(Books()), work.Watches(), outcome.Reconnect?, Books())
      ensures HandledFirst(old(guestEvents.items), old(guestEvents.handled), work.refused)
      ensures outcome.WaitFor? ==> GuestWorkedOff(left, report) && GuestReadOut(left, buffers)
      ensures outputs != NoOutputs() ==> !left.CanContinue()
      ensures Advances(budget, NEW_REPORT, left, report) && marks.Ascend(report.progress)
      ensures outcome.WaitFor? ==>
        outcome.timeout == if GoesAgain(report, Waiting() || otherEventsPending, marks.Moved()) then Some(0)
                           else if poll.Some? then poll else if timer == Some(0) then Some(idle) else timer
      ensures report.progress.BytesMoved() <= budget.bytes && report.Explained()
      ensures outcome == WaitFor(Some(0)) && poll == None && idle > 0 ==> report.progress.Made()
    {
      var drive := new DriveTurn(budget);
      var progressed;
      progressed, marks := RunPhase(work, flow, buffers, drive);
      report, left := drive.report, drive.budget;
      TurnIsBounded(budget, left, report);
      MovedMeansMade(marks, report.progress);
      outcome := Decide(report, otherEventsPending, progressed, poll, timer, idle);
    }

    /** Latched readiness, then guest frames to and from the session. */
    method DriveReadyGuest(work: ReadyWork<Item>, drive: DriveTurn)
      requires Valid()
      modifies this`guestDisconnected, this`taken, Objects(), drive
      ensures Valid()
      ensures Proceeds(old(guestDisconnected), old(Books()), work.flushFails, guestDisconnected, Books())
      ensures Advances(old(drive.budget), old(drive.report), drive.budget, drive.report)
    {
      ghost var books, down := Books(), guestDisconnected;
      StaysPut(down, books, work.flushFails);
      if guest != null {
        var ok, now := DriveSession(work, drive);
        guestDisconnected := guestDisconnected || !ok;
        SessionProceeds(down, books, Books(), now, ok, work.flushFails);
      }
    }

    method DriveSession(work: ReadyWork<Item>, drive: DriveTurn) returns (ok: bool, ghost now: seq<FrameRead>)
      requires Valid() && guest != null
      modifies this`taken, Objects(), drive
      ensures Valid() && old(Books()).GoesOn(Books())
      ensures Books().handled == old(Books()).handled && taken == old(taken) + now
      ensures Advances(old(drive.budget), old(drive.report), drive.budget, drive.report)
      ensures WriteFault(old(Books()).met, Books().met) || ReadFault(now) ==> !ok
      ensures !ok ==> WriteFault(old(Books()).met, Books().met) || ReadFault(now) || work.flushFails
    {
      var events;
      events, ok, now := guest.DriveReady(work.readiness, guestEvents.items, drive, work.flushFails, work.buffers);
      Buffers.Associates(taken, now, guest.session.toRead);
      Record(events, now);
    }

    /** The phase after the reactor was asked, with a budget of its own. */
    method ReadyPhase(budget: Budget, work: ReadyWork<Item>, flow: Flow) 
      returns (reconnect: bool, report: Report, ghost left: Budget)
      requires Valid() && flow.Valid() && flow.Objects() !! Objects()
      modifies this, Objects(), flow.Objects()
      ensures Valid() && flow.Valid() && ever == old(ever).Then(work.Total()) && !guestDisconnected
      ensures Proceeds(old(guestDisconnected), old(Books()), work.Watches(), reconnect, Books())
      ensures reconnect || GuestWorkedOff(left, report)
      ensures outputs != NoOutputs() ==> !left.CanContinue()
      ensures Advances(budget, NEW_REPORT, left, report)
      ensures report.progress.BytesMoved() <= budget.bytes && report.Explained()
    {
      var drive := new DriveTurn(budget);
      RunReady(work, flow, drive);
      report, left := drive.report, drive.budget;
      TurnIsBounded(budget, left, report);
      reconnect, guestDisconnected := guestDisconnected, false;
    }

    method RunReady(work: ReadyWork<Item>, flow: Flow, drive: DriveTurn)
      requires Valid() && flow.Valid() && flow.Objects() !! Objects() && drive.report == NEW_REPORT
      modifies this, Objects(), flow.Objects(), drive
      ensures Valid() && flow.Valid() && ever == old(ever).Then(work.Total())
      ensures Proceeds(old(guestDisconnected), old(Books()), work.Watches(), guestDisconnected, Books())
      ensures guestDisconnected || GuestWorkedOff(drive.budget, drive.report)
      ensures outputs != NoOutputs() ==> !drive.budget.CanContinue()
      ensures Advances(old(drive.budget), NEW_REPORT, drive.budget, drive.report)
    {
      ghost var b, books, queued, down := drive.budget, Books(), ever, guestDisconnected;
      ReadyParts(work, flow, drive);
      ghost var b1, r1, books1, down1 := drive.budget, drive.report, Books(), guestDisconnected;
      ProcessComponentOutputs(work.followup, flow, drive, work.refused, work.watchFails, work.flushFails);
      ProceedsOn(down, books, work.flushFails, down1, books1, work.Watches(), guestDisconnected, Books());
      AdvancesIsTransitive(b, NEW_REPORT, b1, r1, drive.budget, drive.report);
      ThreeAppends(queued, work.components.appends, work.timers.appends, work.followup.appends);
    }

    method ReadyParts(work: ReadyWork<Item>, flow: Flow, drive: DriveTurn)
      requires Valid() && flow.Valid() && flow.Objects() !! Objects()
      modifies this, Objects(), flow.Objects(), drive
      ensures Valid() && flow.Valid()
      ensures ever == old(ever).Then(work.components.appends).Then(work.timers.appends)
      ensures Proceeds(old(guestDisconnected), old(Books()), work.flushFails, guestDisconnected, Books())
      ensures Advances(old(drive.budget), old(drive.report), drive.budget, drive.report)
    {
      ghost var b, r := drive.budget, drive.report;
      DriveReadyGuest(work, drive);
      ghost var b1, r1 := drive.budget, drive.report;
      var _, _ := DriveComponents(work.components, work.timers, flow, drive);
      AdvancesIsTransitive(b, r, b1, r1, drive.budget, drive.report);
    }

    method FirstPhase(p: Phase<Item>, flow: Flow) returns (reconnect: bool, report: Report)
      requires Valid() && flow.Valid() && flow.Objects() !! Objects()
      modifies this, Objects(), flow.Objects()
      ensures Valid() && flow.Valid() && ever == old(ever).Then(p.work.Total()) && !guestDisconnected
      ensures Proceeds(old(guestDisconnected), old(Books()), p.work.Watches(), reconnect, Books())
      ensures report.progress.BytesMoved() <= p.budget.bytes && report.Explained()
    {
      var outcome, before, _, _ :=
        QueuedPhase(p.budget, p.work, flow, p.buffers, p.otherEventsPending, p.poll, p.timer, p.idle);
      reconnect, report := outcome.Reconnect?, before;
    }

    method DriveOnce(turn: Turn<Item>, flow: Flow) returns (outcome: TurnOutcome, reports: seq<Report>)
      requires Valid() && flow.Valid() && flow.Objects() !! Objects()
      modifies this, Objects(), flow.Objects()
      ensures Valid() && flow.Valid()
      ensures Proceeds(old(guestDisconnected), old(Books()), turn.Watches(), EndsSession(outcome), Books())
      ensures !guestDisconnected
      ensures ever == old(ever).Then(AppendsOf(turn, outcome))
      ensures WithinBudget(reports, turn.phase.budget.bytes) && |reports| == if outcome.Completed? then 2 else 1
    {
      ghost var books, queued, down := Books(), ever, guestDisconnected;
      var first, before := FirstPhase(turn.phase, flow);
      if first {
        return ReconnectBefore, [before];
      }
      if turn.reactorFails {
        return ReactorFailed, [before];
      }
      ghost var books1 := Books();
      var reconnect, after, _ := ReadyPhase(turn.phase.budget, turn.ready, flow);
      ProceedsOn(down, books, turn.phase.work.Watches(), false, books1, turn.ready.Watches(), reconnect, Books());
      AppendsAssociate(queued, turn.phase.work.Total(), turn.ready.Total());
      outcome, reports := Completed(reconnect), [before, after];
    }

    /**
     * Over any run of turns with one session, all that was ever queued for other components is applied or queued, in
     * order, and the same holds for the guest's frames and events; each phase keeps to its byte budget. The run ends
     * early only when the session does.
     */
    method RunTurns(turns: seq<Turn<Item>>, flow: Flow) returns (outcomes: seq<TurnOutcome>, reports: seq<seq<Report>>)
      requires Valid() && flow.Valid() && flow.Objects() !! Objects()
      modifies this, Objects(), flow.Objects()
      ensures Valid() && flow.Valid() && old(Books()).GoesOn(Books())
      ensures |reports| == |outcomes| && RunOf(turns, outcomes) && AllWithinBudget(reports, turns)
      ensures applied.Then(outputs) == old(applied).Then(old(outputs)).Then(AllAppends(turns, outcomes).outputs)
      ensures guest != null ==>
        guest.session.delivered + guest.outbound + guestFrames
          == old(ever.frames) + AllAppends(turns, outcomes).frames
    {
      outcomes, reports := DriveAll(turns, flow);
    }

    method DriveAll(turns: seq<Turn<Item>>, flow: Flow) returns (outcomes: seq<TurnOutcome>, reports: seq<seq<Report>>)
      requires Valid() && flow.Valid() && flow.Objects() !! Objects()
      modifies this, Objects(), flow.Objects()
      ensures Valid() && flow.Valid() && old(Books()).GoesOn(Books())
      ensures |reports| == |outcomes| && RunOf(turns, outcomes) && AllWithinBudget(reports, turns)
      ensures ever == old(ever).Then(AllAppends(turns, outcomes))
    {
      ghost var books, was := Books(), ever;
      outcomes, reports := [], [];
      NoAppendsYet(was);
      var ended := false;
      while |outcomes| < |turns| && !ended
        invariant Valid() && flow.Valid() && books.GoesOn(Books())
        invariant |reports| == |outcomes| <= |turns| && ever == was.Then(AllAppends(turns, outcomes))
        invariant ended ==> RunOf(turns, outcomes)
        invariant AllWithinBudget(reports, turns)
        decreases |turns| - |outcomes|
      {
        ghost var books1 := Books();
        var outcome, now := DriveOnce(turns[|outcomes|], flow);
        GoesOnIsTransitive(books, books1, Books());
        NextAppends(was, turns, outcomes, outcome);
        NextReports(reports, now, turns);
        outcomes, reports, ended := outcomes + [outcome], reports + [now], EndsSession(outcome);
      }
    }

    method RunPhase(work: PhaseWork<Item>, flow: Flow, buffers: seq<bool>, drive: DriveTurn)
      returns (progressed: bool, ghost marks: Marks)
      requires Valid() && flow.Valid() && flow.Objects() !! Objects() && drive.report == NEW_REPORT
      modifies this, Objects(), flow.Objects(), drive
      ensures Valid() && flow.Valid() && ever == old(ever).Then(work.Total())
      ensures Proceeds(old(guestDisconnected), old(Books()), work.Watches(), guestDisconnected, Books())
      ensures HandledFirst(old(guestEvents.items), old(guestEvents.handled), work.refused)
      ensures guestDisconnected || GuestWorkedOff(drive.budget, drive.report)
      ensures guestDisconnected || GuestReadOut(drive.budget, buffers)
      ensures outputs != NoOutputs() ==> !drive.budget.CanContinue()
      ensures Advances(old(drive.budget), NEW_REPORT, drive.budget, drive.report)
      ensures marks.Ascend(drive.report.progress) && (progressed <==> marks.Moved())
    {
      ghost var b, books, queued, down := drive.budget, Books(), ever, guestDisconnected;
      var progress;
      ghost var q, t;
      progress, q, t := RunFirstParts(work, flow, drive);
      ghost var b2, r2, books2, down2 := drive.budget, drive.report, Books(), guestDisconnected;
      var outputProgress, m5 :=
        WorkOffAndRead(work.followup, flow, drive, work.refusedAgain, work.watchFails, work.flushFails, buffers);
      ProceedsOn(down, books, work.Watches(), down2, books2, work.Watches(), guestDisconnected, Books());
      AdvancesIsTransitive(b, NEW_REPORT, b2, r2, drive.budget, drive.report);
      AppendsAssociate(queued, work.FirstAppends(), work.followup.appends);
      marks := Marks(q, t, Span(r2.progress, m5));
      progressed := progress || outputProgress;
    }

    /** Guest frames, queued work, other components and expired timers. */
    method RunFirstParts(work: PhaseWork<Item>, flow: Flow, drive: DriveTurn)
      returns (progressed: bool, ghost q: Span, ghost t: Span)
      requires Valid() && flow.Valid() && flow.Objects() !! Objects() && drive.report == NEW_REPORT
      modifies this, Objects(), flow.Objects(), drive
      ensures Valid() && flow.Valid()
      ensures ever == old(ever).Then(work.FirstAppends())
      ensures Proceeds(old(guestDisconnected), old(Books()), work.Watches(), guestDisconnected, Books())
      ensures HandledFirst(old(guestEvents.items), old(guestEvents.handled), work.refused)
      ensures Advances(old(drive.budget), NEW_REPORT, drive.budget, drive.report)
      ensures q.Ascends() && t.start.AtLeast(q.end) && t.Ascends() && t.end == drive.report.progress
      ensures progressed <==> q.Moved() || t.Moved()
    {
      ghost var b, r, queued := drive.budget, drive.report, ever;
      var queuedProgress, m0 :=
        FlushAndWorkOff(work.queued, flow, drive, work.refused, work.watchFails, work.flushFails);
      ghost var b1, r1 := drive.budget, drive.report;
      var timerProgress, m2 := DriveComponents(work.components, work.timers, flow, drive);
      AdvancesIsTransitive(b, r, b1, r1, drive.budget, drive.report);
      ThreeAppends(queued, work.queued.appends, work.components.appends, work.timers.appends);
      q, t := Span(m0, r1.progress), Span(m2, drive.report.progress);
      progressed := queuedProgress || timerProgress;
    }

    method FlushAndWorkOff(work: Work<Item>, flow: Flow, drive: DriveTurn, refused: seq<bool>, watchFails: seq<bool>,
                           flushFails: bool)
      returns (progressed: bool, ghost before: Progress)
      requires Valid() && flow.Valid() && flow.Objects() !! Objects()
      modifies this, Objects(), drive, flow.Objects()
      ensures Valid() && flow.Valid() && ever == old(ever).Then(work.appends)
      ensures Proceeds(old(guestDisconnected), old(Books()), flushFails || SomeTrue(watchFails), guestDisconnected,
                       Books())
      ensures HandledFirst(old(guestEvents.items), old(guestEvents.handled), refused)
      ensures before.AtLeast(old(drive.report.progress)) && drive.report.progress.AtLeast(before)
      ensures progressed <==> drive.report.progress != before
      ensures Advances(old(drive.budget), old(drive.report), drive.budget, drive.report)
      ensures progressed ==> drive.report.progress.Made()
    {
      ghost var b, r, books, down := drive.budget, drive.report, Books(), guestDisconnected;
      FlushGuest(drive, flushFails);
      ghost var b1, r1, books1, down1 := drive.budget, drive.report, Books(), guestDisconnected;
      before := drive.report.progress;
      progressed := WorkOff(work, flow, drive, refused, watchFails, flushFails);
      AdvancesIsTransitive(b, r, b1, r1, drive.budget, drive.report);
      ProceedsOn(down, books, flushFails, down1, books1, flushFails || SomeTrue(watchFails), guestDisconnected,
                 Books());
    }

    method WorkOffAndRead(work: Work<Item>, flow: Flow, drive: DriveTurn, refused: seq<bool>, watchFails: seq<bool>,
                          flushFails: bool, buffers: seq<bool>)
      returns (progressed: bool, ghost before: Progress)
      requires Valid() && flow.Valid() && flow.Objects() !! Objects()
      modifies this, Objects(), drive, flow.Objects()
      ensures Valid() && flow.Valid() && ever == old(ever).Then(work.appends)
      ensures Proceeds(old(guestDisconnected), old(Books()), flushFails || SomeTrue(watchFails), guestDisconnected,
                       Books())
      ensures guestDisconnected || GuestWorkedOff(drive.budget, drive.report)
      ensures guestDisconnected || GuestReadOut(drive.budget, buffers)
      ensures outputs != NoOutputs() ==> !drive.budget.CanContinue()
      ensures before.AtLeast(old(drive.report.progress)) && drive.report.progress.AtLeast(before)
      ensures progressed <==> before != old(drive.report.progress)
      ensures Advances(old(drive.budget), old(drive.report), drive.budget, drive.report)
      ensures progressed ==> drive.report.progress.Made()
    {
      ghost var b, r, books, down := drive.budget, drive.report, Books(), guestDisconnected;
      progressed := WorkOff(work, flow, drive, refused, watchFails, flushFails);
      ghost var b1, r1, books1, down1 := drive.budget, drive.report, Books(), guestDisconnected;
      before := drive.report.progress;
      ReadGuest(drive, buffers);
      AdvancesIsTransitive(b, r, b1, r1, drive.budget, drive.report);
      ProceedsOn(down, books, flushFails || SomeTrue(watchFails), down1, books1, false, guestDisconnected, Books());
    }

    method Decide(report: Report, otherEventsPending: bool, followupProgress: bool, poll: Option<Duration>,
                  timer: Option<Duration>, idle: Duration)
      returns (outcome: Outcome)
      requires Valid() && report.Explained() && (followupProgress ==> report.progress.Made())
      modifies this`guestDisconnected
      ensures Valid() && old(Books()) == Books()
      ensures outcome.Reconnect? <==> old(guestDisconnected)
      ensures !guestDisconnected
      ensures outcome.WaitFor? ==>
        outcome.timeout == if GoesAgain(report, Waiting() || otherEventsPending, followupProgress) then Some(0)
                           else if poll.Some? then poll else if timer == Some(0) then Some(idle) else timer
      ensures outcome == WaitFor(Some(0)) && poll == None && idle > 0 ==> report.progress.Made()
    {
      var pending := HasPendingLocalWork(otherEventsPending);
      if guestDisconnected {
        guestDisconnected := false;
        outcome := Reconnect;
      } else {
        RetryIffGoesAgain(report, pending, followupProgress);
        RetryNeedsProgress(report, pending, followupProgress);
        ZeroTimeoutIff(report, pending, followupProgress, poll, timer, idle);
        outcome := WaitFor(QueuedPhaseTimeout(report, pending, followupProgress, poll, timer, idle));
      }
    }
  }

  lemma {:induction false} GoesOnIsTransitive<Item>(a: Account<Item>, b: Account<Item>, c: Account<Item>)
    requires a.GoesOn(b) && b.GoesOn(c)
    ensures a.GoesOn(c)
  {
  }

  lemma {:induction false} FaultSplits<Item>(a: Account<Item>, b: Account<Item>, c: Account<Item>, generation: nat)
    requires a.GoesOn(b) && b.GoesOn(c)
    ensures a.Fault(c, generation) <==> a.Fault(b, generation) || b.Fault(c, generation)
  {
    if a.Fault(b, generation) {
      if k :| |a.met| <= k < |b.met| && b.met[k].FrameWriteFailed? {
        assert c.met[k].FrameWriteFailed?;
      } else if k :| |a.taken| <= k < |b.taken| && b.taken[k].FrameFailed? {
        assert c.taken[k].FrameFailed?;
      } else {
        var k :| |a.handled| <= k < |b.handled| && b.handled[k] == Disconnected(generation);
        assert c.handled[k] == Disconnected(generation);
      }
    }
    if a.Fault(c, generation) {
      if k :| |a.met| <= k < |c.met| && c.met[k].FrameWriteFailed? {
        assert k < |b.met| ==> b.met[k].FrameWriteFailed?;
      } else if k :| |a.taken| <= k < |c.taken| && c.taken[k].FrameFailed? {
        assert k < |b.taken| ==> b.taken[k].FrameFailed?;
      } else {
        var k :| |a.handled| <= k < |c.handled| && c.handled[k] == Disconnected(generation);
        assert k < |b.handled| ==> b.handled[k] == Disconnected(generation);
      }
    }
  }

  lemma {:induction false} HandledFault<Item>(was: Account<Item>, now: Account<Item>, more: seq<GuestEvent>,
                                              generation: nat)
    requires now == was.(handled := was.handled + more)
    ensures was.Fault(now, generation) <==> SomeDisconnect(more, generation)
  {
    if SomeDisconnect(more, generation) {
      var k :| 0 <= k < |more| && more[k] == Disconnected(generation);
      assert now.handled[|was.handled| + k] == Disconnected(generation);
    }
    if k :| |was.handled| <= k < |now.handled| && now.handled[k] == Disconnected(generation) {
      assert more[k - |was.handled|] == Disconnected(generation);
    }
  }

  lemma {:induction false} TakenFault<Item>(was: Account<Item>, now: Account<Item>, more: seq<FrameRead>,
                                            generation: nat)
    requires now.handled == was.handled && now.taken == was.taken + more
    ensures was.Fault(now, generation) <==> ReadFault(more) || WriteFault(was.met, now.met)
  {
    if ReadFault(more) {
      var k :| 0 <= k < |more| && more[k].FrameFailed?;
      assert now.taken[|was.taken| + k].FrameFailed?;
    }
    if k :| |was.taken| <= k < |now.taken| && now.taken[k].FrameFailed? {
      assert more[k - |was.taken|].FrameFailed?;
    }
  }

  lemma {:induction false} OnlyApplied<Item>(a: Account<Item>, more: OutputQueues<Item>, generation: nat)
    ensures var b := a.(applied := a.applied.Then(more));
      a.GoesOn(b) && !a.Fault(b, generation)
  {
  }

  lemma {:induction false} NoFault<Item>(a: Account<Item>, generation: nat)
    ensures !a.Fault(a, generation) && a.GoesOn(a)
  {
  }

  lemma {:induction false} Unlost<T>(s: seq<T>)
    ensures s + [] == s
  {
  }

  lemma {:induction false} AppendsAssociate<Item>(a: Appends<Item>, b: Appends<Item>, c: Appends<Item>)
    ensures a.Then(b).Then(c) == a.Then(b.Then(c))
  {
    Buffers.Associates(a.frames, b.frames, c.frames);
    ThenIsAssociative(a.outputs, b.outputs, c.outputs);
  }

  lemma {:induction false} NoAppendsYet<Item>(a: Appends<Item>)
    ensures a.Then(Appends([], NoOutputs())) == a
  {
    Unlost(a.frames);
    Unlost(a.outputs.egressUdp);
    Unlost(a.outputs.ingressTcp);
    Unlost(a.outputs.ingressUdp);
  }

  lemma {:induction false} NextAppends<Item>(was: Appends<Item>, turns: seq<Turn<Item>>, outcomes: seq<TurnOutcome>,
                                             outcome: TurnOutcome)
    requires |outcomes| < |turns|
    ensures was.Then(AllAppends(turns, outcomes)).Then(AppendsOf(turns[|outcomes|], outcome))
         == was.Then(AllAppends(turns, outcomes + [outcome]))
  {
    assert (outcomes + [outcome])[..|outcomes|] == outcomes;
    AppendsAssociate(was, AllAppends(turns, outcomes), AppendsOf(turns[|outcomes|], outcome));
  }

  lemma {:induction false} NextReports<Item>(reports: seq<seq<Report>>, now: seq<Report>, turns: seq<Turn<Item>>)
    requires |reports| < |turns| && AllWithinBudget(reports, turns)
    requires WithinBudget(now, turns[|reports|].phase.budget.bytes)
    ensures AllWithinBudget(reports + [now], turns)
  {
  }

  lemma {:induction false} ThreeAppends<Item>(queued: Appends<Item>, a: Appends<Item>, b: Appends<Item>,
                                              c: Appends<Item>)
    ensures queued.Then(a).Then(b).Then(c) == queued.Then(a.Then(b).Then(c))
  {
    AppendsAssociate(queued, a, b);
    AppendsAssociate(queued, a.Then(b), c);
  }

  lemma {:induction false} ThenIsAssociative<Item>(a: OutputQueues<Item>, b: OutputQueues<Item>, c: OutputQueues<Item>)
    ensures a.Then(b).Then(c) == a.Then(b.Then(c))
  {
    Buffers.Associates(a.egressUdp, b.egressUdp, c.egressUdp);
    Buffers.Associates(a.ingressTcp, b.ingressTcp, c.ingressTcp);
    Buffers.Associates(a.ingressUdp, b.ingressUdp, c.ingressUdp);
  }

  /** Progress seen on the way is progress of the final report. */
  lemma MovedMeansMade(marks: Marks, last: Progress)
    requires marks.Ascend(last)
    ensures marks.Moved() ==> last.Made()
  {
  }

  lemma {:induction false} Regroup<T>(d: seq<T>, o: seq<T>, f: seq<T>, o': seq<T>, f': seq<T>)
    requires o' + f' == o + f
    ensures d + o' + f' == d + o + f
  {
    Buffers.Associates(d, o', f');
    Buffers.Associates(d, o, f);
  }

  /** Queues frames with the session until one is refused or the session fails; the rest is handed back in order. */
  method SendFrames(guest: GuestIo, frames: seq<Frame>, drive: DriveTurn, watchFails: seq<bool>)
    returns (rest: seq<Frame>, failed: bool)
    requires guest.Valid()
    modifies guest, guest.io, drive
    ensures guest.Valid() && Advances(old(drive.budget), old(drive.report), drive.budget, drive.report)
    ensures guest.outbound + rest == old(guest.outbound) + frames && old(guest.outbound) <= guest.outbound
    ensures rest != [] && !failed ==>
      TurnedDown(drive.budget, drive.report, rest[0], |guest.outbound|, guest.outboundCapacity)
    ensures failed ==> SomeTrue(watchFails)
  {
    ghost var b, r, all, left := drive.budget, drive.report, guest.outbound + frames, frames;
    var items := Reversed(frames);
    var refused, k := false, 0;
    failed := false;
    while items != [] && !refused && !failed
      invariant guest.Valid() && Advances(b, r, drive.budget, drive.report)
      invariant old(guest.outbound) <= guest.outbound
      invariant guest.outbound + left == all && items == Reversed(left)
      invariant refused ==> left != []
      invariant refused ==> TurnedDown(drive.budget, drive.report, left[0], |guest.outbound|, guest.outboundCapacity)
      invariant failed ==> SomeTrue(watchFails)
      decreases !refused, !failed, |items|
    {
      ghost var b1, r1, outbound := drive.budget, drive.report, guest.outbound;
      ReversedEnd(left);
      var frame := items[|items| - 1];
      items := items[..|items| - 1];
      var enqueued := guest.EnqueueFrame(frame, drive, k < |watchFails| && watchFails[k]);
      AdvancesIsTransitive(b, r, b1, r1, drive.budget, drive.report);
      k := k + 1;
      if enqueued.EnqueueBlocked? {
        items := items + [frame];
        refused := true;
      } else {
        MoveOne(outbound, left);
        left := left[1..];
        failed := enqueued.EnqueueFailed?;
      }
    }
    ReversedTwice(left);
    rest := Reversed(items);
  }
}
