/** The guest side of the dataplane: frames to and from one session. */
module Guest {
  import opened Buffers
  import opened Drive
  import opened Peers
  import opened Readiness

  datatype GuestEvent = FrameEvent(generation: nat, frame: Frame) | Disconnected(generation: nat)

  datatype Enqueue = Queued | EnqueueBlocked | EnqueueFailed

  /** What the reactor reports for a registered item. */
  datatype Ready = Io(isGuest: bool, readable: bool, writable: bool) | Woken

  /** The events that what was read from the session becomes. */
  function EventsOf(generation: nat, taken: seq<FrameRead>): seq<GuestEvent>
    decreases |taken|
  {
    if taken == [] then []
    else EventsOf(generation, taken[..|taken| - 1]) + EventOf(generation, taken[|taken| - 1])
  }

  function EventOf(generation: nat, r: FrameRead): seq<GuestEvent> {
    match r
    case FrameIn(frame) => [FrameEvent(generation, frame)]
    case FrameClosed => [Disconnected(generation)]
    case FrameBlocked => []
    case FrameFailed => []
  }

  class GuestIo {
    const session: GuestSession
    const generation: nat
    const outboundCapacity: nat
    const io: IoSlotState
    var outbound: seq<Frame>

    ghost predicate Valid()
      reads this, session, io
    {
      session.Valid() && io.Valid()
    }

    constructor (session: GuestSession, generation: nat, outboundCapacity: nat)
      requires session.Valid()
      ensures Valid() && this.session == session && this.generation == generation && outbound == []
      ensures fresh(io) && this.outboundCapacity == outboundCapacity
    {
      this.session, this.generation, this.outboundCapacity := session, generation, outboundCapacity;
      io := new IoSlotState.Registered(Readable);
      outbound := [];
    }

    /** Changes what the reactor watches for, unless it watches for that already. */
    method Watch(interest: Interest, fails: bool) returns (ok: bool)
      requires io.Valid()
      modifies io
      ensures io.Valid()
      ensures ok <==> old(io.interest) == interest || !fails
      ensures ok ==> io.interest == interest
      ensures !ok ==> io.interest == old(io.interest) && io.CanRead() == old(io.CanRead())
      ensures Reads(interest) && Reads(old(io.interest)) ==> io.CanRead() == old(io.CanRead())
    {
      ok := true;
      if io.interest != interest {
        if fails {
          ok := false;
        } else {
          io.SetRegisteredInterest(interest);
        }
      }
    }

    /** Queues a frame, or hands it back; a frame that was queued stays queued even when the reactor then fails. */
    method EnqueueFrame(frame: Frame, drive: DriveTurn, watchFails: bool) returns (r: Enqueue)
      requires Valid()
      modifies this, io, drive
      ensures Valid() && Advances(old(drive.budget), old(drive.report), drive.budget, drive.report)
      ensures outbound == if r.EnqueueBlocked? then old(outbound) else old(outbound) + [frame]
      ensures r.EnqueueBlocked? <==> |old(outbound)| >= outboundCapacity || |frame| > old(drive.budget).bytes
                                     || !old(drive.budget).CanContinue()
      ensures r.EnqueueBlocked? ==> drive.report.progress == old(drive.report).progress
      ensures r.EnqueueBlocked? ==> TurnedDown(drive.budget, drive.report, frame, |outbound|, outboundCapacity)
      ensures r.Queued? ==> io.interest == ReadWrite
      ensures !r.Queued? ==> io.interest == old(io.interest)
      ensures Reads(old(io.interest)) ==> io.CanRead() == old(io.CanRead())
      ensures r.EnqueueFailed? <==> !r.EnqueueBlocked? && watchFails && old(io.interest) != ReadWrite
    {
      ghost var b, t := drive.budget, drive.report;
      var reserved := drive.EnqueueGuestFrame(|outbound|, outboundCapacity, |frame|);
      ChargesAdvance(b, t, EnqueueCharge(reserved, |outbound|, outboundCapacity, |frame|));
      if !reserved {
        return EnqueueBlocked;
      }
      outbound := outbound + [frame];
      var ok := Watch(ReadWrite, watchFails);
      r := if ok then Queued else EnqueueFailed;
    }

    /** Hands queued frames to the session in order; every frame is either delivered or still queued. */
    method FlushOutbound(drive: DriveTurn, watchFails: bool) returns (ok: bool)
      requires Valid()
      modifies this, io, drive, session`toWrite, session`delivered, session`offers, session`met
      ensures Valid() && Advances(old(drive.budget), old(drive.report), drive.budget, drive.report)
      ensures session.delivered + outbound == old(session.delivered) + old(outbound)
      ensures old(session.delivered) <= session.delivered
      ensures !SessionFailed(old(session.toWrite), session.offers - old(session.offers)) ==>
        ok || (watchFails && outbound == [])
      ensures SessionFailed(old(session.toWrite), session.offers - old(session.offers)) ==> !ok
      ensures ok && outbound != [] ==>
        (drive.report.budgetExhausted && !Affords(drive.budget, outbound[0]))
        || (drive.report.wait.guestSendCapacity && !io.CanWrite())
      ensures old(session.met) <= session.met && (WriteFault(old(session.met), session.met) ==> !ok)
      ensures !ok ==> WriteFault(old(session.met), session.met) || watchFails
      ensures old(io.CanWrite()) && outbound != [] && !io.CanWrite() ==>
        SessionBlocked(old(session.toWrite), session.offers - old(session.offers))
      ensures ok && outbound == [] ==> !drive.budget.CanContinue() || !io.WatchesWrite()
      ensures io.interest == old(io.interest) || io.interest == Readable
      ensures Reads(old(io.interest)) ==> io.CanRead() == old(io.CanRead())
    {
      var blocked;
      blocked, ok := WriteFrames(drive);
      if !ok {
        return;
      }
      if outbound == [] && io.WatchesWrite() {
        var fails := watchFails && io.interest != Readable;
        var change := drive.TryApplyStateChange(!fails);
        if change.Complete? {
          var _ := Watch(Readable, fails);
        }
        ok := !change.Error?;
      } else if outbound != [] && !io.CanWrite() {
        drive.BlockOn(NO_WAIT.(guestSendCapacity := true));
      }
    }

    method WriteFrames(drive: DriveTurn) returns (outOfBudget: bool, ok: bool)
      requires Valid()
      modifies `outbound, io, drive, session`toWrite, session`delivered, session`offers, session`met
      ensures Valid() && Advances(old(drive.budget), old(drive.report), drive.budget, drive.report)
      ensures session.delivered + outbound == old(session.delivered) + old(outbound)
      ensures old(session.delivered) <= session.delivered
      ensures io.interest == old(io.interest) && io.CanRead() == old(io.CanRead())
      ensures session.offers >= old(session.offers)
      ensures ok <==> !SessionFailed(old(session.toWrite), session.offers - old(session.offers))
      ensures old(session.met) <= session.met && (ok <==> !WriteFault(old(session.met), session.met))
      ensures io.CanWrite() <==>
        old(io.CanWrite()) && !SessionBlocked(old(session.toWrite), session.offers - old(session.offers))
      ensures outOfBudget ==> drive.report.budgetExhausted && outbound != [] && !Affords(drive.budget, outbound[0])
      ensures ok && !outOfBudget ==> outbound == [] || !io.CanWrite()
    {
      ghost var all, b, r := session.delivered + outbound, drive.budget, drive.report;
      ghost var script: seq<FrameWrite>, n: nat := session.toWrite, 0;
      outOfBudget, ok := false, true;
      while ok && !outOfBudget && io.CanWrite() && outbound != []
        invariant Valid() && Advances(b, r, drive.budget, drive.report)
        invariant session.delivered + outbound == all && old(session.delivered) <= session.delivered
        invariant io.interest == old(io.interest) && io.CanRead() == old(io.CanRead())
        invariant outOfBudget ==> drive.report.budgetExhausted && outbound != [] && !Affords(drive.budget, outbound[0])
        invariant n == session.offers - old(session.offers) && session.toWrite == Dropped(script, n)
        invariant ok <==> !SessionFailed(script, n)
        invariant old(session.met) <= session.met && (ok <==> !WriteFault(old(session.met), session.met))
        invariant io.CanWrite() <==> old(io.CanWrite()) && !SessionBlocked(script, n)
        decreases ok, !outOfBudget, io.CanWrite(), drive.budget.steps
      {
        ghost var b1, r1 := drive.budget, drive.report;
        outOfBudget, ok := WriteOne(drive, script, n);
        n := session.offers - old(session.offers);
        AdvancesIsTransitive(b, r, b1, r1, drive.budget, drive.report);
      }
    }

    /** One turn of that loop, after `n` frames were offered and taken. */
    method WriteOne(drive: DriveTurn, ghost script: seq<FrameWrite>, ghost n: nat) returns (outOfBudget: bool, ok: bool)
      requires Valid() && io.CanWrite() && outbound != [] && session.toWrite == Dropped(script, n)
      requires !SessionFailed(script, n) && !SessionBlocked(script, n)
      modifies `outbound, io, drive, session`toWrite, session`delivered, session`offers, session`met
      ensures Valid() && Advances(old(drive.budget), old(drive.report), drive.budget, drive.report)
      ensures session.delivered + outbound == old(session.delivered) + old(outbound)
      ensures old(session.delivered) <= session.delivered
      ensures io.interest == old(io.interest) && io.CanRead() == old(io.CanRead())
      ensures outOfBudget ==> drive.report.budgetExhausted && outbound != [] && !Affords(drive.budget, outbound[0])
      ensures var m := n + session.offers - old(session.offers);
        && n <= m && session.toWrite == Dropped(script, m)
        && (ok <==> !SessionFailed(script, m)) && (ok <==> !WriteFault(old(session.met), session.met))
        && old(session.met) <= session.met
        && (io.CanWrite() <==> !SessionBlocked(script, m))
      ensures ok && !outOfBudget && io.CanWrite() ==> drive.budget.steps < old(drive.budget).steps
    {
      ghost var b, r, delivered, queued := drive.budget, drive.report, session.delivered, outbound;
      NextWrite(script, n);
      outOfBudget, ok := false, true;
      var write := drive.WriteGuestFrame(session, outbound[0]);
      ChargesAdvance(b, r, GuestWriteCharge(write, |queued[0]|));
      if write.Flushed? {
        outbound := outbound[1..];
        assert delivered + queued == delivered + [queued[0]] + queued[1..];
      } else if write.GuestWouldBlock? {
        io.ClearWriteAfterWouldBlock();
      } else if write.GuestBudget? {
        outOfBudget := true;
      } else {
        ok := false;
        assert session.met[|old(session.met)|].FrameWriteFailed?;
      }
    }

    /**
     * Reads frames while the session may have more. Everything taken from the session becomes an event, in order:
     * the budget can stop the next read but cannot swallow a frame already read.
     */
    method DrainReadyReads(events: seq<GuestEvent>, drive: DriveTurn, buffers: seq<bool>)
      returns (events': seq<GuestEvent>, ok: bool, ghost taken: seq<FrameRead>)
      requires Valid()
      modifies io`readable, io`readProbe, drive, session`toRead
      ensures Valid() && Advances(old(drive.budget), old(drive.report), drive.budget, drive.report)
      ensures old(session.toRead) == taken + session.toRead
      ensures events' == events + EventsOf(generation, taken)
      ensures !ok ==> taken != [] && taken[|taken| - 1].FrameFailed?
      ensures ok <==> !ReadFault(taken)
      ensures io.CanWrite() == old(io.CanWrite())
      ensures ok ==> !io.CanRead() || Held(drive.report)
      ensures ok && io.CanRead() ==> NoRoom(drive.budget, session.frameCapacity, buffers)
      ensures ok && old(io.CanRead()) && !io.CanRead() ==> EndsReads(taken) || session.toRead == []
    {
      ghost var b, r, all := drive.budget, drive.report, session.toRead;
      events', ok, taken := events, true, [];
      assert all == [] + all && events == events + [];
      var stopped, k := false, 0;
      while ok && !stopped && io.CanRead()
        invariant Valid() && Advances(b, r, drive.budget, drive.report)
        invariant all == taken + session.toRead && events' == events + EventsOf(generation, taken)
        invariant !ok ==> taken != [] && taken[|taken| - 1].FrameFailed?
        invariant ok <==> !ReadFault(taken)
        invariant io.CanWrite() == old(io.CanWrite())
        invariant stopped ==> Held(drive.report) && NoRoom(drive.budget, session.frameCapacity, buffers)
        invariant ok && old(io.CanRead()) && !io.CanRead() ==> EndsReads(taken) || session.toRead == []
        decreases ok, !stopped, drive.budget.steps
      {
        ghost var b1, r1, taken1, toRead := drive.budget, drive.report, taken, session.toRead;
        ghost var read;
        events', stopped, ok, read := ReadOne(events', drive, k >= |buffers| || buffers[k]);
        k := k + 1;
        AdvancesIsTransitive(b, r, b1, r1, drive.budget, drive.report);
        taken := taken1 + read;
        ReadFaultsAppend(taken1, read);
        TakeOne(generation, events, taken1, read, session.toRead);
      }
    }

    /** One read and the event it becomes. */
    method ReadOne(events: seq<GuestEvent>, drive: DriveTurn, bufferAvailable: bool)
      returns (events': seq<GuestEvent>, stopped: bool, ok: bool, ghost read: seq<FrameRead>)
      requires Valid() && io.CanRead()
      modifies io`readable, io`readProbe, drive, session`toRead
      ensures Valid() && Advances(old(drive.budget), old(drive.report), drive.budget, drive.report)
      ensures |read| <= 1 && old(session.toRead) == read + session.toRead
      ensures events' == events + EventsOf(generation, read)
      ensures ok <==> !ReadFault(read)
      ensures io.CanWrite() == old(io.CanWrite())
      ensures !ok ==> |read| == 1 && read[0].FrameFailed?
      ensures stopped ==> Held(drive.report)
      ensures stopped ==>
        !bufferAvailable || session.frameCapacity > drive.budget.bytes || !drive.budget.CanContinue()
      ensures ok && !io.CanRead() ==> EndsReads(read) || session.toRead == []
      ensures !stopped ==> drive.budget.steps < old(drive.budget).steps
    {
      events', stopped, ok, read := events, false, true, [];
      assert events == events + EventsOf(generation, []);
      ghost var toRead, b, t := session.toRead, drive.budget, drive.report;
      var result := drive.ReadGuestFrame(session, bufferAvailable);
      ChargesAdvance(b, t, GuestReadCharge(b, result, session.frameCapacity));
      if toRead != [] && !result.GuestReadBlocked? {
        read := [ReadOf(result)];
        OneRead(generation, ReadOf(result));
      }
      match result {
        case GuestFrame(frame) =>
          events' := events + [FrameEvent(generation, frame)];
        case GuestReadWouldBlock =>
          io.ClearReadAfterWouldBlock();
        case GuestClosed =>
          io.ClearReadAfterWouldBlock();
          events' := events + [Disconnected(generation)];
        case GuestReadFailed =>
          ok := false;
        case GuestReadBlocked =>
          stopped := true;
      }
    }

    method LatchReadiness(readiness: seq<Ready>) returns (guestReady: bool)
      requires io.Valid()
      modifies io
      ensures io.Valid() && (guestReady <==> GuestIsReady(readiness))
      ensures io.interest == old(io.interest) && (old(io.CanRead()) ==> io.CanRead())
      ensures old(io.CanWrite()) ==> io.CanWrite()
    {
      guestReady := false;
      for i := 0 to |readiness|
        invariant io.Valid() && (guestReady <==> exists j :: 0 <= j < i && IsGuest(readiness[j]))
        invariant io.interest == old(io.interest) && (old(io.CanRead()) ==> io.CanRead())
        invariant old(io.CanWrite()) ==> io.CanWrite()
      {
        if IsGuest(readiness[i]) {
          guestReady := true;
          io.MarkReactorReady(readiness[i].readable, readiness[i].writable);
        }
      }
    }

    /** Latches the readiness the reactor reported for the guest, then writes, then reads. */
    method DriveReady(readiness: seq<Ready>, events: seq<GuestEvent>, drive: DriveTurn, watchFails: bool,
                      buffers: seq<bool>)
      returns (events': seq<GuestEvent>, ok: bool, ghost taken: seq<FrameRead>)
      requires Valid()
      modifies this, io, drive, session`toWrite, session`delivered, session`offers, session`met,
               session`toRead
      ensures Valid() && Advances(old(drive.budget), old(drive.report), drive.budget, drive.report)
      ensures session.delivered + outbound == old(session.delivered) + old(outbound)
      ensures old(session.toRead) == taken + session.toRead
      ensures events' == events + EventsOf(generation, taken)
      ensures old(session.delivered) <= session.delivered
      ensures GuestIsReady(readiness) && ok ==> !io.CanRead() || Held(drive.report)
      ensures GuestIsReady(readiness) && ok && io.CanRead() ==>
        NoRoom(drive.budget, session.frameCapacity, buffers)
      ensures SessionFailed(old(session.toWrite), session.offers - old(session.offers)) ==> !ok
      ensures old(session.met) <= session.met
      ensures WriteFault(old(session.met), session.met) || ReadFault(taken) ==> !ok
      ensures !ok ==> WriteFault(old(session.met), session.met) || ReadFault(taken) || watchFails
      ensures GuestIsReady(readiness) && ok && outbound != [] ==>
        drive.report.budgetExhausted || (drive.report.wait.guestSendCapacity && !io.CanWrite())
      ensures !GuestIsReady(readiness) ==> ok && taken == [] && outbound == old(outbound)
      ensures !GuestIsReady(readiness) ==> drive.report == old(drive.report) && drive.budget == old(drive.budget)
    {
      events', ok, taken := events, true, [];
      var guestReady := LatchReadiness(readiness);
      if guestReady {
        ghost var b, r := drive.budget, drive.report;
        ok := FlushOutbound(drive, watchFails);
        ghost var b1, r1 := drive.budget, drive.report;
        if ok {
          events', ok, taken := DrainReadyReads(events, drive, buffers);
          AdvancesIsTransitive(b, r, b1, r1, drive.budget, drive.report);
        }
      }
    }
  }

  /** Reading stopped for want of budget, or of a buffer in which case the event loop is told to come back. */
  predicate Held(r: Report) {
    r.budgetExhausted || (r.localBufferContinuation && r.wait.localBuffer)
  }

  /** The budget has room for a whole frame. */
  predicate Affords(b: Budget, frame: Frame) {
    |frame| <= b.bytes && b.CanContinue()
  }

  /** Why a frame is not accepted: the budget does not cover it, or there is no place, which the report tells. */
  predicate TurnedDown(b: Budget, r: Report, frame: Frame, queued: nat, capacity: nat) {
    (r.budgetExhausted && !Affords(b, frame)) || (r.wait.guestSendCapacity && queued >= capacity)
  }

  /** No read can be started: the budget does not cover a frame, or a buffer was missing. */
  ghost predicate NoRoom(b: Budget, frameCapacity: nat, buffers: seq<bool>) {
    frameCapacity > b.bytes || !b.CanContinue() || exists k :: 0 <= k < |buffers| && !buffers[k]
  }

  /** The last of the reads says that for now no more can be read. */
  predicate EndsReads(frames: seq<FrameRead>) {
    frames != [] && (frames[|frames| - 1].FrameBlocked? || frames[|frames| - 1].FrameClosed?)
  }

  /** What the last of `n` frames offered to the session met. */
  predicate SessionFailed(script: seq<FrameWrite>, n: int) {
    n > 0 && WriteAt(script, n - 1).FrameWriteFailed?
  }

  predicate SessionBlocked(script: seq<FrameWrite>, n: int) {
    n > 0 && WriteAt(script, n - 1).FrameWriteBlocked?
  }

  lemma {:induction false} NextWrite(script: seq<FrameWrite>, n: nat)
    ensures WriteAt(Dropped(script, n), 0) == WriteAt(script, n)
    ensures Dropped(Dropped(script, n), 1) == Dropped(script, n + 1)
  {
    DroppedTwice(script, n, 1);
  }

  ghost predicate GuestIsReady(readiness: seq<Ready>) {
    exists i :: 0 <= i < |readiness| && IsGuest(readiness[i])
  }

  predicate IsGuest(r: Ready) {
    r.Io? && r.isGuest
  }

  lemma {:induction false} EventsAppend(generation: nat, a: seq<FrameRead>, b: seq<FrameRead>)
    ensures EventsOf(generation, a + b) == EventsOf(generation, a) + EventsOf(generation, b)
    decreases |b|
  {
    if b == [] {
      assert a + b == a;
    } else {
      var n := |b| - 1;
      assert (a + b)[..|a| + n] == a + b[..n];
      EventsAppend(generation, a, b[..n]);
      Associates(EventsOf(generation, a), EventsOf(generation, b[..n]), EventOf(generation, b[n]));
    }
  }

  lemma {:induction false} OneRead(generation: nat, read: FrameRead)
    ensures EventsOf(generation, [read]) == EventOf(generation, read)
  {
    assert [read][..0] == [] && [] + EventOf(generation, read) == EventOf(generation, read);
  }

  lemma {:induction false} TakeOne(generation: nat, events: seq<GuestEvent>, taken: seq<FrameRead>,
                                   read: seq<FrameRead>, rest: seq<FrameRead>)
    requires |read| <= 1
    ensures taken + read + rest == taken + (read + rest)
    ensures events + EventsOf(generation, taken) + EventsOf(generation, read)
         == events + EventsOf(generation, taken + read)
  {
    if read == [] {
      assert taken + read == taken;
    } else {
      assert (taken + read)[..|taken|] == taken;
      OneRead(generation, read[0]);
      assert read == [read[0]];
      Associates(events, EventsOf(generation, taken), EventOf(generation, read[0]));
    }
  }
}
