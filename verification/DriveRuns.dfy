/** Any sequence of operations of one turn. */
module DriveRuns {
  import opened Bytes
  import opened Drive
  import opened Peers
  import opened Readiness
  import opened WriteQueues

  /** One operation, with what it meets. */
  datatype Op =
    | PushEventOp
    | StateChangeOp(succeeds: bool)
    | ComponentOutputOp(length: nat, capacity: nat)
    | ProtocolOp(available: nat, answer: ProtocolAnswer)
    | QueueOutputOp(maxLen: nat, bufferAvailable: bool)
    | TransportReadOp(available: nat, answer: ProtocolAnswer)
    | TransportWriteOp(available: nat, answer: ProtocolAnswer)
    | ReadOp(capacity: nat, bufferAvailable: bool)
    | WriteQueueOp
    | ReceiveDatagramOp(capacity: nat, bufferAvailable: bool)
    | SendDatagramOp(bytes: seq<byte>)
    | EnqueueFrameOp(queued: nat, capacity: nat, frameLen: nat)
    | WriteFrameOp(frame: Frame)
    | ReadFrameOp(bufferAvailable: bool)
    | ReadyOp(readable: bool, writable: bool)
    | WaitOp(wait: Wait)

  predicate IsIo(op: Op) {
    op.ReadOp? || op.ReceiveDatagramOp? || op.SendDatagramOp? || op.EnqueueFrameOp? || op.WriteFrameOp?
    || op.ReadFrameOp?
  }

  /** A callback's answer, kept to the chunk it was offered. */
  function Kept(answer: ProtocolAnswer, chunk: nat): (a: ProtocolAnswer)
    ensures Respects(a, chunk)
  {
    if answer.Moved? && answer.bytes > chunk then Moved(chunk) else answer
  }

  /** A flow: a slot, a stream, its write queue and protocol output, a datagram socket and a guest session. */
  class Flow {
    const io: IoSlotState
    const stream: Peer
    const queue: WriteQueue
    const socket: DatagramSocket
    const session: GuestSession
    var output: seq<byte>
    var offset: nat

    ghost predicate Valid()
      reads this, io, queue, session
    {
      io.Valid() && queue.Valid() && session.Valid()
    }

    constructor (io: IoSlotState, stream: Peer, queue: WriteQueue, socket: DatagramSocket, session: GuestSession,
                 output: seq<byte>)
      requires io.Valid() && queue.Valid() && session.Valid()
      ensures Valid() && this.io == io && this.stream == stream && this.queue == queue && this.socket == socket
      ensures this.session == session && this.output == output && offset == 0
    {
      this.io, this.stream, this.queue, this.socket, this.session := io, stream, queue, socket, session;
      this.output, offset := output, 0;
    }

    ghost function Objects(): set<object> {
      {this, io, stream, queue, socket, session}
    }

    /** The bytes on their way out: accepted by the stream, queued, or still in the engine's output. */
    ghost function Outgoing(): seq<byte>
      reads this, stream, queue
    {
      stream.accepted + queue.contents + Unsent(output, offset)
    }

    method Perform(op: Op, drive: DriveTurn)
      requires Valid()
      modifies Objects(), drive
      ensures Valid() && Advances(old(drive.budget), old(drive.report), drive.budget, drive.report)
      ensures Outgoing() == old(Outgoing()) && old(stream.accepted) <= stream.accepted
    {
      if op.QueueOutputOp? {
        QueueOutput(op.maxLen, op.bufferAvailable, drive);
      } else if op.WriteQueueOp? {
        var _ := drive.WriteStreamQueueReady(io, queue, stream);
      } else if op.ProtocolOp? || op.TransportReadOp? || op.TransportWriteOp? {
        PerformCallback(op, drive);
      } else if IsIo(op) {
        PerformIo(op, drive);
      } else {
        PerformLocal(op, drive);
      }
    }

    method PerformLocal(op: Op, drive: DriveTurn)
      requires io.Valid()
      modifies io, drive
      ensures io.Valid() && Advances(old(drive.budget), old(drive.report), drive.budget, drive.report)
    {
      match op {
        case PushEventOp =>
          var _ := drive.PushEvent();
        case StateChangeOp(succeeds) =>
          var _ := drive.TryApplyStateChange(succeeds);
        case ComponentOutputOp(length, capacity) =>
          var _ := drive.PushComponentOutput(length, capacity);
        case ReadyOp(readable, writable) =>
          io.MarkReactorReady(readable, writable);
        case WaitOp(wait) =>
          drive.BlockOn(wait);
        case _ =>
      }
    }

    method PerformCallback(op: Op, drive: DriveTurn)
      requires io.Valid() && (op.ProtocolOp? || op.TransportReadOp? || op.TransportWriteOp?)
      modifies io, drive
      ensures io.Valid() && Advances(old(drive.budget), old(drive.report), drive.budget, drive.report)
    {
      ghost var b, t := drive.budget, drive.report;
      var answer := Kept(op.answer, Min(op.available, drive.budget.bytes));
      match op {
        case ProtocolOp(available, _) =>
          var r := drive.DriveProtocolOp(available, answer);
          ChargesAdvance(b, t, OpCharge(b, r, answer, Changes));
        case TransportReadOp(available, _) =>
          var r := drive.TransportReadReady(io, available, answer);
          ChargesAdvance(b, t, OpCharge(b, r, answer, ReadBytes));
        case TransportWriteOp(available, _) =>
          var r := drive.TransportWriteReady(io, available, answer);
          ChargesAdvance(b, t, OpCharge(b, r, answer, WrittenBytes));
      }
    }

    method PerformIo(op: Op, drive: DriveTurn)
      requires io.Valid() && session.Valid() && IsIo(op)
      modifies io, stream`answers, stream`incoming, socket, session, drive
      ensures io.Valid() && session.Valid()
      ensures Advances(old(drive.budget), old(drive.report), drive.budget, drive.report)
    {
      ghost var b, t := drive.budget, drive.report;
      ghost var charge;
      match op {
        case ReadOp(capacity, bufferAvailable) =>
          var r := drive.ReadStreamReady(io, stream, bufferAvailable, capacity);
          charge := ReadCharge(b, r, bufferAvailable);
        case ReceiveDatagramOp(capacity, bufferAvailable) =>
          var r := drive.ReceiveDatagramReady(io, socket, bufferAvailable, capacity);
          charge := DatagramCharge(r);
        case SendDatagramOp(bytes) =>
          var r := drive.SendDatagramReady(io, socket, bytes);
          charge := SendCharge(r, |bytes|);
        case EnqueueFrameOp(queued, capacity, frameLen) =>
          var reserved := drive.EnqueueGuestFrame(queued, capacity, frameLen);
          charge := EnqueueCharge(reserved, queued, capacity, frameLen);
        case WriteFrameOp(frame) =>
          var r := drive.WriteGuestFrame(session, frame);
          charge := GuestWriteCharge(r, |frame|);
        case ReadFrameOp(bufferAvailable) =>
          var r := drive.ReadGuestFrame(session, bufferAvailable);
          charge := GuestReadCharge(b, r, session.frameCapacity);
      }
      ChargesAdvance(b, t, charge);
    }

    method QueueOutput(maxLen: nat, bufferAvailable: bool, drive: DriveTurn)
      requires Valid()
      modifies `output, `offset, queue, drive
      ensures Valid() && Advances(old(drive.budget), old(drive.report), drive.budget, drive.report)
      ensures Outgoing() == old(Outgoing())
    {
      ghost var b, t, accepted, queued, unsent :=
        drive.budget, drive.report, stream.accepted, queue.contents, Unsent(output, offset);
      var r, output', offset', moved := drive.QueueProtocolOutput(queue, output, offset, bufferAvailable, maxLen);
      ChargesAdvance(b, t, OutputCharge(b, r, moved));
      output, offset := output', offset';
      StillOutgoing(accepted, queued, unsent, moved);
    }

    /**
     * Whatever the operations and whatever they meet: the bytes moved are within the byte budget, the report stays
     * one the event loop accepts, and no outgoing byte is lost, doubled or reordered, nor taken back once accepted.
     */
    method RunOps(ops: seq<Op>, drive: DriveTurn)
      requires Valid()
      modifies Objects(), drive
      ensures Valid() && Advances(old(drive.budget), old(drive.report), drive.budget, drive.report)
      ensures Outgoing() == old(Outgoing()) && old(stream.accepted) <= stream.accepted
    {
      ghost var b, r := drive.budget, drive.report;
      for i := 0 to |ops|
        invariant Valid() && Advances(b, r, drive.budget, drive.report)
        invariant Outgoing() == old(Outgoing()) && old(stream.accepted) <= stream.accepted
      {
        ghost var b1, r1 := drive.budget, drive.report;
        Perform(ops[i], drive);
        AdvancesIsTransitive(b, r, b1, r1, drive.budget, drive.report);
      }
    }

    /** A whole turn from a fresh report. */
    method RunTurn(ops: seq<Op>, budget: Budget) returns (report: Report)
      requires Valid()
      modifies Objects()
      ensures Valid() && report.progress.BytesMoved() <= budget.bytes && report.Explained()
      ensures Outgoing() == old(Outgoing()) && old(stream.accepted) <= stream.accepted
    {
      var drive := new DriveTurn(budget);
      RunOps(ops, drive);
      TurnIsBounded(budget, drive.budget, drive.report);
      report := drive.report;
    }
  }

  lemma {:induction false} StillOutgoing(accepted: seq<byte>, queued: seq<byte>, unsent: seq<byte>, moved: nat)
    requires moved <= |unsent|
    ensures accepted + (queued + unsent[..moved]) + unsent[moved..] == accepted + queued + unsent
  {
    assert unsent == unsent[..moved] + unsent[moved..];
  }
}
