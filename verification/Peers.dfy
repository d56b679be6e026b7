/** The other side of a socket: what it will answer is not known, but it keeps to the contract of the calls. */
module Peers {
  import opened Bytes

  /** What the next call meets: up to `n` bytes move, or it would block, or it fails. */
  datatype Answer = Accept(n: nat) | Block | Fail

  datatype IoResult = Count(n: nat) | WouldBlock | Failed

  /** What is left of a script after `n` calls. */
  function Dropped<T>(script: seq<T>, n: nat): seq<T> {
    if n <= |script| then script[n..] else []
  }

  /** What call number `k` meets, counting from 0; when a script has run out, calls would block. */
  function AnswerAt(script: seq<Answer>, k: nat): Answer {
    if k < |script| then script[k] else Block
  }

  /** Some write since then has failed. */
  ghost predicate WriteFault(was: seq<FrameWrite>, now: seq<FrameWrite>) {
    exists k :: |was| <= k < |now| && now[k].FrameWriteFailed?
  }

  ghost predicate ReadFault(taken: seq<FrameRead>) {
    exists k :: 0 <= k < |taken| && taken[k].FrameFailed?
  }

  lemma {:induction false} ReadFaultsAppend(a: seq<FrameRead>, b: seq<FrameRead>)
    ensures ReadFault(a + b) <==> ReadFault(a) || ReadFault(b)
  {
    if k :| 0 <= k < |a| && a[k].FrameFailed? {
      assert (a + b)[k].FrameFailed?;
    }
    if k :| 0 <= k < |b| && b[k].FrameFailed? {
      assert (a + b)[|a| + k].FrameFailed?;
    }
  }

  function WriteAt(script: seq<FrameWrite>, k: nat): FrameWrite {
    if k < |script| then script[k] else FrameWriteBlocked
  }

  lemma {:induction false} DroppedTwice<T>(script: seq<T>, m: nat, n: nat)
    ensures Dropped(Dropped(script, m), n) == Dropped(script, m + n)
  {
  }

  function Min(a: nat, b: nat): nat {
    if a <= b then a else b
  }

  class Peer {
    var answers: seq<Answer>
    var incoming: seq<byte>
    var accepted: seq<byte>

    /** Everything that was offered to it, call by call. */
    ghost var offers: seq<seq<byte>>

    constructor (answers: seq<Answer>, incoming: seq<byte>)
      ensures this.answers == answers && this.incoming == incoming && accepted == []
    {
      this.answers, this.incoming, accepted, offers := answers, incoming, [], [];
    }

    method NextAnswer() returns (a: Answer)
      modifies `answers
      ensures a == AnswerAt(old(answers), 0) && answers == Dropped(old(answers), 1)
    {
      if answers == [] {
        return Block;
      }
      a, answers := answers[0], answers[1..];
    }

    /** Accepts a prefix of what is offered. */
    method Write(bytes: seq<byte>) returns (r: IoResult)
      modifies `answers, `accepted, `offers
      ensures offers == old(offers) + [bytes] && answers == Dropped(old(answers), 1)
      ensures r.WouldBlock? <==> AnswerAt(old(answers), 0).Block?
      ensures r.Failed? <==> AnswerAt(old(answers), 0).Fail?
      ensures r.Count? ==>
        r.n == Min(AnswerAt(old(answers), 0).n, |bytes|) && accepted == old(accepted) + bytes[..r.n]
      ensures !r.Count? ==> accepted == old(accepted)
    {
      offers := offers + [bytes];
      var a := NextAnswer();
      match a
      case Accept(n) =>
        r := Count(if n <= |bytes| then n else |bytes|);
        accepted := accepted + bytes[..r.n];
      case Block =>
        r := WouldBlock;
      case Fail =>
        r := Failed;
    }

    /** Hands over the next bytes, at most `max`; none at all once the stream has ended. */
    method Read(max: nat) returns (r: IoResult, bytes: seq<byte>)
      modifies `answers, `incoming
      ensures answers == Dropped(old(answers), 1) && old(incoming) == bytes + incoming
      ensures r.WouldBlock? <==> AnswerAt(old(answers), 0).Block?
      ensures r.Failed? <==> AnswerAt(old(answers), 0).Fail?
      ensures r.Count? ==>
        r.n == |bytes| == Min(Min(AnswerAt(old(answers), 0).n, max), |old(incoming)|)
      ensures !r.Count? ==> bytes == []
    {
      var a := NextAnswer();
      bytes := [];
      match a
      case Accept(n) =>
        var len := if n <= max then n else max;
        len := if len <= |incoming| then len else |incoming|;
        r, bytes, incoming := Count(len), incoming[..len], incoming[len..];
      case Block =>
        r := WouldBlock;
      case Fail =>
        r := Failed;
    }
  }

  /** A socket that moves whole datagrams. */
  class DatagramSocket {
    var answers: seq<Answer>
    var inbound: seq<seq<byte>>
    var sent: seq<seq<byte>>

    constructor (answers: seq<Answer>, inbound: seq<seq<byte>>)
      ensures this.answers == answers && this.inbound == inbound && sent == []
    {
      this.answers, this.inbound, sent := answers, inbound, [];
    }

    /** The next datagram, cut to the room offered. */
    method Receive(room: nat) returns (r: IoResult, bytes: seq<byte>)
      modifies `answers, `inbound
      ensures answers == Dropped(old(answers), 1)
      ensures r.Failed? <==> AnswerAt(old(answers), 0).Fail? && old(inbound) != []
      ensures r.WouldBlock? <==> AnswerAt(old(answers), 0).Block? || old(inbound) == []
      ensures r.Count? ==>
        r.n == |bytes| && inbound == old(inbound)[1..] && bytes == old(inbound)[0][..Min(|old(inbound)[0]|, room)]
      ensures !r.Count? ==> inbound == old(inbound)
    {
      bytes := [];
      if answers == [] || answers[0].Block? || inbound == [] {
        r := WouldBlock;
      } else if answers[0].Fail? {
        r := Failed;
      } else {
        bytes := if |inbound[0]| <= room then inbound[0] else inbound[0][..room];
        r, inbound := Count(|bytes|), inbound[1..];
      }
      if answers != [] {
        answers := answers[1..];
      }
    }

    /** Sends the datagram, or reports a shorter count without having sent it. */
    method Send(bytes: seq<byte>) returns (r: IoResult)
      modifies `answers, `sent
      ensures answers == Dropped(old(answers), 1)
      ensures r.WouldBlock? <==> AnswerAt(old(answers), 0).Block?
      ensures r.Failed? <==> AnswerAt(old(answers), 0).Fail?
      ensures r.Count? ==> r.n == Min(AnswerAt(old(answers), 0).n, |bytes|)
      ensures sent == if r == Count(|bytes|) then old(sent) + [bytes] else old(sent)
    {
      if answers == [] || answers[0].Block? {
        r := WouldBlock;
      } else if answers[0].Fail? {
        r := Failed;
      } else {
        r := Count(if answers[0].n <= |bytes| then answers[0].n else |bytes|);
        if r.n == |bytes| {
          sent := sent + [bytes];
        }
      }
      if answers != [] {
        answers := answers[1..];
      }
    }
  }

  type Frame = seq<byte>

  datatype FrameRead = FrameIn(frame: Frame) | FrameBlocked | FrameClosed | FrameFailed

  datatype FrameWrite = FrameFlushed | FrameWriteBlocked | FrameWriteFailed

  /** A guest's frame session; the frames it brings fit the buffers they are read into. */
  class GuestSession {
    var toRead: seq<FrameRead>
    var toWrite: seq<FrameWrite>
    var delivered: seq<Frame>

    /** How many frames were offered to it, and what each of them met. */
    ghost var offers: nat
    ghost var met: seq<FrameWrite>
    const frameCapacity: nat

    ghost predicate Valid()
      reads this
    {
      forall i :: 0 <= i < |toRead| && toRead[i].FrameIn? ==> |toRead[i].frame| <= frameCapacity
    }

    constructor (toRead: seq<FrameRead>, toWrite: seq<FrameWrite>, frameCapacity: nat)
      requires forall i :: 0 <= i < |toRead| && toRead[i].FrameIn? ==> |toRead[i].frame| <= frameCapacity
      ensures Valid() && delivered == [] && this.toRead == toRead && this.toWrite == toWrite
    {
      this.toRead, this.toWrite, delivered, this.frameCapacity := toRead, toWrite, [], frameCapacity;
      offers, met := 0, [];
    }

    method ReadFrame() returns (r: FrameRead)
      requires Valid()
      modifies `toRead
      ensures Valid() && (r.FrameIn? ==> |r.frame| <= frameCapacity)
      ensures if old(toRead) == [] then r == FrameBlocked && toRead == [] else [r] + toRead == old(toRead)
    {
      r := FrameBlocked;
      if toRead != [] {
        r, toRead := toRead[0], toRead[1..];
      }
    }

    method WriteFrame(frame: Frame) returns (r: FrameWrite)
      modifies `toWrite, `delivered, `offers, `met
      ensures delivered == if r.FrameFlushed? then old(delivered) + [frame] else old(delivered)
      ensures r == WriteAt(old(toWrite), 0) && toWrite == Dropped(old(toWrite), 1)
      ensures offers == old(offers) + 1 && met == old(met) + [r]
    {
      offers := offers + 1;
      r := FrameWriteBlocked;
      if toWrite != [] {
        r, toWrite := toWrite[0], toWrite[1..];
      }
      met := met + [r];
      if r.FrameFlushed? {
        delivered := delivered + [frame];
      }
    }
  }
}
