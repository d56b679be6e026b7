/** Byte buffers waiting to be written, the first one possibly in part. */
module WriteQueues {
  import opened Buffers
  import opened Bytes
  import opened Wrappers

  datatype PendingWrite = PendingWrite(bytes: seq<byte>, offset: nat)
  {
    predicate IsEmpty() {
      offset >= |bytes|
    }

    function Remaining(): seq<byte> {
      if IsEmpty() then [] else bytes[offset..]
    }
  }

  function Remainders(writes: seq<PendingWrite>): (r: seq<seq<byte>>)
    ensures |r| == |writes|
  {
    seq(|writes|, i requires 0 <= i < |writes| => writes[i].Remaining())
  }

  lemma {:induction false} RemaindersPrepend(write: PendingWrite, writes: seq<PendingWrite>)
    ensures Remainders([write] + writes) == [write.Remaining()] + Remainders(writes)
  {
  }

  lemma {:induction false} RemaindersAppend(writes: seq<PendingWrite>, write: PendingWrite)
    ensures Remainders(writes + [write]) == Remainders(writes) + [write.Remaining()]
  {
  }

  class WriteQueue {
    var first: Option<PendingWrite>
    var rest: seq<PendingWrite>

    /** The bytes still to be written, in order. */
    ghost var contents: seq<byte>

    ghost function Parts(): seq<seq<byte>>
      reads this
    {
      if first.None? then [] else [first.value.Remaining()] + Remainders(rest)
    }

    /** Nothing empty is queued, and nothing waits behind an empty front. */
    ghost predicate Valid()
      reads this
    {
      && (first.None? ==> rest == []) && (first.Some? ==> !first.value.IsEmpty())
      && (forall i :: 0 <= i < |rest| ==> !rest[i].IsEmpty())
      && contents == Concat(Parts())
    }

    constructor ()
      ensures Valid() && contents == []
    {
      first, rest, contents := None, [], [];
    }

    predicate IsEmpty()
      reads this
    {
      first.None?
    }

    /** What the front buffer still has to write; None when nothing waits. */
    function FrontSlice(): (r: Option<seq<byte>>)
      reads this
    {
      if first.None? || first.value.IsEmpty() then None else Some(first.value.Remaining())
    }

    lemma FrontIsFirst()
      requires Valid()
      ensures IsEmpty() <==> contents == []
      ensures IsEmpty() <==> FrontSlice().None?
      ensures FrontSlice().Some? ==> FrontSlice().value != [] && FrontSlice().value <= contents
    {
      if first.Some? {
        ConcatPrepends(first.value.Remaining(), Remainders(rest));
      }
    }

    method Push(bytes: seq<byte>)
      requires Valid()
      modifies this
      ensures Valid() && contents == old(contents) + bytes
    {
      if bytes != [] {
        var write := PendingWrite(bytes, 0);
        ConcatAppends(Parts(), [bytes]);
        ConcatOne(bytes);
        if first.None? {
          first := Some(write);
          assert [] + [bytes] == [bytes] + Remainders(rest);
        } else {
          RemaindersAppend(rest, write);
          Associates([first.value.Remaining()], Remainders(rest), [bytes]);
          rest := rest + [write];
        }
      }
      contents := contents + bytes;
    }

    method PushFront(write: PendingWrite)
      requires Valid()
      modifies this
      ensures Valid() && contents == write.Remaining() + old(contents)
    {
      if !write.IsEmpty() {
        ConcatPrepends(write.Remaining(), Parts());
        if first.Some? {
          RemaindersPrepend(first.value, rest);
          rest := [first.value] + rest;
        } else {
          assert [write.Remaining()] + [] == [write.Remaining()] + Remainders(rest);
        }
        first := Some(write);
      }
      contents := write.Remaining() + contents;
    }

    method PopFront() returns (write: Option<PendingWrite>)
      requires Valid()
      modifies this
      ensures Valid() && write == old(first)
      ensures write.None? ==> contents == [] == old(contents)
      ensures write.Some? ==> write.value.Remaining() + contents == old(contents)
    {
      write := first;
      if first.Some? {
        ConcatPrepends(first.value.Remaining(), Remainders(rest));
        contents := Concat(Remainders(rest));
        TakeNext();
      }
    }

    /** The first of the rest becomes the front. */
    method TakeNext()
      requires forall i :: 0 <= i < |rest| ==> !rest[i].IsEmpty()
      requires contents == Concat(Remainders(rest))
      modifies `first, `rest
      ensures Valid()
    {
      if rest == [] {
        first := None;
      } else {
        assert rest == [rest[0]] + rest[1..];
        RemaindersPrepend(rest[0], rest[1..]);
        first, rest := Some(rest[0]), rest[1..];
      }
    }

    /** The front, advanced, stays the front. */
    method KeepFront(write: PendingWrite)
      requires !write.IsEmpty() && forall i :: 0 <= i < |rest| ==> !rest[i].IsEmpty()
      modifies `first, `contents
      ensures Valid() && contents == write.Remaining() + Concat(Remainders(rest))
    {
      ConcatPrepends(write.Remaining(), Remainders(rest));
      first, contents := Some(write), write.Remaining() + Concat(Remainders(rest));
    }

    /** Drops bytes that were written from the front buffer; never more than that buffer holds. */
    method AdvanceFront(len: nat) returns (finished: bool)
      requires Valid()
      modifies this
      ensures Valid()
      ensures finished <==> old(FrontSlice()).None? || len >= |old(FrontSlice()).value|
      ensures old(FrontSlice()).None? ==> contents == old(contents)
      ensures old(FrontSlice()).Some? ==> contents == Without(old(contents), old(FrontSlice()).value, len)
    {
      finished := true;
      if first.Some? {
        FrontAdvances(first.value, rest, len);
        var write := first.value.(offset := first.value.offset + len);
        if write.IsEmpty() {
          contents := Concat(Remainders(rest));
          TakeNext();
        } else {
          KeepFront(write);
          finished := false;
        }
      }
    }

    method PendingBytes() returns (sum: nat)
      requires Valid()
      ensures sum == |contents|
    {
      sum := 0;
      if first.Some? {
        sum := |first.value.bytes| - first.value.offset;
        ghost var parts := Remainders(rest);
        ConcatPrepends(first.value.Remaining(), parts);
        for i := 0 to |rest|
          invariant sum == |first.value.Remaining()| + |Concat(parts[..i])|
        {
          ConcatAppends(parts[..i], [parts[i]]);
          ConcatOne(parts[i]);
          assert parts[..i] + [parts[i]] == parts[..i + 1];
          sum := sum + |rest[i].bytes| - rest[i].offset;
        }
        assert parts[..|rest|] == parts;
      }
    }
  }

  lemma {:induction false} FrontAdvances(front: PendingWrite, rest: seq<PendingWrite>, len: nat)
    requires !front.IsEmpty()
    ensures var write, behind := front.(offset := front.offset + len), Concat(Remainders(rest));
      && Without(Concat([front.Remaining()] + Remainders(rest)), front.Remaining(), len)
         == (if write.IsEmpty() then behind else write.Remaining() + behind)
      && (write.IsEmpty() <==> len >= |front.Remaining()|)
  {
    ConcatPrepends(front.Remaining(), Remainders(rest));
    AdvancedRemaining(front, len, Concat(Remainders(rest)));
    assert [] + Concat(Remainders(rest)) == Concat(Remainders(rest));
  }

  lemma {:induction false} AdvancedRemaining(write: PendingWrite, len: nat, behind: seq<byte>)
    requires !write.IsEmpty()
    ensures var front := write.Remaining();
      Without(front + behind, front, len) == write.(offset := write.offset + len).Remaining() + behind
  {
    var front := write.Remaining();
    if len < |front| {
      DropPart(write.bytes, write.offset, len, behind);
    } else {
      DropWhole(front, behind);
    }
  }

  lemma {:induction false} DropPart(bytes: seq<byte>, offset: nat, len: nat, behind: seq<byte>)
    requires offset + len <= |bytes|
    ensures (bytes[offset..] + behind)[len..] == bytes[offset + len..] + behind
  {
  }

  lemma {:induction false} DropWhole(front: seq<byte>, behind: seq<byte>)
    ensures (front + behind)[|front|..] == behind == [] + behind
  {
  }

  /** The queued bytes once `len` of the front ones are gone, or all of the front if that is fewer. */
  function Without(queued: seq<byte>, front: seq<byte>, len: nat): seq<byte> {
    if |front| > |queued| then [] else queued[if len <= |front| then len else |front|..]
  }
}
