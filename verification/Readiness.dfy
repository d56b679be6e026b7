/** The readiness latch of one registered source. */
module Readiness {
  datatype Interest = Disabled | Readable | Writable | ReadWrite

  predicate Reads(interest: Interest) {
    interest.Readable? || interest.ReadWrite?
  }

  predicate Writes(interest: Interest) {
    interest.Writable? || interest.ReadWrite?
  }

  class IoSlotState {
    var readable: bool
    var writable: bool
    var interest: Interest
    var readProbe: bool
    var writeProbe: bool

    /** A direction may be probed only while it is watched. */
    ghost predicate Valid()
      reads this
    {
      (readProbe ==> Reads(interest)) && (writeProbe ==> Writes(interest))
    }

    predicate CanRead()
      reads this
    {
      Reads(interest) && (readable || readProbe)
    }

    predicate CanWrite()
      reads this
    {
      Writes(interest) && (writable || writeProbe)
    }

    predicate WatchesWrite()
      reads this
    {
      Writes(interest)
    }

    /** A registered source may be written to at once; reading waits for the reactor. */
    constructor Registered(interest: Interest)
      ensures Valid() && this.interest == interest
      ensures !CanRead() && (CanWrite() <==> Writes(interest))
    {
      readable, writable, this.interest := false, false, interest;
      readProbe, writeProbe := false, Writes(interest);
    }

    constructor RegisteredWithReadProbe(interest: Interest)
      ensures Valid() && this.interest == interest
      ensures (CanRead() <==> Reads(interest)) && (CanWrite() <==> Writes(interest))
    {
      readable, writable, this.interest := false, false, interest;
      readProbe, writeProbe := Reads(interest), Writes(interest);
    }

    /** Readiness is only ever added: a latch already set stays set. */
    method MarkReactorReady(isReadable: bool, isWritable: bool)
      requires Valid()
      modifies `readable, `writable
      ensures Valid()
      ensures readable == (old(readable) || isReadable) && writable == (old(writable) || isWritable)
      ensures old(CanRead()) ==> CanRead()
      ensures old(CanWrite()) ==> CanWrite()
      ensures isReadable && Reads(interest) ==> CanRead()
      ensures isWritable && Writes(interest) ==> CanWrite()
    {
      if isReadable {
        readable := true;
      }
      if isWritable {
        writable := true;
      }
    }

    /** Only the direction that would block is closed. */
    method ClearReadAfterWouldBlock()
      requires Valid()
      modifies `readable, `readProbe
      ensures Valid() && !CanRead() && !readable && CanWrite() == old(CanWrite())
    {
      readable, readProbe := false, false;
    }

    method ClearWriteAfterWouldBlock()
      requires Valid()
      modifies `writable, `writeProbe
      ensures Valid() && !CanWrite() && !writable && CanRead() == old(CanRead())
    {
      writable, writeProbe := false, false;
    }

    method ClearForDropOrReset()
      modifies this
      ensures Valid() && !CanRead() && !CanWrite() && interest == Disabled
    {
      readable, writable, interest, readProbe, writeProbe := false, false, Disabled, false, false;
    }

    /** A direction newly watched may be tried at once; one watched all along keeps its state. */
    method SetRegisteredInterest(next: Interest)
      requires Valid()
      modifies `interest, `readProbe, `writeProbe
      ensures Valid() && interest == next
      ensures Reads(next) && !Reads(old(interest)) ==> CanRead()
      ensures Writes(next) && !Writes(old(interest)) ==> CanWrite()
      ensures Reads(next) && Reads(old(interest)) ==> CanRead() == old(CanRead())
      ensures Writes(next) && Writes(old(interest)) ==> CanWrite() == old(CanWrite())
      ensures !Reads(next) ==> !CanRead()
      ensures !Writes(next) ==> !CanWrite()
    {
      var previous := interest;
      interest := next;
      if !Reads(next) {
        readProbe := false;
      } else if !Reads(previous) {
        readProbe := true;
      }
      if !Writes(next) {
        writeProbe := false;
      } else if !Writes(previous) {
        writeProbe := true;
      }
    }
  }
}
