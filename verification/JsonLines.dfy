/** Newline-terminated frames read from a byte source that delivers arbitrary pieces. */
module JsonLines {
  import opened Buffers
  import opened Bytes
  import opened Wrappers

  const NEWLINE: byte := 10
  const READ_BUFFER_BYTES: nat := 8192

  datatype Error = ReadFailed | FrameTooLong

  // ---- The byte source ----

  /** What one read of the source yields; a source with nothing left reports end of file for ever. */
  datatype Delivery = Data(bytes: seq<byte>) | Failed

  ghost predicate Deliverable(script: seq<Delivery>) {
    forall i :: 0 <= i < |script| && script[i].Data? ==> 0 < |script[i].bytes| <= READ_BUFFER_BYTES
  }

  ghost predicate NeverFails(script: seq<Delivery>) {
    forall i :: 0 <= i < |script| ==> script[i].Data?
  }

  /** All bytes the source will deliver, whatever the pieces and the failures between them. */
  ghost function Delivered(script: seq<Delivery>): seq<byte> {
    if script == [] then []
    else (if script[0].Data? then script[0].bytes else []) + Delivered(script[1..])
  }

  lemma {:induction false} DeliveredGrows(script: seq<Delivery>, n: nat)
    requires n < |script|
    ensures Delivered(script[..n + 1])
         == Delivered(script[..n]) + if script[n].Data? then script[n].bytes else []
    decreases n
  {
    if n > 0 {
      DeliveredGrows(script[1..], n - 1);
      assert script[..n + 1][1..] == script[1..][..n] && script[..n][1..] == script[1..][..n - 1];
    } else {
      assert script[..1] == [script[0]] && Delivered([script[0]][1..]) == [];
    }
  }

  class ByteSource {
    var script: seq<Delivery>

    /** An empty result is end of file; None is a failed read. */
    method Read() returns (r: Option<seq<byte>>)
      requires Deliverable(script)
      modifies this
      ensures Deliverable(script)
      ensures old(script) == [] ==> r == Some([]) && script == []
      ensures old(script) != [] ==>
                && script == old(script)[1..]
                && r == if old(script)[0].Data? then Some(old(script)[0].bytes) else None
      ensures NeverFails(old(script)) ==> r.Some? && NeverFails(script)
      ensures r == None ==> |script| < |old(script)| && Delivered(script) == old(Delivered(script))
      ensures r == Some([]) ==> script == old(script) == []
      ensures r.Some? && r.value != [] ==>
                && |script| < |old(script)| && |r.value| <= READ_BUFFER_BYTES
                && r.value + Delivered(script) == old(Delivered(script))
    {
      if script == [] {
        return Some([]);
      }
      r := if script[0].Data? then Some(script[0].bytes) else None;
      script := script[1..];
    }
  }

  // ---- Frames, independently of how bytes arrive ----

  predicate NoNewline(bytes: seq<byte>) {
    forall i :: 0 <= i < |bytes| ==> bytes[i] != NEWLINE
  }

  function FirstNewline(bytes: seq<byte>): (r: Option<nat>)
    ensures r.Some? ==> r.value < |bytes| && bytes[r.value] == NEWLINE
    ensures r.Some? ==> forall i :: 0 <= i < r.value ==> bytes[i] != NEWLINE
    ensures r.None? <==> NoNewline(bytes)
  {
    if bytes == [] then None
    else if bytes[0] == NEWLINE then Some(0)
    else
      match FirstNewline(bytes[1..])
      case None => None
      case Some(end) => Some(end + 1)
  }

  /** The length of the first frame: through its newline, or all bytes when there is none. */
  function FirstFrameLength(bytes: seq<byte>): (n: nat)
    ensures n <= |bytes| && (bytes != [] ==> n > 0)
  {
    match FirstNewline(bytes)
    case None => |bytes|
    case Some(end) => end + 1
  }

  /** A byte string cut after every newline, with a non-empty unterminated tail as the last frame. */
  function Frames(bytes: seq<byte>): seq<seq<byte>>
    decreases |bytes|
  {
    if bytes == [] then []
    else
      var n := FirstFrameLength(bytes);
      [bytes[..n]] + Frames(bytes[n..])
  }

  /** A frame holds no newline before its last byte. */
  predicate IsFrame(frame: seq<byte>) {
    frame != [] && NoNewline(frame[..|frame| - 1])
  }

  /** Every frame but the last also ends with one. */
  ghost predicate AreFrames(frames: seq<seq<byte>>) {
    frames != [] ==>
      && IsFrame(frames[0])
      && (|frames| > 1 ==> frames[0][|frames[0]| - 1] == NEWLINE)
      && AreFrames(frames[1..])
  }

  lemma {:induction false} FramesAreFrames(bytes: seq<byte>)
    ensures AreFrames(Frames(bytes))
    ensures Concat(Frames(bytes)) == bytes
    decreases |bytes|
  {
    if bytes != [] {
      var n := FirstFrameLength(bytes);
      FramesAreFrames(bytes[n..]);
      FirstFrameIsFrame(bytes);
      assert Frames(bytes)[1..] == Frames(bytes[n..]);
      assert bytes == bytes[..n] + bytes[n..];
    }
  }

  lemma FirstFrameIsFrame(bytes: seq<byte>)
    requires bytes != []
    ensures var n := FirstFrameLength(bytes);
      IsFrame(bytes[..n]) && (n < |bytes| ==> bytes[n - 1] == NEWLINE)
  {
  }

  lemma FirstNewlineOfPrefix(bytes: seq<byte>, more: seq<byte>)
    ensures FirstNewline(bytes).Some? ==> FirstNewline(bytes + more) == FirstNewline(bytes)
    ensures FirstFrameLength(bytes) <= FirstFrameLength(bytes + more)
  {
    var all := bytes + more;
    assert forall i :: 0 <= i < |bytes| ==> all[i] == bytes[i];
  }

  // ---- The reader ----

  /**
   * The deliveries one call takes. Only the last can be a failed read, the call reports it exactly then, and until the
   * last one the frame had not ended and was not yet too long.
   */
  ghost predicate Taken(buffered: seq<byte>, before: seq<Delivery>, after: seq<Delivery>, failed: bool, limit: nat) {
    && |after| <= |before| && after == before[|before| - |after|..]
    && var n := |before| - |after|;
      && (failed <==> n > 0 && before[n - 1].Failed?)
      && (n > 0 ==> NeverFails(before[..n - 1]) && Unfinished(buffered + Delivered(before[..n - 1]), limit))
  }

  ghost predicate Unfinished(bytes: seq<byte>, limit: nat) {
    NoNewline(bytes) && |bytes| <= limit
  }

  lemma {:induction false} TakesOneMore(buffered: seq<byte>, before: seq<Delivery>, after: seq<Delivery>, limit: nat)
    requires Taken(buffered, before, after, false, limit) && after != []
    requires Unfinished(buffered + Delivered(before[..|before| - |after|]), limit)
    ensures Taken(buffered, before, after[1..], after[0].Failed?, limit)
    ensures Delivered(before[..|before| - |after| + 1])
         == Delivered(before[..|before| - |after|]) + if after[0].Data? then after[0].bytes else []
  {
    var n := |before| - |after|;
    assert after[0] == before[n] && after[1..] == before[n + 1..];
    DeliveredGrows(before, n);
  }

  class JsonLineReader {
    var pending: seq<byte>
    const maxLineBytes: nat

    constructor (maxLineBytes: nat)
      ensures pending == [] && this.maxLineBytes == maxLineBytes
    {
      pending := [];
      this.maxLineBytes := maxLineBytes;
    }

    /** The bytes not yet handed out: those buffered, then those the source still holds. */
    ghost function Unread(source: ByteSource): seq<byte>
      reads this, source
    {
      pending + Delivered(source.script)
    }

    predicate NextFrameFits()
      reads this
    {
      FirstFrameLength(pending) <= maxLineBytes
    }

    method TakeLine() returns (taken: bool, line: seq<byte>)
      modifies this`pending
      ensures taken <==> !NoNewline(old(pending))
      ensures taken ==> line == old(pending)[..FirstFrameLength(old(pending))]
      ensures !taken ==> line == [] && pending == old(pending)
      ensures line + pending == old(pending)
    {
      match FirstNewline(pending)
      case None =>
        return false, [];
      case Some(end) =>
        line := pending[..end + 1];
        pending := pending[end + 1..];
        return true, line;
    }

    method TakeEof() returns (taken: bool, line: seq<byte>)
      modifies this`pending
      ensures line == old(pending) && pending == [] && (taken <==> line != [])
    {
      line := pending;
      pending := [];
      taken := line != [];
    }

    /** What each outcome says about all the bytes that were unread. */
    ghost predicate Justified(r: Result<bool, Error>, line: seq<byte>, all: seq<byte>, eof: bool) {
      match r
      case Ok(true) => 0 < |line| == FirstFrameLength(all) <= maxLineBytes
      case Ok(false) => line == [] && (eof ==> all == [])
      case Err(FrameTooLong) => line == [] && FirstFrameLength(all) > maxLineBytes
      case Err(ReadFailed) => line == []
    }

    /**
     * One frame of the unread bytes, however they are cut into reads: the outcome depends on them
     * and on the limit alone. A failed read is reported and loses nothing, a frame too long fails
     * every time, and nothing is read that the frame did not need.
     */
    method ReadLine(source: ByteSource) returns (r: Result<bool, Error>, line: seq<byte>)
      requires Deliverable(source.script)
      requires |pending| <= maxLineBytes + READ_BUFFER_BYTES
      modifies this`pending, source
      ensures Deliverable(source.script)
      ensures |pending| <= maxLineBytes + READ_BUFFER_BYTES
      ensures line + Unread(source) == old(Unread(source))
      ensures Justified(r, line, old(Unread(source)), true)
      ensures Taken(old(pending), old(source.script), source.script, r == Err(ReadFailed), maxLineBytes)
      ensures r == Ok(false) ==> source.script == []
    {
      ghost var all, was, before := Unread(source), pending, source.script;
      assert before[..0] == [] && was + [] == was;
      r, line := TakeBuffered(source);
      var eof := false;
      while r == Ok(false) && !eof
        invariant Deliverable(source.script) && |pending| <= maxLineBytes + READ_BUFFER_BYTES
        invariant line + Unread(source) == all && Justified(r, line, all, eof)
        invariant Taken(was, before, source.script, r == Err(ReadFailed), maxLineBytes)
        invariant if eof then source.script == [] else r == Ok(false) ==> Waiting(was, before, source)
        decreases |source.script|, !eof
      {
        r, line, eof := ReadMore(source, was, before);
      }
    }

    /** Nothing was handed out, and what is buffered is what was there with all that came since. */
    ghost predicate Waiting(was: seq<byte>, before: seq<Delivery>, source: ByteSource)
      reads this, source
    {
      && Unfinished(pending, maxLineBytes) && |source.script| <= |before|
      && pending == was + Delivered(before[..|before| - |source.script|])
    }

    /** One read, and what it makes of the frame. */
    method ReadMore(source: ByteSource, ghost was: seq<byte>, ghost before: seq<Delivery>)
      returns (r: Result<bool, Error>, line: seq<byte>, eof: bool)
      requires Deliverable(source.script)
      requires Taken(was, before, source.script, false, maxLineBytes) && Waiting(was, before, source)
      modifies this`pending, source
      ensures Deliverable(source.script) && |pending| <= maxLineBytes + READ_BUFFER_BYTES
      ensures line + Unread(source) == old(Unread(source)) && Justified(r, line, old(Unread(source)), eof)
      ensures Taken(was, before, source.script, r == Err(ReadFailed), maxLineBytes)
      ensures if eof then source.script == [] else r == Ok(false) ==> Waiting(was, before, source)
      ensures if eof then source.script == old(source.script) else |source.script| < |old(source.script)|
    {
      ghost var all := Unread(source);
      line, eof := [], false;
      if source.script != [] {
        TakesOneMore(was, before, source.script, maxLineBytes);
      }
      var read := source.Read();
      if read == None {
        r := Err(ReadFailed);
      } else if read.value == [] {
        eof := true;
        r, line := TakeRest(source);
      } else {
        Extend(source, read.value, all);
        r, line := TakeBuffered(source);
      }
    }

    method Extend(source: ByteSource, bytes: seq<byte>, ghost all: seq<byte>)
      requires pending + (bytes + Delivered(source.script)) == all
      modifies this`pending
      ensures pending == old(pending) + bytes && Unread(source) == all
    {
      pending := pending + bytes;
    }

    /** Checks the size of the next frame, and hands it out if it is buffered to its end. */
    method TakeBuffered(source: ByteSource) returns (r: Result<bool, Error>, line: seq<byte>)
      modifies this`pending
      ensures line + Unread(source) == old(Unread(source))
      ensures |pending| <= |old(pending)|
      ensures r == Ok(true) ==> 0 < |line| == FirstFrameLength(old(Unread(source))) <= maxLineBytes
      ensures r == Ok(false) ==> line == [] && pending == old(pending) && Unfinished(pending, maxLineBytes)
      ensures r.Err? ==> r == Err(FrameTooLong) && line == [] && FirstFrameLength(old(Unread(source))) > maxLineBytes
    {
      FirstNewlineOfPrefix(pending, Delivered(source.script));
      if !NextFrameFits() {
        return Err(FrameTooLong), [];
      }
      var taken;
      taken, line := TakeLine();
      r := Ok(taken);
      assert line + Unread(source) == (line + pending) + Delivered(source.script);
    }

    /** Checks and hands out the unterminated tail once the source is at its end. */
    method TakeRest(source: ByteSource) returns (r: Result<bool, Error>, line: seq<byte>)
      requires source.script == [] && NoNewline(pending)
      modifies this`pending
      ensures line + Unread(source) == old(Unread(source))
      ensures |pending| <= |old(pending)|
      ensures Justified(r, line, old(Unread(source)), true)
      ensures r != Err(ReadFailed)
    {
      assert pending + [] == pending;
      if !NextFrameFits() {
        return Err(FrameTooLong), [];
      }
      var taken;
      taken, line := TakeEof();
      r := Ok(taken);
    }
  }

  // ---- Whole runs ----

  datatype Ending = EndOfFile | TooLong

  /** What repeated calls on a source without failures return, as `ReadLine` fixes each of them. */
  ghost function Run(unread: seq<byte>, maxLineBytes: nat): (seq<seq<byte>>, Ending)
    decreases |unread|
  {
    if unread == [] then ([], EndOfFile)
    else
      var n := FirstFrameLength(unread);
      if n > maxLineBytes then ([], TooLong)
      else
        var (lines, ending) := Run(unread[n..], maxLineBytes);
        ([unread[..n]] + lines, ending)
  }

  /** A run returns the frames of the input in order, up to the first one over the limit. */
  lemma {:induction false} RunReturnsFrames(input: seq<byte>, maxLineBytes: nat)
    ensures var (lines, ending) := Run(input, maxLineBytes);
            var frames := Frames(input);
            && lines <= frames
            && (forall i :: 0 <= i < |lines| ==> |frames[i]| <= maxLineBytes)
            && (ending.EndOfFile? <==> lines == frames)
            && (ending.TooLong? ==> |frames[|lines|]| > maxLineBytes)
    decreases |input|
  {
    if input != [] {
      var n := FirstFrameLength(input);
      RunReturnsFrames(input[n..], maxLineBytes);
    }
  }

  /** Reading to the end: the frames returned depend only on the concatenation of the deliveries. */
  method ReadAll(reader: JsonLineReader, source: ByteSource) returns (lines: seq<seq<byte>>, ending: Ending)
    requires Deliverable(source.script) && NeverFails(source.script)
    requires reader.pending == []
    modifies reader`pending, source
    ensures (lines, ending) == Run(Delivered(old(source.script)), reader.maxLineBytes)
  {
    ghost var goal := Run(reader.Unread(source), reader.maxLineBytes);
    assert reader.Unread(source) == Delivered(source.script);
    lines := [];
    ending := EndOfFile;
    var more := true;
    assert [] + goal.0 == goal.0;
    while more
      invariant Deliverable(source.script) && NeverFails(source.script)
      invariant |reader.pending| <= reader.maxLineBytes + READ_BUFFER_BYTES
      invariant more ==> goal == (lines + Run(reader.Unread(source), reader.maxLineBytes).0,
                                  Run(reader.Unread(source), reader.maxLineBytes).1)
      invariant !more ==> goal == (lines, ending)
      decreases more, |reader.Unread(source)|
    {
      ghost var unread := reader.Unread(source);
      var r, line := reader.ReadLine(source);
      if r == Ok(true) {
        FirstLineThenRest(line, reader.Unread(source), lines, reader.maxLineBytes);
        lines := lines + [line];
      } else {
        assert lines + [] == lines;
        more := false;
        ending := if r.Ok? then EndOfFile else TooLong;
      }
    }
  }

  lemma FirstLineThenRest(line: seq<byte>, rest: seq<byte>, before: seq<seq<byte>>, maxLineBytes: nat)
    requires 0 < |line| == FirstFrameLength(line + rest) <= maxLineBytes
    ensures before + Run(line + rest, maxLineBytes).0 == before + [line] + Run(rest, maxLineBytes).0
    ensures Run(line + rest, maxLineBytes).1 == Run(rest, maxLineBytes).1
  {
    assert (line + rest)[..|line|] == line && (line + rest)[|line|..] == rest;
    assert before + ([line] + Run(rest, maxLineBytes).0) == before + [line] + Run(rest, maxLineBytes).0;
  }
}
