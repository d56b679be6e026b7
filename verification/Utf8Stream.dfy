/** Incremental lossy decoding of UTF-8 that arrives in arbitrary chunks. */
module Utf8Stream {
  import opened Buffers
  import opened Bytes
  import opened Wrappers
  import opened Utf8

  // ---- The library's validity check ----

  /** Where checking stops: at the end, at an invalid sequence of some length, or at an unfinished one. */
  datatype Check = Valid | Invalid(validUpTo: nat, errorLength: nat) | Unfinished(validUpTo: nat)

  function ValidUpTo(s: seq<byte>): (end: nat)
    ensures end <= |s|
    ensures end < |s| ==> !FirstPiece(s[end..]).Character?
    decreases |s|
  {
    if s == [] || !FirstPiece(s).Character? then 0
    else
      var n := FirstPiece(s).length;
      var end := ValidUpTo(s[n..]);
      assert s[n..][end..] == s[n + end..];
      n + end
  }

  function CheckText(s: seq<byte>): Check {
    var end := ValidUpTo(s);
    if end == |s| then Valid
    else
      match FirstPiece(s[end..])
      case Broken(n) => Invalid(end, n)
      case CutOff => Unfinished(end)
  }

  // ---- What can be said before more bytes arrive ----

  /** Nothing more can be said about these bytes until others follow. */
  predicate IsHeld(s: seq<byte>) {
    s == [] || FirstPiece(s).CutOff?
  }

  function PieceText(s: seq<byte>): char
    requires !IsHeld(s)
  {
    match FirstPiece(s)
    case Character(_) => FirstCharacter(s)
    case Broken(_) => REPLACEMENT
  }

  /** The text that no later byte can change. */
  function Settled(s: seq<byte>): string
    decreases |s|
  {
    if IsHeld(s) then "" else [PieceText(s)] + Settled(s[FirstPiece(s).length..])
  }

  /** The unfinished bytes after it. */
  function Leftover(s: seq<byte>): (r: seq<byte>)
    ensures IsHeld(r)
    decreases |s|
  {
    if IsHeld(s) then s else Leftover(s[FirstPiece(s).length..])
  }

  lemma FirstPieceIsStable(s: seq<byte>, more: seq<byte>)
    requires s != [] && !FirstPiece(s).CutOff?
    ensures FirstPiece(s + more) == FirstPiece(s)
  {
    assert forall i :: 0 <= i < |s| ==> (s + more)[i] == s[i];
  }

  lemma LaterBytesFollow(s: seq<byte>, more: seq<byte>)
    requires !IsHeld(s)
    ensures var tail := s[FirstPiece(s).length..] + more;
      Settled(s + more) == [PieceText(s)] + Settled(tail) && Leftover(s + more) == Leftover(tail)
  {
    var n := FirstPiece(s).length;
    FirstPieceIsStable(s, more);
    assert (s + more)[..n] == s[..n] && (s + more)[n..] == s[n..] + more;
  }

  /** Settling piecewise: what was settled stays, and only the leftover bytes matter later. */
  lemma {:induction false} SettledInSteps(s: seq<byte>, more: seq<byte>)
    ensures Settled(s + more) == Settled(s) + Settled(Leftover(s) + more)
    ensures Leftover(s + more) == Leftover(Leftover(s) + more)
    decreases |s|
  {
    if IsHeld(s) {
      assert "" + Settled(s + more) == Settled(s + more);
    } else {
      var tail := s[FirstPiece(s).length..];
      LaterBytesFollow(s, more);
      SettledInSteps(tail, more);
      Extend(Settled(s + more), [PieceText(s)], Settled(tail + more), Settled(tail), Settled(Leftover(tail) + more));
    }
  }

  lemma {:induction false} LossyIsSettledPlusMark(s: seq<byte>)
    ensures Lossy(s) == Settled(s) + (if Leftover(s) == [] then "" else [REPLACEMENT])
    decreases |s|
  {
    if !IsHeld(s) {
      LossyIsSettledPlusMark(s[FirstPiece(s).length..]);
    }
  }

  /** Between calls at most three bytes are held back, a proper prefix of one character's encoding. */
  lemma LeftoverIsShort(s: seq<byte>)
    ensures |Leftover(s)| <= 3
    ensures Leftover(s) != [] ==> exists c :: Leftover(s) < Encode(c)
  {
    var rest := Leftover(s);
    if rest != [] {
      IncompleteIsProperPrefix(rest);
      var t :| WellFormed(t) && rest < t;
      DecodeThenEncode(t);
      assert rest < Encode(Decode(t));
    }
  }

  lemma {:induction false} CheckedTextIsText(s: seq<byte>)
    ensures IsText(s[..ValidUpTo(s)])
    decreases |s|
  {
    var end := ValidUpTo(s);
    if end > 0 {
      var n := FirstPiece(s).length;
      CharacterIsWellFormed(s);
      CheckedTextIsText(s[n..]);
      SkipCharacter(s, n, end);
    }
  }

  lemma {:induction false} SkipCharacter(s: seq<byte>, n: nat, end: nat)
    requires s != [] && FirstPiece(s) == Character(n) && n <= end <= |s|
    ensures s[..end][..n] == s[..n] && s[..end][n..] == s[n..][..end - n]
    ensures SequenceLength(s[0]) == n
  {
  }

  lemma {:induction false} CharacterLength(s: seq<byte>, n: nat)
    requires n <= |s| && WellFormed(s[..n])
    ensures FirstPiece(s) == Character(n)
  {
    assert forall i :: 0 <= i < n ==> s[..n][i] == s[i];
  }

  /** Text settles as what it says, and leaves nothing unfinished. */
  lemma {:induction false} TextIsSettled(s: seq<byte>)
    requires IsText(s)
    ensures Settled(s) == DecodeText(s) && Leftover(s) == []
    decreases |s|
  {
    if s != [] {
      var n := SequenceLength(s[0]);
      CharacterLength(s, n);
      TextIsSettled(s[n..]);
    }
  }

  /** What is still to be settled from a position, once `output` has been. */
  ghost predicate Remains(text: string, rest: seq<byte>, output: string, from: seq<byte>) {
    text == output + Settled(from) && rest == Leftover(from)
  }

  /** One turn of the loop: the text it adds, how many bytes it uses, and whether the loop goes on. */
  datatype Turn = Turn(text: string, used: nat, more: bool)

  /** Checked text settles first, then what follows it. */
  lemma {:induction false} SettleChecked(s: seq<byte>, end: nat)
    requires end == ValidUpTo(s)
    ensures IsText(s[..end]) && Settled(s) == DecodeText(s[..end]) + Settled(s[end..])
    ensures Leftover(s) == Leftover(s[end..])
  {
    CheckedTextIsText(s);
    SplitAt(s, end);
    SettleAfterText(s, s[..end], s[end..]);
  }

  lemma {:induction false} SplitAt(s: seq<byte>, end: nat)
    requires end <= |s|
    ensures s == s[..end] + s[end..]
  {
  }

  lemma {:induction false} SettleAfterText(s: seq<byte>, text: seq<byte>, later: seq<byte>)
    requires IsText(text) && s == text + later
    ensures Settled(s) == DecodeText(text) + Settled(later) && Leftover(s) == Leftover(later)
  {
    TextIsSettled(text);
    SettledInSteps(text, later);
    assert [] + later == later;
  }

  lemma Extend(text: string, output: string, whole: string, first: string, later: string)
    requires text == output + whole && whole == first + later
    ensures text == output + first + later
  {
  }

  /** A turn adds the text settled by the bytes it uses. */
  ghost predicate Settles(s: seq<byte>, t: Turn)
    requires t.used <= |s|
  {
    Settled(s) == t.text + Settled(s[t.used..]) && Leftover(s) == Leftover(s[t.used..])
  }

  lemma TurnReplaces(s: seq<byte>, end: nat, n: nat)
    requires end < |s| && FirstPiece(s[end..]) == Broken(n)
    ensures Settled(s[end..]) == [REPLACEMENT] + Settled(s[end + n..])
    ensures Leftover(s[end..]) == Leftover(s[end + n..])
  {
    assert s[end..][n..] == s[end + n..];
  }

  lemma {:induction false} BrokenSettles(s: seq<byte>, end: nat, n: nat)
    requires end == ValidUpTo(s) < |s| && FirstPiece(s[end..]) == Broken(n)
    ensures IsText(s[..end]) && Settled(s) == DecodeText(s[..end]) + [REPLACEMENT] + Settled(s[end + n..])
    ensures Leftover(s) == Leftover(s[end + n..])
  {
    SettleChecked(s, end);
    TurnReplaces(s, end, n);
    Extend(Settled(s), DecodeText(s[..end]), Settled(s[end..]), [REPLACEMENT], Settled(s[end + n..]));
  }

  lemma {:induction false} SettlesInParts(s: seq<byte>, t: Turn, text: string, used: nat, later: seq<byte>)
    requires used <= |s| && t.text == text && t.used == used && later == s[used..]
    requires Settled(s) == text + Settled(later) && Leftover(s) == Leftover(later)
    ensures Settles(s, t)
  {
  }

  lemma {:induction false} BrokenTurn(s: seq<byte>, end: nat, n: nat)
    requires end == ValidUpTo(s) < |s| && FirstPiece(s[end..]) == Broken(n)
    ensures IsText(s[..end]) && Settles(s, Turn(DecodeText(s[..end]) + [REPLACEMENT], end + n, true))
  {
    BrokenSettles(s, end, n);
    var text := DecodeText(s[..end]) + [REPLACEMENT];
    SettlesInParts(s, Turn(text, end + n, true), text, end + n, s[end + n..]);
  }

  lemma {:induction false} LastTurn(s: seq<byte>)
    requires ValidUpTo(s) == |s|
    ensures IsText(s) && Settles(s, Turn(DecodeText(s), |s|, true))
  {
    SettleChecked(s, |s|);
    assert s[..|s|] == s && s[|s|..] == [];
  }

  lemma {:induction false} UnfinishedTurn(s: seq<byte>, end: nat)
    requires end == ValidUpTo(s)
    ensures IsText(s[..end]) && Settles(s, Turn(DecodeText(s[..end]), end, false))
  {
    SettleChecked(s, end);
    SettlesInParts(s, Turn(DecodeText(s[..end]), end, false), DecodeText(s[..end]), end, s[end..]);
  }

  /** What the check tells about the bytes not yet looked at, and what follows from it. */
  method TakeTurn(s: seq<byte>) returns (t: Turn)
    requires s != []
    ensures t.used <= |s| && (t.more ==> t.used > 0)
    ensures Settles(s, t) && (!t.more ==> IsHeld(s[t.used..]))
  {
    match CheckText(s) {
      case Valid =>
        LastTurn(s);
        t := Turn(DecodeText(s), |s|, true);
      case Invalid(end, n) =>
        BrokenTurn(s, end, n);
        t := Turn(DecodeText(s[..end]) + [REPLACEMENT], end + n, true);
      case Unfinished(end) =>
        UnfinishedTurn(s, end);
        t := Turn(DecodeText(s[..end]), end, false);
    }
  }

  lemma {:induction false} TurnKeeps(text: string, rest: seq<byte>, output: string, s: seq<byte>, t: Turn)
    requires t.used <= |s| && Settles(s, t) && Remains(text, rest, output, s)
    ensures Remains(text, rest, output + t.text, s[t.used..])
  {
    Extend(text, output, Settled(s), t.text, Settled(s[t.used..]));
  }

  lemma {:induction false} TurnMoves(bytes: seq<byte>, cursor: nat, n: nat)
    requires cursor + n <= |bytes|
    ensures bytes[cursor..][n..] == bytes[cursor + n..]
  {
  }

  lemma NothingSettledYet(s: seq<byte>)
    ensures Remains(Settled(s), Leftover(s), "", s[0..])
  {
    assert s[0..] == s && "" + Settled(s) == Settled(s);
  }

  lemma TurnEnds(text: string, rest: seq<byte>, output: string, from: seq<byte>)
    requires Remains(text, rest, output, from) && IsHeld(from)
    ensures text == output && rest == from
  {
    assert output + "" == output;
  }

  class Utf8Stream {
    var pending: seq<byte>

    constructor ()
      ensures pending == []
    {
      pending := [];
    }

    /** One turn of the loop in `Push`. */
    static method NextTurn(bytes: seq<byte>, cursor: nat, output: string, ghost text: string, ghost rest: seq<byte>)
      returns (output': string, cursor': nat, more: bool)
      requires cursor < |bytes| && Remains(text, rest, output, bytes[cursor..])
      ensures cursor <= cursor' <= |bytes| && (more ==> cursor < cursor')
      ensures Remains(text, rest, output', bytes[cursor'..]) && (!more ==> IsHeld(bytes[cursor'..]))
    {
      var turn := TakeTurn(bytes[cursor..]);
      TurnKeeps(text, rest, output, bytes[cursor..], turn);
      TurnMoves(bytes, cursor, turn.used);
      output', cursor', more := output + turn.text, cursor + turn.used, turn.more;
    }

    /** Returns what the chunk settles, and holds the unfinished bytes back. */
    method Push(chunk: seq<byte>) returns (r: Option<string>)
      modifies this
      ensures pending == Leftover(old(pending) + chunk)
      ensures r == NonEmpty(Settled(old(pending) + chunk))
    {
      pending := pending + chunk;
      var bytes := pending;
      ghost var text, rest := Settled(bytes), Leftover(bytes);
      var output, cursor := "", 0;
      var more := true;
      NothingSettledYet(bytes);
      while cursor < |bytes| && more
        invariant 0 <= cursor <= |bytes|
        invariant Remains(text, rest, output, bytes[cursor..])
        invariant !more ==> IsHeld(bytes[cursor..])
        decreases |bytes| - cursor, more
      {
        output, cursor, more := NextTurn(bytes, cursor, output, text, rest);
      }
      TurnEnds(text, rest, output, bytes[cursor..]);
      pending := bytes[cursor..];
      r := NonEmpty(output);
    }

    static function NonEmpty(text: string): Option<string> {
      if text == "" then None else Some(text)
    }

    method Finish() returns (r: Option<string>)
      modifies this
      ensures pending == []
      ensures r == if old(pending) == [] then None else Some(Lossy(old(pending)))
    {
      if pending == [] {
        return None;
      }
      r := Some(Lossy(pending));
      pending := [];
    }
  }

  // ---- Whole streams ----

  /** The text that a run of pushes and the finish return. */
  function TextOf(r: Option<string>): string {
    if r.None? then "" else r.value
  }

  lemma {:induction false} NextChunk(chunks: seq<seq<byte>>, i: nat)
    requires i < |chunks|
    ensures Concat(chunks[..i + 1]) == Concat(chunks[..i]) + chunks[i]
  {
    assert chunks[..i + 1] == chunks[..i] + [chunks[i]];
    ConcatAppends(chunks[..i], [chunks[i]]);
    ConcatOne(chunks[i]);
  }

  lemma {:induction false} HeldIsUnsettled(s: seq<byte>)
    ensures Lossy(s) == Settled(s) + (if Leftover(s) == [] then "" else Lossy(Leftover(s)))
  {
    LossyIsSettledPlusMark(s);
    LossyIsSettledPlusMark(Leftover(s));
  }

  /** However the bytes are cut into chunks, a stream returns the one-shot lossy reading of them all. */
  method ReadStream(chunks: seq<seq<byte>>) returns (text: string)
    ensures text == Lossy(Concat(chunks))
  {
    var stream := new Utf8Stream();
    text := "";
    assert chunks[..|chunks|] == chunks;
    for i := 0 to |chunks|
      invariant text == Settled(Concat(chunks[..i])) && stream.pending == Leftover(Concat(chunks[..i]))
      invariant fresh(stream)
    {
      NextChunk(chunks, i);
      SettledInSteps(Concat(chunks[..i]), chunks[i]);
      var more := stream.Push(chunks[i]);
      text := text + TextOf(more);
    }
    HeldIsUnsettled(Concat(chunks));
    var rest := stream.Finish();
    text := text + TextOf(rest);
  }

  /** Text survives any chunking of its encoding. */
  method ReadText(ghost text: string, chunks: seq<seq<byte>>) returns (r: string)
    requires Concat(chunks) == EncodeText(text)
    ensures r == text
  {
    r := ReadStream(chunks);
    LossyReadsText(text);
  }
}
