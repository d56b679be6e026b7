/** UTF-8 as RFC 3629 defines it, and the lossy reading of arbitrary bytes. */
module Utf8 {
  import opened Bytes

  const REPLACEMENT: char := '\U{FFFD}'

  // ---- Encoding, section 3 of RFC 3629 ----

  function Encode(c: char): (bytes: seq<byte>) {
    var v := c as int;
    if v < 0x80 then [v]
    else if v < 0x800 then [0xC0 + v / 0x40, 0x80 + v % 0x40]
    else if v < 0x1_0000 then [0xE0 + v / 0x1000, 0x80 + v / 0x40 % 0x40, 0x80 + v % 0x40]
    else [0xF0 + v / 0x4_0000, 0x80 + v / 0x1000 % 0x40, 0x80 + v / 0x40 % 0x40, 0x80 + v % 0x40]
  }

  function EncodeText(text: string): seq<byte> {
    if text == "" then [] else Encode(text[0]) + EncodeText(text[1..])
  }

  // ---- Well-formed sequences, section 4 of RFC 3629 ----

  /** The length of the sequences a byte can start; 0 if it starts none. */
  function SequenceLength(first: byte): nat {
    if first < 0x80 then 1
    else if 0xC2 <= first <= 0xDF then 2
    else if 0xE0 <= first <= 0xEF then 3
    else if 0xF0 <= first <= 0xF4 then 4
    else 0
  }

  predicate IsTail(b: byte) {
    0x80 <= b <= 0xBF
  }

  predicate MayFollow(first: byte, second: byte) {
    if first == 0xE0 then 0xA0 <= second <= 0xBF
    else if first == 0xED then 0x80 <= second <= 0x9F
    else if first == 0xF0 then 0x90 <= second <= 0xBF
    else if first == 0xF4 then 0x80 <= second <= 0x8F
    else IsTail(second)
  }

  /** No byte of `s` is out of place in a sequence starting with its first byte. */
  predicate Fits(s: seq<byte>) {
    && 0 < |s| <= SequenceLength(s[0])
    && (|s| > 1 ==> MayFollow(s[0], s[1]))
    && (|s| > 2 ==> IsTail(s[2]))
    && (|s| > 3 ==> IsTail(s[3]))
  }

  predicate WellFormed(s: seq<byte>) {
    Fits(s) && |s| == SequenceLength(s[0])
  }

  /** A proper prefix of a well-formed sequence. */
  predicate Incomplete(s: seq<byte>) {
    Fits(s) && |s| < SequenceLength(s[0])
  }

  /** The number whose bits a sequence carries. */
  function CodePoint(s: seq<byte>): int
    requires 0 < |s| <= 4
  {
    var first: int := s[0];
    if |s| == 1 then first
    else if |s| == 2 then Join(first - 0xC0, s[1])
    else if |s| == 3 then Join(Join(first - 0xE0, s[1]), s[2])
    else Join(Join(Join(first - 0xF0, s[1]), s[2]), s[3])
  }

  function Join(high: int, tail: byte): int {
    high * 0x40 + (tail as int - 0x80)
  }

  lemma JoinSplits(high: int, tail: byte)
    requires IsTail(tail)
    ensures Join(high, tail) / 0x40 == high && 0x80 + Join(high, tail) % 0x40 == tail
  {
  }

  lemma CodePointIsScalar(s: seq<byte>)
    requires WellFormed(s)
    ensures var v := CodePoint(s);
      && (0 <= v < 0xD800 || 0xE000 <= v < 0x11_0000)
      && (|s| == 1 <==> v < 0x80) && (|s| <= 2 <==> v < 0x800) && (|s| <= 3 <==> v < 0x1_0000)
  {
  }

  function Decode(s: seq<byte>): char
    requires WellFormed(s)
  {
    CodePointIsScalar(s);
    CodePoint(s) as char
  }

  lemma DecodeThenEncode(s: seq<byte>)
    requires WellFormed(s)
    ensures Encode(Decode(s)) == s
  {
    CodePointIsScalar(s);
    var v, first: int := CodePoint(s), s[0];
    if |s| == 2 {
      JoinSplits(first - 0xC0, s[1]);
    } else if |s| == 3 {
      var u := Join(first - 0xE0, s[1]);
      JoinSplits(first - 0xE0, s[1]);
      JoinSplits(u, s[2]);
      assert v / 0x1000 == u / 0x40;
    } else if |s| == 4 {
      var t := Join(first - 0xF0, s[1]);
      var u := Join(t, s[2]);
      JoinSplits(first - 0xF0, s[1]);
      JoinSplits(t, s[2]);
      JoinSplits(u, s[3]);
      assert v / 0x1000 == u / 0x40 && v / 0x4_0000 == t / 0x40;
    }
  }

  lemma EncodingFits(c: char)
    ensures WellFormed(Encode(c))
  {
    var v := c as int;
    if v >= 0x1_0000 {
      assert v / 0x1000 == v / 0x4_0000 * 0x40 + v / 0x1000 % 0x40;
    }
  }

  /** Every character's encoding is well-formed and decodes to it. */
  lemma EncodeIsWellFormed(c: char)
    ensures WellFormed(Encode(c)) && Decode(Encode(c)) == c
  {
    EncodingFits(c);
    var v := c as int;
    assert v == v / 0x40 * 0x40 + v % 0x40;
    assert v / 0x40 == v / 0x1000 * 0x40 + v / 0x40 % 0x40;
    assert v / 0x1000 == v / 0x4_0000 * 0x40 + v / 0x1000 % 0x40;
    assert CodePoint(Encode(c)) == v;
  }

  /** The well-formed sequences are exactly the encodings of characters. */
  lemma EncodingsAreWellFormed(s: seq<byte>)
    ensures WellFormed(s) <==> exists c :: Encode(c) == s
  {
    if WellFormed(s) {
      DecodeThenEncode(s);
    }
    forall c | Encode(c) == s
      ensures WellFormed(s)
    {
      EncodeIsWellFormed(c);
    }
  }

  /** The incomplete sequences are exactly what a well-formed one leaves when bytes are cut off. */
  lemma IncompleteIsProperPrefix(s: seq<byte>)
    ensures Incomplete(s) <==> s != [] && exists t :: WellFormed(t) && s < t
  {
    if Incomplete(s) {
      var second := if s[0] == 0xE0 then 0xA0 else if s[0] == 0xF0 then 0x90 else 0x80;
      var t := if |s| == 1 then ([s[0], second, 0x80, 0x80])[..SequenceLength(s[0])]
               else (s + [0x80, 0x80])[..SequenceLength(s[0])];
      assert WellFormed(t) && s < t;
    }
  }

  // ---- Text ----

  /** Well-formed sequences, one after the other. */
  predicate IsText(s: seq<byte>)
    decreases |s|
  {
    s == [] ||
    (var n := SequenceLength(s[0]); 0 < n <= |s| && WellFormed(s[..n]) && IsText(s[n..]))
  }

  function DecodeText(s: seq<byte>): string
    requires IsText(s)
    decreases |s|
  {
    if s == [] then ""
    else
      var n := SequenceLength(s[0]);
      [Decode(s[..n])] + DecodeText(s[n..])
  }

  lemma {:induction false} EncodesNext(c: char, text: string, head: seq<byte>, tail: seq<byte>)
    requires Encode(c) == head && EncodeText(text) == tail
    ensures EncodeText([c] + text) == head + tail
  {
    assert ([c] + text)[1..] == text;
  }

  lemma {:induction false} DecodeTextThenEncode(s: seq<byte>)
    requires IsText(s)
    ensures EncodeText(DecodeText(s)) == s
    decreases |s|
  {
    if s != [] {
      var n := SequenceLength(s[0]);
      var head, tail := s[..n], s[n..];
      assert s == head + tail;
      DecodeThenEncode(head);
      DecodeTextThenEncode(tail);
      EncodesNext(Decode(head), DecodeText(tail), head, tail);
    }
  }

  // ---- Lossy reading, "U+FFFD Substitution of Maximal Subparts" in section 3.9 of the Unicode Standard ----

  /** The maximal subpart at the start of `s`: its longest incomplete prefix, or else one byte. */
  ghost predicate IsMaximalSubpart(s: seq<byte>, n: nat) {
    && 1 <= n <= |s|
    && (n > 1 ==> Incomplete(s[..n]))
    && forall k :: n < k <= |s| ==> !Incomplete(s[..k])
  }

  /** What stands at the start of some bytes. */
  datatype Piece = Character(length: nat) | Broken(length: nat) | CutOff

  function FirstPiece(s: seq<byte>): (p: Piece)
    requires s != []
    ensures !p.CutOff? ==> 0 < p.length <= |s|
  {
    var n := SequenceLength(s[0]);
    if n == 0 then Broken(1)
    else if n == 1 then Character(1)
    else if |s| == 1 then CutOff
    else if !MayFollow(s[0], s[1]) then Broken(1)
    else if n == 2 then Character(2)
    else if |s| == 2 then CutOff
    else if !IsTail(s[2]) then Broken(2)
    else if n == 3 then Character(3)
    else if |s| == 3 then CutOff
    else if !IsTail(s[3]) then Broken(3)
    else Character(4)
  }

  function FirstCharacter(s: seq<byte>): char
    requires s != [] && FirstPiece(s).Character?
  {
    CharacterIsWellFormed(s);
    Decode(s[..FirstPiece(s).length])
  }

  lemma {:induction false} CharacterIsWellFormed(s: seq<byte>)
    requires s != [] && FirstPiece(s).Character?
    ensures WellFormed(s[..FirstPiece(s).length])
  {
    assert forall i :: 0 <= i < FirstPiece(s).length ==> s[..FirstPiece(s).length][i] == s[i];
  }

  /** A broken piece is the maximal subpart, and only bytes that start nothing well-formed are broken. */
  lemma BrokenIsMaximalSubpart(s: seq<byte>)
    requires s != []
    ensures FirstPiece(s).Broken? ==> IsMaximalSubpart(s, FirstPiece(s).length)
    ensures FirstPiece(s).Character? <==> exists n :: 0 <= n <= |s| && WellFormed(s[..n])
    ensures FirstPiece(s).CutOff? <==> Incomplete(s)
  {
    forall n | 0 <= n <= |s| && WellFormed(s[..n])
      ensures FirstPiece(s) == Character(n)
    {
      assert n == SequenceLength(s[..n][0]);
    }
    if FirstPiece(s).Broken? {
      var n := FirstPiece(s).length;
      forall k | n < k <= |s|
        ensures !Incomplete(s[..k])
      {
        assert s[..k][0] == s[0];
        if k > 1 { assert s[..k][1] == s[1]; }
        if k > 2 { assert s[..k][2] == s[2]; }
        if k > 3 { assert s[..k][3] == s[3]; }
      }
    }
  }

  /** The text of arbitrary bytes, each maximal subpart that is not text replaced by one U+FFFD. */
  function Lossy(s: seq<byte>): string
    decreases |s|
  {
    if s == [] then ""
    else
      match FirstPiece(s)
      case Character(n) => [FirstCharacter(s)] + Lossy(s[n..])
      case Broken(n) => [REPLACEMENT] + Lossy(s[n..])
      case CutOff => [REPLACEMENT]
  }

  lemma FirstPieceOfEncoding(c: char, rest: seq<byte>)
    ensures FirstPiece(Encode(c) + rest) == Character(|Encode(c)|)
    ensures (Encode(c) + rest)[..|Encode(c)|] == Encode(c)
  {
    EncodeIsWellFormed(c);
    BrokenIsMaximalSubpart(Encode(c) + rest);
    assert (Encode(c) + rest)[..|Encode(c)|] == Encode(c);
  }

  /** Encoded text is read back unchanged. */
  lemma {:induction false} LossyReadsText(text: string)
    ensures Lossy(EncodeText(text)) == text
  {
    if text != "" {
      var rest := EncodeText(text[1..]);
      FirstPieceOfEncoding(text[0], rest);
      EncodeIsWellFormed(text[0]);
      assert (Encode(text[0]) + rest)[|Encode(text[0])|..] == rest;
      LossyReadsText(text[1..]);
    }
  }
}
