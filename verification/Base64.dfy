/** The Base64 codec: word windows and pair tables over caller-owned buffers. */
module Base64 {
  import opened Buffers
  import opened Wrappers
  import opened Groups
  import opened Base64Spec

  const FAST_INPUT_BYTES: nat := 24
  const FAST_OUTPUT_BYTES: nat := 32

  function EncodedLen(inputLen: nat): nat {
    (inputLen + 2) / 3 * 4
  }

  /** An entry of the pair table: the symbols of a 12-bit index. */
  function EncodePair(index: bv12): (symbol, symbol) {
    (Alphabet(((index >> 6) & 0x3F) as byte), Alphabet((index & 0x3F) as byte))
  }

  function ReadU64Be(s: seq<byte>): bv64
    requires |s| >= 8
  {
    (s[0] as bv64 << 56) | (s[1] as bv64 << 48) | (s[2] as bv64 << 40) | (s[3] as bv64 << 32)
    | (s[4] as bv64 << 24) | (s[5] as bv64 << 16) | (s[6] as bv64 << 8) | s[7] as bv64
  }

  function SixBits(word: bv64, shift: bv6): (v: byte)
    ensures v < 64
  {
    ((word >> shift) & 0x3F) as byte
  }

  /** The eight symbols a window word gives. */
  function WindowSymbols(w: bv64): seq<symbol> {
    [ Alphabet(SixBits(w, 58)), Alphabet(SixBits(w, 52)), Alphabet(SixBits(w, 46)), Alphabet(SixBits(w, 40)),
      Alphabet(SixBits(w, 34)), Alphabet(SixBits(w, 28)), Alphabet(SixBits(w, 22)), Alphabet(SixBits(w, 16)) ]
  }

  lemma WindowBits(s: seq<byte>)
    requires |s| >= 8
    ensures var w := ReadU64Be(s);
      && (SixBits(w, 58), SixBits(w, 52), SixBits(w, 46), SixBits(w, 40)) == Indices(s[0], s[1], s[2])
      && (SixBits(w, 34), SixBits(w, 28), SixBits(w, 22), SixBits(w, 16)) == Indices(s[3], s[4], s[5])
  {
  }

  /** They are the symbols of its first six bytes, whatever the last two are. */
  lemma WindowEncodesSixBytes(s: seq<byte>)
    requires |s| >= 8
    ensures WindowSymbols(ReadU64Be(s)) == EncodeTriple(s[..3]) + EncodeTriple(s[3..6])
  {
    WindowBits(s);
  }

  /** The four symbols two pair-table lookups give. */
  function PairSymbols(pair0: (symbol, symbol), pair1: (symbol, symbol)): seq<symbol> {
    [pair0.0, pair0.1, pair1.0, pair1.1]
  }

  lemma PairBits(a: byte, b: byte, c: byte)
    ensures var v := Indices(a, b, c);
      && EncodePair((a as bv12 << 4) | (b >> 4) as bv12) == (Alphabet(v.0), Alphabet(v.1))
      && EncodePair(((b & 0x0F) as bv12 << 8) | c as bv12) == (Alphabet(v.2), Alphabet(v.3))
  {
  }

  /** The first `k` groups are encoded at the front; the rest of the buffer is as it was. */
  ghost predicate Encoded(now: seq<symbol>, input: seq<byte>, k: nat, was: seq<symbol>) {
    Mapped(3, EncodeTriple, input, 3 * k, k, now, 4 * k, was)
  }

  lemma EncodedGrows(now: seq<symbol>, input: seq<byte>, k: nat, was: seq<symbol>)
    requires Encoded(now, input, k, was) && 3 * k + 3 <= |input| && 4 * k + 4 <= |was|
    ensures |now| == |was|
    ensures Encoded(Overwrite(now, 4 * k, EncodeGroup(input[3 * k], input[3 * k + 1], input[3 * k + 2])),
                    input, k + 1, was)
  {
    MappedGrows(3, EncodeTriple, input, 3 * k, k, now, 4 * k, 4, was);
  }

  lemma TwoGroupsGrow(now: seq<symbol>, input: seq<byte>, k: nat, was: seq<symbol>)
    requires Encoded(now, input, k, was) && 3 * k + 6 <= |input| && 4 * k + 8 <= |was|
    ensures |now| == |was|
    ensures |EncodeTriple(input[3 * k..3 * k + 3])| == 4 == |EncodeTriple(input[3 * k + 3..3 * k + 6])|
    ensures var text := EncodeTriple(input[3 * k..3 * k + 3]) + EncodeTriple(input[3 * k + 3..3 * k + 6]);
      Encoded(Overwrite(now, 4 * k, text), input, k + 2, was)
  {
    MappedGrowsTwice(3, EncodeTriple, input, 3 * k, k, now, 4 * k, 4, was);
  }

  /** Writes the eight symbols of the six bytes a window starts with. */
  method EncodeWindow(input: seq<byte>, at: nat, output: array<symbol>, out: nat, ghost k: nat, ghost was: seq<symbol>)
    requires at == 3 * k && out == 4 * k && at + 8 <= |input| && out + 8 <= output.Length == |was|
    requires Encoded(output[..], input, k, was)
    modifies output
    ensures Encoded(output[..], input, k + 2, was)
  {
    ghost var s := input[at..at + 8];
    SliceOfSlice(input, at, at + 8, 0, 3);
    SliceOfSlice(input, at, at + 8, 3, 6);
    WindowEncodesSixBytes(s);
    TwoGroupsGrow(output[..], input, k, was);
    Put(output, out, WindowSymbols(ReadU64Be(input[at..at + 8])));
  }

  /** Four windows, 24 bytes in a row; two bytes beyond them are read. */
  method EncodeFourWindows(input: seq<byte>, at: nat, output: array<symbol>, out: nat, ghost k: nat,
                           ghost was: seq<symbol>)
    requires at == 3 * k && out == 4 * k && at + FAST_INPUT_BYTES + 2 <= |input|
    requires out + FAST_OUTPUT_BYTES <= output.Length == |was| && Encoded(output[..], input, k, was)
    modifies output
    ensures Encoded(output[..], input, k + 8, was)
  {
    EncodeWindow(input, at, output, out, k, was);
    EncodeWindow(input, at + 6, output, out + 8, k + 2, was);
    EncodeWindow(input, at + 12, output, out + 16, k + 4, was);
    EncodeWindow(input, at + 18, output, out + 24, k + 6, was);
  }

  /** Writes the four symbols of three bytes through the pair table. */
  method EncodeThreeBytes(input: seq<byte>, at: nat, output: array<symbol>, out: nat, ghost k: nat,
                          ghost was: seq<symbol>)
    requires at == 3 * k && out == 4 * k && at + 3 <= |input| && out + 4 <= output.Length == |was|
    requires Encoded(output[..], input, k, was)
    modifies output
    ensures Encoded(output[..], input, k + 1, was)
  {
    var byte0, byte1, byte2 := input[at], input[at + 1], input[at + 2];
    var pair0 := EncodePair((byte0 as bv12 << 4) | (byte1 >> 4) as bv12);
    var pair1 := EncodePair(((byte1 & 0x0F) as bv12 << 8) | byte2 as bv12);
    PairBits(byte0, byte1, byte2);
    assert PairSymbols(pair0, pair1) == EncodeGroup(byte0, byte1, byte2);
    EncodedGrows(output[..], input, k, was);
    Put(output, out, PairSymbols(pair0, pair1));
  }

  /** The padded symbols of the one or two bytes left, if any. */
  method LastSymbols(input: seq<byte>, at: nat) returns (text: seq<symbol>)
    requires at <= |input| < at + 3
    ensures text == EncodeTail(input[at..])
  {
    text := [];
    if |input| - at == 1 {
      var byte0 := input[at];
      var pair := EncodePair(byte0 as bv12 << 4);
      text := [pair.0, pair.1, PAD, PAD];
    } else if |input| - at == 2 {
      var byte0, byte1 := input[at], input[at + 1];
      var pair0 := EncodePair((byte0 as bv12 << 4) | (byte1 >> 4) as bv12);
      var pair1 := EncodePair((byte1 & 0x0F) as bv12 << 8);
      text := [pair0.0, pair0.1, pair1.0, PAD];
    }
    TailSymbols(input[at..], text);
  }

  lemma TailSymbols(tail: seq<byte>, text: seq<symbol>)
    requires |tail| < 3
    requires |tail| == 0 ==> text == []
    requires |tail| == 1 ==> var pair := EncodePair(tail[0] as bv12 << 4); text == [pair.0, pair.1, PAD, PAD]
    requires |tail| == 2 ==>
      var pair0 := EncodePair((tail[0] as bv12 << 4) | (tail[1] >> 4) as bv12);
      var pair1 := EncodePair((tail[1] & 0x0F) as bv12 << 8);
      text == [pair0.0, pair0.1, pair1.0, PAD]
    ensures text == EncodeTail(tail)
  {
    if |tail| == 1 {
      PairBits(tail[0], 0, 0);
      assert (tail[0] as bv12 << 4) | (0 as byte >> 4) as bv12 == tail[0] as bv12 << 4;
    } else if |tail| == 2 {
      PairBits(tail[0], tail[1], 0);
      assert ((tail[1] & 0x0F) as bv12 << 8) | 0 as byte as bv12 == (tail[1] & 0x0F) as bv12 << 8;
    }
  }

  lemma TailCompletes(now: seq<symbol>, input: seq<byte>, k: nat, was: seq<symbol>)
    requires Encoded(now, input, k, was) && |input| < 3 * k + 3 && |EncodeBytes(input)| <= |was|
    ensures |now| == |was| && |EncodeBytes(input)| == 4 * k + |EncodeTail(input[3 * k..])|
    ensures Overwrite(now, 4 * k, EncodeTail(input[3 * k..])) == EncodeBytes(input) + was[|EncodeBytes(input)|..]
  {
    var done := MapGroups(3, EncodeTriple, input[..3 * k]);
    assert input == input[..3 * k] + input[3 * k..];
    EncodePrepends(input[..3 * k], input[3 * k..], k);
    EncodeShort(input[3 * k..]);
    OverwriteNext(done, EncodeTail(input[3 * k..]), was);
  }

  /** The loop over the whole groups the windows left. */
  method EncodeRest(input: seq<byte>, at: nat, output: array<symbol>, out: nat, ghost k: nat, ghost was: seq<symbol>)
    returns (inputIdx: nat, outputIdx: nat)
    requires at == 3 * k && out == 4 * k && |input| / 3 * 4 <= output.Length == |was|
    requires Encoded(output[..], input, k, was)
    modifies output
    ensures inputIdx == |input| / 3 * 3 && outputIdx == |input| / 3 * 4
    ensures Encoded(output[..], input, |input| / 3, was)
  {
    inputIdx, outputIdx := at, out;
    ghost var n := |input| / 3;
    ghost var done := k;
    var fullLen := |input| / 3 * 3;
    while inputIdx < fullLen
      invariant inputIdx == 3 * done && outputIdx == 4 * done && done <= n
      invariant Encoded(output[..], input, done, was)
      decreases n - done
    {
      EncodeThreeBytes(input, inputIdx, output, outputIdx, done, was);
      inputIdx, outputIdx, done := inputIdx + 3, outputIdx + 4, done + 1;
    }
  }

  lemma EncodedLength(input: seq<byte>)
    ensures |EncodeBytes(input)| == EncodedLen(|input|)
  {
    var groups, k := Split(3, input);
    var rest := Rest(3, input);
    LengthInParts(groups, k, rest);
    CeilingOfThirds(k, |rest|);
  }

  lemma LengthInParts(groups: seq<byte>, k: nat, rest: seq<byte>)
    requires |groups| == k * 3 && |rest| < 3
    ensures |groups + rest| == k * 3 + |rest|
    ensures |EncodeBytes(groups + rest)| == k * 4 + if |rest| == 0 then 0 else 4
  {
    TriplesInvert();
    MapInverts(3, 4, AnyByte, EncodeTriple, DecodeQuad, groups, k);
    EncodePrepends(groups, rest, k);
    EncodeShort(rest);
  }

  lemma CeilingOfThirds(k: nat, rest: nat)
    requires rest < 3
    ensures EncodedLen(k * 3 + rest) == k * 4 + if rest == 0 then 0 else 4
  {
  }

  lemma RoomForWholeGroups(length: nat)
    ensures length / 3 * 4 <= EncodedLen(length)
    ensures length / 3 * 3 <= length < length / 3 * 3 + 3
  {
  }

  /** The unrolled loop: four windows a turn, as long as the two bytes beyond them can be read. */
  method EncodeFast(input: seq<byte>, output: array<symbol>, ghost n: nat, ghost was: seq<symbol>)
    returns (inputIdx: nat, outputIdx: nat, ghost k: nat)
    requires 3 * n <= |input| < 3 * n + 3 && 4 * n <= output.Length && output[..] == was
    modifies output
    ensures inputIdx == 3 * k && outputIdx == 4 * k && Encoded(output[..], input, k, was)
  {
    inputIdx, outputIdx, k := 0, 0, 0;
    var lastFastIndex := if |input| < FAST_INPUT_BYTES + 2 then 0 else |input| - (FAST_INPUT_BYTES + 2);
    if lastFastIndex > 0 {
      while inputIdx <= lastFastIndex
        invariant inputIdx == 3 * k && outputIdx == 4 * k && k <= n
        invariant Encoded(output[..], input, k, was)
        decreases n - k
      {
        EncodeFourWindows(input, inputIdx, output, outputIdx, k, was);
        inputIdx, outputIdx, k := inputIdx + FAST_INPUT_BYTES, outputIdx + FAST_OUTPUT_BYTES, k + 8;
      }
    }
  }

  /** Encodes into the buffer, or returns None and leaves it alone when it is too small. */
  method Encode(input: seq<byte>, output: array<symbol>) returns (r: Option<nat>)
    modifies output
    ensures r == None <==> output.Length < |EncodeBytes(input)|
    ensures r == None ==> output[..] == old(output[..])
    ensures r.Some? ==> r.value == |EncodeBytes(input)|
    ensures r.Some? ==> output[..] == EncodeBytes(input) + old(output[..])[|EncodeBytes(input)|..]
  {
    EncodedLength(input);
    var needed := EncodedLen(|input|);
    if output.Length < needed {
      return None;
    }
    ghost var was := output[..];
    RoomForWholeGroups(|input|);
    var inputIdx, outputIdx, k := EncodeFast(input, output, |input| / 3, was);
    inputIdx, outputIdx := EncodeRest(input, inputIdx, output, outputIdx, k, was);
    var text := LastSymbols(input, inputIdx);
    TailCompletes(output[..], input, |input| / 3, was);
    Put(output, outputIdx, text);
    r := Some(needed);
  }
}
