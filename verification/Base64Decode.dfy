/** The decoding half of the Base64 codec. */
module Base64Decode {
  import opened Buffers
  import opened Wrappers
  import opened Groups
  import opened Base64Spec

  const DECODE_PADDING: byte := 0xFE
  const INVALID_ENCODING: byte := 0xFF

  /** The decode table's entry for a text byte. */
  function DecodeTable(c: symbol): byte {
    if InAlphabet(c) then IndexOf(c) else if c == PAD then DECODE_PADDING else INVALID_ENCODING
  }

  lemma TableTellsSymbols(c: symbol)
    ensures DecodeTable(c) < 64 <==> InAlphabet(c)
    ensures DecodeTable(c) == DECODE_PADDING <==> c == PAD
  {
    if InAlphabet(c) {
      IndexInverse(c);
    }
  }

  function LettersSoFar(c: symbol, i: nat): byte {
    if 65 <= c < 65 + i then ByteOf(c - 65) else if 97 <= c < 97 + i then ByteOf(c - 71) else INVALID_ENCODING
  }

  /** Fills the table in the order the compile-time builder does. */
  method BuildDecodeTable() returns (table: array<byte>)
    ensures fresh(table) && table.Length == 0x100
    ensures forall c: symbol :: table[c] == DecodeTable(c)
  {
    table := new byte[0x100](_ => INVALID_ENCODING);
    var i := 0;
    while i < 26
      invariant 0 <= i <= 26
      invariant forall c: symbol :: table[c] == LettersSoFar(c, i)
    {
      table[65 + i] := ByteOf(i);
      table[97 + i] := ByteOf(i + 26);
      i := i + 1;
    }
    i := 0;
    while i < 10
      invariant 0 <= i <= 10
      invariant forall c: symbol :: table[c] == if 48 <= c < 48 + i then ByteOf(c + 4) else LettersSoFar(c, 26)
    {
      table[48 + i] := ByteOf(i + 52);
      i := i + 1;
    }
    table[43] := ByteOf(62);
    table[47] := ByteOf(63);
    table[PAD] := DECODE_PADDING;
  }

  // ---- Lengths ----

  /** The length the text's own length and trailing padding imply. */
  function DecodedLen(input: seq<symbol>): (n: Option<nat>) {
    if |input| % 4 != 0 then None
    else
      var padding := if |input| >= 2 && input[|input| - 2] == PAD && input[|input| - 1] == PAD then 2
                     else if |input| >= 1 && input[|input| - 1] == PAD then 1 else 0;
      Some(|input| / 4 * 3 - padding)
  }

  /** The bytes the padding of the last group leaves room for. */
  function FinalCapacity(g: seq<symbol>): nat
    requires |g| == 4
  {
    if g[3] != PAD then 3 else if g[2] != PAD then 2 else 1
  }

  lemma DecodedLenInParts(groups: seq<symbol>, last: seq<symbol>, k: nat)
    requires |groups| == 4 * k && |last| == 4
    ensures DecodedLen(groups + last) == Some(3 * k + FinalCapacity(last))
  {
    FourTimes(|groups + last|, k + 1);
    var input := groups + last;
    assert input[|input| - 2] == last[2] && input[|input| - 1] == last[3];
  }

  lemma GroupsOfLegal(groups: seq<symbol>, k: nat)
    requires |groups| == 4 * k && AllInAlphabet(groups)
    ensures |MapGroups(4, DecodeQuad, groups)| == 3 * k
  {
    QuadsInvert();
    MapInverts(4, 3, InAlphabet, DecodeQuad, EncodeTriple, groups, k);
  }

  // ---- Decoding into a buffer ----

  /** The first `k` groups are decoded at the front; the rest of the buffer is as it was. */
  ghost predicate Decoded(now: seq<byte>, input: seq<symbol>, k: nat, was: seq<byte>) {
    Mapped(4, DecodeQuad, input, 4 * k, k, now, 3 * k, was) && AllInAlphabet(input[..4 * k])
  }

  lemma DecodedGrows(now: seq<byte>, input: seq<symbol>, k: nat, was: seq<byte>)
    requires Decoded(now, input, k, was) && 4 * k + 4 <= |input| && 3 * k + 3 <= |was|
    requires AllInAlphabet(input[4 * k..4 * k + 4])
    ensures |now| == |was|
    ensures Decoded(Overwrite(now, 3 * k, DecodeFull(input[4 * k..4 * k + 4])), input, k + 1, was)
  {
    MappedGrows(4, DecodeQuad, input, 4 * k, k, now, 3 * k, 3, was);
    StillInAlphabet(input, 4 * k, 4 * k + 4);
  }

  lemma StillInAlphabet(input: seq<symbol>, at: nat, to: nat)
    requires at <= to <= |input| && AllInAlphabet(input[..at]) && AllInAlphabet(input[at..to])
    ensures AllInAlphabet(input[..to])
  {
    forall i | 0 <= i < to
      ensures InAlphabet(input[i])
    {
      assert input[i] == if i < at then input[..at][i] else input[at..to][i - at];
    }
  }

  lemma TwoGroupsGrow(now: seq<byte>, input: seq<symbol>, k: nat, was: seq<byte>)
    requires Decoded(now, input, k, was) && 4 * k + 8 <= |input| && 3 * k + 6 <= |was|
    requires AllInAlphabet(input[4 * k..4 * k + 4]) && AllInAlphabet(input[4 * k + 4..4 * k + 8])
    ensures |now| == |was|
    ensures var bytes := DecodeFull(input[4 * k..4 * k + 4]) + DecodeFull(input[4 * k + 4..4 * k + 8]);
      Decoded(Overwrite(now, 3 * k, bytes), input, k + 2, was)
  {
    MappedGrowsTwice(4, DecodeQuad, input, 4 * k, k, now, 3 * k, 3, was);
    StillInAlphabet(input, 4 * k, 4 * k + 4);
    StillInAlphabet(input, 4 * k + 4, 4 * k + 8);
  }

  lemma OrTest(a: byte, b: byte, c: byte, d: byte, e: byte, f: byte, g: byte, h: byte)
    ensures a | b | c | d | e | f | g | h >= 64 <==>
      a >= 64 || b >= 64 || c >= 64 || d >= 64 || e >= 64 || f >= 64 || g >= 64 || h >= 64
  {
  }

  /** Eight indices gathered in one word, most significant first, above sixteen unused bits. */
  function Gather(a: byte, b: byte, c: byte, d: byte, e: byte, f: byte, g: byte, h: byte): bv64 {
    (a as bv64 << 58) | (b as bv64 << 52) | (c as bv64 << 46) | (d as bv64 << 40)
    | (e as bv64 << 34) | (f as bv64 << 28) | (g as bv64 << 22) | (h as bv64 << 16)
  }

  /** The first six big-endian bytes of a word. */
  function FirstSix(w: bv64): seq<byte> {
    [ ((w >> 56) & 0xFF) as byte, ((w >> 48) & 0xFF) as byte, ((w >> 40) & 0xFF) as byte,
      ((w >> 32) & 0xFF) as byte, ((w >> 24) & 0xFF) as byte, ((w >> 16) & 0xFF) as byte ]
  }

  lemma GatherBits(a: byte, b: byte, c: byte, d: byte, e: byte, f: byte, g: byte, h: byte)
    requires a < 64 && b < 64 && c < 64 && d < 64 && e < 64 && f < 64 && g < 64 && h < 64
    ensures var s, u, v := FirstSix(Gather(a, b, c, d, e, f, g, h)), Bytes(a, b, c, d), Bytes(e, f, g, h);
      (s[0], s[1], s[2]) == u && (s[3], s[4], s[5]) == v
  {
  }

  function FourBits(p: byte, q: byte, r: byte, s: byte): seq<byte> {
    [(p << 2) | (q >> 4), (q << 4) | (r >> 2), (r << 6) | s]
  }

  lemma FourBitsAreBytes(p: byte, q: byte, r: byte, s: byte)
    requires p < 64 && q < 64 && r < 64 && s < 64
    ensures var v := Bytes(p, q, r, s); FourBits(p, q, r, s) == [v.0, v.1, v.2]
  {
  }

  lemma GroupByTable(g: seq<symbol>)
    requires |g| == 4
    ensures AllInAlphabet(g) <==>
      DecodeTable(g[0]) < 64 && DecodeTable(g[1]) < 64 && DecodeTable(g[2]) < 64 && DecodeTable(g[3]) < 64
    ensures AllInAlphabet(g) ==>
      DecodeFull(g) == FourBits(DecodeTable(g[0]), DecodeTable(g[1]), DecodeTable(g[2]), DecodeTable(g[3]))
  {
    TableTellsSymbols(g[0]);
    TableTellsSymbols(g[1]);
    TableTellsSymbols(g[2]);
    TableTellsSymbols(g[3]);
    if AllInAlphabet(g) {
      FourBitsAreBytes(DecodeTable(g[0]), DecodeTable(g[1]), DecodeTable(g[2]), DecodeTable(g[3]));
    }
  }

  function GatheredBytes(g: seq<symbol>, h: seq<symbol>): seq<byte>
    requires |g| == 4 && |h| == 4
  {
    FirstSix(Gather(DecodeTable(g[0]), DecodeTable(g[1]), DecodeTable(g[2]), DecodeTable(g[3]),
                    DecodeTable(h[0]), DecodeTable(h[1]), DecodeTable(h[2]), DecodeTable(h[3])))
  }

  lemma TwoGroupsByTable(g: seq<symbol>, h: seq<symbol>)
    requires |g| == 4 && |h| == 4
    ensures AllInAlphabet(g + h) <==> AllInAlphabet(g) && AllInAlphabet(h)
    ensures AllInAlphabet(g + h) <==>
      DecodeTable(g[0]) | DecodeTable(g[1]) | DecodeTable(g[2]) | DecodeTable(g[3])
      | DecodeTable(h[0]) | DecodeTable(h[1]) | DecodeTable(h[2]) | DecodeTable(h[3]) < 64
    ensures AllInAlphabet(g + h) ==> DecodeFull(g) + DecodeFull(h) == GatheredBytes(g, h)
  {
    assert AllInAlphabet(g + h) <==> AllInAlphabet(g) && AllInAlphabet(h) by {
      assert (g + h)[..4] == g && (g + h)[4..] == h;
    }
    GroupByTable(g);
    GroupByTable(h);
    var a, b, c, d := DecodeTable(g[0]), DecodeTable(g[1]), DecodeTable(g[2]), DecodeTable(g[3]);
    var e, f, i, j := DecodeTable(h[0]), DecodeTable(h[1]), DecodeTable(h[2]), DecodeTable(h[3]);
    OrTest(a, b, c, d, e, f, i, j);
    if AllInAlphabet(g) && AllInAlphabet(h) {
      GatherBits(a, b, c, d, e, f, i, j);
      FourBitsAreBytes(a, b, c, d);
      FourBitsAreBytes(e, f, i, j);
    }
  }

  /** Eight symbols through one word; refused, with nothing written, unless all are in the alphabet. */
  method DecodeChunk8(input: seq<symbol>, at: nat, output: array<byte>, out: nat, ghost k: nat, ghost was: seq<byte>)
    returns (ok: bool)
    requires at == 4 * k && out == 3 * k && at + 8 <= |input| && out + 6 <= output.Length == |was|
    requires Decoded(output[..], input, k, was)
    modifies output
    ensures ok <==> AllInAlphabet(input[at..at + 8])
    ensures ok ==> Decoded(output[..], input, k + 2, was)
    ensures !ok ==> output[..] == old(output[..])
  {
    var byte0, byte1 := DecodeTable(input[at]), DecodeTable(input[at + 1]);
    var byte2, byte3 := DecodeTable(input[at + 2]), DecodeTable(input[at + 3]);
    var byte4, byte5 := DecodeTable(input[at + 4]), DecodeTable(input[at + 5]);
    var byte6, byte7 := DecodeTable(input[at + 6]), DecodeTable(input[at + 7]);
    ghost var g, h := input[at..at + 4], input[at + 4..at + 8];
    assert input[at..at + 8] == g + h;
    TwoGroupsByTable(g, h);
    if byte0 | byte1 | byte2 | byte3 | byte4 | byte5 | byte6 | byte7 >= 64 {
      return false;
    }
    TwoGroupsGrow(output[..], input, k, was);
    Put(output, out, FirstSix(Gather(byte0, byte1, byte2, byte3, byte4, byte5, byte6, byte7)));
    return true;
  }

  method DecodeChunk4(input: seq<symbol>, at: nat, output: array<byte>, out: nat, ghost k: nat, ghost was: seq<byte>)
    returns (ok: bool)
    requires at == 4 * k && out == 3 * k && at + 4 <= |input| && out + 3 <= output.Length == |was|
    requires Decoded(output[..], input, k, was)
    modifies output
    ensures ok <==> AllInAlphabet(input[at..at + 4])
    ensures ok ==> Decoded(output[..], input, k + 1, was)
    ensures !ok ==> output[..] == old(output[..])
  {
    var byte0, byte1 := DecodeTable(input[at]), DecodeTable(input[at + 1]);
    var byte2, byte3 := DecodeTable(input[at + 2]), DecodeTable(input[at + 3]);
    OrTest(byte0, byte1, byte2, byte3, 0, 0, 0, 0);
    assert byte0 | byte1 | byte2 | byte3 == byte0 | byte1 | byte2 | byte3 | 0 | 0 | 0 | 0;
    GroupByTable(input[at..at + 4]);
    if byte0 | byte1 | byte2 | byte3 >= 64 {
      return false;
    }
    DecodedGrows(output[..], input, k, was);
    Put(output, out, FourBits(byte0, byte1, byte2, byte3));
    return true;
  }

  /** How many bytes of a last group are written, and how many of them count, from its table entries. */
  function Written(p: byte, q: byte, r: byte, s: byte): (n: nat)
    ensures n <= 3
  {
    if p >= 64 || q >= 64 then 0
    else if r == DECODE_PADDING then if s == DECODE_PADDING then 1 else 0
    else if r >= 64 then 0 else if s >= 64 then 2 else 3
  }

  /** The bytes the last group writes; some even when only its last symbol is refused. */
  function EntryBytes(p: byte, q: byte, r: byte, s: byte): (bytes: seq<byte>)
    ensures |bytes| == Written(p, q, r, s)
  {
    FourBits(p, q, r, s)[..Written(p, q, r, s)]
  }

  function FinalBytes(g: seq<symbol>): seq<byte>
    requires |g| == 4
  {
    EntryBytes(DecodeTable(g[0]), DecodeTable(g[1]), DecodeTable(g[2]), DecodeTable(g[3]))
  }

  /** A legal last group, told by table entries alone. */
  predicate LastEntries(p: byte, q: byte, r: byte, s: byte) {
    p < 64 && q < 64 && if r == DECODE_PADDING then s == DECODE_PADDING else r < 64 && (s < 64 || s == DECODE_PADDING)
  }

  lemma LastByTable(g: seq<symbol>)
    requires |g| == 4
    ensures LastGroup(g) <==> LastEntries(DecodeTable(g[0]), DecodeTable(g[1]), DecodeTable(g[2]), DecodeTable(g[3]))
    ensures |FinalBytes(g)| <= FinalCapacity(g)
  {
    TableTellsSymbols(g[0]);
    TableTellsSymbols(g[1]);
    TableTellsSymbols(g[2]);
    TableTellsSymbols(g[3]);
  }

  lemma FinalBytesDecode(g: seq<symbol>)
    requires |g| == 4 && LastGroup(g)
    ensures FinalBytes(g) == DecodeLast(g)
  {
    LastByTable(g);
    TableTellsSymbols(g[2]);
    TableTellsSymbols(g[3]);
    if g[3] == PAD {
      PaddedBytes(g);
    } else {
      FullBytes(g);
    }
  }

  lemma FullBytes(g: seq<symbol>)
    requires LastGroup(g) && g[3] != PAD
    ensures DecodeLast(g) == FourBits(DecodeTable(g[0]), DecodeTable(g[1]), DecodeTable(g[2]), DecodeTable(g[3]))
  {
    assert AllInAlphabet(g);
    GroupByTable(g);
  }

  method DecodeFinal(byte0: byte, byte1: byte, byte2: byte, byte3: byte, output: array<byte>, out: nat)
    returns (r: Option<nat>)
    requires out + Written(byte0, byte1, byte2, byte3) <= output.Length
    modifies output
    ensures r.Some? <==> LastEntries(byte0, byte1, byte2, byte3)
    ensures r.Some? ==> r.value == out + Written(byte0, byte1, byte2, byte3)
    ensures output[..] == Overwrite(old(output[..]), out, EntryBytes(byte0, byte1, byte2, byte3))
  {
    ghost var bytes := EntryBytes(byte0, byte1, byte2, byte3);
    ghost var was := output[..];
    assert was == Overwrite(was, out, []);
    r := None;
    if byte0 < 64 && byte1 < 64 {
      if byte2 == DECODE_PADDING {
        if byte3 == DECODE_PADDING {
          output[out] := (byte0 << 2) | (byte1 >> 4);
          r := Some(out + 1);
        }
      } else if byte2 < 64 {
        output[out], output[out + 1] := (byte0 << 2) | (byte1 >> 4), (byte1 << 4) | (byte2 >> 2);
        if byte3 == DECODE_PADDING {
          r := Some(out + 2);
        } else if byte3 < 64 {
          output[out + 2] := (byte2 << 6) | byte3;
          r := Some(out + 3);
        }
      }
    }
    OneByOne(was, out, bytes, output[..]);
  }

  lemma OneByOne<T>(was: seq<T>, out: nat, values: seq<T>, now: seq<T>)
    requires out + |values| <= |was| == |now|
    requires now[..out] == was[..out] && now[out + |values|..] == was[out + |values|..]
    requires forall i :: 0 <= i < |values| ==> now[out + i] == values[i]
    ensures now == Overwrite(was, out, values)
  {
    assert now == now[..out] + now[out..out + |values|] + now[out + |values|..];
    assert now[out..out + |values|] == values;
  }

  lemma PaddedBytes(g: seq<symbol>)
    requires LastGroup(g) && g[3] == PAD
    ensures var bytes := FourBits(DecodeTable(g[0]), DecodeTable(g[1]), DecodeTable(g[2]), DecodeTable(g[3]));
      DecodeLast(g) == if g[2] == PAD then bytes[..1] else bytes[..2]
  {
    AlphabetInverse(0);
    var p, q := DecodeTable(g[0]), DecodeTable(g[1]);
    TableTellsSymbols(g[0]);
    TableTellsSymbols(g[1]);
    if g[2] == PAD {
      FourBitsAreBytes(p, q, 0, 0);
    } else {
      TableTellsSymbols(g[2]);
      FourBitsAreBytes(p, q, DecodeTable(g[2]), 0);
    }
  }

  lemma RefusedInside(input: seq<symbol>, from: nat, to: nat, end: nat)
    requires from <= to <= end <= |input| && !AllInAlphabet(input[from..to])
    ensures !AllInAlphabet(input[..end])
  {
    assert input[from..to] == input[..end][from..to];
  }

  lemma TailUntouched(now: seq<byte>, input: seq<symbol>, k: nat, n: nat, was: seq<byte>)
    requires Decoded(now, input, k, was) && 3 * k <= n <= |was|
    ensures |now| == |was| && now[n..] == was[n..]
  {
  }

  /** Four words in a row; on refusal, how many of them went through. */
  method DecodeChunk32(input: seq<symbol>, at: nat, output: array<byte>, out: nat, ghost k: nat, ghost was: seq<byte>)
    returns (words: nat, ok: bool)
    requires at == 4 * k && out == 3 * k && at + 32 <= |input| && out + 24 <= output.Length == |was|
    requires Decoded(output[..], input, k, was)
    modifies output
    ensures words <= 4 && Decoded(output[..], input, k + 2 * words, was)
    ensures ok ==> words == 4
    ensures !ok ==> words < 4 && !AllInAlphabet(input[at + 8 * words..at + 8 * words + 8])
  {
    words, ok := 0, true;
    while ok && words < 4
      invariant words <= 4 && Decoded(output[..], input, k + 2 * words, was)
      invariant !ok ==> words < 4 && !AllInAlphabet(input[at + 8 * words..at + 8 * words + 8])
      decreases ok, 4 - words
    {
      ok := DecodeChunk8(input, at + 8 * words, output, out + 6 * words, k + 2 * words, was);
      words := if ok then words + 1 else words;
    }
  }

  lemma WholeTurn(length: nat, turn: nat)
    requires 32 * turn < length - length % 32
    ensures 32 * turn + 32 <= length
  {
  }

  /** The loop over 32 symbols a turn, for the `n` groups before the last. */
  method DecodeUnrolled(input: seq<symbol>, finalInputIdx: nat, output: array<byte>, ghost n: nat, ghost was: seq<byte>)
    returns (inputIdx: nat, ok: bool, ghost k: nat)
    requires finalInputIdx == 4 * n <= |input| && 3 * n <= output.Length && output[..] == was
    modifies output
    ensures k <= n && Decoded(output[..], input, k, was) && (ok ==> inputIdx == 4 * k)
    ensures !ok ==> !AllInAlphabet(input[..finalInputIdx])
  {
    var inputUnrolledLen := finalInputIdx - finalInputIdx % 32;
    inputIdx, ok, k := 0, true, 0;
    ghost var turn := 0;
    while ok && inputIdx < inputUnrolledLen
      invariant k <= n && Decoded(output[..], input, k, was)
      invariant ok ==> inputIdx == 32 * turn && k == 8 * turn
      invariant !ok ==> !AllInAlphabet(input[..finalInputIdx])
      decreases ok, n - k
    {
      WholeTurn(finalInputIdx, turn);
      ThreeQuarters(k);
      var words: nat;
      words, ok := DecodeChunk32(input, inputIdx, output, inputIdx / 4 * 3, k, was);
      if !ok {
        RefusedInside(input, inputIdx + 8 * words, inputIdx + 8 * words + 8, finalInputIdx);
      }
      inputIdx, k, turn := inputIdx + 32, k + 2 * words, turn + 1;
    }
  }

  method DecodeNext(input: seq<symbol>, inputIdx: nat, output: array<byte>, ghost k: nat, ghost n: nat,
                    ghost was: seq<byte>)
    returns (ok: bool)
    requires inputIdx == 4 * k && k < n && 4 * n <= |input| && 3 * n <= output.Length == |was|
    requires Decoded(output[..], input, k, was)
    modifies output
    ensures ok ==> Decoded(output[..], input, k + 1, was)
    ensures !ok ==> Decoded(output[..], input, k, was) && !AllInAlphabet(input[..4 * n])
  {
    ThreeQuarters(k);
    ok := DecodeChunk4(input, inputIdx, output, inputIdx / 4 * 3, k, was);
    if !ok {
      RefusedInside(input, inputIdx, inputIdx + 4, 4 * n);
    }
  }

  /** The two loops over the `n` groups before the last: 32 symbols a turn, then four. */
  method DecodeBeforeFinal(input: seq<symbol>, finalInputIdx: nat, output: array<byte>, ghost n: nat,
                           ghost was: seq<byte>)
    returns (ok: bool)
    requires finalInputIdx == 4 * n <= |input| && 3 * n <= output.Length && output[..] == was
    modifies output
    ensures ok <==> AllInAlphabet(input[..finalInputIdx])
    ensures ok ==> Decoded(output[..], input, n, was)
    ensures output[3 * n..] == was[3 * n..]
  {
    var inputIdx: nat;
    ghost var k: nat;
    inputIdx, ok, k := DecodeUnrolled(input, finalInputIdx, output, n, was);
    while ok && inputIdx < finalInputIdx
      invariant k <= n && Decoded(output[..], input, k, was)
      invariant ok ==> inputIdx == 4 * k
      invariant !ok ==> !AllInAlphabet(input[..finalInputIdx])
      decreases ok, n - k
    {
      ok := DecodeNext(input, inputIdx, output, k, n, was);
      if ok {
        inputIdx, k := inputIdx + 4, k + 1;
      }
    }
    TailUntouched(output[..], input, k, 3 * n, was);
  }

  /** A text of whole groups: all but the last, and the last. */
  lemma WholeGroups(input: seq<symbol>, n: nat)
    requires |input| == 4 * n + 4
    ensures DecodedLen(input) == Some(3 * n + FinalCapacity(input[4 * n..]))
    ensures Legal(input) <==> AllInAlphabet(input[..4 * n]) && LastGroup(input[4 * n..])
    ensures Legal(input) ==> DecodeText(input) == MapGroups(4, DecodeQuad, input[..4 * n]) + DecodeLast(input[4 * n..])
    ensures Legal(input) ==> DecodedLen(input).value == |DecodeText(input)|
  {
    var groups, last := input[..4 * n], input[4 * n..];
    assert input == groups + last;
    DecodedLenInParts(groups, last, n);
    FourTimes(|groups|, n);
    if AllInAlphabet(groups) && LastGroup(last) {
      LegalInParts(groups, last, input);
    }
    if Legal(input) {
      assert input[..|input| - 4] == groups;
      DecodeInParts(groups, last, input);
      GroupsOfLegal(groups, n);
    }
  }

  /**
   * Accepts exactly the legal texts whose bytes fit the buffer, and writes those bytes and nothing else.
   * A refused text may leave bytes behind, but only within the length it implies.
   */
  method Decode(input: seq<symbol>, output: array<byte>) returns (r: Option<nat>)
    modifies output
    ensures r.Some? <==> Legal(input) && |DecodeText(input)| <= output.Length
    ensures r.Some? ==> r.value == |DecodeText(input)|
    ensures r.Some? ==> output[..] == DecodeText(input) + old(output[..])[r.value..]
    ensures var n := DecodedLen(input);
      if n.Some? && n.value <= output.Length then output[n.value..] == old(output[..])[n.value..]
      else output[..] == old(output[..])
  {
    var decodedLen := DecodedLen(input);
    ghost var n := |input| / 4 - 1;
    if input != [] && decodedLen.Some? {
      WholeGroups(input, n);
    }
    r := None;
    if decodedLen.Some? && decodedLen.value <= output.Length {
      if input == [] {
        r := Some(0);
      } else {
        ghost var was := output[..];
        r := DecodeGroups(input, output, n, decodedLen.value);
        if r.Some? {
          DecodedToText(input, n, r.value, was, output[..]);
        }
      }
    }
  }

  /** The last group, looked up and decoded. */
  method DecodeLastGroup(g: seq<symbol>, output: array<byte>, out: nat) returns (r: Option<nat>)
    requires |g| == 4 && out + |FinalBytes(g)| <= output.Length
    modifies output
    ensures r.Some? <==> LastGroup(g)
    ensures r.Some? ==> r.value == out + |FinalBytes(g)|
    ensures output[..] == Overwrite(old(output[..]), out, FinalBytes(g))
  {
    LastByTable(g);
    r := DecodeFinal(DecodeTable(g[0]), DecodeTable(g[1]), DecodeTable(g[2]), DecodeTable(g[3]), output, out);
  }

  /** The part of `Decode` after its checks on lengths. */
  method DecodeGroups(input: seq<symbol>, output: array<byte>, ghost n: nat, decodedLen: nat)
    returns (r: Option<nat>)
    requires |input| == 4 * n + 4 && decodedLen == 3 * n + FinalCapacity(input[4 * n..]) <= output.Length
    modifies output
    ensures r.Some? <==> AllInAlphabet(input[..4 * n]) && LastGroup(input[4 * n..])
    ensures r.Some? ==> DecodedTo(input, n, r.value, old(output[..]), output[..])
    ensures output[decodedLen..] == old(output[..])[decodedLen..]
  {
    ghost var was := output[..];
    var finalInputIdx := |input| - 4;
    ThreeQuarters(n);
    r := None;
    var ok := DecodeBeforeFinal(input, finalInputIdx, output, n, was);
    ghost var now := output[..];
    if ok {
      LastByTable(input[finalInputIdx..]);
      r := DecodeLastGroup(input[finalInputIdx..], output, finalInputIdx / 4 * 3);
      OverwrittenTail(now, 3 * n, FinalBytes(input[4 * n..]), decodedLen);
    }
    assert now[decodedLen..] == now[3 * n..][decodedLen - 3 * n..];
  }

  lemma ThreeQuarters(n: nat)
    ensures 4 * n / 4 * 3 == 3 * n
  {
  }

  lemma OverwrittenTail<T>(s: seq<T>, at: nat, values: seq<T>, from: nat)
    requires at + |values| <= from <= |s|
    ensures Overwrite(s, at, values)[from..] == s[from..]
  {
  }

  /** The buffer once the groups before the last, and then the last, have been written. */
  ghost predicate DecodedTo(input: seq<symbol>, n: nat, end: nat, was: seq<byte>, now: seq<byte>)
    requires |input| == 4 * n + 4
  {
    var g := input[4 * n..];
    && end == 3 * n + |FinalBytes(g)| <= |was|
    && var done := MapGroups(4, DecodeQuad, input[..4 * n]) + was[3 * n..];
      |done| == |was| && now == Overwrite(done, 3 * n, FinalBytes(g))
  }

  lemma DecodedToText(input: seq<symbol>, n: nat, end: nat, was: seq<byte>, now: seq<byte>)
    requires |input| == 4 * n + 4 && DecodedTo(input, n, end, was, now) && Legal(input)
    ensures end == |DecodeText(input)| <= |was| && now == DecodeText(input) + was[end..]
  {
    var g, done := input[4 * n..], MapGroups(4, DecodeQuad, input[..4 * n]);
    WholeGroups(input, n);
    FinalBytesDecode(g);
    OverwriteNext(done, FinalBytes(g), was);
  }
}
