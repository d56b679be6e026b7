/** Base64 as section 4 of RFC 4648 defines it, three bytes and four symbols at a time. */
module Base64Spec {
  import opened Buffers
  import opened Groups

  type byte = bv8

  /** A text byte; tables are indexed by it. */
  type symbol = x: int | 0 <= x < 0x100

  const PAD: symbol := '=' as int

  // ---- The alphabet, table 1 of RFC 4648 ----

  function Alphabet(index: bv8): symbol {
    var i := index as int;
    if i < 26 then 65 + i          // A to Z
    else if i < 52 then 71 + i     // a to z
    else if i < 62 then i - 4      // 0 to 9
    else if i == 62 then 43 else 47 // + and /
  }

  const UPPER_CASE: string := "ABCDEFGHIJKLMNOPQRSTUVWXYZ"
  const LOWER_CASE: string := "abcdefghijklmnopqrstuvwxyz"
  const DIGITS_AND_SIGNS: string := "0123456789+/"

  // Letters, digits and signs in the published order, 64 in all.
  const ALPHABET: string := UPPER_CASE + LOWER_CASE + DIGITS_AND_SIGNS

  lemma {:induction false} UpperCaseAt(i: nat)
    requires i < 26
    ensures |UPPER_CASE| == 26 && UPPER_CASE[i] as int == 65 + i
  {
  }

  lemma {:induction false} LowerCaseAt(i: nat)
    requires i < 26
    ensures |LOWER_CASE| == 26 && LOWER_CASE[i] as int == 97 + i
  {
  }

  lemma {:induction false} DigitOrSignAt(i: nat)
    requires i < 12
    ensures |DIGITS_AND_SIGNS| == 12
    ensures DIGITS_AND_SIGNS[i] as int == if i < 10 then 48 + i else if i == 10 then 43 else 47
  {
  }

  /** The ranges spell the published alphabet, symbol by symbol. */
  lemma {:induction false} AlphabetIsSpelled(index: bv8)
    requires index < 64
    ensures |ALPHABET| == 64 && Alphabet(index) == ALPHABET[index as int] as int
  {
    ByteRange(index);
    var i := index as int;
    UpperCaseAt(if i < 26 then i else 0);
    LowerCaseAt(if 26 <= i < 52 then i - 26 else 0);
    DigitOrSignAt(if 52 <= i then i - 52 else 0);
  }

  predicate InAlphabet(c: symbol) {
    65 <= c <= 90 || 97 <= c <= 122 || 48 <= c <= 57 || c == 43 || c == 47
  }

  function IndexOf(c: symbol): byte
    requires InAlphabet(c)
  {
    ByteOf(IndexNumber(c))
  }

  function IndexNumber(c: symbol): (n: nat)
    requires InAlphabet(c)
    ensures n < 64
  {
    if c == 43 then 62 else if c == 47 then 63
    else if c <= 57 then c + 4
    else if c <= 90 then c - 65
    else c - 71
  }

  /** The byte `n` increments reach from zero. */
  function ByteOf(n: nat): byte {
    if n == 0 then 0 else ByteOf(n - 1) + 1
  }

  lemma Increment(v: byte)
    requires v as int < 0xFF
    ensures (v + 1) as int == v as int + 1
  {
  }

  lemma {:induction false} NumberToByte(n: nat)
    requires n < 0x100
    ensures ByteOf(n) as int == n
  {
    if n != 0 {
      NumberToByte(n - 1);
      Increment(ByteOf(n - 1));
    }
  }

  lemma SameNumber(v: byte, w: byte)
    requires v as int == w as int
    ensures v == w
  {
  }

  lemma ByteToNumber(v: byte)
    ensures 0 <= v as int < 0x100 && (v < 64 <==> v as int < 64)
    ensures ByteOf(v as int) == v
  {
    ByteRange(v);
    NumberToByte(v as int);
    SameNumber(ByteOf(v as int), v);
  }

  lemma ByteRange(v: byte)
    ensures 0 <= v as int < 0x100 && (v < 64 <==> v as int < 64)
  {
  }

  lemma AlphabetInverse(v: byte)
    requires v < 64
    ensures InAlphabet(Alphabet(v)) && IndexOf(Alphabet(v)) == v
  {
    ByteToNumber(v);
  }

  lemma IndexInverse(c: symbol)
    requires InAlphabet(c)
    ensures IndexOf(c) < 64 && Alphabet(IndexOf(c)) == c
  {
    NumberToByte(IndexNumber(c));
    ByteRange(IndexOf(c));
  }

  // ---- One group: 24 bits as three bytes or as four indices ----

  function Bits(a: byte, b: byte, c: byte): bv24 {
    (a as bv24 << 16) | (b as bv24 << 8) | c as bv24
  }

  function Index(bits: bv24, shift: bv5): (v: byte)
    requires shift <= 18
    ensures v < 64
  {
    ((bits >> shift) & 0x3F) as byte
  }

  function Indices(a: byte, b: byte, c: byte): (v: (byte, byte, byte, byte))
    ensures v.0 < 64 && v.1 < 64 && v.2 < 64 && v.3 < 64
  {
    var bits := Bits(a, b, c);
    (Index(bits, 18), Index(bits, 12), Index(bits, 6), Index(bits, 0))
  }

  function Bytes(p: byte, q: byte, r: byte, s: byte): (byte, byte, byte)
    requires p < 64 && q < 64 && r < 64 && s < 64
  {
    var bits := (p as bv24 << 18) | (q as bv24 << 12) | (r as bv24 << 6) | s as bv24;
    (((bits >> 16) & 0xFF) as byte, ((bits >> 8) & 0xFF) as byte, (bits & 0xFF) as byte)
  }

  lemma BytesOfIndices(a: byte, b: byte, c: byte)
    ensures var v := Indices(a, b, c); Bytes(v.0, v.1, v.2, v.3) == (a, b, c)
  {
  }

  lemma IndicesOfBytes(p: byte, q: byte, r: byte, s: byte)
    requires p < 64 && q < 64 && r < 64 && s < 64
    ensures var v := Bytes(p, q, r, s); Indices(v.0, v.1, v.2) == (p, q, r, s)
  {
  }

  // ---- Encoding ----

  function EncodeGroup(a: byte, b: byte, c: byte): (text: seq<symbol>)
    ensures |text| == 4
  {
    var v := Indices(a, b, c);
    [Alphabet(v.0), Alphabet(v.1), Alphabet(v.2), Alphabet(v.3)]
  }

  function EncodeTriple(g: seq<byte>): seq<symbol> {
    if |g| == 3 then EncodeGroup(g[0], g[1], g[2]) else []
  }

  /** A short last group is filled up with zero bits, and its missing symbols are padding. */
  function EncodeTail(tail: seq<byte>): (text: seq<symbol>)
    requires |tail| < 3
    ensures |text| == (if tail == [] then 0 else 4)
  {
    if tail == [] then []
    else if |tail| == 1 then EncodeGroup(tail[0], 0, 0)[..2] + [PAD, PAD]
    else EncodeGroup(tail[0], tail[1], 0)[..3] + [PAD]
  }

  function EncodeBytes(data: seq<byte>): seq<symbol> {
    MapGroups(3, EncodeTriple, data) + EncodeTail(Rest(3, data))
  }

  // ---- Decoding ----

  predicate AllInAlphabet(text: seq<symbol>) {
    forall i :: 0 <= i < |text| ==> InAlphabet(text[i])
  }

  predicate LastGroup(g: seq<symbol>) {
    && |g| == 4 && InAlphabet(g[0]) && InAlphabet(g[1])
    && (InAlphabet(g[2]) || (g[2] == PAD && g[3] == PAD))
    && (InAlphabet(g[3]) || g[3] == PAD)
  }

  /** Whole groups of alphabet symbols, with padding only at the end of the last one. */
  predicate Legal(text: seq<symbol>) {
    text == [] ||
    (|text| % 4 == 0 && AllInAlphabet(text[..|text| - 4]) && LastGroup(text[|text| - 4..]))
  }

  function DecodeFull(g: seq<symbol>): (data: seq<byte>)
    requires |g| == 4 && AllInAlphabet(g)
    ensures |data| == 3
  {
    IndexInverse(g[0]);
    IndexInverse(g[1]);
    IndexInverse(g[2]);
    IndexInverse(g[3]);
    var v := Bytes(IndexOf(g[0]), IndexOf(g[1]), IndexOf(g[2]), IndexOf(g[3]));
    [v.0, v.1, v.2]
  }

  function DecodeQuad(g: seq<symbol>): seq<byte> {
    if |g| == 4 && AllInAlphabet(g) then DecodeFull(g) else []
  }

  /** Padding stands for zero bits; one padding symbol drops one byte. */
  function DecodeLast(g: seq<symbol>): seq<byte>
    requires LastGroup(g)
  {
    if g[2] == PAD then DecodeFull([g[0], g[1], Alphabet(0), Alphabet(0)])[..1]
    else if g[3] == PAD then DecodeFull([g[0], g[1], g[2], Alphabet(0)])[..2]
    else DecodeFull(g)
  }

  function DecodeText(text: seq<symbol>): seq<byte>
    requires Legal(text)
  {
    if text == [] then [] else MapGroups(4, DecodeQuad, text[..|text| - 4]) + DecodeLast(text[|text| - 4..])
  }

  // ---- Encoding, then decoding ----

  lemma EncodedGroupIsFull(a: byte, b: byte, c: byte)
    ensures AllInAlphabet(EncodeGroup(a, b, c)) && DecodeFull(EncodeGroup(a, b, c)) == [a, b, c]
  {
    var v := Indices(a, b, c);
    AlphabetInverse(v.0);
    AlphabetInverse(v.1);
    AlphabetInverse(v.2);
    AlphabetInverse(v.3);
    BytesOfIndices(a, b, c);
  }

  lemma ZeroIndices(a: byte, b: byte)
    ensures Indices(a, b, 0).3 == 0 && Indices(a, 0, 0).2 == 0 && Indices(a, 0, 0).3 == 0
  {
  }

  lemma EncodedTailIsLast(tail: seq<byte>)
    requires 0 < |tail| < 3
    ensures LastGroup(EncodeTail(tail)) && DecodeLast(EncodeTail(tail)) == tail
  {
    var b := if |tail| == 2 then tail[1] else 0;
    EncodedGroupIsFull(tail[0], b, 0);
    ZeroIndices(tail[0], b);
    var g, t := EncodeGroup(tail[0], b, 0), EncodeTail(tail);
    if |tail| == 1 {
      assert [t[0], t[1], Alphabet(0), Alphabet(0)] == g;
    } else {
      assert [t[0], t[1], t[2], Alphabet(0)] == g;
    }
  }

  predicate AnyByte(b: byte) {
    true
  }

  lemma TriplesInvert()
    ensures Inverts(3, 4, AnyByte, EncodeTriple, DecodeQuad)
  {
    forall x: seq<byte> | |x| == 3
      ensures |EncodeTriple(x)| == 4 && DecodeQuad(EncodeTriple(x)) == x
    {
      EncodedGroupIsFull(x[0], x[1], x[2]);
    }
  }

  lemma {:induction false} TriplesAreInAlphabet(data: seq<byte>)
    ensures AllInAlphabet(MapGroups(3, EncodeTriple, data))
    decreases |data|
  {
    if |data| >= 3 {
      EncodedGroupIsFull(data[0], data[1], data[2]);
      TriplesAreInAlphabet(data[3..]);
    }
  }

  /** Whole groups in front are encoded on their own. */
  lemma EncodePrepends(groups: seq<byte>, data: seq<byte>, k: nat)
    requires |groups| == k * 3
    ensures EncodeBytes(groups + data) == MapGroups(3, EncodeTriple, groups) + EncodeBytes(data)
  {
    MapAppends(3, EncodeTriple, groups, data, k);
    Associates(MapGroups(3, EncodeTriple, groups), MapGroups(3, EncodeTriple, data), EncodeTail(Rest(3, data)));
  }

  lemma EncodeShort(data: seq<byte>)
    requires |data| <= 3
    ensures EncodeBytes(data) == if |data| == 3 then EncodeTriple(data) else EncodeTail(data)
  {
    if |data| == 3 {
      MapOne(3, EncodeTriple, data);
      assert Rest(3, data) == [] && EncodeTriple(data) + [] == EncodeTriple(data);
    } else {
      assert [] + EncodeTail(data) == EncodeTail(data);
    }
  }

  /** Encoded text is legal, and decoding it gives the bytes back. */
  lemma DecodeInvertsEncode(data: seq<byte>)
    ensures Legal(EncodeBytes(data)) && DecodeText(EncodeBytes(data)) == data
  {
    var groups, k := Split(3, data);
    var tail := Rest(3, data);
    if tail != [] {
      EncodedTailIsLast(tail);
      EncodeShort(tail);
      DecodeEncodedGroups(groups, k, tail);
    } else if k > 0 {
      var init, last := groups[..3 * (k - 1)], groups[3 * (k - 1)..];
      assert data == init + last;
      EncodedGroupIsFull(last[0], last[1], last[2]);
      EncodeShort(last);
      DecodeEncodedGroups(init, k - 1, last);
    } else {
      EncodeShort(data);
    }
  }

  lemma LegalInParts(groups: seq<symbol>, last: seq<symbol>, text: seq<symbol>)
    requires text == groups + last && |groups| % 4 == 0 && AllInAlphabet(groups) && LastGroup(last)
    ensures Legal(text)
  {
    assert text[..|text| - 4] == groups;
    assert text[|text| - 4..] == last;
  }

  lemma DecodeInParts(groups: seq<symbol>, last: seq<symbol>, text: seq<symbol>)
    requires text == groups + last && |last| == 4 && Legal(text)
    ensures LastGroup(last) && DecodeText(text) == MapGroups(4, DecodeQuad, groups) + DecodeLast(last)
  {
    assert text[..|text| - 4] == groups;
    assert text[|text| - 4..] == last;
  }

  lemma FourTimes(n: nat, k: nat)
    requires n == k * 4
    ensures n % 4 == 0
  {
  }

  lemma DecodeEncodedGroups(groups: seq<byte>, k: nat, last: seq<byte>)
    requires |groups| == k * 3 && 0 < |last| <= 3
    requires LastGroup(EncodeBytes(last)) && DecodeLast(EncodeBytes(last)) == last
    ensures Legal(EncodeBytes(groups + last)) && DecodeText(EncodeBytes(groups + last)) == groups + last
  {
    var t, g := MapGroups(3, EncodeTriple, groups), EncodeBytes(last);
    EncodePrepends(groups, last, k);
    TriplesInvert();
    MapInverts(3, 4, AnyByte, EncodeTriple, DecodeQuad, groups, k);
    TriplesAreInAlphabet(groups);
    FourTimes(|t|, k);
    LegalInParts(t, g, t + g);
    DecodeInParts(t, g, t + g);
  }

  // ---- Decoding, then encoding ----

  predicate CanonicalGroup(g: seq<symbol>)
    requires LastGroup(g)
  {
    if g[2] == PAD then IndexOf(g[1]) & 0x0F == 0
    else if g[3] == PAD then IndexOf(g[2]) & 0x03 == 0
    else true
  }

  /** The bits of a padded last group that no byte holds are zero, section 3.5 of RFC 4648. */
  predicate Canonical(text: seq<symbol>)
    requires Legal(text)
  {
    text != [] ==> CanonicalGroup(text[|text| - 4..])
  }

  lemma FullGroupEncodes(g: seq<symbol>)
    requires |g| == 4 && AllInAlphabet(g)
    ensures EncodeTriple(DecodeFull(g)) == g
  {
    IndexInverse(g[0]);
    IndexInverse(g[1]);
    IndexInverse(g[2]);
    IndexInverse(g[3]);
    IndicesOfBytes(IndexOf(g[0]), IndexOf(g[1]), IndexOf(g[2]), IndexOf(g[3]));
  }

  /** Dropping the last byte or two keeps the indices exactly when the bits cut off are zero. */
  lemma CutSixteenBits(p: byte, q: byte)
    requires p < 64 && q < 64
    ensures var v := Indices(Bytes(p, q, 0, 0).0, 0, 0); v.0 == p && (v.1 == q <==> q & 0x0F == 0)
  {
  }

  lemma CutEightBits(p: byte, q: byte, r: byte)
    requires p < 64 && q < 64 && r < 64
    ensures var d := Bytes(p, q, r, 0);
      var v := Indices(d.0, d.1, 0); v.0 == p && v.1 == q && (v.2 == r <==> r & 0x03 == 0)
  {
  }

  lemma TwoPadsEncode(g: seq<symbol>)
    requires LastGroup(g) && g[2] == PAD
    ensures EncodeBytes(DecodeLast(g)) == g <==> CanonicalGroup(g)
  {
    var p, q := IndexOf(g[0]), IndexOf(g[1]);
    IndexInverse(g[0]);
    IndexInverse(g[1]);
    AlphabetInverse(0);
    CutSixteenBits(p, q);
    var d := Bytes(p, q, 0, 0).0;
    var v := Indices(d, 0, 0);
    SameSymbol(g[1], v.1);
    assert DecodeLast(g) == [d];
    EncodeShort([d]);
    assert EncodeTail([d]) == [g[0], Alphabet(v.1), PAD, PAD];
    assert g == [g[0], g[1], PAD, PAD];
  }

  lemma {:induction false} OnePadDecodes(g: seq<symbol>, p: byte, q: byte, r: byte)
    requires LastGroup(g) && g[2] != PAD && g[3] == PAD
    requires p < 64 && q < 64 && r < 64 && p == IndexOf(g[0]) && q == IndexOf(g[1]) && r == IndexOf(g[2])
    ensures var d := Bytes(p, q, r, 0); DecodeLast(g) == [d.0, d.1]
  {
    AlphabetInverse(0);
  }

  lemma {:induction false} ThirdDiffers<T>(g: seq<T>, x: T)
    requires |g| == 4
    ensures [g[0], g[1], x, g[3]] == g <==> x == g[2]
  {
    assert g == [g[0], g[1], g[2], g[3]];
  }

  lemma OnePadEncodes(g: seq<symbol>)
    requires LastGroup(g) && g[2] != PAD && g[3] == PAD
    ensures EncodeBytes(DecodeLast(g)) == g <==> CanonicalGroup(g)
  {
    var p, q, r := IndexOf(g[0]), IndexOf(g[1]), IndexOf(g[2]);
    IndexInverse(g[0]);
    IndexInverse(g[1]);
    IndexInverse(g[2]);
    OnePadDecodes(g, p, q, r);
    CutEightBits(p, q, r);
    var d := Bytes(p, q, r, 0);
    var v := Indices(d.0, d.1, 0);
    SameSymbol(g[2], v.2);
    EncodeShort([d.0, d.1]);
    assert EncodeTail([d.0, d.1]) == [g[0], g[1], Alphabet(v.2), PAD];
    ThirdDiffers(g, Alphabet(v.2));
  }

  lemma LastGroupEncodes(g: seq<symbol>)
    requires LastGroup(g)
    ensures EncodeBytes(DecodeLast(g)) == g <==> CanonicalGroup(g)
  {
    if g[3] != PAD {
      FullGroupEncodes(g);
      EncodeShort(DecodeFull(g));
    } else if g[2] == PAD {
      TwoPadsEncode(g);
    } else {
      OnePadEncodes(g);
    }
  }

  lemma SameSymbol(c: symbol, v: byte)
    requires InAlphabet(c) && v < 64
    ensures Alphabet(v) == c <==> v == IndexOf(c)
  {
    IndexInverse(c);
    AlphabetInverse(v);
  }

  lemma QuadsInvert()
    ensures Inverts(4, 3, InAlphabet, DecodeQuad, EncodeTriple)
  {
    forall x: seq<symbol> | |x| == 4 && All(InAlphabet, x)
      ensures |DecodeQuad(x)| == 3 && EncodeTriple(DecodeQuad(x)) == x
    {
      assert AllInAlphabet(x);
      FullGroupEncodes(x);
    }
  }

  /** Decoded text is encoded back to itself exactly when it is canonical. */
  lemma EncodeInvertsDecode(text: seq<symbol>)
    requires Legal(text)
    ensures EncodeBytes(DecodeText(text)) == text <==> Canonical(text)
  {
    if text == [] {
      EncodeShort([]);
    } else {
      var k := |text| / 4 - 1;
      var groups, last := text[..4 * k], text[4 * k..];
      assert |text| - 4 == 4 * k && text == groups + last;
      var d := MapGroups(4, DecodeQuad, groups);
      QuadsInvert();
      MapInverts(4, 3, InAlphabet, DecodeQuad, EncodeTriple, groups, k);
      LastGroupEncodes(last);
      EncodePrepends(d, DecodeLast(last), k);
      assert groups + EncodeBytes(DecodeLast(last)) == text <==> EncodeBytes(DecodeLast(last)) == last;
    }
  }

  /** Two texts with the same bytes: the unused bits of the last symbol differ. */
  lemma UnusedBitsAreNotTested()
    ensures var t := ['Z' as int, 'h' as int, PAD, PAD];
      Legal(t) && EncodeBytes(DecodeText(t)) == ['Z' as int, 'g' as int, PAD, PAD]
  {
    var t: seq<symbol> := ['Z' as int, 'h' as int, PAD, PAD];
    AlphabetInverse(0);
    AlphabetInverse(25);
    AlphabetInverse(32);
    AlphabetInverse(33);
    assert Alphabet(25) == 'Z' as int && Alphabet(32) == 'g' as int && Alphabet(33) == 'h' as int;
    assert t[..0] == [] && t[0..] == t && DecodeText(t) == [] + DecodeLast(t);
    assert DecodeText(t) == [0x66];
    EncodeShort([0x66]);
    assert Indices(0x66, 0, 0).0 == 25 && Indices(0x66, 0, 0).1 == 32;
  }
}
