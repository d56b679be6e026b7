/** UTF-16, the encoding of long file names. */
module Utf16 {
  import opened Texts
  import opened Wrappers

  type unit = x: int | 0 <= x < 0x1_0000

  function EncodeChar(c: char): (u: seq<unit>)
    ensures 1 <= |u| <= 2
  {
    var n := c as int;
    if n < 0x1_0000 then [n]
    else [0xD800 + (n - 0x1_0000) / 0x400, 0xDC00 + (n - 0x1_0000) % 0x400]
  }

  function Encode(s: string): seq<unit> {
    if s == "" then [] else EncodeChar(s[0]) + Encode(s[1..])
  }

  predicate High(u: unit) {
    0xD800 <= u < 0xDC00
  }

  predicate Low(u: unit) {
    0xDC00 <= u < 0xE000
  }

  function Pair(high: int, low: int): char
    requires 0xD800 <= high < 0xDC00 <= low < 0xE000
  {
    (0x1_0000 + (high - 0xD800) * 0x400 + (low - 0xDC00)) as char
  }

  /** None for a surrogate without its other half. */
  function Decode(u: seq<unit>): Option<string> {
    if u == [] then Some("")
    else if !High(u[0]) && !Low(u[0]) then Prepend(u[0] as char, Decode(u[1..]))
    else if High(u[0]) && |u| > 1 && Low(u[1]) then
      Prepend(Pair(u[0], u[1]), Decode(u[2..]))
    else None
  }

  function Prepend(c: char, rest: Option<string>): Option<string> {
    if rest.None? then None else Some([c] + rest.value)
  }

  lemma CharRoundTrips(c: char)
    ensures var u := EncodeChar(c);
      if |u| == 1 then !High(u[0]) && !Low(u[0]) && u[0] as char == c
      else High(u[0]) && Low(u[1]) && Pair(u[0], u[1]) == c
  {
  }

  lemma {:induction false} DecodeInvertsEncode(s: string)
    ensures Decode(Encode(s)) == Some(s)
  {
    if s != "" {
      var u, rest := EncodeChar(s[0]), Encode(s[1..]);
      CharRoundTrips(s[0]);
      DecodeInvertsEncode(s[1..]);
      assert (u + rest)[|u|..] == rest && (u + rest)[0] == u[0] && (|u| == 2 ==> (u + rest)[1] == u[1]);
      assert [s[0]] + s[1..] == s;
    }
  }

  predicate NoZero(u: seq<unit>) {
    forall i :: 0 <= i < |u| ==> u[i] != 0
  }

  lemma NulIsZero(c: char)
    ensures NoZero(EncodeChar(c)) <==> c != '\0'
  {
    assert EncodeChar(c)[0] == 0 <==> c == '\0';
  }

  lemma {:induction false} EncodedNulIsZero(s: string)
    ensures NoZero(Encode(s)) <==> NulFree(s)
  {
    if s != "" {
      var u, rest := EncodeChar(s[0]), Encode(s[1..]);
      EncodedNulIsZero(s[1..]);
      NulIsZero(s[0]);
      assert NoZero(u + rest) <==> NoZero(u) && NoZero(rest) by {
        assert forall i :: 0 <= i < |rest| ==> (u + rest)[|u| + i] == rest[i];
        assert forall i :: 0 <= i < |u| ==> (u + rest)[i] == u[i];
      }
      assert NulFree(s) <==> s[0] != '\0' && NulFree(s[1..]) by {
        assert forall i :: 0 <= i < |s| - 1 ==> s[1..][i] == s[i + 1];
      }
    }
  }

  lemma {:induction false} DecodedIsNulFree(u: seq<unit>)
    requires NoZero(u) && Decode(u).Some?
    ensures NulFree(Decode(u).value)
  {
    if u != [] {
      DecodedIsNulFree(u[if High(u[0]) then 2 else 1..]);
    }
  }

  /** The units before the first zero; all of them when there is none. */
  function BeforeZero(u: seq<unit>): (r: seq<unit>)
    ensures NoZero(r)
  {
    if u == [] || u[0] == 0 then [] else [u[0]] + BeforeZero(u[1..])
  }

  lemma {:induction false} BeforeFirstZero(u: seq<unit>, rest: seq<unit>)
    requires NoZero(u)
    ensures BeforeZero(u + [0] + rest) == u
  {
    if u == [] {
      assert (u + [0] + rest)[0] == 0;
    } else {
      assert (u + [0] + rest)[0] == u[0] && (u + [0] + rest)[1..] == u[1..] + [0] + rest;
      BeforeFirstZero(u[1..], rest);
    }
  }
}
