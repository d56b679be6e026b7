/** Bytes on disk. */
module Bytes {
  type byte = x: int | 0 <= x < 0x100

  const SLOT_BYTES: nat := 32

  /** One entry of a directory. */
  type Slot = s: seq<byte> | |s| == SLOT_BYTES witness seq(SLOT_BYTES, _ => 0)

  /** Numbers are stored least significant byte first. */
  function Le16(v: uint16): (b: seq<byte>)
    ensures |b| == 2
  {
    [v % 0x100, v / 0x100]
  }

  type uint16 = x: int | 0 <= x < 0x1_0000

  type uint32 = x: int | 0 <= x < 0x1_0000_0000

  function Le32(v: uint32): (b: seq<byte>)
    ensures |b| == 4
  {
    Le16(v % 0x1_0000) + Le16(v / 0x1_0000)
  }

  function Zeros(n: nat): (z: seq<byte>)
    ensures |z| == n && forall i :: 0 <= i < n ==> z[i] == 0
  {
    seq(n, _ => 0)
  }

  function Read16(s: seq<byte>, at: nat): uint16
    requires at + 2 <= |s|
  {
    var low: int, high: int := s[at], s[at + 1];
    low + 0x100 * high
  }

  function Read32(s: seq<byte>, at: nat): uint32
    requires at + 4 <= |s|
  {
    var low: int, high: int := Read16(s, at), Read16(s, at + 2);
    low + 0x1_0000 * high
  }

  lemma Read16Back(s: seq<byte>, at: nat, v: uint16)
    requires at + 2 <= |s| && s[at..at + 2] == Le16(v)
    ensures Read16(s, at) == v
  {
    assert s[at] == s[at..at + 2][0] && s[at + 1] == s[at..at + 2][1];
  }

  lemma Read32Back(s: seq<byte>, at: nat, v: uint32)
    requires at + 4 <= |s| && s[at..at + 4] == Le32(v)
    ensures Read32(s, at) == v
  {
    assert s[at..at + 2] == s[at..at + 4][..2] && s[at + 2..at + 4] == s[at..at + 4][2..];
    Read16Back(s, at, v % 0x1_0000);
    Read16Back(s, at + 2, v / 0x1_0000);
  }
}
