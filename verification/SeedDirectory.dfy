/** What a FAT16 reader makes of the directory slots of a seed image. */
module SeedDirectory {
  import Buffers
  import opened Bytes
  import opened SeedImage
  import opened Texts
  import opened Utf16
  import opened Wrappers
  import R = FatReader

  // ---- One slot ----

  lemma {:induction false} ChecksumsAgree(sum: byte, name: seq<byte>)
    ensures R.Checksum(sum, name) == ChecksumFrom(sum, name)
    decreases |name|
  {
    if name != [] {
      ChecksumsAgree((sum % 2 * 0x80 + sum / 2 + name[0]) % 0x100, name[1..]);
    }
  }

  lemma {:induction false} UnitBytesAt(u: seq<unit>, i: nat)
    requires i < |u|
    ensures UnitBytes(u)[2 * i..2 * i + 2] == Le16(u[i])
  {
    if i > 0 {
      UnitBytesAt(u[1..], i - 1);
      assert UnitBytes(u)[2..] == UnitBytes(u[1..]);
      assert UnitBytes(u)[2 * i..2 * i + 2] == UnitBytes(u[1..])[2 * (i - 1)..2 * (i - 1) + 2];
    }
  }

  lemma {:induction false} UnitsReadBack(s: seq<byte>, at: nat, u: seq<unit>)
    requires at + 2 * |u| <= |s| && s[at..at + 2 * |u|] == UnitBytes(u)
    ensures R.UnitsAt(s, at, |u|) == u
  {
    var b := UnitBytes(u);
    forall i | 0 <= i < |u|
      ensures R.UnitsAt(s, at, |u|)[i] == u[i]
    {
      UnitBytesAt(u, i);
      ReadInside(s, at, b, 2 * i, u[i]);
    }
  }

  lemma ReadInside(s: seq<byte>, at: nat, b: seq<byte>, j: nat, v: uint16)
    requires at + |b| <= |s| && s[at..at + |b|] == b && j + 2 <= |b| && b[j..j + 2] == Le16(v)
    ensures Read16(s, at + j) == v
  {
    var part := s[at..at + |b|];
    assert part[j] == s[at + j] && part[j + 1] == s[at + j + 1];
    Read16Back(b, j, v);
  }

  lemma LfnSlotParts(sequence: byte, u: seq<unit>, checksum: byte)
    requires |u| == UNITS_PER_SLOT
    ensures var s := LfnSlot(sequence, u, checksum);
      && s[0] == sequence && s[11] == 0x0F && s[12] == 0 && s[13] == checksum && s[26..28] == [0, 0]
      && s[1..11] == UnitBytes(u[..5]) && s[14..26] == UnitBytes(u[5..11]) && s[28..32] == UnitBytes(u[11..])
  {
    SixParts([sequence], UnitBytes(u[..5]), [0x0F, 0, checksum], UnitBytes(u[5..11]), [0, 0], UnitBytes(u[11..]));
    var s := LfnSlot(sequence, u, checksum);
    assert s[11] == s[11..14][0] && s[12] == s[11..14][1] && s[13] == s[11..14][2];
  }

  lemma SixParts<T>(a: seq<T>, b: seq<T>, c: seq<T>, d: seq<T>, e: seq<T>, f: seq<T>)
    requires |a| == 1 && |b| == 10 && |c| == 3 && |d| == 12 && |e| == 2 && |f| == 4
    ensures var s := a + b + c + d + e + f;
      && s[0] == a[0] && s[11..14] == c && s[26..28] == e && s[1..11] == b && s[14..26] == d && s[28..32] == f
  {
  }

  lemma LfnSlotReads(sequence: byte, u: seq<unit>, checksum: byte)
    requires |u| == UNITS_PER_SLOT
    ensures var s := LfnSlot(sequence, u, checksum);
      && s[0] == sequence && R.IsLong(s) && s[12] == 0 && s[13] == checksum && Read16(s, 26) == 0
      && R.LongUnits(s) == u
  {
    var s := LfnSlot(sequence, u, checksum);
    LfnSlotParts(sequence, u, checksum);
    Read16Back(s, 26, 0);
    UnitsReadBack(s, 1, u[..5]);
    UnitsReadBack(s, 14, u[5..11]);
    UnitsReadBack(s, 28, u[11..]);
    assert u == u[..5] + u[5..11] + u[11..];
  }

  lemma ShortSlotReads(name: ShortName, first: unit, size: uint32)
    ensures var s := ShortSlot(name, first, size);
      && s[..11] == name && s[0] == name[0] && s[11] == 0x20 && s[12..26] == Zeros(14)
      && !R.IsLong(s) && R.IsFile(s) && Read16(s, 26) == first && Read32(s, 28) == size
  {
    var s := ShortSlot(name, first, size);
    assert s[11] == 0x20 && s[12..26] == Zeros(14) && s[26..28] == Le16(first) && s[28..32] == Le32(size);
    Read16Back(s, 26, first);
    Read32Back(s, 28, size);
  }

  // ---- One file ----

  /** A reader takes the first byte of a short name for a mark when it is 0x00 or 0xE5, and for 0xE5 when it is 0x05. */
  predicate Live(f: SeedFile) {
    f.shortName[0] != 0x00 && f.shortName[0] != 0xE5
  }

  predicate Faithful(f: SeedFile) {
    Live(f) && f.shortName[0] != 0x05 && NulFree(f.longName)
  }

  function SeenShortName(f: SeedFile): seq<byte> {
    if f.shortName[0] == 0x05 then [0xE5] + f.shortName[1..] else f.shortName
  }

  function SeenLongName(f: SeedFile): Option<string> {
    Decode(BeforeZero(NameUnits(f.longName)))
  }

  function Seen(f: SeedFile, first: nat): R.Entry {
    R.Entry(SeenLongName(f), SeenShortName(f), 0x20, if f.contents == [] then 0 else first, |f.contents|)
  }

  lemma SeenNames(f: SeedFile)
    requires Live(f)
    ensures SeenLongName(f) == Some(f.longName) && SeenShortName(f) == f.shortName <==> Faithful(f)
  {
    var u := NameUnits(f.longName);
    EncodedNulIsZero(f.longName);
    if NulFree(f.longName) {
      var n := |Encode(f.longName)|;
      assert u == Encode(f.longName) + [0] + u[n + 1..];
      BeforeFirstZero(Encode(f.longName), u[n + 1..]);
      DecodeInvertsEncode(f.longName);
    } else if SeenLongName(f).Some? {
      DecodedIsNulFree(BeforeZero(u));
    }
    if f.shortName[0] == 0x05 {
      assert SeenShortName(f)[0] == 0xE5;
    }
  }

  lemma WalkLong(s: Slot, rest: seq<Slot>, run: R.Run)
    requires s[0] != 0 && s[0] != 0xE5 && R.IsLong(s)
    ensures R.Walk([s] + rest, run) == R.Walk(rest, R.NextRun(run, s))
  {
    assert ([s] + rest)[0] == s && ([s] + rest)[1..] == rest;
  }

  lemma WalkShort(s: Slot, rest: seq<Slot>, run: R.Run)
    requires s[0] != 0 && s[0] != 0xE5 && !R.IsLong(s) && R.IsFile(s)
    ensures R.Walk([s] + rest, run) == [R.EntryAt(s, run)] + R.Walk(rest, R.NoRun)
  {
    assert ([s] + rest)[0] == s && ([s] + rest)[1..] == rest;
  }

  lemma WalkLabel(rest: seq<Slot>)
    ensures R.Walk([VOLUME_SLOT] + rest, R.NoRun) == R.Walk(rest, R.NoRun)
  {
    var s := VOLUME_SLOT;
    assert s[0] == 0x43 && s[11] == 0x08;
    assert ([s] + rest)[0] == s && ([s] + rest)[1..] == rest;
  }

  /** Part `k` of a name joins the parts after it. */
  lemma NextPart(part: seq<unit>, later: seq<unit>, n: nat, k: nat, checksum: byte, run: R.Run)
    requires k < n <= MAX_LFN_SLOTS && |part| == UNITS_PER_SLOT
    requires if k + 1 == n then later == [] else run == R.Run(k + 1, checksum, later)
    ensures var s := LfnSlot(Sequence(k + 1, n), part, checksum);
      s[0] != 0 && s[0] != 0xE5 && R.IsLong(s) && R.NextRun(run, s) == R.Run(k, checksum, part + later)
  {
    LfnSlotReads(Sequence(k + 1, n), part, checksum);
    assert part + [] == part;
  }

  lemma {:induction false} WalkPart(part: seq<unit>, later: seq<unit>, n: nat, k: nat, checksum: byte, run: R.Run,
                                    rest: seq<Slot>)
    requires k < n <= MAX_LFN_SLOTS && |part| == UNITS_PER_SLOT
    requires if k + 1 == n then later == [] else run == R.Run(k + 1, checksum, later)
    ensures R.Walk([LfnSlot(Sequence(k + 1, n), part, checksum)] + rest, run)
         == R.Walk(rest, R.Run(k, checksum, part + later))
  {
    NextPart(part, later, n, k, checksum, run);
    WalkLong(LfnSlot(Sequence(k + 1, n), part, checksum), rest, run);
  }

  lemma SplitAt<T>(u: seq<T>, i: nat, j: nat)
    requires i <= j <= |u|
    ensures u[i..j] + u[j..] == u[i..]
  {
  }

  /** A run of long name slots leaves the reader with all the units, whatever it held before. */
  lemma {:induction false} WalkLongName(u: seq<unit>, n: nat, k: nat, checksum: byte, rest: seq<Slot>, run: R.Run)
    requires k < n <= MAX_LFN_SLOTS && |u| == n * UNITS_PER_SLOT
    ensures R.Walk(LfnSlotsDownTo(u, n, k, checksum) + rest, run)
         == R.Walk(rest, R.Run(k, checksum, u[k * UNITS_PER_SLOT..]))
    decreases n - k
  {
    var i, j := k * UNITS_PER_SLOT, (k + 1) * UNITS_PER_SLOT;
    var slot := LfnSlot(Sequence(k + 1, n), u[i..j], checksum);
    var later := LfnSlotsDownTo(u, n, k + 1, checksum);
    assert LfnSlotsDownTo(u, n, k, checksum) + rest == later + ([slot] + rest);
    SplitAt(u, i, j);
    var before := if k + 1 < n then R.Run(k + 1, checksum, u[j..]) else run;
    if k + 1 < n {
      WalkLongName(u, n, k + 1, checksum, [slot] + rest, run);
    } else {
      assert later + ([slot] + rest) == [slot] + rest;
    }
    WalkPart(u[i..j], u[j..], n, k, checksum, before, rest);
  }

  lemma WalkFile(f: SeedFile, first: nat, rest: seq<Slot>, run: R.Run)
    requires Writable(f) && first <= 0xFFFF && Live(f)
    ensures R.Walk(FileSlots(f, first) + rest, run) == [Seen(f, first)] + R.Walk(rest, R.NoRun)
  {
    var checksum, cluster := ChecksumFrom(0, f.shortName), if f.contents == [] then 0 else first;
    var short := ShortSlot(f.shortName, cluster, |f.contents|);
    var u, n := NameUnits(f.longName), LfnCount(f.longName);
    assert FileSlots(f, first) + rest == LfnSlots(f.longName, checksum) + ([short] + rest);
    WalkLongName(u, n, 0, checksum, [short] + rest, run);
    assert u[0..] == u;
    ShortSlotReads(f.shortName, cluster, |f.contents|);
    ChecksumsAgree(0, f.shortName);
    assert short[1..11] == short[..11][1..];
    WalkShort(short, rest, R.Run(0, checksum, u));
  }

  // ---- All files ----

  predicate AllLive(files: seq<SeedFile>) {
    forall i :: 0 <= i < |files| ==> Live(files[i])
  }

  function SeenAll(files: seq<SeedFile>): (e: seq<R.Entry>)
    ensures |e| == |files|
  {
    if files == [] then []
    else
      var front, last := files[..|files| - 1], files[|files| - 1];
      SeenAll(front) + [Seen(last, NextCluster(front))]
  }

  lemma {:induction false} WalkFiles(files: seq<SeedFile>, rest: seq<Slot>)
    requires AllWritable(files) && NextCluster(files) <= 0xFFFF && AllLive(files)
    ensures R.Walk(RootSlots(files) + rest, R.NoRun) == SeenAll(files) + R.Walk(rest, R.NoRun)
    decreases |files|
  {
    if files == [] {
      WalkLabel(rest);
    } else {
      var front, last := files[..|files| - 1], files[|files| - 1];
      var slots := FileSlots(last, NextCluster(front));
      Buffers.Associates(RootSlots(front), slots, rest);
      WalkFiles(front, slots + rest);
      WalkFile(last, NextCluster(front), rest, R.NoRun);
      Buffers.Associates(SeenAll(front), [Seen(last, NextCluster(front))], R.Walk(rest, R.NoRun));
    }
  }

  // ---- Counting entries ----

  /** A slot a reader may report as a file. */
  predicate Reported(s: Slot) {
    s[0] != 0 && s[0] != 0xE5 && !R.IsLong(s) && R.IsFile(s)
  }

  function CountReported(slots: seq<Slot>): nat {
    if slots == [] then 0 else (if Reported(slots[0]) then 1 else 0) + CountReported(slots[1..])
  }

  lemma {:induction false} CountAppends(a: seq<Slot>, b: seq<Slot>)
    ensures CountReported(a + b) == CountReported(a) + CountReported(b)
  {
    if a == [] {
      assert a + b == b;
    } else {
      CountAppends(a[1..], b);
      assert (a + b)[1..] == a[1..] + b;
    }
  }

  lemma {:induction false} WalkReports(slots: seq<Slot>, run: R.Run)
    ensures |R.Walk(slots, run)| <= CountReported(slots)
    decreases |slots|
  {
    if slots != [] && slots[0][0] != 0 {
      WalkReports(slots[1..], R.NoRun);
      WalkReports(slots[1..], R.NextRun(run, slots[0]));
    }
  }

  lemma {:induction false} LongNamesAreNotReported(u: seq<unit>, n: nat, k: nat, checksum: byte)
    requires k <= n <= MAX_LFN_SLOTS && |u| == n * UNITS_PER_SLOT
    ensures CountReported(LfnSlotsDownTo(u, n, k, checksum)) == 0
    decreases n - k
  {
    if k < n {
      var part := u[k * UNITS_PER_SLOT..(k + 1) * UNITS_PER_SLOT];
      LfnSlotReads(Sequence(k + 1, n), part, checksum);
      LongNamesAreNotReported(u, n, k + 1, checksum);
      CountAppends(LfnSlotsDownTo(u, n, k + 1, checksum), [LfnSlot(Sequence(k + 1, n), part, checksum)]);
    }
  }

  function CountLive(files: seq<SeedFile>): (n: nat)
    ensures n <= |files| && (n == |files| <==> AllLive(files))
  {
    if files == [] then 0
    else
      var front, last := files[..|files| - 1], files[|files| - 1];
      CountLive(front) + if Live(last) then 1 else 0
  }

  lemma {:induction false} FilesReported(files: seq<SeedFile>)
    requires AllWritable(files) && NextCluster(files) <= 0xFFFF
    ensures CountReported(RootSlots(files)) == CountLive(files)
    ensures files != [] && AllLive(files) ==> Reported(RootSlots(files)[|RootSlots(files)| - 1])
    decreases |files|
  {
    if files == [] {
      assert VOLUME_SLOT[11] == 0x08;
    } else {
      var front, last := files[..|files| - 1], files[|files| - 1];
      var first := NextCluster(front);
      FilesReported(front);
      FileReported(last, first);
      CountAppends(RootSlots(front), FileSlots(last, first));
    }
  }

  lemma FileReported(f: SeedFile, first: nat)
    requires Writable(f) && first <= 0xFFFF
    ensures CountReported(FileSlots(f, first)) == if Live(f) then 1 else 0
    ensures var s := FileSlots(f, first); Reported(s[|s| - 1]) <==> Live(f)
  {
    var checksum := ChecksumFrom(0, f.shortName);
    var cluster := if f.contents == [] then 0 else first;
    LongNamesAreNotReported(NameUnits(f.longName), LfnCount(f.longName), 0, checksum);
    ShortSlotReads(f.shortName, cluster, |f.contents|);
    CountAppends(LfnSlots(f.longName, checksum), [ShortSlot(f.shortName, cluster, |f.contents|)]);
  }

  lemma {:induction false} PrefixReports(slots: seq<Slot>, fitting: nat)
    requires fitting <= |slots|
    ensures CountReported(slots[..fitting]) <= CountReported(slots)
    ensures fitting < |slots| && Reported(slots[|slots| - 1]) ==> CountReported(slots[..fitting]) < CountReported(slots)
  {
    var front, back := slots[..fitting], slots[fitting..];
    assert slots == front + back;
    CountAppends(front, back);
    if back != [] {
      var init, last := back[..|back| - 1], back[|back| - 1];
      assert back == init + [last] && last == slots[|slots| - 1];
      CountAppends(init, [last]);
      assert CountReported([last]) == if Reported(last) then 1 else 0;
    }
  }

  /** When the slots do not all fit, or a first byte reads as a mark, some file is not reported. */
  lemma {:induction false} TooFewReported(files: seq<SeedFile>, fitting: nat, run: R.Run)
    requires AllWritable(files) && NextCluster(files) <= 0xFFFF && fitting <= |RootSlots(files)|
    requires files != [] && (fitting < |RootSlots(files)| || !AllLive(files))
    ensures |R.Walk(RootSlots(files)[..fitting], run)| < |files|
  {
    WalkReports(RootSlots(files)[..fitting], run);
    PrefixReports(RootSlots(files), fitting);
    FilesReported(files);
  }
}
