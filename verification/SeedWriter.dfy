/** Writes a seed image, region by region, into one buffer. */
module SeedWriter {
  import opened Buffers
  import opened Bytes
  import opened SeedImage
  import opened SeedLayout
  import opened Utf16
  import opened Wrappers

  // ---- Storing into a zeroed region ----

  /** A region of `size` bytes between `head` and `tail`: `acc` written so far, zeros after it. */
  ghost function Region(head: seq<byte>, acc: seq<byte>, size: nat, tail: seq<byte>): seq<byte>
    requires |acc| <= size
  {
    head + acc + Zeros(size - |acc|) + tail
  }

  lemma RegionGrows(head: seq<byte>, acc: seq<byte>, size: nat, tail: seq<byte>, values: seq<byte>)
    requires |acc| + |values| <= size
    ensures |Region(head, acc, size, tail)| == |head| + size + |tail|
    ensures Overwrite(Region(head, acc, size, tail), |head| + |acc|, values) == Region(head, acc + values, size, tail)
  {
    var r, n := Region(head, acc, size, tail), |head| + |acc|;
    assert r[..n] == head + acc;
    assert r[n + |values|..] == Zeros(size - |acc + values|) + tail;
  }

  lemma RegionSkips(head: seq<byte>, acc: seq<byte>, size: nat, tail: seq<byte>, gap: nat)
    requires |acc| + gap <= size
    ensures Region(head, acc + Zeros(gap), size, tail) == Region(head, acc, size, tail)
  {
    assert Zeros(gap) + Zeros(size - |acc| - gap) == Zeros(size - |acc|);
  }

  method Append(image: array<byte>, at: nat, values: seq<byte>,
                ghost head: seq<byte>, ghost acc: seq<byte>, ghost size: nat, ghost tail: seq<byte>)
    requires |acc| + |values| <= size && at == |head| + |acc|
    requires image[..] == Region(head, acc, size, tail)
    modifies image
    ensures image[..] == Region(head, acc + values, size, tail)
  {
    RegionGrows(head, acc, size, tail, values);
    Put(image, at, values);
  }

  // ---- Boot sector ----

  method WriteBootSector(image: array<byte>, l: Layout, ghost tail: seq<byte>)
    requires Sized(l) && image[..] == Region([], [], BYTES_PER_SECTOR, tail)
    modifies image
    ensures image[..] == Boot(l) + tail
  {
    WriteParameters(image, l, tail);
    WriteIdentity(image, l, tail);
    ghost var acc := BootFields(l);
    RegionSkips([], acc, BYTES_PER_SECTOR, tail, 448);
    Append(image, 510, [0x55, 0xAA], [], acc + Zeros(448), BYTES_PER_SECTOR, tail);
    RegionSkips([], acc + Zeros(448) + [0x55, 0xAA], BYTES_PER_SECTOR, tail, BYTES_PER_SECTOR - 512);
    assert Zeros(0) == [] && Boot(l) + Zeros(0) == Boot(l) && [] + Boot(l) == Boot(l);
  }

  ghost function Parameters(l: Layout): (b: seq<byte>)
    requires Sized(l)
    ensures |b| == 28
  {
    GEOMETRY + Le16(ROOT_ENTRY_COUNT) + Le16(l.totalSectors) + [0xF8] + Le16(l.fatSectors) + Le16(32) + Le16(64)
  }

  method WriteParameters(image: array<byte>, l: Layout, ghost tail: seq<byte>)
    requires Sized(l) && image[..] == Region([], [], BYTES_PER_SECTOR, tail)
    modifies image
    ensures image[..] == Region([], Parameters(l), BYTES_PER_SECTOR, tail)
  {
    WriteGeometry(image, tail);
    ghost var n := BYTES_PER_SECTOR;
    ghost var acc := GEOMETRY;
    Append(image, 17, Le16(ROOT_ENTRY_COUNT), [], acc, n, tail);
    acc := acc + Le16(ROOT_ENTRY_COUNT);
    Append(image, 19, Le16(l.totalSectors), [], acc, n, tail);
    acc := acc + Le16(l.totalSectors);
    Append(image, 21, [0xF8], [], acc, n, tail);
    acc := acc + [0xF8];
    Append(image, 22, Le16(l.fatSectors), [], acc, n, tail);
    acc := acc + Le16(l.fatSectors);
    Append(image, 24, Le16(32), [], acc, n, tail);
    acc := acc + Le16(32);
    Append(image, 26, Le16(64), [], acc, n, tail);
  }

  method WriteGeometry(image: array<byte>, ghost tail: seq<byte>)
    requires image[..] == Region([], [], BYTES_PER_SECTOR, tail)
    modifies image
    ensures image[..] == Region([], GEOMETRY, BYTES_PER_SECTOR, tail)
  {
    WriteName(image, tail);
    ghost var n := BYTES_PER_SECTOR;
    ghost var acc := JUMP_AND_NAME;
    Append(image, 11, Le16(BYTES_PER_SECTOR), [], acc, n, tail);
    acc := acc + Le16(BYTES_PER_SECTOR);
    Append(image, 13, [SECTORS_PER_CLUSTER], [], acc, n, tail);
    acc := acc + [SECTORS_PER_CLUSTER];
    Append(image, 14, Le16(RESERVED_SECTORS), [], acc, n, tail);
    acc := acc + Le16(RESERVED_SECTORS);
    Append(image, 16, [FAT_COUNT], [], acc, n, tail);
  }

  method WriteName(image: array<byte>, ghost tail: seq<byte>)
    requires image[..] == Region([], [], BYTES_PER_SECTOR, tail)
    modifies image
    ensures image[..] == Region([], JUMP_AND_NAME, BYTES_PER_SECTOR, tail)
  {
    var jump: seq<byte> := [0xEB, 0x3C, 0x90];
    Append(image, 0, jump, [], [], BYTES_PER_SECTOR, tail);
    assert [] + jump == jump;
    Append(image, 3, OEM_NAME, [], jump, BYTES_PER_SECTOR, tail);
  }

  method WriteIdentity(image: array<byte>, l: Layout, ghost tail: seq<byte>)
    requires Sized(l) && image[..] == Region([], Parameters(l), BYTES_PER_SECTOR, tail)
    modifies image
    ensures image[..] == Region([], BootFields(l), BYTES_PER_SECTOR, tail)
  {
    ghost var n := BYTES_PER_SECTOR;
    ghost var acc := Parameters(l);
    RegionSkips([], acc, n, tail, 8);
    acc := acc + Zeros(8);
    Append(image, 36, [0x80], [], acc, n, tail);
    acc := acc + [0x80];
    RegionSkips([], acc, n, tail, 1);
    acc := acc + Zeros(1);
    Append(image, 38, [0x29], [], acc, n, tail);
    acc := acc + [0x29];
    Append(image, 39, Le32(0xA6D0_0001), [], acc, n, tail);
    acc := acc + Le32(0xA6D0_0001);
    Append(image, 43, VOLUME_LABEL, [], acc, n, tail);
    acc := acc + VOLUME_LABEL;
    Append(image, 54, TYPE_NAME, [], acc, n, tail);
  }

  // ---- File data ----

  function ClusterOffset(l: Layout, cluster: unit): nat
    requires cluster >= 2
  {
    (l.dataStartSector + (cluster - 2) * SECTORS_PER_CLUSTER) * BYTES_PER_SECTOR
  }

  /** The cluster numbers of every file, in order. */
  function ChainOf(first: nat, n: nat): (c: seq<unit>)
    requires first + n <= 0x1_0000
    ensures |c| == n
  {
    seq(n, i requires 0 <= i < n => first + i)
  }

  function Chains(files: seq<SeedFile>): (c: seq<seq<unit>>)
    requires NextCluster(files) <= 0x1_0000
    ensures |c| == |files|
    decreases |files|
  {
    if files == [] then []
    else
      var front, last := files[..|files| - 1], files[|files| - 1];
      Chains(front) + [ChainOf(NextCluster(front), ClustersOfFile(last))]
  }

  /** Cuts the contents into clusters and stores them one after the other. */
  method WriteChunks(image: array<byte>, l: Layout, f: SeedFile, first: nat,
                     ghost head: seq<byte>, ghost acc: seq<byte>, ghost size: nat)
    returns (chain: seq<unit>)
    requires 2 <= first && first + ClustersOfFile(f) <= 0xFFFF
    requires |head| == l.dataStartSector * BYTES_PER_SECTOR && |acc| == (first - 2) * BYTES_PER_SECTOR
    requires |acc| + ClustersOfFile(f) * BYTES_PER_SECTOR <= size
    requires image[..] == Region(head, acc, size, [])
    modifies image
    ensures image[..] == Region(head, acc + f.contents, size, [])
    ensures chain == ChainOf(first, ClustersOfFile(f))
  {
    chain := [];
    var at := 0;
    ghost var n := ClustersOfFile(f);
    assert acc + f.contents[..0] == acc;
    while at < |f.contents|
      invariant |chain| <= n && chain == ChainOf(first, |chain|)
      invariant at == if |chain| < n then |chain| * BYTES_PER_SECTOR else |f.contents|
      invariant image[..] == Region(head, acc + f.contents[..at], size, [])
      decreases |f.contents| - at
    {
      var cluster := first + |chain|;
      var end := if at + BYTES_PER_SECTOR <= |f.contents| then at + BYTES_PER_SECTOR else |f.contents|;
      var chunk := f.contents[at..end];
      Append(image, ClusterOffset(l, cluster), chunk, head, acc + f.contents[..at], size, []);
      assert acc + f.contents[..at] + chunk == acc + f.contents[..end];
      chain := chain + [cluster];
      at := end;
    }
    assert f.contents[..at] == f.contents;
  }

  lemma {:induction false} NextClusterGrows(files: seq<SeedFile>, i: nat)
    requires i <= |files|
    ensures NextCluster(files[..i]) <= NextCluster(files)
    decreases |files|
  {
    if i < |files| {
      NextClusterGrows(files[..|files| - 1], i);
      assert files[..|files| - 1][..i] == files[..i];
    } else {
      assert files[..i] == files;
    }
  }

  /** The chunks of one file, and the zeros up to the end of its last cluster. */
  method WriteContents(image: array<byte>, l: Layout, f: SeedFile, first: nat,
                       ghost head: seq<byte>, ghost acc: seq<byte>, ghost size: nat)
    returns (chain: seq<unit>)
    requires 2 <= first && first + ClustersOfFile(f) <= 0xFFFF
    requires |head| == l.dataStartSector * BYTES_PER_SECTOR && |acc| == (first - 2) * BYTES_PER_SECTOR
    requires |acc| + |Padded(f.contents)| <= size
    requires image[..] == Region(head, acc, size, [])
    modifies image
    ensures image[..] == Region(head, acc + Padded(f.contents), size, [])
    ensures chain == ChainOf(first, ClustersOfFile(f))
  {
    chain := WriteChunks(image, l, f, first, head, acc, size);
    ghost var gap := |Padded(f.contents)| - |f.contents|;
    RegionSkips(head, acc + f.contents, size, [], gap);
    assert acc + f.contents + Zeros(gap) == acc + Padded(f.contents);
  }

  method WriteFileData(image: array<byte>, l: Layout, files: seq<SeedFile>, ghost head: seq<byte>, ghost size: nat)
    returns (chains: seq<seq<unit>>)
    requires NextCluster(files) <= 0xFFFF && |head| == l.dataStartSector * BYTES_PER_SECTOR
    requires |Data(files)| <= size && image[..] == Region(head, [], size, [])
    modifies image
    ensures image[..] == Region(head, Data(files), size, [])
    ensures chains == Chains(files)
  {
    chains := [];
    var nextCluster: nat := 2;
    ghost var acc: seq<byte> := [];
    for i := 0 to |files|
      invariant nextCluster == NextCluster(files[..i]) <= 0xFFFF && acc == Data(files[..i])
      invariant |acc| <= size && image[..] == Region(head, acc, size, [])
      invariant chains == Chains(files[..i])
    {
      OneMoreFile(files, i);
      NextClusterGrows(files, i + 1);
      var chain := WriteContents(image, l, files[i], nextCluster, head, acc, size);
      acc := acc + Padded(files[i].contents);
      nextCluster := nextCluster + |chain|;
      chains := chains + [chain];
    }
    assert files[..|files|] == files;
  }

  lemma OneMoreFile(files: seq<SeedFile>, i: nat)
    requires i < |files|
    ensures NextCluster(files[..i + 1]) == NextCluster(files[..i]) + ClustersOfFile(files[i])
    ensures Data(files[..i + 1]) == Data(files[..i]) + Padded(files[i].contents)
    ensures NextCluster(files[..i + 1]) <= 0xFFFF ==>
      Chains(files[..i + 1]) == Chains(files[..i]) + [ChainOf(NextCluster(files[..i]), ClustersOfFile(files[i]))]
    ensures NextCluster(files[..i + 1]) <= 0xFFFF ==>
      FatValues(files[..i + 1]) ==
        FatValues(files[..i]) + ChainValues(NextCluster(files[..i]), ClustersOfFile(files[i]))
  {
    assert files[..i + 1][..i] == files[..i] && files[..i + 1][i] == files[i];
  }

  // ---- Tables ----

  lemma ToBytesGrows(values: seq<unit>, v: unit)
    ensures ToBytes(values + [v]) == ToBytes(values) + Le16(v)
  {
    assert (values + [v])[..|values|] == values;
  }

  /** Stores the entry of the next cluster that has none yet. */
  method WriteFatEntry(image: array<byte>, fatStart: nat, cluster: unit, value: unit, ghost values: seq<unit>,
                       ghost head: seq<byte>, ghost size: nat, ghost tail: seq<byte>)
    requires |head| == fatStart && cluster == |values| && 2 * |values| + 2 <= size
    requires image[..] == Region(head, ToBytes(values), size, tail)
    modifies image
    ensures image[..] == Region(head, ToBytes(values + [value]), size, tail)
  {
    ToBytesGrows(values, value);
    Append(image, fatStart + cluster * 2, Le16(value), head, ToBytes(values), size, tail);
  }

  method WriteChain(image: array<byte>, fatStart: nat, chain: seq<unit>, ghost values: seq<unit>,
                    ghost head: seq<byte>, ghost size: nat, ghost tail: seq<byte>)
    requires |head| == fatStart && |values| + |chain| <= 0x1_0000 && 2 * (|values| + |chain|) <= size
    requires chain == ChainOf(|values|, |chain|)
    requires image[..] == Region(head, ToBytes(values), size, tail)
    modifies image
    ensures image[..] == Region(head, ToBytes(values + ChainValues(|values|, |chain|)), size, tail)
  {
    ghost var entries := ChainValues(|values|, |chain|);
    assert values + entries[..0] == values;
    for index := 0 to |chain|
      invariant image[..] == Region(head, ToBytes(values + entries[..index]), size, tail)
    {
      var next := if index + 1 < |chain| then chain[index + 1] else END_OF_CHAIN;
      assert values + entries[..index] + [next] == values + entries[..index + 1];
      WriteFatEntry(image, fatStart, chain[index], next, values + entries[..index], head, size, tail);
    }
    assert entries[..|chain|] == entries;
  }

  method WriteFat(image: array<byte>, fatStart: nat, chains: seq<seq<unit>>, ghost files: seq<SeedFile>,
                  ghost head: seq<byte>, ghost size: nat, ghost tail: seq<byte>)
    requires |head| == fatStart && NextCluster(files) <= 0xFFFF && 2 * NextCluster(files) <= size
    requires chains == Chains(files)
    requires image[..] == Region(head, [], size, tail)
    modifies image
    ensures image[..] == Region(head, ToBytes(FatValues(files)), size, tail)
  {
    WriteFatEntry(image, fatStart, 0, 0xFFF8, [], head, size, tail);
    WriteFatEntry(image, fatStart, 1, END_OF_CHAIN, [] + [0xFFF8], head, size, tail);
    ghost var values := FatValues(files[..0]);
    assert values == [] + [0xFFF8] + [END_OF_CHAIN];
    for i := 0 to |chains|
      invariant NextCluster(files[..i]) <= 0xFFFF && 2 * |values| <= size
      invariant values == FatValues(files[..i]) && image[..] == Region(head, ToBytes(values), size, tail)
    {
      OneMoreFile(files, i);
      NextClusterGrows(files, i + 1);
      ChainAt(files, i);
      WriteChain(image, fatStart, chains[i], values, head, size, tail);
      values := values + ChainValues(|values|, |chains[i]|);
    }
    assert files[..|files|] == files;
  }

  lemma {:induction false} ChainAt(files: seq<SeedFile>, i: nat)
    requires i < |files| && NextCluster(files) <= 0xFFFF
    ensures NextCluster(files[..i + 1]) == NextCluster(files[..i]) + ClustersOfFile(files[i]) <= 0xFFFF
    ensures Chains(files)[i] == ChainOf(NextCluster(files[..i]), ClustersOfFile(files[i]))
    decreases |files|
  {
    var front := files[..|files| - 1];
    NextClusterGrows(files, i + 1);
    assert files[..i + 1][..i] == files[..i];
    if i < |front| {
      ChainAt(front, i);
      assert front[..i] == files[..i];
    } else {
      assert files[..i] == front;
    }
  }

  /** One table. */
  method WriteTable(image: array<byte>, fatStart: nat, l: Layout, chains: seq<seq<unit>>, ghost files: seq<SeedFile>,
                    ghost head: seq<byte>, ghost tail: seq<byte>)
    requires RoomFor(l, files) && chains == Chains(files) && |head| == fatStart
    requires image[..] == head + (Zeros(l.fatSectors * BYTES_PER_SECTOR) + tail)
    modifies image
    ensures image[..] == head + Fat(l, files) + tail
  {
    ghost var size := l.fatSectors * BYTES_PER_SECTOR;
    BlankTable(head, size, tail);
    WriteFat(image, fatStart, chains, files, head, size, tail);
    TableDone(head, ToBytes(FatValues(files)), size, tail);
  }

  lemma {:induction false} BlankTable(head: seq<byte>, size: nat, tail: seq<byte>)
    ensures head + (Zeros(size) + tail) == Region(head, [], size, tail)
  {
  }

  lemma {:induction false} TableDone(head: seq<byte>, values: seq<byte>, size: nat, tail: seq<byte>)
    requires |values| <= size
    ensures Region(head, values, size, tail) == head + (values + Zeros(size - |values|)) + tail
  {
  }

  /** Both tables, one after the other. */
  method WriteFats(image: array<byte>, l: Layout, chains: seq<seq<unit>>, ghost files: seq<SeedFile>,
                   ghost boot: seq<byte>, ghost tail: seq<byte>)
    requires RoomFor(l, files) && chains == Chains(files) && |boot| == BYTES_PER_SECTOR
    requires image[..] == boot + Zeros(2 * l.fatSectors * BYTES_PER_SECTOR) + tail
    modifies image
    ensures image[..] == boot + Fat(l, files) + Fat(l, files) + tail
  {
    var size := l.fatSectors * BYTES_PER_SECTOR;
    TwoBlankTables(boot, size, tail);
    ghost var fat, rest := Fat(l, files), Zeros(size) + tail;
    WriteTable(image, RESERVED_SECTORS * BYTES_PER_SECTOR, l, chains, files, boot, rest);
    WriteTable(image, RESERVED_SECTORS * BYTES_PER_SECTOR + size, l, chains, files, boot + fat, tail);
  }

  lemma {:induction false} TwoBlankTables(boot: seq<byte>, size: nat, tail: seq<byte>)
    ensures boot + Zeros(2 * size) + tail == boot + (Zeros(size) + (Zeros(size) + tail))
  {
    assert Zeros(2 * size) == Zeros(size) + Zeros(size);
  }

  // ---- Long name entries ----

  function Checksum(shortName: ShortName): byte {
    ChecksumFrom(0, shortName)
  }

  /** The fold over the short name. */
  method LfnChecksum(shortName: ShortName) returns (sum: byte)
    ensures sum == Checksum(shortName)
  {
    sum := 0;
    assert shortName[0..] == shortName;
    for i := 0 to 11
      invariant ChecksumFrom(sum, shortName[i..]) == Checksum(shortName)
    {
      assert shortName[i..][1..] == shortName[i + 1..];
      sum := (sum % 2 * 0x80 + sum / 2 + shortName[i]) % 0x100;
    }
  }

  /** Stores the units at the offsets, two bytes each. */
  method WriteLfnUnits(entry: array<byte>, offsets: seq<nat>, units: seq<unit>)
    requires |offsets| == |units| > 0 && offsets[0] + 2 * |units| <= entry.Length
    requires forall i :: 0 <= i < |offsets| ==> offsets[i] == offsets[0] + 2 * i
    modifies entry
    ensures entry[..] == Overwrite(old(entry[..]), offsets[0], UnitBytes(units))
  {
    ghost var was, at := entry[..], offsets[0];
    assert UnitBytes(units[..0]) == [] && Overwrite(was, at, []) == was;
    for i := 0 to |units|
      invariant entry[..] == Overwrite(was, at, UnitBytes(units[..i]))
    {
      ghost var done := UnitBytes(units[..i]);
      UnitBytesGrow(units, i);
      OverwriteTwice(was, at, done, Le16(units[i]));
      assert offsets[i] == at + |done|;
      Put(entry, offsets[i], Le16(units[i]));
    }
    assert units[..|units|] == units;
  }

  lemma {:induction false} UnitBytesGrow(u: seq<unit>, i: nat)
    requires i < |u|
    ensures UnitBytes(u[..i + 1]) == UnitBytes(u[..i]) + Le16(u[i])
    decreases i
  {
    if i == 0 {
      assert u[..1] == [u[0]] && UnitBytes(u[..1][1..]) == [];
    } else {
      UnitBytesGrow(u[1..], i - 1);
      assert u[..i + 1][1..] == u[1..][..i] && u[..i][1..] == u[1..][..i - 1];
    }
  }

  method WriteLfnEntry(sequence: byte, units: seq<unit>, checksum: byte) returns (slot: Slot)
    requires |units| == UNITS_PER_SLOT
    ensures slot == LfnSlot(sequence, units, checksum)
  {
    var entry := new byte[SLOT_BYTES](_ => 0);
    entry[0] := sequence;
    entry[11] := 0x0F;
    entry[13] := checksum;
    entry[26] := 0;
    entry[27] := 0;
    ghost var a := entry[..];
    assert a[..1] == [sequence] && a[11..14] == [0x0F, 0, checksum] && a[26..28] == [0, 0];
    WriteLfnUnits(entry, [1, 3, 5, 7, 9], units[..5]);
    WriteLfnUnits(entry, [14, 16, 18, 20, 22, 24], units[5..11]);
    WriteLfnUnits(entry, [28, 30], units[11..]);
    FillGaps(a, UnitBytes(units[..5]), UnitBytes(units[5..11]), UnitBytes(units[11..]));
    slot := entry[..];
  }

  /** Stores into the three gaps leave the bytes between them. */
  lemma FillGaps<T>(a: seq<T>, x: seq<T>, y: seq<T>, z: seq<T>)
    requires |a| == SLOT_BYTES && |x| == 10 && |y| == 12 && |z| == 4
    ensures Overwrite(Overwrite(Overwrite(a, 1, x), 14, y), 28, z) == a[..1] + x + a[11..14] + y + a[26..28] + z
  {
    var p, g1, f, g2, e, g3 := a[..1], a[1..11], a[11..14], a[14..26], a[26..28], a[28..];
    assert a == p + g1 + (f + g2 + e + g3);
    FillFirst(p, g1, f + g2 + e + g3, x);
    FillSecond(p, x, f, g2, e, g3, y, z);
  }

  lemma FillFirst<T>(p: seq<T>, g1: seq<T>, rest: seq<T>, x: seq<T>)
    requires |x| == |g1|
    ensures Overwrite(p + g1 + rest, |p|, x) == p + x + rest
  {
  }

  lemma FillSecond<T>(p: seq<T>, x: seq<T>, f: seq<T>, g2: seq<T>, e: seq<T>, g3: seq<T>, y: seq<T>, z: seq<T>)
    requires |y| == |g2| && |z| == |g3|
    ensures var b := p + x + (f + g2 + e + g3);
      var c := Overwrite(b, |p| + |x| + |f|, y);
      Overwrite(c, |p| + |x| + |f| + |g2| + |e|, z) == p + x + f + y + e + z
  {
    var b := p + x + (f + g2 + e + g3);
    assert b == p + x + f + g2 + (e + g3);
    OverwriteBetween(p + x + f, g2, e + g3, y);
    var c := p + x + f + y + (e + g3);
    assert c == p + x + f + y + e + g3 + [];
    OverwriteBetween(p + x + f + y + e, g3, [], z);
    assert p + x + f + y + e + z + [] == p + x + f + y + e + z;
  }

  lemma OverwriteBetween<T>(head: seq<T>, s: seq<T>, tail: seq<T>, values: seq<T>)
    requires |values| == |s|
    ensures Overwrite(head + s + tail, |head|, values) == head + values + tail
  {
  }

  /** The entries of a long name, last part first; None when it needs more than 20. */
  method LfnEntries(name: string, checksum: byte) returns (r: Result<seq<Slot>, Error>)
    ensures LfnCount(name) <= MAX_LFN_SLOTS ==> r == Ok(LfnSlots(name, checksum))
    ensures LfnCount(name) > MAX_LFN_SLOTS ==> r == Err(TooLarge)
  {
    var units := CollectUnits(name);
    var chunks := |units| / UNITS_PER_SLOT;
    assert chunks == LfnCount(name) && |units| == chunks * UNITS_PER_SLOT;
    if chunks > MAX_LFN_SLOTS {
      return Err(TooLarge);
    }
    var entries := EntriesOf(units, chunks, checksum);
    r := Ok(entries);
  }

  method EntriesOf(units: seq<unit>, chunks: nat, checksum: byte) returns (entries: seq<Slot>)
    requires chunks <= MAX_LFN_SLOTS && |units| == chunks * UNITS_PER_SLOT
    ensures entries == LfnSlotsDownTo(units, chunks, 0, checksum)
  {
    entries := [];
    var index: nat := chunks;
    while index > 0
      invariant index <= chunks
      invariant entries == LfnSlotsDownTo(units, chunks, index, checksum)
      decreases index
    {
      index := index - 1;
      var order := index + 1;
      var sequence := if index == chunks - 1 then order + 0x40 else order;
      var entry := WriteLfnEntry(sequence, units[index * UNITS_PER_SLOT..(index + 1) * UNITS_PER_SLOT], checksum);
      entries := entries + [entry];
    }
  }

  /** The name's units, a zero, then filling until whole entries are full. */
  method CollectUnits(name: string) returns (units: seq<unit>)
    ensures units == NameUnits(name)
  {
    var named := Encode(name) + [0];
    units := named;
    ghost var filling := 0;
    ghost var n := (UNITS_PER_SLOT - |named| % UNITS_PER_SLOT) % UNITS_PER_SLOT;
    while |units| % UNITS_PER_SLOT != 0
      invariant filling <= n && units == named + seq(filling, _ => 0xFFFF)
      decreases n - filling
    {
      FillingNeeded(|named|, filling);
      units := units + [0xFFFF];
      filling := filling + 1;
    }
    FillingEnough(|named|, filling);
  }

  lemma FillingNeeded(length: nat, filling: nat)
    requires (length + filling) % UNITS_PER_SLOT != 0
    requires filling <= (UNITS_PER_SLOT - length % UNITS_PER_SLOT) % UNITS_PER_SLOT
    ensures filling < (UNITS_PER_SLOT - length % UNITS_PER_SLOT) % UNITS_PER_SLOT
  {
  }

  lemma FillingEnough(length: nat, filling: nat)
    requires (length + filling) % UNITS_PER_SLOT == 0
    requires filling <= (UNITS_PER_SLOT - length % UNITS_PER_SLOT) % UNITS_PER_SLOT
    ensures filling == (UNITS_PER_SLOT - length % UNITS_PER_SLOT) % UNITS_PER_SLOT
  {
  }

  // ---- Root directory ----

  lemma FlattenGrows(slots: seq<Slot>, slot: Slot)
    ensures Flatten(slots + [slot]) == Flatten(slots) + slot
  {
    assert (slots + [slot])[..|slots|] == slots;
  }

  /** Stores a slot behind those already written at `start`. */
  method PutSlot(image: array<byte>, entryOffset: nat, slot: Slot, ghost start: nat, ghost slots: seq<Slot>,
                 ghost was: seq<byte>)
    requires start + SLOT_BYTES * (|slots| + 1) <= |was| && entryOffset == start + SLOT_BYTES * |slots|
    requires image[..] == Overwrite(was, start, Flatten(slots))
    modifies image
    ensures image[..] == Overwrite(was, start, Flatten(slots + [slot]))
  {
    FlattenGrows(slots, slot);
    OverwriteTwice(was, start, Flatten(slots), slot);
    Put(image, entryOffset, slot);
  }

  method PutSlots(image: array<byte>, entryOffset: nat, entries: seq<Slot>, ghost start: nat, ghost slots: seq<Slot>,
                  ghost was: seq<byte>)
    requires start + SLOT_BYTES * (|slots| + |entries|) <= |was| && entryOffset == start + SLOT_BYTES * |slots|
    requires image[..] == Overwrite(was, start, Flatten(slots))
    modifies image
    ensures image[..] == Overwrite(was, start, Flatten(slots + entries))
  {
    assert slots + entries[..0] == slots;
    for i := 0 to |entries|
      invariant image[..] == Overwrite(was, start, Flatten(slots + entries[..i]))
    {
      PutSlot(image, entryOffset + SLOT_BYTES * i, entries[i], start, slots + entries[..i], was);
      assert slots + entries[..i] + [entries[i]] == slots + entries[..i + 1];
    }
    assert entries[..|entries|] == entries;
  }

  lemma {:induction false} ShortSlotStored(name: ShortName, first: unit, size: uint32)
    ensures var named := Overwrite(Zeros(SLOT_BYTES), 0, name)[11 := 0x20];
      Overwrite(Overwrite(named, 26, Le16(first)), 28, Le32(size)) == ShortSlot(name, first, size)
  {
    var named := Overwrite(Zeros(SLOT_BYTES), 0, name)[11 := 0x20];
    assert named == name + [0x20] + Zeros(14) + Zeros(2) + Zeros(4);
  }

  method WriteShortEntry(shortName: ShortName, firstCluster: unit, len: nat) returns (r: Result<Slot, Error>)
    ensures r == if len < 0x1_0000_0000 then Ok(ShortSlot(shortName, firstCluster, len)) else Err(TooLarge)
  {
    if len >= 0x1_0000_0000 {
      return Err(TooLarge);
    }
    var entry := new byte[SLOT_BYTES](_ => 0);
    assert entry[..] == Zeros(SLOT_BYTES);
    Put(entry, 0, shortName);
    entry[11] := 0x20;
    Put(entry, 26, Le16(firstCluster));
    Put(entry, 28, Le32(len));
    ShortSlotStored(shortName, firstCluster, len);
    r := Ok(entry[..]);
  }

  method WriteVolumeLabelEntry() returns (slot: Slot)
    ensures slot == VOLUME_SLOT
  {
    var entry := new byte[SLOT_BYTES](_ => 0);
    Put(entry, 0, VOLUME_LABEL);
    entry[11] := 0x08;
    assert entry[..] == VOLUME_SLOT;
    slot := entry[..];
  }

  /** The entries of one file, behind those of the files before it. */
  method WriteFileEntries(image: array<byte>, entryOffset: nat, f: SeedFile, chain: seq<unit>, ghost first: nat,
                          ghost start: nat, ghost slots: seq<Slot>, ghost was: seq<byte>)
    returns (next: nat, ok: bool)
    requires first + ClustersOfFile(f) <= 0xFFFF && chain == ChainOf(first, ClustersOfFile(f))
    requires start + SLOT_BYTES * (|slots| + MAX_LFN_SLOTS + 1) <= |was|
    requires entryOffset == start + SLOT_BYTES * |slots|
    requires image[..] == Overwrite(was, start, Flatten(slots))
    modifies image
    ensures ok <==> Writable(f)
    ensures ok ==> next == entryOffset + SLOT_BYTES * (LfnCount(f.longName) + 1)
    ensures ok ==> image[..] == Overwrite(was, start, Flatten(slots + FileSlots(f, first)))
  {
    next, ok := entryOffset, false;
    var checksum := LfnChecksum(f.shortName);
    var entries := LfnEntries(f.longName, checksum);
    if entries.Ok? {
      PutSlots(image, next, entries.value, start, slots, was);
      next := next + SLOT_BYTES * |entries.value|;
      var short := WriteShortEntry(f.shortName, if chain == [] then 0 else chain[0], |f.contents|);
      if short.Ok? {
        PutSlot(image, next, short.value, start, slots + entries.value, was);
        assert slots + entries.value + [short.value] == slots + FileSlots(f, first);
        next, ok := next + SLOT_BYTES, true;
      }
    }
  }

  lemma OneMoreWritable(files: seq<SeedFile>, i: nat)
    requires i < |files| && AllWritable(files[..i])
    ensures AllWritable(files[..i + 1]) <==> Writable(files[i])
    ensures !Writable(files[i]) ==> !AllWritable(files)
  {
    assert forall j :: 0 <= j < i ==> files[..i + 1][j] == files[..i][j];
    assert files[..i + 1][i] == files[i];
  }

  method WriteRootDirectory(image: array<byte>, l: Layout, files: seq<SeedFile>, chains: seq<seq<unit>>,
                            ghost was: seq<byte>)
    returns (ok: bool)
    requires NextCluster(files) <= 0xFFFF && chains == Chains(files) && image[..] == was
    requires RootStart(l) + SLOT_BYTES * (1 + (MAX_LFN_SLOTS + 1) * |files|) <= |was|
    modifies image
    ensures ok <==> AllWritable(files)
    ensures ok ==> SLOT_BYTES * (1 + EntryCount(files)) <= |was| - RootStart(l)
    ensures ok ==> image[..] == Overwrite(was, RootStart(l), Flatten(RootSlots(files)))
  {
    var rootStart := RootStart(l);
    assert Overwrite(was, rootStart, Flatten([])) == was;
    var slot := WriteVolumeLabelEntry();
    PutSlot(image, rootStart, slot, rootStart, [], was);
    var entryOffset := rootStart + SLOT_BYTES;
    ghost var slots := RootSlots(files[..0]);
    assert [] + [VOLUME_SLOT] == slots;
    ok := true;
    var i := 0;
    while ok && i < |files|
      invariant i <= |files| && (if ok then AllWritable(files[..i]) else !AllWritable(files))
      invariant NextCluster(files[..i]) <= 0xFFFF
      invariant ok ==> slots == RootSlots(files[..i]) && |slots| <= 1 + (MAX_LFN_SLOTS + 1) * i
      invariant ok ==> entryOffset == rootStart + SLOT_BYTES * |slots| <= |was|
      invariant ok ==> image[..] == Overwrite(was, rootStart, Flatten(slots))
      decreases ok, |files| - i
    {
      OneMoreWritable(files, i);
      ChainAt(files, i);
      entryOffset, ok := WriteFileEntries(image, entryOffset, files[i], chains[i], NextCluster(files[..i]),
                                          rootStart, slots, was);
      if ok {
        slots := slots + FileSlots(files[i], NextCluster(files[..i]));
        OneMoreEntry(files, i);
      }
      i := i + 1;
    }
    assert files[..|files|] == files;
  }

  lemma OneMoreEntry(files: seq<SeedFile>, i: nat)
    requires i < |files| && AllWritable(files[..i]) && Writable(files[i])
    requires NextCluster(files[..i + 1]) <= 0xFFFF && NextCluster(files[..i]) <= 0xFFFF
    ensures AllWritable(files[..i + 1])
    ensures RootSlots(files[..i + 1]) == RootSlots(files[..i]) + FileSlots(files[i], NextCluster(files[..i]))
  {
    OneMoreWritable(files, i);
    assert files[..i + 1][..i] == files[..i] && files[..i + 1][i] == files[i];
  }

  // ---- The whole image ----

  /** What is asked for is what the contents fill, and one more cluster for each empty file. */
  lemma {:induction false} ClustersSuffice(files: seq<SeedFile>)
    ensures NeededClusters(files) == NextCluster(files) - 2 + CountEmpty(files) && |files| <= NeededClusters(files)
    decreases |files|
  {
    if files != [] {
      ClustersSuffice(files[..|files| - 1]);
    }
  }

  lemma RoomIsLeft(files: seq<SeedFile>, l: Layout)
    requires SmallestLayout(NeededClusters(files)) == Ok(l)
    ensures RoomFor(l, files)
    ensures RootStart(l) + SLOT_BYTES * (1 + (MAX_LFN_SLOTS + 1) * |files|) <= l.totalSectors * BYTES_PER_SECTOR
  {
    ClustersSuffice(files);
    LayoutsAreConsistent(NeededClusters(files));
  }

  method BuildImage(files: seq<SeedFile>) returns (r: Result<array<byte>, Error>)
    ensures r.Ok? <==> NextCluster(files) - 2 + CountEmpty(files) <= MAX_CLUSTERS && AllWritable(files)
    ensures r.Ok? ==> Built(files, r.value[..])
  {
    var needed := SumOfClusters(files);
    ClustersSuffice(files);
    var layout := LayoutFor(needed);
    if layout.Err? {
      return Err(TooLarge);
    }
    var l := layout.value;
    RoomIsLeft(files, l);
    var image := new byte[l.totalSectors * BYTES_PER_SECTOR](_ => 0);
    ghost var blank := image[..];
    BlankRegions(blank, l, files);
    WriteBootSector(image, l, blank[BYTES_PER_SECTOR..]);
    BlankAfterBoot(l, files, image[..]);
    ghost var head := Boot(l) + Zeros((l.dataStartSector - 1) * BYTES_PER_SECTOR);
    var chains := WriteFileData(image, l, files, head, ClustersOf(l) * BYTES_PER_SECTOR);
    DataWritten(l, files, image[..]);
    WriteFats(image, l, chains, files, Boot(l), RootAndData(l, files));
    ghost var was := image[..];
    var ok := WriteRootDirectory(image, l, files, chains, was);
    if !ok {
      return Err(TooLarge);
    }
    SlotsWritten(l, files, was);
    r := Ok(image);
  }

  ghost predicate Built(files: seq<SeedFile>, image: seq<byte>) {
    && AllWritable(files) && SmallestLayout(NeededClusters(files)).Ok?
    && var l := SmallestLayout(NeededClusters(files)).value;
      && RoomFor(l, files) && SLOT_BYTES * (1 + EntryCount(files)) <= |RootAndData(l, files)|
      && image == Image(l, files)
  }

  method SumOfClusters(files: seq<SeedFile>) returns (sum: nat)
    ensures sum == NeededClusters(files)
  {
    sum := 0;
    for i := 0 to |files|
      invariant sum == NeededClusters(files[..i])
    {
      assert files[..i + 1][..i] == files[..i];
      sum := sum + ClusterCount(|files[i].contents|);
    }
    assert files[..|files|] == files;
  }

  lemma BlankRegions(blank: seq<byte>, l: Layout, files: seq<SeedFile>)
    requires RoomFor(l, files) && blank == Zeros(l.totalSectors * BYTES_PER_SECTOR)
    ensures |blank| >= BYTES_PER_SECTOR
    ensures blank[BYTES_PER_SECTOR..] == Zeros((l.totalSectors - 1) * BYTES_PER_SECTOR)
    ensures blank == Region([], [], BYTES_PER_SECTOR, blank[BYTES_PER_SECTOR..])
  {
  }

  lemma BlankAfterBoot(l: Layout, files: seq<SeedFile>, now: seq<byte>)
    requires RoomFor(l, files) && now == Boot(l) + Zeros((l.totalSectors - 1) * BYTES_PER_SECTOR)
    ensures now == Region(Boot(l) + Zeros((l.dataStartSector - 1) * BYTES_PER_SECTOR), [],
                          ClustersOf(l) * BYTES_PER_SECTOR, [])
  {
  }

  lemma DataWritten(l: Layout, files: seq<SeedFile>, now: seq<byte>)
    requires RoomFor(l, files)
    requires now == Region(Boot(l) + Zeros((l.dataStartSector - 1) * BYTES_PER_SECTOR), Data(files),
                           ClustersOf(l) * BYTES_PER_SECTOR, [])
    ensures now == Boot(l) + Zeros(2 * l.fatSectors * BYTES_PER_SECTOR) + RootAndData(l, files)
  {
    assert Zeros((l.dataStartSector - 1) * BYTES_PER_SECTOR)
        == Zeros(2 * l.fatSectors * BYTES_PER_SECTOR) + Zeros(ROOT_DIRECTORY_SECTORS * BYTES_PER_SECTOR);
  }

  lemma SlotsWritten(l: Layout, files: seq<SeedFile>, was: seq<byte>)
    requires RoomFor(l, files) && AllWritable(files)
    requires was == Boot(l) + Fat(l, files) + Fat(l, files) + RootAndData(l, files)
    requires SLOT_BYTES * (1 + EntryCount(files)) <= |RootAndData(l, files)|
    ensures Overwrite(was, RootStart(l), Flatten(RootSlots(files))) == Image(l, files)
  {
    OverwriteBehind(Boot(l) + Fat(l, files) + Fat(l, files), RootAndData(l, files), Flatten(RootSlots(files)));
  }

  lemma OverwriteBehind<T>(head: seq<T>, s: seq<T>, values: seq<T>)
    requires |values| <= |s|
    ensures Overwrite(head + s, |head|, values) == head + Overwrite(s, 0, values)
  {
  }
}
