/** A FAT16 reader gets the files back from every seed image, under conditions that can be checked beforehand. */
module SeedReadBack {
  import opened Buffers
  import opened Bytes
  import opened SeedDirectory
  import opened SeedImage
  import opened SeedLayout
  import opened Texts
  import opened Utf16
  import opened Wrappers
  import R = FatReader
  import W = SeedWriter

  function VolumeOf(l: Layout, copy: nat): R.Volume
    requires l.dataStartSector <= l.totalSectors
  {
    R.Volume(RootStart(l), ROOT_ENTRY_COUNT, TableStart(l, copy), ClustersOf(l), l.dataStartSector * BYTES_PER_SECTOR,
             SECTORS_PER_CLUSTER * BYTES_PER_SECTOR)
  }

  function TableStart(l: Layout, copy: nat): nat {
    if copy == 0 then BYTES_PER_SECTOR else (1 + l.fatSectors) * BYTES_PER_SECTOR
  }

  /** The three layouts there are. */
  predicate Standard(l: Layout) {
    l == Layout(8192, 4, 13) || l == Layout(16384, 8, 21) || l == Layout(32768, 16, 37)
  }

  // ---- Boot sector ----

  lemma {:induction false} GeometryFields()
    ensures GEOMETRY[11..13] == Le16(BYTES_PER_SECTOR) && GEOMETRY[13] == SECTORS_PER_CLUSTER
    ensures GEOMETRY[14..16] == Le16(RESERVED_SECTORS) && GEOMETRY[16] == FAT_COUNT
  {
    var g := JUMP_AND_NAME;
    assert |g| == 11;
  }

  lemma {:induction false} LayoutFields(l: Layout)
    requires Sized(l)
    ensures var b := BootFields(l);
      && b[..17] == GEOMETRY && b[17..19] == Le16(ROOT_ENTRY_COUNT)
      && b[19..21] == Le16(l.totalSectors) && b[21] == 0xF8 && b[22..24] == Le16(l.fatSectors)
  {
    var rest := Le16(32) + Le16(64) + Zeros(8) + [0x80] + Zeros(1) + [0x29] + Le32(0xA6D0_0001) + VOLUME_LABEL
      + TYPE_NAME;
    assert BootFields(l) ==
      GEOMETRY + Le16(ROOT_ENTRY_COUNT) + Le16(l.totalSectors) + [0xF8] + Le16(l.fatSectors) + rest;
  }

  lemma {:induction false} BootParses(l: Layout, image: seq<byte>, copy: nat)
    requires Standard(l) && |image| == l.totalSectors * BYTES_PER_SECTOR && image[..BYTES_PER_SECTOR] == Boot(l)
    requires copy < FAT_COUNT && Read16(image, TableStart(l, copy)) == 0xFFF8
    requires Read16(image, TableStart(l, copy) + 2) == END_OF_CHAIN
    ensures R.Parse(image, copy) == Some(VolumeOf(l, copy))
  {
    var b := BootFields(l);
    BootPrefix(l, image);
    GeometryFields();
    LayoutFields(l);
    assert b[11..13] == b[..17][11..13] && b[14..16] == b[..17][14..16];
    Field(image, b, 11, BYTES_PER_SECTOR);
    Field(image, b, 14, RESERVED_SECTORS);
    Field(image, b, 17, ROOT_ENTRY_COUNT);
    Field(image, b, 19, l.totalSectors);
    Field(image, b, 22, l.fatSectors);
    assert image[13] == image[..62][13] && image[16] == image[..62][16];
    assert b[13] == b[..17][13] && b[16] == b[..17][16];
    assert image[21] == image[..62][21];
    Located(l, copy);
  }

  lemma Located(l: Layout, copy: nat)
    requires Standard(l) && copy < FAT_COUNT
    ensures R.Locate(R.BootSector(BYTES_PER_SECTOR, SECTORS_PER_CLUSTER, RESERVED_SECTORS, FAT_COUNT, ROOT_ENTRY_COUNT,
                                  l.totalSectors, l.fatSectors), copy) == Some(VolumeOf(l, copy))
    ensures R.Inside(VolumeOf(l, copy), l.totalSectors * BYTES_PER_SECTOR)
  {
    assert copy == 0 || copy == 1;
  }

  lemma {:induction false} BootPrefix(l: Layout, image: seq<byte>)
    requires Sized(l) && |image| >= BYTES_PER_SECTOR && image[..BYTES_PER_SECTOR] == Boot(l)
    ensures image[..62] == BootFields(l) && image[510] == 0x55 && image[511] == 0xAA
  {
    assert image[..62] == Boot(l)[..62];
    assert image[510] == Boot(l)[510] && image[511] == Boot(l)[511];
  }

  lemma {:induction false} Field(image: seq<byte>, b: seq<byte>, at: nat, v: uint16)
    requires at + 2 <= |b| <= |image| && image[..|b|] == b && b[at..at + 2] == Le16(v)
    ensures Read16(image, at) == v
  {
    assert image[at..at + 2] == image[..|b|][at..at + 2];
    Read16Back(image, at, v);
  }

  // ---- Where the regions are ----

  lemma {:induction false} Regions(l: Layout, files: seq<SeedFile>, image: seq<byte>)
    requires RoomFor(l, files) && AllWritable(files)
    requires SLOT_BYTES * (1 + EntryCount(files)) <= |RootAndData(l, files)| && image == Image(l, files)
    ensures image[..BYTES_PER_SECTOR] == Boot(l)
    ensures var n := BYTES_PER_SECTOR + |Fat(l, files)|;
      && image[BYTES_PER_SECTOR..n] == Fat(l, files) && image[n..RootStart(l)] == Fat(l, files)
    ensures image[RootStart(l)..] == Overwrite(RootAndData(l, files), 0, Flatten(RootSlots(files)))
  {
    var fat, root := Fat(l, files), Overwrite(RootAndData(l, files), 0, Flatten(RootSlots(files)));
    Pieces(Boot(l), fat, fat, root);
    assert RootStart(l) == BYTES_PER_SECTOR + |fat| + |fat|;
  }

  lemma {:induction false} Pieces<T>(a: seq<T>, b: seq<T>, c: seq<T>, d: seq<T>)
    ensures var s := a + b + c + d;
      && s[..|a|] == a && s[|a|..|a| + |b|] == b && s[|a| + |b|..|a| + |b| + |c|] == c
      && s[|a| + |b| + |c|..] == d
  {
  }

  // ---- Root directory ----

  lemma {:induction false} FlattenAt(slots: seq<Slot>, i: nat)
    requires i < |slots|
    ensures Flatten(slots)[i * SLOT_BYTES..(i + 1) * SLOT_BYTES] == slots[i]
    decreases |slots|
  {
    var front := slots[..|slots| - 1];
    if i < |front| {
      FlattenAt(front, i);
      assert Flatten(slots)[..SLOT_BYTES * |front|] == Flatten(front);
      assert Flatten(slots)[i * SLOT_BYTES..(i + 1) * SLOT_BYTES]
          == Flatten(front)[i * SLOT_BYTES..(i + 1) * SLOT_BYTES];
    }
  }

  function BlankSlots(n: nat): (s: seq<Slot>)
    ensures |s| == n
  {
    seq(n, _ => Zeros(SLOT_BYTES))
  }

  lemma {:induction false} WalkBlank(n: nat, run: R.Run)
    ensures R.Walk(BlankSlots(n), run) == []
  {
    assert n > 0 ==> BlankSlots(n)[0][0] == 0;
  }

  /** The slots a reader finds: those written, as far as they fit, and blank ones after them. */
  function FoundSlots(files: seq<SeedFile>): seq<Slot>
    requires AllWritable(files) && NextCluster(files) <= 0xFFFF
  {
    var slots := RootSlots(files);
    if |slots| <= ROOT_ENTRY_COUNT then slots + BlankSlots(ROOT_ENTRY_COUNT - |slots|) else slots[..ROOT_ENTRY_COUNT]
  }

  lemma {:induction false} WrittenSlot(slots: seq<Slot>, rest: seq<byte>, i: nat)
    requires i < |slots|
    ensures (Flatten(slots) + rest)[i * SLOT_BYTES..(i + 1) * SLOT_BYTES] == slots[i]
  {
    FlattenAt(slots, i);
    var flat, from, to := Flatten(slots), i * SLOT_BYTES, (i + 1) * SLOT_BYTES;
    assert (flat + rest)[from..to] == flat[from..to];
  }

  lemma {:induction false} UnwrittenSlot(slots: seq<Slot>, root: seq<byte>, i: nat)
    requires |slots| <= i < ROOT_ENTRY_COUNT && ROOT_ENTRY_COUNT * SLOT_BYTES <= |root|
    requires forall k :: 0 <= k < ROOT_ENTRY_COUNT * SLOT_BYTES ==> root[k] == 0
    ensures Overwrite(root, 0, Flatten(slots))[i * SLOT_BYTES..(i + 1) * SLOT_BYTES] == Zeros(SLOT_BYTES)
  {
    var flat, from, to := Flatten(slots), i * SLOT_BYTES, (i + 1) * SLOT_BYTES;
    var tail := Overwrite(root, 0, flat);
    forall k | from <= k < to
      ensures tail[k] == 0
    {
      assert tail[k] == root[|flat|..][k - |flat|] == root[k];
    }
  }

  lemma {:induction false} RootIsBlank(l: Layout, files: seq<SeedFile>)
    requires RoomFor(l, files)
    ensures forall k :: 0 <= k < ROOT_ENTRY_COUNT * SLOT_BYTES ==> RootAndData(l, files)[k] == 0
  {
  }

  lemma {:induction false} SlotFound(root: seq<byte>, files: seq<SeedFile>, i: nat)
    requires AllWritable(files) && NextCluster(files) <= 0xFFFF && i < ROOT_ENTRY_COUNT
    requires SLOT_BYTES * |RootSlots(files)| <= |root| && ROOT_ENTRY_COUNT * SLOT_BYTES <= |root|
    requires forall k :: 0 <= k < ROOT_ENTRY_COUNT * SLOT_BYTES ==> root[k] == 0
    ensures Overwrite(root, 0, Flatten(RootSlots(files)))[i * SLOT_BYTES..(i + 1) * SLOT_BYTES] == FoundSlots(files)[i]
  {
    var slots := RootSlots(files);
    var flat := Flatten(slots);
    if i < |slots| {
      WrittenSlot(slots, root[|flat|..], i);
      assert Overwrite(root, 0, flat) == flat + root[|flat|..];
    } else {
      UnwrittenSlot(slots, root, i);
    }
  }

  lemma {:induction false} SlotFromStart(image: seq<byte>, start: nat, i: nat)
    requires start + (i + 1) * SLOT_BYTES <= |image|
    ensures R.SlotAt(image, start, i) == image[start..][i * SLOT_BYTES..(i + 1) * SLOT_BYTES]
  {
  }

  lemma {:induction false} DirectoryFound(image: seq<byte>, start: nat, root: seq<byte>, files: seq<SeedFile>)
    requires AllWritable(files) && NextCluster(files) <= 0xFFFF && start + |root| == |image|
    requires SLOT_BYTES * |RootSlots(files)| <= |root| && ROOT_ENTRY_COUNT * SLOT_BYTES <= |root|
    requires forall k :: 0 <= k < ROOT_ENTRY_COUNT * SLOT_BYTES ==> root[k] == 0
    requires image[start..] == Overwrite(root, 0, Flatten(RootSlots(files)))
    ensures R.Directory(image, start, ROOT_ENTRY_COUNT) == FoundSlots(files)
  {
    forall i: nat | i < ROOT_ENTRY_COUNT
      ensures R.SlotAt(image, start, i) == FoundSlots(files)[i]
    {
      SlotFromStart(image, start, i);
      SlotFound(root, files, i);
    }
  }

  predicate Fits(files: seq<SeedFile>) {
    1 + EntryCount(files) <= ROOT_ENTRY_COUNT
  }

  lemma {:induction false} EntriesFound(files: seq<SeedFile>)
    requires AllWritable(files) && NextCluster(files) <= 0xFFFF
    ensures Fits(files) && AllLive(files) ==> R.Walk(FoundSlots(files), R.NoRun) == SeenAll(files)
    ensures !Fits(files) || !AllLive(files) ==> |R.Walk(FoundSlots(files), R.NoRun)| < |files|
  {
    if !Fits(files) {
      TooFewReported(files, ROOT_ENTRY_COUNT, R.NoRun);
    } else if AllLive(files) {
      AllFound(files, ROOT_ENTRY_COUNT - |RootSlots(files)|);
    } else {
      NotAllFound(files, ROOT_ENTRY_COUNT - |RootSlots(files)|);
    }
  }

  lemma {:induction false} AllFound(files: seq<SeedFile>, blank: nat)
    requires AllWritable(files) && NextCluster(files) <= 0xFFFF && AllLive(files)
    ensures R.Walk(RootSlots(files) + BlankSlots(blank), R.NoRun) == SeenAll(files)
  {
    WalkFiles(files, BlankSlots(blank));
    WalkBlank(blank, R.NoRun);
    assert SeenAll(files) + [] == SeenAll(files);
  }

  lemma {:induction false} NotAllFound(files: seq<SeedFile>, blank: nat)
    requires AllWritable(files) && NextCluster(files) <= 0xFFFF && !AllLive(files)
    ensures |R.Walk(RootSlots(files) + BlankSlots(blank), R.NoRun)| < |files|
  {
    BlankIsNotReported(blank);
    CountAppends(RootSlots(files), BlankSlots(blank));
    WalkReports(RootSlots(files) + BlankSlots(blank), R.NoRun);
    FilesReported(files);
  }

  lemma {:induction false} BlankIsNotReported(n: nat)
    ensures CountReported(BlankSlots(n)) == 0
    decreases n
  {
    if n > 0 {
      BlankIsNotReported(n - 1);
      assert BlankSlots(n)[1..] == BlankSlots(n - 1) && BlankSlots(n)[0][0] == 0;
    }
  }

  // ---- Tables and clusters ----

  lemma {:induction false} ToBytesAt(values: seq<unit>, c: nat)
    requires c < |values|
    ensures ToBytes(values)[2 * c..2 * c + 2] == Le16(values[c])
    decreases |values|
  {
    var front := values[..|values| - 1];
    if c < |front| {
      ToBytesAt(front, c);
      assert ToBytes(values)[2 * c..2 * c + 2] == ToBytes(front)[2 * c..2 * c + 2];
    }
  }

  lemma {:induction false} FatValueRead(image: seq<byte>, start: nat, fat: seq<byte>, values: seq<unit>, c: nat)
    requires c < |values| && ToBytes(values) <= fat
    requires start + |fat| <= |image| && image[start..start + |fat|] == fat
    ensures Read16(image, start + 2 * c) == values[c]
  {
    ToBytesAt(values, c);
    assert fat[2 * c..2 * c + 2] == ToBytes(values)[2 * c..2 * c + 2];
    ReadInside(image, start, fat, 2 * c, values[c]);
  }

  /** What is laid out for the first files stays in front of what follows. */
  lemma {:induction false} Prefixes(files: seq<SeedFile>, i: nat)
    requires i <= |files| && NextCluster(files) <= 0xFFFF
    ensures NextCluster(files[..i]) <= NextCluster(files)
    ensures FatValues(files[..i]) <= FatValues(files) && Data(files[..i]) <= Data(files)
    decreases |files|
  {
    if i < |files| {
      Prefixes(files[..|files| - 1], i);
      assert files[..|files| - 1][..i] == files[..i];
    } else {
      assert files[..i] == files;
    }
  }

  lemma {:induction false} TablePart(files: seq<SeedFile>, i: nat)
    requires i < |files| && NextCluster(files) <= 0xFFFF
    ensures var first, n := NextCluster(files[..i]), ClustersOfFile(files[i]);
      first + n <= NextCluster(files) && FatValues(files)[first..first + n] == ChainValues(first, n)
  {
    W.OneMoreFile(files, i);
    Prefixes(files, i + 1);
    var chain := ChainValues(NextCluster(files[..i]), ClustersOfFile(files[i]));
    InTheMiddle(FatValues(files[..i]), chain, FatValues(files));
  }

  lemma {:induction false} DataPart(files: seq<SeedFile>, i: nat)
    requires i < |files| && NextCluster(files) <= 0xFFFF
    ensures var from, p := |Data(files[..i])|, Padded(files[i].contents);
      from + |p| <= |Data(files)| && Data(files)[from..from + |p|] == p
  {
    W.OneMoreFile(files, i);
    Prefixes(files, i + 1);
    InTheMiddle(Data(files[..i]), Padded(files[i].contents), Data(files));
  }

  lemma {:induction false} InTheMiddle<T>(a: seq<T>, b: seq<T>, s: seq<T>)
    requires a + b <= s
    ensures s[|a|..|a| + |b|] == b
  {
    assert s[|a|..|a| + |b|] == (a + b)[|a|..];
  }

  /** What the table and the clusters of a volume hold. */
  ghost predicate Holds(image: seq<byte>, v: R.Volume, files: seq<SeedFile>) {
    && R.Inside(v, |image|) && v.clusterBytes == BYTES_PER_SECTOR && NextCluster(files) <= v.clusters + 2
    && NextCluster(files) <= 0xFFFF && v.clusters < 65525
    && (forall c :: 0 <= c < NextCluster(files) ==> R.FatEntry(image, v, c) == FatValues(files)[c])
    && (forall c :: 2 <= c < NextCluster(files) ==> R.ClusterAt(image, v, c) == ClusterOfData(files, c))
  }

  function ClusterOfData(files: seq<SeedFile>, c: nat): seq<byte>
    requires 2 <= c < NextCluster(files)
  {
    Data(files)[(c - 2) * BYTES_PER_SECTOR..(c - 1) * BYTES_PER_SECTOR]
  }

  lemma {:induction false} BehindOverwrite<T>(root: seq<T>, flat: seq<T>, at: nat, to: nat)
    requires |flat| <= at <= to <= |root|
    ensures Overwrite(root, 0, flat)[at..to] == root[at..to]
  {
  }

  lemma {:induction false} InnerSlice<T>(a: seq<T>, b: seq<T>, c: seq<T>, from: nat, to: nat)
    requires from <= to <= |b|
    ensures (a + b + c)[|a| + from..|a| + to] == b[from..to]
  {
  }

  lemma {:induction false} ClusterFound(l: Layout, files: seq<SeedFile>, image: seq<byte>, flat: seq<byte>, c: nat)
    requires RoomFor(l, files) && 2 <= c < NextCluster(files) && |image| == l.totalSectors * BYTES_PER_SECTOR
    requires |flat| <= ROOT_ENTRY_COUNT * SLOT_BYTES && RootStart(l) <= |image|
    requires image[RootStart(l)..] == Overwrite(RootAndData(l, files), 0, flat)
    ensures var start := (l.dataStartSector + c - 2) * BYTES_PER_SECTOR;
      start + BYTES_PER_SECTOR <= |image| && image[start..start + BYTES_PER_SECTOR] == ClusterOfData(files, c)
  {
    var root, size := RootAndData(l, files), ROOT_ENTRY_COUNT * SLOT_BYTES;
    var from, to := (c - 2) * BYTES_PER_SECTOR, (c - 1) * BYTES_PER_SECTOR;
    InnerSlice(Zeros(size), Data(files),
               Zeros((l.totalSectors - l.dataStartSector + 2 - NextCluster(files)) * BYTES_PER_SECTOR), from, to);
    BehindOverwrite(root, flat, size + from, size + to);
    SliceOfSlice(image, RootStart(l), |image|, size + from, size + to);
    assert image[RootStart(l)..|image|] == image[RootStart(l)..];
  }

  lemma {:induction false} TableFound(l: Layout, files: seq<SeedFile>, image: seq<byte>, copy: nat, c: nat)
    requires RoomFor(l, files) && copy < FAT_COUNT && c < NextCluster(files) && RootStart(l) <= |image|
    requires var n := BYTES_PER_SECTOR + |Fat(l, files)|;
      image[BYTES_PER_SECTOR..n] == Fat(l, files) && image[n..RootStart(l)] == Fat(l, files)
    ensures TableStart(l, copy) + 2 * c + 2 <= |image|
    ensures Read16(image, TableStart(l, copy) + 2 * c) == FatValues(files)[c]
  {
    FatValueRead(image, TableStart(l, copy), Fat(l, files), FatValues(files), c);
  }

  lemma {:induction false} ReservedEntries(files: seq<SeedFile>)
    requires NextCluster(files) <= 0xFFFF
    ensures FatValues(files)[0] == 0xFFF8 && FatValues(files)[1] == END_OF_CHAIN
  {
    Prefixes(files, 0);
    var front := FatValues(files[..0]);
    assert front == [0xFFF8, END_OF_CHAIN];
  }

  lemma {:induction false} TableStarts(l: Layout, files: seq<SeedFile>, image: seq<byte>, copy: nat)
    requires RoomFor(l, files) && copy < FAT_COUNT && RootStart(l) <= |image|
    requires var n := BYTES_PER_SECTOR + |Fat(l, files)|;
      image[BYTES_PER_SECTOR..n] == Fat(l, files) && image[n..RootStart(l)] == Fat(l, files)
    ensures TableStart(l, copy) + 4 <= |image|
    ensures Read16(image, TableStart(l, copy)) == 0xFFF8 && Read16(image, TableStart(l, copy) + 2) == END_OF_CHAIN
  {
    ReservedEntries(files);
    TableFound(l, files, image, copy, 0);
    TableFound(l, files, image, copy, 1);
  }

  lemma {:induction false} ImageHolds(l: Layout, files: seq<SeedFile>, image: seq<byte>, copy: nat)
    requires Standard(l) && RoomFor(l, files) && AllWritable(files) && Fits(files) && copy < FAT_COUNT
    requires SLOT_BYTES * (1 + EntryCount(files)) <= |RootAndData(l, files)| && image == Image(l, files)
    ensures Holds(image, VolumeOf(l, copy), files)
  {
    var v := VolumeOf(l, copy);
    Regions(l, files, image);
    Located(l, copy);
    forall c | 0 <= c < NextCluster(files)
      ensures R.FatEntry(image, v, c) == FatValues(files)[c]
    {
      TableFound(l, files, image, copy, c);
    }
    forall c | 2 <= c < NextCluster(files)
      ensures R.ClusterAt(image, v, c) == ClusterOfData(files, c)
    {
      ClusterFound(l, files, image, Flatten(RootSlots(files)), c);
    }
  }

  // ---- Contents ----

  /** The `j`th of `n` clusters from `first` on is inside the volume, holds its share of `p` and points on. */
  ghost predicate Linked(image: seq<byte>, v: R.Volume, first: nat, p: seq<byte>, n: nat, j: nat)
    requires R.Inside(v, |image|) && j < n && |p| == n * BYTES_PER_SECTOR
  {
    var c := first + j;
    && 2 <= c < v.clusters + 2 < 65527
    && R.ClusterAt(image, v, c) == p[j * BYTES_PER_SECTOR..(j + 1) * BYTES_PER_SECTOR]
    && R.FatEntry(image, v, c) == if j + 1 == n then END_OF_CHAIN else c + 1
  }

  /** Following a chain from its `j`th cluster gives the rest of what it holds. */
  lemma {:induction false} FollowChain(image: seq<byte>, v: R.Volume, first: nat, p: seq<byte>, n: nat, j: nat,
                                       most: nat)
    requires R.Inside(v, |image|) && |p| == n * BYTES_PER_SECTOR && j < n <= j + most
    requires forall k: nat :: k < n ==> Linked(image, v, first, p, n, k)
    ensures R.Follow(image, v, first + j, most) == Some(p[j * BYTES_PER_SECTOR..])
    decreases most
  {
    assert Linked(image, v, first, p, n, j);
    if j + 1 < n {
      FollowChain(image, v, first, p, n, j + 1, most - 1);
      SplitAt(p, j * BYTES_PER_SECTOR, (j + 1) * BYTES_PER_SECTOR);
    } else {
      assert p[j * BYTES_PER_SECTOR..(j + 1) * BYTES_PER_SECTOR] == p[j * BYTES_PER_SECTOR..];
    }
  }

  lemma {:induction false} ShareAt<T>(d: seq<T>, first: nat, p: seq<T>, j: nat, c: nat)
    requires 2 <= first && (first - 2) * BYTES_PER_SECTOR + |p| <= |d| && (j + 1) * BYTES_PER_SECTOR <= |p|
    requires var from := (first - 2) * BYTES_PER_SECTOR; d[from..from + |p|] == p
    requires c == first + j
    ensures d[(c - 2) * BYTES_PER_SECTOR..(c - 1) * BYTES_PER_SECTOR]
         == p[j * BYTES_PER_SECTOR..(j + 1) * BYTES_PER_SECTOR]
  {
    var from := (first - 2) * BYTES_PER_SECTOR;
    SliceOfSlice(d, from, from + |p|, j * BYTES_PER_SECTOR, (j + 1) * BYTES_PER_SECTOR);
  }

  lemma {:induction false} ShareOfFile(files: seq<SeedFile>, i: nat, j: nat, first: nat, c: nat, p: seq<byte>)
    requires i < |files| && NextCluster(files) <= 0xFFFF && j < ClustersOfFile(files[i])
    requires first == NextCluster(files[..i]) && c == first + j && p == Padded(files[i].contents)
    ensures c < NextCluster(files) && ClusterOfData(files, c) == p[j * BYTES_PER_SECTOR..(j + 1) * BYTES_PER_SECTOR]
  {
    TablePart(files, i);
    DataPart(files, i);
    ShareAt(Data(files), first, p, j, c);
  }

  lemma {:induction false} FileLinked(image: seq<byte>, v: R.Volume, files: seq<SeedFile>, i: nat, j: nat,
                                      first: nat, p: seq<byte>, n: nat)
    requires Holds(image, v, files) && i < |files| && n == ClustersOfFile(files[i]) && j < n
    requires first == NextCluster(files[..i]) && p == Padded(files[i].contents)
    ensures Linked(image, v, first, p, n, j)
  {
    var c := first + j;
    ValueOfFile(files, i, j, first, n);
    ShareOfFile(files, i, j, first, c, p);
    assert R.ClusterAt(image, v, c) == ClusterOfData(files, c);
    assert R.FatEntry(image, v, c) == FatValues(files)[c];
  }

  lemma {:induction false} ValueOfFile(files: seq<SeedFile>, i: nat, j: nat, first: nat, n: nat)
    requires i < |files| && NextCluster(files) <= 0xFFFF && n == ClustersOfFile(files[i]) && j < n
    requires first == NextCluster(files[..i])
    ensures first + n <= NextCluster(files)
    ensures FatValues(files)[first + j] == if j + 1 == n then END_OF_CHAIN else first + j + 1
  {
    TablePart(files, i);
    var values := FatValues(files);
    assert values[first + j] == values[first..first + n][j];
  }

  lemma {:induction false} ContentsOfChain(image: seq<byte>, v: R.Volume, f: SeedFile, first: nat)
    requires R.Inside(v, |image|) && 2 <= first && ClustersOfFile(f) <= v.clusters
    requires forall k: nat :: k < ClustersOfFile(f) ==>
      Linked(image, v, first, Padded(f.contents), ClustersOfFile(f), k)
    ensures R.Contents(image, v, Seen(f, first)) == Some(f.contents)
  {
    if f.contents != [] {
      var p := Padded(f.contents);
      FollowChain(image, v, first, p, ClustersOfFile(f), 0, v.clusters);
      assert p[0..] == p && p[..|f.contents|] == f.contents;
    }
  }

  lemma {:induction false} ContentsRead(image: seq<byte>, v: R.Volume, files: seq<SeedFile>, i: nat)
    requires Holds(image, v, files) && i < |files|
    ensures R.Contents(image, v, Seen(files[i], NextCluster(files[..i]))) == Some(files[i].contents)
  {
    var f, first := files[i], NextCluster(files[..i]);
    var p, n := Padded(f.contents), ClustersOfFile(f);
    forall k: nat | k < n
      ensures Linked(image, v, first, p, n, k)
    {
      FileLinked(image, v, files, i, k, first, p, n);
    }
    TablePart(files, i);
    ContentsOfChain(image, v, f, first);
  }

  lemma {:induction false} SeenAt(files: seq<SeedFile>, i: nat)
    requires i < |files|
    ensures SeenAll(files)[i] == Seen(files[i], NextCluster(files[..i]))
    decreases |files|
  {
    var front := files[..|files| - 1];
    if i < |front| {
      SeenAt(front, i);
      assert front[..i] == files[..i];
    } else {
      assert files[..i] == front;
    }
  }

  function ReadFile(e: R.Entry, contents: seq<byte>): R.File {
    R.File(e.longName, e.shortName, e.attribute, contents)
  }

  lemma {:induction false} FilesOf(image: seq<byte>, v: R.Volume, entries: seq<R.Entry>, files: seq<R.File>)
    requires R.Inside(v, |image|) && |files| == |entries|
    requires forall i :: 0 <= i < |entries| ==> R.Contents(image, v, entries[i]) == Some(files[i].contents)
    requires forall i :: 0 <= i < |entries| ==> files[i] == ReadFile(entries[i], files[i].contents)
    ensures R.Files(image, v, entries) == Some(files)
    decreases |entries|
  {
    if entries != [] {
      FilesOf(image, v, entries[1..], files[1..]);
      assert files == [files[0]] + files[1..];
    }
  }

  // ---- The theorem ----

  /** An ordinary file, not yet archived: neither directory nor label, not read-only, hidden or of the system. */
  function ExpectedFile(f: SeedFile): R.File {
    R.File(Some(f.longName), f.shortName, 0x20, f.contents)
  }

  /** The files as a reader that loses nothing reports them. */
  function Expected(files: seq<SeedFile>): (r: seq<R.File>)
    ensures |r| == |files|
  {
    seq(|files|, i requires 0 <= i < |files| => ExpectedFile(files[i]))
  }

  /** Checkable before writing: the slots fit, no name contains NUL, no short name starts with a mark. */
  predicate Readable(files: seq<SeedFile>) {
    Fits(files) && forall i :: 0 <= i < |files| ==> Faithful(files[i])
  }

  lemma {:induction false} ReadFits(image: seq<byte>, v: R.Volume, files: seq<SeedFile>)
    requires Holds(image, v, files) && AllLive(files)
    ensures R.Files(image, v, SeenAll(files)) == Some(Expected(files))
      <==> forall i :: 0 <= i < |files| ==> Faithful(files[i])
  {
    var entries := SeenAll(files);
    var read := seq(|files|, i requires 0 <= i < |files| => ReadFile(entries[i], files[i].contents));
    forall i | 0 <= i < |files|
      ensures R.Contents(image, v, entries[i]) == Some(files[i].contents)
      ensures read[i] == Expected(files)[i] <==> Faithful(files[i])
    {
      SeenAt(files, i);
      ContentsRead(image, v, files, i);
      SeenNames(files[i]);
    }
    FilesOf(image, v, entries, read);
    assert read == Expected(files) <==> forall i :: 0 <= i < |files| ==> read[i] == Expected(files)[i];
  }

  lemma {:induction false} LayoutsAreStandard(files: seq<SeedFile>)
    requires SmallestLayout(NeededClusters(files)).Ok?
    ensures Standard(SmallestLayout(NeededClusters(files)).value)
  {
  }

  /**
   * From either copy of the table, a reader of a built image gets exactly the files that were written, with their
   * long names, short names and contents in order, if and only if they are readable.
   */
  lemma {:induction false} SeedFilesReadBack(files: seq<SeedFile>, image: seq<byte>, copy: nat)
    requires W.Built(files, image) && copy < FAT_COUNT
    ensures R.Read(image, copy) == Some(Expected(files)) <==> Readable(files)
  {
    LayoutsAreStandard(files);
    var l := SmallestLayout(NeededClusters(files)).value;
    var root := RootAndData(l, files);
    Regions(l, files, image);
    TableStarts(l, files, image, copy);
    BootParses(l, image, copy);
    RootIsBlank(l, files);
    DirectoryFound(image, RootStart(l), root, files);
    EntriesFound(files);
    assert R.Read(image, copy) == R.Files(image, VolumeOf(l, copy), R.Walk(FoundSlots(files), R.NoRun));
    if Fits(files) && AllLive(files) {
      ImageHolds(l, files, image, copy);
      ReadFits(image, VolumeOf(l, copy), files);
    }
  }

  // ---- The label ----

  lemma {:induction false} LabelComesFirst(files: seq<SeedFile>)
    requires AllWritable(files) && NextCluster(files) <= 0xFFFF
    ensures RootSlots(files)[0] == VOLUME_SLOT
    decreases |files|
  {
    if files != [] {
      LabelComesFirst(files[..|files| - 1]);
    }
  }

  /** The label cloud-init looks for. */
  predicate SaysCidata(name: seq<byte>) {
    |name| == 11 && forall i :: 0 <= i < 11 ==> name[i] == "CIDATA     "[i] as int
  }

  /** A volume is found by its label, which the root directory and the boot sector give alike. */
  lemma {:induction false} LabelReadsBack(files: seq<SeedFile>, image: seq<byte>, copy: nat)
    requires W.Built(files, image) && copy < FAT_COUNT
    ensures |image| >= 54 && R.ReadLabel(image, copy) == Some(image[43..54]) && SaysCidata(image[43..54])
  {
    LayoutsAreStandard(files);
    var l := SmallestLayout(NeededClusters(files)).value;
    Regions(l, files, image);
    TableStarts(l, files, image, copy);
    BootParses(l, image, copy);
    RootIsBlank(l, files);
    DirectoryFound(image, RootStart(l), RootAndData(l, files), files);
    LabelFound(files);
    LabelInBoot(l, image);
  }

  lemma {:induction false} LabelFound(files: seq<SeedFile>)
    requires AllWritable(files) && NextCluster(files) <= 0xFFFF
    ensures R.LabelOf(FoundSlots(files)) == Some(VOLUME_LABEL) && SaysCidata(VOLUME_LABEL)
  {
    LabelComesFirst(files);
    LabelSlot();
    assert FoundSlots(files)[0] == VOLUME_SLOT;
  }

  lemma {:induction false} LabelInBoot(l: Layout, image: seq<byte>)
    requires Sized(l) && |image| >= BYTES_PER_SECTOR && image[..BYTES_PER_SECTOR] == Boot(l)
    ensures image[43..54] == VOLUME_LABEL
  {
    IdentityFields(l);
    BootPrefix(l, image);
    assert image[43..54] == image[..62][43..54];
  }

  lemma {:induction false} LabelSlot()
    ensures VOLUME_SLOT[0] != 0 && VOLUME_SLOT[0] != 0xE5 && R.IsVolumeLabel(VOLUME_SLOT)
    ensures VOLUME_SLOT[..11] == VOLUME_LABEL && SaysCidata(VOLUME_LABEL)
  {
    assert VOLUME_SLOT[11] == 0x08;
  }

  lemma {:induction false} IdentityFields(l: Layout)
    requires Sized(l)
    ensures BootFields(l)[43..54] == VOLUME_LABEL
  {
    var front := GEOMETRY + Le16(ROOT_ENTRY_COUNT) + Le16(l.totalSectors) + [0xF8] + Le16(l.fatSectors)
      + Le16(32) + Le16(64) + Zeros(8) + [0x80] + Zeros(1) + [0x29] + Le32(0xA6D0_0001);
    assert |front| == 43 && BootFields(l) == front + VOLUME_LABEL + TYPE_NAME;
  }

  // ---- The unchecked directory size ----

  function EmptyFiles(n: nat): (files: seq<SeedFile>)
    ensures |files| == n
  {
    seq(n, _ => SeedFile("", VOLUME_LABEL, []))
  }

  lemma {:induction false} EmptyFilesCount(n: nat)
    ensures AllWritable(EmptyFiles(n)) && EntryCount(EmptyFiles(n)) == 2 * n && NeededClusters(EmptyFiles(n)) == n
    decreases n
  {
    assert LfnCount("") == 1 by {
      assert |Encode("") + [0]| == 1;
    }
    if n > 0 {
      EmptyFilesCount(n - 1);
      assert EmptyFiles(n)[..n - 1] == EmptyFiles(n - 1);
    }
  }

  /** 256 empty files are accepted although their slots do not fit the root directory, which is not noticed. */
  lemma {:induction false} DirectoryOverflowIsAccepted()
    ensures NeededClusters(EmptyFiles(256)) <= MAX_CLUSTERS && AllWritable(EmptyFiles(256))
    ensures !Readable(EmptyFiles(256))
  {
    EmptyFilesCount(256);
  }

  /** The image of those files is built, and from neither table are they all read back. */
  method BuildOverflow() returns (image: array<byte>)
    ensures W.Built(EmptyFiles(256), image[..])
    ensures forall copy: nat :: copy < FAT_COUNT ==> R.Read(image[..], copy) != Some(Expected(EmptyFiles(256)))
  {
    DirectoryOverflowIsAccepted();
    W.ClustersSuffice(EmptyFiles(256));
    var r := W.BuildImage(EmptyFiles(256));
    image := r.value;
    forall copy: nat | copy < FAT_COUNT
      ensures R.Read(image[..], copy) != Some(Expected(EmptyFiles(256)))
    {
      SeedFilesReadBack(EmptyFiles(256), image[..], copy);
    }
  }

  // ---- The three cloud-init files ----

  const META_DATA: ShortName := [0x4D, 0x45, 0x54, 0x41, 0x44, 0x41, 0x7E, 0x31, 0x20, 0x20, 0x20] // "METADA~1   "
  const NETWORK_CONFIG: ShortName := [0x4E, 0x45, 0x54, 0x57, 0x4F, 0x52, 0x7E, 0x31, 0x20, 0x20, 0x20] // "NETWOR~1   "
  const USER_DATA: ShortName := [0x55, 0x53, 0x45, 0x52, 0x44, 0x41, 0x7E, 0x31, 0x20, 0x20, 0x20] // "USERDA~1   "

  predicate CloudInitFiles(files: seq<SeedFile>) {
    && |files| == 3
    && files[0].longName == "meta-data" && files[0].shortName == META_DATA
    && files[1].longName == "network-config" && files[1].shortName == NETWORK_CONFIG
    && files[2].longName == "user-data" && files[2].shortName == USER_DATA
  }

  lemma {:induction false} OneUnitEach(s: string)
    requires forall i :: 0 <= i < |s| ==> s[i] as int < 0x1_0000
    ensures |Encode(s)| == |s|
  {
    if s != "" {
      OneUnitEach(s[1..]);
    }
  }

  lemma {:induction false} SlotsOfName(name: string)
    requires forall i :: 0 <= i < |name| ==> name[i] as int < 0x1_0000
    ensures LfnCount(name) == |name| / UNITS_PER_SLOT + 1
  {
    OneUnitEach(name);
    assert |Encode(name) + [0]| == |name| + 1;
  }

  lemma {:induction false} OneMoreCounted(files: seq<SeedFile>, f: SeedFile)
    ensures EntryCount(files + [f]) == EntryCount(files) + LfnCount(f.longName) + 1
  {
    assert (files + [f])[..|files|] == files;
  }

  lemma {:induction false} ThreeFilesFit(a: SeedFile, b: SeedFile, c: SeedFile)
    requires |a.longName| == 9 && |b.longName| == 14 && |c.longName| == 9
    requires forall i :: 0 <= i < 9 ==> a.longName[i] as int < 0x1_0000 && c.longName[i] as int < 0x1_0000
    requires forall i :: 0 <= i < 14 ==> b.longName[i] as int < 0x1_0000
    ensures EntryCount([a, b, c]) == 7
  {
    OneMoreCounted([], a);
    OneMoreCounted([a], b);
    OneMoreCounted([a, b], c);
    assert [] + [a] == [a] && [a] + [b] == [a, b] && [a, b] + [c] == [a, b, c];
    SlotsOfName(a.longName);
    SlotsOfName(b.longName);
    SlotsOfName(c.longName);
  }

  lemma {:induction false} CloudInitReadable(files: seq<SeedFile>)
    requires CloudInitFiles(files)
    ensures Readable(files)
  {
    ThreeFilesFit(files[0], files[1], files[2]);
    assert files == [files[0], files[1], files[2]];
    NamesAreFaithful(files[0], files[1], files[2]);
  }

  lemma {:induction false} NamesAreFaithful(a: SeedFile, b: SeedFile, c: SeedFile)
    requires a.longName == "meta-data" && b.longName == "network-config" && c.longName == "user-data"
    requires a.shortName == META_DATA && b.shortName == NETWORK_CONFIG && c.shortName == USER_DATA
    ensures Faithful(a) && Faithful(b) && Faithful(c)
  {
    NamesAreNulFree();
  }

  lemma {:induction false} NamesAreNulFree()
    ensures NulFree("meta-data") && NulFree("network-config") && NulFree("user-data")
  {
  }

  /** Without extra files nothing can go wrong: whatever the contents, an image that is built reads back. */
  lemma {:induction false} CloudInitReadsBack(files: seq<SeedFile>, image: seq<byte>, copy: nat)
    requires CloudInitFiles(files) && W.Built(files, image) && copy < FAT_COUNT
    ensures R.Read(image, copy) == Some(Expected(files))
  {
    CloudInitReadable(files);
    SeedFilesReadBack(files, image, copy);
  }
}
