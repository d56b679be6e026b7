/** The bytes of a FAT16 seed image, region by region. */
module SeedImage {
  import opened Buffers
  import opened Bytes
  import opened SeedLayout
  import opened Utf16

  const END_OF_CHAIN: unit := 0xFFFF
  const VOLUME_LABEL: seq<byte> := [0x43, 0x49, 0x44, 0x41, 0x54, 0x41, 0x20, 0x20, 0x20, 0x20, 0x20] // "CIDATA     "
  const MAX_LFN_SLOTS: nat := 20
  const UNITS_PER_SLOT: nat := 13

  type ShortName = s: seq<byte> | |s| == 11 witness [0x43, 0x49, 0x44, 0x41, 0x54, 0x41, 0x20, 0x20, 0x20, 0x20, 0x20]

  datatype SeedFile = SeedFile(longName: string, shortName: ShortName, contents: seq<byte>)

  // ---- Boot sector ----

  /** The fields before the file system type, in order; the gaps are zero. */
  function BootFields(l: Layout): (b: seq<byte>)
    requires l.totalSectors <= U16_MAX && l.fatSectors <= U16_MAX
    ensures |b| == 62
  {
    GEOMETRY + Le16(ROOT_ENTRY_COUNT) + Le16(l.totalSectors) + [0xF8] + Le16(l.fatSectors) + Le16(32) + Le16(64)
    + Zeros(8) + [0x80] + Zeros(1) + [0x29] + Le32(0xA6D0_0001) + VOLUME_LABEL + TYPE_NAME
  }

  /** The jump, the name and the sizes that no layout changes. */
  const GEOMETRY: seq<byte> := JUMP_AND_NAME
    + Le16(BYTES_PER_SECTOR) + [SECTORS_PER_CLUSTER] + Le16(RESERVED_SECTORS) + [FAT_COUNT]

  const JUMP_AND_NAME: seq<byte> := [0xEB, 0x3C, 0x90] + OEM_NAME

  const OEM_NAME: seq<byte> := [0x4D, 0x53, 0x44, 0x4F, 0x53, 0x35, 0x2E, 0x30] // "MSDOS5.0"
  const TYPE_NAME: seq<byte> := [0x46, 0x41, 0x54, 0x31, 0x36, 0x20, 0x20, 0x20] // "FAT16   "

  function Boot(l: Layout): (b: seq<byte>)
    requires l.totalSectors <= U16_MAX && l.fatSectors <= U16_MAX
    ensures |b| == BYTES_PER_SECTOR
  {
    BootFields(l) + Zeros(448) + [0x55, 0xAA] + Zeros(BYTES_PER_SECTOR - 512)
  }

  // ---- Clusters ----

  /** The clusters a file's contents are cut into; none for an empty file. */
  function ClustersOfFile(f: SeedFile): nat {
    CeilDiv(|f.contents|, BYTES_PER_SECTOR)
  }

  /** The clusters that are set aside for it: at least one. */
  function ClusterCount(len: nat): nat {
    var n := CeilDiv(len, BYTES_PER_SECTOR * SECTORS_PER_CLUSTER);
    if n == 0 then 1 else n
  }

  function NeededClusters(files: seq<SeedFile>): nat {
    if files == [] then 0 else NeededClusters(files[..|files| - 1]) + ClusterCount(|files[|files| - 1].contents|)
  }

  /** The files without contents. */
  function CountEmpty(files: seq<SeedFile>): nat {
    if files == [] then 0
    else CountEmpty(files[..|files| - 1]) + if files[|files| - 1].contents == [] then 1 else 0
  }

  /** No cluster of a file is left without contents. */
  lemma {:induction false} ClustersAreFewest(f: SeedFile)
    ensures |f.contents| <= ClustersOfFile(f) * BYTES_PER_SECTOR < |f.contents| + BYTES_PER_SECTOR
  {
  }

  /** The first cluster not used by these files. */
  function NextCluster(files: seq<SeedFile>): (c: nat)
    ensures c >= 2
  {
    if files == [] then 2 else NextCluster(files[..|files| - 1]) + ClustersOfFile(files[|files| - 1])
  }

  /** The contents, filled up with zeros to whole clusters. */
  function Padded(contents: seq<byte>): (p: seq<byte>)
    ensures |p| == CeilDiv(|contents|, BYTES_PER_SECTOR) * BYTES_PER_SECTOR && contents <= p
  {
    var n := CeilDiv(|contents|, BYTES_PER_SECTOR) * BYTES_PER_SECTOR;
    contents + Zeros(n - |contents|)
  }

  function Data(files: seq<SeedFile>): (d: seq<byte>)
    ensures |d| == (NextCluster(files) - 2) * BYTES_PER_SECTOR
  {
    if files == [] then [] else Data(files[..|files| - 1]) + Padded(files[|files| - 1].contents)
  }

  // ---- Tables ----

  /** The entries of a chain of `n` clusters from `first` on: each points to the next, the last ends it. */
  function ChainValues(first: nat, n: nat): (v: seq<unit>)
    requires first + n <= 0x1_0000
    ensures |v| == n
  {
    seq(n, i requires 0 <= i < n => if i == n - 1 then END_OF_CHAIN else first + i + 1)
  }

  function FatValues(files: seq<SeedFile>): (v: seq<unit>)
    requires NextCluster(files) <= 0x1_0000
    ensures |v| == NextCluster(files)
    decreases |files|
  {
    if files == [] then [0xFFF8, END_OF_CHAIN]
    else
      var front, last := files[..|files| - 1], files[|files| - 1];
      FatValues(front) + ChainValues(NextCluster(front), ClustersOfFile(last))
  }

  function ToBytes(values: seq<unit>): (b: seq<byte>)
    ensures |b| == 2 * |values|
  {
    if values == [] then [] else ToBytes(values[..|values| - 1]) + Le16(values[|values| - 1])
  }

  // ---- Root directory ----

  /** The checksum that ties long name entries to a short name: rotate right, then add. */
  function ChecksumFrom(sum: byte, name: seq<byte>): byte
    decreases |name|
  {
    if name == [] then sum else ChecksumFrom((sum % 2 * 0x80 + sum / 2 + name[0]) % 0x100, name[1..])
  }

  function UnitBytes(u: seq<unit>): (b: seq<byte>)
    ensures |b| == 2 * |u|
  {
    if u == [] then [] else Le16(u[0]) + UnitBytes(u[1..])
  }

  function LfnSlot(sequence: byte, u: seq<unit>, checksum: byte): (s: Slot)
    requires |u| == UNITS_PER_SLOT
  {
    [sequence] + UnitBytes(u[..5]) + [0x0F, 0, checksum] + UnitBytes(u[5..11]) + [0, 0] + UnitBytes(u[11..])
  }

  /** The units of a name, its terminating zero, and filling up to whole slots. */
  function NameUnits(name: string): (u: seq<unit>)
    ensures |u| % UNITS_PER_SLOT == 0 && |u| > 0
  {
    var u := Encode(name) + [0];
    u + seq((UNITS_PER_SLOT - |u| % UNITS_PER_SLOT) % UNITS_PER_SLOT, _ => 0xFFFF)
  }

  function LfnCount(name: string): (n: nat)
    ensures n > 0 && |NameUnits(name)| == n * UNITS_PER_SLOT
  {
    |NameUnits(name)| / UNITS_PER_SLOT
  }

  /** The first byte of the `k`th slot of `n`, counting from one; the last part of the name comes first, marked. */
  function Sequence(k: nat, n: nat): byte
    requires 1 <= k <= n <= MAX_LFN_SLOTS
  {
    if k == n then k + 0x40 else k
  }

  /** Slots `n` down to `k + 1` of a name. */
  function LfnSlotsDownTo(u: seq<unit>, n: nat, k: nat, checksum: byte): (s: seq<Slot>)
    requires k <= n <= MAX_LFN_SLOTS && |u| == n * UNITS_PER_SLOT
    ensures |s| == n - k
    decreases n - k
  {
    if k == n then []
    else LfnSlotsDownTo(u, n, k + 1, checksum)
         + [LfnSlot(Sequence(k + 1, n), u[k * UNITS_PER_SLOT..(k + 1) * UNITS_PER_SLOT], checksum)]
  }

  function LfnSlots(name: string, checksum: byte): (s: seq<Slot>)
    requires LfnCount(name) <= MAX_LFN_SLOTS
    ensures |s| == LfnCount(name)
  {
    LfnSlotsDownTo(NameUnits(name), LfnCount(name), 0, checksum)
  }

  function ShortSlot(name: ShortName, firstCluster: unit, size: uint32): Slot {
    name + [0x20] + Zeros(14) + Le16(firstCluster) + Le32(size)
  }

  const VOLUME_SLOT: Slot := VOLUME_LABEL + [0x08] + Zeros(20)

  function FileSlots(f: SeedFile, firstCluster: nat): (s: seq<Slot>)
    requires Writable(f) && firstCluster <= 0xFFFF
    ensures |s| == LfnCount(f.longName) + 1
  {
    LfnSlots(f.longName, ChecksumFrom(0, f.shortName))
    + [ShortSlot(f.shortName, if f.contents == [] then 0 else firstCluster, |f.contents|)]
  }

  predicate Writable(f: SeedFile) {
    LfnCount(f.longName) <= MAX_LFN_SLOTS && |f.contents| < 0x1_0000_0000
  }

  predicate AllWritable(files: seq<SeedFile>) {
    forall i :: 0 <= i < |files| ==> Writable(files[i])
  }

  function RootSlots(files: seq<SeedFile>): (s: seq<Slot>)
    requires AllWritable(files) && NextCluster(files) <= 0xFFFF
    ensures |s| == 1 + EntryCount(files)
  {
    if files == [] then [VOLUME_SLOT]
    else
      var front, last := files[..|files| - 1], files[|files| - 1];
      RootSlots(front) + FileSlots(last, NextCluster(front))
  }

  /** The long and short entries of all files. */
  function EntryCount(files: seq<SeedFile>): nat {
    if files == [] then 0 else EntryCount(files[..|files| - 1]) + LfnCount(files[|files| - 1].longName) + 1
  }

  function Flatten(slots: seq<Slot>): (b: seq<byte>)
    ensures |b| == SLOT_BYTES * |slots|
  {
    if slots == [] then [] else Flatten(slots[..|slots| - 1]) + slots[|slots| - 1]
  }

  // ---- The whole image ----

  predicate Sized(l: Layout) {
    l.totalSectors <= U16_MAX && l.fatSectors <= U16_MAX && l.dataStartSector <= l.totalSectors
  }

  predicate RoomFor(l: Layout, files: seq<SeedFile>) {
    && Sized(l) && l.dataStartSector == RESERVED_SECTORS + FAT_COUNT * l.fatSectors + ROOT_DIRECTORY_SECTORS
    && NextCluster(files) <= 0xFFFF && 2 * NextCluster(files) <= l.fatSectors * BYTES_PER_SECTOR
    && NextCluster(files) - 2 <= l.totalSectors - l.dataStartSector
  }

  function Fat(l: Layout, files: seq<SeedFile>): (b: seq<byte>)
    requires RoomFor(l, files)
    ensures |b| == l.fatSectors * BYTES_PER_SECTOR
  {
    ToBytes(FatValues(files)) + Zeros(l.fatSectors * BYTES_PER_SECTOR - 2 * NextCluster(files))
  }

  /** The root directory and the clusters before any slot is written. */
  function RootAndData(l: Layout, files: seq<SeedFile>): (b: seq<byte>)
    requires RoomFor(l, files)
    ensures |b| == (l.totalSectors - l.dataStartSector + ROOT_DIRECTORY_SECTORS) * BYTES_PER_SECTOR
  {
    Zeros(ROOT_DIRECTORY_SECTORS * BYTES_PER_SECTOR) + Data(files)
    + Zeros((l.totalSectors - l.dataStartSector + 2 - NextCluster(files)) * BYTES_PER_SECTOR)
  }

  function RootStart(l: Layout): nat {
    (RESERVED_SECTORS + FAT_COUNT * l.fatSectors) * BYTES_PER_SECTOR
  }

  /** Boot sector, two equal tables, then the slots written over the root directory and whatever follows it. */
  function Image(l: Layout, files: seq<SeedFile>): (b: seq<byte>)
    requires RoomFor(l, files) && AllWritable(files)
    requires SLOT_BYTES * (1 + EntryCount(files)) <= |RootAndData(l, files)|
    ensures |b| == l.totalSectors * BYTES_PER_SECTOR
  {
    Boot(l) + Fat(l, files) + Fat(l, files) + Overwrite(RootAndData(l, files), 0, Flatten(RootSlots(files)))
  }
}
