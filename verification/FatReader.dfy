/** A reader of FAT16 volumes, after "FAT: General Overview of On-Disk Format", version 1.03. */
module FatReader {
  import opened Bytes
  import opened Utf16
  import opened Wrappers

  // ---- Boot sector ----

  datatype BootSector = BootSector(bytesPerSector: nat, sectorsPerCluster: nat, reservedSectors: nat, fatCount: nat,
                                   rootEntries: nat, totalSectors: nat, fatSectors: nat)
  {
    function RootSectors(): nat
      requires bytesPerSector > 0
    {
      (rootEntries * SLOT_BYTES + bytesPerSector - 1) / bytesPerSector
    }

    function FirstDataSector(): nat
      requires bytesPerSector > 0
    {
      reservedSectors + fatCount * fatSectors + RootSectors()
    }
  }

  function Fields(image: seq<byte>): BootSector
    requires |image| >= 512
  {
    BootSector(Read16(image, 11), image[13], Read16(image, 14), image[16], Read16(image, 17), Read16(image, 19),
               Read16(image, 22))
  }

  /** Where things are, in bytes from the start of the image. */
  datatype Volume = Volume(rootStart: nat, rootEntries: nat, fatStart: nat, clusters: nat, dataStart: nat,
                           clusterBytes: nat)

  predicate Inside(v: Volume, length: nat) {
    && v.rootStart + v.rootEntries * SLOT_BYTES <= length
    && v.fatStart + 2 * (v.clusters + 2) <= length
    && v.dataStart + v.clusters * v.clusterBytes <= length
  }

  /** The volume of a boot sector, with one of its tables; None when its cluster count is not one of FAT16. */
  function Locate(b: BootSector, copy: nat): Option<Volume> {
    if b.bytesPerSector == 0 || b.sectorsPerCluster == 0 || copy >= b.fatCount
       || b.totalSectors < b.FirstDataSector() then None
    else
      var clusters := (b.totalSectors - b.FirstDataSector()) / b.sectorsPerCluster;
      if clusters < 4085 || clusters >= 65525 || 2 * (clusters + 2) > b.fatSectors * b.bytesPerSector then None
      else Some(Volume((b.reservedSectors + b.fatCount * b.fatSectors) * b.bytesPerSector, b.rootEntries,
                       (b.reservedSectors + copy * b.fatSectors) * b.bytesPerSector, clusters,
                       b.FirstDataSector() * b.bytesPerSector, b.sectorsPerCluster * b.bytesPerSector))
  }

  /** A table begins with the media byte of the boot sector and an end mark. */
  predicate Marked(image: seq<byte>, v: Volume)
    requires |image| >= 512 && Inside(v, |image|)
  {
    var media: int := image[21];
    Read16(image, v.fatStart) == 0xFF00 + media && Read16(image, v.fatStart + 2) >= 0xFFF8
  }

  function Parse(image: seq<byte>, copy: nat): (v: Option<Volume>)
    ensures v.Some? ==> Inside(v.value, |image|)
  {
    if |image| < 512 || image[510] != 0x55 || image[511] != 0xAA then None
    else
      var v := Locate(Fields(image), copy);
      if v.Some? && Inside(v.value, |image|) && Marked(image, v.value) then v else None
  }

  // ---- Root directory ----

  datatype Entry = Entry(longName: Option<string>, shortName: seq<byte>, attribute: byte, firstCluster: nat, size: nat)

  /** A long name read so far: the parts still missing, and the units from the last part back to here. */
  datatype Run = NoRun | Run(missing: nat, checksum: byte, units: seq<unit>)

  predicate IsLong(s: Slot) {
    s[11] % 0x40 == 0x0F
  }

  predicate IsVolumeLabel(s: Slot) {
    !IsLong(s) && s[11] / 0x08 % 2 == 1 && s[11] / 0x10 % 2 == 0
  }

  /** A file has neither the mark of a label nor that of a directory. */
  predicate IsFile(s: Slot) {
    s[11] / 0x08 % 2 == 0 && s[11] / 0x10 % 2 == 0
  }

  function UnitsAt(s: seq<byte>, at: nat, n: nat): (u: seq<unit>)
    requires at + 2 * n <= |s|
    ensures |u| == n
  {
    seq(n, i requires 0 <= i < n => Read16(s, at + 2 * i))
  }

  function LongUnits(s: Slot): (u: seq<unit>)
    ensures |u| == 13
  {
    UnitsAt(s, 1, 5) + UnitsAt(s, 14, 6) + UnitsAt(s, 28, 2)
  }

  /** A marked slot starts a name; others must follow in falling order with the same checksum. */
  function NextRun(run: Run, s: Slot): Run {
    if s[12] != 0 || Read16(s, 26) != 0 then NoRun
    else if 0x40 < s[0] <= 0x40 + 20 then Run(s[0] - 0x41, s[13], LongUnits(s))
    else if run.Run? && run.missing > 0 && s[0] == run.missing && s[13] == run.checksum then
      Run(run.missing - 1, run.checksum, LongUnits(s) + run.units)
    else NoRun
  }

  function Checksum(sum: byte, name: seq<byte>): byte
    decreases |name|
  {
    if name == [] then sum
    else Checksum(((if sum % 2 == 1 then 0x80 else 0) + sum / 2 + name[0]) % 0x100, name[1..])
  }

  function EntryAt(s: Slot, run: Run): Entry {
    var longName := if run.Run? && run.missing == 0 && run.checksum == Checksum(0, s[..11])
                    then Decode(BeforeZero(run.units)) else None;
    // A name whose first byte would mark a deleted entry is stored with 0x05 instead.
    var shortName := if s[0] == 0x05 then [0xE5] + s[1..11] else s[..11];
    Entry(longName, shortName, s[11], Read16(s, 26), Read32(s, 28))
  }

  /** The files up to the first slot that was never used; deleted ones, labels and directories are passed over. */
  function Walk(slots: seq<Slot>, run: Run): seq<Entry>
    decreases |slots|
  {
    if slots == [] || slots[0][0] == 0 then []
    else if slots[0][0] == 0xE5 then Walk(slots[1..], NoRun)
    else if IsLong(slots[0]) then Walk(slots[1..], NextRun(run, slots[0]))
    else if !IsFile(slots[0]) then Walk(slots[1..], NoRun)
    else [EntryAt(slots[0], run)] + Walk(slots[1..], NoRun)
  }

  /** The first label among the slots in use. */
  function LabelOf(slots: seq<Slot>): Option<seq<byte>>
    decreases |slots|
  {
    if slots == [] || slots[0][0] == 0 then None
    else if slots[0][0] != 0xE5 && IsVolumeLabel(slots[0]) then Some(slots[0][..11])
    else LabelOf(slots[1..])
  }

  function SlotAt(image: seq<byte>, start: nat, i: nat): Slot
    requires start + (i + 1) * SLOT_BYTES <= |image|
  {
    image[start + i * SLOT_BYTES..start + (i + 1) * SLOT_BYTES]
  }

  function Directory(image: seq<byte>, start: nat, n: nat): (d: seq<Slot>)
    requires start + n * SLOT_BYTES <= |image|
    ensures |d| == n
  {
    seq(n, i requires 0 <= i < n => SlotAt(image, start, i))
  }

  // ---- Contents ----

  function FatEntry(image: seq<byte>, v: Volume, cluster: nat): uint16
    requires Inside(v, |image|) && cluster < v.clusters + 2
  {
    Read16(image, v.fatStart + 2 * cluster)
  }

  lemma ClusterEnds(i: nat, count: nat, size: nat)
    requires i < count
    ensures 0 <= i * size <= i * size + size <= count * size
  {
    assert (count - i - 1) * size >= 0;
    assert count * size == i * size + size + (count - i - 1) * size;
  }

  function ClusterAt(image: seq<byte>, v: Volume, cluster: nat): (b: seq<byte>)
    requires Inside(v, |image|) && 2 <= cluster < v.clusters + 2
    ensures |b| == v.clusterBytes
  {
    ClusterEnds(cluster - 2, v.clusters, v.clusterBytes);
    var start := v.dataStart + (cluster - 2) * v.clusterBytes;
    image[start..start + v.clusterBytes]
  }

  /** The clusters of a chain, one after the other; None when it leaves the volume or takes more than `most`. */
  function Follow(image: seq<byte>, v: Volume, cluster: nat, most: nat): Option<seq<byte>>
    requires Inside(v, |image|)
    decreases most
  {
    if most == 0 || cluster < 2 || cluster >= v.clusters + 2 then None
    else
      var bytes, next := ClusterAt(image, v, cluster), FatEntry(image, v, cluster);
      if next >= 0xFFF8 then Some(bytes)
      else
        var rest := Follow(image, v, next, most - 1);
        if rest.None? then None else Some(bytes + rest.value)
  }

  function Contents(image: seq<byte>, v: Volume, e: Entry): Option<seq<byte>>
    requires Inside(v, |image|)
  {
    if e.firstCluster == 0 then if e.size == 0 then Some([]) else None
    else
      var chain := Follow(image, v, e.firstCluster, v.clusters);
      if chain.None? || |chain.value| < e.size then None else Some(chain.value[..e.size])
  }

  datatype File = File(longName: Option<string>, shortName: seq<byte>, attribute: byte, contents: seq<byte>)

  function Files(image: seq<byte>, v: Volume, entries: seq<Entry>): (f: Option<seq<File>>)
    requires Inside(v, |image|)
    ensures f.Some? ==> |f.value| == |entries|
  {
    if entries == [] then Some([])
    else
      var e := entries[0];
      var contents, rest := Contents(image, v, e), Files(image, v, entries[1..]);
      if contents.None? || rest.None? then None
      else Some([File(e.longName, e.shortName, e.attribute, contents.value)] + rest.value)
  }

  /** The files in the root directory, their chains taken from the given copy of the table. */
  function Read(image: seq<byte>, copy: nat): Option<seq<File>> {
    var v := Parse(image, copy);
    if v.None? then None
    else Files(image, v.value, Walk(Directory(image, v.value.rootStart, v.value.rootEntries), NoRun))
  }

  function ReadLabel(image: seq<byte>, copy: nat): Option<seq<byte>> {
    var v := Parse(image, copy);
    if v.None? then None else LabelOf(Directory(image, v.value.rootStart, v.value.rootEntries))
  }
}
