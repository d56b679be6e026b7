/** The sector counts of a seed image. */
module SeedLayout {
  import opened Wrappers

  const BYTES_PER_SECTOR: nat := 4096
  const SECTORS_PER_CLUSTER: nat := 1
  const RESERVED_SECTORS: nat := 1
  const FAT_COUNT: nat := 2
  const ROOT_ENTRY_COUNT: nat := 512
  const ROOT_DIRECTORY_SECTORS: nat := 4
  const MIN_TOTAL_SECTORS: nat := 8192
  const U16_MAX: nat := 0xFFFF

  datatype Layout = Layout(totalSectors: nat, fatSectors: nat, dataStartSector: nat)

  datatype Error = TooLarge

  function CeilDiv(n: nat, d: nat): nat
    requires d > 0
  {
    (n + d - 1) / d
  }

  /** The clusters left when each table takes `fatSectors`; None when they do not fit at all. */
  function DataClusters(totalSectors: nat, fatSectors: nat): Option<nat> {
    var overhead := RESERVED_SECTORS + ROOT_DIRECTORY_SECTORS + FAT_COUNT * fatSectors;
    if totalSectors < overhead then None else Some((totalSectors - overhead) / SECTORS_PER_CLUSTER)
  }

  /** The sectors one table needs for that many clusters and its two reserved entries. */
  function RequiredFatSectors(clusters: nat): nat {
    CeilDiv((clusters + 2) * 2, BYTES_PER_SECTOR)
  }

  /** The clusters of the three sizes that are tried, and the largest of them. */
  const SMALL_CLUSTERS: nat := 8179
  const MIDDLE_CLUSTERS: nat := 16363
  const MAX_CLUSTERS: nat := 32731

  function SmallestLayout(neededClusters: nat): Result<Layout, Error> {
    if neededClusters <= SMALL_CLUSTERS then Ok(Layout(8192, 4, 13))
    else if neededClusters <= MIDDLE_CLUSTERS then Ok(Layout(16384, 8, 21))
    else if neededClusters <= MAX_CLUSTERS then Ok(Layout(32768, 16, 37))
    else Err(TooLarge)
  }

  /** Doubles the image until a table size settles that has room for the clusters needed. */
  method LayoutFor(neededClusters: nat) returns (r: Result<Layout, Error>)
    ensures r == SmallestLayout(neededClusters)
    ensures r.Ok? ==> IsSmallest(r.value, neededClusters)
    ensures r.Err? ==> forall k: nat, fat: nat :: !HasRoom(k, fat, neededClusters)
  {
    SmallestLayoutIsSmallest(neededClusters);
    var totalSectors := MIN_TOTAL_SECTORS;
    var done := false;
    r := Err(TooLarge);
    while !done
      invariant done || totalSectors == 8192 || totalSectors == 16384 || totalSectors == 32768
      invariant !done && totalSectors > 8192 ==> neededClusters > SMALL_CLUSTERS
      invariant !done && totalSectors > 16384 ==> neededClusters > MIDDLE_CLUSTERS
      invariant done ==> r == SmallestLayout(neededClusters)
      invariant !done ==> r == Err(TooLarge)
      decreases !done, 0x10000 - totalSectors
    {
      var fatSectors := 1;
      var settled := false;
      while !done && !settled
        invariant fatSectors == 1 || fatSectors * 2048 == totalSectors
        invariant settled ==> fatSectors * 2048 == totalSectors && DataClusters(totalSectors, fatSectors).Some?
        invariant settled && !done ==> neededClusters > DataClusters(totalSectors, fatSectors).value
        invariant done ==> r == SmallestLayout(neededClusters)
        invariant !done ==> r == Err(TooLarge)
        decreases !done, !settled, fatSectors == 1
      {
        var clusters := DataClusters(totalSectors, fatSectors);
        if clusters.None? {
          done := true;
        } else {
          var required := RequiredFatSectors(clusters.value);
          if required == fatSectors {
            var dataStartSector := RESERVED_SECTORS + FAT_COUNT * fatSectors + ROOT_DIRECTORY_SECTORS;
            if clusters.value >= 4085 && clusters.value >= neededClusters {
              r, done := Ok(Layout(totalSectors, fatSectors, dataStartSector)), true;
            }
            settled := true;
          }
          fatSectors := required;
        }
      }
      totalSectors := totalSectors * 2;
      if totalSectors > U16_MAX {
        done := true;
      }
    }
  }

  /** What the writer and every reader of the image rely on. */
  ghost predicate Consistent(l: Layout, clusters: nat) {
    // The regions follow each other and fill the image.
    && l.dataStartSector == RESERVED_SECTORS + FAT_COUNT * l.fatSectors + ROOT_DIRECTORY_SECTORS
    && l.totalSectors == l.dataStartSector + clusters * SECTORS_PER_CLUSTER
    // A table has an entry for every cluster, and for the two numbers no cluster has.
    && 2 * (clusters + 2) <= l.fatSectors * BYTES_PER_SECTOR
    // The cluster count makes it FAT16, and the sector count fits its field.
    && 4085 <= clusters < 65525 && l.totalSectors <= U16_MAX
    && ROOT_ENTRY_COUNT * 32 == ROOT_DIRECTORY_SECTORS * BYTES_PER_SECTOR
  }

  function ClustersOf(l: Layout): int {
    l.totalSectors - l.dataStartSector
  }

  lemma LayoutsAreConsistent(neededClusters: nat)
    requires SmallestLayout(neededClusters).Ok?
    ensures var l := SmallestLayout(neededClusters).value;
      && l.totalSectors >= l.dataStartSector
      && Consistent(l, ClustersOf(l)) && neededClusters <= ClustersOf(l)
  {
  }

  /** Refused exactly when no size that fits a 16-bit sector count and doubles from the smallest one has room. */
  lemma RefusedIffNoSizeFits(neededClusters: nat)
    ensures SmallestLayout(neededClusters).Err? <==> neededClusters > MAX_CLUSTERS
    ensures forall k: nat, fat: nat ::
      SmallestLayout(neededClusters).Err? && Settles(k, fat) ==> DataClusters(SizeTried(k), fat).value < neededClusters
  {
    forall k: nat, fat: nat | SmallestLayout(neededClusters).Err? && Settles(k, fat)
      ensures DataClusters(SizeTried(k), fat).value < neededClusters
    {
      if k >= 3 {
        SizeGrows(k);
      }
    }
  }

  /** The sizes the outer loop goes through. */
  function SizeTried(k: nat): nat {
    if k == 0 then MIN_TOTAL_SECTORS else 2 * SizeTried(k - 1)
  }

  lemma {:induction false} SizeGrows(k: nat)
    requires k >= 3
    ensures SizeTried(k) > U16_MAX
  {
    if k > 3 {
      SizeGrows(k - 1);
    }
  }

  ghost predicate Settles(k: nat, fat: nat) {
    && SizeTried(k) <= U16_MAX && DataClusters(SizeTried(k), fat).Some?
    && RequiredFatSectors(DataClusters(SizeTried(k), fat).value) == fat
  }

  /** A size that is tried settles with room for the clusters needed. */
  ghost predicate HasRoom(k: nat, fat: nat, neededClusters: nat) {
    Settles(k, fat) && DataClusters(SizeTried(k), fat).value >= neededClusters
  }

  /** The layout is one that is tried and has room, and no smaller one is. */
  ghost predicate IsSmallest(l: Layout, neededClusters: nat) {
    && (exists k: nat :: SizeTried(k) == l.totalSectors && HasRoom(k, l.fatSectors, neededClusters))
    && (forall k: nat, fat: nat :: HasRoom(k, fat, neededClusters) ==> l.totalSectors <= SizeTried(k))
  }

  lemma {:induction false} SmallestLayoutIsSmallest(neededClusters: nat)
    ensures var r := SmallestLayout(neededClusters);
      && (r.Ok? ==> IsSmallest(r.value, neededClusters))
      && (r.Err? ==> forall k: nat, fat: nat :: !HasRoom(k, fat, neededClusters))
  {
    var r := SmallestLayout(neededClusters);
    RefusedIffNoSizeFits(neededClusters);
    if r.Ok? {
      var k := if neededClusters <= SMALL_CLUSTERS then 0 else if neededClusters <= MIDDLE_CLUSTERS then 1 else 2;
      assert SizeTried(0) == 8192 && SizeTried(1) == 16384 && SizeTried(2) == 32768;
      assert HasRoom(k, r.value.fatSectors, neededClusters);
      forall j: nat, fat: nat | HasRoom(j, fat, neededClusters)
        ensures r.value.totalSectors <= SizeTried(j)
      {
        if j >= 3 {
          SizeGrows(j);
        }
      }
    }
  }

  // ---- The inner loop on other sizes ----

  function NextFatSectors(totalSectors: nat, fatSectors: nat): Option<nat> {
    var clusters := DataClusters(totalSectors, fatSectors);
    if clusters.None? then None else Some(RequiredFatSectors(clusters.value))
  }

  function FatSectorsAfter(totalSectors: nat, steps: nat): Option<nat> {
    if steps == 0 then Some(1)
    else
      var before := FatSectorsAfter(totalSectors, steps - 1);
      if before.None? then None else NextFatSectors(totalSectors, before.value)
  }

  /** At 2054 sectors the table size would alternate for ever, so the sizes tried matter for termination. */
  lemma {:induction false} NotEverySizeSettles(steps: nat)
    ensures FatSectorsAfter(2054, steps) == Some(if steps % 2 == 0 then 1 else 2)
  {
    if steps > 0 {
      NotEverySizeSettles(steps - 1);
    }
  }
}
