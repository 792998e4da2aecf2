/**
 The disk below a FAT32 volume: where clusters and directory entries lie, and which edits of sectors
 leave which of them alone (src/fs/fat32.c; Microsoft FAT32 File System Specification, sections "FAT Data
 Structure" and "FAT Directory Structure").
 */
module FatDisk {
  import opened SectorCache
  import opened FatBytes

  // spc is the number of sectors per cluster, bpc the number of bytes; the clusters below count have a FAT entry
  // and lie on the disk.
  datatype Geo = Geo(fatStart: nat, fatEnd: nat, dataStart: nat, spc: nat, bpc: nat, count: nat)

  // How many entries the FAT has.
  function Entries(g: Geo): nat
    requires g.fatStart <= g.fatEnd
  {
    (g.fatEnd - g.fatStart) * PER_SECTOR
  }

  // fat32_cluster_to_lba.
  function Lba(g: Geo, c: nat): nat
    requires c >= 2
  {
    g.dataStart + (c - 2) * g.spc
  }

  // The FAT lies before the data area, and count is as large as FAT and disk allow.
  ghost predicate Fits(g: Geo, disk: seq<Sector>) {
    && g.spc >= 1 && g.bpc == g.spc * SECTOR_SIZE
    && g.fatStart <= g.fatEnd <= g.dataStart
    && 2 <= g.count <= Entries(g)
    && Lba(g, g.count) <= |disk|
    && (g.count == Entries(g) || Lba(g, g.count) + g.spc > |disk|)
  }

  // A cluster with a FAT entry is on the disk exactly when its number is below count.
  lemma OnDiskIff(g: Geo, disk: seq<Sector>, c: nat)
    requires Fits(g, disk) && 2 <= c < Entries(g)
    ensures Lba(g, c) + g.spc <= |disk| <==> c < g.count
  {
    if c < g.count { LbaFits(g, disk, c); } else { MulMono(g.count - 2, c - 2, g.spc); }
  }

  // The 64 MB disk that make_disk.py builds: 1024 FAT sectors, data from sector 2080, clusters of one sector.  Its
  // last 2078 FAT entries address nothing.
  const HDD := Geo(32, 1056, 2080, 1, 512, 128994)

  lemma HddFits(disk: seq<Sector>)
    requires |disk| == 131072
    ensures Fits(HDD, disk) && Entries(HDD) == 131072 && Entries(HDD) - HDD.count == 2078
    ensures forall c :: HDD.count <= c < Entries(HDD) ==> Lba(HDD, c) + HDD.spc > |disk|
  {
  }

  lemma LbaFits(g: Geo, disk: seq<Sector>, c: nat)
    requires Fits(g, disk) && 2 <= c < g.count
    ensures g.fatEnd <= Lba(g, c) && Lba(g, c) + g.spc <= |disk|
  {
    assert (c - 2) * g.spc + g.spc == (c - 1) * g.spc;
    MulMono(c - 1, g.count - 2, g.spc);
  }

  lemma MulMono(a: nat, b: nat, k: nat)
    requires a <= b
    ensures a * k <= b * k
  {
  }

  // Different clusters do not overlap.
  lemma LbaApart(g: Geo, c: nat, d: nat)
    requires 2 <= c < d
    ensures Lba(g, c) + g.spc <= Lba(g, d)
  {
    assert (c - 2) * g.spc + g.spc == (c - 1) * g.spc;
    MulMono(c - 1, d - 2, g.spc);
  }

  // Sector i belongs to cluster c.
  predicate InCluster(g: Geo, c: nat, i: nat) {
    c >= 2 && Lba(g, c) <= i < Lba(g, c) + g.spc
  }

  lemma OneCluster(g: Geo, c: nat, d: nat, i: nat)
    requires InCluster(g, c, i) && InCluster(g, d, i)
    ensures c == d
  {
    if c < d { LbaApart(g, c, d); } else if d < c { LbaApart(g, d, c); }
  }

  lemma FatSectorFits(g: Geo, disk: seq<Sector>, c: nat)
    requires Fits(g, disk) && c < g.count
    ensures g.fatStart <= g.fatStart + EntrySector(c) < g.fatEnd <= |disk|
  {
    EntryPlace(c);
  }

  // ---------- Clusters ----------

  // The contents of a cluster.
  ghost function Cluster(disk: seq<Sector>, g: Geo, c: nat): (s: seq<Byte>)
    requires Fits(g, disk) && 2 <= c < g.count
    ensures |s| == g.bpc
  {
    LbaFits(g, disk, c);
    seq(g.bpc, o requires 0 <= o < g.bpc => disk[Lba(g, c) + o / SECTOR_SIZE][o % SECTOR_SIZE])
  }

  lemma ClusterAt(disk: seq<Sector>, g: Geo, c: nat, o: nat)
    requires Fits(g, disk) && 2 <= c < g.count && o < g.bpc
    ensures Lba(g, c) + o / SECTOR_SIZE < |disk|
    ensures Cluster(disk, g, c)[o] == disk[Lba(g, c) + o / SECTOR_SIZE][o % SECTOR_SIZE]
  {
    LbaFits(g, disk, c);
  }

  // A cluster depends on its own sectors only.
  lemma ClusterSame(disk: seq<Sector>, disk': seq<Sector>, g: Geo, c: nat)
    requires Fits(g, disk) && Fits(g, disk') && 2 <= c < g.count
    requires |disk| == |disk'| && forall i: nat :: InCluster(g, c, i) && i < |disk| ==> disk'[i] == disk[i]
    ensures Cluster(disk', g, c) == Cluster(disk, g, c)
  {
    forall o: nat | o < g.bpc ensures Cluster(disk', g, c)[o] == Cluster(disk, g, c)[o] {
      ClusterAt(disk, g, c, o);
      ClusterAt(disk', g, c, o);
      assert InCluster(g, c, Lba(g, c) + o / SECTOR_SIZE);
    }
  }

  // The disk after cluster c has been overwritten.
  ghost predicate ClusterPut(disk: seq<Sector>, disk': seq<Sector>, g: Geo, c: nat, buf: seq<Byte>)
    requires Fits(g, disk) && 2 <= c < g.count && |buf| == g.bpc
  {
    && |disk'| == |disk|
    && (forall i :: 0 <= i < |disk| && !InCluster(g, c, i) ==> disk'[i] == disk[i])
    && (forall k :: 0 <= k < g.spc && Lba(g, c) + k < |disk| ==>
          disk'[Lba(g, c) + k] == buf[k * SECTOR_SIZE..k * SECTOR_SIZE + SECTOR_SIZE])
  }

  lemma PutByte(disk: seq<Sector>, disk': seq<Sector>, g: Geo, c: nat, buf: seq<Byte>, o: nat)
    requires Fits(g, disk) && Fits(g, disk') && 2 <= c < g.count && |buf| == g.bpc
    requires ClusterPut(disk, disk', g, c, buf) && o < g.bpc
    ensures Cluster(disk', g, c)[o] == buf[o]
  {
    LbaFits(g, disk, c);
    ClusterAt(disk', g, c, o);
    hide Cluster, Fits, Lba, InCluster;
    var k := o / SECTOR_SIZE;
    assert disk'[Lba(g, c) + k] == buf[k * SECTOR_SIZE..k * SECTOR_SIZE + SECTOR_SIZE];
  }

  lemma PutOther(disk: seq<Sector>, disk': seq<Sector>, g: Geo, c: nat, buf: seq<Byte>, d: nat)
    requires Fits(g, disk) && Fits(g, disk') && 2 <= c < g.count && |buf| == g.bpc
    requires ClusterPut(disk, disk', g, c, buf) && 2 <= d < g.count && d != c
    ensures Cluster(disk', g, d) == Cluster(disk, g, d)
  {
    hide Cluster, Fits, Lba;
    forall i: nat | InCluster(g, d, i) && i < |disk| ensures disk'[i] == disk[i] {
      if InCluster(g, c, i) { OneCluster(g, c, d, i); }
    }
    ClusterSame(disk, disk', g, d);
  }

  lemma PutThenGet(disk: seq<Sector>, disk': seq<Sector>, g: Geo, c: nat, buf: seq<Byte>)
    requires Fits(g, disk) && 2 <= c < g.count && |buf| == g.bpc && ClusterPut(disk, disk', g, c, buf)
    ensures Fits(g, disk') && Cluster(disk', g, c) == buf
    ensures forall d :: 2 <= d < g.count && d != c ==> Cluster(disk', g, d) == Cluster(disk, g, d)
  {
    assert Fits(g, disk');
    hide Cluster, Fits, Lba, ClusterPut, InCluster;
    forall o: nat | o < g.bpc ensures Cluster(disk', g, c)[o] == buf[o] {
      PutByte(disk, disk', g, c, buf, o);
    }
    forall d | 2 <= d < g.count && d != c ensures Cluster(disk', g, d) == Cluster(disk, g, d) {
      PutOther(disk, disk', g, c, buf, d);
    }
  }

  // ---------- Directory entries ----------

  const DIRENT_SIZE := 32
  const DELETED := 0xE5

  // Where a directory entry lies.
  datatype Loc = Loc(sector: nat, offset: nat)

  predicate LocOk(l: Loc) {
    l.offset % DIRENT_SIZE == 0 && l.offset + DIRENT_SIZE <= SECTOR_SIZE
  }

  // first_cluster_high at 20, first_cluster_low at 26, file_size at 28.
  function DirFirst(s: Sector, at: nat): nat
    requires at + DIRENT_SIZE <= SECTOR_SIZE
  {
    LoadU16(s, at + 20) * UINT16 + LoadU16(s, at + 26)
  }

  function DirSize(s: Sector, at: nat): nat
    requires at + DIRENT_SIZE <= SECTOR_SIZE
  {
    LoadU32(s, at + 28)
  }

  function SetDirFirst(s: Sector, at: nat, c: nat): (t: Sector)
    requires at + DIRENT_SIZE <= SECTOR_SIZE && c < UINT32
    ensures DirFirst(t, at) == c && DirSize(t, at) == DirSize(s, at)
    ensures forall i :: 0 <= i < SECTOR_SIZE && !(at + 20 <= i < at + 22) && !(at + 26 <= i < at + 28) ==> t[i] == s[i]
  {
    StoreU16(StoreU16(s, at + 20, c / UINT16), at + 26, c % UINT16)
  }

  function SetDirSize(s: Sector, at: nat, n: nat): (t: Sector)
    requires at + DIRENT_SIZE <= SECTOR_SIZE && n < UINT32
    ensures DirSize(t, at) == n && DirFirst(t, at) == DirFirst(s, at)
    ensures forall i :: 0 <= i < SECTOR_SIZE && !(at + 28 <= i < at + DIRENT_SIZE) ==> t[i] == s[i]
  {
    StoreU32(s, at + 28, n)
  }

  // Entries at different places of a sector do not overlap.
  lemma DirentApart(s: Sector, t: Sector, at: nat, at': nat)
    requires at % DIRENT_SIZE == 0 && at' % DIRENT_SIZE == 0 && at != at'
    requires at + DIRENT_SIZE <= SECTOR_SIZE && at' + DIRENT_SIZE <= SECTOR_SIZE
    requires forall i :: 0 <= i < SECTOR_SIZE && !(at <= i < at + DIRENT_SIZE) ==> t[i] == s[i]
    ensures DirFirst(t, at') == DirFirst(s, at') && DirSize(t, at') == DirSize(s, at') && t[at'] == s[at']
  {
    assert at + DIRENT_SIZE <= at' || at' + DIRENT_SIZE <= at;
  }
}
