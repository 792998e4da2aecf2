/**
 The FAT32 driver (src/fs/fat32.c).
 */
module Fat32 {
  import opened SectorCache
  import opened FatBytes
  import opened FatDisk
  import opened FatFiles
  import opened FatDirs
  import opened FatNames
  import opened FatVolume

  // An open file: vfs_node_t and fat32_node_data.
  datatype Node = Node(first: nat, length: nat, loc: Loc)

  // What the volume holds: the FAT, the files (by number), who owns each cluster, which files are
  // directories, and in which directory cluster the entry of each open file lies.
  datatype Fs = Fs(fat: seq<nat>, files: map<nat, File>, owner: map<nat, nat>, dirs: set<nat>, home: map<nat, nat>)

  ghost predicate FatStored(disk: seq<Sector>, g: Geo, fat: seq<nat>) {
    && Fits(g, disk) && |fat| == g.count
    && forall c :: 0 <= c < g.count ==>
         g.fatStart + EntrySector(c) < |disk| && fat[c] == FatEntry(disk, g.fatStart, c)
  }

  // The j-th entry of a FAT sector.
  function RawEntry(s: Sector, j: nat): nat
    requires j < PER_SECTOR
  {
    LoadU32(s, j * 4) % ENTRY_MASK
  }

  lemma SectorEntry(disk: seq<Sector>, g: Geo, fat: seq<nat>, i: nat, j: nat)
    requires FatStored(disk, g, fat) && i < g.fatEnd - g.fatStart && j < PER_SECTOR
    ensures g.fatStart + i < |disk|
    ensures i * PER_SECTOR + j < |fat| ==> fat[i * PER_SECTOR + j] == RawEntry(disk[g.fatStart + i], j)
  {
    FatOnDisk(g, disk);
    PlaceOf(i, j);
    hide Fits, EntrySector, EntryOffset, LoadU32;
    var c := i * PER_SECTOR + j;
    assert c < |fat| ==> fat[c] == FatEntry(disk, g.fatStart, c);
  }

  // The entry of cluster d in the FAT is there and free, whether or not the cluster is on the disk.
  ghost predicate EntryFree(disk: seq<Sector>, g: Geo, d: nat) {
    g.fatStart + EntrySector(d) < |disk| && FatEntry(disk, g.fatStart, d) == 0
  }

  // The next allocation takes a cluster behind the end of the disk: all clusters of the disk are taken, and an entry
  // further on is free.
  ghost predicate LeavesDisk(disk: seq<Sector>, g: Geo, fat: seq<nat>)
    requires Fits(g, disk) && |fat| == g.count
  {
    (forall d :: 2 <= d < g.count ==> fat[d] != 0) && exists d: nat :: g.count <= d < Entries(g) && EntryFree(disk, g, d)
  }

  lemma LeavesAt(disk: seq<Sector>, g: Geo, fat: seq<nat>, c: nat)
    requires FatStored(disk, g, fat) && 2 <= c < Entries(g) && EntryFree(disk, g, c)
    requires forall d :: 2 <= d < c && d < g.count ==> fat[d] != 0
    ensures c >= g.count <==> LeavesDisk(disk, g, fat)
  {
    hide Fits;
  }

  lemma LeavesNot(disk: seq<Sector>, g: Geo, fat: seq<nat>)
    requires Fits(g, disk) && |fat| == g.count && forall d: nat :: 2 <= d < Entries(g) ==> !EntryFree(disk, g, d)
    ensures !LeavesDisk(disk, g, fat)
  {
    hide EntryFree;
  }

  // So on the 64 MB disk, whose surplus entries the script leaves at 0, it happens as soon as the disk is full.
  lemma FullHddLeaves(disk: seq<Sector>, fat: seq<nat>)
    requires |disk| == 131072 && FatStored(disk, HDD, fat) && forall d: nat :: HDD.count <= d < Entries(HDD) ==> EntryFree(disk, HDD, d)
    ensures LeavesDisk(disk, HDD, fat) <==> forall d :: 2 <= d < HDD.count ==> fat[d] != 0
  {
    assert EntryFree(disk, HDD, HDD.count);
  }

  lemma RawIs(disk: seq<Sector>, g: Geo, i: nat, d: nat)
    requires g.fatStart + i < |disk| && i * PER_SECTOR <= d < i * PER_SECTOR + PER_SECTOR
    ensures EntryFree(disk, g, d) <==> RawEntry(disk[g.fatStart + i], d - i * PER_SECTOR) == 0
  {
    PlaceOf(i, d - i * PER_SECTOR);
    hide LoadU32;
  }

  lemma FitsOrder(g: Geo, disk: seq<Sector>)
    requires Fits(g, disk)
    ensures g.fatStart <= g.fatEnd && 2 <= g.count <= Entries(g)
  {
  }

  lemma FatOnDisk(g: Geo, disk: seq<Sector>)
    requires Fits(g, disk)
    ensures g.fatEnd <= |disk|
  {
    MulMono(0, g.count - 2, g.spc);
  }

  lemma PlaceOf(i: nat, j: nat)
    requires j < PER_SECTOR
    ensures EntrySector(i * PER_SECTOR + j) == i && EntryOffset(i * PER_SECTOR + j) == j * 4
  {
    EntryPlace(i * PER_SECTOR + j);
  }

  lemma SectorEntries(disk: seq<Sector>, g: Geo, fat: seq<nat>, i: nat)
    requires FatStored(disk, g, fat) && i < g.fatEnd - g.fatStart
    ensures g.fatStart + i < |disk|
    ensures forall c :: i * PER_SECTOR <= c < i * PER_SECTOR + PER_SECTOR && c < |fat| ==>
      fat[c] == RawEntry(disk[g.fatStart + i], c - i * PER_SECTOR)
  {
    hide FatStored, RawEntry;
    SectorEntry(disk, g, fat, i, PER_SECTOR - 1);
    forall c | i * PER_SECTOR <= c < i * PER_SECTOR + PER_SECTOR && c < |fat|
      ensures fat[c] == RawEntry(disk[g.fatStart + i], c - i * PER_SECTOR)
    {
      SectorEntry(disk, g, fat, i, c - i * PER_SECTOR);
    }
  }

  // The entry of an open file lies in a cluster of a directory.
  ghost predicate AtHome(g: Geo, fs: Fs, id: nat, l: Loc) {
    && LocOk(l) && id in fs.home && fs.home[id] in fs.owner && fs.owner[fs.home[id]] in fs.dirs
    && 2 <= fs.home[id] < g.count && InCluster(g, fs.home[id], l.sector)
  }

  // Node, file and directory entry agree.
  ghost predicate NodeOk(disk: seq<Sector>, g: Geo, fs: Fs, id: nat, n: Node) {
    && id in fs.files && id !in fs.dirs && AtHome(g, fs, id, n.loc)
    && n.first == fs.files[id].first && n.length == fs.files[id].length && n.length < UINT32
    && n.loc.sector < |disk|
    && DirFirst(disk[n.loc.sector], n.loc.offset) == n.first
    && DirSize(disk[n.loc.sector], n.loc.offset) == n.length
    && disk[n.loc.sector][n.loc.offset] != 0 && disk[n.loc.sector][n.loc.offset] != DELETED
  }

  ghost predicate NodesOk(disk: seq<Sector>, g: Geo, fs: Fs, nodes: map<nat, Node>) {
    && (forall id :: id in nodes ==> NodeOk(disk, g, fs, id, nodes[id]))
    && (forall i, j :: i in nodes && j in nodes && i != j ==> nodes[i].loc != nodes[j].loc)
  }

  ghost predicate Mounted(disk: seq<Sector>, g: Geo, fs: Fs, nodes: map<nat, Node>) {
    && FatStored(disk, g, fs.fat)
    && VolumeOk(fs.fat, g.bpc, fs.files, fs.owner)
    && NodesOk(disk, g, fs, nodes)
  }

  // The bytes of file id, up to the end of its chain.
  ghost function Contents(disk: seq<Sector>, g: Geo, fs: Fs, id: nat): seq<Byte>
    requires FatStored(disk, g, fs.fat) && VolumeOk(fs.fat, g.bpc, fs.files, fs.owner) && id in fs.files
  {
    ChainInFat(fs.fat, g.bpc, fs.files, fs.owner, id);
    Bytes(disk, g, fs.files[id].chain)
  }

  // ---------- Edits of the FAT ----------

  lemma FatEdit(disk: seq<Sector>, g: Geo, fat: seq<nat>, c: nat, v: nat)
    requires FatStored(disk, g, fat) && c < g.count && v < ENTRY_MASK
    ensures g.fatStart + EntrySector(c) < g.fatEnd <= |disk|
    ensures FatStored(SetFatEntry(disk, g.fatStart, c, v), g, fat[c := v])
  {
    FatSectorFits(g, disk, c);
    var d := SetFatEntry(disk, g.fatStart, c, v);
    forall e | 0 <= e < g.count
      ensures g.fatStart + EntrySector(e) < |d| && fat[c := v][e] == FatEntry(d, g.fatStart, e)
    {
      FatSectorFits(g, disk, e);
      SetFatEntryAt(disk, g.fatStart, c, v, e);
    }
  }

  // d differs from disk in FAT sectors only.
  ghost predicate OnlyFat(disk: seq<Sector>, d: seq<Sector>, g: Geo) {
    |d| == |disk| && forall i :: 0 <= i < |disk| && !(g.fatStart <= i < g.fatEnd) ==> d[i] == disk[i]
  }

  lemma FatEditOnly(disk: seq<Sector>, g: Geo, c: nat, v: nat)
    requires Fits(g, disk) && c < g.count && v < ENTRY_MASK
    ensures g.fatStart + EntrySector(c) < |disk| && OnlyFat(disk, SetFatEntry(disk, g.fatStart, c, v), g)
  {
    FatSectorFits(g, disk, c);
  }

  lemma OnlyFatCluster(disk: seq<Sector>, d: seq<Sector>, g: Geo, c: nat)
    requires Fits(g, disk) && Fits(g, d) && OnlyFat(disk, d, g) && 2 <= c < g.count
    ensures Cluster(d, g, c) == Cluster(disk, g, c)
  {
    LbaFits(g, disk, c);
    ClusterSame(disk, d, g, c);
  }

  lemma OnlyFatBytes(disk: seq<Sector>, d: seq<Sector>, g: Geo, ch: seq<nat>)
    requires Fits(g, disk) && Fits(g, d) && OnlyFat(disk, d, g) && InData(g, ch)
    ensures Bytes(d, g, ch) == Bytes(disk, g, ch)
  {
    forall i | 0 <= i < |ch| ensures Cluster(d, g, ch[i]) == Cluster(disk, g, ch[i]) {
      OnlyFatCluster(disk, d, g, ch[i]);
    }
    BytesSame(disk, d, g, ch);
  }

  // Directory entries are not in the FAT, so its edits leave the nodes alone as long as first cluster,
  // length and directory clusters stay.
  lemma OnlyFatNodes(disk: seq<Sector>, d: seq<Sector>, g: Geo, fs: Fs, fs': Fs, nodes: map<nat, Node>)
    requires Fits(g, disk) && OnlyFat(disk, d, g) && NodesOk(disk, g, fs, nodes)
    requires fs'.dirs == fs.dirs && fs'.home == fs.home
    requires forall c :: c in fs.owner && fs.owner[c] in fs.dirs ==> c in fs'.owner && fs'.owner[c] == fs.owner[c]
    requires forall id :: id in nodes ==> id in fs.files && id in fs'.files
    requires forall id :: id in nodes ==> fs'.files[id].first == fs.files[id].first
    requires forall id :: id in nodes ==> fs'.files[id].length == fs.files[id].length
    ensures NodesOk(d, g, fs', nodes)
  {
    forall id | id in nodes ensures NodeOk(d, g, fs', id, nodes[id]) {
      assert NodeOk(disk, g, fs, id, nodes[id]);
      LbaFits(g, disk, fs.home[id]);
    }
  }

  // ---------- Growing a file ----------

  ghost function Grown(fs: Fs, id: nat, c: nat): Fs
    requires id in fs.files && c < |fs.fat|
    requires var f := fs.files[id]; f.chain != [] ==> f.chain[|f.chain| - 1] < |fs.fat|
  {
    Fs(Extended(fs.fat, fs.files[id], c, EOC), fs.files[id := Longer(fs.files[id], c)], fs.owner[c := id], fs.dirs, fs.home)
  }

  lemma GrowMounted(disk: seq<Sector>, g: Geo, fs: Fs, nodes: map<nat, Node>, id: nat, c: nat)
    requires Mounted(disk, g, fs, nodes) && id in nodes && 2 <= c < g.count && fs.fat[c] == 0
    requires fs.files[id].chain != []
    ensures var last := fs.files[id].chain[|fs.files[id].chain| - 1];
            && last < g.count && g.fatStart + EntrySector(last) < |disk| && g.fatStart + EntrySector(c) < |disk|
            && var d := SetFatEntry(SetFatEntry(disk, g.fatStart, last, c), g.fatStart, c, EOC);
               Mounted(d, g, Grown(fs, id, c), nodes) && OnlyFat(disk, d, g)
  {
    var f := fs.files[id];
    ExtendOk(fs.fat, g.bpc, fs.files, fs.owner, id, c, EOC);
    var last := f.chain[|f.chain| - 1];
    FatEdit(disk, g, fs.fat, last, c);
    FatEditOnly(disk, g, last, c);
    var d1 := SetFatEntry(disk, g.fatStart, last, c);
    FatEdit(d1, g, fs.fat[last := c], c, EOC);
    FatEditOnly(d1, g, c, EOC);
    var d := SetFatEntry(d1, g.fatStart, c, EOC);
    FreeUnowned(fs, g, c);
    hide FatStored, VolumeOk;
    OnlyFatTrans(disk, d1, d, g);
    GrowNodes(disk, d, g, fs, nodes, id, c);
  }

  lemma FreeUnowned(fs: Fs, g: Geo, c: nat)
    requires VolumeOk(fs.fat, g.bpc, fs.files, fs.owner) && 2 <= c < |fs.fat| && fs.fat[c] == 0
    ensures c !in fs.owner
  {
  }

  lemma OnlyFatTrans(a: seq<Sector>, b: seq<Sector>, c: seq<Sector>, g: Geo)
    requires OnlyFat(a, b, g) && OnlyFat(b, c, g)
    ensures OnlyFat(a, c, g)
  {
  }

  lemma GrowNodes(disk: seq<Sector>, d: seq<Sector>, g: Geo, fs: Fs, nodes: map<nat, Node>, id: nat, c: nat)
    requires Fits(g, disk) && OnlyFat(disk, d, g) && NodesOk(disk, g, fs, nodes)
    requires id in fs.files && fs.files[id].chain != [] && c < |fs.fat| && c !in fs.owner
    requires fs.files[id].chain[|fs.files[id].chain| - 1] < |fs.fat|
    ensures NodesOk(d, g, Grown(fs, id, c), nodes)
  {
    forall n | n in nodes ensures n in fs.files { assert NodeOk(disk, g, fs, n, nodes[n]); }
    OnlyFatNodes(disk, d, g, fs, Grown(fs, id, c), nodes);
  }

  // ---------- Rewriting a cluster ----------

  lemma FatUntouched(disk: seq<Sector>, d: seq<Sector>, g: Geo, fat: seq<nat>)
    requires FatStored(disk, g, fat) && |d| == |disk|
    requires forall i :: g.fatStart <= i < g.fatEnd && i < |disk| ==> d[i] == disk[i]
    ensures FatStored(d, g, fat)
  {
    forall c | 0 <= c < g.count ensures g.fatStart + EntrySector(c) < |d| && fat[c] == FatEntry(d, g.fatStart, c) {
      FatSectorFits(g, disk, c);
    }
  }

  // A cluster of a file holds no directory entry.
  lemma FileCluster(disk: seq<Sector>, g: Geo, fs: Fs, nodes: map<nat, Node>, id: nat, c: nat, n: nat)
    requires NodesOk(disk, g, fs, nodes) && n in nodes && c in fs.owner && fs.owner[c] == id && id !in fs.dirs
    ensures !InCluster(g, c, nodes[n].loc.sector)
  {
    assert NodeOk(disk, g, fs, n, nodes[n]);
    if InCluster(g, c, nodes[n].loc.sector) {
      OneCluster(g, c, fs.home[n], nodes[n].loc.sector);
    }
  }

  lemma PutFat(disk: seq<Sector>, d: seq<Sector>, g: Geo, fat: seq<nat>, c: nat, buf: seq<Byte>)
    requires FatStored(disk, g, fat) && 2 <= c < g.count && |buf| == g.bpc && ClusterPut(disk, d, g, c, buf)
    ensures FatStored(d, g, fat)
  {
    LbaFits(g, disk, c);
    hide FatStored, Fits;
    FatUntouched(disk, d, g, fat);
  }

  lemma PutNode(disk: seq<Sector>, d: seq<Sector>, g: Geo, fs: Fs, nodes: map<nat, Node>, id: nat, c: nat,
                buf: seq<Byte>, n: nat)
    requires Fits(g, disk) && NodesOk(disk, g, fs, nodes) && c in fs.owner && fs.owner[c] == id && id !in fs.dirs
    requires 2 <= c < g.count && |buf| == g.bpc && ClusterPut(disk, d, g, c, buf) && n in nodes
    ensures NodeOk(d, g, fs, n, nodes[n])
  {
    assert NodeOk(disk, g, fs, n, nodes[n]);
    hide NodesOk, Fits, Lba;
    FileCluster(disk, g, fs, nodes, id, c, n);
  }

  lemma PutMounted(disk: seq<Sector>, d: seq<Sector>, g: Geo, fs: Fs, nodes: map<nat, Node>, id: nat, c: nat, buf: seq<Byte>)
    requires Mounted(disk, g, fs, nodes) && c in fs.owner && fs.owner[c] == id && id !in fs.dirs
    requires 2 <= c < g.count && |buf| == g.bpc && ClusterPut(disk, d, g, c, buf)
    ensures Mounted(d, g, fs, nodes)
  {
    hide FatStored, VolumeOk, NodeOk, ClusterPut, Fits;
    MountedFits(disk, g, fs, nodes);
    PutFat(disk, d, g, fs.fat, c, buf);
    forall n | n in nodes ensures NodeOk(d, g, fs, n, nodes[n]) {
      PutNode(disk, d, g, fs, nodes, id, c, buf, n);
    }
  }

  lemma MountedFits(disk: seq<Sector>, g: Geo, fs: Fs, nodes: map<nat, Node>)
    requires Mounted(disk, g, fs, nodes)
    ensures Fits(g, disk) && FatStored(disk, g, fs.fat) && VolumeOk(fs.fat, g.bpc, fs.files, fs.owner)
    ensures NodesOk(disk, g, fs, nodes) && |fs.fat| == g.count && g.count <= EOC && g.bpc > 0
  {
  }

  // ---------- Rewriting a directory entry ----------

  // t is s with only the entry at the given offset changed.
  ghost predicate OnlyEntry(s: Sector, t: Sector, at: nat) {
    forall i :: 0 <= i < SECTOR_SIZE && !(at <= i < at + DIRENT_SIZE) ==> t[i] == s[i]
  }

  // The other open files do not notice.
  lemma OtherEntry(disk: seq<Sector>, g: Geo, fs: Fs, nodes: map<nat, Node>, l: Loc, t: Sector, n: nat)
    requires NodesOk(disk, g, fs, nodes) && n in nodes && nodes[n].loc != l
    requires LocOk(l) && l.sector < |disk| && OnlyEntry(disk[l.sector], t, l.offset)
    ensures NodeOk(disk[l.sector := t], g, fs, n, nodes[n])
  {
    assert NodeOk(disk, g, fs, n, nodes[n]);
    if nodes[n].loc.sector == l.sector {
      DirentApart(disk[l.sector], t, l.offset, nodes[n].loc.offset);
    }
  }

  // A node stays right when its own file and the directory clusters are kept.
  lemma NodeCarried(disk: seq<Sector>, g: Geo, fs: Fs, fs': Fs, n: nat, node: Node)
    requires NodeOk(disk, g, fs, n, node) && n in fs'.files
    requires fs'.files[n].first == fs.files[n].first && fs'.files[n].length == fs.files[n].length
    requires fs'.dirs == fs.dirs && n in fs'.home && fs'.home[n] == fs.home[n]
    requires forall c :: c in fs.owner && fs.owner[c] in fs.dirs ==> c in fs'.owner && fs'.owner[c] == fs.owner[c]
    ensures NodeOk(disk, g, fs', n, node)
  {
  }

  // Sectors of directories are neither in the FAT nor in the clusters of files.
  lemma HomeFat(disk: seq<Sector>, g: Geo, fs: Fs, id: nat, l: Loc, t: Sector)
    requires FatStored(disk, g, fs.fat) && AtHome(g, fs, id, l)
    ensures l.sector < |disk| && l.sector >= g.fatEnd && Fits(g, disk) && Fits(g, disk[l.sector := t])
    ensures FatStored(disk[l.sector := t], g, fs.fat)
  {
    LbaFits(g, disk, fs.home[id]);
    FatUntouched(disk, disk[l.sector := t], g, fs.fat);
  }

  lemma HomeCluster(disk: seq<Sector>, g: Geo, fs: Fs, id: nat, l: Loc, t: Sector, c: nat)
    requires Fits(g, disk) && AtHome(g, fs, id, l) && l.sector < |disk| && Fits(g, disk[l.sector := t])
    requires 2 <= c < g.count && c != fs.home[id]
    ensures Cluster(disk[l.sector := t], g, c) == Cluster(disk, g, c)
  {
    hide Fits, Cluster, Lba;
    if InCluster(g, c, l.sector) { OneCluster(g, c, fs.home[id], l.sector); }
    ClusterSame(disk, disk[l.sector := t], g, c);
  }

  // The bytes of a file do not depend on directory sectors.
  lemma HomeBytes(disk: seq<Sector>, g: Geo, fs: Fs, id: nat, l: Loc, t: Sector, f: nat)
    requires FatStored(disk, g, fs.fat) && VolumeOk(fs.fat, g.bpc, fs.files, fs.owner) && AtHome(g, fs, id, l)
    requires f in fs.files && f !in fs.dirs
    ensures l.sector < |disk| && Fits(g, disk) && Fits(g, disk[l.sector := t]) && InData(g, fs.files[f].chain)
    ensures Bytes(disk[l.sector := t], g, fs.files[f].chain) == Bytes(disk, g, fs.files[f].chain)
  {
    hide Fits, Cluster, FatStored, VolumeOk, AtHome;
    HomeFat(disk, g, fs, id, l, t);
    StoredSize(disk, g, fs.fat);
    ChainInFat(fs.fat, g.bpc, fs.files, fs.owner, f);
    var ch := fs.files[f].chain;
    forall i | 0 <= i < |ch| ensures Cluster(disk[l.sector := t], g, ch[i]) == Cluster(disk, g, ch[i]) {
      ChainNotHome(g, fs, id, l, f, i);
      HomeCluster(disk, g, fs, id, l, t, ch[i]);
    }
    BytesSame(disk, disk[l.sector := t], g, ch);
  }

  lemma StoredSize(disk: seq<Sector>, g: Geo, fat: seq<nat>)
    requires FatStored(disk, g, fat)
    ensures |fat| == g.count
  {
  }

  lemma ChainNotHome(g: Geo, fs: Fs, id: nat, l: Loc, f: nat, i: nat)
    requires VolumeOk(fs.fat, g.bpc, fs.files, fs.owner) && AtHome(g, fs, id, l)
    requires f in fs.files && f !in fs.dirs && i < |fs.files[f].chain|
    ensures id in fs.home && fs.files[f].chain[i] != fs.home[id]
  {
    assert fs.owner[fs.files[f].chain[i]] == f;
  }

  // Rewriting the entry of an open file, along with the file.
  lemma EntryNodes(disk: seq<Sector>, g: Geo, fs: Fs, fs': Fs, nodes: map<nat, Node>, id: nat, t: Sector, node: Node)
    requires NodesOk(disk, g, fs, nodes) && id in nodes && id in fs.files && id in fs'.files
    requires var l := nodes[id].loc;
             && LocOk(l) && l.sector < |disk| && OnlyEntry(disk[l.sector], t, l.offset)
             && t[l.offset] != 0 && t[l.offset] != DELETED
             && node == Node(DirFirst(t, l.offset), DirSize(t, l.offset), l)
    requires node.first == fs'.files[id].first && node.length == fs'.files[id].length
    requires fs'.dirs == fs.dirs && fs'.home == fs.home && fs'.files.Keys == fs.files.Keys
    requires forall c :: c in fs.owner && fs.owner[c] in fs.dirs ==> c in fs'.owner && fs'.owner[c] == fs.owner[c]
    requires forall m :: m in fs.files && m != id ==> fs'.files[m] == fs.files[m]
    ensures NodesOk(disk[nodes[id].loc.sector := t], g, fs', nodes[id := node])
  {
    var l := nodes[id].loc;
    var d := disk[l.sector := t];
    assert NodeOk(disk, g, fs, id, nodes[id]);
    forall m | m in nodes && m != id ensures NodeOk(d, g, fs', m, nodes[m]) {
      assert NodeOk(disk, g, fs, m, nodes[m]);
      OtherEntry(disk, g, fs, nodes, l, t, m);
      NodeCarried(d, g, fs, fs', m, nodes[m]);
    }
  }

  lemma NodeFacts(disk: seq<Sector>, g: Geo, fs: Fs, nodes: map<nat, Node>, id: nat)
    requires NodesOk(disk, g, fs, nodes) && id in nodes
    ensures var n := nodes[id];
            && id in fs.files && id !in fs.dirs && AtHome(g, fs, id, n.loc) && LocOk(n.loc) && n.loc.sector < |disk|
            && n.first == fs.files[id].first && n.length == fs.files[id].length && n.length < UINT32
            && DirFirst(disk[n.loc.sector], n.loc.offset) == n.first
            && DirSize(disk[n.loc.sector], n.loc.offset) == n.length
            && disk[n.loc.sector][n.loc.offset] != 0 && disk[n.loc.sector][n.loc.offset] != DELETED
  {
    assert NodeOk(disk, g, fs, id, nodes[id]);
  }

  // fat32_update_size.
  lemma SizeMounted(disk: seq<Sector>, g: Geo, fs: Fs, nodes: map<nat, Node>, id: nat, n: nat)
    requires Mounted(disk, g, fs, nodes) && id in nodes && id in fs.files
    requires n < UINT32 && n <= |fs.files[id].chain| * g.bpc && fs.files[id].chain != []
    ensures var l := nodes[id].loc;
            && l.sector < |disk| && LocOk(l)
            && Mounted(disk[l.sector := SetDirSize(disk[l.sector], l.offset, n)], g,
                       fs.(files := fs.files[id := fs.files[id].(length := n)]), nodes[id := nodes[id].(length := n)])
  {
    hide FatStored, VolumeOk, NodesOk, Fits, AtHome, SetDirSize;
    NodeFacts(disk, g, fs, nodes, id);
    var l := nodes[id].loc;
    var t := SetDirSize(disk[l.sector], l.offset, n);
    var fs' := fs.(files := fs.files[id := fs.files[id].(length := n)]);
    HomeFat(disk, g, fs, id, l, t);
    LengthOk(fs.fat, g.bpc, fs.files, fs.owner, id, n);
    EntryNodes(disk, g, fs, fs', nodes, id, t, nodes[id].(length := n));
  }

  lemma LengthOk(fat: seq<nat>, bpc: nat, files: map<nat, File>, owner: map<nat, nat>, id: nat, n: nat)
    requires VolumeOk(fat, bpc, files, owner) && id in files && files[id].chain != [] && n <= |files[id].chain| * bpc
    ensures VolumeOk(fat, bpc, files[id := files[id].(length := n)], owner)
  {
    assert FileOk(fat, bpc, files[id]);
  }

  // The first cluster of an empty file: directory entry, then FAT, then node.
  lemma StartEntry(disk: seq<Sector>, g: Geo, fs: Fs, nodes: map<nat, Node>, id: nat, c: nat, t: Sector)
    requires Mounted(disk, g, fs, nodes) && id in nodes && id in fs.files && fs.files[id].chain == []
    requires 2 <= c < g.count && c < |fs.fat| && fs.fat[c] == 0 && c < UINT32
    requires var l := nodes[id].loc; LocOk(l) && l.sector < |disk| && t == SetDirFirst(disk[l.sector], l.offset, c)
    ensures NodesOk(disk[nodes[id].loc.sector := t], g, Grown(fs, id, c), nodes[id := nodes[id].(first := c)])
  {
    hide FatStored, VolumeOk, NodesOk, AtHome, SetDirFirst;
    MountedFits(disk, g, fs, nodes);
    NodeFacts(disk, g, fs, nodes, id);
    FreeUnowned(fs, g, c);
    EntryNodes(disk, g, fs, Grown(fs, id, c), nodes, id, t, nodes[id].(first := c));
  }

  lemma StartMounted(disk: seq<Sector>, e: seq<Sector>, d: seq<Sector>, g: Geo, fs: Fs, nodes: map<nat, Node>,
                     id: nat, c: nat, t: Sector)
    requires Mounted(disk, g, fs, nodes) && id in nodes && id in fs.files && fs.files[id].chain == []
    requires 2 <= c < g.count && c < |fs.fat| && fs.fat[c] == 0 && c < UINT32
    requires var l := nodes[id].loc; LocOk(l) && l.sector < |disk| && t == SetDirFirst(disk[l.sector], l.offset, c)
    requires e == disk[nodes[id].loc.sector := t]
    requires OnlyFat(e, d, g) && FatStored(d, g, fs.fat[c := EOC])
    ensures Mounted(d, g, Grown(fs, id, c), nodes[id := nodes[id].(first := c)])
  {
    hide FatStored, VolumeOk, NodesOk, Fits, AtHome, SetDirFirst, OnlyFat, Grown, LocOk;
    MountedFits(disk, g, fs, nodes);
    GrownFromEmpty(fs, g, id, c);
    NodeFacts(disk, g, fs, nodes, id);
    HomeFat(disk, g, fs, id, nodes[id].loc, t);
    StartEntry(disk, g, fs, nodes, id, c, t);
    OnlyFatKeepsNodes(e, d, g, Grown(fs, id, c), nodes[id := nodes[id].(first := c)]);
  }

  lemma GrownFromEmpty(fs: Fs, g: Geo, id: nat, c: nat)
    requires VolumeOk(fs.fat, g.bpc, fs.files, fs.owner) && id in fs.files && fs.files[id].chain == []
    requires 2 <= c < |fs.fat| && fs.fat[c] == 0
    ensures var u := Grown(fs, id, c); u.fat == fs.fat[c := EOC] && VolumeOk(u.fat, g.bpc, u.files, u.owner)
  {
    ExtendOk(fs.fat, g.bpc, fs.files, fs.owner, id, c, EOC);
  }

  lemma StoredFits(disk: seq<Sector>, g: Geo, fat: seq<nat>)
    requires FatStored(disk, g, fat)
    ensures Fits(g, disk)
  {
  }

  lemma OnlyFatKeepsNodes(disk: seq<Sector>, d: seq<Sector>, g: Geo, fs: Fs, nodes: map<nat, Node>)
    requires Fits(g, disk) && OnlyFat(disk, d, g) && NodesOk(disk, g, fs, nodes)
    ensures NodesOk(d, g, fs, nodes)
  {
    forall n | n in nodes ensures n in fs.files { NodeFacts(disk, g, fs, nodes, n); }
    OnlyFatNodes(disk, d, g, fs, fs, nodes);
  }

  // ---------- Freeing a chain ----------

  // The volume without the contents of file id.
  ghost function Emptied(fs: Fs, id: nat): Fs
    requires id in fs.files && forall i :: 0 <= i < |fs.files[id].chain| ==> fs.files[id].chain[i] < |fs.fat|
  {
    Fs(Cleared(fs.fat, fs.files[id].chain, |fs.files[id].chain|), fs.files[id := File(0, 0, [])],
       OwnerWithout(fs.owner, id), fs.dirs, fs.home)
  }

  ghost function Removed(fs: Fs, id: nat): Fs
    requires id in fs.files && forall i :: 0 <= i < |fs.files[id].chain| ==> fs.files[id].chain[i] < |fs.fat|
  {
    Emptied(fs, id).(files := fs.files - {id})
  }

  // Clusters of directories are not given up with a file.
  lemma DirClustersKept(fs: Fs, id: nat)
    requires id !in fs.dirs
    ensures var o := OwnerWithout(fs.owner, id);
            forall c :: c in fs.owner && fs.owner[c] in fs.dirs ==> c in o && o[c] == fs.owner[c]
  {
  }

  // After the FAT has been cleared, the entry and the node are reset.
  lemma TruncateMounted(disk: seq<Sector>, e: seq<Sector>, g: Geo, fs: Fs, nodes: map<nat, Node>, id: nat)
    requires Mounted(disk, g, fs, nodes) && id in nodes && id in fs.files && OnlyFat(disk, e, g)
    requires forall i :: 0 <= i < |fs.files[id].chain| ==> fs.files[id].chain[i] < |fs.fat|
    requires FatStored(e, g, Emptied(fs, id).fat)
    ensures var l := nodes[id].loc;
            && l.sector < |e| && LocOk(l)
            && Mounted(e[l.sector := SetDirSize(SetDirFirst(e[l.sector], l.offset, 0), l.offset, 0)], g,
                       Emptied(fs, id), nodes[id := nodes[id].(first := 0, length := 0)])
  {
    hide FatStored, VolumeOk, NodesOk, Fits, AtHome, SetDirFirst, SetDirSize, OnlyFat, Cleared, OwnerWithout;
    MountedFits(disk, g, fs, nodes);
    OnlyFatKeepsNodes(disk, e, g, fs, nodes);
    NodeFacts(e, g, fs, nodes, id);
    var fs' := Emptied(fs, id);
    ClearOk(fs.fat, g.bpc, fs.files, fs.owner, id);
    DirClustersKept(fs, id);
    var l := nodes[id].loc;
    var t := SetDirSize(SetDirFirst(e[l.sector], l.offset, 0), l.offset, 0);
    EntryNodes(e, g, fs, fs', nodes, id, t, nodes[id].(first := 0, length := 0));
    HomeFatIn(e, g, fs'.fat, fs, id, l, t);
  }

  lemma HomeFatIn(disk: seq<Sector>, g: Geo, fat: seq<nat>, fs: Fs, id: nat, l: Loc, t: Sector)
    requires FatStored(disk, g, fat) && AtHome(g, fs, id, l)
    ensures l.sector < |disk| && l.sector >= g.fatEnd && FatStored(disk[l.sector := t], g, fat)
  {
    HomeFat(disk, g, fs.(fat := fat), id, l, t);
  }

  // The entry is marked deleted and the FAT cleared; the file is gone.
  lemma UnlinkMounted(disk: seq<Sector>, e: seq<Sector>, g: Geo, fs: Fs, nodes: map<nat, Node>, id: nat, t: Sector)
    requires Mounted(disk, g, fs, nodes) && id in nodes && id in fs.files
    requires forall i :: 0 <= i < |fs.files[id].chain| ==> fs.files[id].chain[i] < |fs.fat|
    requires var l := nodes[id].loc;
             l.sector < |disk| && OnlyEntry(disk[l.sector], t, l.offset) && OnlyFat(disk[l.sector := t], e, g)
    requires FatStored(e, g, Removed(fs, id).fat)
    ensures Mounted(e, g, Removed(fs, id), nodes - {id})
  {
    hide FatStored, VolumeOk, Fits, AtHome, OnlyFat, Cleared, OwnerWithout, NodeOk, OnlyEntry;
    MountedFits(disk, g, fs, nodes);
    var fs', l := Removed(fs, id), nodes[id].loc;
    var m := disk[l.sector := t];
    NodeFacts(disk, g, fs, nodes, id);
    ClearOk(fs.fat, g.bpc, fs.files, fs.owner, id);
    DirClustersKept(fs, id);
    HomeFat(disk, g, fs, id, l, t);
    forall n | n in nodes - {id} ensures NodeOk(e, g, fs', n, (nodes - {id})[n]) {
      NodeFacts(disk, g, fs, nodes, n);
      OtherEntry(disk, g, fs, nodes, l, t, n);
      NodeCarried(m, g, fs, fs', n, nodes[n]);
      OnlyFatNode(m, e, g, fs', n, nodes[n]);
    }
  }

  lemma OnlyFatNode(disk: seq<Sector>, d: seq<Sector>, g: Geo, fs: Fs, n: nat, node: Node)
    requires Fits(g, disk) && OnlyFat(disk, d, g) && NodeOk(disk, g, fs, n, node)
    ensures NodeOk(d, g, fs, n, node)
  {
    LbaFits(g, disk, fs.home[n]);
  }

  // ---------- A new file ----------

  // File id, one cluster long and empty, with its entry in directory cluster h.
  ghost function Created(fs: Fs, id: nat, c: nat, h: nat): Fs
    requires c < |fs.fat|
  {
    Fs(fs.fat[c := EOC], fs.files[id := File(c, 0, [c])], fs.owner[c := id], fs.dirs, fs.home[id := h])
  }

  lemma CreateOk(fs: Fs, g: Geo, id: nat, c: nat)
    requires VolumeOk(fs.fat, g.bpc, fs.files, fs.owner) && id !in fs.files && 2 <= c < |fs.fat| && fs.fat[c] == 0
    ensures var u := Created(fs, id, c, 0); VolumeOk(u.fat, g.bpc, u.files, u.owner)
  {
    var files := fs.files[id := File(0, 0, [])];
    NewFileOk(fs.fat, g.bpc, fs.files, fs.owner, id);
    hide VolumeOk;
    ExtendOk(fs.fat, g.bpc, files, fs.owner, id, c, EOC);
    assert [] + [c] == [c];
    assert Longer(files[id], c) == File(c, 0, [c]);
    assert files[id := Longer(files[id], c)] == fs.files[id := File(c, 0, [c])];
  }

  lemma NewFileOk(fat: seq<nat>, bpc: nat, files: map<nat, File>, owner: map<nat, nat>, id: nat)
    requires VolumeOk(fat, bpc, files, owner) && id !in files
    ensures VolumeOk(fat, bpc, files[id := File(0, 0, [])], owner)
  {
  }

  lemma CreateMounted(disk: seq<Sector>, e: seq<Sector>, g: Geo, fs: Fs, nodes: map<nat, Node>,
                      id: nat, c: nat, h: nat, l: Loc, t: Sector)
    requires Mounted(disk, g, fs, nodes) && id !in fs.files && id !in fs.dirs && 2 <= c < g.count && c < |fs.fat| && fs.fat[c] == 0
    requires h in fs.owner && fs.owner[h] in fs.dirs && 2 <= h < g.count && InCluster(g, h, l.sector) && LocOk(l)
    requires l.sector < |disk| && (disk[l.sector][l.offset] == 0 || disk[l.sector][l.offset] == DELETED)
    requires OnlyEntry(disk[l.sector], t, l.offset) && t[l.offset] != 0 && t[l.offset] != DELETED
    requires DirFirst(t, l.offset) == c && DirSize(t, l.offset) == 0
    requires e == disk[l.sector := t]
    ensures g.fatStart + EntrySector(c) < |e|
    ensures Mounted(SetFatEntry(e, g.fatStart, c, EOC), g, Created(fs, id, c, h), nodes[id := Node(c, 0, l)])
  {
    hide FatStored, VolumeOk, Fits, SetFatEntry, OnlyFat, NodeOk, OnlyEntry, FatEntry;
    MountedFits(disk, g, fs, nodes);
    var fs' := Created(fs, id, c, h);
    CreateOk(fs, g, id, c);
    FreeUnowned(fs, g, c);
    NewHome(disk, g, fs, h, l, t);
    FatEdit(e, g, fs.fat, c, EOC);
    FatEditOnly(e, g, c, EOC);
    var d := SetFatEntry(e, g.fatStart, c, EOC);
    forall n | n in nodes ensures NodeOk(d, g, fs', n, nodes[n]) && nodes[n].loc != l && n != id {
      NodeFacts(disk, g, fs, nodes, n);
      OtherEntry(disk, g, fs, nodes, l, t, n);
      NodeCarried(e, g, fs, fs', n, nodes[n]);
      OnlyFatNode(e, d, g, fs', n, nodes[n]);
    }
    NewNode(e, g, fs', id, c, l);
    OnlyFatNode(e, d, g, fs', id, Node(c, 0, l));
  }

  lemma NewNode(e: seq<Sector>, g: Geo, fs: Fs, id: nat, c: nat, l: Loc)
    requires id in fs.files && fs.files[id] == File(c, 0, [c]) && id !in fs.dirs && id in fs.home
    requires fs.home[id] in fs.owner && fs.owner[fs.home[id]] in fs.dirs && 2 <= fs.home[id] < g.count
    requires InCluster(g, fs.home[id], l.sector) && LocOk(l) && l.sector < |e|
    requires DirFirst(e[l.sector], l.offset) == c && DirSize(e[l.sector], l.offset) == 0
    requires e[l.sector][l.offset] != 0 && e[l.sector][l.offset] != DELETED
    ensures NodeOk(e, g, fs, id, Node(c, 0, l))
  {
  }

  lemma NewHome(disk: seq<Sector>, g: Geo, fs: Fs, h: nat, l: Loc, t: Sector)
    requires FatStored(disk, g, fs.fat) && 2 <= h < g.count && InCluster(g, h, l.sector) && l.sector < |disk|
    ensures FatStored(disk[l.sector := t], g, fs.fat) && Fits(g, disk[l.sector := t]) && l.sector >= g.fatEnd
  {
    LbaFits(g, disk, h);
    FatUntouched(disk, disk[l.sector := t], g, fs.fat);
  }

  // ---------- Directories ----------

  // The clusters of directories.
  ghost function DirClusters(fs: Fs): set<nat> {
    set h | h in fs.owner && fs.owner[h] in fs.dirs
  }

  lemma DirsInData(fs: Fs, g: Geo)
    requires VolumeOk(fs.fat, g.bpc, fs.files, fs.owner) && |fs.fat| == g.count
    ensures forall h :: h in DirClusters(fs) ==> 2 <= h < g.count
  {
  }

  lemma FatKeepsDirs(disk: seq<Sector>, d: seq<Sector>, g: Geo, hs: set<nat>, l: Loc, lo: nat, hi: nat)
    requires Fits(g, disk) && OnlyFat(disk, d, g) && forall h :: h in hs ==> 2 <= h < g.count
    ensures DirsKept(disk, d, g, hs, l, lo, hi)
  {
    forall h, i: nat | h in hs && InCluster(g, h, i) && i < |disk| ensures d[i] == disk[i] {
      LbaFits(g, disk, h);
    }
  }

  lemma PutKeepsDirs(disk: seq<Sector>, d: seq<Sector>, g: Geo, hs: set<nat>, c: nat, buf: seq<Byte>, l: Loc, lo: nat, hi: nat)
    requires Fits(g, disk) && 2 <= c < g.count && |buf| == g.bpc && ClusterPut(disk, d, g, c, buf) && c !in hs
    ensures DirsKept(disk, d, g, hs, l, lo, hi)
  {
    hide Fits, Lba;
    forall h, i: nat | h in hs && InCluster(g, h, i) && i < |disk| ensures d[i] == disk[i] {
      if InCluster(g, c, i) { OneCluster(g, c, h, i); }
    }
  }

  // An entry of a file: taken, and neither a piece of a long name nor a label nor a directory.
  predicate FileEntry(s: seq<Byte>, at: nat)
    requires at + DIRENT_SIZE <= |s|
  {
    !FreeMark(s[at]) && s[at + 11] != 0x0F && s[at + 11] != 0x08 && s[at + 11] / 16 % 2 == 0
  }

  // Every entry of a file in a directory is that of one of the files.
  ghost predicate Catalogued(disk: seq<Sector>, g: Geo, hs: set<nat>, all: map<nat, Node>) {
    forall h, l: Loc ::
      h in hs && LocOk(l) && InCluster(g, h, l.sector) && l.sector < |disk| && FileEntry(disk[l.sector], l.offset) ==>
        exists id :: id in all && all[id].loc == l
  }

  // `all` is the catalogue of the volume: one entry for every file, and no entry besides.
  ghost predicate Complete(disk: seq<Sector>, g: Geo, fs: Fs, all: map<nat, Node>) {
    all.Keys == fs.files.Keys - fs.dirs && Catalogued(disk, g, DirClusters(fs), all)
  }

  ghost predicate Within(nodes: map<nat, Node>, all: map<nat, Node>) {
    forall id :: id in nodes ==> id in all && nodes[id] == all[id]
  }

  // One entry has been rewritten.
  lemma CatalogueAfter(disk: seq<Sector>, d: seq<Sector>, g: Geo, hs: set<nat>, all: map<nat, Node>, all': map<nat, Node>, l: Loc)
    requires Catalogued(disk, g, hs, all) && LocOk(l) && DirsKept(disk, d, g, hs, l, 0, DIRENT_SIZE)
    requires forall id :: id in all && all[id].loc != l ==> id in all' && all'[id].loc == all[id].loc
    requires l.sector < |d| && FileEntry(d[l.sector], l.offset) ==> exists id :: id in all' && all'[id].loc == l
    ensures Catalogued(d, g, hs, all')
  {
    hide InCluster, DirsKept, FileEntry;
    forall h, k: Loc | h in hs && LocOk(k) && InCluster(g, h, k.sector) && k.sector < |d| && FileEntry(d[k.sector], k.offset)
      ensures exists id :: id in all' && all'[id].loc == k
    {
      if k != l {
        ElsewhereKept(disk, d, g, hs, l, h, k);
        var id :| id in all && all[id].loc == k;
        assert id in all' && all'[id].loc == k;
      }
    }
  }

  lemma ElsewhereKept(disk: seq<Sector>, d: seq<Sector>, g: Geo, hs: set<nat>, l: Loc, h: nat, k: Loc)
    requires DirsKept(disk, d, g, hs, l, 0, DIRENT_SIZE) && LocOk(l) && LocOk(k) && k != l && h in hs && InCluster(g, h, k.sector) && k.sector < |d|
    ensures |d| == |disk| && (FileEntry(d[k.sector], k.offset) <==> FileEntry(disk[k.sector], k.offset))
  {
    hide InCluster;
    assert k.sector == l.sector ==> k.offset + DIRENT_SIZE <= l.offset || l.offset + DIRENT_SIZE <= k.offset;
    assert d[k.sector][k.offset] == disk[k.sector][k.offset] && d[k.sector][k.offset + 11] == disk[k.sector][k.offset + 11];
  }

  // Cluster and length of one entry, or nothing, have been rewritten.
  lemma StillComplete(disk: seq<Sector>, d: seq<Sector>, g: Geo, fs: Fs, fs': Fs, all: map<nat, Node>, all': map<nat, Node>, id: nat)
    requires Complete(disk, g, fs, all) && id in all && LocOk(all[id].loc)
    requires all'.Keys == all.Keys && forall f :: f in all ==> all'[f].loc == all[f].loc
    requires fs'.files.Keys == fs.files.Keys && fs'.dirs == fs.dirs && DirClusters(fs') == DirClusters(fs)
    requires DirsKept(disk, d, g, DirClusters(fs), all[id].loc, 20, DIRENT_SIZE)
    ensures Complete(d, g, fs', all')
  {
    hide DirClusters, Catalogued, DirsKept;
    var l := all[id].loc;
    DirsWider(disk, d, g, DirClusters(fs), l, 20, DIRENT_SIZE);
    assert all'[id].loc == l;
    CatalogueAfter(disk, d, g, DirClusters(fs), all, all', l);
  }

  // A file whose entry is marked deleted leaves no entry behind.
  lemma CompleteWithout(disk: seq<Sector>, d: seq<Sector>, g: Geo, fs: Fs, fs': Fs, all: map<nat, Node>, id: nat)
    requires Complete(disk, g, fs, all) && id in all && LocOk(all[id].loc)
    requires fs'.files == fs.files - {id} && fs'.dirs == fs.dirs && DirClusters(fs') == DirClusters(fs)
    requires var l := all[id].loc; l.sector < |d| && d[l.sector][l.offset] == DELETED && DirsKept(disk, d, g, DirClusters(fs), l, 0, 1)
    ensures Complete(d, g, fs', all - {id})
  {
    hide DirClusters, Catalogued, DirsKept;
    var l := all[id].loc;
    DirsWider(disk, d, g, DirClusters(fs), l, 0, 1);
    CatalogueAfter(disk, d, g, DirClusters(fs), all, all - {id}, l);
  }

  // A new entry is that of the new file.
  lemma CompleteWith(disk: seq<Sector>, d: seq<Sector>, g: Geo, fs: Fs, fs': Fs, all: map<nat, Node>, id: nat, node: Node)
    requires Complete(disk, g, fs, all) && id !in fs.files && id !in fs.dirs && LocOk(node.loc)
    requires fs'.files.Keys == fs.files.Keys + {id} && fs'.dirs == fs.dirs && DirClusters(fs') == DirClusters(fs)
    requires DirsKept(disk, d, g, DirClusters(fs), node.loc, 0, DIRENT_SIZE)
    ensures Complete(d, g, fs', all[id := node])
  {
    hide DirClusters, Catalogued, DirsKept;
    assert all[id := node][id].loc == node.loc;
    CatalogueAfter(disk, d, g, DirClusters(fs), all, all[id := node], node.loc);
  }

  lemma EntryKeepsDirs(disk: seq<Sector>, g: Geo, hs: set<nat>, l: Loc, t: Sector, lo: nat, hi: nat)
    requires l.sector < |disk|
    requires forall o: nat :: o < SECTOR_SIZE && !(l.offset + lo <= o < l.offset + hi) ==> t[o] == disk[l.sector][o]
    ensures DirsKept(disk, disk[l.sector := t], g, hs, l, lo, hi)
  {
  }

  // A rewritten entry, then an edit of the FAT.
  lemma EntryThenFat(disk: seq<Sector>, d: seq<Sector>, g: Geo, fs: Fs, l: Loc, t: Sector, lo: nat, hi: nat)
    requires VolumeOk(fs.fat, g.bpc, fs.files, fs.owner) && |fs.fat| == g.count && l.sector < |disk| && l.sector >= g.fatEnd
    requires forall o: nat :: o < SECTOR_SIZE && !(l.offset + lo <= o < l.offset + hi) ==> t[o] == disk[l.sector][o]
    requires Fits(g, disk[l.sector := t]) && OnlyFat(disk[l.sector := t], d, g)
    ensures DirsKept(disk, d, g, DirClusters(fs), l, lo, hi) && |d| == |disk| && d[l.sector] == t
  {
    DirsInData(fs, g);
    hide Fits, VolumeOk, DirsKept, DirClusters;
    EntryKeepsDirs(disk, g, DirClusters(fs), l, t, lo, hi);
    FatKeepsDirs(disk[l.sector := t], d, g, DirClusters(fs), l, lo, hi);
    DirsTrans(disk, disk[l.sector := t], d, g, DirClusters(fs), l, lo, hi);
  }

  // An edit of the FAT, then a rewritten entry.
  lemma FatThenEntry(disk: seq<Sector>, e: seq<Sector>, g: Geo, fs: Fs, l: Loc, t: Sector, lo: nat, hi: nat)
    requires VolumeOk(fs.fat, g.bpc, fs.files, fs.owner) && |fs.fat| == g.count && Fits(g, disk) && OnlyFat(disk, e, g) && l.sector < |e|
    requires forall o: nat :: o < SECTOR_SIZE && !(l.offset + lo <= o < l.offset + hi) ==> t[o] == e[l.sector][o]
    ensures DirsKept(disk, e[l.sector := t], g, DirClusters(fs), l, lo, hi)
  {
    DirsInData(fs, g);
    hide Fits, VolumeOk, DirsKept, DirClusters;
    FatKeepsDirs(disk, e, g, DirClusters(fs), l, lo, hi);
    EntryKeepsDirs(e, g, DirClusters(fs), l, t, lo, hi);
    DirsTrans(disk, e, e[l.sector := t], g, DirClusters(fs), l, lo, hi);
  }

  lemma GrownDirs(fs: Fs, g: Geo, id: nat, c: nat)
    requires VolumeOk(fs.fat, g.bpc, fs.files, fs.owner) && id in fs.files && id !in fs.dirs && 2 <= c < |fs.fat| && fs.fat[c] == 0
    requires var f := fs.files[id]; f.chain != [] ==> f.chain[|f.chain| - 1] < |fs.fat|
    ensures var u := Grown(fs, id, c); DirClusters(u) == DirClusters(fs) && u.files.Keys == fs.files.Keys && u.dirs == fs.dirs
  {
    FreeUnowned(fs, g, c);
    hide VolumeOk, Extended, Longer;
    OneMoreOwned(fs, Grown(fs, id, c), id, c);
  }

  // A cluster given to a file is none of a directory's.
  lemma OneMoreOwned(fs: Fs, u: Fs, id: nat, c: nat)
    requires c !in fs.owner && id !in fs.dirs && u.owner == fs.owner[c := id] && u.dirs == fs.dirs
    ensures DirClusters(u) == DirClusters(fs)
  {
  }

  lemma EmptiedDirs(fs: Fs, id: nat)
    requires id in fs.files && id !in fs.dirs && forall i :: 0 <= i < |fs.files[id].chain| ==> fs.files[id].chain[i] < |fs.fat|
    ensures var u := Emptied(fs, id);
            && DirClusters(u) == DirClusters(fs) && u.dirs == fs.dirs && u.home == fs.home
            && u.files == fs.files[id := File(0, 0, [])] && u.files.Keys == fs.files.Keys
            && u.fat == Cleared(fs.fat, fs.files[id].chain, |fs.files[id].chain|)
  {
  }

  lemma RemovedDirs(fs: Fs, id: nat)
    requires id in fs.files && id !in fs.dirs && forall i :: 0 <= i < |fs.files[id].chain| ==> fs.files[id].chain[i] < |fs.fat|
    ensures var u := Removed(fs, id);
            && DirClusters(u) == DirClusters(fs) && u.dirs == fs.dirs && u.files == fs.files - {id}
            && u.fat == Cleared(fs.fat, fs.files[id].chain, |fs.files[id].chain|)
  {
  }

  lemma CreatedDirs(fs: Fs, g: Geo, id: nat, c: nat, h: nat)
    requires VolumeOk(fs.fat, g.bpc, fs.files, fs.owner) && id !in fs.dirs && 2 <= c < |fs.fat| && fs.fat[c] == 0
    ensures var u := Created(fs, id, c, h);
            DirClusters(u) == DirClusters(fs) && u.files.Keys == fs.files.Keys + {id} && u.dirs == fs.dirs
  {
    FreeUnowned(fs, g, c);
    hide VolumeOk;
    OneMoreOwned(fs, Created(fs, id, c, h), id, c);
  }

  // ---------- The driver ----------

  class Volume {
    const cache: Cache
    const g: Geo
    var nodes: map<nat, Node>
    ghost var fs: Fs
    ghost var all: map<nat, Node>  // the catalogue: what a node for each file would be

    // Disk, table, files and catalogue agree, the directories hold no entry of a file that is not there, and the open
    // files are in the catalogue.
    ghost predicate Valid()
      reads this, cache
    {
      && cache.Ok() && cache.fatStart == g.fatStart && cache.fatEnd == g.fatEnd
      && Mounted(cache.disk, g, fs, all) && Complete(cache.disk, g, fs, all) && Within(nodes, all)
    }

    // fat32_init_fs on a well-formed image.
    constructor (image: seq<Sector>, geo: Geo, ghost what: Fs, ghost entries: map<nat, Node>)
      requires Mounted(image, geo, what, entries) && Complete(image, geo, what, entries)
      ensures Valid() && fresh(cache) && g == geo && fs == what && all == entries && nodes == map[] && cache.disk == image
    {
      hide Mounted, Fits, FatStored, VolumeOk, Complete;
      MountedFits(image, geo, what, entries);
      FatOnDisk(geo, image);
      cache := new Cache(image, geo.fatStart, geo.fatEnd);
      g := geo;
      nodes := map[];
      fs, all := what, entries;
    }

    // fat32_read_fat.
    method ReadFat(c: nat, ghost fat: seq<nat>) returns (v: nat)
      requires cache.Ok() && cache.fatStart == g.fatStart && cache.fatEnd == g.fatEnd
      requires FatStored(cache.disk, g, fat) && c < g.count
      modifies cache
      ensures cache.Ok() && cache.disk == old(cache.disk) && v == fat[c]
    {
      FatSectorFits(g, cache.disk, c);
      var s := cache.Read(g.fatStart + EntrySector(c));
      v := LoadU32(s, EntryOffset(c)) % ENTRY_MASK;
    }

    // fat32_write_fat_entry.
    method WriteFat(c: nat, v: nat, ghost fat: seq<nat>)
      requires cache.Ok() && cache.fatStart == g.fatStart && cache.fatEnd == g.fatEnd
      requires FatStored(cache.disk, g, fat) && c < g.count && v < ENTRY_MASK
      modifies cache
      ensures cache.Ok() && g.fatStart + EntrySector(c) < |old(cache.disk)|
      ensures cache.disk == SetFatEntry(old(cache.disk), g.fatStart, c, v)
      ensures FatStored(cache.disk, g, fat[c := v]) && OnlyFat(old(cache.disk), cache.disk, g)
    {
      hide FatStored, OnlyFat, Fits, StoreU32, Coherent;
      StoredFits(cache.disk, g, fat);
      FatSectorFits(g, cache.disk, c);
      FatEdit(cache.disk, g, fat, c, v);
      FatEditOnly(cache.disk, g, c, v);
      var lba := g.fatStart + EntrySector(c);
      var s := cache.Read(lba);
      cache.Write(lba, StoreU32(s, EntryOffset(c), v));
    }

    // fat32_find_free_cluster: the lowest cluster whose entry is free, whether it is on the disk or not.
    method FindFreeCluster(ghost fat: seq<nat>) returns (found: bool, c: nat)
      requires cache.Ok() && cache.fatStart == g.fatStart && cache.fatEnd == g.fatEnd
      requires FatStored(cache.disk, g, fat)
      modifies cache
      ensures cache.Ok() && cache.disk == old(cache.disk)
      ensures found ==> 2 <= c < Entries(g) && (c < g.count ==> fat[c] == 0) && (c < g.count <==> Lba(g, c) + g.spc <= |cache.disk|)
      ensures forall d :: 2 <= d < g.count && (found ==> d < c) ==> fat[d] != 0
      ensures found && c >= g.count <==> LeavesDisk(cache.disk, g, fat)
    {
      hide FatStored, Fits, RawEntry, EntryFree, LeavesDisk, Lba;
      ghost var disk := cache.disk;
      StoredFits(disk, g, fat);
      StoredSize(disk, g, fat);
      FatOnDisk(g, disk);
      FitsOrder(g, disk);
      for i := 0 to g.fatEnd - g.fatStart
        invariant cache.Ok() && cache.disk == disk
        invariant forall d :: 2 <= d < i * PER_SECTOR && d < g.count ==> fat[d] != 0
        invariant forall d: nat :: 2 <= d < i * PER_SECTOR ==> !EntryFree(disk, g, d)
      {
        var s := cache.Read(g.fatStart + i);
        SectorEntries(disk, g, fat, i);
        forall d: nat | i * PER_SECTOR <= d < i * PER_SECTOR + PER_SECTOR
          ensures EntryFree(disk, g, d) <==> RawEntry(s, d - i * PER_SECTOR) == 0
        {
          RawIs(disk, g, i, d);
        }
        found, c := ScanFatSector(i, s);
        if found {
          EntryPlace(c);
          OnDiskIff(g, disk, c);
          LeavesAt(disk, g, fat, c);
          return;
        }
      }
      LeavesNot(disk, g, fat);
      return false, 0;
    }

    // The cluster the driver goes on with.  It does not ask whether the cluster is on the disk: it marks the entry of
    // one that is not all the same, and its first access to that cluster waits for the drive for ever.  Here the
    // operation ends in front of the marking.
    method FindRoom(ghost fat: seq<nat>) returns (found: bool, c: nat)
      requires cache.Ok() && cache.fatStart == g.fatStart && cache.fatEnd == g.fatEnd
      requires FatStored(cache.disk, g, fat)
      modifies cache
      ensures cache.Ok() && cache.disk == old(cache.disk)
      ensures found ==> 2 <= c < g.count && fat[c] == 0 && forall d :: 2 <= d < c ==> fat[d] != 0
      ensures !found ==> forall d :: 2 <= d < g.count ==> fat[d] != 0
    {
      hide LeavesDisk;
      found, c := FindFreeCluster(fat);
      found := found && c < g.count;
    }

    // The first free entry, from cluster 2 on, among the 128 of the i-th FAT sector.
    method ScanFatSector(i: nat, s: Sector) returns (found: bool, c: nat)
      ensures found ==> 2 <= c && i * PER_SECTOR <= c < i * PER_SECTOR + PER_SECTOR && RawEntry(s, c - i * PER_SECTOR) == 0
      ensures forall j :: 0 <= j < PER_SECTOR && (found ==> i * PER_SECTOR + j < c) && i * PER_SECTOR + j >= 2 ==> RawEntry(s, j) != 0
    {
      for j := 0 to PER_SECTOR
        invariant forall m :: 0 <= m < j && i * PER_SECTOR + m >= 2 ==> RawEntry(s, m) != 0
      {
        var id := i * PER_SECTOR + j;
        if i == 0 && id < 2 {
          continue;
        }
        if RawEntry(s, j) == 0 {
          return true, id;
        }
      }
      return false, 0;
    }

    // ata_read_sectors on a whole cluster.
    method ReadCluster(c: nat) returns (buf: seq<Byte>)
      requires Fits(g, cache.disk) && 2 <= c < g.count
      ensures buf == Cluster(cache.disk, g, c)
    {
      LbaFits(g, cache.disk, c);
      buf := [];
      for k := 0 to g.spc
        invariant |buf| == k * SECTOR_SIZE
        invariant forall o :: 0 <= o < |buf| ==> buf[o] == cache.disk[Lba(g, c) + o / SECTOR_SIZE][o % SECTOR_SIZE]
      {
        buf := buf + cache.disk[Lba(g, c) + k];
      }
    }

    // ata_write_sectors on a whole cluster.
    method WriteCluster(c: nat, buf: seq<Byte>)
      requires cache.Ok() && cache.fatStart == g.fatStart && cache.fatEnd == g.fatEnd
      requires Fits(g, cache.disk) && 2 <= c < g.count && |buf| == g.bpc
      modifies cache
      ensures cache.Ok() && ClusterPut(old(cache.disk), cache.disk, g, c, buf)
    {
      LbaFits(g, cache.disk, c);
      for k := 0 to g.spc
        invariant cache.Ok() && |cache.disk| == |old(cache.disk)|
        invariant forall i :: 0 <= i < |cache.disk| && !(Lba(g, c) <= i < Lba(g, c) + k) ==> cache.disk[i] == old(cache.disk)[i]
        invariant forall i :: 0 <= i < k ==>
          cache.disk[Lba(g, c) + i] == buf[i * SECTOR_SIZE..i * SECTOR_SIZE + SECTOR_SIZE]
      {
        cache.WriteDirect(Lba(g, c) + k, buf[k * SECTOR_SIZE..k * SECTOR_SIZE + SECTOR_SIZE]);
      }
    }

    // The bytes of an open file, up to the end of its chain.
    ghost function Content(id: nat): seq<Byte>
      requires Valid() && id in fs.files
      reads this, cache
    {
      Contents(cache.disk, g, fs, id)
    }

    // Follows the chain of file id for k steps.
    method Seek(id: nat, k: nat) returns (c: nat)
      requires Valid() && id in nodes && id in fs.files && k < |fs.files[id].chain|
      modifies cache
      ensures Valid() && cache.disk == old(cache.disk) && c == fs.files[id].chain[k]
    {
      hide NodesOk, Complete;
      ghost var ch := fs.files[id].chain;
      NodeFacts(cache.disk, g, fs, all, id);
      assert FileOk(fs.fat, g.bpc, fs.files[id]);
      c := nodes[id].first;
      for i := 0 to k
        invariant Valid() && cache.disk == old(cache.disk) && c == ch[i]
      {
        c := ReadFat(c, fs.fat);
      }
    }

    // The end of fat32_finddir: a node for the file whose entry the search has found at l.
    method OpenEntry(id: nat, l: Loc)
      requires Valid() && id !in nodes && id in all && all[id].loc == l
      modifies this`nodes
      ensures Valid() && id in fs.files && nodes == old(nodes)[id := Node(fs.files[id].first, fs.files[id].length, l)]
    {
      hide FatStored, VolumeOk, Complete;
      NodeFacts(cache.disk, g, fs, all, id);
      var s := cache.disk[l.sector];
      nodes := nodes[id := Node(DirFirst(s, l.offset), DirSize(s, l.offset), l)];
    }

    // fat32_read; haveBuf is false when the kernel has no memory for the bounce buffer.
    method Read(id: nat, offset: nat, size: nat, haveBuf: bool) returns (out: seq<Byte>)
      requires Valid() && id in nodes && id in fs.files
      modifies cache
      ensures Valid() && cache.disk == old(cache.disk)
      ensures var n := nodes[id].length;
              n <= |Content(id)| &&
              out == if offset >= n || !haveBuf then [] else Content(id)[offset..if offset + size > n then n else offset + size]
    {
      hide NodesOk, FatStored, VolumeOk, Bytes, Cluster, Complete;
      NodeFacts(cache.disk, g, fs, all, id);
      ContentSize(cache.disk, g, fs, all, id);
      var length := nodes[id].length;
      if offset >= length || !haveBuf {
        return [];
      }
      var want := if offset + size > length then length - offset else size;
      IndexBelow(g.bpc, |fs.files[id].chain|, offset);
      var c := Seek(id, offset / g.bpc);
      out := ReadFrom(id, offset, want, offset / g.bpc, c);
    }

    // The copying loop of fat32_read.
    method ReadFrom(id: nat, offset: nat, want: nat, start: nat, first: nat) returns (out: seq<Byte>)
      requires Valid() && id in nodes && id in fs.files
      requires offset + want <= |Content(id)| && start < |fs.files[id].chain| && first == fs.files[id].chain[start]
      requires g.bpc > 0 && start == offset / g.bpc && offset == start * g.bpc + offset % g.bpc
      modifies cache
      ensures Valid() && cache.disk == old(cache.disk) && out == Content(id)[offset..offset + want]
    {
      hide NodesOk, FatStored, VolumeOk, Bytes, Cluster, Fits, FileOk, Mounted, Contents, InData, Complete;
      ghost var ch := fs.files[id].chain;
      ghost var whole := Content(id);
      ChainFacts(cache.disk, g, fs, all, id);
      var c: nat, k: nat, at: nat, rem: nat := first, start, offset % g.bpc, want;
      out := [];
      while rem > 0
        invariant Valid() && cache.disk == old(cache.disk) && 0 <= rem <= want
        invariant out == whole[offset..offset + want - rem]
        invariant rem > 0 ==> k < |ch| && c == ch[k] && at < g.bpc && k * g.bpc + at == offset + want - rem
      {
        var n := if rem < g.bpc - at then rem else g.bpc - at;
        BytesSlice(cache.disk, g, ch, k, at, n);
        var buf := ReadCluster(c);
        SliceOn(whole, offset, want - rem, n);
        out := out + buf[at..at + n];
        rem := rem - n;
        if rem > 0 {
          OneMore(k, g.bpc);
          MoreClusters(k, |ch|, g.bpc, offset + want - rem);
          c := ReadFat(c, fs.fat);
          k := k + 1;
        }
        at := 0;
      }
    }

    // One round of it: cluster c, the k-th of the file.
    method WritePart(id: nat, c: nat, ghost k: nat, ghost pos: nat, at: nat, p: seq<Byte>)
      requires pos == k * g.bpc + at
      requires Valid() && id in nodes && id in fs.files && k < |fs.files[id].chain| && c == fs.files[id].chain[k]
      requires at + |p| <= g.bpc
      modifies cache
      ensures Valid() && pos + |p| <= |old(Content(id))|
      ensures Content(id) == Splice(old(Content(id)), pos, p)
      ensures OthersSame(old(cache.disk), cache.disk, g, fs.files, fs.dirs, id)
      ensures DirsKept(old(cache.disk), cache.disk, g, DirClusters(fs), nodes[id].loc, 20, DIRENT_SIZE)
    {
      hide NodesOk, FatStored, VolumeOk, Bytes, Cluster, Fits, FileOk, OthersSame, ClusterPut, Mounted, Contents, InData, Splice, DirsKept, Complete;
      ghost var disk, ch := cache.disk, fs.files[id].chain;
      MountedFits(disk, g, fs, all);
      ChainFacts(disk, g, fs, all, id);
      NodeFacts(disk, g, fs, all, id);
      var buf := ReadCluster(c);
      buf := Splice(buf, at, p);
      WriteCluster(c, buf);
      PutMounted(disk, cache.disk, g, fs, all, id, c, buf);
      PutThenGet(disk, cache.disk, g, c, buf);
      PutKeepsDirs(disk, cache.disk, g, DirClusters(fs), c, buf, nodes[id].loc, 20, DIRENT_SIZE);
      StillComplete(disk, cache.disk, g, fs, fs, all, all, id);
      BytesSplice(disk, cache.disk, g, ch, k, at, p);
      ChainFacts(cache.disk, g, fs, all, id);
      OthersPut(disk, cache.disk, g, fs, all, id, c);
    }

    // The copying loop of fat32_write: read each cluster, change part of it, write it back.
    method WriteFrom(id: nat, offset: nat, buffer: seq<Byte>, start: nat, first: nat)
      requires Valid() && id in nodes && id in fs.files
      requires offset + |buffer| <= |Content(id)| && start < |fs.files[id].chain| && first == fs.files[id].chain[start]
      requires g.bpc > 0 && start == offset / g.bpc && offset == start * g.bpc + offset % g.bpc
      modifies cache
      ensures Valid() && Content(id) == Splice(old(Content(id)), offset, buffer)
      ensures OthersSame(old(cache.disk), cache.disk, g, fs.files, fs.dirs, id)
      ensures DirsKept(old(cache.disk), cache.disk, g, DirClusters(fs), nodes[id].loc, 20, DIRENT_SIZE)
    {
      hide NodesOk, FatStored, VolumeOk, Bytes, Cluster, Fits, FileOk, Splice, OthersSame, ClusterPut, Mounted, Contents, InData, DirsKept, Complete;
      ghost var ch := fs.files[id].chain;
      ghost var whole := Content(id);
      ChainFacts(cache.disk, g, fs, all, id);
      OthersSelf(cache.disk, g, fs, all, id);
      ghost var hs, l := DirClusters(fs), nodes[id].loc;
      DirsSelf(cache.disk, g, hs, l, 20, DIRENT_SIZE);
      SpliceNothing(whole, offset);
      var c: nat, k: nat, at: nat, done: nat := first, start, offset % g.bpc, 0;
      assert buffer[..0] == [];
      while done < |buffer|
        invariant Valid() && done <= |buffer|
        invariant Content(id) == Splice(whole, offset, buffer[..done])
        invariant OthersSame(old(cache.disk), cache.disk, g, fs.files, fs.dirs, id)
        invariant DirsKept(old(cache.disk), cache.disk, g, hs, l, 20, DIRENT_SIZE)
        invariant done < |buffer| ==> k < |ch| && c == ch[k] && at < g.bpc && k * g.bpc + at == offset + done
      {
        var rem := |buffer| - done;
        var n := if rem < g.bpc - at then rem else g.bpc - at;
        ghost var before := cache.disk;
        WritePart(id, c, k, offset + done, at, buffer[done..done + n]);
        SpliceTwice(whole, offset, buffer[..done], buffer[done..done + n]);
        assert buffer[..done] + buffer[done..done + n] == buffer[..done + n];
        OthersTrans(old(cache.disk), before, cache.disk, g, fs.files, fs.dirs, id);
        DirsTrans(old(cache.disk), before, cache.disk, g, hs, l, 20, DIRENT_SIZE);
        done := done + n;
        if done < |buffer| {
          OneMore(k, g.bpc);
          MoreClusters(k, |ch|, g.bpc, offset + done);
          ChainFacts(cache.disk, g, fs, all, id);
          c := ReadFat(c, fs.fat);
          k := k + 1;
        }
        at := 0;
      }
      assert buffer[..done] == buffer;
    }

    // The files but id are the same files, with the same bytes.
    ghost predicate OthersKept(disk: seq<Sector>, was: Fs, id: nat)
      reads this, cache
    {
      && fs.dirs == was.dirs
      && (forall f :: f in was.files && f != id ==> f in fs.files && fs.files[f] == was.files[f])
      && OthersSame(disk, cache.disk, g, was.files, was.dirs, id)
    }

    // The directories are the same clusters with the same bytes, but for bytes lo to hi of entry l, and no file's entry
    // has moved.
    ghost predicate DirsStay(disk: seq<Sector>, was: Fs, had: map<nat, Node>, l: Loc, lo: nat, hi: nat)
      reads this, cache
    {
      && DirClusters(fs) == DirClusters(was) && DirsKept(disk, cache.disk, g, DirClusters(was), l, lo, hi)
      && forall f :: f in had && f in was.files && f in fs.files ==> f in all && all[f].loc == had[f].loc
    }

    // The last cluster of a file and the number of its clusters.
    method LastCluster(id: nat) returns (last: nat, count: nat)
      requires Valid() && id in nodes && id in fs.files && fs.files[id].chain != []
      modifies cache
      ensures Valid() && cache.disk == old(cache.disk)
      ensures count == |fs.files[id].chain| && last == fs.files[id].chain[count - 1]
    {
      hide NodesOk, FatStored, VolumeOk, Bytes, Fits, FileOk, Mounted, Contents, Complete;
      ghost var ch := fs.files[id].chain;
      MountedFits(cache.disk, g, fs, all);
      ChainFacts(cache.disk, g, fs, all, id);
      NodeFacts(cache.disk, g, fs, all, id);
      var c := nodes[id].first;
      last, count := 0, 0;
      while 2 <= c < EOC
        invariant Valid() && cache.disk == old(cache.disk) && count <= |ch|
        invariant count < |ch| ==> c == ch[count]
        invariant count == |ch| ==> c >= EOC
        invariant count > 0 ==> last == ch[count - 1]
        decreases |ch| - count
      {
        last := c;
        c := ReadFat(c, fs.fat);
        count := count + 1;
      }
    }

    // A first cluster for a file that has none.
    method StartChain(id: nat) returns (ok: bool)
      requires Valid() && id in nodes && id in fs.files && fs.files[id].chain == []
      modifies this, cache
      ensures Valid() && nodes.Keys == old(nodes).Keys && id in fs.files && fs.home == old(fs).home
      ensures OthersKept(old(cache.disk), old(fs), id)
      ensures DirsStay(old(cache.disk), old(fs), old(all), old(nodes)[id].loc, 20, DIRENT_SIZE)
      ensures forall n :: n in nodes && n != id ==> nodes[n] == old(nodes)[n]
      ensures nodes[id].length == old(nodes)[id].length == 0 && nodes[id].loc == old(nodes)[id].loc
      ensures ok ==> |fs.files[id].chain| == 1
      ensures !ok ==> fs == old(fs) && nodes == old(nodes) && (forall c :: 2 <= c < |fs.fat| ==> fs.fat[c] != 0)
    {
      hide NodesOk, FatStored, VolumeOk, Bytes, Fits, Mounted, Contents, OthersSame, AtHome, OnlyFat, SetFatEntry, DirsKept, Complete, SetDirFirst;
      ghost var disk, was := cache.disk, fs;
      MountedFits(disk, g, fs, all);
      NodeFacts(disk, g, fs, all, id);
      OthersSelf(disk, g, fs, all, id);
      DirsSelf(disk, g, DirClusters(fs), nodes[id].loc, 20, DIRENT_SIZE);
      EmptyLength(disk, g, fs, all, id);
      var found, c := FindRoom(fs.fat);
      if !found {
        return false;
      }
      var l := nodes[id].loc;
      var t := SetDirFirst(cache.disk[l.sector], l.offset, c);
      HomeFat(disk, g, fs, id, l, t);
      cache.WriteDirect(l.sector, t);
      ghost var e := cache.disk;
      WriteFat(c, EOC, fs.fat);
      StoredFits(cache.disk, g, fs.fat[c := EOC]);
      StartMounted(disk, e, cache.disk, g, fs, all, id, c, t);
      OthersStart(disk, e, cache.disk, g, fs, all, id, l, t);
      EntryThenFat(disk, cache.disk, g, fs, l, t, 20, DIRENT_SIZE);
      GrownDirs(fs, g, id, c);
      StillComplete(disk, cache.disk, g, fs, Grown(fs, id, c), all, all[id := all[id].(first := c)], id);
      fs := Grown(fs, id, c);
      nodes, all := nodes[id := nodes[id].(first := c)], all[id := all[id].(first := c)];
      return true;
    }

    // Appends n clusters, the lowest free ones, to a file whose last cluster is `last`.
    method Append(id: nat, last: nat, n: nat) returns (ok: bool)
      requires Valid() && id in nodes && id in fs.files && fs.files[id].chain != []
      requires last == fs.files[id].chain[|fs.files[id].chain| - 1]
      modifies this, cache
      ensures Valid() && nodes == old(nodes) && id in fs.files && fs.home == old(fs).home
      ensures OthersKept(old(cache.disk), old(fs), id)
      ensures DirsStay(old(cache.disk), old(fs), old(all), nodes[id].loc, 20, DIRENT_SIZE)
      ensures old(fs).files[id].chain <= fs.files[id].chain
      ensures old(Content(id)) <= Content(id)
      ensures ok ==> |fs.files[id].chain| == |old(fs).files[id].chain| + n
      ensures !ok ==> forall c :: 2 <= c < |fs.fat| ==> fs.fat[c] != 0
    {
      hide NodesOk, FatStored, VolumeOk, Bytes, Fits, Mounted, Contents, OthersSame, DirsKept, Complete, DirClusters;
      ghost var disk, was, l := cache.disk, fs, nodes[id].loc;
      ghost var content := Content(id);
      DirsSelf(disk, g, DirClusters(fs), l, 20, DIRENT_SIZE);
      MountedFits(disk, g, fs, all);
      OthersSelf(disk, g, fs, all, id);
      ChainFacts(disk, g, fs, all, id);
      var prev := last;
      for i := 0 to n
        invariant Valid() && nodes == old(nodes) && id in fs.files && fs.home == was.home
        invariant OthersKept(disk, was, id) && DirsStay(disk, was, old(all), l, 20, DIRENT_SIZE) && all == old(all)
        invariant was.files[id].chain <= fs.files[id].chain && fs.files[id].chain != []
        invariant |fs.files[id].chain| == |was.files[id].chain| + i
        invariant content <= Content(id)
        invariant prev == fs.files[id].chain[|fs.files[id].chain| - 1]
      {
        ghost var before, mid, had := Content(id), cache.disk, fs;
        MountedFits(cache.disk, g, fs, all);
        var found, c := FindRoom(fs.fat);
        if !found {
          return false;
        }
        AppendOne(id, prev, c);
        OthersThroughFs(disk, mid, cache.disk, g, was, had, id);
        DirsTrans(disk, mid, cache.disk, g, DirClusters(was), l, 20, DIRENT_SIZE);
        PrefixTrans(content, before, Content(id));
        prev := c;
      }
      return true;
    }

    // Links free cluster c behind prev and ends the chain there.
    method AppendOne(id: nat, prev: nat, c: nat)
      requires Valid() && id in nodes && id in fs.files && fs.files[id].chain != []
      requires prev == fs.files[id].chain[|fs.files[id].chain| - 1] && 2 <= c < g.count && c < |fs.fat| && fs.fat[c] == 0
      modifies this, cache
      ensures Valid() && nodes == old(nodes) && all == old(all) && fs.dirs == old(fs).dirs && fs.home == old(fs).home
      ensures fs.files == old(fs).files[id := Longer(old(fs).files[id], c)]
      ensures old(Content(id)) <= Content(id)
      ensures OthersSame(old(cache.disk), cache.disk, g, old(fs).files, fs.dirs, id)
      ensures DirsStay(old(cache.disk), old(fs), old(all), nodes[id].loc, 20, DIRENT_SIZE)
    {
      hide NodesOk, FatStored, VolumeOk, Bytes, Fits, Mounted, Contents, OthersSame, OnlyFat, SetFatEntry, DirsKept, Complete, DirClusters, AtHome;
      ghost var disk, was := cache.disk, fs;
      MountedFits(disk, g, fs, all);
      ChainFacts(disk, g, fs, all, id);
      GrowMounted(disk, g, fs, all, id, c);
      WriteFat(prev, c, fs.fat);
      WriteFat(c, EOC, fs.fat[prev := c]);
      NodeFacts(disk, g, fs, all, id);
      DirsInData(fs, g);
      FatKeepsDirs(disk, cache.disk, g, DirClusters(fs), nodes[id].loc, 20, DIRENT_SIZE);
      GrownDirs(fs, g, id, c);
      StillComplete(disk, cache.disk, g, fs, Grown(fs, id, c), all, all, id);
      fs := Grown(fs, id, c);
      MountedFits(cache.disk, g, fs, all);
      ChainFacts(cache.disk, g, fs, all, id);
      OnlyFatOthers(disk, cache.disk, g, was, all, id);
      AppendedContent(disk, cache.disk, g, was.files[id].chain, c);
    }

    // fat32_update_size.
    method UpdateSize(id: nat, n: nat)
      requires Valid() && id in nodes && id in fs.files && fs.files[id].chain != []
      requires n < UINT32 && n <= |Content(id)|
      modifies this, cache
      ensures Valid() && nodes == old(nodes)[id := old(nodes)[id].(length := n)]
      ensures fs == old(fs).(files := old(fs).files[id := old(fs).files[id].(length := n)])
      ensures Content(id) == old(Content(id)) && OthersSame(old(cache.disk), cache.disk, g, old(fs).files, fs.dirs, id)
      ensures DirsStay(old(cache.disk), old(fs), old(all), old(nodes)[id].loc, 20, DIRENT_SIZE)
    {
      hide NodesOk, FatStored, VolumeOk, Bytes, Fits, Mounted, Contents, OthersSame, AtHome, SetDirSize, FileOk, DirsKept, Complete;
      ghost var disk, was := cache.disk, fs;
      MountedFits(disk, g, fs, all);
      ChainFacts(disk, g, fs, all, id);
      NodeFacts(disk, g, fs, all, id);
      SizeMounted(disk, g, fs, all, id, n);
      var l := nodes[id].loc;
      var t := SetDirSize(cache.disk[l.sector], l.offset, n);
      HomeFat(disk, g, fs, id, l, t);
      HomeBytes(disk, g, fs, id, l, t, id);
      OthersHome(disk, g, fs, all, id, l, t);
      cache.WriteDirect(l.sector, t);
      EntryKeepsDirs(disk, g, DirClusters(fs), l, t, 20, DIRENT_SIZE);
      fs := fs.(files := fs.files[id := fs.files[id].(length := n)]);
      StillComplete(disk, cache.disk, g, was, fs, all, all[id := all[id].(length := n)], id);
      nodes, all := nodes[id := nodes[id].(length := n)], all[id := all[id].(length := n)];
      MountedFits(cache.disk, g, fs, all);
      ChainFacts(cache.disk, g, fs, all, id);
    }

    // Enough clusters behind those a file has to hold `end` bytes.
    method Lengthen(id: nat, end: nat) returns (ok: bool)
      requires Valid() && id in nodes && id in fs.files && fs.files[id].chain != []
      modifies this, cache
      ensures Valid() && nodes == old(nodes) && id in fs.files && fs.home == old(fs).home
      ensures OthersKept(old(cache.disk), old(fs), id)
      ensures DirsStay(old(cache.disk), old(fs), old(all), nodes[id].loc, 20, DIRENT_SIZE)
      ensures old(Content(id)) <= Content(id)
      ensures ok ==> end <= |Content(id)| && fs.files[id].chain != [] && NoSurplus(old(fs).files[id].chain, fs.files[id].chain, g.bpc, end)
      ensures !ok ==> forall c :: 2 <= c < |fs.fat| ==> fs.fat[c] != 0
    {
      hide NodesOk, FatStored, VolumeOk, Bytes, Fits, Mounted, Contents, OthersSame, FileOk, DirsKept, Complete, DirClusters;
      DirsSelf(cache.disk, g, DirClusters(fs), nodes[id].loc, 20, DIRENT_SIZE);
      MountedFits(cache.disk, g, fs, all);
      ChainFacts(cache.disk, g, fs, all, id);
      OthersSelf(cache.disk, g, fs, all, id);
      var last, count := LastCluster(id);
      var have := count * g.bpc;
      if end > have {
        var more := (end - have + g.bpc - 1) / g.bpc;
        RoundUp(end - have, g.bpc);
        ok := Append(id, last, more);
        ChainFacts(cache.disk, g, fs, all, id);
        if ok {
          Distribute(count, more, g.bpc);
          Distribute(count, more - 1, g.bpc);
        }
        return ok;
      }
      return true;
    }

    // Room for `end` bytes: the allocation part of fat32_write.
    method Reserve(id: nat, end: nat) returns (ok: bool)
      requires Valid() && id in nodes && id in fs.files && end > 0
      modifies this, cache
      ensures Valid() && nodes.Keys == old(nodes).Keys && id in fs.files && fs.home == old(fs).home
      ensures OthersKept(old(cache.disk), old(fs), id)
      ensures DirsStay(old(cache.disk), old(fs), old(all), old(nodes)[id].loc, 20, DIRENT_SIZE)
      ensures forall n :: n in nodes && n != id ==> nodes[n] == old(nodes)[n]
      ensures nodes[id].length == old(nodes)[id].length && nodes[id].loc == old(nodes)[id].loc
      ensures old(Content(id)) <= Content(id)
      ensures ok ==> end <= |Content(id)| && fs.files[id].chain != [] && NoSurplus(old(fs).files[id].chain, fs.files[id].chain, g.bpc, end)
      ensures !ok ==> forall c :: 2 <= c < |fs.fat| ==> fs.fat[c] != 0
    {
      hide NodesOk, FatStored, VolumeOk, Bytes, Fits, Mounted, Contents, OthersSame, FileOk, DirsKept, DirClusters;
      ghost var disk, was := cache.disk, fs;
      FirstZero(disk, g, fs, all, id);
      if nodes[id].first == 0 {
        EmptyContent(disk, g, fs, all, id);
        var started := StartChain(id);
        if !started {
          return false;
        }
        ghost var mid, had := cache.disk, fs;
        ok := Lengthen(id, end);
        OthersThroughFs(disk, mid, cache.disk, g, was, had, id);
        DirsTrans(disk, mid, cache.disk, g, DirClusters(was), nodes[id].loc, 20, DIRENT_SIZE);
      } else {
        ok := Lengthen(id, end);
      }
    }

    // The part of fat32_write that moves bytes.
    method WriteAt(id: nat, offset: nat, buffer: seq<Byte>)
      requires Valid() && id in nodes && id in fs.files && buffer != [] && offset + |buffer| <= |Content(id)|
      modifies cache
      ensures Valid() && Content(id) == Splice(old(Content(id)), offset, buffer)
      ensures OthersSame(old(cache.disk), cache.disk, g, fs.files, fs.dirs, id)
      ensures DirsKept(old(cache.disk), cache.disk, g, DirClusters(fs), nodes[id].loc, 20, DIRENT_SIZE)
    {
      hide NodesOk, FatStored, VolumeOk, Bytes, Fits, Mounted, Contents, OthersSame, FileOk, Splice, DirsKept, Complete;
      ContentSize(cache.disk, g, fs, all, id);
      IndexBelow(g.bpc, |fs.files[id].chain|, offset);
      var k: nat := offset / g.bpc;
      var c := Seek(id, k);
      WriteFrom(id, offset, buffer, k, c);
    }

    // The bytes, and then the length if the file has grown.
    method WriteRange(id: nat, offset: nat, buffer: seq<Byte>)
      requires Valid() && id in nodes && id in fs.files && buffer != [] && offset + |buffer| < UINT32 && offset + |buffer| <= |Content(id)|
      modifies this, cache
      ensures var n, end := old(nodes)[id], offset + |buffer|;
              Valid() && id in fs.files && nodes == old(nodes)[id := n.(length := if end > n.length then end else n.length)]
      ensures Content(id) == Splice(old(Content(id)), offset, buffer) && OthersKept(old(cache.disk), old(fs), id)
      ensures DirsStay(old(cache.disk), old(fs), old(all), old(nodes)[id].loc, 20, DIRENT_SIZE)
      ensures fs.fat == old(fs).fat && fs.files[id].chain == old(fs).files[id].chain
    {
      hide NodesOk, FatStored, VolumeOk, Bytes, Fits, Mounted, Contents, OthersSame, FileOk, Splice, DirsKept, DirClusters, Complete;
      ghost var disk, was, l := cache.disk, fs, nodes[id].loc;
      ContentSize(disk, g, fs, all, id);
      WriteAt(id, offset, buffer);
      if offset + |buffer| > nodes[id].length {
        ghost var low := cache.disk;
        UpdateSize(id, offset + |buffer|);
        OthersThroughFs(disk, low, cache.disk, g, was, was, id);
        DirsTrans(disk, low, cache.disk, g, DirClusters(was), l, 20, DIRENT_SIZE);
      }
    }

    // fat32_write: the number of bytes written, which is all of them or none.
    method Write(id: nat, offset: nat, buffer: seq<Byte>, haveBuf: bool) returns (n: nat)
      requires Valid() && id in nodes && id in fs.files && offset + |buffer| < UINT32
      modifies this, cache
      ensures Valid() && nodes.Keys == old(nodes).Keys && id in fs.files
      ensures OthersKept(old(cache.disk), old(fs), id)
      ensures DirsStay(old(cache.disk), old(fs), old(all), old(nodes)[id].loc, 20, DIRENT_SIZE)
      ensures forall m :: m in nodes && m != id ==> nodes[m] == old(nodes)[m]
      ensures n == |buffer| || n == 0
      ensures n > 0 ==>
        && nodes[id].length == (if offset + n > old(nodes)[id].length then offset + n else old(nodes)[id].length)
        && offset + n <= |Content(id)| && Content(id)[offset..offset + n] == buffer
        && NoSurplus(old(fs).files[id].chain, fs.files[id].chain, g.bpc, offset + n)
        && |old(Content(id))| <= |Content(id)|
        && forall x :: 0 <= x < |old(Content(id))| && !(offset <= x < offset + n) ==> Content(id)[x] == old(Content(id))[x]
      ensures n == 0 ==> nodes[id].length == old(nodes)[id].length && old(Content(id)) <= Content(id)
      ensures n == 0 && |buffer| > 0 ==> !haveBuf || forall c :: 2 <= c < |fs.fat| ==> fs.fat[c] != 0
    {
      hide NodesOk, FatStored, VolumeOk, Bytes, Fits, Mounted, Contents, OthersSame, FileOk, Splice, DirsKept, DirClusters, Complete;
      ghost var disk, was, l := cache.disk, fs, nodes[id].loc;
      DirsSelf(disk, g, DirClusters(fs), l, 20, DIRENT_SIZE);
      ghost var content := Content(id);
      OthersSelf(disk, g, fs, all, id);
      ContentSize(disk, g, fs, all, id);
      if |buffer| == 0 {
        return 0;
      }
      var end := offset + |buffer|;
      if end > nodes[id].length || nodes[id].first == 0 {
        var ok := Reserve(id, end);
        if !ok {
          return 0;
        }
      }
      if !haveBuf {
        return 0;
      }
      ghost var mid, had := cache.disk, fs;
      ghost var before := Content(id);
      ContentSize(cache.disk, g, fs, all, id);
      WriteRange(id, offset, buffer);
      SpliceResult(content, before, offset, buffer);
      OthersThroughFs(disk, mid, cache.disk, g, was, had, id);
      DirsTrans(disk, mid, cache.disk, g, DirClusters(was), l, 20, DIRENT_SIZE);
      return |buffer|;
    }

    // After a successful write, a read of the same range returns the bytes written.
    method WriteThenRead(id: nat, offset: nat, buffer: seq<Byte>) returns (n: nat, back: seq<Byte>)
      requires Valid() && id in nodes && id in fs.files && offset + |buffer| < UINT32
      modifies this, cache
      ensures Valid() && (n > 0 ==> back == buffer)
    {
      hide Mounted, Contents;
      n := Write(id, offset, buffer, true);
      back := Read(id, offset, |buffer|, true);
    }

    // Frees the chain that starts at the given cluster, entry by entry.
    method FreeChain(first: nat, ghost id: nat)
      requires cache.Ok() && cache.fatStart == g.fatStart && cache.fatEnd == g.fatEnd
      requires Mounted(cache.disk, g, fs, all) && id in fs.files && first == fs.files[id].first
      modifies cache
      ensures cache.Ok() && OnlyFat(old(cache.disk), cache.disk, g)
      ensures forall i :: 0 <= i < |fs.files[id].chain| ==> fs.files[id].chain[i] < |fs.fat|
      ensures FatStored(cache.disk, g, Cleared(fs.fat, fs.files[id].chain, |fs.files[id].chain|))
    {
      hide NodesOk, FatStored, VolumeOk, Fits, Mounted, Contents, Bytes, OnlyFat, FileOk, SetFatEntry;
      ghost var ch, fat := fs.files[id].chain, fs.fat;
      ghost var disk := cache.disk;
      MountedFits(disk, g, fs, all);
      ChainFacts(disk, g, fs, all, id);
      OnlyFatSelf(disk, g);
      var c := first;
      ghost var k := 0;
      while 2 <= c < EOC
        invariant cache.Ok() && k <= |ch| && OnlyFat(disk, cache.disk, g)
        invariant FatStored(cache.disk, g, Cleared(fat, ch, k))
        invariant k < |ch| ==> c == ch[k]
        invariant k == |ch| ==> c == 0 || c >= EOC
        decreases |ch| - k
      {
        ghost var before := cache.disk;
        NotYetCleared(fat, ch, k);
        var next := ReadFat(c, Cleared(fat, ch, k));
        WriteFat(c, 0, Cleared(fat, ch, k));
        OnlyFatTrans(disk, before, cache.disk, g);
        c := next;
        k := k + 1;
      }
    }

    // fat32_truncate.
    method Truncate(id: nat)
      requires Valid() && id in nodes && id in fs.files
      modifies this, cache
      ensures Valid() && nodes == old(nodes)[id := old(nodes)[id].(first := 0, length := 0)]
      ensures fs.files == old(fs).files[id := File(0, 0, [])] && fs.home == old(fs).home
      ensures OthersKept(old(cache.disk), old(fs), id)
      ensures DirsStay(old(cache.disk), old(fs), old(all), old(nodes)[id].loc, 20, DIRENT_SIZE)
    {
      hide NodesOk, FatStored, VolumeOk, Fits, Mounted, Contents, OnlyFat, OthersSame, SetDirFirst, SetDirSize, Cleared, AtHome, DirsKept, Complete, Emptied;
      ghost var disk := cache.disk;
      MountedFits(disk, g, fs, all);
      NodeFacts(disk, g, fs, all, id);
      FreeChain(nodes[id].first, id);
      ghost var e := cache.disk;
      EmptiedDirs(fs, id);
      StoredFits(e, g, Emptied(fs, id).fat);
      OnlyFatOthers(disk, e, g, fs, all, id);
      TruncateMounted(disk, e, g, fs, all, id);
      var l := nodes[id].loc;
      var t := SetDirSize(SetDirFirst(cache.disk[l.sector], l.offset, 0), l.offset, 0);
      HomeFatIn(e, g, Emptied(fs, id).fat, fs, id, l, t);
      cache.WriteDirect(l.sector, t);
      OthersSector(disk, e, g, fs, all, id, l, t);
      FatThenEntry(disk, e, g, fs, l, t, 20, DIRENT_SIZE);
      StillComplete(disk, cache.disk, g, fs, Emptied(fs, id), all, all[id := all[id].(first := 0, length := 0)], id);
      fs := Emptied(fs, id);
      nodes, all := nodes[id := nodes[id].(first := 0, length := 0)], all[id := all[id].(first := 0, length := 0)];
    }

    // fat32_unlink: mark the entry deleted, free the chain; the node is gone afterwards.
    method Remove(id: nat)
      requires Valid() && id in nodes && id in fs.files
      modifies this, cache
      ensures Valid() && nodes == old(nodes) - {id} && fs.files == old(fs).files - {id}
      ensures OthersKept(old(cache.disk), old(fs), id)
      ensures var l := old(nodes)[id].loc; l.sector < |cache.disk| && LocOk(l) && cache.disk[l.sector][l.offset] == 0xE5
      ensures DirsStay(old(cache.disk), old(fs), old(all), old(nodes)[id].loc, 0, 1)
    {
      hide NodesOk, FatStored, VolumeOk, Fits, Mounted, Contents, OnlyFat, OthersSame, Cleared, AtHome, DirsKept, Complete, Removed, Emptied;
      ghost var disk := cache.disk;
      MountedFits(disk, g, fs, all);
      NodeFacts(disk, g, fs, all, id);
      var node := nodes[id];
      var l := node.loc;
      var t: Sector := cache.disk[l.sector][l.offset := DELETED];
      HomeFat(disk, g, fs, id, l, t);
      cache.WriteDirect(l.sector, t);
      ghost var e := cache.disk;
      WithoutMounted(disk, g, fs, all, id, l, t);
      nodes, all := nodes - {id}, all - {id};
      FreeChain(node.first, id);
      RemovedDirs(fs, id);
      StoredFits(cache.disk, g, Removed(fs, id).fat);
      UnlinkMounted(disk, cache.disk, g, fs, old(all), id, t);
      OthersStart(disk, e, cache.disk, g, fs, old(all), id, l, t);
      EntryThenFat(disk, cache.disk, g, fs, l, t, 0, 1);
      CompleteWithout(disk, cache.disk, g, fs, Removed(fs, id), old(all), id);
      fs := Removed(fs, id);
    }

    // fat32_find_free_directory_entry, in a directory that starts at cluster first: its first free entry.
    method FindFreeEntry(first: nat, ghost dir: nat) returns (found: bool, l: Loc, ghost h: nat)
      requires Valid() && dir in fs.files && first == fs.files[dir].first && fs.files[dir].chain != []
      modifies cache
      ensures Valid() && cache.disk == old(cache.disk) && Fits(g, cache.disk) && InData(g, fs.files[dir].chain)
      ensures found ==> h in fs.files[dir].chain && 2 <= h < g.count && InCluster(g, h, l.sector) && LocOk(l)
      ensures found ==> l.sector < |cache.disk| && FreeMark(cache.disk[l.sector][l.offset]) && FirstFree(cache.disk, g, fs.files[dir].chain, l)
      ensures !found ==> FullTo(cache.disk, g, fs.files[dir].chain, Slots(g, fs.files[dir].chain))
    {
      hide NodesOk, FatStored, VolumeOk, Fits, Mounted, Contents, Bytes, FileOk, InCluster, Complete, FullTo, PerCluster, Place, Entry, Host;
      ghost var ch := fs.files[dir].chain;
      MountedFits(cache.disk, g, fs, all);
      ChainFacts(cache.disk, g, fs, all, dir);
      FullNone(cache.disk, g, ch);
      var c := first;
      ghost var k := 0;
      while c < EOC
        invariant Valid() && cache.disk == old(cache.disk) && k <= |ch|
        invariant k < |ch| ==> c == ch[k]
        invariant k == |ch| ==> c >= EOC
        invariant FullTo(cache.disk, g, ch, k * PerCluster(g))
        decreases |ch| - k
      {
        ghost var i;
        found, l, i := ScanCluster(c, ch, k);
        if found {
          EntryAt(cache.disk, g, ch, i);
          return true, l, Host(g, ch, i);
        }
        c := ReadFat(c, fs.fat);
        k := k + 1;
      }
      return false, Loc(0, 0), 0;
    }

    // The first free entry of a directory cluster, the k-th of the chain, if any.
    method ScanCluster(c: nat, ghost ch: seq<nat>, ghost k: nat) returns (found: bool, l: Loc, ghost i: nat)
      requires Fits(g, cache.disk) && InData(g, ch) && k < |ch| && c == ch[k] && FullTo(cache.disk, g, ch, k * PerCluster(g))
      ensures found ==> FreeAt(cache.disk, g, ch, l, i)
      ensures !found ==> FullTo(cache.disk, g, ch, (k + 1) * PerCluster(g))
    {
      hide Fits, Lba, Entry, Place;
      var lba := Lba(g, c);
      for s := 0 to g.spc
        invariant FullTo(cache.disk, g, ch, k * PerCluster(g) + s * 16)
      {
        EntryIs(cache.disk, g, ch, k, s, 0);
        var full, at := ScanSector(cache.disk[lba + s]);
        FullOn(cache.disk, g, ch, k, s, if full then 16 else at);
        if !full {
          EntryIs(cache.disk, g, ch, k, s, at);
          PlaceIs(g, ch, k, s, at);
          return true, Loc(lba + s, at * DIRENT_SIZE), k * PerCluster(g) + s * 16 + at;
        }
      }
      OneMore(k, PerCluster(g));
      return false, Loc(0, 0), 0;
    }

    // The first free entry of a directory sector, if any.
    method ScanSector(s: Sector) returns (full: bool, at: nat)
      ensures !full ==> at < 16 && FreeMark(s[at * DIRENT_SIZE])
      ensures forall m :: 0 <= m < (if full then 16 else at) ==> !FreeMark(s[m * DIRENT_SIZE])
    {
      for j := 0 to 16
        invariant forall m :: 0 <= m < j ==> !FreeMark(s[m * DIRENT_SIZE])
      {
        if FreeMark(s[j * DIRENT_SIZE]) {
          return false, j;
        }
      }
      return true, 0;
    }

    // fat32_find_file.
    method FindFile(first: nat, ghost dir: nat, fname: seq<Byte>) returns (found: bool, l: Loc)
      requires Valid() && dir in fs.files && first == fs.files[dir].first && fs.files[dir].chain != []
      modifies cache
      ensures Valid() && cache.disk == old(cache.disk) && Fits(g, cache.disk) && InData(g, fs.files[dir].chain)
      ensures !Short(fname) ==> !found
      ensures Short(fname) ==>
        if found then Finds(cache.disk, g, fs.files[dir].chain, ShortName(fname), l) else Lacks(cache.disk, g, fs.files[dir].chain, ShortName(fname))
    {
      hide Mounted, Complete, Finds, Lacks, Fits, Short, ShortName;
      MountedFits(cache.disk, g, fs, all);
      ChainFacts(cache.disk, g, fs, all, dir);
      var ok, name := ParseName(fname);
      if !ok {
        return false, Loc(0, 0);
      }
      found, l := FindEntry(first, dir, name);
    }

    // fat32_iterate with find_cb.
    method FindEntry(first: nat, ghost dir: nat, name: seq<Byte>) returns (found: bool, l: Loc)
      requires Valid() && dir in fs.files && first == fs.files[dir].first && fs.files[dir].chain != [] && |name| == 11
      modifies cache
      ensures Valid() && cache.disk == old(cache.disk) && Fits(g, cache.disk) && InData(g, fs.files[dir].chain)
      ensures if found then Finds(cache.disk, g, fs.files[dir].chain, name, l) else Lacks(cache.disk, g, fs.files[dir].chain, name)
    {
      hide NodesOk, FatStored, VolumeOk, Fits, Mounted, Contents, Bytes, FileOk, Complete, Passed, PerCluster, HitAt, EndAt;
      ghost var ch := fs.files[dir].chain;
      MountedFits(cache.disk, g, fs, all);
      ChainFacts(cache.disk, g, fs, all, dir);
      NonePassed(cache.disk, g, ch, name);
      var c := first;
      ghost var k := 0;
      while c < EOC
        invariant Valid() && cache.disk == old(cache.disk) && k <= |ch|
        invariant k < |ch| ==> c == ch[k]
        invariant k == |ch| ==> c >= EOC
        invariant Passed(cache.disk, g, ch, name, k * PerCluster(g))
        decreases |ch| - k
      {
        var res;
        ghost var i;
        res, l, i := SearchCluster(c, name, ch, k);
        if res != Missed {
          return res == Hit, l;
        }
        c := ReadFat(c, fs.fat);
        k := k + 1;
      }
      AllPassed(cache.disk, g, ch, name);
      return false, Loc(0, 0);
    }

    method SearchCluster(c: nat, name: seq<Byte>, ghost ch: seq<nat>, ghost k: nat) returns (res: Searched, l: Loc, ghost i: nat)
      requires Fits(g, cache.disk) && InData(g, ch) && k < |ch| && c == ch[k] && |name| == 11 && Passed(cache.disk, g, ch, name, k * PerCluster(g))
      ensures res == Hit ==> HitAt(cache.disk, g, ch, name, l, i)
      ensures res == Ended ==> EndAt(cache.disk, g, ch, name, i)
      ensures res == Missed ==> Passed(cache.disk, g, ch, name, (k + 1) * PerCluster(g))
    {
      hide Fits, Lba, Entry, Place;
      var lba := Lba(g, c);
      for s := 0 to g.spc
        invariant Passed(cache.disk, g, ch, name, k * PerCluster(g) + s * 16)
      {
        EntryIs(cache.disk, g, ch, k, s, 0);
        var at;
        res, at := SearchSector(cache.disk[lba + s], name);
        PassedOn(cache.disk, g, ch, name, k, s, cache.disk[lba + s], if res == Missed then 16 else at);
        if res != Missed {
          EntryIs(cache.disk, g, ch, k, s, at);
          PlaceIs(g, ch, k, s, at);
          return res, Loc(lba + s, at * DIRENT_SIZE), k * PerCluster(g) + s * 16 + at;
        }
      }
      OneMore(k, PerCluster(g));
      return Missed, Loc(0, 0), 0;
    }

    method SearchSector(s: Sector, name: seq<Byte>) returns (res: Searched, at: nat)
      requires |name| == 11
      ensures forall m :: 0 <= m < (if res == Missed then 16 else at) ==> Passes(s, m, name)
      ensures res != Missed ==> at < 16
      ensures res == Ended ==> s[at * DIRENT_SIZE] == 0
      ensures res == Hit ==> s[at * DIRENT_SIZE] != 0 && Matches(s[at * DIRENT_SIZE..at * DIRENT_SIZE + DIRENT_SIZE], name)
    {
      for j := 0 to 16
        invariant forall m :: 0 <= m < j ==> Passes(s, m, name)
      {
        var e := s[j * DIRENT_SIZE..j * DIRENT_SIZE + DIRENT_SIZE];
        if e[0] == 0 {
          return Ended, j;
        }
        if e[0] == DELETED {
          continue;
        }
        if e[..11] == name {
          return Hit, j;
        }
      }
      return Missed, 0;
    }

    // The file is new, with the lowest free cluster and a fresh entry under which the search now finds it, and
    // everything else is as before.
    ghost predicate Entered(disk: seq<Sector>, was: Fs, had: map<nat, Node>, id: nat, dir: nat, name: seq<Byte>)
      reads this, cache
    {
      && id in fs.files && fs.files[id].length == 0 && |fs.files[id].chain| == 1 && |was.fat| == g.count && fs.files[id].first < g.count
      && fs.files == was.files[id := fs.files[id]] && OthersKept(disk, was, id)
      && (forall c :: 2 <= c < fs.files[id].first ==> was.fat[c] != 0)
      && id in all && NewEntryAt(cache.disk, all[id].loc, name, fs.files[id].first) && DirsStay(disk, was, had, all[id].loc, 0, DIRENT_SIZE)
      && dir in was.files && Fits(g, disk) && Fits(g, cache.disk) && InData(g, was.files[dir].chain)
      && Lacks(disk, g, was.files[dir].chain, name) && Finds(cache.disk, g, was.files[dir].chain, name, all[id].loc)
    }

    // The name is there already, or the disk or the directory is full.
    ghost predicate NoRoom(dir: nat, name: seq<Byte>)
      reads this, cache
    {
      && dir in fs.files && Fits(g, cache.disk) && InData(g, fs.files[dir].chain)
      && ((exists l :: Finds(cache.disk, g, fs.files[dir].chain, name, l))
          || (forall c :: 2 <= c < |fs.fat| ==> fs.fat[c] != 0)
          || FullTo(cache.disk, g, fs.files[dir].chain, Slots(g, fs.files[dir].chain)))
    }

    // fat32_create for a file.
    method CreateFile(id: nat, first: nat, ghost dir: nat, fname: seq<Byte>, buffer: bool, memory: bool) returns (created: bool, ghost made: bool)
      requires Valid() && id !in fs.files && id !in fs.dirs
      requires dir in fs.dirs && dir in fs.files && first == fs.files[dir].first && fs.files[dir].chain != []
      requires 0 !in fname && (fname != [] ==> fname[0] != DELETED)
      modifies this, cache
      ensures Valid() && (created <==> made && memory)
      ensures !Short(fname) ==> !made
      ensures Short(fname) ==> var name := ShortName(fname);
              (made <==> buffer && !old(NoRoom(dir, name))) && (made ==> Entered(old(cache.disk), old(fs), old(all), id, dir, name))
      ensures !made ==> fs == old(fs) && all == old(all) && cache.disk == old(cache.disk)
      ensures created ==> id in all && nodes == old(nodes)[id := all[id]]
      ensures !created ==> nodes == old(nodes)
    {
      hide Mounted, Complete, Short, ShortName, Volume.Entered, Volume.NoRoom, FreeMark, Within, Coherent;
      var ok, name := ParseName(fname);
      if !ok {
        return false, false;
      }
      FirstByte(fname);
      NotFree(name[0]);
      created, made := Create(id, first, dir, name, buffer, memory);
    }

    // The same on a name of eleven bytes: an empty file with one cluster and an entry in the given directory.  buffer is false when
    // there is no memory for the sector, memory when there is none for the node: then the file is on the disk all the
    // same, and the caller is told that it failed.
    method Create(id: nat, first: nat, ghost dir: nat, name: seq<Byte>, buffer: bool, memory: bool) returns (created: bool, ghost made: bool)
      requires Valid() && id !in fs.files && id !in fs.dirs
      requires dir in fs.dirs && dir in fs.files && first == fs.files[dir].first && fs.files[dir].chain != []
      requires |name| == 11 && !FreeMark(name[0])
      modifies this, cache
      ensures Valid() && (created <==> made && memory)
      ensures made <==> buffer && !old(NoRoom(dir, name))
      ensures made ==> Entered(old(cache.disk), old(fs), old(all), id, dir, name)
      ensures !made ==> fs == old(fs) && all == old(all) && cache.disk == old(cache.disk)
      ensures created ==> id in all && nodes == old(nodes)[id := all[id]]
      ensures !created ==> nodes == old(nodes)
    {
      hide NodesOk, FatStored, VolumeOk, Fits, Mounted, Contents, OnlyFat, OthersSame, Complete, FirstFree, FullTo, Finds, Lacks, InData, DirsKept,
        DirClusters, FreshEntry, InCluster, Slots;
      var c, l;
      created, c, l := Enter(id, first, dir, name, buffer);
      made := created;
      if created && !memory {
        return false, true;
      }
      if created {
        nodes := nodes[id := Node(c, 0, l)];
      }
    }

    // What of it happens on the disk.
    method Enter(ghost id: nat, first: nat, ghost dir: nat, name: seq<Byte>, buffer: bool) returns (made: bool, c: nat, l: Loc)
      requires Valid() && id !in fs.files && id !in fs.dirs
      requires dir in fs.dirs && dir in fs.files && first == fs.files[dir].first && fs.files[dir].chain != []
      requires |name| == 11 && !FreeMark(name[0])
      modifies this`fs, this`all, cache
      ensures Valid() && (made <==> buffer && !old(NoRoom(dir, name)))
      ensures made ==> Entered(old(cache.disk), old(fs), old(all), id, dir, name) && all[id] == Node(c, 0, l) && id !in nodes
      ensures !made ==> fs == old(fs) && all == old(all) && cache.disk == old(cache.disk)
    {
      hide NodesOk, FatStored, VolumeOk, Fits, Mounted, Contents, OnlyFat, OthersSame, Complete, FirstFree, FullTo, Finds, Lacks, InData, DirsKept,
        DirClusters, FreshEntry, InCluster, Slots;
      ghost var disk, was := cache.disk, fs;
      MountedFits(disk, g, fs, all);
      ChainFacts(disk, g, fs, all, dir);
      c := 0;
      var there;
      there, l := FindEntry(first, dir, name);
      if there {
        return false, 0, l;
      }
      var found, free;
      ghost var h;
      found, c := FindRoom(fs.fat);
      if !found {
        return false, 0, l;
      }
      free, l, h := FindFreeEntry(first, dir);
      if !free {
        return false, c, l;
      }
      RoomThere(disk, g, fs.files[dir].chain, name, l);
      if !buffer {
        return false, c, l;
      }
      OwnedBy(disk, g, fs, all, dir, h);
      WriteNew(id, c, l, h, name);
      MountedFits(cache.disk, g, fs, all);
      NewThere(disk, cache.disk, g, was, old(all), dir, l, name, c);
      return true, c, l;
    }

    // The entry of a new file and its cluster in the table.
    method WriteNew(ghost id: nat, c: nat, l: Loc, ghost h: nat, name: seq<Byte>)
      requires Valid() && id !in fs.files && id !in fs.dirs && |name| == 11 && !FreeMark(name[0])
      requires 2 <= c < g.count && c < |fs.fat| && fs.fat[c] == 0
      requires 2 <= h < g.count && h in fs.owner && fs.owner[h] in fs.dirs && InCluster(g, h, l.sector) && FreeLoc(cache.disk, l)
      modifies this`fs, this`all, cache
      ensures Valid() && fs == Created(old(fs), id, c, h) && all == old(all)[id := Node(c, 0, l)] && id !in old(all)
      ensures OthersKept(old(cache.disk), old(fs), id)
      ensures NewEntryAt(cache.disk, l, name, c) && DirsStay(old(cache.disk), old(fs), old(all), l, 0, DIRENT_SIZE)
    {
      hide NodesOk, FatStored, VolumeOk, Fits, Mounted, Contents, OnlyFat, OthersSame, SetFatEntry, OnlyEntry, NewEntry, DirsKept, DirClusters, Complete, FreshEntry,
        InCluster, DirFirst, DirSize, EntrySector, Created, FreeMark, Within, Volume.OthersKept, Volume.DirsStay;
      ghost var disk := cache.disk;
      MountedFits(disk, g, fs, all);
      NotOpen(disk, g, fs, all, id);
      var t := NewEntry(cache.disk[l.sector], l.offset, name, c);
      NewHome(disk, g, fs, h, l, t);
      PutNew(l, t, c, fs.fat);
      NewMounted(disk, cache.disk, g, fs, all, id, c, h, l, t);
      ghost var was, had := fs, all;
      fs, all := Created(fs, id, c, h), all[id := Node(c, 0, l)];
      NewWritten(disk, was, had, id, l);
    }

    lemma NewWritten(disk: seq<Sector>, was: Fs, had: map<nat, Node>, id: nat, l: Loc)
      requires fs.dirs == was.dirs && id !in was.files && id !in had && Within(nodes, had)
      requires id in fs.files && fs.files == was.files[id := fs.files[id]] && id in all && all == had[id := all[id]]
      requires OthersSame(disk, cache.disk, g, was.files, was.dirs, id)
      requires DirClusters(fs) == DirClusters(was) && DirsKept(disk, cache.disk, g, DirClusters(was), l, 0, DIRENT_SIZE)
      ensures Within(nodes, all) && OthersKept(disk, was, id) && DirsStay(disk, was, had, l, 0, DIRENT_SIZE)
    {
      hide OthersSame, DirsKept, DirClusters;
    }

    // The two sectors that are written for it.
    method PutNew(l: Loc, t: Sector, c: nat, ghost fat: seq<nat>)
      requires cache.Ok() && cache.fatStart == g.fatStart && cache.fatEnd == g.fatEnd && l.sector < |cache.disk| && l.sector >= g.fatEnd
      requires FatStored(cache.disk[l.sector := t], g, fat) && c < g.count
      modifies cache
      ensures cache.Ok() && g.fatStart + EntrySector(c) < |old(cache.disk)|
      ensures cache.disk == SetFatEntry(old(cache.disk)[l.sector := t], g.fatStart, c, EOC)
      ensures FatStored(cache.disk, g, fat[c := EOC]) && OnlyFat(old(cache.disk)[l.sector := t], cache.disk, g)
    {
      hide FatStored, OnlyFat, SetFatEntry, EntrySector;
      cache.WriteDirect(l.sector, t);
      WriteFat(c, EOC, fat);
    }
  }

  // A free entry of the disk.
  ghost predicate FreeLoc(disk: seq<Sector>, l: Loc) {
    LocOk(l) && l.sector < |disk| && FreeMark(disk[l.sector][l.offset])
  }

  lemma NotFree(b: Byte)
    requires b != 0 && b != 0xE5
    ensures !FreeMark(b)
  {
  }

  lemma NotOpen(disk: seq<Sector>, g: Geo, fs: Fs, nodes: map<nat, Node>, id: nat)
    requires Mounted(disk, g, fs, nodes) && id !in fs.files
    ensures id !in nodes
  {
  }

  // A directory entry fresh from fat32_create: the name, attribute 0x20, first cluster, length 0, and zeros for the rest.
  ghost predicate FreshEntry(t: Sector, at: nat, name: seq<Byte>, c: nat)
    requires at + DIRENT_SIZE <= SECTOR_SIZE
  {
    && t[at..at + 11] == name && t[at + 11] == 0x20 && DirFirst(t, at) == c && DirSize(t, at) == 0
    && (forall i :: at + 12 <= i < at + 20 || at + 22 <= i < at + 26 ==> t[i] == 0)
  }

  ghost predicate NewEntryAt(disk: seq<Sector>, l: Loc, name: seq<Byte>, c: nat) {
    LocOk(l) && l.sector < |disk| && FreshEntry(disk[l.sector], l.offset, name, c)
  }

  // The volume after fat32_create.
  lemma NewMounted(disk: seq<Sector>, d: seq<Sector>, g: Geo, fs: Fs, all: map<nat, Node>, id: nat, c: nat, h: nat, l: Loc, t: Sector)
    requires Mounted(disk, g, fs, all) && Complete(disk, g, fs, all) && id !in fs.files && id !in fs.dirs
    requires 2 <= c < g.count && c < |fs.fat| && fs.fat[c] == 0
    requires h in fs.owner && fs.owner[h] in fs.dirs && 2 <= h < g.count && InCluster(g, h, l.sector) && LocOk(l)
    requires FreeLoc(disk, l) && OnlyEntry(disk[l.sector], t, l.offset) && !FreeMark(t[l.offset])
    requires DirFirst(t, l.offset) == c && DirSize(t, l.offset) == 0
    requires g.fatStart + EntrySector(c) < |disk| && d == SetFatEntry(disk[l.sector := t], g.fatStart, c, EOC)
    requires OnlyFat(disk[l.sector := t], d, g) && FatStored(d, g, fs.fat[c := EOC])
    ensures Mounted(d, g, Created(fs, id, c, h), all[id := Node(c, 0, l)]) && Complete(d, g, Created(fs, id, c, h), all[id := Node(c, 0, l)])
    ensures OthersSame(disk, d, g, fs.files, fs.dirs, id) && l.sector < |d| && d[l.sector] == t
    ensures var u := Created(fs, id, c, h); u.files == fs.files[id := File(c, 0, [c])] && u.dirs == fs.dirs
    ensures DirClusters(Created(fs, id, c, h)) == DirClusters(fs) && DirsKept(disk, d, g, DirClusters(fs), l, 0, DIRENT_SIZE)
  {
    hide Mounted, NodesOk, FatStored, VolumeOk, Fits, OnlyFat, DirsKept, DirClusters, Complete, Created, OthersSame, SetFatEntry, OnlyEntry, InCluster, LocOk;
    MountedFits(disk, g, fs, all);
    NewHome(disk, g, fs, h, l, t);
    CreateMounted(disk, disk[l.sector := t], g, fs, all, id, c, h, l, t);
    StoredFits(d, g, fs.fat[c := EOC]);
    HomeIrrelevant(disk, g, fs, all, id, h);
    CreatedFiles(fs, id, c, h);
    OthersStart(disk, disk[l.sector := t], d, g, fs.(home := fs.home[id := h]), all, id, l, t);
    NewComplete(disk, d, g, fs, all, id, c, h, l, t);
  }

  lemma CreatedFiles(fs: Fs, id: nat, c: nat, h: nat)
    requires c < |fs.fat|
    ensures var u := Created(fs, id, c, h); u.files == fs.files[id := File(c, 0, [c])] && u.dirs == fs.dirs
  {
  }

  lemma NewComplete(disk: seq<Sector>, d: seq<Sector>, g: Geo, fs: Fs, all: map<nat, Node>, id: nat, c: nat, h: nat, l: Loc, t: Sector)
    requires VolumeOk(fs.fat, g.bpc, fs.files, fs.owner) && |fs.fat| == g.count && l.sector < |disk| && l.sector >= g.fatEnd
    requires Complete(disk, g, fs, all) && id !in fs.files && id !in fs.dirs && LocOk(l) && 2 <= c < |fs.fat| && fs.fat[c] == 0
    requires OnlyEntry(disk[l.sector], t, l.offset) && Fits(g, disk[l.sector := t]) && OnlyFat(disk[l.sector := t], d, g)
    ensures Complete(d, g, Created(fs, id, c, h), all[id := Node(c, 0, l)]) && l.sector < |d| && d[l.sector] == t
    ensures DirClusters(Created(fs, id, c, h)) == DirClusters(fs) && DirsKept(disk, d, g, DirClusters(fs), l, 0, DIRENT_SIZE)
  {
    hide VolumeOk, Fits, OnlyFat, DirsKept, DirClusters, Complete;
    OnlyEntryIs(disk[l.sector], t, l.offset);
    EntryThenFat(disk, d, g, fs, l, t, 0, DIRENT_SIZE);
    CreatedDirs(fs, g, id, c, h);
    CompleteWith(disk, d, g, fs, Created(fs, id, c, h), all, id, Node(c, 0, l));
  }

  lemma RoomThere(disk: seq<Sector>, g: Geo, ch: seq<nat>, name: seq<Byte>, l: Loc)
    requires Fits(g, disk) && InData(g, ch) && FirstFree(disk, g, ch, l) && Lacks(disk, g, ch, name)
    ensures !FullTo(disk, g, ch, Slots(g, ch)) && forall k :: !Finds(disk, g, ch, name, k)
  {
    hide Fits, Entry, Place, Finds, Lacks;
    forall k ensures !Finds(disk, g, ch, name, k) {
      if Finds(disk, g, ch, name, k) { FindsOnce(disk, g, ch, name, k); }
    }
  }

  // The clusters of a directory are among the directory clusters.
  lemma DirChain(disk: seq<Sector>, g: Geo, fs: Fs, nodes: map<nat, Node>, dir: nat)
    requires Mounted(disk, g, fs, nodes) && dir in fs.files && dir in fs.dirs
    ensures forall i :: 0 <= i < |fs.files[dir].chain| ==> fs.files[dir].chain[i] in DirClusters(fs)
  {
    ChainFacts(disk, g, fs, nodes, dir);
  }

  // After fat32_create the search finds the new entry.
  lemma NewThere(disk: seq<Sector>, d: seq<Sector>, g: Geo, fs: Fs, nodes: map<nat, Node>, dir: nat, l: Loc, name: seq<Byte>, c: nat)
    requires Mounted(disk, g, fs, nodes) && dir in fs.files && dir in fs.dirs && Fits(g, d) && |name| == 11 && !FreeMark(name[0])
    requires Fits(g, disk) && InData(g, fs.files[dir].chain)
    requires FirstFree(disk, g, fs.files[dir].chain, l) && Lacks(disk, g, fs.files[dir].chain, name)
    requires DirsKept(disk, d, g, DirClusters(fs), l, 0, DIRENT_SIZE) && NewEntryAt(d, l, name, c)
    ensures Finds(d, g, fs.files[dir].chain, name, l)
  {
    hide Mounted, FirstFree, Lacks, Finds, DirsKept, DirClusters, Fits;
    DirChain(disk, g, fs, nodes, dir);
    ChainFacts(disk, g, fs, nodes, dir);
    NewFound(disk, d, g, DirClusters(fs), fs.files[dir].chain, l, name);
  }

  // ---------- What the search finds after each operation ----------

  // After fat32_unlink the removed entry is not found under any name, and all others are found where they were.
  lemma SearchAfterUnlink(disk: seq<Sector>, d: seq<Sector>, g: Geo, fs: Fs, nodes: map<nat, Node>, dir: nat, l: Loc, name: seq<Byte>, k: Loc)
    requires Mounted(disk, g, fs, nodes) && dir in fs.files && dir in fs.dirs && Fits(g, disk) && Fits(g, d) && InData(g, fs.files[dir].chain)
    requires DirsKept(disk, d, g, DirClusters(fs), l, 0, 1) && LocOk(l) && l.sector < |d| && d[l.sector][l.offset] == DELETED
    ensures !Finds(d, g, fs.files[dir].chain, name, l)
    ensures Finds(disk, g, fs.files[dir].chain, name, k) && k != l ==> Finds(d, g, fs.files[dir].chain, name, k)
  {
    hide Mounted, Finds, DirsKept, DirClusters, Fits, Matches;
    DirChain(disk, g, fs, nodes, dir);
    DirsWider(disk, d, g, DirClusters(fs), l, 0, 1);
    var ch := fs.files[dir].chain;
    DeletedNotFound(d, g, ch, name, l);
    DeletedMatches(d[l.sector], l.offset, name);
    if Finds(disk, g, ch, name, k) && k != l { FoundStill(disk, d, g, DirClusters(fs), ch, l, name, k); }
  }

  lemma DeletedMatches(t: Sector, at: nat, name: seq<Byte>)
    requires at + DIRENT_SIZE <= SECTOR_SIZE && t[at] == DELETED
    ensures !Matches(t[at..at + DIRENT_SIZE], name)
  {
  }

  // Writing and truncating change no search.
  lemma SearchAfterWrite(disk: seq<Sector>, d: seq<Sector>, g: Geo, fs: Fs, nodes: map<nat, Node>, dir: nat, l: Loc, name: seq<Byte>, k: Loc)
    requires Mounted(disk, g, fs, nodes) && dir in fs.files && dir in fs.dirs && Fits(g, disk) && Fits(g, d) && InData(g, fs.files[dir].chain)
    requires DirsKept(disk, d, g, DirClusters(fs), l, 20, DIRENT_SIZE) && LocOk(l)
    ensures Finds(disk, g, fs.files[dir].chain, name, k) <==> Finds(d, g, fs.files[dir].chain, name, k)
  {
    hide Mounted, Finds, DirsKept, DirClusters, Fits;
    DirChain(disk, g, fs, nodes, dir);
    DirsBack(disk, d, g, DirClusters(fs), l, 20, DIRENT_SIZE);
    var ch := fs.files[dir].chain;
    if Finds(disk, g, ch, name, k) { FoundSame(disk, d, g, DirClusters(fs), ch, l, name, k); }
    if Finds(d, g, ch, name, k) { FoundSame(d, disk, g, DirClusters(fs), ch, l, name, k); }
  }

  lemma OtherName(t: Sector, at: nat, made: seq<Byte>, c: nat, name: seq<Byte>)
    requires at + DIRENT_SIZE <= SECTOR_SIZE && |made| == 11 && !FreeMark(made[0]) && FreshEntry(t, at, made, c) && name != made
    ensures t[at] != 0 && !Matches(t[at..at + DIRENT_SIZE], name)
  {
    assert t[at] == t[at..at + 11][0] && t[at..at + DIRENT_SIZE][..11] == t[at..at + 11];
  }

  // After fat32_create every other name is found where it was, in every directory.
  lemma SearchAfterCreate(disk: seq<Sector>, d: seq<Sector>, g: Geo, fs: Fs, nodes: map<nat, Node>, dir: nat, l: Loc, made: seq<Byte>, c: nat,
                          name: seq<Byte>, k: Loc)
    requires Mounted(disk, g, fs, nodes) && dir in fs.files && dir in fs.dirs && Fits(g, disk) && Fits(g, d) && InData(g, fs.files[dir].chain)
    requires DirsKept(disk, d, g, DirClusters(fs), l, 0, DIRENT_SIZE) && |made| == 11 && !FreeMark(made[0]) && NewEntryAt(d, l, made, c)
    requires Finds(disk, g, fs.files[dir].chain, name, k) && name != made && k != l
    ensures Finds(d, g, fs.files[dir].chain, name, k)
  {
    DirChain(disk, g, fs, nodes, dir);
    hide Mounted, Finds, DirsKept, DirClusters, Fits;
    OtherName(d[l.sector], l.offset, made, c, name);
    hide Matches, FreshEntry, LocOk;
    FoundStill(disk, d, g, DirClusters(fs), fs.files[dir].chain, l, name, k);
  }

  // What the search finds is the entry of a file of the volume, unless it is that of a directory or a label.
  lemma FoundIsFile(disk: seq<Sector>, g: Geo, fs: Fs, all: map<nat, Node>, dir: nat, name: seq<Byte>, l: Loc)
    requires Mounted(disk, g, fs, all) && Complete(disk, g, fs, all) && dir in fs.files && dir in fs.dirs
    requires Fits(g, disk) && InData(g, fs.files[dir].chain) && Finds(disk, g, fs.files[dir].chain, name, l)
    ensures l.sector < |disk| && LocOk(l)
    ensures FileEntry(disk[l.sector], l.offset) ==> exists id :: id in all && all[id].loc == l
  {
    DirChain(disk, g, fs, all, dir);
    hide Mounted, Entry, Place, Host, DirClusters, Fits, InCluster, LocOk;
    var ch := fs.files[dir].chain;
    var i: nat :| HitAt(disk, g, ch, name, l, i);
    EntryAt(disk, g, ch, i);
    assert Host(g, ch, i) in DirClusters(fs);
  }

  lemma OnlyEntryIs(s: Sector, t: Sector, at: nat)
    requires OnlyEntry(s, t, at)
    ensures forall i: nat :: i < SECTOR_SIZE && !(at <= i < at + DIRENT_SIZE) ==> t[i] == s[i]
  {
  }

  // The sector with a fresh entry.
  function NewEntry(s: Sector, at: nat, name: seq<Byte>, c: nat): (t: Sector)
    requires at + DIRENT_SIZE <= SECTOR_SIZE && |name| == 11 && c < UINT32
    ensures OnlyEntry(s, t, at) && t[at] == name[0] && FreshEntry(t, at, name, c)
    ensures DirFirst(t, at) == c && DirSize(t, at) == 0
  {
    var blank: seq<Byte> := [0x20, 0, 0, 0, 0, 0, 0, 0, 0, 0, 0, 0, 0, 0, 0, 0, 0, 0, 0, 0, 0];
    var u: Sector := s[..at] + name + blank + s[at + DIRENT_SIZE..];
    assert DirSize(u, at) == 0;
    SetDirFirst(u, at, c)
  }

  lemma OwnedBy(disk: seq<Sector>, g: Geo, fs: Fs, nodes: map<nat, Node>, dir: nat, h: nat)
    requires Mounted(disk, g, fs, nodes) && dir in fs.files && h in fs.files[dir].chain
    ensures h in fs.owner && fs.owner[h] == dir
  {
    ChainFacts(disk, g, fs, nodes, dir);
    var i :| 0 <= i < |fs.files[dir].chain| && fs.files[dir].chain[i] == h;
  }

  // Where the entry of a file that is not open will lie makes no difference.
  lemma HomeIrrelevant(disk: seq<Sector>, g: Geo, fs: Fs, nodes: map<nat, Node>, id: nat, h: nat)
    requires Mounted(disk, g, fs, nodes) && id !in fs.files
    ensures id !in nodes && Mounted(disk, g, fs.(home := fs.home[id := h]), nodes)
  {
    hide FatStored, VolumeOk, NodeOk, AtHome;
    forall n | n in nodes ensures n != id && NodeOk(disk, g, fs.(home := fs.home[id := h]), n, nodes[n]) {
      NodeFacts(disk, g, fs, nodes, n);
      HomeThere(disk, g, fs, n, nodes[n]);
      NodeCarried(disk, g, fs, fs.(home := fs.home[id := h]), n, nodes[n]);
    }
  }

  lemma HomeThere(disk: seq<Sector>, g: Geo, fs: Fs, n: nat, node: Node)
    requires NodeOk(disk, g, fs, n, node)
    ensures n in fs.home
  {
  }

  lemma OnlyFatSelf(disk: seq<Sector>, g: Geo)
    ensures OnlyFat(disk, disk, g)
  {
  }

  lemma NotYetCleared(fat: seq<nat>, ch: seq<nat>, k: nat)
    requires k < |ch| && (forall i :: 0 <= i < |ch| ==> ch[i] < |fat|)
    requires forall i, j :: 0 <= i < j < |ch| ==> ch[i] != ch[j]
    ensures Cleared(fat, ch, k)[ch[k]] == fat[ch[k]]
    ensures Cleared(fat, ch, k + 1) == Cleared(fat, ch, k)[ch[k] := 0]
  {
    ClearedAt(fat, ch, k, ch[k]);
  }

  // An edit of the FAT, then a rewritten directory sector.
  lemma OthersSector(disk: seq<Sector>, e: seq<Sector>, g: Geo, fs: Fs, nodes: map<nat, Node>, id: nat, l: Loc, t: Sector)
    requires Mounted(disk, g, fs, nodes) && AtHome(g, fs, id, l) && OnlyFat(disk, e, g) && Fits(g, e) && l.sector < |e|
    ensures OthersSame(disk, e[l.sector := t], g, fs.files, fs.dirs, id)
  {
    hide Fits, OnlyFat, Bytes, FatStored, VolumeOk, NodesOk, InData, AtHome;
    MountedFits(disk, g, fs, nodes);
    HomeFat(disk, g, fs, id, l, t);
    var m, d := disk[l.sector := t], e[l.sector := t];
    SectorThenFat(disk, e, g, l.sector, t);
    forall f | f in fs.files && f != id && f !in fs.dirs
      ensures InData(g, fs.files[f].chain) && Bytes(d, g, fs.files[f].chain) == Bytes(disk, g, fs.files[f].chain)
    {
      HomeBytes(disk, g, fs, id, l, t, f);
      OnlyFatBytes(m, d, g, fs.files[f].chain);
    }
  }

  lemma SectorThenFat(disk: seq<Sector>, e: seq<Sector>, g: Geo, i: nat, t: Sector)
    requires OnlyFat(disk, e, g) && i < |disk| && Fits(g, e)
    ensures OnlyFat(disk[i := t], e[i := t], g) && Fits(g, e[i := t])
  {
  }

  // Between the two halves of fat32_unlink the volume is sound without the node.
  lemma WithoutMounted(disk: seq<Sector>, g: Geo, fs: Fs, nodes: map<nat, Node>, id: nat, l: Loc, t: Sector)
    requires Mounted(disk, g, fs, nodes) && id in nodes && nodes[id].loc == l && AtHome(g, fs, id, l) && LocOk(l)
    requires l.sector < |disk| && OnlyEntry(disk[l.sector], t, l.offset)
    ensures Mounted(disk[l.sector := t], g, fs, nodes - {id})
  {
    hide FatStored, VolumeOk, AtHome, NodeOk, OnlyEntry;
    HomeFat(disk, g, fs, id, l, t);
    forall n | n in nodes - {id} ensures NodeOk(disk[l.sector := t], g, fs, n, (nodes - {id})[n]) {
      OtherEntry(disk, g, fs, nodes, l, t, n);
    }
  }

  // What a splice leaves: the new piece, and around it the bytes that were there.
  lemma SpliceResult<T>(was: seq<T>, s: seq<T>, at: nat, p: seq<T>)
    requires was <= s && at + |p| <= |s|
    ensures Splice(s, at, p)[at..at + |p|] == p && |was| <= |Splice(s, at, p)|
    ensures forall x :: 0 <= x < |was| && !(at <= x < at + |p|) ==> Splice(s, at, p)[x] == was[x]
  {
    forall x | 0 <= x < |s| ensures Splice(s, at, p)[x] == if at <= x < at + |p| then p[x - at] else s[x] {
      SpliceAt(s, at, p, x);
    }
  }

  lemma OthersHome(disk: seq<Sector>, g: Geo, fs: Fs, nodes: map<nat, Node>, id: nat, l: Loc, t: Sector)
    requires Mounted(disk, g, fs, nodes) && AtHome(g, fs, id, l) && l.sector < |disk|
    ensures OthersSame(disk, disk[l.sector := t], g, fs.files, fs.dirs, id)
  {
    hide Fits, Bytes, FatStored, VolumeOk, NodesOk, InData, AtHome;
    MountedFits(disk, g, fs, nodes);
    HomeFat(disk, g, fs, id, l, t);
    forall f | f in fs.files && f != id && f !in fs.dirs
      ensures InData(g, fs.files[f].chain)
      ensures Bytes(disk[l.sector := t], g, fs.files[f].chain) == Bytes(disk, g, fs.files[f].chain)
    {
      HomeBytes(disk, g, fs, id, l, t, f);
    }
  }

  lemma EmptyContent(disk: seq<Sector>, g: Geo, fs: Fs, nodes: map<nat, Node>, id: nat)
    requires Mounted(disk, g, fs, nodes) && id in fs.files && fs.files[id].chain == []
    ensures Contents(disk, g, fs, id) == []
  {
  }

  lemma FirstZero(disk: seq<Sector>, g: Geo, fs: Fs, nodes: map<nat, Node>, id: nat)
    requires Mounted(disk, g, fs, nodes) && id in nodes && id in fs.files
    ensures nodes[id].first == 0 <==> fs.files[id].chain == []
  {
    NodeFacts(disk, g, fs, nodes, id);
    assert FileOk(fs.fat, g.bpc, fs.files[id]);
  }

  lemma RoundUp(x: nat, b: nat)
    requires b > 0 && x > 0
    ensures var m := (x + b - 1) / b; (m - 1) * b < x <= m * b && m > 0
  {
    var m := (x + b - 1) / b;
    assert x + b - 1 == m * b + (x + b - 1) % b;
  }

  // A chain that has grown has no cluster that the end of the write does not need.
  ghost predicate NoSurplus(was: seq<nat>, ch: seq<nat>, bpc: nat, end: nat) {
    |ch| == |was| || (|ch| - 1) * bpc < end
  }

  lemma Distribute(a: nat, b: nat, k: nat)
    ensures (a + b) * k == a * k + b * k
  {
  }

  lemma OthersThroughFs(a: seq<Sector>, b: seq<Sector>, c: seq<Sector>, g: Geo, was: Fs, fs: Fs, id: nat)
    requires OthersSame(a, b, g, was.files, was.dirs, id) && OthersSame(b, c, g, fs.files, was.dirs, id)
    requires forall f :: f in was.files && f != id ==> f in fs.files && fs.files[f] == was.files[f]
    ensures OthersSame(a, c, g, was.files, was.dirs, id)
  {
    hide Bytes, Fits, InData;
  }

  lemma EmptyLength(disk: seq<Sector>, g: Geo, fs: Fs, nodes: map<nat, Node>, id: nat)
    requires Mounted(disk, g, fs, nodes) && id in nodes && id in fs.files && fs.files[id].chain == []
    ensures nodes[id].length == 0
  {
    NodeFacts(disk, g, fs, nodes, id);
    assert FileOk(fs.fat, g.bpc, fs.files[id]);
  }

  lemma PrefixTrans<T>(a: seq<T>, b: seq<T>, c: seq<T>)
    requires a <= b <= c
    ensures a <= c
  {
  }

  // New clusters come after the bytes a file already has.
  lemma AppendedContent(disk: seq<Sector>, d: seq<Sector>, g: Geo, ch: seq<nat>, c: nat)
    requires Fits(g, disk) && Fits(g, d) && OnlyFat(disk, d, g) && InData(g, ch) && InData(g, ch + [c])
    ensures Bytes(disk, g, ch) <= Bytes(d, g, ch + [c])
  {
    hide Fits, OnlyFat, Cluster, Bytes;
    assert (ch + [c])[|ch|] == c;
    OnlyFatBytes(disk, d, g, ch);
    BytesAppend(d, g, ch, [c]);
  }

  lemma OnlyFatOthers(disk: seq<Sector>, d: seq<Sector>, g: Geo, fs: Fs, nodes: map<nat, Node>, id: nat)
    requires Mounted(disk, g, fs, nodes) && Fits(g, d) && OnlyFat(disk, d, g)
    ensures OthersSame(disk, d, g, fs.files, fs.dirs, id)
  {
    hide Fits, OnlyFat, Bytes, FatStored, VolumeOk, NodesOk, InData;
    MountedFits(disk, g, fs, nodes);
    forall f | f in fs.files && f != id && f !in fs.dirs
      ensures InData(g, fs.files[f].chain) && Bytes(d, g, fs.files[f].chain) == Bytes(disk, g, fs.files[f].chain)
    {
      ChainFacts(disk, g, fs, nodes, f);
      OnlyFatBytes(disk, d, g, fs.files[f].chain);
    }
  }

  // A rewritten directory sector, then an edit of the FAT.
  lemma OthersStart(disk: seq<Sector>, e: seq<Sector>, d: seq<Sector>, g: Geo, fs: Fs, nodes: map<nat, Node>,
                    id: nat, l: Loc, t: Sector)
    requires Mounted(disk, g, fs, nodes) && AtHome(g, fs, id, l) && l.sector < |disk| && e == disk[l.sector := t]
    requires Fits(g, e) && Fits(g, d) && OnlyFat(e, d, g)
    ensures OthersSame(disk, d, g, fs.files, fs.dirs, id)
  {
    hide Fits, OnlyFat, Bytes, FatStored, VolumeOk, NodesOk, InData, AtHome;
    MountedFits(disk, g, fs, nodes);
    forall f | f in fs.files && f != id && f !in fs.dirs
      ensures InData(g, fs.files[f].chain) && Bytes(d, g, fs.files[f].chain) == Bytes(disk, g, fs.files[f].chain)
    {
      HomeBytes(disk, g, fs, id, l, t, f);
      OnlyFatBytes(e, d, g, fs.files[f].chain);
    }
  }

  // No other file has changed.
  ghost predicate OthersSame(d: seq<Sector>, e: seq<Sector>, g: Geo, files: map<nat, File>, dirs: set<nat>, id: nat) {
    && Fits(g, d) && Fits(g, e)
    && forall f :: f in files && f != id && f !in dirs ==>
         InData(g, files[f].chain) && Bytes(e, g, files[f].chain) == Bytes(d, g, files[f].chain)
  }

  lemma OthersSelf(d: seq<Sector>, g: Geo, fs: Fs, nodes: map<nat, Node>, id: nat)
    requires Mounted(d, g, fs, nodes)
    ensures OthersSame(d, d, g, fs.files, fs.dirs, id)
  {
    hide Bytes;
    forall f | f in fs.files ensures InData(g, fs.files[f].chain) {
      ChainInFat(fs.fat, g.bpc, fs.files, fs.owner, f);
    }
  }

  lemma OthersTrans(a: seq<Sector>, b: seq<Sector>, c: seq<Sector>, g: Geo, files: map<nat, File>, dirs: set<nat>, id: nat)
    requires OthersSame(a, b, g, files, dirs, id) && OthersSame(b, c, g, files, dirs, id)
    ensures OthersSame(a, c, g, files, dirs, id)
  {
    hide Bytes, Fits, InData;
  }

  // Writing a cluster of file id leaves the clusters of the others alone.
  lemma OthersPut(d: seq<Sector>, e: seq<Sector>, g: Geo, fs: Fs, nodes: map<nat, Node>, id: nat, c: nat)
    requires Mounted(d, g, fs, nodes) && Fits(g, e) && c in fs.owner && fs.owner[c] == id
    requires forall b :: 2 <= b < g.count && b != c ==> Cluster(e, g, b) == Cluster(d, g, b)
    ensures OthersSame(d, e, g, fs.files, fs.dirs, id)
  {
    hide Bytes, Cluster, Fits, NodesOk;
    MountedFits(d, g, fs, nodes);
    forall f | f in fs.files && f != id && f !in fs.dirs
      ensures InData(g, fs.files[f].chain) && Bytes(e, g, fs.files[f].chain) == Bytes(d, g, fs.files[f].chain)
    {
      ChainFacts(d, g, fs, nodes, f);
      BytesSame(d, e, g, fs.files[f].chain);
    }
  }

  lemma ContentSize(disk: seq<Sector>, g: Geo, fs: Fs, nodes: map<nat, Node>, id: nat)
    requires Mounted(disk, g, fs, nodes) && id in nodes && id in fs.files
    ensures |Contents(disk, g, fs, id)| == |fs.files[id].chain| * g.bpc && g.bpc > 0
    ensures nodes[id].length <= |fs.files[id].chain| * g.bpc
    ensures nodes[id].length > 0 ==> fs.files[id].chain != []
  {
    NodeFacts(disk, g, fs, nodes, id);
    assert FileOk(fs.fat, g.bpc, fs.files[id]);
  }

  lemma ChainFacts(disk: seq<Sector>, g: Geo, fs: Fs, nodes: map<nat, Node>, id: nat)
    requires Mounted(disk, g, fs, nodes) && id in fs.files
    ensures var ch := fs.files[id].chain;
            && InData(g, ch) && Fits(g, disk) && |fs.fat| == g.count && FatStored(disk, g, fs.fat)
            && Contents(disk, g, fs, id) == Bytes(disk, g, ch)
            && |Contents(disk, g, fs, id)| == |ch| * g.bpc
            && (forall i :: 0 <= i < |ch| - 1 ==> fs.fat[ch[i]] == ch[i + 1])
            && (ch != [] ==> fs.fat[ch[|ch| - 1]] >= EOC && fs.files[id].first == ch[0])
            && (ch == [] ==> fs.files[id].first == 0)
            && (forall i, j :: 0 <= i < j < |ch| ==> ch[i] != ch[j])
            && (forall i :: 0 <= i < |ch| ==> ch[i] in fs.owner && fs.owner[ch[i]] == id)
  {
    ChainInFat(fs.fat, g.bpc, fs.files, fs.owner, id);
    assert FileOk(fs.fat, g.bpc, fs.files[id]);
  }
}
