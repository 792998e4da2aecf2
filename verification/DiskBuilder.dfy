/**
 The image builder (make_disk.py): it lays out an image that the driver can mount, with the bytes it was given.
 */
module DiskBuilder {
  import opened SectorCache
  import opened FatBytes
  import opened FatDisk
  import opened FatFiles
  import opened FatDirs
  import opened FatVolume
  import opened Fat32
  import opened DiskImage

  const END_MARK := 0x0FFF_FFFF  // ends a chain the builder makes
  const ROOT := 0                // the number of the root directory
  const RESERVED := 32           // reserved sectors

  // The table with clusters first..first+n-1 linked in order, and the last one ending the chain.
  function Linked(fat: seq<nat>, first: nat, n: nat): (r: seq<nat>)
    requires first + n <= |fat|
    ensures |r| == |fat|
    ensures forall c :: 0 <= c < |fat| ==>
      r[c] == if first <= c < first + n then (if c + 1 == first + n then END_MARK else c + 1) else fat[c]
  {
    seq(|fat|, c requires 0 <= c < |fat| =>
      if first <= c < first + n then (if c + 1 == first + n then END_MARK else c + 1) else fat[c])
  }

  function Run(first: nat, n: nat): (ch: seq<nat>)
    ensures |ch| == n && forall i :: 0 <= i < n ==> ch[i] == first + i
  {
    seq(n, i requires 0 <= i < n => first + i)
  }

  // ---------- Geometry ----------

  // Sectors of one FAT for the given number of clusters.
  function FatSectors(clusters: nat): nat {
    (clusters * 4 + SECTOR_SIZE - 1) / SECTOR_SIZE
  }

  // The volume that __init__ lays out on `total` sectors: two FATs, then the data area.
  function GeoOf(total: nat, spc: nat): Geo
    requires spc >= 1
  {
    var n := FatSectors(total / spc);
    var start := RESERVED + 2 * n;
    var there := if total >= start then 2 + (total - start) / spc else 2;
    Geo(RESERVED, RESERVED + n, start, spc, spc * SECTOR_SIZE, if there < n * PER_SECTOR then there else n * PER_SECTOR)
  }

  lemma GeoFits(total: nat, spc: nat, image: seq<Sector>)
    requires spc >= 1 && |image| == total && GeoOf(total, spc).count >= 3
    ensures Fits(GeoOf(total, spc), image)
  {
    var g := GeoOf(total, spc);
    DivBounds(total - g.dataStart, spc);
    hide FatSectors;
    MulMono(g.count - 2, (total - g.dataStart) / spc, spc);
  }

  lemma DivBounds(a: nat, b: nat)
    requires b > 0
    ensures a / b * b <= a < (a / b + 1) * b
  {
  }

  lemma HddGeo()
    ensures GeoOf(131072, 1) == HDD
  {
  }

  // ---------- The builder ----------

  // What the image holds so far, besides the table: the entries of directories, where the entry of each file and
  // directory is, and the bytes of each file.
  datatype Made = Made(fs: Fs, recs: map<Loc, Rec>, at: map<nat, Loc>, data: map<nat, seq<Byte>>)

  // Entry l is that of file or directory id.
  ghost predicate EntryOf(m: Made, id: nat, l: Loc) {
    && l in m.recs && id in m.fs.files && id in m.fs.home && m.fs.home[id] == m.recs[l].home
    && Encodes(m.recs[l].raw, m.fs.files[id].first, m.fs.files[id].length)
  }

  // The entry says where the file begins and how long it is.
  ghost predicate Encodes(raw: seq<Byte>, first: nat, length: nat) {
    first < UINT32 && length < UINT32 && exists name, attr :: |name| == 11 && raw == EntryBytes(name, attr, first, length)
  }

  // Every file and directory has an entry of its own, but for those in `out` and the root.
  ghost predicate Listed(m: Made, out: set<nat>) {
    HaveEntries(m, out) && Apart(m.at) && AtKnown(m, out)
  }

  ghost predicate HaveEntries(m: Made, out: set<nat>) {
    forall id :: id in m.fs.files && id != ROOT && id !in out ==> id in m.at && EntryOf(m, id, m.at[id])
  }

  ghost predicate Apart(at: map<nat, Loc>) {
    forall i, j :: i in at && j in at && i != j ==> at[i] != at[j]
  }

  ghost predicate AtKnown(m: Made, out: set<nat>) {
    forall i :: i in m.at ==> m.at[i] in m.recs && i in m.fs.files && i != ROOT && i !in out
  }

  ghost predicate Records(m: Made, id: nat, l: Loc) {
    id in m.at && m.at[id] == l && id in m.fs.files && id !in m.fs.dirs
  }

  // An entry that reads as a file's is the entry of a file.
  ghost predicate Tidy(m: Made) {
    forall l :: l in m.recs && |m.recs[l].raw| == DIRENT_SIZE && FileEntry(m.recs[l].raw, 0) ==> exists id :: Records(m, id, l)
  }

  // A piece of a long name.
  predicate LongPiece(raw: seq<Byte>) {
    Live(raw) && raw[11] == 0x0F
  }

  // The table: a well-formed volume whose clusters are handed out in order.
  ghost predicate TableOk(g: Geo, fat: seq<nat>, next: nat, fs: Fs) {
    && fs.fat == fat && |fat| == g.count && VolumeOk(fat, g.bpc, fs.files, fs.owner) && 2 <= next <= |fat|
    && (forall c :: next <= c < |fat| ==> fat[c] == 0) && (forall c :: 0 <= c < |fat| ==> fat[c] < ENTRY_MASK)
  }

  // The image: entries, bytes, and clusters that are still blank.
  ghost predicate ImageOk(g: Geo, image: seq<Sector>, next: nat, m: Made) {
    Fits(g, image) && RecsOk(image, g, m.fs, m.recs) && DataOk(image, g, m.fs, m.data) && Blank(image, g, next)
  }

  ghost predicate DirsOk(fs: Fs) {
    ROOT in fs.dirs && forall d :: d in fs.dirs ==> d in fs.files && fs.files[d].chain != [] && fs.files[d].length == 0
  }

  class Builder {
    const total: nat
    const clusters: nat  // how long the script's table is
    const g: Geo
    var image: seq<Sector>
    var fat: seq<nat>  // the table, as far as its clusters are on the disk
    var next: nat      // next_free_cluster
    ghost var m: Made

    // `out` are files that have no directory entry yet.
    ghost predicate Ok(out: set<nat>)
      reads this
    {
      |image| == total && GeoFat(g) && TableOk(g, fat, next, m.fs) && ImageOk(g, image, next, m) && DirsOk(m.fs) && Listed(m, out)
    }

    // __init__: an empty table, then the root directory in cluster 2.
    constructor (sectors: nat, spc: nat)
      requires spc >= 1 && sectors / spc >= 3 && 3 <= GeoOf(sectors, spc).count <= EOC
      ensures Ok({}) && total == sectors && clusters == sectors / spc && g == GeoOf(sectors, spc) && next == 3
      ensures m.fs.files == map[ROOT := File(2, 0, [2])] && m.fs.dirs == {ROOT} && m.data == map[] && m.recs == map[] && Tidy(m)
    {
      total, clusters, g := sectors, sectors / spc, GeoOf(sectors, spc);
      image := seq(sectors, _ => seq(SECTOR_SIZE, _ => 0));
      fat := NewTable(GeoOf(sectors, spc).count);
      next := 3;
      m := Made(Fs(NewTable(GeoOf(sectors, spc).count), map[ROOT := File(2, 0, [2])], map[2 := ROOT], {ROOT}, map[]), map[], map[], map[]);
      new;
      hide GeoOf;
      GeoFits(sectors, spc, image);
      NewTableOk(g);
      AllBlank(image, g);
      FirstImage(image, g, m);
    }

    // n times alloc_cluster, then the links between the clusters.
    method LinkRun(n: nat) returns (t: seq<nat>)
      requires 1 <= n && next + n <= |fat|
      ensures t == Linked(fat, next, n)
    {
      t := fat;
      for i := 0 to n
        invariant |t| == |fat|
        invariant forall c :: 0 <= c < |fat| ==> t[c] == if next <= c < next + i then END_MARK else fat[c]
      {
        t := t[next + i := END_MARK];
      }
      for i := 0 to n - 1
        invariant |t| == |fat|
        invariant forall c :: 0 <= c < |fat| ==>
          t[c] == if next <= c < next + i then c + 1 else if next <= c < next + n then END_MARK else fat[c]
      {
        t := t[next + i := next + i + 1];
      }
    }

    // A chain of n clusters for a new file or directory.
    method Claim(ghost id: nat, n: nat, ghost length: nat, ghost dir: bool)
      requires Ok({}) && id !in m.fs.files && 1 <= n && next + n <= |fat| && length <= n * g.bpc && (dir ==> length == 0)
      modifies this`fat, this`next, this`m
      ensures Ok({id}) && next == old(next) + n && |fat| == |old(fat)|
      ensures m == old(m).(fs := Claimed(old(m.fs), fat, id, old(next), n, length, dir))
    {
      hide VolumeOk, Claims, IsChain, RecsOk, DataOk, Blank, Fits, EntryOf, Linked, Run;
      var t := LinkRun(n);
      ghost var to := m.(fs := Claimed(m.fs, t, id, next, n, length, dir));
      ClaimTable(g, fat, next, m.fs, id, n, length, dir);
      ClaimImage(g, image, fat, next, m, t, id, n, length, dir);
      ClaimListed(m, t, id, next, n, length, dir);
      m := to;
      fat := t;
      next := next + n;
    }

    // image[off : off + bpc] = buf.
    method PutCluster(c: nat, buf: seq<Byte>)
      requires Fits(g, image) && 2 <= c < g.count && |buf| == g.bpc
      modifies this`image
      ensures ClusterPut(old(image), image, g, c, buf)
    {
      LbaFits(g, image, c);
      for k := 0 to g.spc
        invariant |image| == |old(image)|
        invariant forall i :: 0 <= i < |image| && !(Lba(g, c) <= i < Lba(g, c) + k) ==> image[i] == old(image)[i]
        invariant forall i :: 0 <= i < k ==> image[Lba(g, c) + i] == buf[i * SECTOR_SIZE..i * SECTOR_SIZE + SECTOR_SIZE]
      {
        image := image[Lba(g, c) + k := buf[k * SECTOR_SIZE..k * SECTOR_SIZE + SECTOR_SIZE]];
      }
    }

    method GetCluster(c: nat) returns (buf: seq<Byte>)
      requires Fits(g, image) && 2 <= c < g.count
      ensures buf == Cluster(image, g, c)
    {
      hide Fits;
      var im, at := image, Lba(g, c);
      forall o: nat | o < g.bpc ensures at + o / SECTOR_SIZE < |im| { ClusterAt(im, g, c, o); }
      buf := seq(g.bpc, o requires 0 <= o < g.bpc => im[at + o / SECTOR_SIZE][o % SECTOR_SIZE]);
    }

    // image[off : off + len(chunk)] = chunk, in a cluster that no directory and no finished file has.
    method WriteChunk(c: nat, chunk: seq<Byte>)
      requires Fits(g, image) && |image| == total && 2 <= c < g.count && |chunk| <= g.bpc && Cluster(image, g, c) == Zeros(g.bpc)
      requires RecsOk(image, g, m.fs, m.recs) && (c in m.fs.owner ==> m.fs.owner[c] !in m.fs.dirs)
      requires DataOk(image, g, m.fs, m.data) && forall f :: f in m.data && f in m.fs.files ==> c !in m.fs.files[f].chain
      modifies this`image
      ensures Fits(g, image) && |image| == total && RecsOk(image, g, m.fs, m.recs) && DataOk(image, g, m.fs, m.data)
      ensures Cluster(image, g, c) == chunk + Zeros(g.bpc - |chunk|)
      ensures forall e :: 2 <= e < g.count && e != c ==> Cluster(image, g, e) == old(Cluster(image, g, e))
    {
      hide Fits, Cluster, RecsOk, DataOk, ClusterPut;
      var was := GetCluster(c);
      ghost var before := image;
      var buf := chunk + was[|chunk|..];
      assert buf == chunk + Zeros(g.bpc - |chunk|);
      PutCluster(c, buf);
      PutThenGet(before, image, g, c, buf);
      PutSize(before, image, g, c, buf);
      PutRecs(before, image, g, m.fs, m.recs, c, buf);
      assert forall e :: 2 <= e < g.count && e != c ==> SameCluster(before, image, g, e);
      DataPut(before, image, g, m.fs, m.data, c);
    }

    // The bytes of a new file, cluster by cluster.
    method WriteChunks(ghost id: nat, first: nat, n: nat, bytes: seq<Byte>, ghost whole: seq<Byte>)
      requires |image| == total && ImageOk(g, image, next, m) && Blank(image, g, first)
      requires VolumeOk(fat, g.bpc, m.fs.files, m.fs.owner) && id in m.fs.files && id !in m.fs.dirs && id !in m.data
      requires m.fs.files[id].chain == Run(first, n) && 2 <= first && first + n <= g.count && |bytes| <= n * g.bpc
      requires whole == bytes + Zeros(n * g.bpc - |bytes|)
      modifies this`image
      ensures |image| == total && Fits(g, image) && RecsOk(image, g, m.fs, m.recs) && DataOk(image, g, m.fs, m.data)
      ensures Blank(image, g, first + n) && InData(g, Run(first, n)) && Bytes(image, g, Run(first, n)) == whole
    {
      hide VolumeOk, RecsOk, DataOk, Fits, Cluster, Run, HoldsPiece, Blank, Chunk, Zeros, Bytes;
      ghost var ch := Run(first, n);
      RunInData(g, first, n);
      for i := 0 to n
        invariant |image| == total && Fits(g, image) && RecsOk(image, g, m.fs, m.recs) && DataOk(image, g, m.fs, m.data)
        invariant Blank(image, g, first + i)
        invariant forall k: nat :: k < i ==> HoldsPiece(image, g, ch, whole, k)
      {
        OneMore(i, g.bpc);
        MulMono(i + 1, n, g.bpc);
        ChunkPiece(bytes, whole, i * g.bpc, g.bpc);
        ghost var before := image;
        ClusterOf(g, fat, m.fs, id, first, n, i, m.data);
        BlankAt(image, g, first + i);
        WriteChunk(first + i, Chunk(bytes, i * g.bpc, g.bpc));
        PiecesOn(before, image, g, ch, whole, first, n, i);
      }
      BytesFrom(image, g, ch, whole);
    }

    method WriteData(ghost id: nat, first: nat, n: nat, bytes: seq<Byte>)
      requires Ok({id}) && id in m.fs.files && id !in m.fs.dirs && id !in m.data && m.fs.files[id] == File(first, |bytes|, Run(first, n))
      requires 2 <= first && first + n == next && |bytes| <= n * g.bpc && Blank(image, g, first)
      modifies this`image, this`m
      ensures Ok({id}) && m == old(m).(data := old(m.data)[id := bytes])
    {
      hide VolumeOk, RecsOk, DataOk, Fits, Cluster, EntryOf, Run, Blank, DirsOk;
      ghost var whole := bytes + Zeros(n * g.bpc - |bytes|);
      WriteChunks(id, first, n, bytes, whole);
      NewData(image, g, m, id, bytes);
      DataListed(m, {id}, m.data[id := bytes]);
      m := m.(data := m.data[id := bytes]);
    }

    // The first entry of cluster c that is free.
    method FindSlot(c: nat) returns (found: bool, o: nat)
      requires Fits(g, image) && 2 <= c < g.count
      ensures found ==> SpotOk(g, o) && FreeMark(Cluster(image, g, c)[o]) && UsedTo(image, g, c, o)
      ensures !found ==> UsedTo(image, g, c, g.bpc)
    {
      hide Fits, Cluster;
      BytesPer(g, image);
      o := 0;
      while o < g.bpc
        invariant o % DIRENT_SIZE == 0 && UsedTo(image, g, c, o)
      {
        ClusterAt(image, g, c, o);
        if FreeMark(image[Lba(g, c) + o / SECTOR_SIZE][o % SECTOR_SIZE]) { return true, o; }
        o := o + DIRENT_SIZE;
      }
      return false, 0;
    }

    // The walk of _append_raw_dir_entry: the first free entry of the directory, or else its last cluster.
    method Search(first: nat, ghost dir: nat) returns (found: bool, c: nat, o: nat, ghost k: nat)
      requires Fits(g, image) && TableOk(g, fat, next, m.fs) && dir in m.fs.files && m.fs.files[dir].chain != [] && first == m.fs.files[dir].first
      ensures 2 <= c < g.count && c in m.fs.owner && m.fs.owner[c] == dir && k < |m.fs.files[dir].chain| && c == m.fs.files[dir].chain[k]
      ensures found ==> SpotOk(g, o) && FreeMark(Cluster(image, g, c)[o]) && UsedTo(image, g, c, o)
      ensures !found ==> k == |m.fs.files[dir].chain| - 1 && UsedTo(image, g, c, g.bpc)
      ensures forall j :: 0 <= j < k ==> UsedTo(image, g, m.fs.files[dir].chain[j], g.bpc)
    {
      hide VolumeOk, Fits, Cluster, UsedTo;
      ghost var ch := m.fs.files[dir].chain;
      ChainWalk(fat, g.bpc, m.fs.files, m.fs.owner, dir);
      c := first;
      k := 0;
      while true
        invariant k < |ch| && c == ch[k] && forall j :: 0 <= j < k ==> UsedTo(image, g, ch[j], g.bpc)
        decreases |ch| - k
      {
        found, o := FindSlot(c);
        if found || fat[c] >= EOC { return; }
        c := fat[c];
        k := k + 1;
      }
    }

    // One entry written at a free place of directory cluster c.
    method PutEntry(c: nat, o: nat, raw: seq<Byte>, ghost out: set<nat>) returns (l: Loc)
      requires Ok(out) && HomeOk(g, m.fs, c) && c < next && Live(raw)
      requires SpotOk(g, o) && FreeMark(Cluster(image, g, c)[o])
      modifies this`image, this`m
      ensures Ok(out) && l == Spot(g, c, o) && l !in old(m.recs) && m == old(m).(recs := old(m.recs)[l := Rec(raw, c)])
    {
      hide TableOk, RecsOk, DataOk, Fits, Cluster, Blank, DirsOk, Listed, HomeOk, InCluster, Lba, Live, PutRaw;
      HomeInData(g, m.fs, c);
      FreeIffNoRec(image, g, m.fs, m.recs, c, o);
      SpotPlace(image, g, c, o);
      l := Loc(Lba(g, c) + o / SECTOR_SIZE, o % SECTOR_SIZE);
      LiveSize(raw);
      var t := PutRaw(image[l.sector], l.offset, raw);
      SlotRecs(image, g, m.fs, m.recs, c, o, raw);
      SlotImage(image, g, fat, next, m, l, t, c);
      RecListed(m, out, l, Rec(raw, c));
      image := image[l.sector := t];
      m := m.(recs := m.recs[l := Rec(raw, c)]);
    }

    // A full directory gets one more cluster at the end of its chain.
    method ExtendDirectory(ghost dir: nat, last: nat, ghost out: set<nat>)
      requires Ok(out) && dir in m.fs.dirs && m.fs.files[dir].chain != [] && last == m.fs.files[dir].chain[|m.fs.files[dir].chain| - 1]
      requires next < |fat|
      modifies this`fat, this`next, this`m
      ensures Ok(out) && next == old(next) + 1 && |fat| == |old(fat)|
      ensures m == old(m).(fs := Widened(old(m.fs), fat, dir, old(next))) && HomeOk(g, m.fs, old(next))
    {
      hide VolumeOk, Extended, RecsOk, DataOk, Fits, Blank, EntryOf;
      WidenTable(g, fat, next, m.fs, dir);
      ghost var t := Extended(fat, m.fs.files[dir], next, END_MARK);
      WidenImage(g, image, fat, next, m, t, dir);
      WidenListed(m, t, dir, next, out);
      m := m.(fs := Widened(m.fs, t, dir, next));
      fat := fat[next := END_MARK];
      fat := fat[last := next];
      next := next + 1;
    }

    // _append_raw_dir_entry: the first free place of the directory, in the order of its chain.  It raises IndexError, or
    // leaves the image, when the directory is full and there is no cluster left.
    method AppendRaw(first: nat, raw: seq<Byte>, ghost dir: nat, ghost out: set<nat>) returns (ok: bool, l: Loc)
      requires Ok(out) && dir in m.fs.dirs && first == m.fs.files[dir].first && Live(raw)
      modifies this`image, this`fat, this`next, this`m
      ensures ok ==> Ok(out) && |fat| == |old(fat)| && old(next) <= next <= old(next) + 1
      ensures ok ==> Appended(g, old(m), m, dir, l, raw) && Grew(old(m), m, dir)
      ensures !ok ==> FullDir(g, old(m), dir) && (old(next) >= clusters || old(next) >= |old(fat)|)
    {
      hide TableOk, RecsOk, DataOk, Fits, Blank, Listed, Cluster, Live, HomeOk, UsedTo, Grew, Appended, Walked;
      DirFacts(g, fat, next, m.fs, dir);
      ghost var was, k := m, 0;
      var found, c, o;
      found, c, o, k := Search(first, dir);
      ChainHomes(g, fat, next, m.fs, dir);
      l := Loc(0, 0);
      if !found {
        FullBefore(image, g, m, dir, k, g.bpc);
        if next >= clusters || next >= |fat| { return false, l; }
        BlankSlot(image, g, next);
        var n := next;
        ExtendDirectory(dir, c, out);
        l := PutEntry(n, 0, raw, out);
        AppendedNew(g, was, m, fat, dir, n, l, raw);
        return true, l;
      }
      OwnedHome(g, fat, next, m.fs, dir, c);
      FullBefore(image, g, m, dir, k, o);
      l := PutEntry(c, o, raw, out);
      AppendedHere(g, was, m, dir, k, o, l, raw);
      return true, l;
    }

    // The long-name entries, which come before the entry proper.
    method AppendAll(first: nat, raws: seq<seq<Byte>>, ghost dir: nat, ghost out: set<nat>) returns (ok: bool)
      requires Ok(out) && dir in m.fs.dirs && first == m.fs.files[dir].first && forall i :: 0 <= i < |raws| ==> LongPiece(raws[i])
      requires Tidy(m)
      modifies this`image, this`fat, this`next, this`m
      ensures ok ==> Ok(out) && Tidy(m) && |fat| == |old(fat)| && old(next) <= next <= old(next) + |raws| && Grew(old(m), m, dir)
      ensures !ok ==> old(next) + |raws| > clusters || old(next) + |raws| > |old(fat)|
    {
      hide TableOk, ImageOk, Listed, DirsOk, Live, Tidy;
      DirListed(m.fs, dir);
      for i := 0 to |raws|
        invariant Ok(out) && dir in m.fs.files && first == m.fs.files[dir].first && |fat| == |old(fat)| && old(next) <= next <= old(next) + i
        invariant Grew(old(m), m, dir) && Tidy(m)
      {
        ghost var was := m;
        var l;
        ok, l := AppendRaw(first, raws[i], dir, out);
        if !ok { return; }
        LongFacts(raws[i]);
        TidyOn(g, was, m, dir, l, raws[i]);
        GrewOn(old(m), was, m, dir);
      }
      return true;
    }

    // add_dir_entry for the file or directory id; l is where its entry is.
    method AddEntry(first: nat, longs: seq<seq<Byte>>, name: seq<Byte>, attr: Byte, cluster: nat, size: nat,
                    ghost dir: nat, ghost id: nat) returns (ok: bool, l: Loc)
      requires Ok({id}) && Tidy(m) && dir in m.fs.dirs && first == m.fs.files[dir].first && id in m.fs.files && id != ROOT
      requires attr / 16 % 2 == 0 ==> id !in m.fs.dirs
      requires cluster == m.fs.files[id].first < UINT32 && size == m.fs.files[id].length < UINT32
      requires |name| == 11 && !FreeMark(name[0]) && forall i :: 0 <= i < |longs| ==> LongPiece(longs[i])
      modifies this`image, this`fat, this`next, this`m
      ensures ok ==> Ok({}) && Tidy(m) && |fat| == |old(fat)| && old(next) <= next <= old(next) + |longs| + 1
      ensures ok ==> Files(old(m), m) && m.data == old(m.data) && id in m.at && m.at[id] == l && EntryOf(m, id, l)
      ensures ok ==> InDir(m, l, dir) && AddedIn(old(m), m, dir)
      ensures !ok ==> old(next) + |longs| + 1 > clusters || old(next) + |longs| + 1 > |old(fat)|
    {
      hide TableOk, ImageOk, Listed, DirsOk, EntryOf, Tidy, LongPiece, Files, AddedIn, InDir, Grew, Appended, FullDir, EntryBytes, FileEntry;
      DirListed(m.fs, dir);
      l := Loc(0, 0);
      ok := AppendAll(first, longs, dir, {id});
      if !ok { return; }
      ghost var mid := m;
      GrewFacts(old(m), mid, dir);
      var raw := EntryBytes(name, attr, cluster, size);
      EntryKind(name, attr, cluster, size);
      ok, l := AppendRaw(first, raw, dir, {id});
      if !ok { return; }
      EntryAdded(image, g, fat, next, old(m), mid, m, dir, id, l, raw);
      m := Registered(m, id, l);
    }

    // add_file: just enough clusters, the bytes in them, and the entry.  It fails when the file is too long for its
    // entry or the clusters run out.
    method AddFile(first: nat, longs: seq<seq<Byte>>, name: seq<Byte>, bytes: seq<Byte>, ghost dir: nat, ghost id: nat) returns (ok: bool, l: Loc)
      requires Ok({}) && Tidy(m) && dir in m.fs.dirs && first == m.fs.files[dir].first && id !in m.fs.files
      requires |name| == 11 && !FreeMark(name[0]) && forall i :: 0 <= i < |longs| ==> LongPiece(longs[i])
      modifies this`image, this`fat, this`next, this`m
      ensures ok ==> Ok({}) && Tidy(m) && |fat| == |old(fat)| && m.data == old(m.data)[id := bytes] && m.fs.dirs == old(m.fs.dirs)
      ensures ok ==> id in m.at && m.at[id] == l && id in m.fs.files && m.fs.files[id].length == |bytes| && JustEnough(|bytes|, g.bpc, |m.fs.files[id].chain|)
      ensures ok ==> KeepsFiles(old(m.fs), m.fs) && InDir(m, l, dir)
      ensures !ok ==> |bytes| >= UINT32 || exists n: nat :: JustEnough(|bytes|, g.bpc, n) && (old(next) + n + |longs| + 1 > clusters || old(next) + n + |longs| + 1 > |old(fat)|)
    {
      hide TableOk, ImageOk, Listed, DirsOk, EntryOf, JustEnough, KeepsFiles, Files, Blank, Fits, GeoFat, Run, Live, Tidy, LongPiece;
      Sizes(g, fat, next, m.fs);
      var n := if |bytes| == 0 then 1 else (|bytes| + g.bpc - 1) / g.bpc;
      Ceiling(|bytes|, g.bpc);
      EnoughRoom(|bytes|, g.bpc, n);
      if |bytes| >= UINT32 || next + n > clusters || next + n > |fat| { return false, Loc(0, 0); }
      var c := next;
      NewFile(image, g, fat, next, m, dir, id);
      ghost var was, start := m.fs, m;
      Claim(id, n, |bytes|, false);
      ClaimKept(was, fat, id, c, n, |bytes|, false);
      WriteData(id, c, n, bytes);
      ghost var mid := m;
      TidyFs(start, mid, id);
      ok, l := AddEntry(first, longs, name, 0x20, c, |bytes|, dir, id);
      if ok {
        FilesKeep(was, mid, m);
        FilesAt(mid, m, id);
      }
    }

    // mkdir: a directory of one cluster, with an entry in its parent; its first two places hold itself and its parent,
    // the root being written as cluster 0.
    method MakeDirectory(parent: nat, longs: seq<seq<Byte>>, name: seq<Byte>, ghost dir: nat, ghost id: nat) returns (ok: bool, c: nat)
      requires Ok({}) && Tidy(m) && dir in m.fs.dirs && parent == m.fs.files[dir].first && id !in m.fs.files
      requires |name| == 11 && !FreeMark(name[0]) && forall i :: 0 <= i < |longs| ==> LongPiece(longs[i])
      modifies this`image, this`fat, this`next, this`m
      ensures ok ==> Ok({}) && Tidy(m) && |fat| == |old(fat)| && m.data == old(m.data) && m.fs.dirs == old(m.fs.dirs) + {id}
      ensures ok ==> id in m.fs.files && m.fs.files[id] == File(c, 0, [c]) && c == old(next) && KeepsFiles(old(m.fs), m.fs)
      ensures ok ==> id in m.at && InDir(m, m.at[id], dir)
      ensures ok ==> 2 <= c < UINT32 && parent < UINT32
                     && HasAt(g, m, id, c, 0, EntryBytes(DOT, 0x10, c, 0))
                     && HasAt(g, m, id, c, DIRENT_SIZE, EntryBytes(DOT_DOT, 0x10, if parent == 2 then 0 else parent, 0))
      ensures !ok ==> old(next) + |longs| + 2 > clusters || old(next) + |longs| + 2 > |old(fat)|
    {
      hide TableOk, ImageOk, Listed, DirsOk, EntryOf, KeepsFiles, Grew, Files, GeoFat, Appended, FullDir, AddedIn, Spot, Tidy, LongPiece;
      ok, c := StartDirectory(parent, longs, name, dir, id);
      if !ok { return; }
      ghost var start := m;
      AppendDot(id, c, 0, EntryBytes(DOT, 0x10, c, 0));
      ghost var mid := m;
      FilesKeep(old(m.fs), start, mid);
      AddedStay(g, start, mid, id, m.at[id], dir);
      AppendDot(id, c, DIRENT_SIZE, EntryBytes(DOT_DOT, 0x10, if parent == 2 then 0 else parent, 0));
      FilesKeep(old(m.fs), mid, m);
      AddedStay(g, mid, m, id, m.at[id], dir);
      AddedStay(g, mid, m, id, Spot(g, c, 0), id);
    }

    // An entry at the n-th byte of a directory of one cluster whose places before are taken.
    method AppendDot(ghost id: nat, c: nat, ghost n: nat, raw: seq<Byte>)
      requires Ok({}) && Tidy(m) && id in m.fs.dirs && id in m.fs.files && m.fs.files[id] == File(c, 0, [c]) && c >= 2 && Live(raw) && raw[11] == 0x10
      requires SpotOk(g, n) && TakenTo(g, m, c, n)
      modifies this`image, this`fat, this`next, this`m
      ensures Ok({}) && Tidy(m) && |fat| == |old(fat)| && Files(old(m), m) && AddedIn(old(m), m, id) && m.data == old(m.data)
      ensures m.at == old(m.at) && m.fs.dirs == old(m.fs.dirs)
      ensures id in m.fs.files && m.fs.files[id] == File(c, 0, [c]) && HasAt(g, m, id, c, n, raw) && TakenTo(g, m, c, n + DIRENT_SIZE)
    {
      hide TableOk, ImageOk, Listed, DirsOk, EntryOf, Grew, Files, GeoFat, Appended, FullDir, AddedIn, TakenTo, Live, Tidy;
      ghost var was := m;
      NotFull(g, was, id, c, n);
      var ok, l := AppendRaw(c, raw, id, {});
      LiveSize(raw);
      TidyOn(g, was, m, id, l, raw);
      GrewFiles(was, m, id);
      GrewAdded(was, m, id);
      ImageRecs(g, image, next, m);
      FirstSpot(image, g, was, m, id, c, n, l, raw);
    }

    // A new directory and its entry.
    method StartDirectory(parent: nat, longs: seq<seq<Byte>>, name: seq<Byte>, ghost dir: nat, ghost id: nat) returns (ok: bool, c: nat)
      requires Ok({}) && Tidy(m) && dir in m.fs.dirs && parent == m.fs.files[dir].first && id !in m.fs.files
      requires |name| == 11 && !FreeMark(name[0]) && forall i :: 0 <= i < |longs| ==> LongPiece(longs[i])
      modifies this`image, this`fat, this`next, this`m
      ensures ok ==> Ok({}) && Tidy(m) && |fat| == |old(fat)| && m.data == old(m.data) && m.fs.dirs == old(m.fs.dirs) + {id}
      ensures ok ==> id in m.fs.files && m.fs.files[id] == File(c, 0, [c]) && 2 <= c == old(next) < UINT32 && parent < UINT32
      ensures ok ==> KeepsFiles(old(m.fs), m.fs) && id in m.at && InDir(m, m.at[id], dir) && SpotOk(g, 0) && SpotOk(g, DIRENT_SIZE) && TakenTo(g, m, c, 0)
      ensures !ok ==> old(next) + |longs| + 2 > clusters || old(next) + |longs| + 2 > |old(fat)|
    {
      hide TableOk, ImageOk, Listed, DirsOk, EntryOf, GeoFat, TakenTo, AddedIn, KeepsFiles, Files, Run, Tidy, LongPiece;
      Sizes(g, fat, next, m.fs);
      NewFile(image, g, fat, next, m, dir, id);
      FirstSmall(g, fat, next, m.fs, dir);
      c := next;
      if next >= clusters || next >= |fat| { return false, c; }
      ghost var was := m;
      HomesBelow(image, g, fat, next, m);
      Claim(id, 1, 0, true);
      ghost var mid := m;
      ClaimKept(was.fs, fat, id, c, 1, 0, true);
      TidyFs(was, mid, id);
      RunOfOne(c);
      var l;
      ok, l := AddEntry(parent, longs, name, 0x10, c, 0, dir, id);
      if ok {
        FilesKeep(was.fs, mid, m);
        FilesDirs(mid, m);
        NoneTaken(image, g, fat, next, was, mid, m, dir, id, c);
      }
    }

    // finalize: the table goes into both FATs, and what comes out can be mounted, with every file open and with its
    // bytes in place.
    method Finalize() returns (out: seq<Sector>)
      requires Ok({}) && Tidy(m)
      ensures RecsOk(out, g, m.fs, m.recs) && forall d: nat :: g.count <= d < Entries(g) ==> EntryFree(out, g, d)
      ensures Mounted(out, g, m.fs, NodesOf(m)) && |out| == total && Complete(out, g, m.fs, NodesOf(m))
      ensures forall id :: id in m.data ==> id in m.fs.files && |m.data[id]| == m.fs.files[id].length && m.data[id] <= Contents(out, g, m.fs, id)
      ensures g.fatStart <= g.fatEnd <= g.dataStart <= |out| && out[g.fatStart..g.fatEnd] == out[g.fatEnd..g.dataStart]
    {
      hide VolumeOk, RecsOk, DataOk, Fits, Blank, DirsOk, FatStored, NodesOk, Contents, NodesOf, Tidy, Complete;
      InFront(g, image);
      var table := Table(g.fatEnd - g.fatStart);
      out := image[..g.fatStart] + table + table + image[g.dataStart..];
      FatInPlace(image, table, out, g, fat);
      NodesAll(m);
      hide FatEntry, EntryOf, Listed;
      Finished(image, out, g, fat, next, m);
    }

    // The table as FAT sectors, which read back as the table.
    method Table(n: nat) returns (t: seq<Sector>)
      requires |fat| <= n * PER_SECTOR && forall c :: 0 <= c < |fat| ==> fat[c] < ENTRY_MASK
      ensures |t| == n
      ensures forall c :: 0 <= c < n * PER_SECTOR ==> EntrySector(c) < |t| && FatEntry(t, 0, c) == if c < |fat| then fat[c] else 0
    {
      t := seq(n, _ => seq(SECTOR_SIZE, _ => 0));
      forall c | 0 <= c < n * PER_SECTOR ensures EntrySector(c) < |t| && FatEntry(t, 0, c) == 0 { EntryPlace(c); }
      for i := 0 to |fat|
        invariant |t| == n
        invariant forall c :: 0 <= c < n * PER_SECTOR ==> EntrySector(c) < |t| && FatEntry(t, 0, c) == if c < i then fat[c] else 0
      {
        ghost var was := t;
        EntryPlace(i);
        t := SetFatEntry(t, 0, i, fat[i]);
        forall c | 0 <= c < n * PER_SECTOR ensures EntrySector(c) < |t| && FatEntry(t, 0, c) == if c < i + 1 then fat[c] else 0 {
          EntryPlace(c);
          SetFatEntryAt(was, 0, i, fat[i], c);
        }
      }
    }
  }

  // ---------- The first table ----------

  function NewTable(n: nat): (t: seq<nat>)
    ensures |t| == n && forall c :: 0 <= c < n ==> t[c] == if c == 0 then EOC else if c < 3 then END_MARK else 0
  {
    seq(n, c => if c == 0 then EOC else if c < 3 then END_MARK else 0)
  }

  lemma NewTableOk(g: Geo)
    requires 3 <= g.count <= EOC && g.bpc > 0
    ensures var t := NewTable(g.count);
            var fs := Fs(t, map[ROOT := File(2, 0, [2])], map[2 := ROOT], {ROOT}, map[]); TableOk(g, t, 3, fs) && DirsOk(fs)
  {
    var t := NewTable(g.count);
    assert IsChain(t, [2]);
    var files := map[ROOT := File(2, 0, [2])];
    assert 2 in files[ROOT].chain by { assert files[ROOT].chain[0] == 2; }
  }

  lemma AllBlank(image: seq<Sector>, g: Geo)
    requires Fits(g, image) && forall i :: 0 <= i < |image| ==> image[i] == Zeros(SECTOR_SIZE)
    ensures Blank(image, g, 2)
  {
    forall c | 2 <= c < g.count ensures Cluster(image, g, c) == Zeros(g.bpc) {
      hide Fits;
      forall o: nat | o < g.bpc ensures Cluster(image, g, c)[o] == 0 { ClusterAt(image, g, c, o); }
    }
  }

  lemma FirstImage(image: seq<Sector>, g: Geo, m: Made)
    requires Fits(g, image) && Blank(image, g, 2) && m.recs == map[] && m.data == map[]
    ensures ImageOk(g, image, 3, m)
  {
    hide Fits, Cluster, Lba;
  }

  // ---------- Claiming a chain ----------

  ghost function Claimed(fs: Fs, t: seq<nat>, id: nat, first: nat, n: nat, length: nat, dir: bool): Fs {
    Fs(t, fs.files[id := File(first, length, Run(first, n))], Given(fs.owner, Run(first, n), id),
       if dir then fs.dirs + {id} else fs.dirs, fs.home)
  }

  lemma ClaimTable(g: Geo, fat: seq<nat>, next: nat, fs: Fs, id: nat, n: nat, length: nat, dir: bool)
    requires TableOk(g, fat, next, fs) && DirsOk(fs) && id !in fs.files && 1 <= n && next + n <= |fat| && length <= n * g.bpc
    requires dir ==> length == 0
    ensures var t := Linked(fat, next, n); var to := Claimed(fs, t, id, next, n, length, dir); TableOk(g, t, next + n, to) && DirsOk(to)
  {
    hide VolumeOk, Claims, IsChain;
    var t := Linked(fat, next, n);
    SmallTable(fat, g.bpc, fs.files, fs.owner);
    LinkedChain(fat, next, n);
    LinkedClaims(fat, next, n);
    AddChainOk(fat, t, g.bpc, fs.files, fs.owner, id, Run(next, n), length);
  }

  lemma SmallTable(fat: seq<nat>, bpc: nat, files: map<nat, File>, owner: map<nat, nat>)
    requires VolumeOk(fat, bpc, files, owner)
    ensures bpc > 0 && |fat| <= EOC
  {
  }

  lemma ClaimImage(g: Geo, image: seq<Sector>, fat: seq<nat>, next: nat, m: Made, t: seq<nat>, id: nat, n: nat, length: nat, dir: bool)
    requires TableOk(g, fat, next, m.fs) && ImageOk(g, image, next, m) && DirsOk(m.fs) && id !in m.fs.files
    requires next + n <= |fat|
    ensures ImageOk(g, image, next + n, m.(fs := Claimed(m.fs, t, id, next, n, length, dir)))
  {
    var to := Claimed(m.fs, t, id, next, n, length, dir);
    NewNotOwned(fat, g.bpc, m.fs.files, m.fs.owner, next);
    OwnersAreFiles(fat, g.bpc, m.fs.files, m.fs.owner);
    hide VolumeOk, Fits, DataOk, RecsOk, Cluster;
    ClaimDirs(g, m.fs, t, id, next, n, length, dir);
    FsRecs(image, g, m.fs, to, m.recs);
    DataFs(image, g, m.fs, to, m.data);
  }

  lemma ClaimDirs(g: Geo, fs: Fs, t: seq<nat>, id: nat, next: nat, n: nat, length: nat, dir: bool)
    requires (forall c :: c in fs.owner ==> c < next) && id !in fs.dirs && forall c :: c in fs.owner ==> fs.owner[c] != id
    ensures KeepsDirs(fs, Claimed(fs, t, id, next, n, length, dir))
    ensures forall h: nat :: HomeOk(g, Claimed(fs, t, id, next, n, length, dir), h) && !HomeOk(g, fs, h) ==> h >= next
  {
    RunMembers(next, n);
    hide Run;
  }

  lemma OwnersAreFiles(fat: seq<nat>, bpc: nat, files: map<nat, File>, owner: map<nat, nat>)
    requires VolumeOk(fat, bpc, files, owner)
    ensures forall c :: c in owner ==> owner[c] in files
  {
  }

  lemma NewNotOwned(fat: seq<nat>, bpc: nat, files: map<nat, File>, owner: map<nat, nat>, next: nat)
    requires VolumeOk(fat, bpc, files, owner) && forall c :: next <= c < |fat| ==> fat[c] == 0
    ensures forall c :: c in owner ==> c < next
  {
  }

  lemma ClaimListed(m: Made, t: seq<nat>, id: nat, next: nat, n: nat, length: nat, dir: bool)
    requires Listed(m, {}) && id !in m.fs.files
    ensures Listed(m.(fs := Claimed(m.fs, t, id, next, n, length, dir)), {id})
  {
    var to := m.(fs := Claimed(m.fs, t, id, next, n, length, dir));
    forall f | f in to.fs.files && f != ROOT && f != id ensures f in to.at && EntryOf(to, f, to.at[f]) {
      assert EntryOf(m, f, m.at[f]);
    }
  }

  lemma LinkedClaims(fat: seq<nat>, first: nat, n: nat)
    requires 2 <= first && first + n <= |fat| && forall c :: first <= c < |fat| ==> fat[c] == 0
    ensures Claims(fat, Linked(fat, first, n), Run(first, n))
  {
    RunMembers(first, n);
  }

  lemma LinkedChain(fat: seq<nat>, first: nat, n: nat)
    requires 2 <= first && n >= 1 && first + n <= |fat|
    ensures IsChain(Linked(fat, first, n), Run(first, n))
  {
  }

  lemma RunMembers(first: nat, n: nat)
    ensures forall c :: c in Run(first, n) <==> first <= c < first + n
  {
    forall c | first <= c < first + n ensures c in Run(first, n) {
      assert Run(first, n)[c - first] == c;
    }
  }

  // ---------- The bytes of a file ----------

  lemma PutSize(image: seq<Sector>, d: seq<Sector>, g: Geo, c: nat, buf: seq<Byte>)
    requires Fits(g, image) && 2 <= c < g.count && |buf| == g.bpc && ClusterPut(image, d, g, c, buf)
    ensures |d| == |image|
  {
  }

  lemma RunInData(g: Geo, first: nat, n: nat)
    requires 2 <= first && first + n <= g.count
    ensures InData(g, Run(first, n))
  {
  }

  // Cluster i of the new file is its own.
  lemma ClusterOf(g: Geo, fat: seq<nat>, fs: Fs, id: nat, first: nat, n: nat, i: nat, data: map<nat, seq<Byte>>)
    requires VolumeOk(fat, g.bpc, fs.files, fs.owner) && id in fs.files && fs.files[id].chain == Run(first, n) && i < n
    requires id !in data && id !in fs.dirs
    ensures first + i in fs.owner && fs.owner[first + i] == id
    ensures forall f :: f in data && f in fs.files ==> first + i !in fs.files[f].chain
  {
    assert fs.files[id].chain[i] == first + i;
    forall f | f in data && f in fs.files ensures first + i !in fs.files[f].chain {
      OwnerIsChain(|fat|, fs.files, fs.owner, f, first + i);
    }
  }

  // data[lo : lo + b].
  function Chunk(bytes: seq<Byte>, lo: nat, b: nat): seq<Byte> {
    if lo >= |bytes| then [] else if lo + b <= |bytes| then bytes[lo..lo + b] else bytes[lo..]
  }

  lemma ChunkPiece(bytes: seq<Byte>, whole: seq<Byte>, lo: nat, b: nat)
    requires lo + b <= |whole| && |bytes| <= |whole| && whole == bytes + Zeros(|whole| - |bytes|)
    ensures var chunk := Chunk(bytes, lo, b); |chunk| <= b && chunk + Zeros(b - |chunk|) == whole[lo..lo + b]
  {
  }

  lemma BlankAt(image: seq<Sector>, g: Geo, c: nat)
    requires Fits(g, image) && Blank(image, g, c) && 2 <= c < g.count
    ensures Cluster(image, g, c) == Zeros(g.bpc)
  {
  }

  lemma DataListed(m: Made, out: set<nat>, data: map<nat, seq<Byte>>)
    requires Listed(m, out)
    ensures Listed(m.(data := data), out)
  {
    var to := m.(data := data);
    forall id, l ensures EntryOf(to, id, l) <==> EntryOf(m, id, l) { }
  }

  lemma PiecesOn(image: seq<Sector>, d: seq<Sector>, g: Geo, ch: seq<nat>, whole: seq<Byte>, first: nat, n: nat, i: nat)
    requires Fits(g, image) && Fits(g, d) && i < n && ch == Run(first, n) && InData(g, ch) && 2 <= first && first + n <= g.count
    requires i * g.bpc + g.bpc <= |whole| && Cluster(d, g, first + i) == whole[i * g.bpc..i * g.bpc + g.bpc]
    requires forall e :: 2 <= e < g.count && e != first + i ==> Cluster(d, g, e) == Cluster(image, g, e)
    requires (forall k: nat :: k < i ==> HoldsPiece(image, g, ch, whole, k)) && Blank(image, g, first + i)
    ensures (forall k: nat :: k < i + 1 ==> HoldsPiece(d, g, ch, whole, k)) && Blank(d, g, first + i + 1)
  {
    hide Fits, Cluster;
    forall k: nat | k < i ensures HoldsPiece(d, g, ch, whole, k) { assert HoldsPiece(image, g, ch, whole, k) && ch[k] != first + i; }
    assert ch[i] == first + i;
  }

  lemma NewData(image: seq<Sector>, g: Geo, m: Made, id: nat, bytes: seq<Byte>)
    requires Fits(g, image) && DataOk(image, g, m.fs, m.data) && FileData(image, g, m.fs, id, bytes)
    ensures DataOk(image, g, m.fs, m.data[id := bytes])
  {
  }

  // ---------- Directory entries ----------

  lemma BytesPer(g: Geo, image: seq<Sector>)
    requires Fits(g, image)
    ensures g.bpc == g.spc * SECTOR_SIZE > 0
  {
  }

  lemma ChainWalk(fat: seq<nat>, bpc: nat, files: map<nat, File>, owner: map<nat, nat>, id: nat)
    requires VolumeOk(fat, bpc, files, owner) && id in files && files[id].chain != []
    ensures files[id].first == files[id].chain[0] && Walks(fat, files[id].chain)
    ensures forall i :: 0 <= i < |files[id].chain| ==> files[id].chain[i] in owner && owner[files[id].chain[i]] == id
  {
    assert FileOk(fat, bpc, files[id]);
    hide FilesOk, Accounted;
    IsWalk(fat, files[id].chain);
  }

  ghost predicate Walks(fat: seq<nat>, ch: seq<nat>) {
    && (forall i :: 0 <= i < |ch| ==> 2 <= ch[i] < |fat|)
    && (forall i :: 0 <= i < |ch| - 1 ==> fat[ch[i]] == ch[i + 1])
    && (forall i :: 0 <= i < |ch| - 1 ==> fat[ch[i]] < EOC)
    && (ch != [] ==> fat[ch[|ch| - 1]] >= EOC)
  }

  lemma IsWalk(fat: seq<nat>, ch: seq<nat>)
    requires IsChain(fat, ch) && |fat| <= EOC
    ensures Walks(fat, ch)
  {
    forall i | 0 <= i < |ch| - 1 ensures fat[ch[i]] < EOC { assert fat[ch[i]] == ch[i + 1]; }
  }

  lemma HomeInData(g: Geo, fs: Fs, h: nat)
    requires HomeOk(g, fs, h)
    ensures 2 <= h < g.count
  {
  }

  lemma LiveSize(raw: seq<Byte>)
    requires Live(raw)
    ensures |raw| == DIRENT_SIZE
  {
  }

  lemma SlotImage(image: seq<Sector>, g: Geo, fat: seq<nat>, next: nat, m: Made, l: Loc, t: Sector, h: nat)
    requires TableOk(g, fat, next, m.fs) && ImageOk(g, image, next, m) && HomeOk(g, m.fs, h) && h < next
    requires InCluster(g, h, l.sector) && l.sector < |image|
    ensures var d := image[l.sector := t]; Fits(g, d) && DataOk(d, g, m.fs, m.data) && Blank(d, g, next)
  {
    var d := image[l.sector := t];
    assert Fits(g, d);
    HomeNotData(g, fat, m.fs, m.data, image, h);
    hide Fits, Cluster, TableOk, RecsOk, Blank, DataOk, InCluster;
    forall e | 2 <= e < g.count && e != h ensures SameCluster(image, d, g, e) { SlotCluster(image, g, l, t, h, e); }
    DataPut(image, d, g, m.fs, m.data, h);
    BlankPut(image, d, g, next, h);
  }

  // No file has a directory's cluster.
  lemma HomeNotData(g: Geo, fat: seq<nat>, fs: Fs, data: map<nat, seq<Byte>>, image: seq<Sector>, h: nat)
    requires VolumeOk(fat, g.bpc, fs.files, fs.owner) && HomeOk(g, fs, h) && Fits(g, image) && DataOk(image, g, fs, data)
    ensures forall f :: f in data && f in fs.files ==> h !in fs.files[f].chain
  {
    forall f | f in data && f in fs.files ensures h !in fs.files[f].chain {
      OwnerIsChain(|fat|, fs.files, fs.owner, f, h);
      assert FileData(image, g, fs, f, data[f]);
    }
  }

  lemma RecListed(m: Made, out: set<nat>, l: Loc, r: Rec)
    requires Listed(m, out) && l !in m.recs
    ensures Listed(m.(recs := m.recs[l := r]), out)
  {
    var to := m.(recs := m.recs[l := r]);
    forall id | id in m.fs.files && id != ROOT && id !in out ensures id in to.at && EntryOf(to, id, to.at[id]) {
      assert EntryOf(m, id, m.at[id]);
    }
  }

  // ---------- Longer directories ----------

  ghost function Widened(fs: Fs, t: seq<nat>, dir: nat, c: nat): Fs
    requires dir in fs.files
  {
    Fs(t, fs.files[dir := Longer(fs.files[dir], c)], fs.owner[c := dir], fs.dirs, fs.home)
  }

  lemma WidenTable(g: Geo, fat: seq<nat>, next: nat, fs: Fs, dir: nat)
    requires TableOk(g, fat, next, fs) && DirsOk(fs) && dir in fs.dirs && next < |fat|
    ensures var last := fs.files[dir].chain[|fs.files[dir].chain| - 1];
            && 0 <= last < |fat| && last != next && fat[next := END_MARK][last := next] == Extended(fat, fs.files[dir], next, END_MARK)
    ensures var to := Widened(fs, Extended(fat, fs.files[dir], next, END_MARK), dir, next);
            TableOk(g, to.fat, next + 1, to) && DirsOk(to) && HomeOk(g, to, next)
  {
    hide VolumeOk, Extended;
    LastInFat(fat, g.bpc, fs.files, fs.owner, dir);
    SwapStores(fat, fs.files[dir], next);
    ExtendOk(fat, g.bpc, fs.files, fs.owner, dir, next, END_MARK);
    SmallTable(fat, g.bpc, fs.files, fs.owner);
  }

  // The builder marks the new cluster first and links it afterwards.
  lemma SwapStores(fat: seq<nat>, f: File, c: nat)
    requires f.chain != [] && c < |fat|
    requires var last := f.chain[|f.chain| - 1]; last < |fat| && last != c
    ensures fat[c := END_MARK][f.chain[|f.chain| - 1] := c] == Extended(fat, f, c, END_MARK)
  {
  }

  lemma LastInFat(fat: seq<nat>, bpc: nat, files: map<nat, File>, owner: map<nat, nat>, id: nat)
    requires VolumeOk(fat, bpc, files, owner) && id in files && files[id].chain != []
    ensures var last := files[id].chain[|files[id].chain| - 1]; 2 <= last < |fat| && fat[last] != 0 && last in owner
  {
    assert files[id].chain[|files[id].chain| - 1] in owner;
  }

  lemma WidenImage(g: Geo, image: seq<Sector>, fat: seq<nat>, next: nat, m: Made, t: seq<nat>, dir: nat)
    requires TableOk(g, fat, next, m.fs) && ImageOk(g, image, next, m) && DirsOk(m.fs) && dir in m.fs.dirs
    ensures ImageOk(g, image, next + 1, m.(fs := Widened(m.fs, t, dir, next)))
  {
    var to := Widened(m.fs, t, dir, next);
    NewNotOwned(fat, g.bpc, m.fs.files, m.fs.owner, next);
    hide VolumeOk, Fits, DataOk, RecsOk, Cluster, Widened, HomeOk, KeepsDirs;
    WidenHomes(g, m.fs, t, dir, next);
    FsRecs(image, g, m.fs, to, m.recs);
    DataFs(image, g, m.fs, to, m.data);
  }

  lemma WidenHomes(g: Geo, fs: Fs, t: seq<nat>, dir: nat, next: nat)
    requires dir in fs.files && dir in fs.dirs && next !in fs.owner
    ensures var to := Widened(fs, t, dir, next);
            && KeepsDirs(fs, to) && to.dirs == fs.dirs && (forall f :: f in fs.files && f != dir ==> f in to.files && to.files[f] == fs.files[f])
            && forall h: nat :: HomeOk(g, to, h) && !HomeOk(g, fs, h) ==> h == next && 2 <= h < g.count
  {
  }

  lemma WidenListed(m: Made, t: seq<nat>, dir: nat, next: nat, out: set<nat>)
    requires Listed(m, out) && dir in m.fs.files && m.fs.files[dir].chain != []
    ensures Listed(m.(fs := Widened(m.fs, t, dir, next)), out)
  {
    var to := m.(fs := Widened(m.fs, t, dir, next));
    forall f | f in to.fs.files && f != ROOT && f !in out ensures f in to.at && EntryOf(to, f, to.at[f]) {
      assert EntryOf(m, f, m.at[f]);
    }
  }

  // All places of the cluster before offset n hold something.
  ghost predicate UsedTo(image: seq<Sector>, g: Geo, c: nat, n: nat)
    requires Fits(g, image)
  {
    2 <= c < g.count && forall o: nat :: o < n && SpotOk(g, o) ==> !FreeMark(Cluster(image, g, c)[o])
  }

  // All places of the directory before offset o of its k-th cluster hold entries.
  ghost predicate Walked(g: Geo, recs: map<Loc, Rec>, ch: seq<nat>, k: nat, o: nat) {
    && (forall j, p: nat :: 0 <= j < |ch| && j < k && ch[j] >= 2 && SpotOk(g, p) ==> Spot(g, ch[j], p) in recs)
    && (k < |ch| && ch[k] >= 2 ==> forall p: nat :: p < o && SpotOk(g, p) ==> Spot(g, ch[k], p) in recs)
  }

  ghost predicate FullDir(g: Geo, m: Made, dir: nat) {
    dir in m.fs.files && Walked(g, m.recs, m.fs.files[dir].chain, |m.fs.files[dir].chain|, 0)
  }

  // The entry l lies in directory dir.
  ghost predicate InDir(m: Made, l: Loc, dir: nat) {
    l in m.recs && m.recs[l].home in m.fs.owner && m.fs.owner[m.recs[l].home] == dir
  }

  // The entry is at the first free place of the directory, which has one more cluster only if it was full.
  ghost predicate Appended(g: Geo, m: Made, to: Made, dir: nat, l: Loc, raw: seq<Byte>) {
    && dir in m.fs.files && dir in to.fs.files && l !in m.recs && l in to.recs && to.recs == m.recs[l := to.recs[l]]
    && to.recs[l].raw == raw && InDir(to, l, dir)
    && (to.fs.files[dir] == m.fs.files[dir] || (FullDir(g, m, dir) && |to.fs.files[dir].chain| == |m.fs.files[dir].chain| + 1))
    && (exists k: nat, o: nat :: k < |to.fs.files[dir].chain| && to.fs.files[dir].chain[k] >= 2 && SpotOk(g, o)
          && l == Spot(g, to.fs.files[dir].chain[k], o) && Walked(g, m.recs, to.fs.files[dir].chain, k, o))
  }

  lemma ChainHomes(g: Geo, fat: seq<nat>, next: nat, fs: Fs, dir: nat)
    requires TableOk(g, fat, next, fs) && DirsOk(fs) && dir in fs.dirs
    ensures forall j :: 0 <= j < |fs.files[dir].chain| ==> HomeOk(g, fs, fs.files[dir].chain[j]) && fs.owner[fs.files[dir].chain[j]] == dir
    ensures forall c :: c in fs.owner ==> c < next
  {
    NewNotOwned(fat, g.bpc, fs.files, fs.owner, next);
    ChainWalk(fat, g.bpc, fs.files, fs.owner, dir);
  }

  // What looks used in the image holds entries.
  lemma FullBefore(image: seq<Sector>, g: Geo, m: Made, dir: nat, k: nat, o: nat)
    requires Fits(g, image) && RecsOk(image, g, m.fs, m.recs) && dir in m.fs.files && k < |m.fs.files[dir].chain| && o <= g.bpc
    requires forall j :: 0 <= j < |m.fs.files[dir].chain| ==> HomeOk(g, m.fs, m.fs.files[dir].chain[j])
    requires forall j :: 0 <= j < k ==> UsedTo(image, g, m.fs.files[dir].chain[j], g.bpc)
    requires UsedTo(image, g, m.fs.files[dir].chain[k], o)
    ensures Walked(g, m.recs, m.fs.files[dir].chain, k, o)
    ensures o == g.bpc && k == |m.fs.files[dir].chain| - 1 ==> FullDir(g, m, dir)
  {
    var ch := m.fs.files[dir].chain;
    hide Fits, Cluster, RecsOk, Lba;
    forall j, p: nat | 0 <= j <= k && SpotOk(g, p) && (j == k ==> p < o) ensures Spot(g, ch[j], p) in m.recs {
      assert HomeOk(g, m.fs, ch[j]);
      FreeIffNoRec(image, g, m.fs, m.recs, ch[j], p);
    }
  }

  lemma AppendedHere(g: Geo, m: Made, to: Made, dir: nat, k: nat, o: nat, l: Loc, raw: seq<Byte>)
    requires dir in m.fs.files && k < |m.fs.files[dir].chain| && SpotOk(g, o) && Walked(g, m.recs, m.fs.files[dir].chain, k, o)
    requires var c := m.fs.files[dir].chain[k];
             && c >= 2 && c in m.fs.owner && m.fs.owner[c] == dir && l == Spot(g, c, o) && l !in m.recs
             && to == m.(recs := m.recs[l := Rec(raw, c)])
    ensures Appended(g, m, to, dir, l, raw) && Grew(m, to, dir)
  {
    hide Walked;
  }

  lemma AppendedNew(g: Geo, m: Made, to: Made, t: seq<nat>, dir: nat, n: nat, l: Loc, raw: seq<Byte>)
    requires dir in m.fs.files && FullDir(g, m, dir) && n >= 2 && l == Spot(g, n, 0) && l !in m.recs && SpotOk(g, 0)
    requires m.fs.files[dir].chain != [] && (forall c :: c in m.fs.owner ==> c < n)
    requires to == m.(fs := Widened(m.fs, t, dir, n), recs := m.recs[l := Rec(raw, n)])
    ensures Appended(g, m, to, dir, l, raw) && Grew(m, to, dir)
  {
    var ch := m.fs.files[dir].chain;
    var k := |ch|;
    assert to.fs.files[dir].chain == ch + [n] && to.fs.files[dir].chain[k] == n;
    assert Walked(g, m.recs, ch + [n], k, 0);
    hide Walked;
  }

  // One more entry in directory dir, which may have grown for it.
  ghost predicate Grew(m: Made, to: Made, dir: nat) {
    && (forall c :: c in m.fs.owner ==> c in to.fs.owner && to.fs.owner[c] == m.fs.owner[c])
    && (forall l :: l in to.recs && l !in m.recs ==> InDir(to, l, dir))
    && to.at == m.at && to.data == m.data && to.fs.dirs == m.fs.dirs && to.fs.home == m.fs.home
    && to.fs.files.Keys == m.fs.files.Keys
    && (forall f :: f in m.fs.files ==> to.fs.files[f].first == m.fs.files[f].first && to.fs.files[f].length == m.fs.files[f].length)
    && (forall f :: f in m.fs.files && f != dir ==> to.fs.files[f] == m.fs.files[f])
    && (forall l :: l in m.recs ==> l in to.recs && to.recs[l] == m.recs[l])
  }

  lemma DirFacts(g: Geo, fat: seq<nat>, next: nat, fs: Fs, dir: nat)
    requires TableOk(g, fat, next, fs) && DirsOk(fs) && dir in fs.dirs
    ensures dir in fs.files && fs.files[dir].chain != [] && |fat| == g.count && 2 <= next
  {
  }

  lemma OwnedHome(g: Geo, fat: seq<nat>, next: nat, fs: Fs, dir: nat, c: nat)
    requires TableOk(g, fat, next, fs) && dir in fs.dirs && 2 <= c < g.count && c in fs.owner && fs.owner[c] == dir
    ensures HomeOk(g, fs, c) && c < next
  {
    NewNotOwned(fat, g.bpc, fs.files, fs.owner, next);
  }

  lemma BlankSlot(image: seq<Sector>, g: Geo, c: nat)
    requires Fits(g, image) && Blank(image, g, c) && 2 <= c < g.count
    ensures g.bpc > 0 && FreeMark(Cluster(image, g, c)[0])
  {
  }

  lemma DirListed(fs: Fs, dir: nat)
    requires DirsOk(fs) && dir in fs.dirs
    ensures dir in fs.files && fs.files[dir].length == 0
  {
  }

  lemma GrewOn(a: Made, b: Made, c: Made, dir: nat)
    requires Grew(a, b, dir) && Grew(b, c, dir)
    ensures Grew(a, c, dir)
  {
  }

  // What was there is still there; directories may have grown.
  ghost predicate KeepsFiles(fs: Fs, to: Fs) {
    forall f :: f in fs.files ==> f in to.files && to.files[f].first == fs.files[f].first && (f !in to.dirs ==> to.files[f] == fs.files[f])
  }

  // Nothing happens to the files; directories may grow.
  ghost predicate Files(m: Made, to: Made) {
    && to.fs.dirs == m.fs.dirs && to.fs.files.Keys == m.fs.files.Keys
    && (forall f :: f in m.fs.files ==> to.fs.files[f].first == m.fs.files[f].first && to.fs.files[f].length == m.fs.files[f].length)
    && (forall f :: f in m.fs.files && f !in m.fs.dirs ==> to.fs.files[f] == m.fs.files[f])
  }

  // Entries were added to directory dir only, and no cluster has changed hands.
  ghost predicate AddedIn(m: Made, to: Made, dir: nat) {
    && (forall c :: c in m.fs.owner ==> c in to.fs.owner && to.fs.owner[c] == m.fs.owner[c])
    && (forall l :: l in m.recs ==> l in to.recs && to.recs[l] == m.recs[l])
    && (forall l :: l in to.recs && l !in m.recs ==> InDir(to, l, dir))
    && (forall f :: f in m.fs.files && f != dir ==> f in to.fs.files && to.fs.files[f] == m.fs.files[f])
  }

  lemma GrewAdded(m: Made, to: Made, dir: nat)
    requires Grew(m, to, dir)
    ensures AddedIn(m, to, dir)
  {
  }

  lemma RegisteredAdded(m: Made, to: Made, dir: nat, id: nat, l: Loc)
    requires AddedIn(m, to, dir) && InDir(to, l, dir)
    ensures AddedIn(m, Registered(to, id, l), dir) && InDir(Registered(to, id, l), l, dir)
  {
  }

  lemma GrewFiles(m: Made, to: Made, dir: nat)
    requires Grew(m, to, dir) && dir in m.fs.dirs
    ensures Files(m, to) && to.data == m.data && to.at == m.at && to.fs.dirs == m.fs.dirs
  {
  }

  // The entry at l is put down as that of id.
  ghost function Registered(m: Made, id: nat, l: Loc): Made
    requires l in m.recs
  {
    m.(at := m.at[id := l], fs := m.fs.(home := m.fs.home[id := m.recs[l].home]))
  }

  lemma Encoded(name: seq<Byte>, attr: Byte, first: nat, length: nat)
    requires |name| == 11 && first < UINT32 && length < UINT32
    ensures Encodes(EntryBytes(name, attr, first, length), first, length)
  {
  }

  // After the entry has been written.
  lemma EntryAdded(image: seq<Sector>, g: Geo, fat: seq<nat>, next: nat, was: Made, mid: Made, m: Made, dir: nat, id: nat, l: Loc, raw: seq<Byte>)
    requires TableOk(g, fat, next, m.fs) && ImageOk(g, image, next, m) && DirsOk(m.fs) && Listed(m, {id}) && Listed(mid, {id}) && Tidy(mid)
    requires Grew(was, mid, dir) && Grew(mid, m, dir) && Appended(g, mid, m, dir, l, raw) && dir in was.fs.dirs && id in was.fs.files && id != ROOT
    requires Encodes(raw, was.fs.files[id].first, was.fs.files[id].length) && |raw| == DIRENT_SIZE && (FileEntry(raw, 0) ==> id !in was.fs.dirs)
    ensures l in m.recs
    ensures var to := Registered(m, id, l);
            && TableOk(g, fat, next, to.fs) && ImageOk(g, image, next, to) && DirsOk(to.fs) && Listed(to, {}) && Tidy(to)
            && Files(was, to) && to.data == was.data && EntryOf(to, id, l) && InDir(to, l, dir) && AddedIn(was, to, dir)
  {
    hide TableOk, ImageOk, DirsOk, Encodes, Listed, EntryOf, Tidy, FileEntry;
    GrewOn(was, mid, m, dir);
    GrewFiles(was, m, dir);
    GrewAdded(was, m, dir);
    RegisteredAdded(was, m, dir, id, l);
    Register(image, g, fat, next, m, id, l, mid, dir);
    NotYetListed(mid, id);
    TidyNew(g, mid, m, dir, id, l, raw);
  }

  lemma GrewFacts(m: Made, to: Made, dir: nat)
    requires Grew(m, to, dir) && dir in m.fs.files
    ensures to.fs.dirs == m.fs.dirs && dir in to.fs.files && to.fs.files[dir].first == m.fs.files[dir].first
  {
  }

  lemma EntryKind(name: seq<Byte>, attr: Byte, first: nat, length: nat)
    requires |name| == 11 && !FreeMark(name[0]) && first < UINT32 && length < UINT32
    ensures var raw := EntryBytes(name, attr, first, length);
            Live(raw) && Encodes(raw, first, length) && |raw| == DIRENT_SIZE && (FileEntry(raw, 0) ==> attr / 16 % 2 == 0)
  {
    Encoded(name, attr, first, length);
  }

  lemma Register(image: seq<Sector>, g: Geo, fat: seq<nat>, next: nat, m: Made, id: nat, l: Loc, was: Made, dir: nat)
    requires TableOk(g, fat, next, m.fs) && ImageOk(g, image, next, m) && DirsOk(m.fs) && Listed(m, {id}) && Listed(was, {id})
    requires Grew(was, m, dir) && l !in was.recs && l in m.recs && id in m.fs.files && id != ROOT
    requires Encodes(m.recs[l].raw, m.fs.files[id].first, m.fs.files[id].length)
    ensures var to := Registered(m, id, l); TableOk(g, fat, next, to.fs) && ImageOk(g, image, next, to) && DirsOk(to.fs) && Listed(to, {})
    ensures var to := Registered(m, id, l); EntryOf(to, id, l)
  {
    hide TableOk, ImageOk, DirsOk, Encodes, Listed, Grew, EntryOf;
    HomeTable(g, fat, next, m.fs, Registered(m, id, l).fs);
    HomeImage(image, g, next, m, Registered(m, id, l));
    RegisterListed(m, id, l, was, dir);
  }

  // Where entries are is of no matter to table and image.
  lemma HomeTable(g: Geo, fat: seq<nat>, next: nat, fs: Fs, to: Fs)
    requires TableOk(g, fat, next, fs) && DirsOk(fs) && to == fs.(home := to.home)
    ensures TableOk(g, fat, next, to) && DirsOk(to)
  {
    hide VolumeOk;
  }

  lemma HomeImage(image: seq<Sector>, g: Geo, next: nat, m: Made, to: Made)
    requires ImageOk(g, image, next, m) && to.fs == m.fs.(home := to.fs.home) && to.recs == m.recs && to.data == m.data
    ensures ImageOk(g, image, next, to)
  {
    hide Fits, DataOk, RecsOk, Blank;
    FsRecs(image, g, m.fs, to.fs, m.recs);
    DataFs(image, g, m.fs, to.fs, m.data);
  }

  lemma RegisterListed(m: Made, id: nat, l: Loc, was: Made, dir: nat)
    requires Listed(m, {id}) && Listed(was, {id}) && Grew(was, m, dir) && l !in was.recs && l in m.recs && id in m.fs.files && id != ROOT
    requires Encodes(m.recs[l].raw, m.fs.files[id].first, m.fs.files[id].length)
    ensures Listed(Registered(m, id, l), {}) && EntryOf(Registered(m, id, l), id, l)
  {
    hide EntryOf, Grew, Apart, Encodes, HaveEntries;
    NotTaken(m, id, l, was, dir);
    EntryNew(m, id, l);
    OneMoreApart(m.at, id, l);
    AllHave(m, id, l);
  }

  lemma AllHave(m: Made, id: nat, l: Loc)
    requires HaveEntries(m, {id}) && l in m.recs && EntryOf(Registered(m, id, l), id, l)
    ensures HaveEntries(Registered(m, id, l), {})
  {
    hide EntryOf;
    var to := Registered(m, id, l);
    forall f | f in to.fs.files && f != ROOT && f != id ensures f in to.at && EntryOf(to, f, to.at[f]) {
      EntryStays(m, id, l, f);
    }
  }

  lemma OneMoreApart(at: map<nat, Loc>, id: nat, l: Loc)
    requires Apart(at) && forall f :: f in at ==> at[f] != l
    ensures Apart(at[id := l])
  {
  }

  lemma NotTaken(m: Made, id: nat, l: Loc, was: Made, dir: nat)
    requires Listed(was, {id}) && Grew(was, m, dir) && l !in was.recs
    ensures forall f :: f in m.at ==> m.at[f] != l
  {
    hide EntryOf;
    forall f | f in m.at ensures m.at[f] != l { assert was.at[f] in was.recs; }
  }

  lemma EntryNew(m: Made, id: nat, l: Loc)
    requires l in m.recs && id in m.fs.files && Encodes(m.recs[l].raw, m.fs.files[id].first, m.fs.files[id].length)
    ensures EntryOf(Registered(m, id, l), id, l)
  {
    hide Encodes;
  }

  lemma EntryStays(m: Made, id: nat, l: Loc, f: nat)
    requires f in m.at && f != id && EntryOf(m, f, m.at[f]) && l in m.recs
    ensures EntryOf(Registered(m, id, l), f, m.at[f])
  {
    hide Encodes;
  }

  // n clusters hold the file, and n - 1 would not; an empty file has one all the same.
  ghost predicate JustEnough(length: nat, bpc: nat, n: nat) {
    n >= 1 && length <= n * bpc && (if length > 0 then (n - 1) * bpc < length else n == 1)
  }

  lemma Ceiling(length: nat, bpc: nat)
    requires bpc > 0
    ensures var n := if length == 0 then 1 else (length + bpc - 1) / bpc; n >= 1 && JustEnough(length, bpc, n)
  {
    if length > 0 {
      var n := (length + bpc - 1) / bpc;
      assert length + bpc - 1 == n * bpc + (length + bpc - 1) % bpc;
      assert (n - 1) * bpc == n * bpc - bpc;
    }
  }

  lemma EnoughRoom(length: nat, bpc: nat, n: nat)
    requires JustEnough(length, bpc, n)
    ensures length <= n * bpc
  {
  }

  lemma Sizes(g: Geo, fat: seq<nat>, next: nat, fs: Fs)
    requires TableOk(g, fat, next, fs)
    ensures g.bpc > 0 && |fat| == g.count <= EOC && 2 <= next
  {
  }

  lemma NewFile(image: seq<Sector>, g: Geo, fat: seq<nat>, next: nat, m: Made, dir: nat, id: nat)
    requires TableOk(g, fat, next, m.fs) && ImageOk(g, image, next, m) && DirsOk(m.fs) && dir in m.fs.dirs && id !in m.fs.files
    ensures Fits(g, image) && Blank(image, g, next) && id !in m.data && id != ROOT && id != dir && id !in m.fs.dirs && dir in m.fs.files
  {
  }

  // ---------- Directories ----------

  const DOT: seq<Byte> := [0x2E, 0x20, 0x20, 0x20, 0x20, 0x20, 0x20, 0x20, 0x20, 0x20, 0x20]
  const DOT_DOT: seq<Byte> := [0x2E, 0x2E, 0x20, 0x20, 0x20, 0x20, 0x20, 0x20, 0x20, 0x20, 0x20]

  // The directory's entry at offset o of cluster c.
  ghost predicate HasAt(g: Geo, m: Made, dir: nat, c: nat, o: nat, raw: seq<Byte>)
    requires c >= 2
  {
    var l := Spot(g, c, o);
    InDir(m, l, dir) && m.recs[l] == Rec(raw, c)
  }

  // Of the places of cluster c exactly those before offset n hold entries.
  ghost predicate TakenTo(g: Geo, m: Made, c: nat, n: nat)
    requires c >= 2
  {
    forall o: nat :: SpotOk(g, o) ==> (Spot(g, c, o) in m.recs <==> o < n)
  }

  lemma NotFull(g: Geo, m: Made, id: nat, c: nat, n: nat)
    requires id in m.fs.files && m.fs.files[id].chain == [c] && c >= 2 && SpotOk(g, n) && TakenTo(g, m, c, n)
    ensures !FullDir(g, m, id)
  {
    var ch := m.fs.files[id].chain;
    assert ch[0] == c && Spot(g, ch[0], n) !in m.recs;
  }

  lemma FirstSpot(image: seq<Sector>, g: Geo, m: Made, to: Made, id: nat, c: nat, n: nat, l: Loc, raw: seq<Byte>)
    requires Appended(g, m, to, id, l, raw) && m.fs.files[id] == File(c, 0, [c]) && c >= 2 && SpotOk(g, n) && TakenTo(g, m, c, n)
    requires RecsOk(image, g, to.fs, to.recs)
    ensures to.fs.files[id] == File(c, 0, [c]) && HasAt(g, to, id, c, n, raw) && TakenTo(g, to, c, n + DIRENT_SIZE)
  {
    NotFull(g, m, id, c, n);
    hide RecsOk;
    var ch := to.fs.files[id].chain;
    assert ch == [c];
    var k: nat, o: nat :| k < |ch| && ch[k] >= 2 && SpotOk(g, o) && l == Spot(g, ch[k], o) && Walked(g, m.recs, ch, k, o);
    assert k == 0 && Spot(g, c, n) !in m.recs && Spot(g, c, o) !in m.recs;
    assert forall p: nat :: p < o && SpotOk(g, p) ==> Spot(g, ch[0], p) in m.recs;
    assert o == n;
    RecHome(image, g, to, id, c, n);
    NextTaken(image, g, m, to, c, n);
  }

  lemma RecHome(image: seq<Sector>, g: Geo, m: Made, id: nat, c: nat, o: nat)
    requires RecsOk(image, g, m.fs, m.recs) && c >= 2 && SpotOk(g, o) && Spot(g, c, o) in m.recs
    ensures m.recs[Spot(g, c, o)].home == c && c < g.count
  {
    var l := Spot(g, c, o);
    assert RecOk(image, g, m.fs, l, m.recs[l]);
    assert InCluster(g, c, l.sector) by { BytesPer(g, image); }
    hide Lba, Fits;
    OneCluster(g, c, m.recs[l].home, l.sector);
  }

  lemma NextTaken(image: seq<Sector>, g: Geo, m: Made, to: Made, c: nat, n: nat)
    requires Fits(g, image) && 2 <= c < g.count && SpotOk(g, n) && TakenTo(g, m, c, n) && Spot(g, c, n) in to.recs
    requires to.recs == m.recs[Spot(g, c, n) := to.recs[Spot(g, c, n)]]
    ensures TakenTo(g, to, c, n + DIRENT_SIZE)
  {
    hide Fits, Spot, Lba;
    forall o: nat | SpotOk(g, o) ensures Spot(g, c, o) in to.recs <==> o < n + DIRENT_SIZE {
      NextMultiple(o, n);
      if Spot(g, c, o) == Spot(g, c, n) { SpotsApart(image, g, c, o, c, n); }
    }
  }

  lemma NextMultiple(o: nat, n: nat)
    requires o % DIRENT_SIZE == 0 && n % DIRENT_SIZE == 0
    ensures o < n + DIRENT_SIZE <==> o <= n
  {
  }

  lemma AddedStay(g: Geo, m: Made, to: Made, dir: nat, l: Loc, d: nat)
    requires AddedIn(m, to, dir) && InDir(m, l, d)
    ensures InDir(to, l, d) && to.recs[l] == m.recs[l]
  {
  }

  lemma ImageRecs(g: Geo, image: seq<Sector>, next: nat, m: Made)
    requires ImageOk(g, image, next, m)
    ensures RecsOk(image, g, m.fs, m.recs)
  {
  }

  // Every entry lies in a cluster that was handed out.
  lemma HomesBelow(image: seq<Sector>, g: Geo, fat: seq<nat>, next: nat, m: Made)
    requires TableOk(g, fat, next, m.fs) && ImageOk(g, image, next, m)
    ensures forall l :: l in m.recs ==> m.recs[l].home < next
  {
    NewNotOwned(fat, g.bpc, m.fs.files, m.fs.owner, next);
    forall l | l in m.recs ensures m.recs[l].home < next { assert RecOk(image, g, m.fs, l, m.recs[l]); }
  }

  lemma RunOfOne(c: nat)
    ensures Run(c, 1) == [c]
  {
  }

  // A new directory is empty, even after its own entry was written.
  lemma NoneTaken(image: seq<Sector>, g: Geo, fat: seq<nat>, next: nat, was: Made, mid: Made, m: Made, dir: nat, id: nat, c: nat)
    requires ImageOk(g, image, next, m) && c >= 2 && dir != id && AddedIn(mid, m, dir) && mid.recs == was.recs && id in mid.fs.files
    requires (forall l :: l in was.recs ==> was.recs[l].home < c) && c in mid.fs.owner && mid.fs.owner[c] == id
    ensures SpotOk(g, 0) && SpotOk(g, DIRENT_SIZE) && TakenTo(g, m, c, 0) && id in m.fs.files && m.fs.files[id] == mid.fs.files[id]
  {
    BytesPer(g, image);
    forall o: nat | SpotOk(g, o) ensures Spot(g, c, o) !in m.recs {
      if Spot(g, c, o) in m.recs {
        RecHome(image, g, m, id, c, o);
      }
    }
  }

  lemma ClaimKept(fs: Fs, t: seq<nat>, id: nat, first: nat, n: nat, length: nat, dir: bool)
    requires id !in fs.files
    ensures KeepsFiles(fs, Claimed(fs, t, id, first, n, length, dir))
  {
  }

  lemma FilesDirs(m: Made, to: Made)
    requires Files(m, to)
    ensures to.fs.dirs == m.fs.dirs
  {
  }

  lemma FilesAt(m: Made, to: Made, f: nat)
    requires Files(m, to) && f in m.fs.files && f !in m.fs.dirs
    ensures f in to.fs.files && to.fs.files[f] == m.fs.files[f] && to.fs.dirs == m.fs.dirs
  {
  }

  lemma FilesKeep(fs: Fs, m: Made, to: Made)
    requires KeepsFiles(fs, m.fs) && Files(m, to)
    ensures KeepsFiles(fs, to.fs)
  {
  }

  lemma NodesAll(m: Made)
    requires Listed(m, {}) && DirsOk(m.fs)
    ensures NodesOf(m).Keys == m.fs.files.Keys - m.fs.dirs
  {
    hide EntryOf;
  }

  lemma FirstSmall(g: Geo, fat: seq<nat>, next: nat, fs: Fs, dir: nat)
    requires TableOk(g, fat, next, fs) && DirsOk(fs) && dir in fs.dirs
    ensures dir in fs.files && fs.files[dir].first < UINT32
  {
    ChainWalk(fat, g.bpc, fs.files, fs.owner, dir);
  }

  // ---------- The finished image ----------

  // Two FATs of the same size in front of the data.
  predicate GeoFat(g: Geo) {
    g.fatStart <= g.fatEnd && g.dataStart == g.fatEnd + (g.fatEnd - g.fatStart)
  }

  lemma InFront(g: Geo, image: seq<Sector>)
    requires Fits(g, image)
    ensures g.fatStart <= g.fatEnd <= g.dataStart <= |image| && g.count <= (g.fatEnd - g.fatStart) * PER_SECTOR
  {
    MulMono(0, g.count - 2, g.spc);
  }

  lemma FatInPlace(image: seq<Sector>, table: seq<Sector>, out: seq<Sector>, g: Geo, fat: seq<nat>)
    requires Fits(g, image) && GeoFat(g) && g.dataStart <= |image| && |table| == g.fatEnd - g.fatStart && |fat| == g.count <= |table| * PER_SECTOR
    requires out == image[..g.fatStart] + table + table + image[g.dataStart..]
    requires forall c :: 0 <= c < |table| * PER_SECTOR ==> EntrySector(c) < |table| && FatEntry(table, 0, c) == if c < |fat| then fat[c] else 0
    ensures |out| == |image| && SameData(image, out, g) && FatStored(out, g, fat)
    ensures forall d: nat :: g.count <= d < Entries(g) ==> EntryFree(out, g, d)
    ensures out[g.fatStart..g.fatEnd] == out[g.fatEnd..g.dataStart]
  {
    assert Fits(g, out);
    hide Fits;
    forall c | 0 <= c < g.count ensures g.fatStart + EntrySector(c) < |out| && fat[c] == FatEntry(out, g.fatStart, c) {
      assert out[g.fatStart + EntrySector(c)] == table[EntrySector(c)];
    }
    forall d: nat | g.count <= d < Entries(g) ensures EntryFree(out, g, d) {
      assert out[g.fatStart + EntrySector(d)] == table[EntrySector(d)];
    }
  }

  ghost function NodesOf(m: Made): map<nat, Node> {
    map id | id in m.fs.files && id !in m.fs.dirs && id in m.at :: Node(m.fs.files[id].first, m.fs.files[id].length, m.at[id])
  }

  lemma Finished(image: seq<Sector>, out: seq<Sector>, g: Geo, fat: seq<nat>, next: nat, m: Made)
    requires TableOk(g, fat, next, m.fs) && ImageOk(g, image, next, m) && Listed(m, {}) && DirsOk(m.fs) && Tidy(m)
    requires SameData(image, out, g) && FatStored(out, g, fat) && NodesOf(m).Keys == m.fs.files.Keys - m.fs.dirs
    ensures Mounted(out, g, m.fs, NodesOf(m)) && RecsOk(out, g, m.fs, m.recs) && Complete(out, g, m.fs, NodesOf(m))
    ensures forall id :: id in m.data ==> id in m.fs.files && |m.data[id]| == m.fs.files[id].length && m.data[id] <= Contents(out, g, m.fs, id)
  {
    hide VolumeOk, RecsOk, DataOk, Fits, Blank, FatStored, SameData, Listed, DirsOk, Tidy, Catalogued, DirClusters, NodesOf;
    FrontRecs(image, out, g, m.fs, m.recs);
    AllNodes(out, g, m);
    AllCatalogued(out, g, m);
    forall id | id in m.data ensures id in m.fs.files && |m.data[id]| == m.fs.files[id].length && m.data[id] <= Contents(out, g, m.fs, id) {
      FinishedData(image, out, g, m.fs, m.data, id);
    }
  }

  lemma FinishedData(image: seq<Sector>, out: seq<Sector>, g: Geo, fs: Fs, data: map<nat, seq<Byte>>, id: nat)
    requires Fits(g, image) && DataOk(image, g, fs, data) && id in data && SameData(image, out, g)
    requires FatStored(out, g, fs.fat) && VolumeOk(fs.fat, g.bpc, fs.files, fs.owner)
    ensures id in fs.files && |data[id]| == fs.files[id].length && data[id] <= Contents(out, g, fs, id)
  {
    assert FileData(image, g, fs, id, data[id]);
    StoredFits(out, g, fs.fat);
    hide Fits, Cluster, SameData, FatStored, VolumeOk;
    forall i | 0 <= i < |fs.files[id].chain| ensures SameCluster(image, out, g, fs.files[id].chain[i]) {
      FrontCluster(image, out, g, fs.files[id].chain[i]);
    }
    DataSame(image, out, g, fs, fs, id, data[id]);
  }

  lemma AllNodes(out: seq<Sector>, g: Geo, m: Made)
    requires RecsOk(out, g, m.fs, m.recs) && Listed(m, {}) && DirsOk(m.fs)
    ensures NodesOk(out, g, m.fs, NodesOf(m))
  {
    hide EntryOf;
    var nodes := NodesOf(m);
    forall id | id in nodes ensures NodeOk(out, g, m.fs, id, nodes[id]) { OneNode(out, g, m, id); }
  }

  // The directories hold no entry of a file that was not added.
  lemma AllCatalogued(out: seq<Sector>, g: Geo, m: Made)
    requires RecsOk(out, g, m.fs, m.recs) && Tidy(m) && VolumeOk(m.fs.fat, g.bpc, m.fs.files, m.fs.owner) && |m.fs.fat| == g.count
    ensures Catalogued(out, g, DirClusters(m.fs), NodesOf(m))
  {
    DirsInData(m.fs, g);
    hide VolumeOk, RecsOk, Fits, InCluster;
    forall h, l: Loc | h in DirClusters(m.fs) && LocOk(l) && InCluster(g, h, l.sector) && l.sector < |out| && FileEntry(out[l.sector], l.offset)
      ensures exists id :: id in NodesOf(m) && NodesOf(m)[id].loc == l
    {
      EntryIsRec(out, g, m, h, l);
      var id :| Records(m, id, l);
      assert id in NodesOf(m) && NodesOf(m)[id].loc == l;
    }
  }

  lemma EntryIsRec(out: seq<Sector>, g: Geo, m: Made, h: nat, l: Loc)
    requires RecsOk(out, g, m.fs, m.recs) && HomeOk(g, m.fs, h) && LocOk(l) && InCluster(g, h, l.sector) && l.sector < |out| && FileEntry(out[l.sector], l.offset)
    ensures l in m.recs && |m.recs[l].raw| == DIRENT_SIZE && FileEntry(m.recs[l].raw, 0)
  {
    var o := (l.sector - Lba(g, h)) * SECTOR_SIZE + l.offset;
    OffsetOf(g, h, l);
    FreeIffNoRec(out, g, m.fs, m.recs, h, o);
    SpotPlace(out, g, h, o);
    assert RecOk(out, g, m.fs, l, m.recs[l]);
    hide RecsOk, Fits, Lba, InCluster, Cluster;
    assert m.recs[l].raw[0] == out[l.sector][l.offset] && m.recs[l].raw[11] == out[l.sector][l.offset + 11];
  }

  lemma OffsetOf(g: Geo, h: nat, l: Loc)
    requires InCluster(g, h, l.sector) && LocOk(l) && g.bpc == g.spc * SECTOR_SIZE
    ensures var o := (l.sector - Lba(g, h)) * SECTOR_SIZE + l.offset; SpotOk(g, o) && Spot(g, h, o) == l
  {
  }

  // ---------- Entries that read as a file's ----------

  lemma LongFacts(raw: seq<Byte>)
    requires LongPiece(raw)
    ensures |raw| == DIRENT_SIZE && !FileEntry(raw, 0)
  {
  }

  lemma NotYetListed(m: Made, id: nat)
    requires Listed(m, {id})
    ensures id !in m.at
  {
  }

  lemma TidyOn(g: Geo, m: Made, to: Made, dir: nat, l: Loc, raw: seq<Byte>)
    requires Tidy(m) && Appended(g, m, to, dir, l, raw) && Grew(m, to, dir) && |raw| == DIRENT_SIZE && !FileEntry(raw, 0)
    ensures Tidy(to)
  {
    forall k | k in to.recs && |to.recs[k].raw| == DIRENT_SIZE && FileEntry(to.recs[k].raw, 0) ensures exists id :: Records(to, id, k) {
      assert k in m.recs && to.recs[k] == m.recs[k];
      var id :| Records(m, id, k);
      assert Records(to, id, k);
    }
  }

  lemma TidyNew(g: Geo, m: Made, to: Made, dir: nat, id: nat, l: Loc, raw: seq<Byte>)
    requires Tidy(m) && Appended(g, m, to, dir, l, raw) && Grew(m, to, dir) && |raw| == DIRENT_SIZE && id in m.fs.files && id !in m.at
    requires FileEntry(raw, 0) ==> id !in m.fs.dirs
    ensures Tidy(Registered(to, id, l))
  {
    var end := Registered(to, id, l);
    forall k | k in end.recs && |end.recs[k].raw| == DIRENT_SIZE && FileEntry(end.recs[k].raw, 0) ensures exists f :: Records(end, f, k) {
      if k == l {
        assert Records(end, id, l);
      } else {
        var f :| Records(m, f, k);
        assert Records(end, f, k);
      }
    }
  }

  // A file that has no entry yet does not matter.
  lemma TidyFs(m: Made, to: Made, id: nat)
    requires Tidy(m) && to.recs == m.recs && to.at == m.at && id !in m.fs.files
    requires m.fs.files.Keys <= to.fs.files.Keys && to.fs.dirs <= m.fs.dirs + {id}
    ensures Tidy(to)
  {
    forall l | l in to.recs && |to.recs[l].raw| == DIRENT_SIZE && FileEntry(to.recs[l].raw, 0) ensures exists f :: Records(to, f, l) {
      var f :| Records(m, f, l);
      assert Records(to, f, l);
    }
  }

  lemma OneNode(out: seq<Sector>, g: Geo, m: Made, id: nat)
    requires RecsOk(out, g, m.fs, m.recs) && id in m.at && EntryOf(m, id, m.at[id]) && id !in m.fs.dirs
    ensures NodeOk(out, g, m.fs, id, Node(m.fs.files[id].first, m.fs.files[id].length, m.at[id]))
  {
    var l := m.at[id];
    var r, f := m.recs[l], m.fs.files[id];
    assert RecOk(out, g, m.fs, l, r);
    var name, attr :| |name| == 11 && r.raw == EntryBytes(name, attr, f.first, f.length);
    EntryReads(out[l.sector], l.offset, name, attr, f.first, f.length);
  }

  // ---------- From the builder to the driver ----------

  lemma NodeThere(m: Made, id: nat)
    requires id in m.fs.files && id !in m.fs.dirs && id in m.at
    ensures id in NodesOf(m) && NodesOf(m)[id].loc == m.at[id]
  {
  }

  // A file put on a new disk by the script is read back by the driver, byte for byte.
  method BuildAndRead(sectors: nat, spc: nat, name: seq<Byte>, bytes: seq<Byte>) returns (ok: bool, out: seq<Byte>)
    requires spc >= 1 && sectors / spc >= 3 && 3 <= GeoOf(sectors, spc).count <= EOC && |name| == 11 && !FreeMark(name[0])
    ensures ok ==> out == bytes
    ensures !ok ==> |bytes| >= UINT32 || exists n: nat :: JustEnough(|bytes|, GeoOf(sectors, spc).bpc, n) && (n + 4 > sectors / spc || n + 4 > GeoOf(sectors, spc).count)
  {
    hide GeoOf, Builder.Ok, Mounted, NodesOf, EntryOf, JustEnough, Contents, NodeOk, EntryBytes;
    var b := new Builder(sectors, spc);
    TableSize(b);
    var l;
    ok, l := b.AddFile(2, [], name, bytes, ROOT, 1);
    if !ok { return false, []; }
    var image := b.Finalize();
    ghost var m := b.m;
    var v := new Volume(image, b.g, m.fs, NodesOf(m));
    NodeThere(m, 1);
    v.OpenEntry(1, l);
    out := v.Read(1, 0, |bytes|, true);
  }

  lemma TableSize(b: Builder)
    requires b.Ok({})
    ensures |b.fat| == b.g.count
  {
  }
}
