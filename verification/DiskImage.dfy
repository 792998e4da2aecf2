/**
 The image that make_disk.py fills in, as a value: directory entries, file bytes and unused clusters, and which
 writes leave which of them alone.
 */
module DiskImage {
  import opened SectorCache
  import opened FatBytes
  import opened FatDisk
  import opened FatFiles
  import opened FatDirs
  import opened FatVolume
  import opened Fat32

  // ---------- Directory entries ----------

  // A directory entry that was written: its 32 bytes, and the directory cluster it lies in.
  datatype Rec = Rec(raw: seq<Byte>, home: nat)

  predicate Live(raw: seq<Byte>) {
    |raw| == DIRENT_SIZE && raw[0] != 0 && raw[0] != DELETED
  }

  ghost predicate HomeOk(g: Geo, fs: Fs, h: nat) {
    2 <= h < g.count && h in fs.owner && fs.owner[h] in fs.dirs
  }

  ghost predicate RecOk(image: seq<Sector>, g: Geo, fs: Fs, l: Loc, r: Rec) {
    && LocOk(l) && Live(r.raw) && l.sector < |image|
    && image[l.sector][l.offset..l.offset + DIRENT_SIZE] == r.raw
    && HomeOk(g, fs, r.home) && InCluster(g, r.home, l.sector)
  }

  // The entries of all directories: those of recs, and no others.
  ghost predicate RecsOk(image: seq<Sector>, g: Geo, fs: Fs, recs: map<Loc, Rec>) {
    Fits(g, image) && EachRec(image, g, fs, recs) && OnlyRecs(image, g, fs, recs)
  }

  ghost predicate EachRec(image: seq<Sector>, g: Geo, fs: Fs, recs: map<Loc, Rec>) {
    forall l :: l in recs ==> RecOk(image, g, fs, l, recs[l])
  }

  // A place of a directory that holds no entry was never written.
  ghost predicate OnlyRecs(image: seq<Sector>, g: Geo, fs: Fs, recs: map<Loc, Rec>)
    requires Fits(g, image)
  {
    forall h, o: nat :: HomeOk(g, fs, h) && SpotOk(g, o) && Spot(g, h, o) !in recs ==> Cluster(image, g, h)[o] == 0
  }

  predicate SpotOk(g: Geo, o: nat) {
    o < g.bpc && o % DIRENT_SIZE == 0
  }

  // Where the entry at offset o of cluster c lies.
  function Spot(g: Geo, c: nat, o: nat): Loc
    requires c >= 2
  {
    Loc(Lba(g, c) + o / SECTOR_SIZE, o % SECTOR_SIZE)
  }

  lemma SpotPlace(image: seq<Sector>, g: Geo, c: nat, o: nat)
    requires Fits(g, image) && 2 <= c < g.count && SpotOk(g, o)
    ensures var l := Spot(g, c, o);
            LocOk(l) && l.sector < |image| && InCluster(g, c, l.sector) && image[l.sector][l.offset] == Cluster(image, g, c)[o]
  {
    LbaFits(g, image, c);
    ClusterAt(image, g, c, o);
    hide Cluster, Fits, Lba;
  }

  lemma SpotsApart(image: seq<Sector>, g: Geo, c: nat, o: nat, d: nat, p: nat)
    requires Fits(g, image) && 2 <= c < g.count && 2 <= d < g.count && SpotOk(g, o) && SpotOk(g, p) && Spot(g, c, o) == Spot(g, d, p)
    ensures c == d && o == p
  {
    SpotPlace(image, g, c, o);
    SpotPlace(image, g, d, p);
    hide Fits, Lba, InCluster;
    OneCluster(g, c, d, Spot(g, c, o).sector);
    assert o == o / SECTOR_SIZE * SECTOR_SIZE + o % SECTOR_SIZE && p == p / SECTOR_SIZE * SECTOR_SIZE + p % SECTOR_SIZE;
  }

  function PutRaw(s: Sector, at: nat, raw: seq<Byte>): (t: Sector)
    requires at + DIRENT_SIZE <= SECTOR_SIZE && |raw| == DIRENT_SIZE
    ensures t[at..at + DIRENT_SIZE] == raw
    ensures forall i :: 0 <= i < SECTOR_SIZE && !(at <= i < at + DIRENT_SIZE) ==> t[i] == s[i]
  {
    s[..at] + raw + s[at + DIRENT_SIZE..]
  }

  // A place of a directory looks free exactly when it holds no entry.
  lemma FreeIffNoRec(image: seq<Sector>, g: Geo, fs: Fs, recs: map<Loc, Rec>, h: nat, o: nat)
    requires RecsOk(image, g, fs, recs) && HomeOk(g, fs, h) && SpotOk(g, o)
    ensures FreeMark(Cluster(image, g, h)[o]) <==> Spot(g, h, o) !in recs
  {
    SpotPlace(image, g, h, o);
    hide Cluster, Fits, Lba;
    if FreeMark(Cluster(image, g, h)[o]) { FreeSlotNew(image, g, fs, recs, Spot(g, h, o)); }
  }

  lemma FreeSlotNew(image: seq<Sector>, g: Geo, fs: Fs, recs: map<Loc, Rec>, l: Loc)
    requires EachRec(image, g, fs, recs) && LocOk(l) && l.sector < |image|
    requires image[l.sector][l.offset] == 0 || image[l.sector][l.offset] == DELETED
    ensures l !in recs
  {
    assert image[l.sector][l.offset] == image[l.sector][l.offset..l.offset + DIRENT_SIZE][0];
  }

  // A new entry leaves the others alone.
  lemma SlotRecs(image: seq<Sector>, g: Geo, fs: Fs, recs: map<Loc, Rec>, h: nat, o: nat, raw: seq<Byte>)
    requires RecsOk(image, g, fs, recs) && HomeOk(g, fs, h) && SpotOk(g, o) && Spot(g, h, o) !in recs && Live(raw)
    ensures var l := Spot(g, h, o);
            l.sector < |image| && LocOk(l) && RecsOk(image[l.sector := PutRaw(image[l.sector], l.offset, raw)], g, fs, recs[l := Rec(raw, h)])
  {
    var l := Spot(g, h, o);
    SpotPlace(image, g, h, o);
    var d := image[l.sector := PutRaw(image[l.sector], l.offset, raw)];
    assert Fits(g, d);
    hide Fits, Cluster, Lba, InCluster, OnlyRecs, EachRec, PutRaw;
    SlotEach(image, g, fs, recs, l, raw, h);
    SlotOnly(image, d, g, fs, recs, h, o, raw);
  }

  lemma SlotEach(image: seq<Sector>, g: Geo, fs: Fs, recs: map<Loc, Rec>, l: Loc, raw: seq<Byte>, h: nat)
    requires EachRec(image, g, fs, recs) && l !in recs && LocOk(l) && Live(raw) && HomeOk(g, fs, h)
    requires InCluster(g, h, l.sector) && l.sector < |image|
    ensures EachRec(image[l.sector := PutRaw(image[l.sector], l.offset, raw)], g, fs, recs[l := Rec(raw, h)])
  {
    var d := image[l.sector := PutRaw(image[l.sector], l.offset, raw)];
    forall k | k in recs ensures RecOk(d, g, fs, k, recs[k]) {
      hide InCluster, HomeOk;
      assert RecOk(image, g, fs, k, recs[k]);
      if k.sector == l.sector {
        SlotsApart(k.offset, l.offset);
        assert d[k.sector][k.offset..k.offset + DIRENT_SIZE] == image[k.sector][k.offset..k.offset + DIRENT_SIZE];
      }
    }
  }

  lemma SlotOnly(image: seq<Sector>, d: seq<Sector>, g: Geo, fs: Fs, recs: map<Loc, Rec>, h: nat, o: nat, raw: seq<Byte>)
    requires Fits(g, image) && Fits(g, d) && OnlyRecs(image, g, fs, recs) && HomeOk(g, fs, h) && SpotOk(g, o) && Live(raw)
    requires var l := Spot(g, h, o); LocOk(l) && l.sector < |image| && InCluster(g, h, l.sector)
                                     && d == image[l.sector := PutRaw(image[l.sector], l.offset, raw)]
    ensures OnlyRecs(d, g, fs, recs[Spot(g, h, o) := Rec(raw, h)])
  {
    var l := Spot(g, h, o);
    hide Fits, Cluster, InCluster, PutRaw;
    forall e, p: nat | HomeOk(g, fs, e) && SpotOk(g, p) && Spot(g, e, p) !in recs[l := Rec(raw, h)] ensures Cluster(d, g, e)[p] == 0 {
      assert Cluster(image, g, e)[p] == 0;
      if e != h {
        SlotCluster(image, g, l, d[l.sector], h, e);
      } else {
        SameByte(image, d, g, h, o, p, raw);
      }
    }
  }

  // Another place of the same cluster keeps its first byte.
  lemma SameByte(image: seq<Sector>, d: seq<Sector>, g: Geo, h: nat, o: nat, p: nat, raw: seq<Byte>)
    requires Fits(g, image) && Fits(g, d) && 2 <= h < g.count && SpotOk(g, o) && SpotOk(g, p) && Spot(g, h, o) != Spot(g, h, p) && Live(raw)
    requires var l := Spot(g, h, o); LocOk(l) && l.sector < |image| && d == image[l.sector := PutRaw(image[l.sector], l.offset, raw)]
    ensures Cluster(d, g, h)[p] == Cluster(image, g, h)[p]
  {
    SpotPlace(image, g, h, p);
    SpotPlace(d, g, h, p);
    hide Fits, Cluster, Lba, InCluster;
    var l, k := Spot(g, h, o), Spot(g, h, p);
    if k.sector == l.sector { SlotsApart(k.offset, l.offset); }
  }

  lemma SlotsApart(a: nat, b: nat)
    requires a % DIRENT_SIZE == 0 && b % DIRENT_SIZE == 0 && a != b
    ensures a + DIRENT_SIZE <= b || b + DIRENT_SIZE <= a
  {
  }

  lemma SlotCluster(image: seq<Sector>, g: Geo, l: Loc, t: Sector, h: nat, c: nat)
    requires Fits(g, image) && InCluster(g, h, l.sector) && l.sector < |image| && 2 <= c < g.count && c != h
    ensures Fits(g, image[l.sector := t]) && Cluster(image[l.sector := t], g, c) == Cluster(image, g, c)
  {
    assert Fits(g, image[l.sector := t]);
    hide Fits, Cluster, Lba;
    if InCluster(g, c, l.sector) { OneCluster(g, c, h, l.sector); }
    ClusterSame(image, image[l.sector := t], g, c);
  }

  // Writing a cluster that no directory has leaves all entries alone.
  lemma PutRecs(image: seq<Sector>, d: seq<Sector>, g: Geo, fs: Fs, recs: map<Loc, Rec>, c: nat, buf: seq<Byte>)
    requires Fits(g, image) && 2 <= c < g.count && |buf| == g.bpc && ClusterPut(image, d, g, c, buf)
    requires RecsOk(image, g, fs, recs) && (c in fs.owner ==> fs.owner[c] !in fs.dirs)
    ensures RecsOk(d, g, fs, recs)
  {
    PutThenGet(image, d, g, c, buf);
    PutEach(image, d, g, fs, recs, c, buf);
    hide Fits, Cluster, Lba;
    OnlySame(image, d, g, fs, recs);
  }

  lemma PutEach(image: seq<Sector>, d: seq<Sector>, g: Geo, fs: Fs, recs: map<Loc, Rec>, c: nat, buf: seq<Byte>)
    requires Fits(g, image) && 2 <= c < g.count && |buf| == g.bpc && ClusterPut(image, d, g, c, buf)
    requires EachRec(image, g, fs, recs) && (c in fs.owner ==> fs.owner[c] !in fs.dirs)
    ensures EachRec(d, g, fs, recs)
  {
    hide Fits, Lba;
    forall l | l in recs ensures RecOk(d, g, fs, l, recs[l]) {
      assert RecOk(image, g, fs, l, recs[l]);
      if InCluster(g, c, l.sector) { OneCluster(g, c, recs[l].home, l.sector); }
    }
  }

  lemma OnlySame(image: seq<Sector>, d: seq<Sector>, g: Geo, fs: Fs, recs: map<Loc, Rec>)
    requires Fits(g, image) && Fits(g, d) && OnlyRecs(image, g, fs, recs)
    requires forall h :: HomeOk(g, fs, h) ==> Cluster(d, g, h) == Cluster(image, g, h)
    ensures OnlyRecs(d, g, fs, recs)
  {
    hide Fits, Cluster, Lba;
  }

  // Entries do not depend on the clusters of files; a new directory cluster is blank.
  lemma FsRecs(image: seq<Sector>, g: Geo, fs: Fs, fs': Fs, recs: map<Loc, Rec>)
    requires RecsOk(image, g, fs, recs) && KeepsDirs(fs, fs')
    requires forall h :: HomeOk(g, fs', h) && !HomeOk(g, fs, h) ==> Cluster(image, g, h) == Zeros(g.bpc)
    ensures RecsOk(image, g, fs', recs)
  {
    hide Fits, Cluster, Lba;
    forall l | l in recs ensures RecOk(image, g, fs', l, recs[l]) { assert RecOk(image, g, fs, l, recs[l]); }
    forall h, o: nat | HomeOk(g, fs', h) && SpotOk(g, o) && Spot(g, h, o) !in recs ensures Cluster(image, g, h)[o] == 0 {
      if HomeOk(g, fs, h) { assert Cluster(image, g, h)[o] == 0; }
    }
  }

  // Directory clusters stay directory clusters.
  ghost predicate KeepsDirs(fs: Fs, fs': Fs) {
    fs.dirs <= fs'.dirs && forall c :: c in fs.owner && fs.owner[c] in fs.dirs ==> c in fs'.owner && fs'.owner[c] == fs.owner[c]
  }

  // Nothing in front of the data area matters.
  lemma FrontRecs(image: seq<Sector>, d: seq<Sector>, g: Geo, fs: Fs, recs: map<Loc, Rec>)
    requires RecsOk(image, g, fs, recs) && SameData(image, d, g)
    ensures RecsOk(d, g, fs, recs)
  {
    assert Fits(g, d);
    FrontEach(image, d, g, fs, recs);
    hide Fits, Cluster, SameData;
    forall h | HomeOk(g, fs, h) ensures Cluster(d, g, h) == Cluster(image, g, h) { FrontCluster(image, d, g, h); }
    OnlySame(image, d, g, fs, recs);
  }

  lemma FrontEach(image: seq<Sector>, d: seq<Sector>, g: Geo, fs: Fs, recs: map<Loc, Rec>)
    requires EachRec(image, g, fs, recs) && SameData(image, d, g)
    ensures EachRec(d, g, fs, recs)
  {
    hide InCluster;
    forall l | l in recs ensures RecOk(d, g, fs, l, recs[l]) {
      assert RecOk(image, g, fs, l, recs[l]);
      BehindFront(g, recs[l].home, l.sector);
    }
  }

  lemma BehindFront(g: Geo, c: nat, i: nat)
    requires InCluster(g, c, i)
    ensures g.dataStart <= i
  {
    MulMono(0, c - 2, g.spc);
  }

  ghost predicate SameData(image: seq<Sector>, d: seq<Sector>, g: Geo) {
    |d| == |image| && forall i :: g.dataStart <= i < |image| ==> d[i] == image[i]
  }

  lemma FrontCluster(image: seq<Sector>, d: seq<Sector>, g: Geo, c: nat)
    requires Fits(g, image) && SameData(image, d, g) && 2 <= c < g.count
    ensures Fits(g, d) && Cluster(d, g, c) == Cluster(image, g, c)
  {
    assert Fits(g, d);
    hide Fits, Cluster, InCluster;
    forall i: nat | InCluster(g, c, i) && i < |image| ensures d[i] == image[i] { BehindFront(g, c, i); }
    ClusterSame(image, d, g, c);
  }

  // ---------- File bytes ----------

  // Every file begins with its data.
  ghost predicate DataOk(image: seq<Sector>, g: Geo, fs: Fs, data: map<nat, seq<Byte>>)
    requires Fits(g, image)
  {
    forall id :: id in data ==> FileData(image, g, fs, id, data[id])
  }

  ghost predicate FileData(image: seq<Sector>, g: Geo, fs: Fs, id: nat, bytes: seq<Byte>)
    requires Fits(g, image)
  {
    && id in fs.files && id !in fs.dirs && InData(g, fs.files[id].chain) && |bytes| == fs.files[id].length
    && bytes <= Bytes(image, g, fs.files[id].chain)
  }

  // A file's bytes stay when its clusters do.
  lemma DataSame(image: seq<Sector>, d: seq<Sector>, g: Geo, fs: Fs, fs': Fs, id: nat, bytes: seq<Byte>)
    requires Fits(g, image) && Fits(g, d) && FileData(image, g, fs, id, bytes)
    requires id in fs'.files && fs'.files[id] == fs.files[id] && id !in fs'.dirs
    requires forall i :: 0 <= i < |fs.files[id].chain| ==> SameCluster(image, d, g, fs.files[id].chain[i])
    ensures FileData(d, g, fs', id, bytes)
  {
    hide Fits, Cluster;
    BytesSame(image, d, g, fs.files[id].chain);
  }

  lemma DataFs(image: seq<Sector>, g: Geo, fs: Fs, fs': Fs, data: map<nat, seq<Byte>>)
    requires Fits(g, image) && DataOk(image, g, fs, data)
    requires forall f :: f in data && f in fs.files && f !in fs.dirs ==> f in fs'.files && fs'.files[f] == fs.files[f] && f !in fs'.dirs
    ensures DataOk(image, g, fs', data)
  {
    hide Fits, Bytes;
    forall f | f in data ensures FileData(image, g, fs', f, data[f]) { assert FileData(image, g, fs, f, data[f]); }
  }

  // Writing cluster c changes no other file's bytes.
  lemma DataPut(image: seq<Sector>, d: seq<Sector>, g: Geo, fs: Fs, data: map<nat, seq<Byte>>, c: nat)
    requires Fits(g, image) && Fits(g, d) && DataOk(image, g, fs, data)
    requires forall e :: 2 <= e < g.count && e != c ==> SameCluster(image, d, g, e)
    requires forall f :: f in data && f in fs.files ==> c !in fs.files[f].chain
    ensures DataOk(d, g, fs, data)
  {
    hide Fits, Bytes, Cluster;
    forall f | f in data ensures FileData(d, g, fs, f, data[f]) {
      assert FileData(image, g, fs, f, data[f]);
      DataSame(image, d, g, fs, fs, f, data[f]);
    }
  }

  lemma BlankPut(image: seq<Sector>, d: seq<Sector>, g: Geo, next: nat, c: nat)
    requires Fits(g, image) && Fits(g, d) && Blank(image, g, next) && c < next
    requires forall e :: 2 <= e < g.count && e != c ==> SameCluster(image, d, g, e)
    ensures Blank(d, g, next)
  {
    hide Fits, Cluster;
    forall e | 2 <= e && next <= e < g.count ensures Cluster(d, g, e) == Zeros(g.bpc) { assert SameCluster(image, d, g, e); }
  }

  ghost predicate SameCluster(image: seq<Sector>, d: seq<Sector>, g: Geo, c: nat)
    requires Fits(g, image) && Fits(g, d)
  {
    2 <= c < g.count ==> Cluster(d, g, c) == Cluster(image, g, c)
  }

  // The bytes of a chain whose clusters hold s, piece by piece.
  lemma {:induction false} BytesFrom(image: seq<Sector>, g: Geo, ch: seq<nat>, s: seq<Byte>)
    requires Fits(g, image) && InData(g, ch) && |s| == |ch| * g.bpc
    requires forall i: nat :: i < |ch| ==> HoldsPiece(image, g, ch, s, i)
    ensures Bytes(image, g, ch) == s
    decreases |ch|
  {
    hide Cluster, Fits;
    if ch != [] {
      var tl, rest := ch[1..], s[g.bpc..];
      OneMore(|ch| - 1, g.bpc);
      forall i: nat | i < |tl| ensures HoldsPiece(image, g, tl, rest, i) {
        assert HoldsPiece(image, g, ch, s, i + 1) && tl[i] == ch[i + 1];
        OneMore(i, g.bpc);
        OneMore(i + 1, g.bpc);
        MulMono(i + 1, |tl|, g.bpc);
        PieceOn(s, g.bpc, i * g.bpc);
      }
      BytesFrom(image, g, tl, rest);
      assert HoldsPiece(image, g, ch, s, 0);
      assert s == s[..g.bpc] + rest;
    }
  }

  lemma PieceOn(s: seq<Byte>, b: nat, at: nat)
    requires b + at + b <= |s|
    ensures s[b..][at..at + b] == s[b + at..b + at + b]
  {
  }

  ghost predicate HoldsPiece(image: seq<Sector>, g: Geo, ch: seq<nat>, s: seq<Byte>, i: nat)
    requires Fits(g, image) && InData(g, ch) && i < |ch|
  {
    i * g.bpc + g.bpc <= |s| && Cluster(image, g, ch[i]) == s[i * g.bpc..i * g.bpc + g.bpc]
  }

  // ---------- Unused clusters ----------

  // The clusters from `next` on were never written.
  ghost predicate Blank(image: seq<Sector>, g: Geo, next: nat)
    requires Fits(g, image)
  {
    forall c :: 2 <= c && next <= c < g.count ==> Cluster(image, g, c) == Zeros(g.bpc)
  }

  function Zeros(n: nat): (s: seq<Byte>)
    ensures |s| == n && forall i :: 0 <= i < n ==> s[i] == 0
  {
    seq(n, _ => 0)
  }

  // ---------- The entry of a file ----------

  function Pair(v: nat): seq<Byte>
    requires v < UINT16
  {
    [v % 256, v / 256]
  }

  // The 32 bytes of a directory entry.
  function EntryBytes(name: seq<Byte>, attr: Byte, first: nat, size: nat): (raw: seq<Byte>)
    requires |name| == 11 && first < UINT32 && size < UINT32
    ensures |raw| == DIRENT_SIZE && raw[0] == name[0] && raw[..11] == name && raw[11] == attr
    ensures raw[20..22] == Pair(first / UINT16) && raw[26..28] == Pair(first % UINT16)
    ensures raw[28..30] == Pair(size % UINT16) && raw[30..32] == Pair(size / UINT16)
  {
    name + [attr] + Zeros(8) + Pair(first / UINT16) + Zeros(4) + Pair(first % UINT16) + Pair(size % UINT16) + Pair(size / UINT16)
  }

  // The driver reads first cluster and size out of it.
  lemma EntryReads(s: Sector, at: nat, name: seq<Byte>, attr: Byte, first: nat, size: nat)
    requires at + DIRENT_SIZE <= SECTOR_SIZE && |name| == 11 && first < UINT32 && size < UINT32
    requires s[at..at + DIRENT_SIZE] == EntryBytes(name, attr, first, size)
    ensures DirFirst(s, at) == first && DirSize(s, at) == size && s[at] == name[0]
  {
    hide EntryBytes;
    var raw := EntryBytes(name, attr, first, size);
    forall i | 0 <= i < DIRENT_SIZE ensures s[at + i] == raw[i] { assert s[at + i] == s[at..at + DIRENT_SIZE][i]; }
    assert raw[20] == raw[20..22][0] && raw[21] == raw[20..22][1] && raw[26] == raw[26..28][0] && raw[27] == raw[26..28][1];
    assert raw[28] == raw[28..30][0] && raw[29] == raw[28..30][1] && raw[30] == raw[30..32][0] && raw[31] == raw[30..32][1];
  }
}
