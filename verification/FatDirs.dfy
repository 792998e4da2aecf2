/**
 The entries of a directory in the order of its chain, and the search for a name among them (src/fs/fat32.c; Microsoft
 FAT32 File System Specification, section "FAT Directory Structure").
 */
module FatDirs {
  import opened SectorCache
  import opened FatBytes
  import opened FatDisk
  import opened FatFiles

  predicate FreeMark(b: Byte) {
    b == 0 || b == DELETED
  }

  // The directories are as before, but for bytes lo to hi of entry l.
  ghost predicate DirsKept(disk: seq<Sector>, d: seq<Sector>, g: Geo, hs: set<nat>, l: Loc, lo: nat, hi: nat) {
    && |d| == |disk|
    && forall h, i: nat, o: nat ::
         h in hs && InCluster(g, h, i) && i < |disk| && o < SECTOR_SIZE && !(i == l.sector && l.offset + lo <= o < l.offset + hi) ==>
           d[i][o] == disk[i][o]
  }

  lemma DirsTrans(a: seq<Sector>, b: seq<Sector>, c: seq<Sector>, g: Geo, hs: set<nat>, l: Loc, lo: nat, hi: nat)
    requires DirsKept(a, b, g, hs, l, lo, hi) && DirsKept(b, c, g, hs, l, lo, hi)
    ensures DirsKept(a, c, g, hs, l, lo, hi)
  {
  }

  lemma DirsWider(disk: seq<Sector>, d: seq<Sector>, g: Geo, hs: set<nat>, l: Loc, lo: nat, hi: nat)
    requires DirsKept(disk, d, g, hs, l, lo, hi) && hi <= DIRENT_SIZE
    ensures DirsKept(disk, d, g, hs, l, 0, DIRENT_SIZE)
  {
  }

  lemma DirsBack(disk: seq<Sector>, d: seq<Sector>, g: Geo, hs: set<nat>, l: Loc, lo: nat, hi: nat)
    requires DirsKept(disk, d, g, hs, l, lo, hi)
    ensures DirsKept(d, disk, g, hs, l, lo, hi)
  {
  }

  lemma DirsSelf(disk: seq<Sector>, g: Geo, hs: set<nat>, l: Loc, lo: nat, hi: nat)
    ensures DirsKept(disk, disk, g, hs, l, lo, hi)
  {
  }

  // ---------- Entries in order ----------

  // Entries per cluster.
  function PerCluster(g: Geo): nat {
    g.spc * 16
  }

  function Slots(g: Geo, ch: seq<nat>): nat {
    |ch| * PerCluster(g)
  }

  // Where the i-th entry of the directory lies.
  ghost function Place(g: Geo, ch: seq<nat>, i: nat): Loc
    requires InData(g, ch) && i < Slots(g, ch)
  {
    IndexBelow(PerCluster(g), |ch|, i);
    Nth(g, ch[i / PerCluster(g)], i % PerCluster(g))
  }

  // The r-th entry of cluster c.
  function Nth(g: Geo, c: nat, r: nat): Loc
    requires c >= 2
  {
    Loc(Lba(g, c) + r / 16, r % 16 * DIRENT_SIZE)
  }

  // The cluster of the i-th entry.
  ghost function Host(g: Geo, ch: seq<nat>, i: nat): (c: nat)
    requires InData(g, ch) && i < Slots(g, ch)
    ensures 2 <= c < g.count && c in ch
  {
    IndexBelow(PerCluster(g), |ch|, i);
    ch[i / PerCluster(g)]
  }

  lemma PlaceInside(g: Geo, ch: seq<nat>, i: nat)
    requires InData(g, ch) && i < Slots(g, ch)
    ensures LocOk(Place(g, ch, i)) && InCluster(g, Host(g, ch, i), Place(g, ch, i).sector)
  {
    IndexBelow(PerCluster(g), |ch|, i);
    hide Lba;
    Halves(g.spc, i % PerCluster(g));
  }

  lemma Halves(spc: nat, r: nat)
    requires r < spc * 16
    ensures r / 16 < spc && r == r / 16 * 16 + r % 16
  {
  }

  lemma InsideDisk(disk: seq<Sector>, g: Geo, c: nat, i: nat)
    requires Fits(g, disk) && 2 <= c < g.count && InCluster(g, c, i)
    ensures i < |disk|
  {
    LbaFits(g, disk, c);
  }

  ghost function Entry(disk: seq<Sector>, g: Geo, ch: seq<nat>, i: nat): (e: seq<Byte>)
    requires Fits(g, disk) && InData(g, ch) && i < Slots(g, ch)
    ensures |e| == DIRENT_SIZE
  {
    PlaceOnDisk(disk, g, ch, i);
    var l := Place(g, ch, i);
    disk[l.sector][l.offset..l.offset + DIRENT_SIZE]
  }

  lemma PlaceOnDisk(disk: seq<Sector>, g: Geo, ch: seq<nat>, i: nat)
    requires Fits(g, disk) && InData(g, ch) && i < Slots(g, ch)
    ensures var l := Place(g, ch, i); l.sector < |disk| && LocOk(l) && InCluster(g, Host(g, ch, i), l.sector)
  {
    hide Fits, Place, Host, InCluster;
    PlaceInside(g, ch, i);
    InsideDisk(disk, g, Host(g, ch, i), Place(g, ch, i).sector);
  }

  lemma Quotient(k: nat, b: nat, r: nat)
    requires r < b
    ensures (k * b + r) / b == k && (k * b + r) % b == r
  {
    var x := k * b + r;
    var q := x / b;
    assert x == q * b + x % b;
    if q < k { MulMono(q + 1, k, b); } else if q > k { MulMono(k + 1, q, b); }
  }

  // The j-th entry of the s-th sector of the k-th cluster.
  lemma PlaceIs(g: Geo, ch: seq<nat>, k: nat, s: nat, j: nat)
    requires InData(g, ch) && k < |ch| && s < g.spc && j < 16
    ensures k * PerCluster(g) + s * 16 + j < (k + 1) * PerCluster(g) <= Slots(g, ch)
    ensures Place(g, ch, k * PerCluster(g) + s * 16 + j) == Loc(Lba(g, ch[k]) + s, j * DIRENT_SIZE)
  {
    hide Lba, InCluster;
    MulMono(s + 1, g.spc, 16);
    OneMore(k, PerCluster(g));
    MulMono(k + 1, |ch|, PerCluster(g));
    Quotient(k, PerCluster(g), s * 16 + j);
  }

  lemma EntryIs(disk: seq<Sector>, g: Geo, ch: seq<nat>, k: nat, s: nat, j: nat)
    requires Fits(g, disk) && InData(g, ch) && k < |ch| && s < g.spc && j < 16
    ensures k * PerCluster(g) + s * 16 + j < (k + 1) * PerCluster(g) <= Slots(g, ch) && Lba(g, ch[k]) + s < |disk|
    ensures Entry(disk, g, ch, k * PerCluster(g) + s * 16 + j) == disk[Lba(g, ch[k]) + s][j * DIRENT_SIZE..j * DIRENT_SIZE + DIRENT_SIZE]
  {
    hide Fits, Place, Host, InCluster, Lba;
    PlaceIs(g, ch, k, s, j);
    EntryAt(disk, g, ch, k * PerCluster(g) + s * 16 + j);
  }

  lemma EntryAt(disk: seq<Sector>, g: Geo, ch: seq<nat>, i: nat)
    requires Fits(g, disk) && InData(g, ch) && i < Slots(g, ch)
    ensures var l := Place(g, ch, i);
            && l.sector < |disk| && LocOk(l) && InCluster(g, Host(g, ch, i), l.sector)
            && Entry(disk, g, ch, i) == disk[l.sector][l.offset..l.offset + DIRENT_SIZE]
            && Entry(disk, g, ch, i)[0] == disk[l.sector][l.offset]
  {
    hide Fits, Place, Host, InCluster;
    PlaceOnDisk(disk, g, ch, i);
  }

  // Different entries lie at different places.
  lemma PlacesApart(g: Geo, ch: seq<nat>, i: nat, j: nat)
    requires InData(g, ch) && i < Slots(g, ch) && j < Slots(g, ch) && Place(g, ch, i) == Place(g, ch, j)
    requires forall a, b :: 0 <= a < b < |ch| ==> ch[a] != ch[b]
    ensures i == j
  {
    var p := PerCluster(g);
    PlaceInside(g, ch, i);
    PlaceInside(g, ch, j);
    IndexBelow(p, |ch|, i);
    IndexBelow(p, |ch|, j);
    Halves(g.spc, i % p);
    Halves(g.spc, j % p);
    OneCluster(g, Host(g, ch, i), Host(g, ch, j), Place(g, ch, i).sector);
    hide InCluster, Lba;
    assert i / p == j / p;
  }

  // ---------- The first free entry ----------

  ghost predicate FullTo(disk: seq<Sector>, g: Geo, ch: seq<nat>, n: nat)
    requires Fits(g, disk) && InData(g, ch)
  {
    forall j: nat :: j < n && j < Slots(g, ch) ==> !FreeMark(Entry(disk, g, ch, j)[0])
  }

  ghost predicate FreeAt(disk: seq<Sector>, g: Geo, ch: seq<nat>, l: Loc, i: nat)
    requires Fits(g, disk) && InData(g, ch)
  {
    i < Slots(g, ch) && Place(g, ch, i) == l && FreeMark(Entry(disk, g, ch, i)[0]) && FullTo(disk, g, ch, i)
  }

  // l is the first free entry of the directory.
  ghost predicate FirstFree(disk: seq<Sector>, g: Geo, ch: seq<nat>, l: Loc)
    requires Fits(g, disk) && InData(g, ch)
  {
    exists i: nat :: FreeAt(disk, g, ch, l, i)
  }

  lemma FullNone(disk: seq<Sector>, g: Geo, ch: seq<nat>)
    requires Fits(g, disk) && InData(g, ch)
    ensures FullTo(disk, g, ch, 0 * PerCluster(g))
  {
  }

  // The first n entries of the s-th sector of the k-th cluster are taken too.
  lemma FullOn(disk: seq<Sector>, g: Geo, ch: seq<nat>, k: nat, s: nat, n: nat)
    requires Fits(g, disk) && InData(g, ch) && k < |ch| && s < g.spc && n <= 16 && FullTo(disk, g, ch, k * PerCluster(g) + s * 16)
    requires Lba(g, ch[k]) + s < |disk| && forall j :: 0 <= j < n ==> !FreeMark(disk[Lba(g, ch[k]) + s][j * DIRENT_SIZE])
    ensures FullTo(disk, g, ch, k * PerCluster(g) + s * 16 + n)
  {
    hide Fits, Lba, Entry, PerCluster;
    var b := k * PerCluster(g) + s * 16;
    forall j: nat | j < b + n && j < Slots(g, ch) ensures !FreeMark(Entry(disk, g, ch, j)[0]) {
      if j >= b {
        EntryIs(disk, g, ch, k, s, j - b);
        assert b + (j - b) == j;
      }
    }
  }

  // ---------- The search ----------

  datatype Searched = Hit | Ended | Missed

  // The j-th entry of the sector is neither the end nor what is looked for.
  ghost predicate Passes(s: Sector, j: nat, name: seq<Byte>) {
    j < 16 && s[j * DIRENT_SIZE] != 0 && !Matches(s[j * DIRENT_SIZE..j * DIRENT_SIZE + DIRENT_SIZE], name)
  }

  // find_cb, on an entry that is not the end mark.
  predicate Matches(e: seq<Byte>, name: seq<Byte>) {
    |e| == DIRENT_SIZE && e[0] != DELETED && e[..11] == name
  }

  // The search goes on behind the first n entries.
  ghost predicate Passed(disk: seq<Sector>, g: Geo, ch: seq<nat>, name: seq<Byte>, n: nat)
    requires Fits(g, disk) && InData(g, ch)
  {
    forall j: nat :: j < n && j < Slots(g, ch) ==> Entry(disk, g, ch, j)[0] != 0 && !Matches(Entry(disk, g, ch, j), name)
  }

  ghost predicate HitAt(disk: seq<Sector>, g: Geo, ch: seq<nat>, name: seq<Byte>, l: Loc, i: nat)
    requires Fits(g, disk) && InData(g, ch)
  {
    && i < Slots(g, ch) && Place(g, ch, i) == l && Entry(disk, g, ch, i)[0] != 0 && Matches(Entry(disk, g, ch, i), name)
    && Passed(disk, g, ch, name, i)
  }

  // The search for the name ends at entry l.
  ghost predicate Finds(disk: seq<Sector>, g: Geo, ch: seq<nat>, name: seq<Byte>, l: Loc)
    requires Fits(g, disk) && InData(g, ch)
  {
    exists i: nat :: HitAt(disk, g, ch, name, l, i)
  }

  ghost predicate EndAt(disk: seq<Sector>, g: Geo, ch: seq<nat>, name: seq<Byte>, i: nat)
    requires Fits(g, disk) && InData(g, ch)
  {
    i <= Slots(g, ch) && Passed(disk, g, ch, name, i) && (i < Slots(g, ch) ==> Entry(disk, g, ch, i)[0] == 0)
  }

  // It ends without one, at the end mark or at the end of the chain.
  ghost predicate Lacks(disk: seq<Sector>, g: Geo, ch: seq<nat>, name: seq<Byte>)
    requires Fits(g, disk) && InData(g, ch)
  {
    exists i: nat :: EndAt(disk, g, ch, name, i)
  }

  lemma NonePassed(disk: seq<Sector>, g: Geo, ch: seq<nat>, name: seq<Byte>)
    requires Fits(g, disk) && InData(g, ch)
    ensures Passed(disk, g, ch, name, 0 * PerCluster(g))
  {
  }

  lemma AllPassed(disk: seq<Sector>, g: Geo, ch: seq<nat>, name: seq<Byte>)
    requires Fits(g, disk) && InData(g, ch) && Passed(disk, g, ch, name, |ch| * PerCluster(g))
    ensures Lacks(disk, g, ch, name)
  {
    assert EndAt(disk, g, ch, name, Slots(g, ch));
  }

  lemma PassedOn(disk: seq<Sector>, g: Geo, ch: seq<nat>, name: seq<Byte>, k: nat, s: nat, t: Sector, n: nat)
    requires Fits(g, disk) && InData(g, ch) && k < |ch| && s < g.spc && n <= 16 && Passed(disk, g, ch, name, k * PerCluster(g) + s * 16)
    requires Lba(g, ch[k]) + s < |disk| && t == disk[Lba(g, ch[k]) + s] && forall j :: 0 <= j < n ==> Passes(t, j, name)
    ensures Passed(disk, g, ch, name, k * PerCluster(g) + s * 16 + n)
  {
    hide Fits, Lba, Entry, PerCluster, Matches;
    var b := k * PerCluster(g) + s * 16;
    forall j: nat | j < b + n && j < Slots(g, ch) ensures Entry(disk, g, ch, j)[0] != 0 && !Matches(Entry(disk, g, ch, j), name) {
      if j >= b {
        EntryIs(disk, g, ch, k, s, j - b);
        assert b + (j - b) == j && Passes(t, j - b, name);
      }
    }
  }

  // A name is found at one place or not at all.
  lemma FindsOnce(disk: seq<Sector>, g: Geo, ch: seq<nat>, name: seq<Byte>, l: Loc)
    requires Fits(g, disk) && InData(g, ch) && Finds(disk, g, ch, name, l)
    ensures !Lacks(disk, g, ch, name) && forall k :: Finds(disk, g, ch, name, k) ==> k == l
  {
    hide Fits, Entry, Place, Matches;
    var i: nat :| HitAt(disk, g, ch, name, l, i);
    forall k | Finds(disk, g, ch, name, k) ensures k == l {
      var j: nat :| HitAt(disk, g, ch, name, k, j);
      assert i == j;
    }
    forall j: nat ensures !EndAt(disk, g, ch, name, j) {
      assert j < i ==> Entry(disk, g, ch, j)[0] != 0;
    }
  }

  // ---------- Changed entries ----------

  // An entry elsewhere is as before, and so are the bytes of entry l outside lo to hi.
  lemma EntryKept(disk: seq<Sector>, d: seq<Sector>, g: Geo, hs: set<nat>, ch: seq<nat>, l: Loc, lo: nat, hi: nat, i: nat)
    requires Fits(g, disk) && Fits(g, d) && InData(g, ch) && (forall k :: 0 <= k < |ch| ==> ch[k] in hs) && i < Slots(g, ch)
    requires DirsKept(disk, d, g, hs, l, lo, hi) && LocOk(l) && hi <= DIRENT_SIZE
    ensures Place(g, ch, i) != l ==> Entry(d, g, ch, i) == Entry(disk, g, ch, i)
    ensures forall o: nat :: o < lo <= DIRENT_SIZE ==> Entry(d, g, ch, i)[o] == Entry(disk, g, ch, i)[o]
  {
    hide Fits, Entry, Place, Host, InCluster;
    EntryAt(disk, g, ch, i);
    EntryAt(d, g, ch, i);
    var k := Place(g, ch, i);
    assert Host(g, ch, i) in hs;
    if k != l && k.sector == l.sector {
      assert k.offset + DIRENT_SIZE <= l.offset || l.offset + DIRENT_SIZE <= k.offset;
    }
    forall o: nat | o < DIRENT_SIZE && (k != l || o < lo) ensures Entry(d, g, ch, i)[o] == Entry(disk, g, ch, i)[o] {
      assert d[k.sector][k.offset + o] == disk[k.sector][k.offset + o];
    }
  }

  // Entry l has been rewritten: every other name is found where it was, unless l now reads as the end or as that name.
  lemma FoundStill(disk: seq<Sector>, d: seq<Sector>, g: Geo, hs: set<nat>, ch: seq<nat>, l: Loc, name: seq<Byte>, k: Loc)
    requires Fits(g, disk) && Fits(g, d) && InData(g, ch) && (forall i :: 0 <= i < |ch| ==> ch[i] in hs)
    requires DirsKept(disk, d, g, hs, l, 0, DIRENT_SIZE) && LocOk(l) && l.sector < |d| && d[l.sector][l.offset] != 0
    requires !Matches(d[l.sector][l.offset..l.offset + DIRENT_SIZE], name) && Finds(disk, g, ch, name, k) && k != l
    ensures Finds(d, g, ch, name, k)
  {
    var i: nat :| HitAt(disk, g, ch, name, k, i);
    hide Fits, Entry, Place, Matches, DirsKept;
    EntryKept(disk, d, g, hs, ch, l, 0, DIRENT_SIZE, i);
    forall j: nat | j < i && j < Slots(g, ch) ensures Entry(d, g, ch, j)[0] != 0 && !Matches(Entry(d, g, ch, j), name) {
      EntryKept(disk, d, g, hs, ch, l, 0, DIRENT_SIZE, j);
      EntryAt(d, g, ch, j);
    }
    assert HitAt(d, g, ch, name, k, i);
  }

  // Cluster and length in an entry do not matter to the search.
  lemma FoundSame(disk: seq<Sector>, d: seq<Sector>, g: Geo, hs: set<nat>, ch: seq<nat>, l: Loc, name: seq<Byte>, k: Loc)
    requires Fits(g, disk) && Fits(g, d) && InData(g, ch) && (forall i :: 0 <= i < |ch| ==> ch[i] in hs)
    requires DirsKept(disk, d, g, hs, l, 20, DIRENT_SIZE) && LocOk(l) && Finds(disk, g, ch, name, k)
    ensures Finds(d, g, ch, name, k)
  {
    var i: nat :| HitAt(disk, g, ch, name, k, i);
    forall j: nat | j < Slots(g, ch)
      ensures Entry(d, g, ch, j)[0] == Entry(disk, g, ch, j)[0] && (Matches(Entry(d, g, ch, j), name) <==> Matches(Entry(disk, g, ch, j), name))
    {
      hide Fits, Entry, Place, DirsKept;
      EntryKept(disk, d, g, hs, ch, l, 20, DIRENT_SIZE, j);
      assert Entry(d, g, ch, j)[..11] == Entry(disk, g, ch, j)[..11];
    }
    hide Fits, Entry, Place, Matches, DirsKept;
    assert HitAt(d, g, ch, name, k, i);
  }

  // A name that was not there, written at the first free entry, is found there.
  lemma NewFound(disk: seq<Sector>, d: seq<Sector>, g: Geo, hs: set<nat>, ch: seq<nat>, l: Loc, name: seq<Byte>)
    requires Fits(g, disk) && Fits(g, d) && InData(g, ch) && (forall i :: 0 <= i < |ch| ==> ch[i] in hs)
    requires forall a, b :: 0 <= a < b < |ch| ==> ch[a] != ch[b]
    requires FirstFree(disk, g, ch, l) && Lacks(disk, g, ch, name) && DirsKept(disk, d, g, hs, l, 0, DIRENT_SIZE)
    requires LocOk(l) && l.sector < |d| && d[l.sector][l.offset..l.offset + 11] == name && |name| == 11 && !FreeMark(name[0])
    ensures Finds(d, g, ch, name, l)
  {
    var i: nat :| FreeAt(disk, g, ch, l, i);
    var n: nat :| EndAt(disk, g, ch, name, n);
    hide Fits, Entry, Place, Matches, DirsKept;
    EntryAt(d, g, ch, i);
    assert Entry(d, g, ch, i)[..11] == name && Entry(d, g, ch, i)[0] == name[0];
    assert n >= i;
    forall j: nat | j < i && j < Slots(g, ch) ensures Entry(d, g, ch, j)[0] != 0 && !Matches(Entry(d, g, ch, j), name) {
      if Place(g, ch, j) == l { PlacesApart(g, ch, i, j); }
      EntryKept(disk, d, g, hs, ch, l, 0, DIRENT_SIZE, j);
    }
    MatchesIs(Entry(d, g, ch, i), name);
    assert HitAt(d, g, ch, name, l, i);
  }

  lemma MatchesIs(e: seq<Byte>, name: seq<Byte>)
    requires |e| == DIRENT_SIZE && e[0] != DELETED && e[..11] == name
    ensures Matches(e, name)
  {
  }

  // A deleted entry is not found under any name.
  lemma DeletedNotFound(disk: seq<Sector>, g: Geo, ch: seq<nat>, name: seq<Byte>, l: Loc)
    requires Fits(g, disk) && InData(g, ch) && LocOk(l) && l.sector < |disk| && disk[l.sector][l.offset] == DELETED
    ensures !Finds(disk, g, ch, name, l)
  {
    forall i: nat ensures !HitAt(disk, g, ch, name, l, i) {
      hide Fits, Entry, Place;
      if i < Slots(g, ch) { EntryAt(disk, g, ch, i); }
    }
  }
}
