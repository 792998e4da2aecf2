/**
 The bytes of a file, as its chain lays them out, and what reading and rewriting one cluster does to
 them.
 */
module FatFiles {
  import opened SectorCache
  import opened FatBytes
  import opened FatDisk

  ghost predicate InData(g: Geo, ch: seq<nat>) {
    forall i :: 0 <= i < |ch| ==> 2 <= ch[i] < g.count
  }

  lemma OneMore(k: nat, b: nat)
    ensures (k + 1) * b == k * b + b
  {
  }

  // Offset x of a file with n clusters lies in cluster x / b.
  lemma IndexBelow(b: nat, n: nat, x: nat)
    requires x < n * b
    ensures b > 0 && 0 <= x / b < n && x == x / b * b + x % b && 0 <= x % b < b
  {
    if x / b >= n { MulMono(n, x / b, b); }
  }

  lemma MoreClusters(k: nat, n: nat, b: nat, x: nat)
    requires (k + 1) * b <= x < n * b
    ensures k + 1 < n
  {
    if k + 1 >= n { MulMono(n, k + 1, b); }
  }

  lemma SliceOn<T>(s: seq<T>, at: nat, m: nat, n: nat)
    requires at + m + n <= |s|
    ensures s[at..at + m] + s[at + m..at + m + n] == s[at..at + m + n]
  {
  }

  // Everything the chain holds, beyond the length of the file too.
  ghost function Bytes(disk: seq<Sector>, g: Geo, ch: seq<nat>): (s: seq<Byte>)
    requires Fits(g, disk) && InData(g, ch)
    ensures |s| == |ch| * g.bpc
  {
    if ch == [] then []
    else
      OneMore(|ch| - 1, g.bpc);
      Cluster(disk, g, ch[0]) + Bytes(disk, g, ch[1..])
  }

  // A stretch inside one cluster.
  lemma {:induction false} BytesSlice(disk: seq<Sector>, g: Geo, ch: seq<nat>, k: nat, o: nat, n: nat)
    requires Fits(g, disk) && InData(g, ch) && k < |ch| && o + n <= g.bpc
    ensures k * g.bpc + o + n <= |ch| * g.bpc
    ensures Bytes(disk, g, ch)[k * g.bpc + o..k * g.bpc + o + n] == Cluster(disk, g, ch[k])[o..o + n]
    decreases k
  {
    hide Cluster, Fits;
    MulMono(k + 1, |ch|, g.bpc);
    OneMore(k, g.bpc);
    var first, rest := Cluster(disk, g, ch[0]), Bytes(disk, g, ch[1..]);
    assert Bytes(disk, g, ch) == first + rest;
    if k > 0 {
      OneMore(k - 1, g.bpc);
      BytesSlice(disk, g, ch[1..], k - 1, o, n);
      var at := (k - 1) * g.bpc + o;
      SliceRight(first, rest, at, n);
    } else {
      assert (first + rest)[o..o + n] == first[o..o + n];
    }
  }

  lemma SliceRight<T>(a: seq<T>, b: seq<T>, at: nat, n: nat)
    requires at + n <= |b|
    ensures (a + b)[|a| + at..|a| + at + n] == b[at..at + n]
  {
  }

  // s with p written over it at position `at`.
  function Splice<T>(s: seq<T>, at: nat, p: seq<T>): (r: seq<T>)
    requires at + |p| <= |s|
    ensures |r| == |s|
  {
    s[..at] + p + s[at + |p|..]
  }

  lemma SpliceAt<T>(s: seq<T>, at: nat, p: seq<T>, i: nat)
    requires at + |p| <= |s| && i < |s|
    ensures Splice(s, at, p)[i] == if at <= i < at + |p| then p[i - at] else s[i]
  {
  }

  lemma SpliceLeft<T>(a: seq<T>, b: seq<T>, at: nat, p: seq<T>)
    requires at + |p| <= |a|
    ensures Splice(a, at, p) + b == Splice(a + b, at, p)
  {
  }

  lemma SpliceRight<T>(a: seq<T>, b: seq<T>, at: nat, p: seq<T>)
    requires at + |p| <= |b|
    ensures a + Splice(b, at, p) == Splice(a + b, |a| + at, p)
  {
  }

  lemma SpliceNothing<T>(s: seq<T>, at: nat)
    requires at <= |s|
    ensures Splice(s, at, []) == s
  {
  }

  // Two neighbouring writes are one.
  lemma SpliceTwice<T>(s: seq<T>, at: nat, p: seq<T>, q: seq<T>)
    requires at + |p| + |q| <= |s|
    ensures Splice(Splice(s, at, p), at + |p|, q) == Splice(s, at, p + q)
  {
  }

  // A file whose clusters are untouched reads the same.
  lemma {:induction false} BytesSame(disk: seq<Sector>, disk': seq<Sector>, g: Geo, ch: seq<nat>)
    requires Fits(g, disk) && Fits(g, disk') && InData(g, ch)
    requires forall i :: 0 <= i < |ch| ==> Cluster(disk', g, ch[i]) == Cluster(disk, g, ch[i])
    ensures Bytes(disk', g, ch) == Bytes(disk, g, ch)
    decreases |ch|
  {
    hide Cluster, Fits;
    if ch != [] {
      var tl := ch[1..];
      assert forall i :: 0 <= i < |tl| ==> tl[i] == ch[i + 1];
      BytesSame(disk, disk', g, tl);
    }
  }

  // Rewriting part of one cluster rewrites that part of the file.
  lemma {:induction false} BytesSplice(disk: seq<Sector>, disk': seq<Sector>, g: Geo, ch: seq<nat>, k: nat, o: nat, p: seq<Byte>)
    requires Fits(g, disk) && Fits(g, disk') && InData(g, ch) && k < |ch| && o + |p| <= g.bpc
    requires forall i, j :: 0 <= i < j < |ch| ==> ch[i] != ch[j]
    requires Cluster(disk', g, ch[k]) == Splice(Cluster(disk, g, ch[k]), o, p)
    requires forall d :: 2 <= d < g.count && d != ch[k] ==> Cluster(disk', g, d) == Cluster(disk, g, d)
    ensures k * g.bpc + o + |p| <= |ch| * g.bpc
    ensures Bytes(disk', g, ch) == Splice(Bytes(disk, g, ch), k * g.bpc + o, p)
    decreases k
  {
    hide Cluster, Fits, Splice;
    MulMono(k + 1, |ch|, g.bpc);
    OneMore(k, g.bpc);
    var tl := ch[1..];
    var first, rest := Cluster(disk, g, ch[0]), Bytes(disk, g, tl);
    assert forall i :: 0 <= i < |tl| ==> tl[i] == ch[i + 1];
    if k == 0 {
      BytesSame(disk, disk', g, tl);
      SpliceLeft(first, rest, o, p);
    } else {
      OneMore(k - 1, g.bpc);
      BytesSplice(disk, disk', g, tl, k - 1, o, p);
      SpliceRight(first, rest, (k - 1) * g.bpc + o, p);
    }
  }

  // A longer chain starts with the bytes of the shorter one.
  lemma {:induction false} BytesAppend(disk: seq<Sector>, g: Geo, ch: seq<nat>, more: seq<nat>)
    requires Fits(g, disk) && InData(g, ch) && InData(g, more)
    ensures InData(g, ch + more)
    ensures Bytes(disk, g, ch + more) == Bytes(disk, g, ch) + Bytes(disk, g, more)
    decreases |ch|
  {
    hide Cluster, Fits;
    assert forall i :: 0 <= i < |ch + more| ==> (ch + more)[i] == if i < |ch| then ch[i] else more[i - |ch|];
    if ch == [] {
      assert ch + more == more;
    } else {
      assert (ch + more)[1..] == ch[1..] + more;
      BytesAppend(disk, g, ch[1..], more);
    }
  }
}
