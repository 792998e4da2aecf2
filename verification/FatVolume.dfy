/**
 Cluster chains and what holds of a well-formed volume (src/fs/fat32.c, make_disk.py; Microsoft FAT32
 File System Specification, section "FAT Data Structure").
 */
module FatVolume {

  const EOC := 0x0FFF_FFF8  // an entry this large ends a chain

  // The clusters of one file, in order.
  ghost predicate IsChain(fat: seq<nat>, ch: seq<nat>) {
    && ch != []
    && (forall i :: 0 <= i < |ch| ==> 2 <= ch[i] < |fat|)
    && (forall i :: 0 <= i < |ch| - 1 ==> fat[ch[i]] == ch[i + 1])
    && fat[ch[|ch| - 1]] >= EOC
    && (forall i, j :: 0 <= i < j < |ch| ==> ch[i] != ch[j])
  }

  // A file or directory: its first cluster (0: none), its length in bytes and its chain.
  datatype File = File(first: nat, length: nat, chain: seq<nat>)

  ghost predicate FileOk(fat: seq<nat>, bpc: nat, f: File) {
    if f.chain == [] then f.first == 0 && f.length == 0
    else f.first == f.chain[0] && IsChain(fat, f.chain) && f.length <= |f.chain| * bpc
  }

  ghost predicate FilesOk(fat: seq<nat>, bpc: nat, files: map<nat, File>) {
    forall id :: id in files ==> FileOk(fat, bpc, files[id])
  }

  // `owner` says which file each cluster of a chain belongs to.
  ghost predicate Owned(n: nat, files: map<nat, File>, owner: map<nat, nat>) {
    && (forall id, i :: id in files && 0 <= i < |files[id].chain| ==>
          files[id].chain[i] in owner && owner[files[id].chain[i]] == id)
    && (forall c :: c in owner ==> 2 <= c < n && owner[c] in files && c in files[owner[c]].chain)
  }

  // The clusters in use are exactly those in chains.
  ghost predicate Accounted(fat: seq<nat>, owner: map<nat, nat>) {
    forall c :: 2 <= c < |fat| ==> (fat[c] != 0 <==> c in owner)
  }

  // The volume invariant: every chain is well formed, and `owner` divides the clusters in use among the
  // files, so that chains are disjoint and nothing is lost.
  ghost predicate VolumeOk(fat: seq<nat>, bpc: nat, files: map<nat, File>, owner: map<nat, nat>) {
    && 2 <= |fat| <= EOC && bpc > 0
    && FilesOk(fat, bpc, files) && Owned(|fat|, files, owner) && Accounted(fat, owner)
  }

  ghost function FreeClusters(fat: seq<nat>): set<nat> {
    set c: nat | 2 <= c < |fat| && fat[c] == 0
  }

  function Range(lo: nat, hi: nat): (s: set<nat>)
    requires lo <= hi
    ensures |s| == hi - lo && forall c :: c in s <==> lo <= c < hi
  {
    if lo == hi then {} else Range(lo, hi - 1) + {hi - 1}
  }

  // The lengths of all chains together.
  ghost function ChainTotal(files: map<nat, File>): nat {
    if files == map[] then 0 else var id :| id in files; |files[id].chain| + ChainTotal(files - {id})
  }

  // Free entries and the lengths of all chains always make up the whole data area.
  lemma ClustersConserved(fat: seq<nat>, bpc: nat, files: map<nat, File>, owner: map<nat, nat>)
    requires VolumeOk(fat, bpc, files, owner)
    ensures |FreeClusters(fat)| + ChainTotal(files) == |fat| - 2
  {
    assert Range(2, |fat|) == FreeClusters(fat) + owner.Keys;
    assert FreeClusters(fat) !! owner.Keys;
    assert forall id :: id in files ==> Distinct(files[id].chain);
    hide IsChain, FileOk, Accounted;
    TotalIsOwned(|fat|, files, owner);
  }

  ghost predicate Distinct(ch: seq<nat>) {
    forall i, j :: 0 <= i < j < |ch| ==> ch[i] != ch[j]
  }

  ghost function Members(ch: seq<nat>): set<nat> {
    set c | c in ch
  }

  lemma {:induction false} DistinctSize(ch: seq<nat>)
    requires Distinct(ch)
    ensures |Members(ch)| == |ch|
  {
    if ch != [] {
      var n := |ch| - 1;
      DistinctSize(ch[..n]);
      assert ch == ch[..n] + [ch[n]];
      assert Members(ch) == Members(ch[..n]) + {ch[n]};
      assert ch[n] !in ch[..n];
    }
  }

  lemma {:induction false} TotalIsOwned(n: nat, files: map<nat, File>, owner: map<nat, nat>)
    requires Owned(n, files, owner) && forall id :: id in files ==> Distinct(files[id].chain)
    ensures ChainTotal(files) == |owner.Keys|
    decreases |files|
  {
    hide Distinct, Owned;
    if files == map[] {
      OwnedNone(n, files, owner);
    } else {
      var id: nat :| id in files && ChainTotal(files) == |files[id].chain| + ChainTotal(files - {id});
      var rest := map c | c in owner && owner[c] != id :: owner[c];
      OwnedRest(n, files, owner, id, rest);
      DistinctSize(files[id].chain);
      TotalIsOwned(n, files - {id}, rest);
    }
  }

  lemma OwnedNone(n: nat, files: map<nat, File>, owner: map<nat, nat>)
    requires Owned(n, files, owner) && files == map[]
    ensures owner.Keys == {}
  {
  }

  lemma OwnedRest(n: nat, files: map<nat, File>, owner: map<nat, nat>, id: nat, rest: map<nat, nat>)
    requires Owned(n, files, owner) && id in files && rest == map c | c in owner && owner[c] != id :: owner[c]
    ensures Owned(n, files - {id}, rest) && |owner.Keys| == |rest.Keys| + |Members(files[id].chain)|
  {
    var mine := Members(files[id].chain);
    forall c ensures c in owner.Keys <==> c in rest.Keys + mine {
      if c in mine { var i :| 0 <= i < |files[id].chain| && files[id].chain[i] == c; }
    }
    assert owner.Keys == rest.Keys + mine;
    forall c | c in mine ensures c !in rest.Keys {
      var i :| 0 <= i < |files[id].chain| && files[id].chain[i] == c;
    }
  }

  // Two files have no cluster in common.
  lemma ChainsDisjoint(fat: seq<nat>, bpc: nat, files: map<nat, File>, owner: map<nat, nat>,
                       a: nat, b: nat, i: nat, j: nat)
    requires VolumeOk(fat, bpc, files, owner) && a in files && b in files && a != b
    requires i < |files[a].chain| && j < |files[b].chain|
    ensures files[a].chain[i] != files[b].chain[j]
  {
    assert owner[files[a].chain[i]] == a && owner[files[b].chain[j]] == b;
  }

  // A chain does not depend on entries outside it.
  lemma ChainKept(fat: seq<nat>, fat': seq<nat>, ch: seq<nat>)
    requires IsChain(fat, ch) && |fat'| == |fat|
    requires forall i :: 0 <= i < |ch| ==> fat'[ch[i]] == fat[ch[i]]
    ensures IsChain(fat', ch)
  {
  }

  // ---------- Growing ----------

  // Cluster c is taken and made the last of file f; end is the end-of-chain mark used.
  function Extended(fat: seq<nat>, f: File, c: nat, end: nat): seq<nat>
    requires c < |fat| && (f.chain != [] ==> f.chain[|f.chain| - 1] < |fat|)
  {
    if f.chain == [] then fat[c := end] else fat[f.chain[|f.chain| - 1] := c][c := end]
  }

  function Longer(f: File, c: nat): File {
    File(if f.chain == [] then c else f.first, f.length, f.chain + [c])
  }

  lemma ExtendChain(fat: seq<nat>, f: File, c: nat, end: nat)
    requires end >= EOC
    requires f.chain != [] ==> IsChain(fat, f.chain)
    requires 2 <= c < |fat| <= EOC && c !in f.chain
    ensures IsChain(Extended(fat, f, c, end), f.chain + [c])
  {
  }

  lemma ExtendSelf(fat: seq<nat>, bpc: nat, f: File, c: nat, end: nat)
    requires FileOk(fat, bpc, f) && 2 <= c < |fat| <= EOC && c !in f.chain && end >= EOC
    requires f.chain != [] ==> f.chain[|f.chain| - 1] < |fat|
    ensures FileOk(Extended(fat, f, c, end), bpc, Longer(f, c))
  {
    ExtendChain(fat, f, c, end);
    assert (|f.chain| + 1) * bpc == |f.chain| * bpc + bpc;
  }

  lemma ExtendFiles(fat: seq<nat>, bpc: nat, files: map<nat, File>, owner: map<nat, nat>, id: nat, c: nat, end: nat)
    requires end >= EOC
    requires VolumeOk(fat, bpc, files, owner) && id in files && 2 <= c < |fat| && fat[c] == 0
    requires files[id].chain != [] ==> files[id].chain[|files[id].chain| - 1] < |fat|
    ensures FilesOk(Extended(fat, files[id], c, end), bpc, files[id := Longer(files[id], c)])
  {
    NotInChain(fat, bpc, files, owner, id, c);
    hide FileOk, Owned, Accounted, Extended;
    ExtendSelf(fat, bpc, files[id], c, end);
    forall o | o in files && o != id ensures FileOk(Extended(fat, files[id], c, end), bpc, files[o]) {
      OtherKept(fat, bpc, files, owner, id, c, end, o);
    }
  }

  lemma NotInChain(fat: seq<nat>, bpc: nat, files: map<nat, File>, owner: map<nat, nat>, id: nat, c: nat)
    requires VolumeOk(fat, bpc, files, owner) && id in files && 2 <= c < |fat| && fat[c] == 0
    ensures c !in files[id].chain && c !in owner
  {
  }

  lemma ExtendOwned(n: nat, files: map<nat, File>, owner: map<nat, nat>, id: nat, c: nat)
    requires Owned(n, files, owner) && id in files && 2 <= c < n && c !in owner
    ensures Owned(n, files[id := Longer(files[id], c)], owner[c := id])
  {
    var files', owner' := files[id := Longer(files[id], c)], owner[c := id];
    var ch := files'[id].chain;
    assert ch[|ch| - 1] == c;
    forall d | d in owner' ensures d in files'[owner'[d]].chain {
      if d != c && owner[d] == id {
        var i :| 0 <= i < |files[id].chain| && files[id].chain[i] == d;
        assert ch[i] == d;
      }
    }
  }

  lemma ExtendOk(fat: seq<nat>, bpc: nat, files: map<nat, File>, owner: map<nat, nat>, id: nat, c: nat, end: nat)
    requires end >= EOC
    requires VolumeOk(fat, bpc, files, owner) && id in files && 2 <= c < |fat| && fat[c] == 0
    ensures files[id].chain != [] ==> files[id].chain[|files[id].chain| - 1] < |fat|
    ensures VolumeOk(Extended(fat, files[id], c, end), bpc, files[id := Longer(files[id], c)], owner[c := id])
  {
    var f := files[id];
    assert FileOk(fat, bpc, f);
    assert f.chain != [] ==> f.chain[|f.chain| - 1] in owner;
    ExtendFiles(fat, bpc, files, owner, id, c, end);
    ExtendOwned(|fat|, files, owner, id, c);
    hide FilesOk, Owned, FileOk;
  }

  lemma OtherKept(fat: seq<nat>, bpc: nat, files: map<nat, File>, owner: map<nat, nat>, id: nat, c: nat, end: nat, o: nat)
    requires VolumeOk(fat, bpc, files, owner) && id in files && o in files && o != id && c < |fat| && fat[c] == 0
    requires files[id].chain != [] ==> files[id].chain[|files[id].chain| - 1] < |fat|
    ensures FileOk(Extended(fat, files[id], c, end), bpc, files[o])
  {
    var f, g := files[id], files[o];
    assert FileOk(fat, bpc, g) && FileOk(fat, bpc, f);
    if g.chain != [] {
      forall i | 0 <= i < |g.chain| ensures Extended(fat, f, c, end)[g.chain[i]] == fat[g.chain[i]] {
        assert owner[g.chain[i]] == o;
        if f.chain != [] { ChainsDisjoint(fat, bpc, files, owner, id, o, |f.chain| - 1, i); }
      }
      ChainKept(fat, Extended(fat, f, c, end), g.chain);
    }
  }

  // Nothing outside ch has changed, and ch was free.
  ghost predicate Claims(fat: seq<nat>, fat': seq<nat>, ch: seq<nat>) {
    && |fat'| == |fat|
    && (forall i :: 0 <= i < |ch| ==> 2 <= ch[i] < |fat| && fat[ch[i]] == 0 && fat'[ch[i]] != 0)
    && (forall c :: 0 <= c < |fat| && c !in ch ==> fat'[c] == fat[c])
  }

  lemma ClaimKeeps(fat: seq<nat>, fat': seq<nat>, bpc: nat, files: map<nat, File>, owner: map<nat, nat>, ch: seq<nat>, o: nat)
    requires VolumeOk(fat, bpc, files, owner) && Claims(fat, fat', ch) && o in files
    ensures FileOk(fat', bpc, files[o])
  {
    assert FileOk(fat, bpc, files[o]);
    if files[o].chain != [] {
      forall i | 0 <= i < |files[o].chain| ensures fat'[files[o].chain[i]] == fat[files[o].chain[i]] {
        assert files[o].chain[i] in owner;
      }
      ChainKept(fat, fat', files[o].chain);
    }
  }

  lemma ClaimOwned(fat: seq<nat>, fat': seq<nat>, files: map<nat, File>, owner: map<nat, nat>, id: nat, ch: seq<nat>, length: nat)
    requires Owned(|fat|, files, owner) && Accounted(fat, owner) && Claims(fat, fat', ch) && id !in files && ch != []
    ensures Owned(|fat'|, files[id := File(ch[0], length, ch)], Given(owner, ch, id))
    ensures Accounted(fat', Given(owner, ch, id))
  {
    assert forall i :: 0 <= i < |ch| ==> ch[i] !in owner;
  }

  // A whole chain of free clusters, given to a new file at once.
  lemma AddChainOk(fat: seq<nat>, fat': seq<nat>, bpc: nat, files: map<nat, File>, owner: map<nat, nat>,
                   id: nat, ch: seq<nat>, length: nat)
    requires VolumeOk(fat, bpc, files, owner) && id !in files && IsChain(fat', ch) && Claims(fat, fat', ch)
    requires length <= |ch| * bpc
    ensures VolumeOk(fat', bpc, files[id := File(ch[0], length, ch)], Given(owner, ch, id))
  {
    ChainNotEmpty(fat', ch);
    hide FileOk, IsChain, Owned, Accounted;
    forall o | o in files ensures FileOk(fat', bpc, files[o]) {
      ClaimKeeps(fat, fat', bpc, files, owner, ch, o);
    }
    NewChainOk(fat', bpc, ch, length);
    ClaimOwned(fat, fat', files, owner, id, ch, length);
  }

  lemma ChainNotEmpty(fat: seq<nat>, ch: seq<nat>)
    requires IsChain(fat, ch)
    ensures ch != []
  {
  }

  lemma NewChainOk(fat: seq<nat>, bpc: nat, ch: seq<nat>, length: nat)
    requires IsChain(fat, ch) && length <= |ch| * bpc
    ensures FileOk(fat, bpc, File(ch[0], length, ch))
  {
  }

  ghost function Given(owner: map<nat, nat>, ch: seq<nat>, id: nat): map<nat, nat> {
    map c | c in owner.Keys + (set d | d in ch) :: if c in ch then id else owner[c]
  }

  // ---------- Shrinking ----------

  // The first n clusters of the chain have been freed.
  function Cleared(fat: seq<nat>, ch: seq<nat>, n: nat): (r: seq<nat>)
    requires n <= |ch| && forall i :: 0 <= i < |ch| ==> ch[i] < |fat|
    ensures |r| == |fat|
  {
    if n == 0 then fat else Cleared(fat, ch, n - 1)[ch[n - 1] := 0]
  }

  lemma ClearedAt(fat: seq<nat>, ch: seq<nat>, n: nat, c: nat)
    requires n <= |ch| && (forall i :: 0 <= i < |ch| ==> ch[i] < |fat|) && c < |fat|
    ensures Cleared(fat, ch, n)[c] == if c in ch[..n] then 0 else fat[c]
  {
    if n > 0 {
      ClearedAt(fat, ch, n - 1, c);
      assert ch[..n] == ch[..n - 1] + [ch[n - 1]];
    }
  }

  // The clusters of every file but one.
  ghost function OwnerWithout(owner: map<nat, nat>, id: nat): map<nat, nat> {
    map c | c in owner && owner[c] != id :: owner[c]
  }

  lemma OwnerIsChain(n: nat, files: map<nat, File>, owner: map<nat, nat>, id: nat, c: nat)
    requires Owned(n, files, owner) && id in files
    ensures c in owner && owner[c] == id <==> c in files[id].chain
  {
    if c in files[id].chain { var i :| 0 <= i < |files[id].chain| && files[id].chain[i] == c; }
  }

  lemma ClearFiles(fat: seq<nat>, bpc: nat, files: map<nat, File>, owner: map<nat, nat>, id: nat, o: nat)
    requires VolumeOk(fat, bpc, files, owner) && id in files && o in files && o != id
    requires forall i :: 0 <= i < |files[id].chain| ==> files[id].chain[i] < |fat|
    ensures FileOk(Cleared(fat, files[id].chain, |files[id].chain|), bpc, files[o])
  {
    var f, g := files[id], files[o];
    var fat' := Cleared(fat, f.chain, |f.chain|);
    assert FileOk(fat, bpc, g);
    if g.chain != [] {
      assert f.chain[..|f.chain|] == f.chain;
      forall i | 0 <= i < |g.chain| ensures fat'[g.chain[i]] == fat[g.chain[i]] {
        ClearedAt(fat, f.chain, |f.chain|, g.chain[i]);
        OwnerIsChain(|fat|, files, owner, id, g.chain[i]);
      }
      ChainKept(fat, fat', g.chain);
    }
  }

  lemma ClearAccounted(fat: seq<nat>, files: map<nat, File>, owner: map<nat, nat>, id: nat)
    requires Owned(|fat|, files, owner) && Accounted(fat, owner) && id in files
    requires forall i :: 0 <= i < |files[id].chain| ==> files[id].chain[i] < |fat|
    ensures Accounted(Cleared(fat, files[id].chain, |files[id].chain|), OwnerWithout(owner, id))
  {
    var f := files[id];
    var fat' := Cleared(fat, f.chain, |f.chain|);
    assert f.chain[..|f.chain|] == f.chain;
    forall c | 2 <= c < |fat'| ensures fat'[c] != 0 <==> c in OwnerWithout(owner, id) {
      ClearedAt(fat, f.chain, |f.chain|, c);
      OwnerIsChain(|fat|, files, owner, id, c);
    }
  }

  lemma ClearOwned(n: nat, files: map<nat, File>, owner: map<nat, nat>, id: nat)
    requires Owned(n, files, owner) && id in files
    ensures Owned(n, files[id := File(0, 0, [])], OwnerWithout(owner, id))
    ensures Owned(n, files - {id}, OwnerWithout(owner, id))
  {
  }

  // Freeing the whole chain of a file, whether the file stays (empty) or goes.
  lemma ClearOk(fat: seq<nat>, bpc: nat, files: map<nat, File>, owner: map<nat, nat>, id: nat)
    requires VolumeOk(fat, bpc, files, owner) && id in files
    ensures forall i :: 0 <= i < |files[id].chain| ==> files[id].chain[i] < |fat|
    ensures var fat' := Cleared(fat, files[id].chain, |files[id].chain|);
            && VolumeOk(fat', bpc, files[id := File(0, 0, [])], OwnerWithout(owner, id))
            && VolumeOk(fat', bpc, files - {id}, OwnerWithout(owner, id))
  {
    hide Owned, Accounted, Cleared, IsChain, OwnerWithout;
    ChainInFat(fat, bpc, files, owner, id);
    var fat' := Cleared(fat, files[id].chain, |files[id].chain|);
    ClearOwned(|fat|, files, owner, id);
    ClearAccounted(fat, files, owner, id);
    forall o | o in files && o != id ensures FileOk(fat', bpc, files[o]) {
      ClearFiles(fat, bpc, files, owner, id, o);
    }
  }

  lemma ChainInFat(fat: seq<nat>, bpc: nat, files: map<nat, File>, owner: map<nat, nat>, id: nat)
    requires VolumeOk(fat, bpc, files, owner) && id in files
    ensures forall i :: 0 <= i < |files[id].chain| ==> 2 <= files[id].chain[i] < |fat|
  {
  }
}
