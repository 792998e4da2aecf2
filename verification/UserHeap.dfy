/**
 malloc, free and realloc on the headers in memory (src/libc/libc.c).

 `hdr` holds the headers by address and `mem` the bytes; writing a header spoils the bytes it stands on, so that
 a block's contents survive only where no header is written.  The ghost `bs` is the list the headers spell out.
 */
module UserHeap {

  import opened BlockList
  import opened Sizes

  const MAGIC: int := 0x12345678

  datatype Header = Header(size: nat, next: nat, free: bool, magic: int)

  function AddrAt(bs: seq<Blk>, i: nat): nat {
    if i < |bs| then bs[i].addr else 0
  }

  ghost predicate ListedAt(hdr: map<nat, Header>, bs: seq<Blk>, i: nat)
    requires i < |bs|
  {
    var a := bs[i].addr;
    a in hdr && hdr[a] == Header(bs[i].size, AddrAt(bs, i + 1), bs[i].free, MAGIC)
  }

  // The headers from `base` on spell out bs.
  ghost predicate Listed(hdr: map<nat, Header>, base: nat, bs: seq<Blk>) {
    base == AddrAt(bs, 0) && forall i :: 0 <= i < |bs| ==> ListedAt(hdr, bs, i)
  }

  lemma AtPlace(hdr: map<nat, Header>, base: nat, bs: seq<Blk>, i: nat)
    requires Listed(hdr, base, bs) && i < |bs|
    ensures ListedAt(hdr, bs, i)
  {
  }

  // ---------- Bytes ----------

  type Bytes = nat -> int

  // A header written at a.
  function Stamped(mem: Bytes, a: nat): Bytes {
    (x: nat) => if a <= x < a + META then -1 else mem(x)
  }

  function Poked(mem: Bytes, a: nat, v: int): Bytes {
    (x: nat) => if x == a then v else mem(x)
  }

  predicate InPayload(b: Blk, x: nat) {
    b.addr + META <= x < End(b)
  }

  // The contents of the blocks are the same.
  ghost predicate Kept(was: Bytes, now: Bytes, used: set<Blk>) {
    forall b, x: nat :: b in used && InPayload(b, x) ==> now(x) == was(x)
  }

  // No payload lies where a header at a would stand.
  ghost predicate Clear(a: nat, used: set<Blk>) {
    forall b :: b in used ==> a <= b.addr || End(b) <= a
  }

  lemma StampKeeps(was: Bytes, mem: Bytes, a: nat, used: set<Blk>)
    requires Kept(was, mem, used) && Clear(a, used)
    ensures Kept(was, Stamped(mem, a), used)
  {
  }

  lemma ClearAt(bs: seq<Blk>, lo: nat, hi: nat, i: nat, a: nat)
    requires Tiled(bs, lo, hi) && i < |bs| && (a == bs[i].addr || (bs[i].free && bs[i].addr <= a <= End(bs[i])))
    ensures Clear(a, Used(bs))
  {
    hide Tiled;
    forall b | b in Used(bs) ensures a <= b.addr || End(b) <= a {
      var j :| 0 <= j < |bs| && bs[j] == b;
      if j < i { TiledApart(bs, lo, hi, j, i); }
      if i < j { TiledApart(bs, lo, hi, i, j); }
    }
  }

  lemma ClearEnd(bs: seq<Blk>, lo: nat, hi: nat)
    requires Tiled(bs, lo, hi)
    ensures Clear(hi, Used(bs))
  {
    hide Tiled;
    forall b | b in Used(bs) ensures End(b) <= hi {
      var j :| 0 <= j < |bs| && bs[j] == b;
      TiledAt(bs, lo, hi, j);
    }
  }

  // Different used blocks have disjoint payloads.
  lemma PayloadsDisjoint(bs: seq<Blk>, lo: nat, hi: nat, b: Blk, c: Blk)
    requires Tiled(bs, lo, hi) && b in Used(bs) && c in Used(bs) && b != c
    ensures End(b) <= c.addr || End(c) <= b.addr
  {
    var i :| 0 <= i < |bs| && bs[i] == b;
    var j :| 0 <= j < |bs| && bs[j] == c;
    if i < j { TiledApart(bs, lo, hi, i, j); } else { TiledApart(bs, lo, hi, j, i); }
  }

  // ---------- The list operations, as seen in the headers ----------

  lemma Apart(bs: seq<Blk>, lo: nat, hi: nat)
    requires Tiled(bs, lo, hi) && lo > 0
    ensures forall i, j :: 0 <= i < j < |bs| ==> bs[i].addr < bs[j].addr
    ensures forall i :: 0 <= i < |bs| ==> 0 < bs[i].addr < hi
  {
    forall i | 0 <= i < |bs| ensures 0 < bs[i].addr < hi { TiledAt(bs, lo, hi, i); }
    forall i, j | 0 <= i < j < |bs| ensures bs[i].addr < bs[j].addr { TiledApart(bs, lo, hi, i, j); }
  }

  // One block changed where it stands.
  lemma SetListed(hdr: map<nat, Header>, base: nat, bs: seq<Blk>, i: nat, b: Blk, lo: nat, hi: nat)
    requires Listed(hdr, base, bs) && Tiled(bs, lo, hi) && lo > 0 && i < |bs| && b.addr == bs[i].addr
    ensures Listed(hdr[b.addr := Header(b.size, AddrAt(bs, i + 1), b.free, MAGIC)], base, bs[i := b])
  {
    var to, cs := hdr[b.addr := Header(b.size, AddrAt(bs, i + 1), b.free, MAGIC)], bs[i := b];
    Apart(bs, lo, hi);
    forall j | 0 <= j < |cs| ensures ListedAt(to, cs, j) { AtPlace(hdr, base, bs, j); }
  }

  // One block put in two.
  lemma SplitListed(hdr: map<nat, Header>, base: nat, bs: seq<Blk>, i: nat, n: nat, lo: nat, hi: nat)
    requires Listed(hdr, base, bs) && Tiled(bs, lo, hi) && lo > 0 && i < |bs| && bs[i].size >= n + META + 16
    ensures var a := bs[i].addr + META + n;
            var to := hdr[a := Header(bs[i].size - n - META, AddrAt(bs, i + 1), true, MAGIC)];
            Listed(to[bs[i].addr := Header(n, a, false, MAGIC)], base, Taken(bs, i, n))
  {
    hide Tiled;
    var a, cs := bs[i].addr + META + n, Taken(bs, i, n);
    var to := hdr[a := Header(bs[i].size - n - META, AddrAt(bs, i + 1), true, MAGIC)][bs[i].addr := Header(n, a, false, MAGIC)];
    Apart(bs, lo, hi);
    assert forall j :: 0 <= j < |cs| ==> cs[j] == if j < i then bs[j] else if j <= i + 1 then Parts(bs[i], n)[j - i] else bs[j - 1];
    forall j | 0 <= j < |cs| ensures ListedAt(to, cs, j) {
      if j < i {
        AtPlace(hdr, base, bs, j);
      } else if j > i + 1 {
        AtPlace(hdr, base, bs, j - 1);
        TiledApart(bs, lo, hi, i, j - 1);
      }
    }
  }

  // Two blocks put in one.
  function Fused(bs: seq<Blk>, i: nat): seq<Blk>
    requires i + 1 < |bs|
  {
    bs[..i] + [Merged(bs[i], bs[i + 1])] + bs[i + 2..]
  }

  lemma FuseListed(hdr: map<nat, Header>, base: nat, bs: seq<Blk>, i: nat, lo: nat, hi: nat)
    requires Listed(hdr, base, bs) && Tiled(bs, lo, hi) && lo > 0 && i + 1 < |bs|
    ensures Listed(hdr[bs[i].addr := Header(bs[i].size + META + bs[i + 1].size, AddrAt(bs, i + 2), bs[i].free, MAGIC)], base, Fused(bs, i))
  {
    hide Tiled;
    var to := hdr[bs[i].addr := Header(bs[i].size + META + bs[i + 1].size, AddrAt(bs, i + 2), bs[i].free, MAGIC)];
    var cs := Fused(bs, i);
    Apart(bs, lo, hi);
    assert forall j :: 0 <= j < |cs| ==> cs[j] == if j < i then bs[j] else if j == i then Merged(bs[i], bs[i + 1]) else bs[j + 1];
    forall j | 0 <= j < |cs| ensures ListedAt(to, cs, j) { AtPlace(hdr, base, bs, if j <= i then j else j + 1); }
  }

  lemma FuseTiles(bs: seq<Blk>, i: nat, lo: nat, hi: nat)
    requires Tiled(bs, lo, hi) && i + 1 < |bs|
    ensures Tiled(Fused(bs, i), lo, hi)
  {
    var m := [Merged(bs[i], bs[i + 1])];
    TiledNext(bs, lo, hi, i);
    assert m[1..] == [];
    TiledReplace(bs, lo, hi, i, 2, m);
  }

  // One block more at the break.
  lemma AppendListed(hdr: map<nat, Header>, base: nat, bs: seq<Blk>, n: nat, lo: nat, hi: nat)
    requires Listed(hdr, base, bs) && Tiled(bs, lo, hi) && lo > 0
    ensures var to := hdr[hi := Header(n, 0, false, MAGIC)];
            var cs := bs + [Blk(hi, n, false)];
            if bs == [] then Listed(to, hi, cs)
            else var l := bs[|bs| - 1]; Listed(to[l.addr := Header(l.size, hi, l.free, MAGIC)], base, cs)
  {
    hide Tiled;
    var cs := bs + [Blk(hi, n, false)];
    Apart(bs, lo, hi);
    var to := if bs == [] then hdr[hi := Header(n, 0, false, MAGIC)]
              else var l := bs[|bs| - 1]; hdr[hi := Header(n, 0, false, MAGIC)][l.addr := Header(l.size, hi, l.free, MAGIC)];
    forall j | 0 <= j < |cs| ensures ListedAt(to, cs, j) { if j < |bs| { AtPlace(hdr, base, bs, j); } }
  }

  lemma AppendTiles(bs: seq<Blk>, n: nat, lo: nat, hi: nat)
    requires Tiled(bs, lo, hi)
    ensures Tiled(bs + [Blk(hi, n, false)], lo, hi + META + n)
    ensures Used(bs + [Blk(hi, n, false)]) == Used(bs) + {Blk(hi, n, false)}
    ensures NoTwoFree(bs) ==> NoTwoFree(bs + [Blk(hi, n, false)])
  {
    var m := [Blk(hi, n, false)];
    assert m[1..] == [];
    TiledConcat(bs, m, lo, hi, hi + META + n);
    UsedConcat(bs, m);
    assert Used(m) == {Blk(hi, n, false)};
  }

  class Heap {
    var hdr: map<nat, Header>
    var base: nat
    var brk: nat
    var mem: Bytes
    const start: nat
    ghost var bs: seq<Blk>

    ghost predicate Shaped()
      reads this
    {
      start > 0 && Listed(hdr, base, bs) && Tiled(bs, start, brk)
    }

    ghost predicate Valid()
      reads this
    {
      Shaped() && NoTwoFree(bs)
    }

    constructor (start: nat)
      requires start > 0
      ensures Valid() && bs == [] && brk == start
    {
      this.start, brk, base := start, start, 0;
      hdr := map[];
      mem := (x: nat) => 0;
      bs := [];
      new;
    }

    // A header is written.
    method Write(a: nat, h: Header)
      modifies this`hdr, this`mem
      ensures hdr == old(hdr)[a := h] && mem == Stamped(old(mem), a)
      ensures forall x: nat :: mem(x) == if a <= x < a + META then -1 else old(mem)(x)
    {
      hdr := hdr[a := h];
      mem := Stamped(mem, a);
    }

    // find_free_blk; `last` is the block before the end of the search.
    method FindFreeBlk(n: nat) returns (a: nat, last: nat)
      requires Shaped()
      ensures var i := FirstFree(bs, n); a == AddrAt(bs, i) && (a == 0 <==> i == |bs|)
      ensures bs != [] && a == 0 ==> last == bs[|bs| - 1].addr
    {
      hide Tiled, Listed, FirstFree;
      Apart(bs, start, brk);
      BaseIs(hdr, base, bs);
      last := base;
      a := base;
      ghost var i := 0;
      if bs != [] { AtPlace(hdr, base, bs, 0); }
      while a != 0 && !(hdr[a].free && hdr[a].size >= n)
        invariant i <= |bs| && a == AddrAt(bs, i) && (i > 0 ==> last == bs[i - 1].addr)
        invariant i < |bs| ==> ListedAt(hdr, bs, i)
        invariant forall j :: 0 <= j < i ==> !(bs[j].free && bs[j].size >= n)
        decreases |bs| - i
      {
        last := a;
        a := hdr[a].next;
        i := i + 1;
        if i < |bs| { AtPlace(hdr, base, bs, i); }
      }
      FirstFreeIs(bs, n, i);
    }

    // request_space, when the kernel moves the break.
    method RequestSpace(last: nat, n: nat) returns (a: nat)
      requires Valid() && (if bs == [] then last == 0 else last == bs[|bs| - 1].addr)
      modifies this
      ensures Valid() && a == old(brk) && bs == old(bs) + [Blk(a, n, false)]
      ensures Used(bs) == Used(old(bs)) + {Blk(a, n, false)} && Kept(old(mem), mem, Used(old(bs)))
    {
      hide Tiled, Listed, NoTwoFree, Clear, Kept, Used;
      a := brk;
      AppendListed(hdr, base, bs, n, start, brk);
      AppendTiles(bs, n, start, brk);
      ClearEnd(bs, start, brk);
      Unchanged(mem, Used(bs));
      StampKeeps(mem, mem, a, Used(bs));
      brk := brk + META + n;
      Write(a, Header(n, 0, false, MAGIC));
      if last != 0 {
        ghost var i := |bs| - 1;
        AtPlace(old(hdr), base, bs, i);
        Apart(bs, start, old(brk));
        ClearAt(bs, start, old(brk), i, last);
        StampKeeps(old(mem), mem, last, Used(bs));
        Write(last, hdr[last].(next := a));
      } else {
        ListEmpty(bs, start, old(brk));
        base := a;
      }
      bs := bs + [Blk(a, n, false)];
    }

    // The block found is split or taken whole.
    method TakeBlock(a: nat, n: nat, ghost i: nat)
      requires Valid() && i < |bs| && bs[i].free && bs[i].size >= n && a == bs[i].addr
      modifies this`hdr, this`mem, this`bs
      ensures Valid() && bs == Taken(old(bs), i, n)
      ensures Kept(old(mem), mem, Used(old(bs)))
    {
      hide Tiled, Listed, NoTwoFree, Clear, Kept, Used;
      AtPlace(hdr, base, bs, i);
      TakenTiles(bs, i, n, start, brk);
      TakenNoTwo(bs, i, n);
      Unchanged(mem, Used(bs));
      ClearAt(bs, start, brk, i, a);
      if hdr[a].size >= n + META + 16 {
        SplitListed(hdr, base, bs, i, n, start, brk);
        var rest := a + META + n;
        ClearAt(bs, start, brk, i, rest);
        StampKeeps(mem, mem, rest, Used(bs));
        Write(rest, Header(hdr[a].size - n - META, hdr[a].next, true, MAGIC));
        StampKeeps(old(mem), mem, a, Used(bs));
        Write(a, Header(n, rest, false, MAGIC));
      } else {
        SetListed(hdr, base, bs, i, Blk(a, bs[i].size, false), start, brk);
        StampKeeps(mem, mem, a, Used(bs));
        Write(a, hdr[a].(free := false, magic := MAGIC));
        assert Taken(bs, i, n) == bs[i := Blk(a, bs[i].size, false)];
      }
      bs := Taken(bs, i, n);
    }

    // malloc; `granted` says that the kernel would move the break.
    method Malloc(want: nat, granted: bool) returns (ptr: nat, ghost b: Blk)
      requires Valid()
      modifies this
      ensures Valid()
      ensures ptr == 0 <==> want == 0 || (!granted && FirstFree(old(bs), Rounded(want)) == |old(bs)|)
      ensures ptr == 0 ==> bs == old(bs) && mem == old(mem)
      ensures ptr != 0 ==> Given(old(bs), bs, b, Rounded(want)) && ptr == b.addr + META && Kept(old(mem), mem, Used(old(bs)))
    {
      hide Tiled, Listed, NoTwoFree, Kept, Used, FirstFree, Rounded;
      b := Blk(0, 0, false);
      if want == 0 { return 0, b; }
      var n := Rounded(want);
      BaseIs(hdr, base, bs);
      ListEmpty(bs, start, brk);
      FitBound(bs, n);
      Apart(bs, start, brk);
      var a, last := 0, 0;
      if base != 0 { a, last := FindFreeBlk(n); }
      if a == 0 {
        if !granted { return 0, b; }
        NewGiven(bs, start, brk, n);
        a := RequestSpace(last, n);
        b := Blk(a, n, false);
      } else {
        ghost var i := FirstFree(bs, n);
        TakenGiven(bs, i, n, start, brk);
        TakeBlock(a, n, i);
        b := Parts(old(bs)[i], n)[0];
      }
      return a + META, b;
    }

    // The pass of free over the list.
    method Coalesce(ghost cs: seq<Blk>)
      requires start > 0 && Listed(hdr, base, cs) && Tiled(cs, start, brk)
      modifies this`hdr, this`mem
      ensures Listed(hdr, base, Coalesced(cs)) && Kept(old(mem), mem, Used(cs))
    {
      hide Tiled, Listed, Kept, Used, Coalesced;
      ghost var g, i := cs, 0;
      BaseIs(hdr, base, g);
      Unchanged(mem, Used(cs));
      assert g[..0] == [] && g[0..] == g;
      var a := base;
      while a != 0
        invariant i <= |g| && a == AddrAt(g, i) && Listed(hdr, base, g) && Tiled(g, start, brk)
        invariant g[..i] + Coalesced(g[i..]) == Coalesced(cs) && Used(g) == Used(cs)
        invariant Kept(old(mem), mem, Used(cs))
        decreases |g| - i
      {
        AtPlace(hdr, base, g, i);
        Apart(g, start, brk);
        var nx := hdr[a].next;
        if i + 1 < |g| { AtPlace(hdr, base, g, i + 1); }
        if hdr[a].free && nx != 0 && hdr[nx].free {
          FuseListed(hdr, base, g, i, start, brk);
          FuseTiles(g, i, start, brk);
          FuseUsed(g, i);
          FuseOn(g, i, cs);
          ClearAt(g, start, brk, i, a);
          StampKeeps(old(mem), mem, a, Used(cs));
          Write(a, hdr[a].(size := hdr[a].size + META + hdr[nx].size, next := hdr[nx].next));
          g := Fused(g, i);
        } else {
          StepOn(g, i, cs);
          a := hdr[a].next;
          i := i + 1;
        }
      }
      Finished(g, i, start, brk, cs);
    }

    // free.  A pointer whose header lacks the mark is refused; one that has it is a block of the list.
    method Free(ptr: nat, ghost i: nat)
      requires Valid()
      requires ptr >= META && ptr - META in hdr && hdr[ptr - META].magic == MAGIC ==> i < |bs| && bs[i].addr == ptr - META
      modifies this`hdr, this`mem, this`bs
      ensures Valid()
      ensures if ptr >= META && ptr - META in old(hdr) && old(hdr)[ptr - META].magic == MAGIC
              then bs == Coalesced(Freed(old(bs), i)) && Used(bs) == Used(old(bs)) - {old(bs)[i]} && Kept(old(mem), mem, Used(bs))
              else bs == old(bs) && mem == old(mem)
    {
      hide Tiled, Listed, NoTwoFree, Kept, Used, Coalesced, Clear;
      if ptr < META { return; }
      var a := ptr - META;
      if a !in hdr || hdr[a].magic != MAGIC { return; }
      AtPlace(hdr, base, bs, i);
      SetListed(hdr, base, bs, i, bs[i].(free := true), start, brk);
      FreedTiles(bs, i, start, brk);
      FreedUsed(bs, i, start, brk);
      ghost var cs := Freed(bs, i);
      Unchanged(mem, Used(cs));
      ClearAt(cs, start, brk, i, a);
      StampKeeps(mem, mem, a, Used(cs));
      Write(a, hdr[a].(free := true));
      ghost var mid := mem;
      Coalesce(cs);
      KeptOn(old(mem), mid, mem, Used(cs));
      CoalescedTiles(cs, start, brk);
      CoalescedNoTwo(cs);
      CoalescedUsed(cs);
      bs := Coalesced(cs);
    }

    // memcpy between ranges that do not overlap.
    method Copy(dst: nat, src: nat, n: nat)
      requires dst + n <= src || src + n <= dst
      modifies this`mem
      ensures Copied(old(mem), mem, dst, src, n)
    {
      var k := 0;
      while k < n
        invariant k <= n && Copied(old(mem), mem, dst, src, k)
      {
        CopyOn(old(mem), mem, dst, src, k, n);
        mem := Poked(mem, dst + k, mem(src + k));
        k := k + 1;
      }
    }

    // realloc of the used block at place i, or of nothing.
    method Realloc(ptr: nat, want: nat, granted: bool, ghost i: nat) returns (r: nat, ghost b: Blk)
      requires Valid()
      requires ptr != 0 ==> i < |bs| && !bs[i].free && ptr == bs[i].addr + META && want + 15 < SIZE_MAX
      modifies this
      ensures Valid()
      ensures ptr != 0 && want == 0 ==> r == 0 && Used(bs) == Used(old(bs)) - {old(bs)[i]}
      ensures r == 0 && want != 0 ==> bs == old(bs) && mem == old(mem)
      ensures r == 0 && want != 0 ==> !granted && FirstFree(old(bs), Rounded(want)) == |old(bs)| && (ptr != 0 ==> old(bs)[i].size < want)
      ensures ptr != 0 && want != 0 ==> (r == ptr <==> old(bs)[i].size >= want)
      ensures r != 0 ==> r == b.addr + META && b in Used(bs)
      ensures r != 0 && ptr != 0 ==>
                && b.size >= want
                && (r != ptr ==> Used(bs) == Used(old(bs)) + {b} - {old(bs)[i]})
                && (r == ptr ==> bs == old(bs) && b == bs[i])
                && Carried(old(mem), mem, old(bs)[i], b)
                && Kept(old(mem), mem, Used(old(bs)) - {old(bs)[i]})
    {
      hide Tiled, Listed, NoTwoFree, Kept, Used, Coalesced, Clear, FirstFree, Rounded, Carried, Freed;
      b := Blk(0, 0, false);
      if ptr == 0 {
        r, b := Malloc(want, granted);
        if r != 0 { GivenFacts(old(bs), bs, b, Rounded(want)); }
        return;
      }
      AtPlace(hdr, base, bs, i);
      UsedAt(bs, i);
      ghost var was := bs[i];
      if want == 0 {
        Free(ptr, i);
        return 0, b;
      }
      var size := hdr[ptr - META].size;
      if size >= want {
        Same(mem, was, Used(bs) - {was});
        return ptr, was;
      }
      ghost var m0, used := mem, Used(bs);
      r, b := Malloc(want, granted);
      if r == 0 { return; }
      ghost var m1 := mem;
      GivenFacts(old(bs), bs, b, Rounded(want));
      PayloadsDisjoint(bs, start, brk, b, was);
      ghost var j := FindBlock(bs, was);
      AtPlace(hdr, base, bs, j);
      RoundedEnough(want);
      KeptSome(m0, m1, used, used - {was});
      Move(r, ptr, size, m0, used, was, b, j);
    }

    // The contents go over to the new block, and the old one is freed.
    method Move(dst: nat, src: nat, size: nat, ghost m0: Bytes, ghost used: set<Blk>, ghost was: Blk, ghost b: Blk, ghost j: nat)
      requires Valid() && j < |bs| && bs[j] == was && !was.free && Used(bs) == used + {b} && b !in used && was in used && was.addr in hdr
      requires src == was.addr + META && dst == b.addr + META && size == was.size <= b.size && hdr[was.addr].magic == MAGIC
      requires Kept(m0, mem, used) && Kept(m0, mem, used - {was}) && (End(b) <= was.addr || End(was) <= b.addr)
      modifies this`hdr, this`mem, this`bs
      ensures Valid() && Used(bs) == used + {b} - {was}
      ensures Carried(m0, mem, was, b) && Kept(m0, mem, used - {was})
    {
      hide Tiled, Listed, NoTwoFree, Kept, Used, Coalesced, Clear, Carried, Freed, Copied;
      AtPlace(hdr, base, bs, j);
      ghost var m1 := mem;
      Copy(dst, src, size);
      ghost var m2 := mem;
      CopyCarries(m0, m1, m2, was, b, used);
      CopyKeeps(m0, m1, m2, was, b, bs, start, brk, used - {was});
      Free(src, j);
      StillCarried(m0, m2, mem, was, b, Used(bs));
      KeptSome(m2, mem, Used(bs), used - {was});
      KeptOn(m0, m2, mem, used - {was});
    }
  }

  ghost predicate Copied(was: Bytes, now: Bytes, dst: nat, src: nat, n: nat) {
    && (forall x: nat :: !(dst <= x < dst + n) ==> now(x) == was(x))
    && (forall x: nat :: dst <= x < dst + n ==> now(x) == was(src + (x - dst)))
  }

  lemma CopyOn(was: Bytes, now: Bytes, dst: nat, src: nat, k: nat, n: nat)
    requires Copied(was, now, dst, src, k) && k < n && (dst + n <= src || src + n <= dst)
    ensures Copied(was, Poked(now, dst + k, now(src + k)), dst, src, k + 1)
  {
    var to := Poked(now, dst + k, now(src + k));
    assert now(src + k) == was(src + k);
    assert forall x: nat :: to(x) == if x == dst + k then now(src + k) else now(x);
  }

  lemma CopyCarries(m0: Bytes, m1: Bytes, m2: Bytes, was: Blk, b: Blk, used: set<Blk>)
    requires Kept(m0, m1, used) && was in used && Copied(m1, m2, b.addr + META, was.addr + META, was.size)
    ensures Carried(m0, m2, was, b)
  {
    forall x: nat | InPayload(b, x) && x - b.addr < META + was.size ensures m2(x) == m0(was.addr + (x - b.addr)) {
      assert InPayload(was, was.addr + (x - b.addr));
    }
  }

  lemma CopyKeeps(m0: Bytes, m1: Bytes, m2: Bytes, was: Blk, b: Blk, bs: seq<Blk>, lo: nat, hi: nat, others: set<Blk>)
    requires Kept(m0, m1, others) && Copied(m1, m2, b.addr + META, was.addr + META, was.size) && was.size <= b.size
    requires Tiled(bs, lo, hi) && b in Used(bs) && forall c :: c in others ==> c in Used(bs) && c != b
    ensures Kept(m0, m2, others)
  {
    hide Tiled;
    forall c, x: nat | c in others && InPayload(c, x) ensures m2(x) == m0(x) {
      PayloadsDisjoint(bs, lo, hi, b, c);
    }
  }

  lemma StillCarried(m0: Bytes, m2: Bytes, m3: Bytes, was: Blk, b: Blk, used: set<Blk>)
    requires Carried(m0, m2, was, b) && Kept(m2, m3, used) && b in used
    ensures Carried(m0, m3, was, b)
  {
    forall x: nat | InPayload(b, x) && x - b.addr < META + was.size ensures m3(x) == m0(was.addr + (x - b.addr)) {
      assert m3(x) == m2(x);
    }
  }

  lemma KeptSome(was: Bytes, now: Bytes, used: set<Blk>, some: set<Blk>)
    requires Kept(was, now, used) && some <= used
    ensures Kept(was, now, some)
  {
  }

  // A new used block of at least n bytes, beside the used blocks there were.
  ghost predicate Given(bs: seq<Blk>, cs: seq<Blk>, b: Blk, n: nat) {
    !b.free && b.size >= n && b !in Used(bs) && Used(cs) == Used(bs) + {b}
  }

  // The new block holds the old one's contents, as far as both reach.
  ghost predicate Carried(was: Bytes, now: Bytes, a: Blk, b: Blk) {
    forall x: nat :: InPayload(b, x) && x - b.addr < META + a.size ==> now(x) == was(a.addr + (x - b.addr))
  }

  lemma Unchanged(mem: Bytes, used: set<Blk>)
    ensures Kept(mem, mem, used)
  {
  }

  lemma BaseIs(hdr: map<nat, Header>, base: nat, bs: seq<Blk>)
    requires Listed(hdr, base, bs)
    ensures base == AddrAt(bs, 0)
  {
  }

  lemma ListEmpty(bs: seq<Blk>, lo: nat, hi: nat)
    requires Tiled(bs, lo, hi) && lo > 0
    ensures bs == [] || bs[|bs| - 1].addr > 0
  {
    if bs != [] { Apart(bs, lo, hi); }
  }

  lemma FitBound(bs: seq<Blk>, n: nat)
    ensures FirstFree(bs, n) <= |bs|
    ensures FirstFree(bs, n) < |bs| ==> bs[FirstFree(bs, n)].free && bs[FirstFree(bs, n)].size >= n
  {
  }

  lemma NewGiven(bs: seq<Blk>, lo: nat, hi: nat, n: nat)
    requires Tiled(bs, lo, hi)
    ensures Blk(hi, n, false) !in Used(bs)
  {
    if Blk(hi, n, false) in bs {
      var i :| 0 <= i < |bs| && bs[i] == Blk(hi, n, false);
      TiledAt(bs, lo, hi, i);
    }
  }

  lemma TakenGiven(bs: seq<Blk>, i: nat, n: nat, lo: nat, hi: nat)
    requires Tiled(bs, lo, hi) && i < |bs| && bs[i].free && bs[i].size >= n
    ensures Given(bs, Taken(bs, i, n), Parts(bs[i], n)[0], n)
  {
    TakenUsed(bs, i, n);
    var b := Parts(bs[i], n)[0];
    if b in Used(bs) {
      var j :| 0 <= j < |bs| && bs[j] == b;
      if i < j { TiledApart(bs, lo, hi, i, j); } else { TiledApart(bs, lo, hi, j, i); }
    }
  }

  lemma FuseUsed(bs: seq<Blk>, i: nat)
    requires i + 1 < |bs| && bs[i].free && bs[i + 1].free
    ensures Used(Fused(bs, i)) == Used(bs)
  {
    var m := Merged(bs[i], bs[i + 1]);
    assert bs == bs[..i] + ([bs[i]] + ([bs[i + 1]] + bs[i + 2..]));
    assert Fused(bs, i) == bs[..i] + ([m] + bs[i + 2..]);
    UsedConcat(bs[..i], [bs[i]] + ([bs[i + 1]] + bs[i + 2..]));
    UsedCons(bs[i], [bs[i + 1]] + bs[i + 2..]);
    UsedCons(bs[i + 1], bs[i + 2..]);
    UsedConcat(bs[..i], [m] + bs[i + 2..]);
    UsedCons(m, bs[i + 2..]);
  }

  lemma FuseOn(bs: seq<Blk>, i: nat, cs: seq<Blk>)
    requires i + 1 < |bs| && bs[i].free && bs[i + 1].free && bs[..i] + Coalesced(bs[i..]) == Coalesced(cs)
    ensures Fused(bs, i)[..i] + Coalesced(Fused(bs, i)[i..]) == Coalesced(cs)
  {
    assert bs[i..][2..] == bs[i + 2..];
    assert Fused(bs, i)[..i] == bs[..i];
    assert Fused(bs, i)[i..] == [Merged(bs[i], bs[i + 1])] + bs[i + 2..];
  }

  lemma StepOn(bs: seq<Blk>, i: nat, cs: seq<Blk>)
    requires i < |bs| && (i + 1 < |bs| ==> !(bs[i].free && bs[i + 1].free)) && bs[..i] + Coalesced(bs[i..]) == Coalesced(cs)
    ensures bs[..i + 1] + Coalesced(bs[i + 1..]) == Coalesced(cs)
  {
    assert bs[i..][1..] == bs[i + 1..];
    assert Coalesced(bs[i..]) == [bs[i]] + Coalesced(bs[i + 1..]);
    assert bs[..i + 1] == bs[..i] + [bs[i]];
  }

  lemma Finished(bs: seq<Blk>, i: nat, lo: nat, hi: nat, cs: seq<Blk>)
    requires i <= |bs| && AddrAt(bs, i) == 0 && Tiled(bs, lo, hi) && lo > 0 && bs[..i] + Coalesced(bs[i..]) == Coalesced(cs)
    ensures bs == Coalesced(cs)
  {
    if i < |bs| { TiledAt(bs, lo, hi, i); }
    assert bs[i..] == [] && bs[..i] == bs;
  }

  lemma KeptOn(a: Bytes, b: Bytes, c: Bytes, used: set<Blk>)
    requires Kept(a, b, used) && Kept(b, c, used)
    ensures Kept(a, c, used)
  {
  }

  lemma UsedAt(bs: seq<Blk>, i: nat)
    requires i < |bs| && !bs[i].free
    ensures bs[i] in Used(bs)
  {
  }

  lemma FindBlock(bs: seq<Blk>, b: Blk) returns (i: nat)
    requires b in Used(bs)
    ensures i < |bs| && bs[i] == b && !b.free
  {
    i :| 0 <= i < |bs| && bs[i] == b;
  }

  lemma GivenFacts(bs: seq<Blk>, cs: seq<Blk>, b: Blk, n: nat)
    requires Given(bs, cs, b, n)
    ensures b in Used(cs) && b !in Used(bs) && b.size >= n && forall c :: c in Used(bs) ==> c in Used(cs) && c != b
  {
  }

  lemma Same(mem: Bytes, b: Blk, used: set<Blk>)
    ensures Kept(mem, mem, used) && Carried(mem, mem, b, b)
  {
  }
}
