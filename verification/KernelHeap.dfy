/**
 kmalloc and kfree on the headers in memory (src/mem/kmalloc.c).

 A header stands at a block's first byte; `size` and `next` are the two words of the headers, by address, and 0
 is the null pointer.  The ghosts say what the headers amount to: the free list, the live blocks by the address
 of their header, and the frames obtained.
 */
module KernelHeap {

  import opened PageTypes
  import opened FreeList
  import opened Sizes

  function AddrAt(f: seq<Block>, i: nat): nat {
    if i < |f| then f[i].addr else 0
  }

  ghost predicate Rising(f: seq<Block>) {
    (forall i :: 0 <= i < |f| ==> f[i].addr > 0) && forall i, j :: 0 <= i < j < |f| ==> f[i].addr < f[j].addr
  }

  // The headers from `head` on spell out the list f.
  ghost predicate Listed(size: map<nat, nat>, next: map<nat, nat>, head: nat, f: seq<Block>) {
    head == AddrAt(f, 0) && forall i :: 0 <= i < |f| ==> ListedAt(size, next, f, i)
  }

  ghost predicate ListedAt(size: map<nat, nat>, next: map<nat, nat>, f: seq<Block>, i: nat)
    requires i < |f|
  {
    var a := f[i].addr;
    a in size && a in next && size[a] == f[i].size && next[a] == AddrAt(f, i + 1)
  }

  lemma AtPlace(size: map<nat, nat>, next: map<nat, nat>, head: nat, f: seq<Block>, i: nat)
    requires Listed(size, next, head, f) && i < |f|
    ensures ListedAt(size, next, f, i)
  {
  }

  lemma OrderedRises(f: seq<Block>)
    requires Ordered(f)
    ensures Rising(f)
  {
  }

  // ---------- The list operations, as seen in the headers ----------

  function Spliced(f: seq<Block>, k: nat, b: Block): seq<Block>
    requires k <= |f|
  {
    f[..k] + [b] + f[k..]
  }

  function Fused(f: seq<Block>, i: nat): seq<Block>
    requires i + 1 < |f|
  {
    f[..i] + [Block(f[i].addr, f[i].size + f[i + 1].size)] + f[i + 2..]
  }

  lemma PutIs(f: seq<Block>, k: nat, b: Block)
    requires k <= |f|
    ensures var g := Spliced(f, k, b);
            var h := if k + 1 < |g| && End(b) == g[k + 1].addr then Fused(g, k) else g;
            Put(f, k, b) == if k > 0 && End(h[k - 1]) == h[k].addr then Fused(h, k - 1) else h
  {
    var g := Spliced(f, k, b);
    if k + 1 < |g| && End(b) == g[k + 1].addr {
      assert Fused(g, k) == JoinNext(f, k, b);
    }
    var h := JoinNext(f, k, b);
    if k > 0 && End(h[k - 1]) == h[k].addr {
      assert Fused(h, k - 1) == JoinPrev(h, k);
    }
  }

  // Rising before k, then b, then the rest.
  ghost predicate Fits(f: seq<Block>, k: nat, b: Block) {
    && k <= |f| && b.addr > 0
    && (forall i :: 0 <= i < k ==> f[i].addr < b.addr)
    && (forall i :: k <= i < |f| ==> b.addr < f[i].addr)
  }

  lemma SplicedRises(f: seq<Block>, k: nat, b: Block)
    requires Rising(f) && Fits(f, k, b)
    ensures Rising(Spliced(f, k, b))
  {
    var g := Spliced(f, k, b);
    assert forall i :: 0 <= i < |g| ==> g[i] == if i < k then f[i] else if i == k then b else f[i - 1];
  }

  lemma SpliceListed(size: map<nat, nat>, next: map<nat, nat>, head: nat, f: seq<Block>, k: nat, b: Block)
    requires Listed(size, next, head, f) && Rising(f) && Fits(f, k, b) && b.addr in size && size[b.addr] == b.size
    ensures var to := next[b.addr := AddrAt(f, k)];
            if k == 0 then Listed(size, to, b.addr, Spliced(f, k, b))
            else Listed(size, to[f[k - 1].addr := b.addr], head, Spliced(f, k, b))
  {
    var g := Spliced(f, k, b);
    var to := if k == 0 then next[b.addr := AddrAt(f, k)] else next[b.addr := AddrAt(f, k)][f[k - 1].addr := b.addr];
    forall i | 0 <= i < |g| ensures ListedAt(size, to, g, i) {
      if i < k {
        AtPlace(size, next, head, f, i);
      } else if i > k {
        AtPlace(size, next, head, f, i - 1);
      }
    }
  }

  lemma FuseListed(size: map<nat, nat>, next: map<nat, nat>, head: nat, f: seq<Block>, i: nat)
    requires Listed(size, next, head, f) && Rising(f) && i + 1 < |f|
    ensures ListedAt(size, next, f, i) && ListedAt(size, next, f, i + 1)
    ensures var a, b := f[i].addr, f[i + 1].addr;
            Listed(size[a := size[a] + size[b]], next[a := next[b]], head, Fused(f, i))
  {
    var a, b, g := f[i].addr, f[i + 1].addr, Fused(f, i);
    AtPlace(size, next, head, f, i);
    AtPlace(size, next, head, f, i + 1);
    var s', n' := size[a := size[a] + size[b]], next[a := next[b]];
    forall j | 0 <= j < |g| ensures ListedAt(s', n', g, j) {
      AtPlace(size, next, head, f, if j <= i then j else j + 1);
    }
  }

  lemma WithoutListed(size: map<nat, nat>, next: map<nat, nat>, head: nat, f: seq<Block>, i: nat)
    requires Listed(size, next, head, f) && Rising(f) && i < |f|
    ensures ListedAt(size, next, f, i)
    ensures var a := f[i].addr;
            if i == 0 then Listed(size, next[a := 0], next[a], Without(f, i))
            else Listed(size, next[f[i - 1].addr := next[a]][a := 0], head, Without(f, i))
  {
    var a, g := f[i].addr, Without(f, i);
    AtPlace(size, next, head, f, i);
    var to := if i == 0 then next[a := 0] else next[f[i - 1].addr := next[a]][a := 0];
    forall j | 0 <= j < |g| ensures ListedAt(size, to, g, j) {
      AtPlace(size, next, head, f, if j < i then j else j + 1);
    }
  }

  // A header that is not on the list may change.
  lemma ElsewhereListed(size: map<nat, nat>, next: map<nat, nat>, head: nat, f: seq<Block>, a: nat, n: nat)
    requires Listed(size, next, head, f) && forall i :: 0 <= i < |f| ==> f[i].addr != a
    ensures Listed(size[a := n], next, head, f)
  {
    var s' := size[a := n];
    forall i | 0 <= i < |f| ensures ListedAt(s', next, f, i) { AtPlace(size, next, head, f, i); }
  }

  // ---------- Bytes apart ----------

  ghost predicate Apart(f: seq<Block>, b: Block) {
    forall x: nat :: !(In(f, x) && Holds(b, x))
  }

  lemma ApartBlocks(f: seq<Block>, b: Block, i: nat)
    requires Ordered(f) && Sound(b) && Apart(f, b) && i < |f|
    ensures Disjoint(f[i], b) && f[i].addr != b.addr && Sound(f[i])
  {
    var x := if f[i].addr < b.addr then b.addr else f[i].addr;
    assert Holds(f[i], x) ==> In(f, x);
    assert !(In(f, x) && Holds(b, x));
  }

  lemma SlotBetween(f: seq<Block>, k: nat, b: Block)
    requires Ordered(f) && Sound(b) && Apart(f, b) && k <= |f|
    requires k > 0 ==> f[k - 1].addr < b.addr
    requires k < |f| ==> b.addr <= f[k].addr
    ensures Fits(f, k, b) && Between(f, k, b)
  {
    hide Apart;
    forall i | 0 <= i < |f| ensures i < k ==> f[i].addr < b.addr && End(f[i]) <= b.addr
      ensures i >= k ==> b.addr < f[i].addr && End(b) <= f[i].addr
    {
      ApartBlocks(f, b, i);
      if i < k - 1 { assert End(f[i]) < f[k - 1].addr; }
      if i > k { assert End(f[k]) < f[i].addr; }
    }
  }

  datatype Answer = Null | Small(ptr: nat) | Large(size: nat)

  class Heap {
    var size: map<nat, nat>
    var next: map<nat, nat>
    var head: nat
    ghost var free: seq<Block>
    ghost var live: map<nat, nat>
    ghost var frames: set<nat>

    ghost predicate Shaped()
      reads this
    {
      Ordered(free) && Listed(size, next, head, free)
    }

    // Live headers are intact.
    ghost predicate Marked()
      reads this
    {
      forall a :: a in live ==> a in size && size[a] == live[a]
    }

    ghost predicate Valid()
      reads this
    {
      && Shaped() && HeapOk(free, live, frames) && Marked()
      && forall p :: p in frames ==> p > 0 && p % PAGE_SIZE == 0
    }

    constructor ()
      ensures Valid() && free == [] && live == map[] && frames == {}
    {
      size, next, head := map[], map[], 0;
      free, live, frames := [], map[], {};
    }

    // The block at place i of the list takes over the one behind it.
    method Absorb(a: nat, ghost f: seq<Block>, ghost i: nat)
      requires Listed(size, next, head, f) && Rising(f) && i + 1 < |f| && a == f[i].addr
      modifies this`size, this`next
      ensures Listed(size, next, head, Fused(f, i))
      ensures forall x :: x in old(size) && x != a ==> x in size && size[x] == old(size)[x]
    {
      FuseListed(size, next, head, f, i);
      var b := next[a];
      size := size[a := size[a] + size[b]];
      next := next[a := next[b]];
    }

    // The last list block below a; the list's head is.
    method Locate(a: nat, ghost b: Block) returns (prev: nat, ghost k: nat)
      requires Shaped() && Sound(b) && Apart(free, b) && a == b.addr && head != 0 && head < a
      ensures 0 < k <= |free| && prev == free[k - 1].addr && Fits(free, k, b) && Between(free, k, b)
    {
      hide Ordered, Listed, Apart, Fits, Between;
      HeadIs(size, next, head, free);
      prev, k := head, 1;
      AtPlace(size, next, head, free, 0);
      while next[prev] != 0 && next[prev] < a
        invariant 0 < k <= |free| && prev == free[k - 1].addr < a && ListedAt(size, next, free, k - 1)
        decreases |free| - k
      {
        prev := next[prev];
        NonNull(free, k);
        k := k + 1;
        AtPlace(size, next, head, free, k - 1);
      }
      NonNull(free, k);
      SlotBetween(free, k, b);
    }

    // kfree_unlocked, for a block whose bytes are not free.
    method KfreeUnlocked(a: nat)
      requires Shaped() && a in size && Sound(Block(a, size[a])) && Apart(free, Block(a, size[a]))
      modifies this`size, this`next, this`head, this`free
      ensures Shaped() && Added(old(free), free, Block(a, old(size)[a]))
      ensures SameElsewhere(old(size), size, old(free), a)
    {
      hide Ordered, Listed, Apart, Fits, Between, Put, In, SameElsewhere;
      ghost var f, b, k := free, Block(a, size[a]), 0;
      HeadIs(size, next, head, f);
      if head == 0 || a < head {
        SlotBetween(f, 0, b);
        LinkFirst(a, b);
      } else {
        HeadApart(f, b);
        k := LinkAfter(a, b);
      }
      PutKeeps(f, k, b);
      free := Put(f, k, b);
    }

    // The block becomes the first of the list.
    method LinkFirst(a: nat, ghost b: Block)
      requires Shaped() && a in size && b == Block(a, size[a]) && Fits(free, 0, b)
      modifies this`size, this`next, this`head
      ensures Listed(size, next, head, Put(free, 0, b)) && SameElsewhere(old(size), size, free, a)
    {
      hide Ordered, Listed, Fits, Put;
      OrderedRises(free);
      HeadIs(size, next, head, free);
      SpliceListed(size, next, head, free, 0, b);
      PutIs(free, 0, b);
      next := next[a := head];
      head := a;
      ghost var h := JoinUp(a, free, 0, b);
    }

    // The block is linked in behind the last block below it, which takes it over if they touch.
    method LinkAfter(a: nat, ghost b: Block) returns (ghost k: nat)
      requires Shaped() && a in size && b == Block(a, size[a]) && Sound(b) && Apart(free, b) && head != 0 && head < a
      modifies this`size, this`next
      ensures Between(free, k, b)
      ensures k <= |free| && Listed(size, next, head, Put(free, k, b)) && SameElsewhere(old(size), size, free, a)
    {
      hide Ordered, Listed, Apart, Fits, Between, Put;
      OrderedRises(free);
      var prev;
      prev, k := Locate(a, b);
      AtPlace(size, next, head, free, k - 1);
      SpliceListed(size, next, head, free, k, b);
      PutIs(free, k, b);
      next := next[a := next[prev]];
      next := next[prev := a];
      ghost var h := JoinUp(a, free, k, b);
      JoinDown(prev, a, h, k);
    }

    // The block at place k - 1 takes over the block behind it if they touch.
    method JoinDown(prev: nat, a: nat, ghost h: seq<Block>, ghost k: nat)
      requires Listed(size, next, head, h) && Rising(h) && 0 < k < |h| && prev == h[k - 1].addr && a == h[k].addr
      modifies this`size, this`next
      ensures Listed(size, next, head, if End(h[k - 1]) == h[k].addr then Fused(h, k - 1) else h)
      ensures forall x :: x in old(size) && x != prev ==> x in size && size[x] == old(size)[x]
    {
      AtPlace(size, next, head, h, k - 1);
      if prev + size[prev] == a {
        Absorb(prev, h, k - 1);
      }
    }

    // The freed block, already linked in at place k, takes over its upper neighbour if they touch.
    method JoinUp(a: nat, ghost f: seq<Block>, ghost k: nat, ghost b: Block) returns (ghost h: seq<Block>)
      requires Rising(f) && Fits(f, k, b) && Listed(size, next, head, Spliced(f, k, b)) && a == b.addr
      modifies this`size, this`next
      ensures var g := Spliced(f, k, b); h == if k + 1 < |g| && End(b) == g[k + 1].addr then Fused(g, k) else g
      ensures Listed(size, next, head, h) && Rising(h)
      ensures forall x :: x in old(size) && x != a ==> x in size && size[x] == old(size)[x]
    {
      hide Listed, Rising;
      ghost var g := Spliced(f, k, b);
      SplicedRises(f, k, b);
      AtPlace(size, next, head, g, k);
      NonNull2(g, k + 1);
      h := g;
      if next[a] != 0 && a + size[a] == next[a] {
        h := Fused(g, k);
        FusedRises(g, k);
        Absorb(a, g, k);
      }
    }

    // find_free_block: the first block with room leaves the list.
    method FindFreeBlock(need: nat) returns (a: nat)
      requires Shaped()
      modifies this`next, this`head, this`free
      ensures Shaped()
      ensures var i := FirstFit(old(free), need);
              if i == |old(free)| then a == 0 && free == old(free)
              else a == old(free)[i].addr && a in size && size[a] == old(free)[i].size && free == Without(old(free), i)
    {
      hide Ordered, Listed, Without, FirstFit;
      ghost var f, i := free, 0;
      OrderedRises(f);
      var prev, cur := 0, head;
      HeadIs(size, next, head, f);
      if f != [] { AtPlace(size, next, head, f, 0); }
      while cur != 0 && size[cur] < need
        invariant i <= |f| && cur == AddrAt(f, i) && (i > 0 ==> prev == f[i - 1].addr) && (i == 0 <==> prev == 0)
        invariant i < |f| ==> ListedAt(size, next, f, i)
        invariant forall j :: 0 <= j < i ==> f[j].size < need
        modifies {}
        decreases |f| - i
      {
        NonNull(f, i);
        prev := cur;
        cur := next[cur];
        i := i + 1;
        if i < |f| { AtPlace(size, next, head, f, i); }
      }
      NonNull(f, i);
      FirstFitIs(f, need, i);
      if cur == 0 { return 0; }
      WithoutListed(size, next, head, f, i);
      WithoutKeeps(f, i);
      if prev == 0 {
        head := next[cur];
      } else {
        next := next[prev := next[cur]];
      }
      next := next[cur := 0];
      free := Without(f, i);
      return cur;
    }

    // request_new_page, with the frame the allocator handed out.
    method RequestNewPage(page: nat)
      requires Valid() && page > 0 && page % PAGE_SIZE == 0 && page !in frames
      modifies this`size, this`next, this`head, this`free, this`frames
      ensures Valid() && frames == old(frames) + {page} && Added(old(free), free, Block(page, PAGE_SIZE))
    {
      hide Ordered, Listed, In, InLive, InFrames, LiveOk, SameElsewhere, Apart;
      ghost var f, b := free, Block(page, PAGE_SIZE);
      PageNew(f, live, frames, page);
      ElsewhereListed(size, next, head, f, page, PAGE_SIZE);
      size := size[page := PAGE_SIZE];
      KfreeUnlocked(page);
      forall x: nat | Holds(b, x) ensures !InFrames(frames, x) { PagesApart(frames, page, x); }
      PageAdded(f, free, live, frames, page);
      StillMarked(old(size)[page := PAGE_SIZE], size, f, |f|, live, frames, page);
      frames := frames + {page};
    }

    // The block taken from the list is cut to the size asked for; what is left over goes back.
    method Carve(a: nat, n: nat, ghost f: seq<Block>, ghost i: nat)
      requires Shaped() && HeapOk(f, live, frames) && Marked() && i < |f| && free == Without(f, i)
      requires a == f[i].addr && a in size && size[a] == f[i].size && n % 16 == 0 && HEADER + n <= f[i].size
      modifies this`size, this`next, this`head, this`free, this`live
      ensures Shaped() && Marked() && HeapOk(free, live, frames) && a !in old(live) && live == old(live)[a := HEADER + n]
    {
      hide Ordered, Listed, In, InLive, InFrames, LiveOk, SameElsewhere, Apart, Without;
      ghost var b := Block(a, HEADER + n);
      SoundAt(f, i);
      WithoutKeeps(f, i);
      NotOnList(f, i);
      FreeNotMarked(f, i, live, frames, a);
      var whole := HEADER + n;
      var rest := size[a] - whole;
      ElsewhereListed(size, next, head, free, a, whole);
      size := size[a := whole];
      if rest >= HEADER {
        ghost var g := free;
        RestApart(f, i, a + whole, rest);
        FreeNotMarked(f, i, live, frames, a + whole);
        ElsewhereListed(size, next, head, free, a + whole, rest);
        size := size[a + whole := rest];
        ghost var mid := size;
        KfreeUnlocked(a + whole);
        CutMoved(f, i, free, b);
        StillMarked(mid, size, f, i, live, frames, a + whole);
        SameAt(mid, size, g, a + whole, a);
      } else {
        WholeMoved(f, i);
        assert rest == 0 && b == f[i];
        ElsewhereListed(size, next, head, free, a, size[a] + rest);
        size := size[a := size[a] + rest];
      }
      GiveOut(f, free, live, frames, b);
      live := live[a := whole];
    }

    // kmalloc; `page` is the frame the frame allocator would hand out, or 0 when none is left.
    method Kmalloc(want: nat, page: nat) returns (r: Answer)
      requires Valid() && want < SIZE_MAX
      requires page == 0 || (page % PAGE_SIZE == 0 && page !in frames)
      modifies this
      ensures Valid()
      ensures var n := Rounded(want);
              var fits := FirstFit(old(free), n + HEADER) < |old(free)|;
              if want == 0 || (n < PAGE_SIZE - HEADER && !fits && page == 0) then r == Null && live == old(live) && frames == old(frames)
              else if n >= PAGE_SIZE - HEADER then r == Large(n) && live == old(live) && frames == old(frames)
              else
                && r.Small? && r.ptr > HEADER && r.ptr - HEADER !in old(live)
                && live == old(live)[r.ptr - HEADER := HEADER + n]
                && frames == old(frames) + if fits then {} else {page}
    {
      hide Ordered, Listed, HeapOk, FirstFit, Rounded, Added, Without;
      if want == 0 { return Null; }
      RoundedEnough(want);
      var n := Rounded(want);
      if n >= PAGE_SIZE - HEADER { return Large(n); }
      ghost var f := free;
      FitBound(f, n + HEADER);
      HeapNonNull(f, live, frames, n + HEADER);
      var a := FindFreeBlock(n + HEADER);
      if a == 0 {
        if page == 0 { return Null; }
        RequestNewPage(page);
        NowFits(f, free, page, n + HEADER);
        f := free;
        FitBound(f, n + HEADER);
        HeapNonNull(f, live, frames, n + HEADER);
        a := FindFreeBlock(n + HEADER);
      }
      ghost var i := FirstFit(f, n + HEADER);
      Carve(a, n, f, i);
      return Small(a + HEADER);
    }

    // kfree of a block that kmalloc took from the heap.
    method Kfree(ptr: nat)
      requires Valid() && (ptr != 0 ==> ptr > HEADER && ptr - HEADER in live)
      modifies this
      ensures Valid() && frames == old(frames) && live == if ptr == 0 then old(live) else old(live) - {(ptr - HEADER) as nat}
    {
      hide Ordered, Listed, HeapOk, Added, SameElsewhere, Apart;
      if ptr == 0 { return; }
      var a := ptr - HEADER;
      ghost var f := free;
      LiveApart(f, live, frames, a);
      KfreeUnlocked(a);
      TakeBack(f, free, live, frames, a);
      FreedMarked(old(size), size, f, live, frames, a);
      live := live - {a};
    }

    // What is allocated without a new page and freed again leaves the free list exactly as it was.
    method AllocThenFree(want: nat)
      requires Valid() && want < SIZE_MAX
      modifies this
      ensures Valid() && live == old(live) && frames == old(frames) && free == old(free)
    {
      hide Ordered, Listed, HeapOk, FirstFit, Rounded;
      ghost var f := free;
      var r := Kmalloc(want, 0);
      if r.Small? {
        Kfree(r.ptr);
        assert live == old(live);
      }
      assert frames == old(frames);
      FreeListDetermined(f, free, live, frames);
    }
  }

  // Headers of blocks that are neither a nor on the list.
  ghost predicate SameElsewhere(was: map<nat, nat>, now: map<nat, nat>, f: seq<Block>, a: nat) {
    forall x :: x in was && x != a && (forall i :: 0 <= i < |f| ==> f[i].addr != x) ==> x in now && now[x] == was[x]
  }

  lemma HeadApart(f: seq<Block>, b: Block)
    requires Ordered(f) && Sound(b) && Apart(f, b) && f != []
    ensures f[0].addr != b.addr
  {
    ApartBlocks(f, b, 0);
  }

  lemma HeadIs(size: map<nat, nat>, next: map<nat, nat>, head: nat, f: seq<Block>)
    requires Listed(size, next, head, f) && Ordered(f)
    ensures head == AddrAt(f, 0) && (head == 0 <==> f == [])
  {
    if f != [] { assert Sound(f[0]); }
  }

  lemma NonNull(f: seq<Block>, i: nat)
    requires Ordered(f)
    ensures AddrAt(f, i) != 0 <==> i < |f|
  {
    if i < |f| { assert Sound(f[i]); }
  }

  lemma NonNull2(f: seq<Block>, i: nat)
    requires Rising(f)
    ensures AddrAt(f, i) != 0 <==> i < |f|
  {
  }

  lemma FusedRises(f: seq<Block>, i: nat)
    requires Rising(f) && i + 1 < |f|
    ensures Rising(Fused(f, i))
  {
    var g := Fused(f, i);
    assert forall j :: 0 <= j < |g| ==> g[j].addr == f[if j <= i then j else j + 1].addr;
  }

  lemma SoundAt(f: seq<Block>, i: nat)
    requires Ordered(f) && i < |f|
    ensures Sound(f[i])
  {
  }

  lemma NotOnList(f: seq<Block>, i: nat)
    requires Ordered(f) && i < |f|
    ensures forall j :: 0 <= j < |Without(f, i)| ==> Without(f, i)[j].addr != f[i].addr
  {
    var g := Without(f, i);
    forall j | 0 <= j < |g| ensures g[j].addr != f[i].addr {
      assert g[j] == f[if j < i then j else j + 1];
      assert Sound(f[i]) && Sound(g[j]);
    }
  }

  // A page outside the frames is neither live nor on the list.
  lemma PageNew(f: seq<Block>, live: map<nat, nat>, frames: set<nat>, page: nat)
    requires HeapOk(f, live, frames) && page % PAGE_SIZE == 0 && page > 0 && page !in frames
    requires forall p :: p in frames ==> p > 0 && p % PAGE_SIZE == 0
    ensures Apart(f, Block(page, PAGE_SIZE)) && page !in live && Sound(Block(page, PAGE_SIZE))
    ensures forall i :: 0 <= i < |f| ==> f[i].addr != page
  {
    var b := Block(page, PAGE_SIZE);
    forall x: nat | Holds(b, x) ensures !In(f, x) && !InLive(live, x) {
      hide In, InLive, InFrames, Ordered, LiveOk;
      PagesApart(frames, page, x);
      assert In(f, x) || InLive(live, x) <==> InFrames(frames, x);
    }
    assert Holds(b, page);
    forall i | 0 <= i < |f| ensures f[i].addr != page { assert Sound(f[i]); assert Holds(f[i], f[i].addr) && In(f, f[i].addr); }
    if page in live { LiveHolds(live, page, page); }
  }

  // No live header stands in a free block.
  lemma FreeNotMarked(f: seq<Block>, i: nat, live: map<nat, nat>, frames: set<nat>, a: nat)
    requires HeapOk(f, live, frames) && i < |f| && Holds(f[i], a)
    ensures a !in live
  {
    InBlock(f, i, a);
    if a in live { LiveHolds(live, a, a); }
  }

  lemma RestApart(f: seq<Block>, i: nat, a: nat, n: nat)
    requires Ordered(f) && i < |f| && f[i].addr < a && a + n == End(f[i]) && n >= HEADER && a % 16 == 0 && n % 16 == 0
    ensures var g, r := Without(f, i), Block(a, n);
            Sound(r) && Holds(f[i], a) && Apart(g, r) && forall j :: 0 <= j < |g| ==> g[j].addr != a
  {
    var g, r := Without(f, i), Block(a, n);
    forall x: nat ensures !(In(g, x) && Holds(r, x)) { WithoutBytes(f, i, x); }
    forall j | 0 <= j < |g| ensures g[j].addr != a {
      var h := if j < i then j else j + 1;
      assert g[j] == f[h] && Sound(f[h]) && Sound(f[i]);
      if h < i { assert End(f[h]) < f[i].addr; } else { assert End(f[i]) < f[h].addr; }
    }
  }

  lemma SameAt(was: map<nat, nat>, now: map<nat, nat>, f: seq<Block>, a: nat, x: nat)
    requires SameElsewhere(was, now, f, a) && x in was && x != a && forall i :: 0 <= i < |f| ==> f[i].addr != x
    ensures x in now && now[x] == was[x]
  {
  }

  // Freeing a block beside the list f without its block i leaves the live headers alone.
  lemma StillMarked(was: map<nat, nat>, now: map<nat, nat>, f: seq<Block>, i: nat, live: map<nat, nat>, frames: set<nat>, a: nat)
    requires HeapOk(f, live, frames) && a !in live && i <= |f|
    requires SameElsewhere(was, now, if i < |f| then Without(f, i) else f, a)
    requires forall x :: x in live ==> x in was && was[x] == live[x]
    ensures forall x :: x in live ==> x in now && now[x] == live[x]
  {
    hide HeapOk, SameElsewhere;
    var g := if i < |f| then Without(f, i) else f;
    forall x | x in live ensures x in now && now[x] == live[x] {
      forall j | 0 <= j < |g| ensures g[j].addr != x {
        var h := if i < |f| && j >= i then j + 1 else j;
        assert g[j] == f[h];
        HeapSound(f, live, frames, h);
        FreeNotMarked(f, h, live, frames, f[h].addr);
      }
      SameAt(was, now, g, a, x);
    }
  }

  lemma HeapSound(f: seq<Block>, live: map<nat, nat>, frames: set<nat>, i: nat)
    requires HeapOk(f, live, frames) && i < |f|
    ensures Sound(f[i])
  {
  }

  lemma FitBound(f: seq<Block>, n: nat)
    ensures FirstFit(f, n) <= |f| && (FirstFit(f, n) < |f| ==> f[FirstFit(f, n)].size >= n)
  {
  }

  lemma HeapNonNull(f: seq<Block>, live: map<nat, nat>, frames: set<nat>, n: nat)
    requires HeapOk(f, live, frames)
    ensures FirstFit(f, n) < |f| ==> f[FirstFit(f, n)].addr > 0
  {
  }

  // A new page has room for any small request, whatever it was joined with.
  lemma NowFits(f: seq<Block>, g: seq<Block>, page: nat, n: nat)
    requires Ordered(g) && Added(f, g, Block(page, PAGE_SIZE)) && n <= PAGE_SIZE
    ensures FirstFit(g, n) < |g|
  {
    var i := OneBlock(g, Block(page, PAGE_SIZE));
  }

  lemma LiveApart(f: seq<Block>, live: map<nat, nat>, frames: set<nat>, a: nat)
    requires HeapOk(f, live, frames) && a in live
    ensures Sound(Block(a, live[a])) && Apart(f, Block(a, live[a]))
  {
    hide Ordered, In;
    forall x: nat ensures !(In(f, x) && Holds(Block(a, live[a]), x)) {
      if Holds(Block(a, live[a]), x) { LiveHolds(live, a, x); }
    }
  }

  lemma FreedMarked(was: map<nat, nat>, now: map<nat, nat>, f: seq<Block>, live: map<nat, nat>, frames: set<nat>, a: nat)
    requires HeapOk(f, live, frames) && a in live && SameElsewhere(was, now, f, a)
    requires forall x :: x in live ==> x in was && was[x] == live[x]
    ensures forall x :: x in live - {a} ==> x in now && now[x] == live[x]
  {
    hide HeapOk, SameElsewhere;
    forall x | x in live - {a} ensures x in now && now[x] == live[x] {
      forall j | 0 <= j < |f| ensures f[j].addr != x {
        HeapSound(f, live, frames, j);
        FreeNotMarked(f, j, live, frames, f[j].addr);
      }
      SameAt(was, now, f, a, x);
    }
  }
}
