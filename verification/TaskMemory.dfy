/**
 A task's memory as the system calls see it (src/arch/syscall.c, src/mem/vmm.c): mmap and munmap on its two lists
 of regions, the growth of its stack and of its heap.

 munmap gives a page back or not by the flag of the region, so counts stay exact as long as the flags agree with
 the pages.  Each method says when it keeps that agreement.
 */
module TaskMemory {
  import opened PageTypes
  import opened Frames
  import opened CopyOnWrite
  import opened PageTree
  import opened Worlds
  import opened Mapping
  import opened KernelHalf
  import opened Pager
  import opened FreeList
  import opened Regions

  // No private page lies in the pages from lo to hi.
  ghost predicate NoPrivate(flat: map<Slot, Entry>, r: nat, lo: nat, hi: nat) {
    forall v: nat :: lo <= v < hi && SlotAt(r, v) in flat ==> flat[SlotAt(r, v)].shared
  }

  lemma MapNoPrivate(flat: map<Slot, Entry>, r: nat, lo: nat, v: nat, f: nat)
    ensures forall hi: nat :: NoPrivate(flat, r, lo, hi) ==> NoPrivate(flat[SlotAt(r, v) := PageOf(true, f)], r, lo, hi)
  {
    hide SlotAt;
  }

  // Page v is there and is the task's own.
  ghost predicate Private(flat: map<Slot, Entry>, r: nat, v: nat) {
    SlotAt(r, v) in flat && !flat[SlotAt(r, v)].shared
  }

  // Outside the pages from lo to hi the space has the same pages.
  ghost predicate SameBut(from: map<Slot, Entry>, to: map<Slot, Entry>, r: nat, lo: nat, hi: nat) {
    forall v: nat :: v < lo || hi <= v ==> SamePage(from, to, r, v)
  }

  ghost predicate SamePage(from: map<Slot, Entry>, to: map<Slot, Entry>, r: nat, v: nat) {
    (SlotAt(r, v) in from <==> SlotAt(r, v) in to) && (SlotAt(r, v) in from ==> from[SlotAt(r, v)] == to[SlotAt(r, v)])
  }

  lemma SameButOne(from: map<Slot, Entry>, to: map<Slot, Entry>, r: nat, lo: nat, i: nat, e: Entry)
    requires SameBut(from, to, r, lo, lo + i)
    ensures SameBut(from, to[SlotAt(r, lo + i) := e], r, lo, lo + i + 1)
  {
    hide SlotAt;
    var g := to[SlotAt(r, lo + i) := e];
    forall v: nat | v < lo || lo + i + 1 <= v ensures SamePage(from, g, r, v) {
      assert SamePage(from, to, r, v);
      if SlotAt(r, v) == SlotAt(r, lo + i) { SlotsApart(r, v, r, lo + i); }
    }
  }

  // The page of an address.
  lemma PagesOf(n: Node, v: nat)
    requires Paged(Extent(n))
    ensures Covers(n, v) <==> n.addr / PAGE_SIZE <= v < n.addr / PAGE_SIZE + n.size / PAGE_SIZE
  {
    var a, s := n.addr / PAGE_SIZE, n.size / PAGE_SIZE;
    assert n.addr == a * PAGE_SIZE && n.size == s * PAGE_SIZE;
  }

  lemma AlignedPaged(length: nat)
    ensures Aligned(length) % PAGE_SIZE == 0 && length <= Aligned(length)
  {
    var q := (length + PAGE_SIZE - 1) / PAGE_SIZE;
    assert Aligned(length) == PAGE_SIZE * q;
  }

  // All regions lie in the lower half.
  ghost predicate InUserHalf(free: seq<Block>, nodes: seq<Node>) {
    && (forall i :: 0 <= i < |free| ==> End(free[i]) <= USER_PAGES * PAGE_SIZE)
    && (forall j :: 0 <= j < |nodes| ==> nodes[j].addr + nodes[j].size <= USER_PAGES * PAGE_SIZE)
  }

  class Task {
    const pt: PageTables
    const root: nat
    var heapEnd: nat
    var free: seq<Block>  // vm_free_head
    var nodes: seq<Node>  // vm_alloc_head, newest first

    ghost predicate Ok()
      reads this, pt
    {
      && pt.Ready() && Top(root) in pt.g.ents && root != pt.kern
      && ListsOk(free, nodes) && InUserHalf(free, nodes) && HEAP_START <= heapEnd <= HEAP_LIMIT
    }

    ghost predicate FlagsAgree()
      reads this, pt
    {
      Agrees(pt.g.flat, root, nodes)
    }

    ghost predicate ObjectsKept()
      reads this, pt
    {
      ObjectsSafe(pt.g.flat, root, nodes)
    }

    // What sys_exec leaves: private pages only, the mmap area free, the stack in the list of regions.
    constructor (tables: PageTables, space: nat)
      requires tables.Ready() && Top(space) in tables.g.ents && space != tables.kern
      requires forall v: nat :: SlotAt(space, v) in tables.g.flat ==> !tables.g.flat[SlotAt(space, v)].shared
      ensures Ok() && FlagsAgree() && ObjectsKept() && pt == tables && root == space && heapEnd == HEAP_START
      ensures free == [Block(MMAP_START, MMAP_SIZE)] && nodes == [Node(STACK_BASE, STACK_PAGES * PAGE_SIZE, false)]
    {
      hide SlotAt, PageTables.Ready;
      pt, root, heapEnd := tables, space, HEAP_START;
      free, nodes := [Block(MMAP_START, MMAP_SIZE)], [Node(STACK_BASE, STACK_PAGES * PAGE_SIZE, false)];
      new;
      FirstLists(free, nodes);
      AgreesSafe(pt.g.flat, root, nodes);
    }

    // find_free_addr, 0 standing for none.
    method FindFreeAddr(size: nat) returns (addr: nat)
      requires ListsOk(free, nodes) && size % PAGE_SIZE == 0
      modifies this`free
      ensures var i := FirstFit(old(free), size);
              if i < |old(free)| then addr == old(free)[i].addr > 0 && free == Taken(old(free), size)
              else addr == 0 && free == old(free)
    {
      hide Ordered, NodesOk, Separate, FirstFit;
      var i := 0;
      while i < |free| && free[i].size < size
        invariant i <= |free| && forall j :: 0 <= j < i ==> free[j].size < size
      {
        i := i + 1;
      }
      FirstFitIs(free, size, i);
      if i == |free| { return 0; }
      SoundBlock(free, i);
      addr := free[i].addr;
      if free[i].size > size {
        free := free[i := Block(free[i].addr + size, free[i].size - size)];
      } else {
        free := free[..i] + free[i + 1..];
      }
    }

    // vmm_pop_allocated_mem.
    method PopNode(addr: nat) returns (found: bool, n: Node)
      modifies this`nodes
      ensures var j := NodeAt(old(nodes), addr);
              if j < |old(nodes)| then found && n == old(nodes)[j] && nodes == Popped(old(nodes), j)
              else !found && nodes == old(nodes)
    {
      hide NodeAt;
      var j := 0;
      n := Node(0, 0, false);
      while j < |nodes| && nodes[j].addr != addr
        invariant j <= |nodes| && forall i :: 0 <= i < j ==> nodes[i].addr != addr
      {
        j := j + 1;
      }
      NodeAtIs(nodes, addr, j);
      if j == |nodes| { return false, n; }
      n := nodes[j];
      nodes := nodes[..j] + nodes[j + 1..];
      return true, n;
    }

    // vmm_add_free_region; without memory for a list node the region is lost, unless it touches the one below.
    method AddFree(b: Block, memory: bool) returns (ghost k: nat)
      modifies this`free
      ensures k <= |old(free)| && PlaceFor(old(free), k, b.addr)
      ensures b.size == 0 ==> free == old(free)
      ensures b.size > 0 && memory ==> free == FreeList.Put(old(free), k, b)
      ensures b.size > 0 ==> free == old(free) || free == FreeList.Put(old(free), k, b)
    {
      var i := 0;
      while i < |free| && free[i].addr < b.addr
        invariant i <= |free| && forall j :: 0 <= j < i ==> free[j].addr < b.addr
      {
        i := i + 1;
      }
      k := i;
      if b.size == 0 { return; }
      ghost var f := free;
      ghost var h := JoinNext(f, i, b);
      if i > 0 && End(free[i - 1]) == b.addr {
        var low := Block(free[i - 1].addr, free[i - 1].size + b.size);
        if i < |free| && End(low) == free[i].addr {
          low := Block(low.addr, low.size + free[i].size);
          free := free[..i - 1] + [low] + free[i + 1..];
        } else {
          free := free[..i - 1] + [low] + free[i..];
        }
        assert free == JoinPrev(h, i);
      } else {
        if !memory { return; }
        if i < |free| && End(b) == free[i].addr {
          free := free[..i] + [Block(b.addr, b.size + free[i].size)] + free[i + 1..];
        } else {
          free := free[..i] + [b] + free[i..];
        }
        assert free == h && JoinPrev(h, i) == h;
      }
    }

    // One page of sys_mmap.
    method MapShared(v: nat, frame: nat) returns (mapped: bool)
      requires Ok() && v < USER_PAGES && frame in pt.shm
      modifies pt
      ensures Ok() && pt.shm == old(pt.shm)
      ensures pt.g.flat == if mapped then old(pt.g.flat)[SlotAt(root, v) := PageOf(true, frame)] else old(pt.g.flat)
      ensures !mapped ==> Valid(pt.pool) && Alloc(pt.pool).1 == 0
    {
      hide Good, Moves, KernelKept, SlotAt, PathOf, ListsOk, InUserHalf;
      ghost var s := pt.Now();
      GoodInv(s);
      UserPageOk(v);
      mapped := pt.MapSharedPage(root, PathOf(v), v % 512, frame);
      SlotIs(root, v);
      if mapped { SharedFlat(s, pt.Now(), SlotAt(root, v), frame); } else { IdleFlat(s, pt.Now()); }
    }

    // A zeroed private page: stack growth, sbrk.
    method MapPrivate(v: nat) returns (mapped: bool)
      requires Ok() && v < USER_PAGES
      modifies pt
      ensures Ok() && pt.shm == old(pt.shm) && Valid(old(pt.pool))
      ensures pt.g.flat == if mapped then old(pt.g.flat)[SlotAt(root, v) := PageOf(false, Alloc(old(pt.pool)).1)] else old(pt.g.flat)
      ensures !mapped ==> Valid(pt.pool) && Alloc(pt.pool).1 == 0
    {
      hide Good, Moves, KernelKept, SlotAt, PathOf, ListsOk, InUserHalf;
      ghost var s := pt.Now();
      GoodInv(s);
      UserPageOk(v);
      mapped := pt.MapFresh(root, PathOf(v), v % 512);
      SlotIs(root, v);
      if mapped {
        PrivateFlat(s, pt.Now(), SlotAt(root, v), Alloc(s.pool).1);
      } else if Alloc(s.pool).1 == 0 {
        IdleFlat(s, pt.Now());
      } else {
        LoseFlat(s, pt.Now(), Alloc(s.pool).1);
      }
    }

    // One page of vmm_unmap_user.
    method Unmap(v: nat, shmNode: bool)
      requires Ok() && v < USER_PAGES && (SlotAt(root, v) in pt.g.flat ==> pt.g.flat[SlotAt(root, v)].shared == shmNode)
      modifies pt
      ensures Ok() && pt.shm == old(pt.shm) && pt.g.flat == old(pt.g.flat) - {SlotAt(root, v)}
    {
      hide Good, Moves, KernelKept, SlotAt, PathOf, ListsOk, InUserHalf;
      ghost var s := pt.Now();
      GoodInv(s);
      UserPageOk(v);
      SlotIs(root, v);
      pt.UnmapPage(root, PathOf(v), v % 512, shmNode);
      UnmapFlat(s, pt.Now(), SlotAt(root, v));
    }

    // The pages of the object behind one another from page lo on; a page for which no table can be had stays as it
    // was, and the pool of that moment is returned.
    method MapObject(lo: nat, n: nat, frames: seq<nat>) returns (ghost all: bool, ghost short: Pool)
      requires Ok() && n <= |frames| && lo + n <= USER_PAGES && forall i :: 0 <= i < |frames| ==> frames[i] in pt.shm
      modifies pt
      ensures Ok() && pt.shm == old(pt.shm)
      ensures SameBut(old(pt.g.flat), pt.g.flat, root, lo, lo + n)
      ensures forall hi: nat :: NoPrivate(old(pt.g.flat), root, lo, hi) ==> NoPrivate(pt.g.flat, root, lo, hi)
      ensures old(ObjectsKept()) && (forall v: nat :: lo <= v < lo + n ==> !Covered(nodes, false, v)) ==> ObjectsKept()
      ensures old(FlagsAgree()) && (forall v: nat :: lo <= v < lo + n ==> !Covered(nodes, false, v)) ==> FlagsAgree()
      ensures all ==> forall i :: 0 <= i < n ==> Shows(pt.g.flat, root, lo + i, frames[i])
      ensures !all ==> Valid(short) && Alloc(short).1 == 0
    {
      hide Good, ListsOk, InUserHalf, Agrees, ObjectsSafe, Covered, SlotAt, Alloc, NoPrivate;
      ghost var s := pt.g.flat;
      all, short := true, pt.pool;
      for i := 0 to n
        invariant Ok() && pt.shm == old(pt.shm)
        invariant SameBut(s, pt.g.flat, root, lo, lo + i)
        invariant forall hi: nat :: NoPrivate(s, root, lo, hi) ==> NoPrivate(pt.g.flat, root, lo, hi)
        invariant ObjectsSafe(s, root, nodes) && (forall v: nat :: lo <= v < lo + i ==> !Covered(nodes, false, v)) ==> ObjectsKept()
        invariant Agrees(s, root, nodes) && (forall v: nat :: lo <= v < lo + i ==> !Covered(nodes, false, v)) ==> FlagsAgree()
        invariant all ==> forall j :: 0 <= j < i ==> Shows(pt.g.flat, root, lo + j, frames[j])
        invariant !all ==> Valid(short) && Alloc(short).1 == 0
      {
        ghost var f := pt.g.flat;
        var mapped := MapShared(lo + i, frames[i]);
        if mapped {
          SameButOne(s, f, root, lo, i, PageOf(true, frames[i]));
          MapNoPrivate(f, root, lo, lo + i, frames[i]);
          if ObjectsSafe(f, root, nodes) && !Covered(nodes, false, lo + i) { MapSharedSafe(f, root, nodes, lo + i, frames[i]); }
          if Agrees(f, root, nodes) { MapAgreesIff(f, root, nodes, lo + i, true, frames[i]); }
          forall j | 0 <= j < i && Shows(f, root, lo + j, frames[j]) ensures Shows(pt.g.flat, root, lo + j, frames[j]) {
            if SlotAt(root, lo + j) == SlotAt(root, lo + i) { SlotsApart(root, lo + j, root, lo + i); }
          }
        }
        if !mapped { all, short := false, pt.pool; }
      }
    }

    // sys_mmap of an object with the given frames; memory is false when there is no list node to be had, and then
    // the pages are mapped and the region is forgotten.
    method Mmap(frames: seq<nat>, length: nat, memory: bool) returns (addr: nat, ghost all: bool, ghost short: Pool)
      requires Ok() && forall i :: 0 <= i < |frames| ==> frames[i] in pt.shm
      modifies this, pt
      ensures Ok() && pt.shm == old(pt.shm) && heapEnd == old(heapEnd) && (old(ObjectsKept()) ==> ObjectsKept())
      ensures |frames| == 0 || FirstFit(old(free), Aligned(length)) == |old(free)| ==>
                addr == 0 && nodes == old(nodes) && free == old(free) && pt.g.flat == old(pt.g.flat)
      ensures |frames| > 0 && FirstFit(old(free), Aligned(length)) < |old(free)| ==>
                var size := Aligned(length);
                var lo, n := addr / PAGE_SIZE, size / PAGE_SIZE;
                var k := if n < |frames| then n else |frames|;
                && addr == old(free)[FirstFit(old(free), size)].addr && free == Taken(old(free), size)
                && nodes == (if memory then [Node(addr, size, true)] else []) + old(nodes)
                && SameBut(old(pt.g.flat), pt.g.flat, root, lo, lo + k)
                && (all ==> forall j :: 0 <= j < k ==> Shows(pt.g.flat, root, lo + j, frames[j]))
                && (!all ==> Valid(short) && Alloc(short).1 == 0)
                && (all && memory && old(FlagsAgree()) ==> (FlagsAgree() <==> NoPrivate(old(pt.g.flat), root, lo + k, lo + n)))
                && (old(FlagsAgree()) && NoPrivate(old(pt.g.flat), root, lo, lo + n) ==> FlagsAgree())
    {
      hide Good, ListsOk, NoPrivate, Agrees, ObjectsSafe, Covered, SlotAt, Alloc, FirstFit, Taken, InUserHalf, SameBut, Shows;
      all, short := true, pt.pool;
      if |frames| == 0 { return 0, all, short; }
      var size := Aligned(length);
      AlignedPaged(length);
      ghost var f := free;
      addr := FindFreeAddr(size);
      if addr == 0 { return; }
      ghost var n, flat := Node(addr, size, true), pt.g.flat;
      TakenLists(f, nodes, size, true);
      TakenUser(f, nodes, size, true);
      ForgetHead(free, nodes, n);
      TakenUncovered(f, nodes, size, true);
      var lo, pages := addr / PAGE_SIZE, size / PAGE_SIZE;
      NodePages(n, lo, pages);
      var count := if pages < |frames| then pages else |frames|;
      ghost var agreed, safe := FlagsAgree(), ObjectsKept();
      all, short := MapObject(lo, count, frames);
      if safe { AddObjectSafe(pt.g.flat, root, nodes, n); }
      if agreed && NoPrivate(flat, root, lo, lo + pages) { CleanRegion(pt.g.flat, root, nodes, n, lo, pages); }
      if agreed && all { RegionAgreesIff(flat, pt.g.flat, root, nodes, n, lo, count, pages, frames); }
      if memory { nodes := [Node(addr, size, true)] + nodes; }
    }

    // A page fault in the stack: a zeroed page.
    method GrowStack(faultAddr: nat) returns (grown: bool)
      requires Ok()
      modifies pt
      ensures Ok() && pt.shm == old(pt.shm) && (old(ObjectsKept()) ==> ObjectsKept())
      ensures !(STACK_TOP - STACK_MAX_PAGES * PAGE_SIZE <= faultAddr < STACK_TOP) ==> !grown && pt.g.flat == old(pt.g.flat)
      ensures grown ==> SameBut(old(pt.g.flat), pt.g.flat, root, faultAddr / PAGE_SIZE, faultAddr / PAGE_SIZE + 1)
      ensures grown ==> Private(pt.g.flat, root, faultAddr / PAGE_SIZE)
      ensures !grown && STACK_TOP - STACK_MAX_PAGES * PAGE_SIZE <= faultAddr < STACK_TOP ==>
                pt.g.flat == old(pt.g.flat) && Valid(pt.pool) && Alloc(pt.pool).1 == 0
      ensures grown && old(FlagsAgree()) ==> (FlagsAgree() <==> !Covered(nodes, true, faultAddr / PAGE_SIZE))
    {
      hide Good, ListsOk, InUserHalf, Agrees, ObjectsSafe, Covered, SlotAt, Alloc, SameBut;
      if !(STACK_TOP - STACK_MAX_PAGES * PAGE_SIZE <= faultAddr < STACK_TOP) { return false; }
      grown := GrowPage(faultAddr / PAGE_SIZE);
    }

    method GrowPage(v: nat) returns (mapped: bool)
      requires Ok() && v < USER_PAGES
      modifies pt
      ensures Ok() && pt.shm == old(pt.shm) && (old(ObjectsKept()) ==> ObjectsKept())
      ensures !mapped ==> pt.g.flat == old(pt.g.flat) && Valid(pt.pool) && Alloc(pt.pool).1 == 0
      ensures mapped ==> SameBut(old(pt.g.flat), pt.g.flat, root, v, v + 1)
      ensures mapped ==> Private(pt.g.flat, root, v)
      ensures mapped && old(FlagsAgree()) ==> (FlagsAgree() <==> !Covered(nodes, true, v))
    {
      hide Good, ListsOk, InUserHalf, Agrees, ObjectsSafe, Covered, SlotAt, Alloc;
      ghost var f := pt.g.flat;
      mapped := MapPrivate(v);
      ghost var k := Alloc(old(pt.pool)).1;
      if mapped {
        assert pt.g.flat == f[SlotAt(root, v) := PageOf(false, k)];
        SameButOne(f, f, root, v, 0, PageOf(false, k));
        if ObjectsSafe(f, root, nodes) { MapPrivateSafe(f, root, nodes, v, k); }
        if Agrees(f, root, nodes) { MapAgreesIff(f, root, nodes, v, false, k); }
      }
    }

    // The pages of a region taken away, given back unless they are those of an object.
    method UnmapPages(lo: nat, n: nat, shmNode: bool)
      requires Ok() && lo + n <= USER_PAGES && OfKind(pt.g.flat, root, lo, lo + n, shmNode)
      modifies pt
      ensures Ok() && pt.shm == old(pt.shm) && SameBut(old(pt.g.flat), pt.g.flat, root, lo, lo + n)
      ensures forall v: nat :: lo <= v < lo + n ==> SlotAt(root, v) !in pt.g.flat
    {
      hide Good, ListsOk, InUserHalf, SlotAt;
      ghost var s := pt.g.flat;
      for i := 0 to n
        invariant Ok() && pt.shm == old(pt.shm) && SameBut(s, pt.g.flat, root, lo, lo + i)
        invariant forall v: nat :: lo <= v < lo + i ==> SlotAt(root, v) !in pt.g.flat
      {
        assert SamePage(s, pt.g.flat, root, lo + i);
        ghost var f := pt.g.flat;
        Unmap(lo + i, shmNode);
        SameButGone(s, f, root, lo, i);
      }
    }

    // sys_munmap of a task whose flags agree with its pages; without memory for a list node the region may be lost.
    method Munmap(addr: nat, memory: bool) returns (done: bool)
      requires Ok() && FlagsAgree()
      modifies this, pt
      ensures Ok() && FlagsAgree() && ObjectsKept() && pt.shm == old(pt.shm) && heapEnd == old(heapEnd)
      ensures done <==> NodeAt(old(nodes), addr) < |old(nodes)|
      ensures !done ==> nodes == old(nodes) && free == old(free) && pt.g.flat == old(pt.g.flat)
      ensures done ==> var j := NodeAt(old(nodes), addr); var n := old(nodes)[j];
                && nodes == Popped(old(nodes), j)
                && (forall v: nat :: Covers(n, v) ==> SlotAt(root, v) !in pt.g.flat)
                && (forall v: nat :: !Covers(n, v) ==> SamePage(old(pt.g.flat), pt.g.flat, root, v))
                && (n.size == 0 ==> free == old(free))
                && (n.size > 0 ==> exists k: nat :: PlaceFor(old(free), k, addr) && (free == FreeList.Put(old(free), k, Extent(n)) || (!memory && free == old(free))))
    {
      hide Good, ListsOk, InUserHalf, Agrees, ObjectsSafe, Covers, SlotAt, NodeAt, Popped, FreeList.Put, PlaceFor, SameBut, SamePage;
      ghost var f, m, flat := free, nodes, pt.g.flat;
      AgreesSafe(flat, root, nodes);
      var n;
      done, n := PopNode(addr);
      if !done { return; }
      ghost var j := NodeAt(m, addr);
      NodeOf(f, m, j);
      PoppedUser(f, m, j);
      ForgottenLists(f, m, j);
      PopAgrees(flat, root, m, j);
      var lo, pages := addr / PAGE_SIZE, n.size / PAGE_SIZE;
      NodePages(n, lo, pages);
      NodeKind(flat, root, m, j, lo, lo + pages);
      UnmapPages(lo, pages, n.shm);
      StillAgrees(flat, pt.g.flat, root, nodes, lo, lo + pages);
      OutsideSame(flat, pt.g.flat, root, n, lo, lo + pages);
      ghost var k := AddFree(Extent(n), memory);
      if n.size > 0 {
        GivenLists(f, m, j, k);
        GivenUser(f, m, j, k);
      }
    }

    // sys_sbrk by a positive amount.  The last page may be missing: when it gets a frame but no table, nobody notices.
    method Sbrk(incr: nat) returns (prev: int)
      requires Ok()
      modifies this, pt
      ensures Ok() && pt.shm == old(pt.shm) && free == old(free) && nodes == old(nodes) && (old(ObjectsKept()) ==> ObjectsKept())
      ensures SameBut(old(pt.g.flat), pt.g.flat, root, Aligned(old(heapEnd)) / PAGE_SIZE, Aligned(old(heapEnd) + incr) / PAGE_SIZE)
      ensures if prev == -1 then heapEnd == old(heapEnd) else prev == old(heapEnd) && heapEnd == old(heapEnd) + incr
      ensures prev == -1 ==> old(heapEnd) + incr > HEAP_LIMIT || (Valid(pt.pool) && Alloc(pt.pool).1 == 0)
      ensures prev != -1 ==> var lo, hi := Aligned(old(heapEnd)) / PAGE_SIZE, Aligned(old(heapEnd) + incr) / PAGE_SIZE;
                && (forall v: nat :: lo <= v < hi - 1 ==> Private(pt.g.flat, root, v))
                && (lo < hi ==> Private(pt.g.flat, root, hi - 1) || (Valid(pt.pool) && Alloc(pt.pool).1 == 0))
      ensures old(FlagsAgree()) && old(heapEnd) + incr <= MMAP_START && (forall i :: 0 <= i < |nodes| && nodes[i].shm ==> nodes[i].addr >= MMAP_START)
              ==> FlagsAgree()
    {
      hide Good, ListsOk, InUserHalf, Agrees, ObjectsSafe, Covered, SlotAt, Alloc, SameBut, Private, Valid;
      var next := heapEnd + incr;
      var lo, hi := Aligned(heapEnd) / PAGE_SIZE, Aligned(next) / PAGE_SIZE;
      ghost var f := pt.g.flat;
      SameButSelf(f, root, lo, hi);
      if next > HEAP_LIMIT { return -1; }
      HeapPages(heapEnd, next);
      ghost var fits := next <= MMAP_START && forall i :: 0 <= i < |nodes| && nodes[i].shm ==> nodes[i].addr >= MMAP_START;
      var v: nat := lo;
      while v < hi
        modifies pt
        invariant lo <= v && Ok() && pt.shm == old(pt.shm) && (ObjectsSafe(f, root, nodes) ==> ObjectsKept())
        invariant SameBut(f, pt.g.flat, root, lo, hi) && (fits && Agrees(f, root, nodes) ==> FlagsAgree())
        invariant v <= hi || lo == v
        invariant forall u: nat :: lo <= u < v - 1 ==> Private(pt.g.flat, root, u)
        invariant lo < v ==> Private(pt.g.flat, root, v - 1) || (Valid(pt.pool) && Alloc(pt.pool).1 == 0)
      {
        GoodInv(pt.Now());
        if Alloc(pt.pool).1 == 0 { return -1; }
        ghost var was := pt.g.flat;
        var mapped := GrowPage(v);
        SameButTrans(f, was, pt.g.flat, root, lo, hi, v);
        forall u: nat | lo <= u < v && Private(was, root, u) ensures Private(pt.g.flat, root, u) { PrivateStays(was, pt.g.flat, root, v, u); }
        if fits { HeapUncovered(nodes, v); }
        v := v + 1;
      }
      prev := heapEnd;
      heapEnd := next;
    }
  }

  ghost predicate Shows(flat: map<Slot, Entry>, r: nat, v: nat, f: nat) {
    SlotAt(r, v) in flat && flat[SlotAt(r, v)] == PageOf(true, f)
  }

  lemma SlotIs(r: nat, v: nat)
    ensures Slot(Descend(Top(r), PathOf(v)), v % 512) == SlotAt(r, v)
  {
  }

  lemma SharedFlat(s: World, w: World, k: Slot, f: nat)
    requires Moves(s, CopyOnWrite.MapShared(k, f), w) && Inv(s.View())
    ensures w.g.flat == s.g.flat[k := PageOf(true, f)]
  {
  }

  lemma PrivateFlat(s: World, w: World, k: Slot, f: nat)
    requires Moves(s, CopyOnWrite.MapPrivate(k, f, Blank()), w) && Inv(s.View())
    ensures w.g.flat == s.g.flat[k := PageOf(false, f)]
  {
  }

  lemma IdleFlat(s: World, w: World)
    requires Moves(s, Idle, w) && Inv(s.View())
    ensures w.g.flat == s.g.flat
  {
  }

  lemma LoseFlat(s: World, w: World, f: nat)
    requires Moves(s, Lose(f), w) && Inv(s.View())
    ensures w.g.flat == s.g.flat
  {
  }

  lemma UnmapFlat(s: World, w: World, k: Slot)
    requires Moves(s, CopyOnWrite.Unmap(k), w) && Inv(s.View())
    ensures w.g.flat == s.g.flat - {k}
  {
  }

  lemma NodePages(n: Node, lo: nat, pages: nat)
    requires Paged(Extent(n)) && lo == n.addr / PAGE_SIZE && pages == n.size / PAGE_SIZE && n.addr + n.size <= USER_PAGES * PAGE_SIZE
    ensures lo + pages <= USER_PAGES && forall v: nat :: Covers(n, v) <==> lo <= v < lo + pages
  {
    assert n.addr == lo * PAGE_SIZE && n.size == pages * PAGE_SIZE;
    forall v: nat ensures Covers(n, v) <==> lo <= v < lo + pages { PagesOf(n, v); }
  }

  lemma TakenUser(free: seq<Block>, nodes: seq<Node>, size: nat, shm: bool)
    requires ListsOk(free, nodes) && InUserHalf(free, nodes) && size % PAGE_SIZE == 0 && FirstFit(free, size) < |free|
    ensures var n := Node(free[FirstFit(free, size)].addr, size, shm);
            && InUserHalf(Taken(free, size), [n] + nodes) && InUserHalf(Taken(free, size), nodes)
            && Paged(Extent(n)) && n.addr + n.size <= USER_PAGES * PAGE_SIZE
  {
    hide NodesOk, Separate, Ordered;
    var i := FirstFit(free, size);
    var g := Taken(free, size);
    forall j | 0 <= j < |g| ensures End(g[j]) <= USER_PAGES * PAGE_SIZE {
      assert free[i].size <= size ==> g[j] == free[if j < i then j else j + 1];
    }
  }

  lemma ForgetHead(free: seq<Block>, nodes: seq<Node>, n: Node)
    requires ListsOk(free, [n] + nodes)
    ensures ListsOk(free, nodes)
  {
    ForgottenLists(free, [n] + nodes, 0);
    assert Popped([n] + nodes, 0) == nodes;
  }

  // No other region covers a page of the new one.
  lemma TakenUncovered(free: seq<Block>, nodes: seq<Node>, size: nat, shm: bool)
    requires ListsOk(free, nodes) && size % PAGE_SIZE == 0 && FirstFit(free, size) < |free|
    ensures var n := Node(free[FirstFit(free, size)].addr, size, shm);
            forall v: nat, b: bool :: Covers(n, v) ==> !Covered(nodes, b, v)
  {
    var n := Node(free[FirstFit(free, size)].addr, size, shm);
    TakenKeeps(free, size);
    hide Ordered, Taken, FirstFit, In, NodesOk, FreeOk;
    forall j, v: nat | 0 <= j < |nodes| && Covers(n, v) ensures !Covers(nodes[j], v) { PageHeld(free, nodes, n, j, v); }
  }

  lemma PageHeld(free: seq<Block>, nodes: seq<Node>, n: Node, j: nat, v: nat)
    requires Separate(free, nodes) && Inside(free, Extent(n)) && j < |nodes| && Covers(n, v)
    ensures !Covers(nodes[j], v)
  {
    hide In, InNodes;
    var x: nat := v * PAGE_SIZE;
    assert Holds(Extent(n), x);
    if Holds(Extent(nodes[j]), x) { HeldIn(nodes, j, x); }
    assert In(free, x) && !(In(free, x) && InNodes(nodes, x));
  }

  lemma HeldIn(nodes: seq<Node>, j: nat, x: nat)
    requires j < |nodes| && Holds(Extent(nodes[j]), x)
    ensures InNodes(nodes, x)
  {
  }

  // The new region agrees exactly when no private page lies behind the pages of the object.
  lemma RegionAgreesIff(flat: map<Slot, Entry>, to: map<Slot, Entry>, r: nat, nodes: seq<Node>, n: Node, lo: nat, k: nat, pages: nat, frames: seq<nat>)
    requires Agrees(to, r, nodes) && n.shm && k <= |frames| && k <= pages && SameBut(flat, to, r, lo, lo + k)
    requires forall v: nat :: Covers(n, v) <==> lo <= v < lo + pages
    requires forall j :: 0 <= j < k ==> Shows(to, r, lo + j, frames[j])
    ensures Agrees(to, r, [n] + nodes) <==> NoPrivate(flat, r, lo + k, lo + pages)
  {
    hide SlotAt, Agrees, Covers;
    AddAgreesIff(to, r, nodes, n);
    forall v: nat | lo <= v < lo + k ensures SlotAt(r, v) in to && to[SlotAt(r, v)].shared {
      assert Shows(to, r, lo + (v - lo), frames[v - lo]);
    }
    forall v: nat | lo + k <= v ensures SamePage(flat, to, r, v) { }
    if Agrees(to, r, [n] + nodes) {
      forall v: nat | lo + k <= v < lo + pages && SlotAt(r, v) in flat ensures flat[SlotAt(r, v)].shared {
        assert Covers(n, v) && SamePage(flat, to, r, v);
      }
    }
    if NoPrivate(flat, r, lo + k, lo + pages) {
      forall v: nat | Covers(n, v) && SlotAt(r, v) in to ensures to[SlotAt(r, v)].shared {
        if lo + k <= v { assert SamePage(flat, to, r, v); }
      }
    }
  }

  lemma CleanRegion(flat: map<Slot, Entry>, r: nat, nodes: seq<Node>, n: Node, lo: nat, pages: nat)
    requires Agrees(flat, r, nodes) && n.shm && NoPrivate(flat, r, lo, lo + pages)
    requires forall v: nat :: Covers(n, v) <==> lo <= v < lo + pages
    ensures Agrees(flat, r, [n] + nodes)
  {
    hide SlotAt, Agrees;
    AddAgreesIff(flat, r, nodes, n);
  }

  lemma FirstLists(free: seq<Block>, nodes: seq<Node>)
    requires free == [Block(MMAP_START, MMAP_SIZE)] && nodes == [Node(STACK_BASE, STACK_PAGES * PAGE_SIZE, false)]
    ensures ListsOk(free, nodes) && InUserHalf(free, nodes)
  {
  }

  ghost predicate OfKind(flat: map<Slot, Entry>, r: nat, lo: nat, hi: nat, shm: bool) {
    forall v: nat :: lo <= v < hi && SlotAt(r, v) in flat ==> flat[SlotAt(r, v)].shared == shm
  }

  lemma SameButGone(from: map<Slot, Entry>, to: map<Slot, Entry>, r: nat, lo: nat, i: nat)
    requires SameBut(from, to, r, lo, lo + i)
    ensures SameBut(from, to - {SlotAt(r, lo + i)}, r, lo, lo + i + 1)
  {
    hide SlotAt;
    var g := to - {SlotAt(r, lo + i)};
    forall v: nat | v < lo || lo + i + 1 <= v ensures SamePage(from, g, r, v) {
      assert SamePage(from, to, r, v);
      if SlotAt(r, v) == SlotAt(r, lo + i) { SlotsApart(r, v, r, lo + i); }
    }
  }

  lemma SameButSelf(flat: map<Slot, Entry>, r: nat, lo: nat, hi: nat)
    ensures SameBut(flat, flat, r, lo, hi)
  {
  }

  lemma PrivateStays(b: map<Slot, Entry>, c: map<Slot, Entry>, r: nat, v: nat, u: nat)
    requires Private(b, r, u) && u != v && (b == c || SameBut(b, c, r, v, v + 1))
    ensures Private(c, r, u)
  {
    hide SlotAt;
    if b != c { assert SamePage(b, c, r, u); }
  }

  lemma SameButTrans(a: map<Slot, Entry>, b: map<Slot, Entry>, c: map<Slot, Entry>, r: nat, lo: nat, hi: nat, v: nat)
    requires SameBut(a, b, r, lo, hi) && lo <= v < hi && (b == c || SameBut(b, c, r, v, v + 1))
    ensures SameBut(a, c, r, lo, hi)
  {
    hide SlotAt;
    forall u: nat | u < lo || hi <= u ensures SamePage(a, c, r, u) {
      assert SamePage(a, b, r, u);
      if b != c { assert SamePage(b, c, r, u); }
    }
  }

  lemma NodeOf(free: seq<Block>, nodes: seq<Node>, j: nat)
    requires ListsOk(free, nodes) && InUserHalf(free, nodes) && j < |nodes|
    ensures Paged(Extent(nodes[j])) && nodes[j].addr + nodes[j].size <= USER_PAGES * PAGE_SIZE
  {
  }

  lemma PoppedUser(free: seq<Block>, nodes: seq<Node>, j: nat)
    requires InUserHalf(free, nodes) && j < |nodes|
    ensures InUserHalf(free, Popped(nodes, j))
  {
    forall i | 0 <= i < |Popped(nodes, j)| ensures Popped(nodes, j)[i] in nodes { PoppedAt(nodes, j, i); }
  }

  lemma GivenUser(free: seq<Block>, nodes: seq<Node>, j: nat, k: nat)
    requires InUserHalf(free, nodes) && j < |nodes| && k <= |free|
    ensures InUserHalf(FreeList.Put(free, k, Extent(nodes[j])), Popped(nodes, j))
  {
    PoppedUser(free, nodes, j);
    var b := Extent(nodes[j]);
    var g := JoinNext(free, k, b);
    assert forall i :: 0 <= i < |g| ==> End(g[i]) <= USER_PAGES * PAGE_SIZE;
    var h := JoinPrev(g, k);
    assert forall i :: 0 <= i < |h| ==> End(h[i]) <= USER_PAGES * PAGE_SIZE;
  }

  lemma PopAgrees(flat: map<Slot, Entry>, r: nat, nodes: seq<Node>, j: nat)
    requires Agrees(flat, r, nodes) && j < |nodes|
    ensures Agrees(flat, r, Popped(nodes, j))
  {
    hide SlotAt, Popped;
    PoppedIn(nodes, j);
    FewerAgree(flat, flat, r, nodes, Popped(nodes, j));
  }

  lemma NodeKind(flat: map<Slot, Entry>, r: nat, nodes: seq<Node>, j: nat, lo: nat, hi: nat)
    requires Agrees(flat, r, nodes) && j < |nodes| && forall v: nat :: Covers(nodes[j], v) <==> lo <= v < hi
    ensures OfKind(flat, r, lo, hi, nodes[j].shm)
  {
    hide SlotAt, Covers;
    forall v: nat | lo <= v < hi && SlotAt(r, v) in flat ensures flat[SlotAt(r, v)].shared == nodes[j].shm { assert Covers(nodes[j], v); }
  }

  lemma StillAgrees(flat: map<Slot, Entry>, to: map<Slot, Entry>, r: nat, nodes: seq<Node>, lo: nat, hi: nat)
    requires Agrees(flat, r, nodes) && SameBut(flat, to, r, lo, hi) && forall v: nat :: lo <= v < hi ==> SlotAt(r, v) !in to
    ensures Agrees(to, r, nodes) && ObjectsSafe(to, r, nodes)
  {
    hide SlotAt, Agrees, ObjectsSafe;
    forall v: nat | SlotAt(r, v) in to ensures SlotAt(r, v) in flat && to[SlotAt(r, v)].shared == flat[SlotAt(r, v)].shared {
      assert SamePage(flat, to, r, v);
    }
    FewerAgree(flat, to, r, nodes, nodes);
    AgreesSafe(to, r, nodes);
  }

  lemma OutsideSame(flat: map<Slot, Entry>, to: map<Slot, Entry>, r: nat, n: Node, lo: nat, hi: nat)
    requires SameBut(flat, to, r, lo, hi) && forall v: nat :: Covers(n, v) <==> lo <= v < hi
    ensures forall v: nat :: !Covers(n, v) ==> SamePage(flat, to, r, v)
  {
    hide SamePage, Covers;
  }

  lemma HeapPages(from: nat, to: nat)
    requires from <= to <= HEAP_LIMIT
    ensures Aligned(from) / PAGE_SIZE <= Aligned(to) / PAGE_SIZE <= USER_PAGES
    ensures to <= MMAP_START ==> Aligned(to) / PAGE_SIZE * PAGE_SIZE <= MMAP_START
  {
  }

  lemma HeapUncovered(nodes: seq<Node>, v: nat)
    requires v * PAGE_SIZE < MMAP_START && forall i :: 0 <= i < |nodes| && nodes[i].shm ==> nodes[i].addr >= MMAP_START
    ensures !Covered(nodes, true, v)
  {
  }

  // A task that unmaps its stack and maps an object of one page over eight pages gets the object at the stack's
  // old place; its next stack page is then a private page in a region of an object, which munmap will not give back.
  method StackInObject(t: Task, frame: nat) returns (grown: bool)
    requires t.Ok() && t.FlagsAgree() && frame in t.pt.shm
    requires t.free == [Block(MMAP_START, MMAP_SIZE)] && t.nodes == [Node(STACK_BASE, STACK_PAGES * PAGE_SIZE, false)]
    modifies t, t.pt
    ensures t.Ok() && t.ObjectsKept()
    ensures grown ==> !t.FlagsAgree() && Private(t.pt.g.flat, t.root, STACK_TOP / PAGE_SIZE - 1) && Covered(t.nodes, true, STACK_TOP / PAGE_SIZE - 1)
    ensures !grown ==> Valid(t.pt.pool) && Alloc(t.pt.pool).1 == 0
  {
    hide Good, ListsOk, InUserHalf, Agrees, ObjectsSafe, SlotAt, SameBut, SamePage, Valid, NoPrivate, FreeList.Put, FirstFit, Taken, Popped;
    ghost var stack, area := Node(STACK_BASE, STACK_PAGES * PAGE_SIZE, false), t.free;
    StackPopped(stack);
    var gone := t.Munmap(STACK_BASE, true);
    StackFreed(area, stack);
    ghost var flat := t.pt.g.flat;
    StackClear(flat, t.root, stack);
    var addr, all, short := t.Mmap([frame], STACK_PAGES * PAGE_SIZE, true);
    StackCovered(t.nodes);
    grown := t.GrowStack(STACK_TOP - 1);
  }

  lemma StackPopped(stack: Node)
    requires stack.addr == STACK_BASE
    ensures NodeAt([stack], STACK_BASE) == 0 && Popped([stack], 0) == []
  {
  }

  // The stack region lies in front of the mmap area, so the first fit is there.
  lemma StackFreed(area: seq<Block>, stack: Node)
    requires area == [Block(MMAP_START, MMAP_SIZE)] && stack == Node(STACK_BASE, STACK_PAGES * PAGE_SIZE, false)
    ensures forall k: nat :: PlaceFor(area, k, STACK_BASE) ==>
              var f := FreeList.Put(area, k, Extent(stack)); FirstFit(f, Aligned(stack.size)) == 0 < |f| && f[0].addr == STACK_BASE
    ensures Aligned(stack.size) == stack.size
  {
    assert area[0].addr > STACK_BASE;
    forall k: nat | PlaceFor(area, k, STACK_BASE)
      ensures var f := FreeList.Put(area, k, Extent(stack)); FirstFit(f, Aligned(stack.size)) == 0 < |f| && f[0].addr == STACK_BASE
    {
      var f := FreeList.Put(area, 0, Extent(stack));
      assert f == [Extent(stack)] + area;
      FirstFitIs(f, Aligned(stack.size), 0);
    }
  }

  lemma StackClear(flat: map<Slot, Entry>, r: nat, stack: Node)
    requires stack == Node(STACK_BASE, STACK_PAGES * PAGE_SIZE, false) && forall v: nat :: Covers(stack, v) ==> SlotAt(r, v) !in flat
    ensures NoPrivate(flat, r, STACK_BASE / PAGE_SIZE, STACK_BASE / PAGE_SIZE + stack.size / PAGE_SIZE)
  {
    hide SlotAt;
    forall v: nat | STACK_BASE / PAGE_SIZE <= v < STACK_BASE / PAGE_SIZE + stack.size / PAGE_SIZE ensures SlotAt(r, v) !in flat {
      assert Covers(stack, v);
    }
  }

  lemma StackCovered(nodes: seq<Node>)
    requires |nodes| > 0 && nodes[0] == Node(STACK_BASE, STACK_PAGES * PAGE_SIZE, true)
    ensures Covered(nodes, true, (STACK_TOP - 1) / PAGE_SIZE)
  {
    assert Covers(nodes[0], (STACK_TOP - 1) / PAGE_SIZE);
  }
}
