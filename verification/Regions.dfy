/**
 The virtual regions of a task, as values (src/mem/vmm.c, src/arch/syscall.c): the free regions of its mmap area,
 the list of regions that are mapped, and whether the flags of that list agree with the pages.
 */
module Regions {
  import opened PageTypes
  import opened CopyOnWrite
  import opened PageTree
  import opened FreeList

  const STACK_TOP: nat := 0x1000000
  const STACK_PAGES: nat := 8
  const STACK_MAX_PAGES: nat := 16
  const STACK_BASE: nat := 0xFF8000  // STACK_TOP less STACK_PAGES pages
  const HEAP_START: nat := 0x20000000
  const MMAP_START: nat := 0x40000000
  const MMAP_SIZE: nat := 0x40000000
  const HEAP_LIMIT: nat := 0x8000000000
  const USER_PAGES: nat := 0x8_0000_0000  // pages of the lower half

  // VmAllocatedList: the flag says that the region shows a shared-memory object.
  datatype Node = Node(addr: nat, size: nat, shm: bool)

  function Extent(n: Node): Block {
    Block(n.addr, n.size)
  }

  // ---------- Pages and slots ----------

  function PathOf(v: nat): seq<nat> {
    [v / 512 / 512 / 512, v / 512 / 512 % 512, v / 512 % 512]
  }

  function SlotAt(r: nat, v: nat): Slot {
    Slot(Descend(Top(r), PathOf(v)), v % 512)
  }

  lemma PathBack(v: nat, u: nat)
    requires PathOf(v) == PathOf(u) && v % 512 == u % 512
    ensures v == u
  {
    assert PathOf(v)[0] == PathOf(u)[0] && PathOf(v)[1] == PathOf(u)[1] && PathOf(v)[2] == PathOf(u)[2];
  }

  // Different pages have different slots.
  lemma SlotsApart(r: nat, v: nat, q: nat, u: nat)
    requires SlotAt(r, v) == SlotAt(q, u)
    ensures r == q && v == u
  {
    ThreeDown(r, PathOf(v));
    ThreeDown(q, PathOf(u));
    var a, b := PathOf(v), PathOf(u);
    assert a == [a[0], a[1], a[2]] && b == [b[0], b[1], b[2]];
    PathBack(v, u);
  }

  lemma ThreeDown(r: nat, path: seq<nat>)
    requires |path| == 3
    ensures Descend(Top(r), path) == Kid(Kid(Kid(Top(r), path[0]), path[1]), path[2])
  {
    assert path[1..][1..] == [path[2]];
    assert Descend(Kid(Kid(Top(r), path[0]), path[1]), [path[2]]) == Kid(Kid(Kid(Top(r), path[0]), path[1]), path[2]);
  }

  lemma UserPageOk(v: nat)
    requires v < USER_PAGES
    ensures |PathOf(v)| == 3 && PathOf(v)[0] < KERNEL_HALF && PathOf(v)[1] < ENTRIES && PathOf(v)[2] < ENTRIES && v % 512 < ENTRIES
  {
  }

  // The page v lies in the region.
  predicate Covers(n: Node, v: nat) {
    n.addr <= v * PAGE_SIZE < n.addr + n.size
  }

  // ---------- Flags and pages ----------

  // A page of a region is there only if it is of the region's kind: shared in a region of a shared-memory
  // object, private in another.
  ghost predicate Agrees(flat: map<Slot, Entry>, r: nat, nodes: seq<Node>) {
    forall j, v: nat :: 0 <= j < |nodes| && Covers(nodes[j], v) && SlotAt(r, v) in flat ==>
      flat[SlotAt(r, v)].shared == nodes[j].shm
  }

  ghost predicate Covered(nodes: seq<Node>, shm: bool, v: nat) {
    exists j :: 0 <= j < |nodes| && nodes[j].shm == shm && Covers(nodes[j], v)
  }

  function PageOf(shared: bool, f: nat): Entry {
    Entry(true, true, true, shared, f)
  }

  // Mapping a page keeps the agreement exactly when no region of the other kind covers it.
  lemma MapAgreesIff(flat: map<Slot, Entry>, r: nat, nodes: seq<Node>, v: nat, shared: bool, f: nat)
    requires Agrees(flat, r, nodes)
    ensures Agrees(flat[SlotAt(r, v) := PageOf(shared, f)], r, nodes) <==> !Covered(nodes, !shared, v)
  {
    hide SlotAt;
    var to := flat[SlotAt(r, v) := PageOf(shared, f)];
    if Covered(nodes, !shared, v) {
      var j :| 0 <= j < |nodes| && nodes[j].shm == !shared && Covers(nodes[j], v);
      assert Covers(nodes[j], v) && SlotAt(r, v) in to && to[SlotAt(r, v)].shared != nodes[j].shm;
    } else {
      forall j, u: nat | 0 <= j < |nodes| && Covers(nodes[j], u) && SlotAt(r, u) in to
        ensures to[SlotAt(r, u)].shared == nodes[j].shm
      {
        if SlotAt(r, u) == SlotAt(r, v) { SlotsApart(r, u, r, v); }
      }
    }
  }

  // Half of the agreement: no page of a shared-memory object lies in a region whose pages are given back.
  ghost predicate ObjectsSafe(flat: map<Slot, Entry>, r: nat, nodes: seq<Node>) {
    forall j, v: nat :: 0 <= j < |nodes| && !nodes[j].shm && Covers(nodes[j], v) && SlotAt(r, v) in flat ==> !flat[SlotAt(r, v)].shared
  }

  lemma AgreesSafe(flat: map<Slot, Entry>, r: nat, nodes: seq<Node>)
    requires Agrees(flat, r, nodes)
    ensures ObjectsSafe(flat, r, nodes)
  {
  }

  // A private page never breaks that half.
  lemma MapPrivateSafe(flat: map<Slot, Entry>, r: nat, nodes: seq<Node>, v: nat, f: nat)
    requires ObjectsSafe(flat, r, nodes)
    ensures ObjectsSafe(flat[SlotAt(r, v) := PageOf(false, f)], r, nodes)
  {
    hide SlotAt;
  }

  lemma MapSharedSafe(flat: map<Slot, Entry>, r: nat, nodes: seq<Node>, v: nat, f: nat)
    requires ObjectsSafe(flat, r, nodes) && !Covered(nodes, false, v)
    ensures ObjectsSafe(flat[SlotAt(r, v) := PageOf(true, f)], r, nodes)
  {
    hide SlotAt;
    var to := flat[SlotAt(r, v) := PageOf(true, f)];
    forall j, u: nat | 0 <= j < |nodes| && !nodes[j].shm && Covers(nodes[j], u) && SlotAt(r, u) in to
      ensures !to[SlotAt(r, u)].shared
    {
      if SlotAt(r, u) == SlotAt(r, v) { SlotsApart(r, u, r, v); }
    }
  }

  lemma AddObjectSafe(flat: map<Slot, Entry>, r: nat, nodes: seq<Node>, n: Node)
    requires ObjectsSafe(flat, r, nodes) && n.shm
    ensures ObjectsSafe(flat, r, [n] + nodes)
  {
    hide SlotAt;
    var to := [n] + nodes;
    forall j, v: nat | 0 <= j < |to| && !to[j].shm && Covers(to[j], v) && SlotAt(r, v) in flat ensures !flat[SlotAt(r, v)].shared {
      assert to[j] == nodes[j - 1];
    }
  }

  // A page of another address space has no say.
  lemma MapElsewhere(flat: map<Slot, Entry>, r: nat, nodes: seq<Node>, q: nat, v: nat, e: Entry)
    requires Agrees(flat, r, nodes) && q != r
    ensures Agrees(flat[SlotAt(q, v) := e], r, nodes)
  {
    hide SlotAt;
    var to := flat[SlotAt(q, v) := e];
    forall j, u: nat | 0 <= j < |nodes| && Covers(nodes[j], u) && SlotAt(r, u) in to
      ensures to[SlotAt(r, u)].shared == nodes[j].shm
    {
      if SlotAt(r, u) == SlotAt(q, v) { SlotsApart(r, u, q, v); }
    }
  }

  // A new region agrees exactly when no page of the other kind lies in it.
  lemma AddAgreesIff(flat: map<Slot, Entry>, r: nat, nodes: seq<Node>, n: Node)
    requires Agrees(flat, r, nodes)
    ensures Agrees(flat, r, [n] + nodes) <==>
            forall v: nat :: Covers(n, v) && SlotAt(r, v) in flat ==> flat[SlotAt(r, v)].shared == n.shm
  {
    hide SlotAt;
    var to := [n] + nodes;
    if forall v: nat :: Covers(n, v) && SlotAt(r, v) in flat ==> flat[SlotAt(r, v)].shared == n.shm {
      forall j, v: nat | 0 <= j < |to| && Covers(to[j], v) && SlotAt(r, v) in flat
        ensures flat[SlotAt(r, v)].shared == to[j].shm
      {
        if j > 0 { assert to[j] == nodes[j - 1]; }
      }
    }
    if Agrees(flat, r, to) {
      forall v: nat | Covers(n, v) && SlotAt(r, v) in flat ensures flat[SlotAt(r, v)].shared == n.shm {
        assert to[0] == n && Covers(to[0], v);
      }
    }
  }

  // Fewer pages and fewer regions agree as well.
  lemma FewerAgree(flat: map<Slot, Entry>, to: map<Slot, Entry>, r: nat, nodes: seq<Node>, rest: seq<Node>)
    requires Agrees(flat, r, nodes) && (forall n :: n in rest ==> n in nodes)
    requires forall v: nat :: SlotAt(r, v) in to ==> SlotAt(r, v) in flat && to[SlotAt(r, v)].shared == flat[SlotAt(r, v)].shared
    ensures Agrees(to, r, rest)
  {
    hide SlotAt;
    forall j, v: nat | 0 <= j < |rest| && Covers(rest[j], v) && SlotAt(r, v) in to ensures to[SlotAt(r, v)].shared == rest[j].shm {
      assert rest[j] in nodes;
      var i :| 0 <= i < |nodes| && nodes[i] == rest[j];
      assert Covers(nodes[i], v);
    }
  }

  // The same of the safe half: taking away pages and regions, as munmap does, never breaks it, whatever the flags.
  lemma FewerSafe(flat: map<Slot, Entry>, to: map<Slot, Entry>, r: nat, nodes: seq<Node>, rest: seq<Node>)
    requires ObjectsSafe(flat, r, nodes) && (forall n :: n in rest ==> n in nodes)
    requires forall v: nat :: SlotAt(r, v) in to ==> SlotAt(r, v) in flat && to[SlotAt(r, v)].shared == flat[SlotAt(r, v)].shared
    ensures ObjectsSafe(to, r, rest)
  {
    hide SlotAt;
    forall j, v: nat | 0 <= j < |rest| && !rest[j].shm && Covers(rest[j], v) && SlotAt(r, v) in to ensures !to[SlotAt(r, v)].shared {
      assert rest[j] in nodes;
      var i :| 0 <= i < |nodes| && nodes[i] == rest[j];
      assert Covers(nodes[i], v);
    }
  }

  // A child starts out with the parent's pages and regions, so it agrees where the parent did.
  lemma ForkAgrees(flat: map<Slot, Entry>, p: nat, c: nat, nodes: seq<Node>)
    requires Agrees(flat, p, nodes) && p != c && forall k :: k in flat ==> k.Space() != c
    ensures Agrees(ForkMaps(flat, p, c), c, nodes) && Agrees(ForkMaps(flat, p, c), p, nodes)
  {
    hide ForkMaps;
    var to := ForkMaps(flat, p, c);
    forall j, v: nat | 0 <= j < |nodes| && Covers(nodes[j], v)
      ensures SlotAt(c, v) in to ==> to[SlotAt(c, v)].shared == nodes[j].shm
      ensures SlotAt(p, v) in to ==> to[SlotAt(p, v)].shared == nodes[j].shm
    {
      ForkEntry(flat, p, c, SlotAt(c, v));
      ForkEntry(flat, p, c, SlotAt(p, v));
      TwinSlot(p, c, v);
    }
  }

  lemma TwinSlot(p: nat, c: nat, v: nat)
    ensures SlotAt(c, v).Reroot(p) == SlotAt(p, v) && SlotAt(c, v).Space() == c && SlotAt(p, v).Space() == p
  {
    var path := PathOf(v);
    ThreeDown(p, path);
    ThreeDown(c, path);
    var a := Kid(Kid(Top(c), path[0]), path[1]);
    assert a.Reroot(p) == Kid(Kid(Top(p), path[0]), path[1]);
    assert Kid(a, path[2]).Reroot(p) == Kid(a.Reroot(p), path[2]);
    assert a.Root() == c && Kid(a, path[2]).Root() == c;
    assert Kid(Kid(Top(p), path[0]), path[1]).Root() == p;
  }

  // ---------- The two lists ----------

  function Aligned(size: nat): nat {
    (size + PAGE_SIZE - 1) / PAGE_SIZE * PAGE_SIZE
  }

  predicate Paged(b: Block) {
    b.addr % PAGE_SIZE == 0 && b.size % PAGE_SIZE == 0
  }

  ghost predicate InNodes(nodes: seq<Node>, x: nat) {
    exists j :: 0 <= j < |nodes| && Holds(Extent(nodes[j]), x)
  }

  // Free regions are in order, no address is in two mapped regions, and none is both mapped and free.
  ghost predicate ListsOk(free: seq<Block>, nodes: seq<Node>) {
    FreeOk(free) && NodesOk(nodes) && Separate(free, nodes)
  }

  ghost predicate FreeOk(free: seq<Block>) {
    Ordered(free) && forall i :: 0 <= i < |free| ==> Paged(free[i])
  }

  ghost predicate NodesOk(nodes: seq<Node>) {
    && (forall j :: 0 <= j < |nodes| ==> Paged(Extent(nodes[j])) && nodes[j].addr > 0)
    && (forall i, j :: 0 <= i < j < |nodes| ==> Apart(nodes[i], nodes[j]))
  }

  ghost predicate Separate(free: seq<Block>, nodes: seq<Node>) {
    forall x: nat :: !(In(free, x) && InNodes(nodes, x))
  }

  predicate Apart(a: Node, b: Node) {
    a.addr + a.size <= b.addr || b.addr + b.size <= a.addr || a.size == 0 || b.size == 0
  }

  // find_free_addr: the free list without the first `size` bytes of its first block with room.
  function Taken(free: seq<Block>, size: nat): seq<Block>
    requires FirstFit(free, size) < |free|
  {
    var i := FirstFit(free, size);
    if free[i].size > size then free[i := Block(free[i].addr + size, free[i].size - size)] else FreeList.Without(free, i)
  }

  lemma TakenKeeps(free: seq<Block>, size: nat)
    requires Ordered(free) && (forall i :: 0 <= i < |free| ==> Paged(free[i])) && size % PAGE_SIZE == 0
    requires FirstFit(free, size) < |free|
    ensures var b := Block(free[FirstFit(free, size)].addr, size);
            && Ordered(Taken(free, size)) && (forall i :: 0 <= i < |Taken(free, size)| ==> Paged(Taken(free, size)[i]))
            && Moved(free, Taken(free, size), b) && Inside(free, b) && b.addr % PAGE_SIZE == 0 && b.addr > 0
  {
    hide Ordered, Moved, Inside, FreeList.Without;
    var i := FirstFit(free, size);
    var f, b := free[i], Block(free[i].addr, size);
    SoundBlock(free, i);
    BlockBytes(free, i, b);
    if f.size > size {
      ShrinkKeeps(free, i, size);
    } else {
      assert b == f;
      WithoutKeeps(free, i);
      WholeMoved(free, i);
      WithoutPaged(free, i);
    }
  }

  lemma SoundBlock(free: seq<Block>, i: nat)
    requires Ordered(free) && i < |free|
    ensures Sound(free[i])
  {
  }

  lemma WithoutPaged(free: seq<Block>, i: nat)
    requires i < |free| && forall j :: 0 <= j < |free| ==> Paged(free[j])
    ensures forall j :: 0 <= j < |FreeList.Without(free, i)| ==> Paged(FreeList.Without(free, i)[j])
  {
    var g := FreeList.Without(free, i);
    forall j | 0 <= j < |g| ensures Paged(g[j]) { assert g[j] == free[if j < i then j else j + 1]; }
  }

  // Whole pages cut off, and put together.
  lemma PagedCut(b: Block, size: nat)
    requires Paged(b) && Sound(b) && size % PAGE_SIZE == 0 && b.size > size
    ensures Paged(Block(b.addr + size, b.size - size)) && Sound(Block(b.addr + size, b.size - size))
  {
    var p, q, r := b.addr / PAGE_SIZE, b.size / PAGE_SIZE, size / PAGE_SIZE;
    assert b.addr + size == PAGE_SIZE * (p + r) && b.size - size == PAGE_SIZE * (q - r);
    Multiple(b.addr + size);
    Multiple(b.size - size);
  }

  lemma PagedJoin(a: Block, b: Block)
    requires Paged(a) && Paged(b)
    ensures Paged(Block(a.addr, a.size + b.size))
  {
    var p, q := a.size / PAGE_SIZE, b.size / PAGE_SIZE;
    assert a.size + b.size == PAGE_SIZE * (p + q);
  }

  lemma ShrinkKeeps(free: seq<Block>, i: nat, size: nat)
    requires Ordered(free) && i < |free| && Paged(free[i]) && size % PAGE_SIZE == 0 && free[i].size > size
    ensures var g := free[i := Block(free[i].addr + size, free[i].size - size)];
            Ordered(g) && Moved(free, g, Block(free[i].addr, size)) && Paged(g[i])
  {
    var r := Block(free[i].addr + size, free[i].size - size);
    SoundBlock(free, i);
    PagedCut(free[i], size);
    hide Paged, Sound;
    ShrinkOrdered(free, i, r, size);
  }

  lemma ShrinkOrdered(free: seq<Block>, i: nat, r: Block, size: nat)
    requires Ordered(free) && i < |free| && size <= free[i].size && Sound(r) && r == Block(free[i].addr + size, free[i].size - size)
    ensures Ordered(free[i := r]) && Moved(free, free[i := r], Block(free[i].addr, size))
  {
    hide Sound;
    var g, b := free[i := r], Block(free[i].addr, size);
    assert End(r) == End(free[i]);
    forall x: nat ensures In(g, x) <==> In(free, x) && !Holds(b, x) {
      if In(g, x) {
        var j :| 0 <= j < |g| && Holds(g[j], x);
        assert Holds(free[j], x);
        if j < i { assert End(free[j]) < free[i].addr; }
        if i < j { assert End(free[i]) < free[j].addr; }
      }
      if In(free, x) && !Holds(b, x) {
        var j :| 0 <= j < |free| && Holds(free[j], x);
        assert Holds(g[j], x);
      }
    }
  }

  // A region taken from the free list overlaps no region that is mapped.
  lemma TakenLists(free: seq<Block>, nodes: seq<Node>, size: nat, shm: bool)
    requires ListsOk(free, nodes) && size % PAGE_SIZE == 0 && FirstFit(free, size) < |free|
    ensures var n := Node(free[FirstFit(free, size)].addr, size, shm); ListsOk(Taken(free, size), [n] + nodes)
  {
    TakenKeeps(free, size);
    var n := Node(free[FirstFit(free, size)].addr, size, shm);
    hide Ordered, Taken, FirstFit, In, InNodes;
    AddedNode(free, nodes, n);
    AddedSeparate(free, Taken(free, size), nodes, n);
  }

  lemma AddedNode(free: seq<Block>, nodes: seq<Node>, n: Node)
    requires NodesOk(nodes) && Separate(free, nodes) && Inside(free, Extent(n)) && Paged(Extent(n)) && n.addr > 0
    ensures NodesOk([n] + nodes)
  {
    hide Paged, In, InNodes;
    forall j | 0 <= j < |nodes| ensures Apart(n, nodes[j]) { RegionApart(free, nodes, Extent(n), n, j); }
  }

  lemma AddedSeparate(free: seq<Block>, g: seq<Block>, nodes: seq<Node>, n: Node)
    requires Separate(free, nodes) && Moved(free, g, Extent(n))
    ensures Separate(g, [n] + nodes)
  {
    hide In;
    var to := [n] + nodes;
    forall x: nat ensures !(In(g, x) && InNodes(to, x)) {
      assert In(g, x) <==> In(free, x) && !Holds(Extent(n), x);
      if InNodes(to, x) && !Holds(Extent(n), x) {
        var j :| 0 <= j < |to| && Holds(Extent(to[j]), x);
        assert to[j] == nodes[j - 1];
        assert InNodes(nodes, x);
      }
    }
  }

  lemma RegionApart(free: seq<Block>, nodes: seq<Node>, b: Block, n: Node, j: nat)
    requires (forall x: nat :: !(In(free, x) && InNodes(nodes, x))) && Inside(free, b) && b == Extent(n) && j < |nodes|
    ensures Apart(n, nodes[j])
  {
    hide In;
    var e := Extent(nodes[j]);
    var x := if b.addr < e.addr then e.addr else b.addr;
    assert Holds(b, x) ==> In(free, x);
    assert Holds(e, x) ==> InNodes(nodes, x);
    assert !(In(free, x) && InNodes(nodes, x));
  }

  // The first region at the address, or the length.
  function NodeAt(nodes: seq<Node>, addr: nat): (j: nat)
    ensures j <= |nodes| && (j < |nodes| ==> nodes[j].addr == addr) && forall i :: 0 <= i < j ==> nodes[i].addr != addr
  {
    if nodes == [] then 0 else if nodes[0].addr == addr then 0 else 1 + NodeAt(nodes[1..], addr)
  }

  lemma NodeAtIs(nodes: seq<Node>, addr: nat, j: nat)
    requires j <= |nodes| && (j < |nodes| ==> nodes[j].addr == addr) && forall i :: 0 <= i < j ==> nodes[i].addr != addr
    ensures NodeAt(nodes, addr) == j
  {
  }

  function Popped(nodes: seq<Node>, j: nat): seq<Node>
    requires j < |nodes|
  {
    nodes[..j] + nodes[j + 1..]
  }

  lemma PoppedAt(nodes: seq<Node>, j: nat, i: nat)
    requires j < |nodes| && i < |nodes| - 1
    ensures Popped(nodes, j)[i] == nodes[if i < j then i else i + 1]
  {
  }

  lemma PoppedIn(nodes: seq<Node>, j: nat)
    requires j < |nodes|
    ensures forall n :: n in Popped(nodes, j) ==> n in nodes
  {
  }

  // The place of a block among the free ones.
  ghost predicate PlaceFor(free: seq<Block>, k: nat, addr: nat) {
    k <= |free| && (forall i :: 0 <= i < k ==> free[i].addr < addr) && (k < |free| ==> free[k].addr >= addr)
  }

  // A region given back.
  lemma GivenLists(free: seq<Block>, nodes: seq<Node>, j: nat, k: nat)
    requires ListsOk(free, nodes) && j < |nodes| && nodes[j].size > 0 && PlaceFor(free, k, nodes[j].addr)
    ensures ListsOk(Put(free, k, Extent(nodes[j])), Popped(nodes, j))
  {
    hide Ordered, Put, In, Between, Popped, InNodes, NodesOk;
    var b, rest := Extent(nodes[j]), Popped(nodes, j);
    NodeSound(nodes, j);
    NodeBetween(free, nodes, j, k);
    PutKeeps(free, k, b);
    PutPaged(free, k, b);
    ForgottenLists(free, nodes, j);
    forall x: nat ensures !(In(Put(free, k, b), x) && InNodes(rest, x)) {
      if Holds(b, x) { OnlyHere(free, nodes, j, x); }
      assert !(In(free, x) && InNodes(rest, x));
    }
  }

  lemma NodeSound(nodes: seq<Node>, j: nat)
    requires NodesOk(nodes) && j < |nodes| && nodes[j].size > 0
    ensures Sound(Extent(nodes[j])) && Paged(Extent(nodes[j]))
  {
    var n := nodes[j];
    assert Paged(Extent(n)) && n.addr > 0;
    hide NodesOk;
    Multiple(n.addr);
    Multiple(n.size);
  }

  lemma Multiple(x: nat)
    requires x % PAGE_SIZE == 0
    ensures x % 16 == 0 && (x > 0 ==> x >= PAGE_SIZE)
  {
    var q := x / PAGE_SIZE;
    assert x == 16 * (256 * q);
  }

  // An address of a region is in no other region.
  lemma OnlyHere(free: seq<Block>, nodes: seq<Node>, j: nat, x: nat)
    requires ListsOk(free, nodes) && j < |nodes| && Holds(Extent(nodes[j]), x)
    ensures !InNodes(Popped(nodes, j), x)
  {
    hide Ordered, In;
    var rest := Popped(nodes, j);
    forall i | 0 <= i < |rest| ensures !Holds(Extent(rest[i]), x) {
      PoppedAt(nodes, j, i);
      var h := if i < j then i else i + 1;
      assert if h < j then Apart(nodes[h], nodes[j]) else Apart(nodes[j], nodes[h]);
    }
  }

  // A region of no size is forgotten.
  lemma ForgottenLists(free: seq<Block>, nodes: seq<Node>, j: nat)
    requires ListsOk(free, nodes) && j < |nodes|
    ensures ListsOk(free, Popped(nodes, j))
  {
    hide Ordered, In;
    var rest := Popped(nodes, j);
    forall i, h | 0 <= i < h < |rest| ensures Apart(rest[i], rest[h]) {
      PoppedAt(nodes, j, i);
      PoppedAt(nodes, j, h);
    }
    forall i | 0 <= i < |rest| ensures Paged(Extent(rest[i])) && rest[i].addr > 0 { PoppedAt(nodes, j, i); }
    forall x: nat ensures InNodes(rest, x) ==> InNodes(nodes, x) {
      if InNodes(rest, x) {
        var i :| 0 <= i < |rest| && Holds(Extent(rest[i]), x);
        PoppedAt(nodes, j, i);
      }
    }
  }

  lemma NodeBetween(free: seq<Block>, nodes: seq<Node>, j: nat, k: nat)
    requires ListsOk(free, nodes) && j < |nodes| && nodes[j].size > 0 && PlaceFor(free, k, nodes[j].addr)
    ensures Between(free, k, Extent(nodes[j]))
  {
    var b := Extent(nodes[j]);
    forall i | 0 <= i < |free| ensures if i < k then End(free[i]) <= b.addr else End(b) <= free[i].addr {
      assert Sound(free[i]);
      if i > k { assert End(free[k]) < free[i].addr; }
      var x := if free[i].addr < b.addr then b.addr else free[i].addr;
      assert Holds(free[i], x) ==> In(free, x);
      assert Holds(b, x) ==> InNodes(nodes, x);
      assert !(In(free, x) && InNodes(nodes, x));
    }
  }

  lemma PutPaged(free: seq<Block>, k: nat, b: Block)
    requires k <= |free| && (forall i :: 0 <= i < |free| ==> Paged(free[i])) && Paged(b)
    ensures forall i :: 0 <= i < |Put(free, k, b)| ==> Paged(Put(free, k, b)[i])
  {
    hide Paged;
    var g := JoinNext(free, k, b);
    if k < |free| { PagedJoin(b, free[k]); }
    assert forall i :: 0 <= i < |g| ==> Paged(g[i]);
    if k > 0 { PagedJoin(g[k - 1], g[k]); }
  }
}
