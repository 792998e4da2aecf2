/**
 Whole runs of the pager, from boot on.

 `Kernel` keeps what the rest of the kernel knows about its address spaces, and performs any sequence of
 operations on the page tables; a call that its own caller would not make is skipped.  Each operation is one event
 of the copy-on-write machine, so the results about that machine hold of the page tables in memory, the reference
 counts and the frames themselves.
 */
module KernelRuns {
  import opened PageTypes
  import opened Frames
  import opened CopyOnWrite
  import opened FrameAccounts
  import opened PageTree
  import opened Worlds
  import opened Mapping
  import opened KernelHalf
  import opened FrameCounts
  import opened Pager

  datatype Op =
    | OpenSpace
    | ForkSpace(parent: nat)
    | CloseSpace(root: nat)
    | GrowPage(root: nat, path: seq<nat>, i: nat)  // stack growth, sbrk, loader
    | ShareFrame                                   // one page of shm_set_size
    | MapCommon(root: nat, path: seq<nat>, i: nat, frame: nat)
    | DropPage(root: nat, path: seq<nat>, i: nat, shmNode: bool)
    | StoreAt(root: nat, path: seq<nat>, i: nat, offset: nat, value: bv8)
    | KernelAlloc(path: seq<nat>, i: nat)
    | KernelFree(path: seq<nat>, i: nat)

  // ---------- Runs of the machine ----------

  ghost predicate IsRun(ws: seq<World>, evs: seq<Event>) {
    |ws| == |evs| + 1 && Inv(ws[0].View()) && forall i :: 0 <= i < |evs| ==> Moves(ws[i], evs[i], ws[i + 1])
  }

  // Whatever forks, stores, faults, mappings and exits happen, every address space reads what it would
  // read if fork had copied every private page at once.
  lemma {:induction false} PagerRefinesEager(ws: seq<World>, evs: seq<Event>)
    requires IsRun(ws, evs)
    ensures Runs(ws[0].View(), evs)
    ensures var (t, a) := RunBoth(ws[0].View(), Show(ws[0].View()), evs);
            t == ws[|evs|].View() && Inv(t) && Show(t) == a
    decreases |evs|
  {
    hide Inv;
    if evs != [] {
      var s := ws[0].View();
      assert Moves(ws[0], evs[0], ws[1]);
      StepSimulates(s, evs[0]);
      var tl := ws[1..];
      assert forall i :: 0 <= i < |evs[1..]| ==> tl[i] == ws[i + 1] && evs[1..][i] == evs[i + 1];
      forall i | 0 <= i < |evs[1..]| ensures Moves(tl[i], evs[1..][i], tl[i + 1]) {
        assert Moves(ws[i + 1], evs[i + 1], ws[i + 2]);
      }
      PagerRefinesEager(tl, evs[1..]);
    } else {
      LazyRefinesEager(ws[0].View(), []);
    }
  }

  // ---------- What holds of one state ----------

  // The count of a private page is the number of private entries that name it, over all address spaces, and a
  // page that may be written has exactly one.
  ghost predicate CountsExact(w: World) {
    forall k :: k in w.g.flat && !w.g.flat[k].shared ==> CountExact(w, k)
  }

  ghost predicate CountExact(w: World, k: Slot)
    requires k in w.g.flat
  {
    var f := w.g.flat[k].frame;
    && f < |w.pool.refs| && w.pool.refs[f] == |Holders(w.g.flat, f)|
    && (w.g.flat[k].writable ==> Holders(w.g.flat, f) == {k} && w.pool.refs[f] == 1)
  }

  lemma GoodCounts(w: World)
    requires Good(w)
    ensures CountsExact(w)
  {
    hide Good, Balanced;
    GoodInv(w);
    forall k | k in w.g.flat && !w.g.flat[k].shared ensures CountExact(w, k) {
      CountIsHolders(w.pool, w.tables.Keys, w.g.flat, w.others, k);
      assert EntryOk(w.View(), k);
    }
  }

  // ---------- One operation ----------

  predicate UserPathOk(path: seq<nat>, i: nat) {
    |path| == 3 && i < ENTRIES && path[0] < KERNEL_HALF && path[1] < ENTRIES && path[2] < ENTRIES
  }

  predicate KernelPathOk(path: seq<nat>, i: nat) {
    |path| == 3 && i < ENTRIES && KERNEL_HALF <= path[0] < ENTRIES && path[1] < ENTRIES && path[2] < ENTRIES
  }

  function SlotOf(root: nat, path: seq<nat>, i: nat): Slot {
    Slot(Descend(Top(root), path), i)
  }

  // Space r is a task's.
  ghost predicate IsTask(w: World, r: nat) {
    r != w.g.kern && Top(r) in w.g.ents
  }

  ghost predicate NoFrame(w: World) {
    Valid(w.pool) && Alloc(w.pool).1 == 0
  }

  // What the caller of an operation sees to: the address space is there, a shared frame is one of a shared-memory
  // object, and a region's flag agrees with the page.
  ghost predicate Legal(op: Op, s: World, heap: map<(seq<nat>, nat), nat>) {
    match op
    case OpenSpace => true
    case ForkSpace(p) => IsTask(s, p)
    case CloseSpace(r) => IsTask(s, r)
    case GrowPage(r, path, i) => IsTask(s, r) && UserPathOk(path, i)
    case ShareFrame => true
    case MapCommon(r, path, i, f) => IsTask(s, r) && UserPathOk(path, i) && f in s.shm
    case DropPage(r, path, i, shmNode) =>
      IsTask(s, r) && UserPathOk(path, i) && (SlotOf(r, path, i) in s.g.flat ==> s.g.flat[SlotOf(r, path, i)].shared == shmNode)
    case StoreAt(r, path, i, offset, _) => IsTask(s, r) && UserPathOk(path, i) && offset < PAGE_SIZE
    case KernelAlloc(path, i) => KernelPathOk(path, i) && Sees(s.g, Descend(Top(s.g.kern), path), i) == ABSENT
    case KernelFree(path, i) => (path, i) in heap
  }

  // The event an operation is: it succeeds, or fails for want of a frame - a fork exactly when fewer frames are free
  // than the parent has tables.
  ghost predicate EventOf(op: Op, s: World, ev: Event, w: World)
    requires Valid(s.pool) && Valid(w.pool)
  {
    match op
    case OpenSpace => ev == Idle && ((exists r :: OneMore(s.g, w.g, r)) || NoFrame(s))
    case ForkSpace(p) =>
      if FreeCount(s.pool) < TableCount(s.g, Top(p)) then ev.FailedFork?
      else ev.Fork? && ev.parent == p && OneMore(s.g, w.g, ev.child)
    case CloseSpace(r) => ev == Exit(r)
    case GrowPage(r, path, i) =>
      var f := Alloc(s.pool).1;
      ev == MapPrivate(SlotOf(r, path, i), f, Blank()) || (NoFrame(w) && ev == if f == 0 then Idle else Lose(f))
    case ShareFrame => var f := Alloc(s.pool).1; ev == if f == 0 then Idle else ShmPage(f)
    case MapCommon(r, path, i, f) => ev == MapShared(SlotOf(r, path, i), f) || (NoFrame(w) && ev == Idle)
    case DropPage(r, path, i, _) => ev == Unmap(SlotOf(r, path, i))
    case StoreAt(r, path, i, offset, b) => ev == Write(SlotOf(r, path, i), offset, b, Alloc(s.pool).1)
    case KernelAlloc(path, i) => ev == Idle && (NoFrame(w) || KernelMade(s, w, path, i))
    case KernelFree(path, i) => ev == Idle && KernelGone(s, w, path, i)
  }

  // The kernel page is mapped, or unmapped, in every address space, and every other kernel page is as before.
  ghost predicate KernelMade(s: World, w: World, path: seq<nat>, i: nat)
    requires Valid(s.pool)
  {
    var p := Descend(Top(s.g.kern), path);
    KernelBut(s.g, w.g, p, i) && Sees(w.g, p, i) == Entry(true, true, false, false, Alloc(s.pool).1)
  }

  ghost predicate KernelGone(s: World, w: World, path: seq<nat>, i: nat) {
    var p := Descend(Top(s.g.kern), path);
    KernelBut(s.g, w.g, p, i) && Sees(w.g, p, i) == ABSENT
  }

  predicate ForKernel(op: Op) {
    op.KernelAlloc? || op.KernelFree?
  }

  // An operation of a run: the event it is, and that only a kernel operation changes a kernel page.
  ghost predicate Performed(op: Op, heap: map<(seq<nat>, nat), nat>, s: World, ev: Event, w: World) {
    && Valid(s.pool) && Valid(w.pool) && Moves(s, ev, w)
    && (if Legal(op, s, heap) then EventOf(op, s, ev, w) else w == s && ev == Idle)
    && (!ForKernel(op) ==> KernelKept(s.g, w.g))
  }

  // ---------- The pages of the kernel's heap ----------

  // The page stands in the kernel half, and its frame is the kernel's alone.
  ghost predicate HeapPage(w: World, key: (seq<nat>, nat), f: nat) {
    && KernelPathOk(key.0, key.1)
    && Sees(w.g, Descend(Top(w.g.kern), key.0), key.1) == Entry(true, true, false, false, f)
    && LOW_FRAMES <= f && f in w.others && w.others[f] == 1 && f !in w.shm
  }

  ghost predicate HeapOk(w: World, heap: map<(seq<nat>, nat), nat>) {
    && (forall key :: key in heap ==> HeapPage(w, key, heap[key]))
    && (forall a, b :: a in heap && b in heap && a != b ==> heap[a] != heap[b])
  }

  // The kernel's frames are those of s, with f added or nothing.
  ghost predicate OthersGrew(s: World, w: World) {
    w.others == s.others || (Valid(s.pool) && Alloc(s.pool).1 != 0 && w.others == s.others[Alloc(s.pool).1 := 1])
  }

  lemma HeapStays(s: World, w: World, heap: map<(seq<nat>, nat), nat>)
    requires Good(s) && HeapOk(s, heap) && PagesKept(s.g, w.g) && OthersGrew(s, w)
    requires w.shm == s.shm || (Valid(s.pool) && Alloc(s.pool).1 != 0 && w.shm == s.shm + {Alloc(s.pool).1})
    ensures HeapOk(w, heap)
  {
    hide Good, Sees, Alloc;
    forall key | key in heap ensures HeapPage(w, key, heap[key]) {
      assert HeapPage(s, key, heap[key]);
      KernelPathLeaf(s.g.kern, key.0);
      if Valid(s.pool) && Alloc(s.pool).1 != 0 { SpareNotKept(s); }
    }
  }

  lemma PathsDiffer(kern: nat, a: (seq<nat>, nat), b: (seq<nat>, nat))
    requires |a.0| == |b.0| == 3 && a != b
    ensures !(Descend(Top(kern), a.0) == Descend(Top(kern), b.0) && a.1 == b.1)
  {
    PathLeaf(kern, a.0);
    PathLeaf(kern, b.0);
    if Descend(Top(kern), a.0) == Descend(Top(kern), b.0) {
      assert a.0 == [a.0[0], a.0[1], a.0[2]] && b.0 == [b.0[0], b.0[1], b.0[2]];
      assert a.0 == b.0;
    }
  }

  lemma HeapButKey(s: World, w: World, heap: map<(seq<nat>, nat), nat>, key: (seq<nat>, nat))
    requires HeapOk(s, heap) && KernelPathOk(key.0, key.1) && KernelBut(s.g, w.g, Descend(Top(s.g.kern), key.0), key.1)
    requires w.shm == s.shm && w.g.kern == s.g.kern
    requires forall k :: k in heap && k != key ==> heap[k] in w.others && w.others[heap[k]] == 1
    ensures HeapOk(w, heap - {key})
  {
    hide Sees;
    forall k | k in heap - {key} ensures HeapPage(w, k, heap[k]) {
      assert HeapPage(s, k, heap[k]);
      KernelPathLeaf(s.g.kern, k.0);
      PathsDiffer(s.g.kern, k, key);
    }
  }

  lemma HeapAdded(s: World, w: World, heap: map<(seq<nat>, nat), nat>, key: (seq<nat>, nat), f: nat)
    requires HeapOk(s, heap) && KernelPathOk(key.0, key.1) && KernelBut(s.g, w.g, Descend(Top(s.g.kern), key.0), key.1)
    requires w.shm == s.shm && w.g.kern == s.g.kern && f !in s.others && w.others == s.others[f := 1]
    requires HeapPage(w, key, f)
    ensures HeapOk(w, heap[key := f])
  {
    hide HeapPage, KernelBut;
    HeapFrames(s, heap);
    HeapButKey(s, w, heap, key);
    var to := heap[key := f];
    forall k | k in to ensures HeapPage(w, k, to[k]) {
      if k != key { assert k in heap - {key}; }
    }
  }

  lemma HeapFrames(s: World, heap: map<(seq<nat>, nat), nat>)
    requires HeapOk(s, heap)
    ensures forall k :: k in heap ==> heap[k] in s.others && s.others[heap[k]] == 1
  {
    forall k | k in heap ensures heap[k] in s.others && s.others[heap[k]] == 1 { assert HeapPage(s, k, heap[k]); }
  }

  lemma HeapAt(s: World, heap: map<(seq<nat>, nat), nat>, key: (seq<nat>, nat))
    requires HeapOk(s, heap) && key in heap
    ensures KernelPathOk(key.0, key.1) && heap[key] != 0 && KernelOwned(s, heap[key])
    ensures Sees(s.g, Descend(Top(s.g.kern), key.0), key.1) == Entry(true, true, false, false, heap[key])
  {
    hide Sees;
    assert HeapPage(s, key, heap[key]);
  }

  lemma HeapFreed(s: World, w: World, heap: map<(seq<nat>, nat), nat>, key: (seq<nat>, nat))
    requires HeapOk(s, heap) && key in heap && KernelBut(s.g, w.g, Descend(Top(s.g.kern), key.0), key.1)
    requires w.shm == s.shm && w.g.kern == s.g.kern && w.others == Given(s.others, heap[key])
    ensures HeapOk(w, heap - {key})
  {
    HeapAt(s, heap, key);
    HeapFrames(s, heap);
    assert forall k :: k in heap && k != key ==> heap[k] != heap[key];
    hide HeapPage, KernelBut, Sees;
    HeapButKey(s, w, heap, key);
  }

  // ---------- The kernel ----------

  class Kernel {
    const pt: PageTables
    var spaces: set<nat>                     // the PML4s of the tasks
    var common: set<nat>                     // the frames of shared-memory objects
    var heap: map<(seq<nat>, nat), nat>      // the pages vmm_alloc_global has handed out

    ghost predicate SpacesKnown()
      reads this, pt
    {
      pt.kern !in spaces && forall r :: Top(r) in pt.g.ents <==> r == pt.kern || r in spaces
    }

    ghost predicate Ok()
      reads this, pt
    {
      pt.Ready() && pt.KernelTablesMade() && SpacesKnown() && common == pt.shm && HeapOk(pt.Now(), heap)
    }

    // After vmm_init, if there were frames enough for the kernel's tables.
    constructor (tables: PageTables)
      requires tables.Ready() && tables.KernelTablesMade() && tables.shm == {}
      requires forall r :: Top(r) in tables.g.ents <==> r == tables.kern
      ensures Ok() && pt == tables && spaces == {} && heap == map[]
    {
      pt, spaces, common, heap := tables, {}, {}, map[];
    }

    // The page's flag agrees with that of the region, or there is no page.
    method FlagAgrees(root: nat, path: seq<nat>, i: nat, shmNode: bool) returns (ok: bool)
      requires Ok() && root in spaces && UserPathOk(path, i)
      modifies pt
      ensures Ok() && pt.Now() == old(pt.Now())
      ensures ok <==> (SlotOf(root, path, i) in pt.g.flat ==> pt.g.flat[SlotOf(root, path, i)].shared == shmNode)
    {
      hide Good, HeapOk, Descend;
      var present, entry := pt.PageEntry(root, path, i);
      ok := !present || entry.shared == shmNode;
    }

    method Open() returns (ghost ev: Event)
      requires Ok()
      modifies this, pt
      ensures Ok() && Performed(OpenSpace, old(heap), old(pt.Now()), ev, pt.Now())
    {
      hide Good, HeapOk, Moves, KernelKept, Opened, NoFrame;
      ghost var s := pt.Now();
      GoodInv(s);
      var r := pt.NewSpace();
      ev := Idle;
      OpenedHere(s, pt.Now(), r);
      KeepTables(s.g, pt.g);
      if r != 0 { spaces := spaces + {r}; }
      HeapStays(s, pt.Now(), heap);
      GoodInv(pt.Now());
    }

    method Fork(parent: nat) returns (ghost ev: Event)
      requires Ok()
      modifies this, pt
      ensures Ok() && Performed(ForkSpace(parent), old(heap), old(pt.Now()), ev, pt.Now())
    {
      hide Good, HeapOk, KernelKept, Moves, OneMore, SameSpaces, Inv, FreeCount, TableCount;
      ghost var s := pt.Now();
      GoodInv(s);
      ev := Idle;
      if parent !in spaces {
        Skip(s);
        return;
      }
      var child := pt.CopyHierarchy(parent);
      ghost var w := pt.Now();
      GoodInv(w);
      if child == 0 {
        ghost var ks :| Moves(s, FailedFork(ks), w);
        ev := FailedFork(ks);
        SpacesSame(s.g, w.g);
      } else {
        ev := Event.Fork(parent, child);
        SpacesMore(s.g, w.g, child);
        spaces := spaces + {child};
      }
      KeepShm(s, ev, w);
      KeepTables(s.g, w.g);
      HeapStays(s, w, heap);
    }

    method Close(root: nat) returns (ghost ev: Event)
      requires Ok()
      modifies this, pt
      ensures Ok() && Performed(CloseSpace(root), old(heap), old(pt.Now()), ev, pt.Now())
    {
      hide Good, HeapOk, KernelKept, Moves, Inv;
      ghost var s := pt.Now();
      GoodInv(s);
      ev := Idle;
      if root !in spaces {
        Skip(s);
        return;
      }
      pt.DestroySpace(root);
      ev := Exit(root);
      spaces := spaces - {root};
      KeepShm(s, ev, pt.Now());
      KeepTables(s.g, pt.g);
      HeapStays(s, pt.Now(), heap);
      GoodInv(pt.Now());
    }

    method Grow(root: nat, path: seq<nat>, i: nat) returns (ghost ev: Event)
      requires Ok()
      modifies this, pt
      ensures Ok() && Performed(GrowPage(root, path, i), old(heap), old(pt.Now()), ev, pt.Now())
    {
      hide Good, HeapOk, KernelKept, Moves, SameSpaces, Descend;
      ghost var s := pt.Now();
      GoodInv(s);
      ev := Idle;
      if root !in spaces || !UserPathOk(path, i) {
        Skip(s);
        return;
      }
      var mapped := pt.MapFresh(root, path, i);
      ghost var f := Alloc(s.pool).1;
      ev := if mapped then MapPrivate(SlotOf(root, path, i), f, Blank()) else if f == 0 then Idle else Lose(f);
      SpacesSame(s.g, pt.g);
      KeepTables(s.g, pt.g);
      HeapStays(s, pt.Now(), heap);
    }

    method Share() returns (ghost ev: Event)
      requires Ok()
      modifies this, pt
      ensures Ok() && Performed(ShareFrame, old(heap), old(pt.Now()), ev, pt.Now())
    {
      hide Good, HeapOk, KernelKept, Moves, SameSpaces;
      ghost var s := pt.Now();
      GoodInv(s);
      var f := pt.TakeSharedFrame();
      ev := if f == 0 then Idle else ShmPage(f);
      if f != 0 { common := common + {f}; }
      IdleMoves(s);
      SpacesSame(s.g, pt.g);
      KeepTables(s.g, pt.g);
      HeapStays(s, pt.Now(), heap);
      GoodInv(pt.Now());
    }

    method MapShm(root: nat, path: seq<nat>, i: nat, frame: nat) returns (ghost ev: Event)
      requires Ok()
      modifies this, pt
      ensures Ok() && Performed(MapCommon(root, path, i, frame), old(heap), old(pt.Now()), ev, pt.Now())
    {
      hide Good, HeapOk, KernelKept, Moves, SameSpaces, Descend;
      ghost var s := pt.Now();
      GoodInv(s);
      ev := Idle;
      if root !in spaces || !UserPathOk(path, i) || frame !in common {
        Skip(s);
        return;
      }
      var mapped := pt.MapSharedPage(root, path, i, frame);
      ev := if mapped then MapShared(SlotOf(root, path, i), frame) else Idle;
      SpacesSame(s.g, pt.g);
      KeepTables(s.g, pt.g);
      HeapStays(s, pt.Now(), heap);
      GoodInv(pt.Now());
    }

    method Drop(root: nat, path: seq<nat>, i: nat, shmNode: bool) returns (ghost ev: Event)
      requires Ok()
      modifies this, pt
      ensures Ok() && Performed(DropPage(root, path, i, shmNode), old(heap), old(pt.Now()), ev, pt.Now())
    {
      hide Good, HeapOk, KernelKept, Moves, SameSpaces, Descend;
      ghost var s := pt.Now();
      GoodInv(s);
      ev := Idle;
      if root !in spaces || !UserPathOk(path, i) {
        Skip(s);
        return;
      }
      var agrees := FlagAgrees(root, path, i, shmNode);
      if !agrees {
        Skip(s);
        return;
      }
      pt.UnmapPage(root, path, i, shmNode);
      ev := Unmap(SlotOf(root, path, i));
      SpacesSame(s.g, pt.g);
      KeepTables(s.g, pt.g);
      HeapStays(s, pt.Now(), heap);
      GoodInv(pt.Now());
    }

    method Store(root: nat, path: seq<nat>, i: nat, offset: nat, b: bv8) returns (ghost ev: Event)
      requires Ok()
      modifies this, pt
      ensures Ok() && Performed(StoreAt(root, path, i, offset, b), old(heap), old(pt.Now()), ev, pt.Now())
    {
      hide Good, HeapOk, KernelKept, Moves, SameSpaces, Descend, EagerLoad, Show, CopyOnWrite.Step, Inv;
      ghost var s := pt.Now();
      GoodInv(s);
      ev := Idle;
      if root !in spaces || !UserPathOk(path, i) || offset >= PAGE_SIZE {
        Skip(s);
        return;
      }
      var done := pt.StoreByte(root, path, i, offset, b);
      ev := Write(SlotOf(root, path, i), offset, b, Alloc(s.pool).1);
      SpacesSame(s.g, pt.g);
      KeepTables(s.g, pt.g);
      HeapStays(s, pt.Now(), heap);
      GoodInv(pt.Now());
    }

    method AllocPage(path: seq<nat>, i: nat) returns (ghost ev: Event)
      requires Ok()
      modifies this, pt
      ensures Ok() && Performed(KernelAlloc(path, i), old(heap), old(pt.Now()), ev, pt.Now())
    {
      hide Good, HeapOk, TopKept, PagesKept, KernelBut, Moves, SameSpaces, Descend, Sees, TablesMade, HeapPage;
      ghost var s := pt.Now();
      GoodInv(s);
      ev := Idle;
      IdleMoves(s);
      if !KernelPathOk(path, i) { return; }
      var free := pt.KernelFreeAt(path, i);
      if !free { return; }
      var f := pt.AllocKernelPage(path, i);
      ghost var w := pt.Now();
      SpacesSame(s.g, w.g);
      if f != 0 {
        assert HeapPage(w, (path, i), f) by { NewHeapPage(w, path, i, f); }
        HeapAdded(s, w, heap, (path, i), f);
        heap := heap[(path, i) := f];
      } else {
        HeapStays(s, w, heap);
      }
    }

    method FreePage(path: seq<nat>, i: nat) returns (ghost ev: Event)
      requires Ok()
      modifies this, pt
      ensures Ok() && Performed(KernelFree(path, i), old(heap), old(pt.Now()), ev, pt.Now())
    {
      hide Good, TopKept, KernelBut, Moves, SameSpaces, Descend, Sees, TablesMade, HeapOk, Inv, Valid, KernelOwned, Given;
      ghost var s := pt.Now();
      GoodInv(s);
      ev := Idle;
      IdleMoves(s);
      if (path, i) !in heap { return; }
      HeapAt(s, heap, (path, i));
      pt.FreeKernelPage(path, i);
      ghost var w := pt.Now();
      GoodInv(w);
      SpacesSame(s.g, w.g);
      TablesStayMade(s.g, w.g);
      HeapFreed(s, w, heap, (path, i));
      heap := heap - {(path, i)};
    }

    method Perform(op: Op) returns (ghost ev: Event)
      requires Ok()
      modifies this, pt
      ensures Ok() && Performed(op, old(heap), old(pt.Now()), ev, pt.Now())
    {
      hide Ok, Performed;
      match op
      case OpenSpace => ev := Open();
      case ForkSpace(p) => ev := Fork(p);
      case CloseSpace(r) => ev := Close(r);
      case GrowPage(r, path, i) => ev := Grow(r, path, i);
      case ShareFrame => ev := Share();
      case MapCommon(r, path, i, f) => ev := MapShm(r, path, i, f);
      case DropPage(r, path, i, shmNode) => ev := Drop(r, path, i, shmNode);
      case StoreAt(r, path, i, offset, b) => ev := Store(r, path, i, offset, b);
      case KernelAlloc(path, i) => ev := AllocPage(path, i);
      case KernelFree(path, i) => ev := FreePage(path, i);
    }
  }

  // A call that is not made.
  lemma Skip(s: World)
    requires Good(s)
    ensures Moves(s, Idle, s) && KernelKept(s.g, s.g)
  {
    KernelKeptSelf(s);
  }

  lemma SpacesSame(g: Layout, h: Layout)
    requires SameSpaces(g, h)
    ensures forall r :: Top(r) in h.ents <==> Top(r) in g.ents
  {
  }

  lemma SpacesMore(g: Layout, h: Layout, c: nat)
    requires OneMore(g, h, c)
    ensures c != g.kern && forall r :: Top(r) in h.ents <==> Top(r) in g.ents || r == c
  {
  }

  lemma KeepShm(s: World, ev: Event, w: World)
    requires Moves(s, ev, w) && Inv(s.View()) && !ev.ShmPage?
    ensures w.shm == s.shm
  {
  }

  lemma NewHeapPage(w: World, path: seq<nat>, i: nat, f: nat)
    requires KernelPathOk(path, i) && Sees(w.g, Descend(Top(w.g.kern), path), i) == Entry(true, true, false, false, f)
    requires LOW_FRAMES <= f && f in w.others && w.others[f] == 1 && f !in w.shm
    ensures HeapPage(w, (path, i), f)
  {
  }

  lemma KeepTables(g: Layout, h: Layout)
    requires KernelKept(g, h)
    ensures TablesMade(g) <==> TablesMade(h)
    ensures PagesKept(g, h) && g.kern == h.kern
  {
  }

  lemma OpenedHere(s: World, w: World, r: nat)
    requires Valid(s.pool)
    requires if r == 0 then w == s && Alloc(s.pool).1 == 0 else Opened(s, w, r) && OneMore(s.g, w.g, r)
    ensures w.others == s.others && w.shm == s.shm
    ensures (exists r :: OneMore(s.g, w.g, r)) || NoFrame(s)
    ensures if r == 0 then w == s else forall q :: Top(q) in w.g.ents <==> Top(q) in s.g.ents || q == r
  {
  }

  // ---------- From boot on ----------

  // The states of a run, with what vmm_alloc_global has handed out in each; every state is sound and its counts
  // are exact, and every operation is the event it should be.
  ghost predicate History(ops: seq<Op>, ws: seq<World>, evs: seq<Event>, heaps: seq<map<(seq<nat>, nat), nat>>) {
    && |ws| == |heaps| == |ops| + 1 && |evs| == |ops|
    && (forall i :: 0 <= i <= |ops| ==> AtRest(ws[i]) && CountsExact(ws[i]))
    && (forall i :: 0 <= i < |ops| ==> Performed(ops[i], heaps[i], ws[i], evs[i], ws[i + 1]))
  }

  lemma HistoryOn(ops: seq<Op>, n: nat, ws: seq<World>, evs: seq<Event>, heaps: seq<map<(seq<nat>, nat), nat>>,
                  ev: Event, w: World, heap: map<(seq<nat>, nat), nat>)
    requires n < |ops| && History(ops[..n], ws, evs, heaps) && Performed(ops[n], heaps[n], ws[n], ev, w)
    requires AtRest(w) && CountsExact(w)
    ensures History(ops[..n + 1], ws + [w], evs + [ev], heaps + [heap])
  {
    hide AtRest, CountsExact, Performed;
    assert ops[..n + 1] == ops[..n] + [ops[n]];
    var us, es, hs := ws + [w], evs + [ev], heaps + [heap];
    forall i | 0 <= i < n + 1 ensures Performed(ops[..n + 1][i], hs[i], us[i], es[i], us[i + 1]) {
      if i < n { assert Performed(ops[..n][i], heaps[i], ws[i], evs[i], ws[i + 1]); }
    }
  }

  lemma HistoryIsRun(ops: seq<Op>, ws: seq<World>, evs: seq<Event>, heaps: seq<map<(seq<nat>, nat), nat>>)
    requires History(ops, ws, evs, heaps)
    ensures IsRun(ws, evs)
  {
    hide Good, Moves, Inv;
    GoodInv(ws[0]);
    forall i | 0 <= i < |evs| ensures Moves(ws[i], evs[i], ws[i + 1]) {
      assert Performed(ops[i], heaps[i], ws[i], evs[i], ws[i + 1]);
    }
  }

  lemma BootShows(w: World)
    requires Inv(w.View()) && w.g.flat == map[] && w.shm == {}
    ensures Show(w.View()) == Eager(map[], map[])
  {
  }

  // vmm_init and any sequence of operations: in every state counts are exact, and at the end every address space
  // reads what eager copying would have given it.  The run does not start when vmm_init runs out of frames.
  method Run(pt: PageTables, ops: seq<Op>)
    returns (booted: bool, ghost ws: seq<World>, ghost evs: seq<Event>, ghost heaps: seq<map<(seq<nat>, nat), nat>>)
    requires pt.Ready() && pt.g.flat == map[] && pt.shm == {} && forall r :: Top(r) in pt.g.ents <==> r == pt.kern
    modifies pt
    ensures !booted ==> |ws| == 1 && NoFrame(ws[0])
    ensures booted ==> History(ops, ws, evs, heaps) && heaps[0] == map[] && ws[|ops|] == pt.Now() && Runs(ws[0].View(), evs)
    ensures booted ==> var (t, a) := RunBoth(ws[0].View(), Eager(map[], map[]), evs);
                       t == ws[|ops|].View() && Inv(t) && Show(t) == a
  {
    hide Good, Moves, Inv, PagesKept, SameSpaces, HeapOk, Performed, NoFrame;
    ghost var s := pt.Now();
    GoodInv(s);
    pt.MakeKernelTables();
    KeepView(s, pt.Now());
    SpacesSame(s.g, pt.g);
    ws, evs, heaps := [pt.Now()], [], [map[]];
    booted := pt.AllTablesThere();
    if !booted {
      assert NoFrame(ws[0]) by { GoodInv(pt.Now()); NoFrameHere(pt.Now()); }
      return;
    }
    HeapNone(pt.Now());
    var k := new Kernel(pt);
    GoodCounts(pt.Now());
    HistoryNone(pt.Now());
    for n := 0 to |ops|
      invariant k.Ok() && fresh(k) && k.pt == pt
      invariant History(ops[..n], ws, evs, heaps) && ws[n] == pt.Now() && heaps[n] == k.heap && heaps[0] == map[]
      invariant ws[0].g.flat == map[] && ws[0].shm == {}
    {
      ghost var ev := k.Perform(ops[n]);
      GoodCounts(pt.Now());
      HistoryOn(ops, n, ws, evs, heaps, ev, pt.Now(), k.heap);
      ws, evs, heaps := ws + [pt.Now()], evs + [ev], heaps + [k.heap];
    }
    assert ops[..|ops|] == ops;
    HistoryIsRun(ops, ws, evs, heaps);
    BootShows(ws[0]);
    PagerRefinesEager(ws, evs);
  }

  // The same from a boot with one empty PML4.
  method BootAndRun(root: nat, frames: Pool, contents: seq<Page>, ops: seq<Op>)
    returns (booted: bool, ghost ws: seq<World>, ghost evs: seq<Event>, ghost heaps: seq<map<(seq<nat>, nat), nat>>)
    requires Valid(frames) && LOW_FRAMES <= root < |frames.used| == |contents|
    requires frames.used[root] && frames.refs[root] == 1
    ensures !booted ==> |ws| == 1 && NoFrame(ws[0])
    ensures booted ==> History(ops, ws, evs, heaps) && heaps[0] == map[] && Runs(ws[0].View(), evs)
    ensures booted ==> var (t, a) := RunBoth(ws[0].View(), Eager(map[], map[]), evs);
                       t == ws[|ops|].View() && Inv(t) && Show(t) == a
  {
    hide Good, Inv, History, Runs, RunBoth, NoFrame;
    var pt := new PageTables(root, frames, contents);
    booted, ws, evs, heaps := Run(pt, ops);
  }

  lemma KeepView(s: World, w: World)
    requires Moves(s, Idle, w) && Inv(s.View())
    ensures w.View() == s.View()
  {
  }

  lemma NoFrameHere(w: World)
    requires Valid(w.pool) && Alloc(w.pool).1 == 0
    ensures NoFrame(w)
  {
  }

  lemma HeapNone(w: World)
    ensures HeapOk(w, map[])
  {
  }

  lemma HistoryNone(w: World)
    requires AtRest(w) && CountsExact(w)
    ensures History([], [w], [], [map[]])
  {
  }
}
