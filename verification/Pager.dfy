/**
 The page-table operations of src/mem/vmm.c, working on tables in memory.
 */
module Pager {
  import opened PageTypes
  import opened Frames
  import opened CopyOnWrite
  import opened FrameAccounts
  import opened PageTree
  import opened PageTeardown
  import opened Worlds
  import opened Teardown
  import opened PageFork
  import opened Forking
  import opened Mapping
  import opened KernelHalf
  import opened FrameCounts
  import opened ByteLaws

  class PageTables {
    const kern: nat  // kern_pml4
    var tables: map<nat, seq<Entry>>
    var data: seq<Page>
    var pool: Pool

    ghost var g: Layout
    ghost var cut: map<Pos, nat>
    ghost var others: map<nat, nat>
    ghost var shm: set<nat>

    ghost function Now(): World
      reads this
    {
      World(tables, data, pool, g, cut, others, shm)
    }

    // Between operations: nothing is half built or half torn down.
    ghost predicate Ready()
      reads this
    {
      Good(Now()) && g.kern == kern && g.loose == {} && Uncut(Now())
    }

    // After boot: the kernel's PML4, with nothing mapped in it yet.
    constructor (root: nat, frames: Pool, contents: seq<Page>)
      requires Valid(frames) && LOW_FRAMES <= root < |frames.used| == |contents|
      requires frames.used[root] && frames.refs[root] == 1
      ensures Ready() && kern == root && pool == frames && data == contents
      ensures g.flat == map[] && g.ents.Keys == {Top(root)} && shm == {}
    {
      kern, tables, data, pool := root, map[root := Empty()], contents, frames;
      g, cut := FirstLayout(root), map[];
      others, shm := FramesBut(frames, root), {};
      new;
      BootGood(root, frames, contents);
    }

    // After boot with the tables that the loader has made for the kernel: any tables of 4 KiB pages whose frames
    // the kernel keeps.
    constructor FromLoader(root: nat, made: map<nat, seq<Entry>>, frames: Pool, contents: seq<Page>,
                           ghost layout: Layout, ghost kept: map<nat, nat>)
      requires AtRest(World(made, contents, frames, layout, map[], kept, {}))
      requires layout.kern == root && layout.flat == map[] && forall r :: Top(r) in layout.ents ==> r == root
      ensures Ready() && kern == root && pool == frames && data == contents && tables == made
      ensures g == layout && others == kept && shm == {}
    {
      kern, tables, data, pool := root, made, contents, frames;
      g, cut := layout, map[];
      others, shm := kept, {};
    }

    // ---------- vmm_free_table ----------

    // One entry of a dying table: release a private page, or tear down the table below.
    method FreeEntry(f: nat, level: nat, i: nat, ghost p: Pos, ghost a: World)
      requires Good(a) && Removable(a, p) && p in a.g.node && a.g.node[p] == f
      requires Good(Now()) && Trimming(a, Now(), p, i)
      requires p.Depth() + level == 4 && i < Limit(p)
      modifies this
      ensures Good(Now()) && Trimming(a, Now(), p, i + 1)
      decreases level, 0
    {
      hide Good, Removable, Trimming, Freed, Leaf;
      ghost var w := Now();
      GoodBasic(w);
      Quiet(a, w, p, i);
      CutBound(a, w, p, i);
      ReadEntry(w, p, i);
      LevelOf(w, p, level);
      var entry := tables[f][i];
      if !entry.present {
        Skip(a, w, p, i);
      } else if level == 1 {
        DropOne(a, w, p, i);
        if !entry.shared {
          pool := Release(pool, entry.frame);
        }
        g, cut := SetLeaf(g, p, i, ABSENT), cut[p := i + 1];
        assert Now() == DropPage(w, p, i);
      } else {
        BeforeKid(a, w, p, i);
        g, cut := Unlink(g, p, i), cut[p := i + 1];
        assert Now() == Detach(w, p, i);
        FreeTable(entry.frame, level - 1, Kid(p, i));
        AfterKid(a, w, Now(), p, i);
      }
    }

    // vmm_free_table.
    method FreeTable(f: nat, level: nat, ghost p: Pos)
      requires Good(Now()) && Removable(Now(), p) && p in g.node && g.node[p] == f
      requires p.Depth() + level == 4
      modifies this
      ensures Good(Now()) && Freed(old(Now()), Now(), p)
      decreases level, 1
    {
      hide Good, Removable, Trimming, Freed;
      ghost var a := Now();
      Start(a, p);
      for i := 0 to ENTRIES
        invariant Good(Now())
        invariant Trimming(a, Now(), p, if i < Limit(p) then i else Limit(p))
      {
        if level == 4 && i >= KERNEL_HALF {
          continue;
        }
        FreeEntry(f, level, i, p, a);
      }
      ghost var w := Now();
      GoodBasic(w);
      Quiet(a, w, p, Limit(p));
      Finish(a, w, p);
      pool := Release(pool, f);
      tables := tables - {f};
      g, cut := RemoveTable(g, p), cut - {p};
      assert Now() == Remove(w, p);
    }

    // ---------- vmm_copy_hierarchy ----------

    // One entry of the table being copied: the table below it, or a page.
    method CopyEntry(f: nat, child: nat, level: nat, i: nat, ghost a: Pos, ghost b: Pos, ghost s: World)
      returns (ok: bool)
      requires Good(s) && Uncut(s) && Apart(s.g, a, b) && a in s.g.node && s.g.node[a] == f
      requires Good(Now()) && Copying(s, Now(), a, b, i) && b in g.node && g.node[b] == child
      requires a.Depth() + level == 4 && i < Limit(a) && Paid(s, Now(), a, i)
      modifies this
      ensures Good(Now())
      ensures ok ==> Copying(s, Now(), a, b, i + 1) && b in g.node && g.node[b] == child && Paid(s, Now(), a, i + 1)
      ensures !ok ==> GaveUp(old(Now()), Now()) && Short(s, a)
      decreases level, 0
    {
      hide Good, Apart, Copied, CopiedAll, Leaf, UserLeaf, Paid, Short, Spent;
      ghost var w := Now();
      GoodParts(s);
      GoodParts(w);
      Untouched(s.g, g, a, b, i);
      UncutAt(s, w, a);
      ReadEntry(w, a, i);
      LevelOf(s, a, level);
      var entry := tables[f][i];
      assert entry == s.g.ents[a][i] == g.ents[a][i];
      if !entry.present {
        SkipEntry(s, w, a, b, i);
        PaidSkip(s, w, w, a, b, i);
        return true;
      }
      if level > 1 {
        BeforeCopy(s, w, a, b, i);
        KidDepth(a, i, level);
        var kid := CopyTable(entry.frame, level - 1, Kid(a, i), Kid(b, i));
        if kid == 0 {
          ShortKid(s, w, a, b, i);
          return false;
        }
        ghost var u := Now();
        LinkTo(w, child, i, entry.(frame := kid), a, b, s);
        PaidKid(s, w, u, Now(), a, b, i);
      } else {
        CopyPageEntry(f, child, i, a, b, s);
        PaidSkip(s, w, Now(), a, b, i);
      }
      return true;
    }

    // child_tbl_virt[i] = child_phys | flags.
    method LinkTo(ghost w: World, child: nat, i: nat, e: Entry, ghost a: Pos, ghost b: Pos, ghost s: World)
      requires Good(s) && Good(Now()) && Apart(s.g, a, b) && Copying(s, w, a, b, i) && !Leaf(a)
      requires i < Limit(a) && a in s.g.ents && i < |s.g.ents[a]| && SameFlags(s.g.ents[a][i], e) && e.present
      requires CopyMade(w, Now(), Kid(a, i), Kid(b, i)) && Kid(b, i) in g.node && e.frame == g.node[Kid(b, i)]
      requires b in w.g.node && w.g.node[b] == child
      modifies this
      ensures Good(Now()) && Copying(s, Now(), a, b, i + 1) && b in g.node && g.node[b] == child && pool == old(pool)
    {
      hide Good, Apart, Copied, CopiedAll, Leaf, Shaped, Stored, Sound, Sized, Named, Rooted, Flattened;
      ghost var u := Now();
      GoodParts(u);
      CopyKern(s.g, w.g, a, b, i);
      CopiedNodes(w.g, u.g, Kid(a, i), Kid(b, i));
      AfterCopy(s, w, u, a, b, i, e);
      tables := tables[child := tables[child][i := e]];
      g := Link(g, b, i, e);
      assert Now() == Attach(u, b, i, e);
    }

    // Takes the writable bit of a private page.
    method FadeEntry(f: nat, i: nat, entry: Entry, ghost a: Pos)
      requires Good(Now()) && a in g.ents && UserLeaf(a) && i < ENTRIES && i < |g.ents[a]|
      requires entry == g.ents[a][i] && entry.present && a in g.node && g.node[a] == f
      modifies this
      ensures Good(Now()) && Sized(old(g).ents) && g == SetLeaf(old(g), a, i, Demote(entry))
      ensures SameRest(old(Now()), Now()) && cut == old(cut) && pool == old(pool)
    {
      hide Good, Apart, Copied, Leaf, UserLeaf, Shaped, Sized, Named, Rooted, Flattened, Stored, Sound, SetLeaf;
      hide Uncut, SameCut, Retain, Valid;
      ghost var w := Now();
      GoodParts(w);
      if !entry.shared {
        FadePage(w, a, i, entry);
        tables := tables[f := tables[f][i := Demote(entry)]];
        g := SetLeaf(g, a, i, Demote(entry));
        assert Now() == Put(w, a, i, Demote(entry));
      } else {
        SetLeafSame(g, a, i);
      }
    }

    // Repeats an entry in the child's table and counts the reference to a private page.
    method RepeatEntry(child: nat, i: nat, entry: Entry, ghost a: Pos, ghost b: Pos)
      requires Good(Now()) && a in g.ents && UserLeaf(a) && b in g.ents && UserLeaf(b) && i < ENTRIES
      requires i < |g.ents[a]| && i < |g.ents[b]| && b in g.node && g.node[b] == child
      requires entry == g.ents[a][i] && entry.present && (!entry.shared ==> !entry.writable) && !g.ents[b][i].present
      modifies this
      ensures Good(Now()) && Sized(old(g).ents) && g == SetLeaf(old(g), b, i, entry)
      ensures SameRest(old(Now()), Now()) && cut == old(cut) && pool.used == old(pool).used
    {
      hide Good, Apart, Copied, Leaf, UserLeaf, Shaped, Sized, Named, Rooted, Flattened, Stored, Sound, SetLeaf;
      hide Uncut, SameCut, Valid;
      ghost var v := Now();
      GoodParts(v);
      PutCopyGood(v, a, b, i, entry);
      tables := tables[child := tables[child][i := entry]];
      g := SetLeaf(g, b, i, entry);
      if !entry.shared {
        pool := Retain(pool, entry.frame);
      }
      assert Now() == PutCopy(v, b, i, entry);
    }

    // A page entry: take the writable bit of a private page, repeat the entry, count the reference.
    method CopyPageEntry(f: nat, child: nat, i: nat, ghost a: Pos, ghost b: Pos, ghost s: World)
      requires Good(s) && Apart(s.g, a, b) && a in s.g.node && s.g.node[a] == f && Uncut(s)
      requires Good(Now()) && Copying(s, Now(), a, b, i) && b in g.node && g.node[b] == child
      requires Leaf(a) && i < ENTRIES && a in s.g.ents && i < |s.g.ents[a]| && s.g.ents[a][i].present
      modifies this
      ensures Good(Now()) && Copying(s, Now(), a, b, i + 1) && b in g.node && g.node[b] == child && pool.used == old(pool).used
    {
      hide Good, Apart, Copied, Leaf, UserLeaf, Shaped, Sized, Named, Rooted, Flattened, Stored, Sound, SetLeaf;
      hide Uncut, SameCut, Retain, Valid;
      ghost var w := Now();
      GoodParts(s);
      GoodParts(w);
      Untouched(s.g, g, a, b, i);
      UncutAt(s, w, a);
      ReadEntry(w, a, i);
      BothLeaves(s.g, a, b);
      CopyEntryEmpty(s.g, g, a, b, i);
      ApartRoots(s.g, a, b);
      var entry := tables[f][i];
      SetLeafFacts(w.g, a, b, i, Demote(entry));
      FadeEntry(f, i, entry, a);
      GoodParts(Now());
      SetLeafFacts(g, b, a, i, Demote(entry));
      RepeatEntry(child, i, Demote(entry), a, b);
      PageCopied(s, w, Now(), a, b, i);
    }

    // Levels 3 to 1: the copy of the subtree at a, built at b; 0 when the frames run out.
    method CopyTable(f: nat, level: nat, ghost a: Pos, ghost b: Pos) returns (child: nat)
      requires Good(Now()) && Uncut(Now()) && Apart(g, a, b) && a in g.node && g.node[a] == f
      requires a.Depth() + level == 4 && b.Kid? && b.up in g.ents
      modifies this
      ensures Good(Now())
      ensures child == 0 ==> GaveUp(old(Now()), Now()) && Short(old(Now()), a)
      ensures child != 0 ==> CopyMade(old(Now()), Now(), a, b) && b in g.node && g.node[b] == child && Spent(old(Now()), Now(), a)
      decreases level, 2
    {
      hide Good, Apart, Copied, CopiedAll, Faded, Leaf, Paid, Short, Spent;
      ghost var s := Now();
      GoodParts(s);
      ApartRoots(s.g, a, b);
      var taken := Alloc(pool);
      if taken.1 == 0 {
        NothingGivenUp(s);
        ShortNow(s, a);
        return 0;
      }
      child := taken.1;
      Begin(s, a, b);
      pool := taken.0;
      tables := tables[child := Empty()];
      g := AddTable(g, b, child);
      assert Now() == Add(s, b);
      PaidStart(s, Now(), a);
      var ok := CopyEntries(f, child, level, a, b, s);
      if !ok {
        return 0;
      }
      GoodParts(s);
      CopyDone(s.g, g, a, b);
      PaidAll(s, Now(), a, b);
    }

    // The entries of the table at a, one by one; a failure tears the copy down again.
    method CopyEntries(f: nat, child: nat, level: nat, ghost a: Pos, ghost b: Pos, ghost s: World)
      returns (ok: bool)
      requires Good(s) && Uncut(s) && Apart(s.g, a, b) && a in s.g.node && s.g.node[a] == f
      requires Good(Now()) && Copying(s, Now(), a, b, 0) && b in g.node && g.node[b] == child
      requires a.Depth() + level == 4 && Paid(s, Now(), a, 0)
      modifies this
      ensures Good(Now())
      ensures ok ==> Copying(s, Now(), a, b, Limit(a)) && b in g.node && g.node[b] == child && Paid(s, Now(), a, Limit(a))
      ensures !ok ==> GaveUp(s, Now()) && Short(s, a)
      decreases level, 1
    {
      hide Good, Apart, Copied, Faded, Freed, Removable, Paid, Short;
      GoodParts(s);
      LevelOf(s, a, level) by { ApartTwin(s.g, a, b); }
      var limit := if level == 4 then KERNEL_HALF else ENTRIES;
      for i := 0 to limit
        invariant Good(Now()) && Copying(s, Now(), a, b, i) && b in g.node && g.node[b] == child && Paid(s, Now(), a, i)
      {
        ghost var w := Now();
        var copied := CopyEntry(f, child, level, i, a, b, s);
        if !copied {
          ghost var u := Now();
          BeforeUndo(s, w, u, a, b, i);
          ApartTwin(s.g, a, b);
          GaveUpNode(w, u, b);
          RerootDepth(a, b);
          FreeTable(child, level, b);
          AfterUndo(s, w, u, Now(), a, b, i);
          return false;
        }
      }
      return true;
    }

    method CopyKernelEntry(child: nat, j: nat, ghost w: World)
      requires Good(Now()) && g.kern == kern && Uncut(Now()) && Filling(w, Now(), child, j)
      requires Top(child) in g.loose && child != kern && KERNEL_HALF <= j < ENTRIES
      modifies this
      ensures Good(Now()) && Filling(w, Now(), child, j + 1)
    {
      hide Good, SetEntry, Filling, Shaped, Sized, Named, Rooted, Flattened, Stored, Sound, Uncut, Valid;
      ghost var u := Now();
      GoodParts(u);
      FillingKeeps(w, u, child, j);
      RootEntries(u, child, j);
      var e := tables[kern][j];
      PutTopGood(u, child, j, e);
      FillStep(w, u, child, j, e);
      tables := tables[child := tables[child][j := e]];
      g := SetEntry(g, Top(child), j, e);
      assert Now() == PutTop(u, child, j, e);
    }

    // Entries 256..511 of a new PML4: the kernel's.
    method CopyKernelHalf(child: nat)
      requires Good(Now()) && g.kern == kern && Uncut(Now())
      requires Top(child) in g.loose && child != kern
      modifies this
      ensures Good(Now()) && HalfFilled(old(Now()), Now(), child)
    {
      hide Good, SetEntry, Filling, Shaped, Sized, Named, Rooted, Flattened, Stored, Sound, Uncut, Valid;
      ghost var w := Now();
      GoodParts(w);
      FillStart(w, child);
      for j := KERNEL_HALF to ENTRIES
        invariant Good(Now()) && Filling(w, Now(), child, j)
      {
        FillingKeeps(w, Now(), child, j);
        CopyKernelEntry(child, j, w);
      }
    }

    // Level 4: a lazy copy of a whole address space, as fork makes it.
    method CopyHierarchy(parent: nat) returns (child: nat)
      requires Ready() && Top(parent) in g.ents && parent != kern
      modifies this
      ensures Ready()
      ensures child == 0 ==> exists ks :: Moves(old(Now()), FailedFork(ks), Now())
      ensures child == 0 ==> pool.used == old(pool).used && pool.refs == old(pool).refs
                             && tables.Keys == old(tables).Keys && others == old(others)
      ensures child != 0 ==> Moves(old(Now()), Fork(parent, child), Now()) && Top(child) in g.ents
                             && others == old(others)
      ensures KernelKept(old(g), g)
      ensures if child == 0 then SameSpaces(old(g), g) else OneMore(old(g), g, child)
      ensures child == 0 <==> FreeCount(old(pool)) < TableCount(old(g), Top(parent))
    {
      hide Good, Apart, Copied, CopiedAll, Faded, Forked, GaveUp, Moves, KernelKept, SameSpaces, OneMore;
      hide Paid, FreeCount, TableCount;
      ghost var s := Now();
      GoodParts(s);
      TopNode(g, parent);
      var taken := Alloc(pool);
      if taken.1 == 0 {
        ShortNow(s, Top(parent));
        NothingGivenUp(s);
        GiveUpMoves(s, s);
        KernelKeptSelf(s);
        SameSpacesSelf(s.g);
        return 0;
      }
      child := taken.1;
      ghost var a, b := Top(parent), Top(child);
      AllocIsNew(s);
      RootsApart(s, parent, child);
      Begin(s, a, b);
      pool := taken.0;
      tables := tables[child := Empty()];
      g := AddTable(g, b, child);
      assert Now() == Add(s, b);
      PaidStart(s, Now(), a);
      var ok := CopyEntries(parent, child, 4, a, b, s);
      if !ok {
        GaveUpReady(s, Now());
        GaveUpRestores(s, Now());
        GiveUpMoves(s, Now());
        FadedKernel(s, Now());
        FadedSpaces(s, Now());
        return 0;
      }
      PaidAll(s, Now(), a, b);
      CopyDone(s.g, g, a, b);
      MadeLoose(s.g, g, a, b);
      ghost var w := Now();
      UncutAt(s, w, b);
      CopyKernelHalf(child);
      ghost var u := Now();
      CopyFilled(s, w, u, parent, child);
      Conclude(s, u, parent, child);
      g := g.(loose := g.loose - {b});
      assert Now() == Publish(u, child);
      ForkedReady(s, Now(), parent, child);
      ForkMoves(s, Now(), parent, child);
      ForkedKernel(s, u, parent, child);
    }

    // ---------- Address spaces ----------

    // vmm_new_pml4.
    method NewSpace() returns (root: nat)
      requires Ready()
      modifies this
      ensures Ready()
      ensures root == 0 ==> Now() == old(Now()) && Valid(pool) && Alloc(pool).1 == 0
      ensures root != 0 ==> Opened(old(Now()), Now(), root) && OneMore(old(g), g, root)
      ensures KernelKept(old(g), g) && Moves(old(Now()), Idle, Now())
    {
      hide Good, Filling, CanAdd, Opened, KernelKept, OneMore, Moves;
      ghost var s := Now();
      GoodParts(s);
      var taken := Alloc(pool);
      root := taken.1;
      if root == 0 {
        KernelKeptSelf(s);
        IdleMoves(s);
        return;
      }
      AllocIsNew(s);
      CanOpen(s, root);
      AddGood(s, Top(root));
      pool := taken.0;
      tables := tables[root := Empty()];
      g := AddTable(g, Top(root), root);
      assert Now() == Add(s, Top(root));
      ghost var w := Now();
      CopyKernelHalf(root);
      ghost var u := Now();
      FillingKeeps(w, u, root, ENTRIES);
      PublishGood(u, root);
      g := g.(loose := g.loose - {Top(root)});
      assert Now() == Publish(u, root);
      SpaceOpened(s, u, root);
      OpenedKernel(s, Now(), root);
      OpenedMoves(s, Now(), root);
    }

    // The page tables of a task that is destroyed.
    method DestroySpace(root: nat)
      requires Ready() && Top(root) in g.ents && root != kern
      modifies this
      ensures Ready() && Moves(old(Now()), Exit(root), Now()) && others == old(others)
      ensures forall q :: q in g.ents <==> q in old(g).ents && q.Root() != root
      ensures KernelKept(old(g), g)
    {
      hide Good, Freed, Removable, Gone, KernelKept;
      ghost var s := Now();
      GoodParts(s);
      TopNode(g, root);
      LoosenGood(s, root);
      LoosenRemovable(s, root);
      g := g.(loose := g.loose + {Top(root)});
      assert Now() == Loosen(s, root);
      FreeTable(root, 4, Top(root));
      SpaceGone(s, Now(), root);
      GoneReady(s, Now(), root);
      GoneRest(s, Now(), root);
      ExitMoves(s, Now(), root);
      FreedKernel(s, Now(), root);
    }

    // ---------- vmm_walk_to_pte ----------

    // One level: the table below entry i of the table in frame cur, made if it is missing and wanted.
    method NextTable(cur: nat, i: nat, create: bool, ghost p: Pos) returns (next: nat)
      requires Ready() && p in g.ents && p in g.node && g.node[p] == cur && !Leaf(p) && i < ENTRIES
      requires PageTree.Own(g, p, i) && i < |g.ents[p]|
      requires create && p == Top(kern) && i >= KERNEL_HALF ==> g.ents[p][i].present
      modifies this
      ensures Ready() && Grown(old(Now()), Now())
      ensures next != 0 ==> Kid(p, i) in g.ents && Kid(p, i) in g.node && g.node[Kid(p, i)] == next
      ensures next == 0 ==> Now() == old(Now()) && Kid(p, i) !in g.ents
      ensures next == 0 && create ==> Valid(pool) && Alloc(pool).1 == 0
      ensures !create ==> Now() == old(Now())
    {
      hide Good, Grown, Leaf, Grow, Shaped, Sized, Named, Rooted, Flattened, Stored, Sound, Valid, Link, AddTable;
      ghost var w := Now();
      GoodParts(w);
      ReadEntry(w, p, i);
      StepDown(g, p, i);
      GrownSelf(w);
      var entry := tables[cur][i];
      if entry.present {
        next := entry.frame;
        TableNotZero(w, Kid(p, i));
        return;
      }
      if !create {
        return 0;
      }
      var taken := Alloc(pool);
      next := taken.1;
      if next == 0 {
        return;
      }
      GrowGood(w, p, i);
      GrowGrown(w, w, p, i);
      GrownReady(w, Grow(w, p, i));
      GrowIs(w, p, i);
      pool := taken.0;
      tables := tables[next := Empty()];
      tables := tables[cur := tables[cur][i := TABLE_FLAGS.(frame := next)]];
      g := Link(AddTable(g, Kid(p, i), next), p, i, TABLE_FLAGS.(frame := next));
      assert Now() == Grow(w, p, i);
    }

    // The first level, whose upper half leads into the kernel's tables from every PML4.
    method FirstTable(root: nat, i: nat, create: bool) returns (pdpt: nat)
      requires Ready() && Top(root) in g.ents && i < ENTRIES
      requires create && i >= KERNEL_HALF ==> KernelTablesMade()
      modifies this
      ensures Ready() && Grown(old(Now()), Now())
      ensures var k := Kid(Top(Home(g, root, i)), i);
              && (pdpt != 0 ==> k in g.ents && k in g.node && g.node[k] == pdpt)
              && (pdpt == 0 ==> k !in g.ents)
      ensures pdpt == 0 && create ==> Valid(pool) && Alloc(pool).1 == 0
      ensures !create ==> Now() == old(Now())
    {
      hide Good, Grown, Leaf, Shaped, Sized, Named, Flattened, Stored, Sound;
      ghost var s := Now();
      GoodParts(s);
      TopNode(g, root);
      TableThere(s, Top(root));
      EntriesOf(s, Top(root));
      if i < KERNEL_HALF || root == kern {
        NotLeafAbove(root, [i, 0, 0]);
        pdpt := NextTable(root, i, create, Top(root));
      } else {
        TopKernel(s, root, i);
        var entry := tables[root][i];
        GrownSelf(s);
        if entry.present {
          pdpt := entry.frame;
          TableNotZero(s, Kid(Top(kern), i));
        } else {
          pdpt := 0;
        }
      }
    }

    // The page table that covers the given path, or 0.
    method WalkToPte(root: nat, path: seq<nat>, create: bool) returns (pt: nat)
      requires Ready() && Top(root) in g.ents
      requires |path| == 3 && path[0] < ENTRIES && path[1] < ENTRIES && path[2] < ENTRIES
      requires create && path[0] >= KERNEL_HALF ==> KernelTablesMade()
      modifies this
      ensures Ready() && Grown(old(Now()), Now())
      ensures var p := Descend(Top(Home(g, root, path[0])), path);
              && (pt != 0 ==> p in g.ents && p in g.node && g.node[p] == pt && Leaf(p))
              && (pt == 0 ==> p !in g.ents)
      ensures pt == 0 && create ==> Valid(pool) && Alloc(pool).1 == 0
      ensures !create ==> Now() == old(Now())
    {
      hide Good, Grown, Leaf, Descend, Shaped, Sized, Named, Flattened, Stored, Sound;
      ghost var s := Now();
      ghost var top := Top(Home(g, root, path[0]));
      PathLeaf(top.root, path);
      NotLeafAbove(top.root, path);
      var pdpt := FirstTable(root, path[0], create);
      ghost var w := Now();
      GrownReady(s, w);
      if pdpt == 0 {
        MissingAt(w, top, path, 0);
        return 0;
      }
      EntriesOf(w, Kid(top, path[0]));
      var pd := NextTable(pdpt, path[1], create, Kid(top, path[0]));
      ghost var u := Now();
      GrownReady(w, u);
      GrownGood(s, w, u);
      if pd == 0 {
        MissingAt(u, top, path, 1);
        return 0;
      }
      EntriesOf(u, Kid(Kid(top, path[0]), path[1]));
      pt := NextTable(pd, path[2], create, Kid(Kid(top, path[0]), path[1]));
      GrownReady(u, Now());
      GrownGood(s, u, Now());
      if pt == 0 {
        MissingAt(Now(), top, path, 2);
      }
    }

    // vmm_init found or made a table for every entry of the kernel half.
    ghost predicate KernelTablesMade()
      reads this
    {
      g.kern == kern && TablesMade(g)
    }

    // ---------- Single pages ----------

    ghost predicate UserPage(root: nat, path: seq<nat>, i: nat)
      reads this
    {
      && Top(root) in g.ents && |path| == 3 && i < ENTRIES
      && path[0] < KERNEL_HALF && path[1] < ENTRIES && path[2] < ENTRIES
    }

    // Writes one page entry.
    method WriteEntry(pt: nat, i: nat, e: Entry, ghost p: Pos, ghost rest: map<nat, nat>, ghost flat: map<Slot, Entry>)
      requires Shaped(g) && Stored(tables, g, cut) && g.kern == kern && g.loose == {} && Uncut(Now())
      requires p in g.ents && UserLeaf(p) && i < ENTRIES && p in g.node && g.node[p] == pt
      requires flat == if e.present then g.flat[Slot(p, i) := e] else g.flat - {Slot(p, i)}
      requires Balanced(pool, tables.Keys, flat, rest) && |data| == |pool.used| && shm <= rest.Keys
      requires Inv(Lazy(flat, data, shm))
      modifies this
      ensures Ready() && g.flat == flat && others == rest
      ensures data == old(data) && shm == old(shm) && pool == old(pool) && g.ents.Keys == old(g).ents.Keys
      ensures KernelKept(old(g), g) && SameSpaces(old(g), g)
    {
      hide Shaped, Stored, Balanced, Inv, UserLeaf, Sized, Named, KernelKept;
      ghost var w := Now();
      ShapedUp(g);
      LeafKernel(g, p, i, e);
      RewriteReady(w, p, i, e, rest, flat);
      tables := tables[pt := tables[pt][i := e]];
      g := SetLeaf(g, p, i, e);
      others := rest;
    }

    // vmm_map_page with a private frame the caller has in hand.  When no table can be made the call
    // has no effect at all, and the frame stays taken.
    method MapPage(root: nat, path: seq<nat>, i: nat, frame: nat) returns (mapped: bool)
      requires Ready() && UserPage(root, path, i)
      requires LOW_FRAMES <= frame && frame in others && others[frame] == 1 && frame !in shm
      modifies this
      ensures Ready() && Top(root) in g.ents && data == old(data) && shm == old(shm)
      ensures frame < |data|
      ensures mapped ==>
        Moves(old(Now()), MapPrivate(Slot(Descend(Top(root), path), i), frame, data[frame]), Now()) &&
        others == old(others) - {frame}
      ensures !mapped ==> Moves(old(Now()), Idle, Now()) && others == old(others) && Valid(pool) && Alloc(pool).1 == 0
      ensures KernelKept(old(g), g) && SameSpaces(old(g), g)
    {
      hide Good, Grown, KernelKept, Descend, Sound, Shaped, Sized, Named, Flattened, Stored, Balanced, Inv, UserLeaf, Leaf;
      ghost var s := Now();
      ghost var p, k := Descend(Top(root), path), Slot(Descend(Top(root), path), i);
      GoodInv(s);
      InHand(s, frame);
      UserPath(root, path);
      var pt := WalkToPte(root, path, true);
      ghost var w := Now();
      GrownView(s, w);
      GrownTops(s, w, root);
      GrownKernel(s, w);
      GrownSpaces(s, w);
      if pt == 0 {
        return false;
      }
      GoodParts(w);
      PageAt(w, p, i);
      var entry := tables[pt][i];
      ReplacePrivate(w, k, frame);
      if entry.present && entry.frame != frame && !entry.shared {
        pool := Release(pool, entry.frame);
      }
      WriteEntry(pt, i, Entry(true, true, true, false, frame), p, others - {frame},
                 g.flat[k := Entry(true, true, true, false, frame)]);
      assert data[frame := data[frame]] == data;
      KernelKeptTrans(s.g, w.g, g);
      return true;
    }

    // vmm_map_page with a frame of a shared-memory object.
    method MapSharedPage(root: nat, path: seq<nat>, i: nat, frame: nat) returns (mapped: bool)
      requires Ready() && UserPage(root, path, i) && frame in shm
      modifies this
      ensures Ready() && Top(root) in g.ents && others == old(others)
      ensures mapped ==> Moves(old(Now()), MapShared(Slot(Descend(Top(root), path), i), frame), Now())
      ensures !mapped ==> Moves(old(Now()), Idle, Now()) && Valid(pool) && Alloc(pool).1 == 0
      ensures KernelKept(old(g), g) && SameSpaces(old(g), g) && shm == old(shm)
    {
      hide Good, Grown, KernelKept, Descend, Sound, Shaped, Sized, Named, Flattened, Stored, Balanced, Inv, UserLeaf, Leaf;
      ghost var s := Now();
      ghost var p, k := Descend(Top(root), path), Slot(Descend(Top(root), path), i);
      GoodInv(s);
      UserPath(root, path);
      var pt := WalkToPte(root, path, true);
      ghost var w := Now();
      GrownView(s, w);
      GrownTops(s, w, root);
      GrownKernel(s, w);
      GrownSpaces(s, w);
      if pt == 0 {
        return false;
      }
      GoodParts(w);
      PageAt(w, p, i);
      KernelKeeps(w);
      var entry := tables[pt][i];
      ReplaceShared(w, k, frame);
      if entry.present && entry.frame != frame && !entry.shared {
        pool := Release(pool, entry.frame);
      }
      WriteEntry(pt, i, Entry(true, true, true, true, frame), p, others,
                 g.flat[k := Entry(true, true, true, true, frame)]);
      KernelKeptTrans(s.g, w.g, g);
      return true;
    }

    // One page of vmm_unmap_user, for a region whose flag agrees with the entry.
    method UnmapPage(root: nat, path: seq<nat>, i: nat, shmNode: bool)
      requires Ready() && UserPage(root, path, i)
      requires var k := Slot(Descend(Top(root), path), i); k in g.flat ==> g.flat[k].shared == shmNode
      modifies this
      ensures Ready() && others == old(others) && shm == old(shm)
      ensures Moves(old(Now()), Unmap(Slot(Descend(Top(root), path), i)), Now())
      ensures KernelKept(old(g), g) && SameSpaces(old(g), g)
    {
      hide Good, Grown, KernelKept, Descend, Sound, Shaped, Sized, Named, Flattened, Stored, Balanced, Inv, UserLeaf, Leaf;
      ghost var s := Now();
      ghost var p, k := Descend(Top(root), path), Slot(Descend(Top(root), path), i);
      GoodInv(s);
      UserPath(root, path);
      KernelKeptSelf(s);
      var pt := WalkToPte(root, path, false);
      if pt == 0 {
        NoPage(s, p, i);
        assert g.flat - {k} == g.flat;
        return;
      }
      GoodParts(s);
      PageAt(s, p, i);
      KernelKeeps(s);
      var entry := tables[pt][i];
      if !entry.present {
        assert g.flat - {k} == g.flat;
        return;
      }
      DropMapped(s, k);
      if !shmNode {
        pool := Release(pool, entry.frame);
      }
      WriteEntry(pt, i, ABSENT, p, others, g.flat - {k});
    }

    // ---------- Faults, loads and stores ----------

    // vmm_handle_cow, for a write that the page entry did not allow.
    method HandleCow(root: nat, path: seq<nat>, i: nat) returns (ok: bool)
      requires Ready() && UserPage(root, path, i)
      requires var k := Slot(Descend(Top(root), path), i); k in g.flat ==> !g.flat[k].writable
      modifies this
      ensures Ready() && others == old(others) && Top(root) in g.ents && shm == old(shm)
      ensures KernelKept(old(g), g) && SameSpaces(old(g), g)
      ensures Inv(old(Now()).View()) && Inv(Now().View()) && Valid(old(pool))
      ensures var spare := Alloc(old(pool)).1; spare != 0 ==> Unused(old(Now()).View(), spare)
      ensures var k, spare := Slot(Descend(Top(root), path), i), Alloc(old(pool)).1;
              && (k !in old(g).flat ==> !ok && Now() == old(Now()))
              && (k in old(g).flat ==> (Now().View(), ok) == HandleFault(old(Now()).View(), k, spare))
    {
      hide Good, KernelKept, Descend, Sound, Shaped, Sized, Named, Flattened, Stored, Balanced, Inv, UserLeaf, Leaf, Holders, Unused, SameSpaces, Alloc, Release, Valid;
      ghost var s := Now();
      ghost var p, k := Descend(Top(root), path), Slot(Descend(Top(root), path), i);
      GoodInv(s);
      KernelKeptSelf(s);
      SameSpacesSelf(s.g);
      SpareFree(s);
      UserPath(root, path);
      var pt := WalkToPte(root, path, false);
      if pt == 0 {
        NoPage(s, p, i);
        return false;
      }
      PageAt(s, p, i);
      if !tables[pt][i].present {
        return false;
      }
      ok := SettleFault(pt, i, p);
    }

    // The page is there: it is made writable if nobody else has it, and copied otherwise.
    method SettleFault(pt: nat, i: nat, ghost p: Pos) returns (ok: bool)
      requires Ready() && p in g.ents && UserLeaf(p) && i < ENTRIES && p in g.node && g.node[p] == pt
      requires Slot(p, i) in g.flat && !g.flat[Slot(p, i)].writable
      modifies this
      ensures Ready() && others == old(others) && shm == old(shm) && KernelKept(old(g), g) && SameSpaces(old(g), g)
      ensures g.ents.Keys == old(g).ents.Keys && Valid(old(pool)) && Inv(Now().View())
      ensures (Now().View(), ok) == HandleFault(old(Now()).View(), Slot(p, i), Alloc(old(pool)).1)
    {
      hide Good, KernelKept, Sound, Shaped, Sized, Named, Flattened, Stored, Balanced, Inv, UserLeaf, Leaf, Holders, Unused, SameSpaces, Alloc, Release, Valid;
      ghost var s, k := Now(), Slot(p, i);
      GoodInv(s);
      KernelKeptSelf(s);
      SameSpacesSelf(s.g);
      SpareFree(s);
      GoodParts(s);
      PageAt(s, p, i);
      KernelKeeps(s);
      var entry := tables[pt][i];
      FaultCount(s, k);
      var taken := Alloc(pool);
      if pool.refs[entry.frame] <= 1 {
        Reclaim(s, k);
        WriteEntry(pt, i, entry.(writable := true), p, others, g.flat[k := entry.(writable := true)]);
      } else {
        if taken.1 == 0 {
          return false;
        }
        SplitPage(s, k);
        pool := Release(taken.0, entry.frame);
        data := data[taken.1 := data[entry.frame]];
        WriteEntry(pt, i, entry.(writable := true, frame := taken.1), p, others,
                   g.flat[k := entry.(writable := true, frame := taken.1)]);
      }
      GoodInv(Now());
      return true;
    }

    // A store by address space root, as the processor and the fault handler carry it out.
    method StoreByte(root: nat, path: seq<nat>, i: nat, offset: nat, b: bv8) returns (done: bool)
      requires Ready() && UserPage(root, path, i) && offset < PAGE_SIZE
      modifies this
      ensures Ready() && others == old(others) && shm == old(shm)
      ensures KernelKept(old(g), g) && SameSpaces(old(g), g)
      ensures Valid(old(pool)) && Inv(old(Now()).View())
      ensures var ev := Write(Slot(Descend(Top(root), path), i), offset, b, Alloc(old(pool)).1);
              && Moves(old(Now()), ev, Now())
              && done == CopyOnWrite.Step(old(Now()).View(), ev).1
      ensures Inv(Now().View()) && g.flat.Keys == old(g).flat.Keys
      ensures var k := Slot(Descend(Top(root), path), i);
              && (done ==> k in g.flat && EagerLoad(Show(Now().View()), k, offset) == b)
              && (forall j, o: nat :: j in g.flat && o < PAGE_SIZE && !(done && o == offset && (j == k || Together(old(Now()).View(), j, k))) ==>
                    EagerLoad(Show(Now().View()), j, o) == EagerLoad(Show(old(Now()).View()), j, o))
    {
      hide Good, KernelKept, Descend, Inv, SameSpaces, UserLeaf, Moves, EagerLoad, Show, Together, CopyOnWrite.Step;
      ghost var s := Now();
      ghost var k := Slot(Descend(Top(root), path), i);
      GoodInv(s);
      done := PerformStore(root, path, i, offset, b);
      GoodInv(Now());
      StoredBytes(s, Now(), k, offset, b, Alloc(s.pool).1, done);
    }

    method PerformStore(root: nat, path: seq<nat>, i: nat, offset: nat, b: bv8) returns (done: bool)
      requires Ready() && UserPage(root, path, i) && offset < PAGE_SIZE
      modifies this
      ensures Ready() && others == old(others) && shm == old(shm)
      ensures KernelKept(old(g), g) && SameSpaces(old(g), g)
      ensures Valid(old(pool)) && Inv(old(Now()).View())
      ensures var ev := Write(Slot(Descend(Top(root), path), i), offset, b, Alloc(old(pool)).1);
              && Moves(old(Now()), ev, Now())
              && done == CopyOnWrite.Step(old(Now()).View(), ev).1
    {
      hide Good, KernelKept, Descend, Sound, Shaped, Sized, Named, Flattened, Stored, Balanced, Inv, UserLeaf, Leaf, HandleFault, Unused;
      ghost var s := Now();
      ghost var p, k := Descend(Top(root), path), Slot(Descend(Top(root), path), i);
      GoodInv(s);
      KernelKeptSelf(s);
      SpareFree(s);
      UserPath(root, path);
      var pt := WalkToPte(root, path, false);
      if pt == 0 {
        NoPage(s, p, i);
        return false;
      }
      PageAt(s, p, i);
      if !tables[pt][i].present {
        return false;
      }
      MappedFrame(s, k);
      if !tables[pt][i].writable {
        var ok := HandleCow(root, path, i);
        if !ok {
          return false;
        }
        HandledPage(s.View(), k, Alloc(s.pool).1);
        pt := WalkToPte(root, path, false);
      }
      ghost var w := Now();
      if pt == 0 {
        NoPage(w, p, i);
        assert false;
      }
      PageAt(w, p, i);
      MappedFrame(w, k);
      StoreGood(w, k, offset, b);
      var f := tables[pt][i].frame;
      data := data[f := Poke(data[f], offset, b)];
      return true;
    }

    // A load by address space root.
    method LoadByte(root: nat, path: seq<nat>, i: nat, offset: nat) returns (found: bool, b: bv8)
      requires Ready() && UserPage(root, path, i) && offset < PAGE_SIZE
      modifies this
      ensures Now() == old(Now()) && Inv(Now().View())
      ensures var k := Slot(Descend(Top(root), path), i);
              && (found <==> k in g.flat)
              && (found ==> b == EagerLoad(Show(Now().View()), k, offset))
    {
      hide Good, Descend, Sound, Shaped, Sized, Named, Flattened, Stored, Balanced, Inv, UserLeaf, Leaf, EagerLoad;
      ghost var s := Now();
      ghost var p, k := Descend(Top(root), path), Slot(Descend(Top(root), path), i);
      GoodInv(s);
      UserPath(root, path);
      b := 0;
      var pt := WalkToPte(root, path, false);
      if pt == 0 {
        NoPage(s, p, i);
        return false, 0;
      }
      PageAt(s, p, i);
      var entry := tables[pt][i];
      if !entry.present {
        return false, 0;
      }
      MappedFrame(s, k);
      LoadsAgree(s.View(), k, offset);
      return true, data[entry.frame][offset];
    }

    // The entry of a user page, if it is mapped.
    method PageEntry(root: nat, path: seq<nat>, i: nat) returns (present: bool, entry: Entry)
      requires Ready() && UserPage(root, path, i)
      modifies this
      ensures Now() == old(Now()) && Ready()
      ensures var k := Slot(Descend(Top(root), path), i);
              (present <==> k in g.flat) && (present ==> entry == g.flat[k])
    {
      hide Good, Descend, UserLeaf;
      ghost var s := Now();
      ghost var p := Descend(Top(root), path);
      UserPath(root, path);
      var pt := WalkToPte(root, path, false);
      if pt == 0 {
        NoPage(s, p, i);
        return false, ABSENT;
      }
      PageAt(s, p, i);
      return tables[pt][i].present, tables[pt][i];
    }

    // A zeroed page at the given place: stack growth on a page fault, sbrk, the loader.  If the frame
    // can be had but no table for it, the frame is lost: it stays in use with nothing naming it.
    method MapFresh(root: nat, path: seq<nat>, i: nat) returns (mapped: bool)
      requires Ready() && UserPage(root, path, i)
      modifies this
      ensures Ready() && shm == old(shm) && Valid(old(pool)) && Valid(pool)
      ensures mapped ==>
        Moves(old(Now()), MapPrivate(Slot(Descend(Top(root), path), i), Alloc(old(pool)).1, Blank()), Now()) &&
        others == old(others)
      ensures mapped ==> Inv(Now().View()) && var k := Slot(Descend(Top(root), path), i);
                         k in g.flat && forall o: nat :: o < PAGE_SIZE ==> EagerLoad(Show(Now().View()), k, o) == 0
      ensures !mapped ==> Alloc(pool).1 == 0
      ensures !mapped ==> var f := Alloc(old(pool)).1;
                          && Moves(old(Now()), if f == 0 then Idle else Lose(f), Now())
                          && others == if f == 0 then old(others) else old(others)[f := 1]
      ensures KernelKept(old(g), g) && SameSpaces(old(g), g)
    {
      hide Good, KernelKept, Descend, Sound, Inv, Shaped, Unused, EagerLoad, Show;
      ghost var s := Now();
      GoodInv(s);
      var taken := Alloc(pool);
      if taken.1 == 0 {
        KernelKeptSelf(s);
        return false;
      }
      TakeFrameGood(s, Blank());
      FillUnused(s.View(), taken.1, Blank());
      SpareNotKept(s);
      pool := taken.0;
      data := data[taken.1 := Blank()];
      others := others[taken.1 := 1];
      assert Now() == TakeFrame(s, Blank());
      GoodInv(Now());
      mapped := MapPage(root, path, i, taken.1);
      GoodInv(Now());
      assert others[taken.1 := 1] - {taken.1} == others - {taken.1};
      assert s.others[taken.1 := 1] - {taken.1} == s.others;
      assert s.data[taken.1 := Blank()][taken.1 := Blank()] == s.data[taken.1 := Blank()];
      if mapped { FreshBytes(s, Now(), Slot(Descend(Top(root), path), i), taken.1); }
    }

    // vmm_virt2phys, as a frame number.
    method Virt2Phys(root: nat, path: seq<nat>, i: nat) returns (frame: nat)
      requires Ready() && UserPage(root, path, i)
      modifies this
      ensures Now() == old(Now())
      ensures var e := Translate(tables, root, path, i); frame == if e.present then e.frame else 0
    {
      hide Good, Descend, Sound, Shaped, Sized, Named, Flattened, Stored, UserLeaf, Leaf, Translate;
      ghost var s := Now();
      ghost var p := Descend(Top(root), path);
      GoodParts(s);
      StoredUncutAll(s);
      TranslateIsFlat(tables, g, root, path, i) by { assert Settled(g); }
      UserPath(root, path);
      var pt := WalkToPte(root, path, false);
      if pt == 0 {
        NoPage(s, p, i);
        return 0;
      }
      PageAt(s, p, i);
      var entry := tables[pt][i];
      frame := if entry.present then entry.frame else 0;
    }

    // ---------- The kernel half ----------

    // vmm_init: a table for every entry of the kernel half, while frames last.
    method MakeKernelTables()
      requires Ready() && forall r :: Top(r) in g.ents ==> r == kern
      modifies this
      ensures Ready() && Moves(old(Now()), Idle, Now()) && Valid(pool)
      ensures KernelTablesMade() || Alloc(pool).1 == 0
      ensures PagesKept(old(g), g) && SameSpaces(old(g), g) && others == old(others) && shm == old(shm)
    {
      hide Good, PagesKept;
      KernelTop(Now());
      KernelKeptSelf(Now());
      for i := KERNEL_HALF to ENTRIES
        invariant Ready() && Now().View() == old(Now()).View() && Top(kern) in g.ents && |g.ents[Top(kern)]| == ENTRIES
        invariant PagesKept(old(g), g) && others == old(others)
        invariant forall r :: Top(r) in g.ents ==> r == kern
        invariant Valid(pool)
        invariant (forall j :: KERNEL_HALF <= j < i ==> g.ents[Top(kern)][j].present) || Alloc(pool).1 == 0
      {
        ghost var before := g;
        MakeKernelTable(i);
        PagesKeptTrans(old(g), before, g);
      }
      KernelTop(Now());
    }

    method AllTablesThere() returns (all: bool)
      requires Ready()
      ensures all <==> KernelTablesMade()
    {
      hide Good, Shaped, Sized, Named, Rooted, Flattened, Stored, Sound;
      ghost var w := Now();
      KernelTop(w);
      for j := KERNEL_HALF to ENTRIES
        invariant forall h :: KERNEL_HALF <= h < j ==> g.ents[Top(kern)][h].present
      {
        RootEntries(w, kern, j);
        if !tables[kern][j].present { return false; }
      }
      return true;
    }

    method MakeKernelTable(i: nat)
      requires Ready() && Top(kern) in g.ents && KERNEL_HALF <= i < ENTRIES
      requires forall r :: Top(r) in g.ents ==> r == kern
      modifies this
      ensures Ready() && Now().View() == old(Now()).View() && Valid(pool) && Valid(old(pool)) && Top(kern) in g.ents
      ensures PagesKept(old(g), g) && others == old(others)
      ensures |g.ents[Top(kern)]| == |old(g).ents[Top(kern)]| == ENTRIES
      ensures forall r :: Top(r) in g.ents ==> r == kern
      ensures forall j :: 0 <= j < ENTRIES && j != i ==> g.ents[Top(kern)][j] == old(g).ents[Top(kern)][j]
      ensures g.ents[Top(kern)][i].present || Alloc(pool).1 == 0
      ensures Alloc(old(pool)).1 == 0 ==> Now() == old(Now())
    {
      hide Good, Shaped, Stored, Sound, Sized, Named, Flattened, PagesKept;
      ghost var w := Now();
      GoodParts(w);
      KernelKeptSelf(w);
      EntriesOf(w, Top(kern));
      TopNode(g, kern);
      ReadEntry(w, Top(kern), i);
      if tables[kern][i].present {
        return;
      }
      var taken := Alloc(pool);
      var f := taken.1;
      if f == 0 {
        return;
      }
      KernelSlotNew(w, i);
      KernelSlotFacts(w, i, f);
      NewTableKernel(w, i, f);
      AllocIsNew(w);
      pool := taken.0;
      tables := tables[f := Empty()];
      tables := tables[kern := tables[kern][i := Entry(true, true, false, false, f)]];
      g := Link(AddTable(g, Kid(Top(kern), i), f), Top(kern), i, Entry(true, true, false, false, f));
      assert Now() == Attach(Add(w, Kid(Top(kern), i)), Top(kern), i, Entry(true, true, false, false, f));
      GoodParts(Now());
    }

    ghost predicate KernelPage(path: seq<nat>, i: nat) {
      |path| == 3 && i < ENTRIES && KERNEL_HALF <= path[0] < ENTRIES && path[1] < ENTRIES && path[2] < ENTRIES
    }

    // The entry of a kernel page, 0 standing for no table.
    method KernelWalk(path: seq<nat>, i: nat, create: bool) returns (pt: nat)
      requires Ready() && KernelPage(path, i) && (create ==> KernelTablesMade())
      modifies this
      ensures Ready() && Grown(old(Now()), Now()) && KernelKept(old(g), g) && SameSpaces(old(g), g)
      ensures var p := Descend(Top(kern), path);
              && (pt != 0 ==> p in g.ents && KernelLeaf(kern, p) && p in g.node && g.node[p] == pt
                              && pt in tables && |tables[pt]| == |g.ents[p]| == ENTRIES && tables[pt][i] == g.ents[p][i])
              && (pt == 0 ==> p !in g.ents)
      ensures pt == 0 && create ==> Valid(pool) && Alloc(pool).1 == 0
      ensures !create ==> Now() == old(Now())
    {
      hide Good, Grown, KernelKept, Descend, Sound, Shaped, Sized, Named, Flattened, Stored, UserLeaf, Leaf;
      ghost var s := Now();
      ghost var p := Descend(Top(kern), path);
      KernelPath(kern, path);
      KernelTop(s);
      pt := WalkToPte(kern, path, create);
      GrownKernel(s, Now());
      GrownSpaces(s, Now());
      if pt != 0 {
        UncutAt(Now(), Now(), p);
        ReadEntry(Now(), p, i);
      }
    }

    // Writes one entry of a kernel page table, the pool and the kernel's frames having been seen to.
    method WriteKernelEntry(pt: nat, path: seq<nat>, i: nat, e: Entry)
      requires Ready() && KernelPage(path, i)
      requires var p := Descend(Top(kern), path); p in g.ents && KernelLeaf(kern, p) && p in g.node && g.node[p] == pt
      modifies this`tables, this`g
      ensures Ready() && g.flat == old(g).flat && TopKept(old(g), g) && SameSpaces(old(g), g)
      ensures var p := Descend(Top(kern), path);
              KernelBut(old(g), g, p, i) && Sees(g, p, i) == if e.present then e else ABSENT
    {
      hide Good, Descend, Sound, Shaped, Sized, Named, Flattened, Stored, UserLeaf, Leaf, KernelBut, TopKept, Sees;
      ghost var w := Now();
      ghost var p := Descend(Top(kern), path);
      GoodParts(w);
      KernelEntryGood(w, p, i, e);
      PutKernel(w, p, i, e);
      tables := tables[pt := tables[pt][i := e]];
      g := SetLeaf(g, p, i, e);
      assert Now() == Put(w, p, i, e);
    }

    // vmm_map_page on the kernel's tables: every address space sees the new mapping, no other kernel page and
    // no user page changes, and the page that was there is given back.
    method MapKernelPage(path: seq<nat>, i: nat, e: Entry) returns (mapped: bool)
      requires Ready() && KernelTablesMade() && KernelPage(path, i) && e.present
      requires var was := Sees(g, Descend(Top(kern), path), i);
               was.present && !was.shared && was.frame != e.frame ==> KernelOwned(Now(), was.frame)
      modifies this
      ensures Ready() && KernelTablesMade() && TopKept(old(g), g) && SameSpaces(old(g), g)
      ensures Moves(old(Now()), Idle, Now()) && shm == old(shm)
      ensures mapped ==> var p := Descend(Top(kern), path); var was := Sees(old(g), p, i);
                         && KernelBut(old(g), g, p, i) && Sees(g, p, i) == e
                         && others == if was.present && !was.shared && was.frame != e.frame then Given(old(others), was.frame)
                                      else old(others)
      ensures !mapped ==> PagesKept(old(g), g) && others == old(others) && Valid(pool) && Alloc(pool).1 == 0
    {
      hide Good, Grown, Descend, Shaped, Sized, Named, Flattened, Stored, UserLeaf, Leaf, Sound, KernelBut, TopKept, PagesKept, TablesMade, Balanced, Inv;
      ghost var s := Now();
      ghost var p := Descend(Top(kern), path);
      var pt := KernelWalk(path, i, true);
      ghost var w := Now();
      GrownView(s, w);
      TablesStayMade(s.g, w.g);
      if pt == 0 {
        return false;
      }
      SeenAlike(s.g, w.g, p, i);
      KernelKeeps(s);
      KernelKeeps(w);
      var entry := tables[pt][i];
      if entry.present && entry.frame != e.frame && !entry.shared {
        GoodInv(w);
        ReleaseKernelGood(w, entry.frame);
        others := Given(others, entry.frame);
        pool := Release(pool, entry.frame);
      }
      ghost var u := g;
      WriteKernelEntry(pt, path, i, e);
      KernelButTrans(s.g, u, g, p, i);
      TablesStayMade(u, g);
      return true;
    }

    // vmm_unmap_page on the kernel's tables: that page is unmapped everywhere, and nothing else changes.
    method UnmapKernelPage(path: seq<nat>, i: nat)
      requires Ready() && KernelPage(path, i)
      modifies this
      ensures Ready() && TopKept(old(g), g) && SameSpaces(old(g), g) && Moves(old(Now()), Idle, Now())
      ensures others == old(others) && shm == old(shm) && pool == old(pool)
      ensures var p := Descend(Top(kern), path); KernelBut(old(g), g, p, i) && Sees(g, p, i) == ABSENT
    {
      hide Good, Descend, KernelBut, TopKept, KernelLeaf;
      ghost var s := Now();
      KernelKeptSelf(s);
      var pt := KernelWalk(path, i, false);
      if pt == 0 {
        KernelButSelf(s.g, Descend(Top(kern), path), i);
        return;
      }
      WriteKernelEntry(pt, path, i, ABSENT);
    }

    method KernelFreeAt(path: seq<nat>, i: nat) returns (free: bool)
      requires Ready() && KernelPage(path, i)
      modifies this
      ensures Now() == old(Now()) && Ready() && (free <==> Sees(g, Descend(Top(kern), path), i) == ABSENT)
    {
      hide Good, Descend, KernelLeaf;
      var pt := KernelWalk(path, i, false);
      free := pt == 0 || !tables[pt][i].present;
    }

    // One page of vmm_alloc_global.  If the frame can be had but no table for it, the frame is lost.
    method AllocKernelPage(path: seq<nat>, i: nat) returns (frame: nat)
      requires Ready() && KernelTablesMade() && KernelPage(path, i) && Sees(g, Descend(Top(kern), path), i) == ABSENT
      modifies this
      ensures Ready() && KernelTablesMade() && TopKept(old(g), g) && SameSpaces(old(g), g)
      ensures Moves(old(Now()), Idle, Now()) && shm == old(shm) && Valid(old(pool)) && Valid(pool)
      ensures frame != 0 ==> var p := Descend(Top(kern), path);
                             && frame == Alloc(old(pool)).1 && frame !in old(others) && others == old(others)[frame := 1] && frame !in shm
                             && LOW_FRAMES <= frame && KernelBut(old(g), g, p, i) && Sees(g, p, i) == Entry(true, true, false, false, frame)
      ensures frame == 0 ==> PagesKept(old(g), g) && Alloc(pool).1 == 0
      ensures frame == 0 ==> var f := Alloc(old(pool)).1; others == if f == 0 then old(others) else old(others)[f := 1]
    {
      hide Good, Descend, KernelBut, TopKept, KernelLeaf, PagesKept, TablesMade, Sees, KernelOwned, Unused, Inv;
      ghost var s := Now();
      GoodInv(s);
      var taken := Alloc(pool);
      frame := taken.1;
      if frame == 0 {
        KernelKeptSelf(s);
        return;
      }
      InUse(s);
      TakeFrameGood(s, data[frame]);
      SpareNotKept(s);
      pool := taken.0;
      others := others[frame := 1];
      assert data[frame := data[frame]] == data;
      assert Now() == TakeFrame(s, s.data[frame]);
      GoodInv(Now());
      var mapped := MapKernelPage(path, i, Entry(true, true, false, false, frame));
      GoodInv(Now());
      if !mapped { frame := 0; }
    }

    // One page of vmm_free.
    method FreeKernelPage(path: seq<nat>, i: nat)
      requires Ready() && KernelPage(path, i)
      requires var was := Sees(g, Descend(Top(kern), path), i); was.present ==> KernelOwned(Now(), was.frame)
      modifies this
      ensures Ready() && TopKept(old(g), g) && SameSpaces(old(g), g) && Moves(old(Now()), Idle, Now()) && shm == old(shm)
      ensures var p := Descend(Top(kern), path); var was := Sees(old(g), p, i);
              && KernelBut(old(g), g, p, i)
              && (was.frame != 0 ==> Sees(g, p, i) == ABSENT)
              && others == if was.present then Given(old(others), was.frame) else old(others)
    {
      hide Good, Descend, KernelBut, TopKept, KernelLeaf;
      ghost var s := Now();
      ghost var p := Descend(Top(kern), path);
      KernelKeptSelf(s);
      KernelButSelf(s.g, p, i);
      var pt := KernelWalk(path, i, false);
      if pt == 0 || !tables[pt][i].present || tables[pt][i].frame == 0 {
        return;
      }
      var f := tables[pt][i].frame;
      UnmapKernelPage(path, i);
      ghost var w := Now();
      GoodInv(w);
      KernelKeeps(s);
      KernelKeeps(w);
      ReleaseKernelGood(w, f);
      others := Given(others, f);
      pool := Release(pool, f);
    }

    // One page of shm_set_size: a zeroed frame for a shared-memory object.
    method TakeSharedFrame() returns (frame: nat)
      requires Ready()
      modifies this
      ensures Ready() && KernelKept(old(g), g) && SameSpaces(old(g), g) && Valid(old(pool))
      ensures frame == Alloc(old(pool)).1
      ensures frame == 0 ==> Now() == old(Now())
      ensures frame != 0 ==> Moves(old(Now()), ShmPage(frame), Now()) && shm == old(shm) + {frame} && others == old(others)[frame := 1]
    {
      hide Good, KernelKept, Sound, Inv, Shaped, Unused;
      ghost var s := Now();
      GoodInv(s);
      KernelKeptSelf(s);
      var taken := Alloc(pool);
      frame := taken.1;
      if frame == 0 {
        return;
      }
      TakeFrameGood(s, Blank());
      SharedFrameGood(s);
      pool := taken.0;
      data := data[frame := Blank()];
      others := others[frame := 1];
      shm := shm + {frame};
    }
  }

  lemma StoredBytes(s: World, w: World, k: Slot, off: nat, b: bv8, spare: nat, done: bool)
    requires Inv(s.View()) && Inv(w.View()) && Moves(s, Write(k, off, b, spare), w) && done == CopyOnWrite.Step(s.View(), Write(k, off, b, spare)).1
    ensures w.g.flat.Keys == s.g.flat.Keys && off < PAGE_SIZE
    ensures done ==> k in w.g.flat && EagerLoad(Show(w.View()), k, off) == b
    ensures forall j, o: nat :: j in w.g.flat && o < PAGE_SIZE && !(done && o == off && (j == k || Together(s.View(), j, k))) ==>
              EagerLoad(Show(w.View()), j, o) == EagerLoad(Show(s.View()), j, o)
  {
    StoreLaw(s.View(), k, off, b, spare);
    hide Inv, CopyOnWrite.Step, Show, EagerLoad;
    forall j, o: nat | j in w.g.flat && o < PAGE_SIZE && !(done && o == off && (j == k || Together(s.View(), j, k)))
      ensures EagerLoad(Show(w.View()), j, o) == EagerLoad(Show(s.View()), j, o)
    {
      assert Byte(w.View(), j, o) == Byte(s.View(), j, o);
    }
    if done { assert Byte(w.View(), k, off) == b; }
  }

  lemma FreshBytes(s: World, w: World, k: Slot, f: nat)
    requires Inv(s.View()) && Inv(w.View()) && Moves(s, MapPrivate(k, f, Blank()), w)
    ensures k in w.g.flat && forall o: nat :: o < PAGE_SIZE ==> EagerLoad(Show(w.View()), k, o) == 0
  {
    MapPrivateLaw(s.View(), k, f, Blank());
    hide Inv, CopyOnWrite.Step, Show, EagerLoad;
    forall o: nat | o < PAGE_SIZE ensures EagerLoad(Show(w.View()), k, o) == 0 {
      FreshPageZero(s.View(), k, f, o);
      assert Byte(w.View(), k, o) == 0;
    }
  }

  lemma IdleMoves(s: World)
    ensures Moves(s, Idle, s)
  {
  }
}
