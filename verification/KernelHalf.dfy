/**
 The kernel half of all address spaces (src/mem/vmm.c).

 Every PML4 repeats the kernel's upper half, so a kernel page is translated alike from everywhere.  `KernelKept`
 says that nothing of this has changed; every user operation is shown to keep it, and a kernel mapping to change
 the one page it is for.
 */
module KernelHalf {
  import opened PageTypes
  import opened Frames
  import opened CopyOnWrite
  import opened FrameAccounts
  import opened PageTree
  import opened PageTeardown
  import opened PageFork
  import opened Worlds
  import opened Teardown
  import opened Forking
  import opened Mapping

  // What entry i of the table at p stands for.
  ghost function Sees(g: Layout, p: Pos, i: nat): Entry {
    if p in g.ents && i < |g.ents[p]| && g.ents[p][i].present then g.ents[p][i] else ABSENT
  }

  // The page tables of the kernel half.
  predicate KernelLeaf(kern: nat, p: Pos) {
    Leaf(p) && !UserLeaf(p) && p.Root() == kern
  }

  // vmm_init found or made a table for every entry of the kernel half.
  ghost predicate TablesMade(g: Layout) {
    Top(g.kern) in g.ents && |g.ents[Top(g.kern)]| == ENTRIES &&
    forall i :: KERNEL_HALF <= i < ENTRIES ==> g.ents[Top(g.kern)][i].present
  }

  // The kernel's own PML4 has the same upper half.
  ghost predicate TopKept(g: Layout, h: Layout) {
    && h.kern == g.kern && Top(g.kern) in g.ents && Top(g.kern) in h.ents
    && |g.ents[Top(g.kern)]| == |h.ents[Top(g.kern)]| == ENTRIES
    && forall j :: KERNEL_HALF <= j < ENTRIES ==> h.ents[Top(g.kern)][j] == g.ents[Top(g.kern)][j]
  }

  // Every kernel page but entry i of p is what it was.
  ghost predicate KernelBut(g: Layout, h: Layout, p: Pos, i: nat) {
    && h.kern == g.kern
    && forall q, j: nat :: KernelLeaf(g.kern, q) && !(q == p && j == i) ==> Sees(h, q, j) == Sees(g, q, j)
  }

  ghost predicate PagesKept(g: Layout, h: Layout) {
    h.kern == g.kern && forall q, j: nat :: KernelLeaf(g.kern, q) ==> Sees(h, q, j) == Sees(g, q, j)
  }

  ghost predicate KernelKept(g: Layout, h: Layout) {
    TopKept(g, h) && PagesKept(g, h)
  }

  lemma KernelKeptTrans(a: Layout, b: Layout, c: Layout)
    requires KernelKept(a, b) && KernelKept(b, c)
    ensures KernelKept(a, c)
  {
  }

  lemma PagesKeptTrans(a: Layout, b: Layout, c: Layout)
    requires PagesKept(a, b) && PagesKept(b, c)
    ensures PagesKept(a, c)
  {
  }

  lemma KernelButTrans(a: Layout, b: Layout, c: Layout, p: Pos, i: nat)
    requires KernelKept(a, b) && TopKept(b, c) && KernelBut(b, c, p, i)
    ensures TopKept(a, c) && KernelBut(a, c, p, i)
  {
  }

  lemma SeenAlike(g: Layout, h: Layout, p: Pos, i: nat)
    requires PagesKept(g, h) && KernelLeaf(g.kern, p)
    ensures Sees(h, p, i) == Sees(g, p, i)
  {
  }

  lemma KernelKeptSelf(w: World)
    requires Good(w)
    ensures KernelKept(w.g, w.g)
  {
    KernelTop(w);
  }

  lemma TablesStayMade(g: Layout, h: Layout)
    requires TopKept(g, h)
    ensures TablesMade(g) <==> TablesMade(h)
  {
  }

  // The same address spaces are there.
  ghost predicate SameSpaces(g: Layout, h: Layout) {
    forall r :: Top(r) in h.ents <==> Top(r) in g.ents
  }

  // Address space c has been added.
  ghost predicate OneMore(g: Layout, h: Layout, c: nat) {
    c != g.kern && Top(c) !in g.ents && forall r :: Top(r) in h.ents <==> Top(r) in g.ents || r == c
  }

  lemma SameSpacesSelf(g: Layout)
    ensures SameSpaces(g, g)
  {
  }

  lemma GrownSpaces(s: World, w: World)
    requires Grown(s, w)
    ensures SameSpaces(s.g, w.g)
  {
  }

  lemma FadedSpaces(s: World, w: World)
    requires GaveUp(s, w)
    ensures SameSpaces(s.g, w.g)
  {
  }

  lemma CopiedSpaces(g: Layout, h: Layout, r: nat, c: nat)
    requires CopiedAll(g, h, Top(r), Top(c)) && Top(r) in g.ents
    ensures forall q :: Top(q) in h.ents <==> Top(q) in g.ents || q == c
  {
    assert Below(Top(c), Top(c)) && Twin(Top(r), Top(c)) == Top(r);
  }

  // ---------- What a translation reads ----------

  lemma KernelTranslates(w: World, r: nat, path: seq<nat>, i: nat)
    requires Good(w) && w.g.loose == {} && Uncut(w) && Top(r) in w.g.ents && |path| == 3 && path[0] >= KERNEL_HALF
    ensures Translate(w.tables, r, path, i) == Sees(w.g, Descend(Top(w.g.kern), path), i)
  {
    hide Shaped, Stored, Sound, Named, Sized, Descend, Good;
    var p := Descend(Top(w.g.kern), path);
    GoodParts(w);
    StoredUncutAll(w);
    WalkIsFlat(w.tables, w.g, r, path) by { assert Settled(w.g); }
    if p in w.g.ents {
      TableThere(w, p);
      EntriesOf(w, p);
      if i < ENTRIES { ReadEntry(w, p, i) by { UncutAt(w, w, p); } }
    }
  }

  // Every kernel address is translated as before, from every address space that is there now.
  ghost predicate KernelSame(s: World, w: World) {
    forall r, q, path: seq<nat>, i: nat ::
      Top(r) in s.g.ents && Top(q) in w.g.ents && |path| == 3 && path[0] >= KERNEL_HALF ==>
      Translate(w.tables, q, path, i) == Translate(s.tables, r, path, i)
  }

  ghost predicate AtRest(w: World) {
    Good(w) && w.g.loose == {} && Uncut(w)
  }

  lemma KernelKeptMeans(s: World, w: World)
    requires AtRest(s) && AtRest(w) && PagesKept(s.g, w.g)
    ensures KernelSame(s, w)
  {
    hide Good, Sees, Translate, Descend;
    forall r, q, path: seq<nat>, i: nat | Top(r) in s.g.ents && Top(q) in w.g.ents && |path| == 3 && path[0] >= KERNEL_HALF
      ensures Translate(w.tables, q, path, i) == Translate(s.tables, r, path, i)
    {
      KernelTranslates(s, r, path, i);
      KernelTranslates(w, q, path, i);
      KernelPathLeaf(s.g.kern, path);
    }
  }

  lemma KernelPathLeaf(kern: nat, path: seq<nat>)
    requires |path| == 3 && path[0] >= KERNEL_HALF
    ensures KernelLeaf(kern, Descend(Top(kern), path))
  {
    KernelPath(kern, path);
  }

  // All translations, of user and of kernel addresses, are those of s but for one user page.
  lemma OnlyPageChanged(s: World, w: World, k: Slot, r: nat, path: seq<nat>, i: nat)
    requires AtRest(s) && AtRest(w) && PagesKept(s.g, w.g) && Top(r) in s.g.ents && Top(r) in w.g.ents
    requires |path| == 3 && i < ENTRIES && Slot(Descend(Top(r), path), i) != k
    requires w.g.flat - {k} == s.g.flat - {k}
    ensures Translate(w.tables, r, path, i) == Translate(s.tables, r, path, i)
  {
    hide AtRest, PagesKept, Translate, Descend;
    if path[0] >= KERNEL_HALF {
      KernelKeptMeans(s, w);
    } else {
      UserTranslates(s, r, path, i);
      UserTranslates(w, r, path, i);
      var j := Slot(Descend(Top(r), path), i);
      assert (j in w.g.flat <==> j in w.g.flat - {k}) && (j in s.g.flat <==> j in s.g.flat - {k});
      if j in s.g.flat { assert (s.g.flat - {k})[j] == s.g.flat[j] && (w.g.flat - {k})[j] == w.g.flat[j]; }
    }
  }

  lemma UserTranslates(w: World, r: nat, path: seq<nat>, i: nat)
    requires AtRest(w) && Top(r) in w.g.ents && |path| == 3 && path[0] < KERNEL_HALF && i < ENTRIES
    ensures var k := Slot(Descend(Top(r), path), i);
            Translate(w.tables, r, path, i) == if k in w.g.flat then w.g.flat[k] else ABSENT
  {
    hide Good, Translate, Descend, Shaped, Stored, Sized, Named;
    GoodParts(w);
    StoredUncutAll(w);
    TranslateIsFlat(w.tables, w.g, r, path, i) by { assert Settled(w.g); }
  }

  // ---------- What keeps the kernel half ----------

  lemma GrownKernel(s: World, w: World)
    requires Good(s) && Good(w) && Grown(s, w)
    ensures KernelKept(s.g, w.g)
  {
    hide Good;
    KernelTop(s);
    KernelTop(w);
    var a, b := s.g.ents[Top(s.g.kern)], w.g.ents[Top(s.g.kern)];
    assert b[KERNEL_HALF..] == a[KERNEL_HALF..];
    forall j | KERNEL_HALF <= j < ENTRIES ensures b[j] == a[j] {
      assert a[KERNEL_HALF..][j - KERNEL_HALF] == a[j] && b[KERNEL_HALF..][j - KERNEL_HALF] == b[j];
    }
    forall q, j: nat | KernelLeaf(s.g.kern, q) ensures Sees(w.g, q, j) == Sees(s.g, q, j) {
      if q in s.g.ents {
      } else if q in w.g.ents {
        assert w.g.ents[q] == Empty();
      }
    }
  }

  lemma LeafKernel(g: Layout, p: Pos, i: nat, e: Entry)
    requires Sized(g.ents) && p in g.ents && UserLeaf(p) && i < ENTRIES && Top(g.kern) in g.ents
    ensures KernelKept(g, SetLeaf(g, p, i, e))
  {
  }

  lemma OpenedKernel(s: World, w: World, r: nat)
    requires Good(s) && Opened(s, w, r)
    ensures KernelKept(s.g, w.g)
  {
    hide Good;
    KernelTop(s);
  }

  lemma FadedKernel(s: World, w: World)
    requires Good(s) && GaveUp(s, w)
    ensures KernelKept(s.g, w.g)
  {
    hide Good, Named;
    KernelTop(s);
    FadedEntries(s.g, w.g);
  }

  lemma FadedEntries(g: Layout, h: Layout)
    requires Faded(g, h)
    ensures forall q :: q in g.ents && !UserLeaf(q) ==> q in h.ents && h.ents[q] == g.ents[q]
    ensures forall q :: q in h.ents ==> q in g.ents
  {
    forall q | q in g.ents && !UserLeaf(q) ensures h.ents[q] == g.ents[q] {
      assert |h.ents[q]| == |g.ents[q]| == ENTRIES;
      assert forall j: nat :: j < ENTRIES ==> h.ents[q][j] == g.ents[q][j];
    }
  }

  lemma CopiedEntries(g: Layout, h: Layout, a: Pos, b: Pos)
    requires CopiedAll(g, h, a, b)
    ensures forall q :: q in g.ents && !UserLeaf(q) ==> q in h.ents && h.ents[q] == g.ents[q]
    ensures forall q :: q in h.ents && q !in g.ents ==> Below(b, q)
  {
    forall q | q in g.ents && !UserLeaf(q) ensures h.ents[q] == g.ents[q] {
      assert |h.ents[q]| == |g.ents[q]| == ENTRIES;
      assert forall j: nat :: j < ENTRIES ==> h.ents[q][j] == g.ents[q][j];
    }
  }

  // Copying the tree of a task adds nothing below the kernel's PML4.
  lemma CopiedKernel(s: World, w: World, r: nat, c: nat)
    requires Good(s) && CopyMade(s, w, Top(r), Top(c)) && c != s.g.kern
    ensures KernelKept(s.g, w.g)
  {
    hide Good, CopiedAll;
    KernelTop(s);
    CopiedEntries(s.g, w.g, Top(r), Top(c));
    CopiedKern(s.g, w.g, Top(r), Top(c));
    forall q, j: nat | KernelLeaf(s.g.kern, q) ensures Sees(w.g, q, j) == Sees(s.g, q, j) {
      if q in w.g.ents && q !in s.g.ents { BelowRoot(Top(c), 0, q); }
    }
  }

  lemma CopiedKern(g: Layout, h: Layout, a: Pos, b: Pos)
    requires CopiedAll(g, h, a, b)
    ensures h.kern == g.kern
  {
  }

  lemma ForkedKernel(s: World, w: World, r: nat, c: nat)
    requires Good(s) && CopyMade(s, w, Top(r), Top(c)) && c != s.g.kern && Top(r) in s.g.ents
    ensures KernelKept(s.g, Publish(w, c).g)
    ensures Top(c) !in s.g.ents ==> OneMore(s.g, Publish(w, c).g, c)
  {
    hide Good, CopiedAll;
    CopiedKernel(s, w, r, c);
    CopiedSpaces(s.g, w.g, r, c);
  }

  lemma OpenedMoves(s: World, w: World, r: nat)
    requires Opened(s, w, r) && r != s.g.kern
    ensures Moves(s, Idle, w) && OneMore(s.g, w.g, r)
  {
  }

  lemma FreedKernel(s: World, w: World, r: nat)
    requires Good(s) && Good(w) && r != s.g.kern && Freed(Loosen(s, r), w, Top(r))
    ensures KernelKept(s.g, w.g)
  {
    hide Good, Named;
    KernelTop(s);
    KernelTop(w);
    forall q: Pos | q.Root() == s.g.kern ensures !Below(Top(r), q) { BelowRoot(Top(r), 0, q); }
  }

  // One kernel page table entry is rewritten.
  lemma PutKernel(w: World, p: Pos, i: nat, e: Entry)
    requires Good(w) && p in w.g.ents && KernelLeaf(w.g.kern, p) && i < ENTRIES && Sized(w.g.ents)
    ensures var h := SetLeaf(w.g, p, i, e);
            && TopKept(w.g, h) && KernelBut(w.g, h, p, i) && h.flat == w.g.flat
            && Sees(h, p, i) == if e.present then e else ABSENT
  {
    hide Good;
    KernelTop(w);
  }

  lemma NewTableKernel(w: World, i: nat, f: nat)
    requires Sized(w.g.ents) && Top(w.g.kern) in w.g.ents && i < ENTRIES
    requires Sized(AddTable(w.g, Kid(Top(w.g.kern), i), f).ents)
    ensures var top, e := Top(w.g.kern), Entry(true, true, false, false, f);
            var h := AddTable(w.g, Kid(top, i), f);
            top in h.ents && PagesKept(w.g, Link(h, top, i, e))
  {
  }

  // ---------- The frame of a kernel page ----------

  // The kernel's frames after it has given up one reference to f.
  ghost function Dropped(others: map<nat, nat>, f: nat): map<nat, nat> {
    if f !in others then others else if others[f] > 1 then others[f := others[f] - 1] else others - {f}
  }

  // A frame that vmm_map_page may give back when it replaces a kernel page: device memory, or a frame the
  // kernel holds that is not part of a shared-memory object.
  ghost predicate KernelOwned(w: World, f: nat) {
    LOW_FRAMES <= f < |w.pool.used| ==> f in w.others && f !in w.shm
  }

  lemma ReleaseKeptBalances(pool: Pool, tabs: set<nat>, flat: map<Slot, Entry>, others: map<nat, nat>, f: nat)
    requires Balanced(pool, tabs, flat, others) && LOW_FRAMES <= f && f in others
    ensures Balanced(Release(pool, f), tabs, flat, Dropped(others, f))
  {
  }

  // The frames the kernel holds after it has released f; the low frames are never given back.
  ghost function Given(others: map<nat, nat>, f: nat): map<nat, nat> {
    if LOW_FRAMES <= f then Dropped(others, f) else others
  }

  lemma ReleaseKernelGood(w: World, f: nat)
    requires Good(w) && Valid(w.pool) && KernelOwned(w, f)
    ensures Good(World(w.tables, w.data, Release(w.pool, f), w.g, w.cut, Given(w.others, f), w.shm))
  {
    hide Inv, Balanced, Shaped, Stored;
    var u := World(w.tables, w.data, Release(w.pool, f), w.g, w.cut, Given(w.others, f), w.shm);
    if LOW_FRAMES <= f < |w.pool.used| {
      ReleaseKeptBalances(w.pool, w.tables.Keys, w.g.flat, w.others, f);
    } else {
      assert Given(w.others, f) == w.others by { OthersInPool(w); }
    }
    assert u.View() == w.View();
    MakeGood(u);
  }

  lemma OthersInPool(w: World)
    requires Sound(w)
    ensures forall f :: f in w.others ==> f < |w.pool.used|
  {
  }

  lemma KernelButSelf(g: Layout, p: Pos, i: nat)
    ensures KernelBut(g, g, p, i)
  {
  }

  lemma InUse(w: World)
    requires Good(w) && Valid(w.pool) && Alloc(w.pool).1 != 0
    ensures Alloc(w.pool).1 < |w.data|
  {
    GoodInv(w);
    SpareUnused(w);
  }

  // ---------- A frame for shared memory ----------

  lemma SharedFrameGood(w: World)
    requires Good(w) && Valid(w.pool) && Alloc(w.pool).1 != 0 && Alloc(w.pool).1 < |w.data|
    ensures var u := TakeFrame(w, Blank()); var f := Alloc(w.pool).1;
            && Good(u.(shm := w.shm + {f})) && Moves(w, ShmPage(f), u.(shm := w.shm + {f}))
  {
    hide Shaped, Stored, Balanced, Inv, Unused;
    var f := Alloc(w.pool).1;
    TakeFrameGood(w, Blank());
    var u := TakeFrame(w, Blank());
    var v := u.(shm := w.shm + {f});
    StepSimulates(w.View(), ShmPage(f));
    assert v.View() == CopyOnWrite.Step(w.View(), ShmPage(f)).0;
    assert Sound(v);
    MakeGood(v);
  }

  // ---------- A missing kernel table ----------

  function TableEntry(f: nat): Entry {
    Entry(true, true, true, false, f)
  }

  // What vmm_map_page on the kernel's PML4 leaves when the three tables of the path are new.
  ghost function LinkedLate(tables: map<nat, seq<Entry>>, kern: nat, path: seq<nat>, i: nat, f: seq<nat>, e: Entry): map<nat, seq<Entry>>
    requires |path| == |f| == 3 && kern in tables && path[0] < |tables[kern]| && path[1] < ENTRIES && path[2] < ENTRIES && i < ENTRIES
  {
    tables[kern := tables[kern][path[0] := TableEntry(f[0])]]
          [f[0] := Empty()[path[1] := TableEntry(f[1])]]
          [f[1] := Empty()[path[2] := TableEntry(f[2])]]
          [f[2] := Empty()[i := e]]
  }

  // A kernel page whose tables are made only after an address space was opened is seen from the kernel's own PML4
  // and from no other: for this vmm_init makes all kernel tables in advance.
  lemma LateTableUnseen(s: World, r: nat, path: seq<nat>, i: nat, f: seq<nat>, e: Entry)
    requires AtRest(s) && Top(r) in s.g.ents && e.present && i < ENTRIES && |path| == |f| == 3
    requires KERNEL_HALF <= path[0] < ENTRIES && path[1] < ENTRIES && path[2] < ENTRIES
    requires s.g.kern in s.tables && path[0] < |s.tables[s.g.kern]| && !s.tables[s.g.kern][path[0]].present
    requires f[0] !in s.tables && f[1] !in s.tables && f[2] !in s.tables && f[0] != f[1] && f[1] != f[2] && f[0] != f[2]
    ensures Translate(LinkedLate(s.tables, s.g.kern, path, i, f, e), r, path, i) == if r == s.g.kern then e else ABSENT
  {
    var to := LinkedLate(s.tables, s.g.kern, path, i, f, e);
    RootTable(s, r, path[0]);
    hide AtRest;
    if r == s.g.kern {
      assert path[1..][1..] == [path[2]] && path[1..][1..][1..] == [];
      assert Walk(to, f[2], []) == Found(f[2]);
      assert Walk(to, f[1], [path[2]]) == Found(f[2]);
      assert Walk(to, f[0], path[1..]) == Found(f[2]);
      assert Walk(to, r, path) == Found(f[2]);
    } else {
      assert to[r] == s.tables[r];
      assert Walk(to, r, path) == Missing;
    }
  }

  lemma RootTable(s: World, r: nat, j: nat)
    requires AtRest(s) && Top(r) in s.g.ents && KERNEL_HALF <= j < ENTRIES
    ensures r in s.tables && s.g.kern in s.tables && |s.tables[r]| == |s.tables[s.g.kern]| == ENTRIES
    ensures s.tables[r][j] == s.tables[s.g.kern][j]
  {
    assert s.g.node[Top(r)] == r && s.g.node[Top(s.g.kern)] == s.g.kern;
    assert s.g.ents[Top(r)][j] == s.g.ents[Top(s.g.kern)][j];
    assert At(s.cut, Top(r)) == 0 && At(s.cut, Top(s.g.kern)) == 0;
  }
}
