/**
 Making and removing single mappings and whole address spaces, step by step (src/mem/vmm.c).
 */
module Mapping {
  import opened PageTypes
  import opened Frames
  import opened CopyOnWrite
  import opened FrameAccounts
  import opened PageTree
  import opened PageTeardown
  import opened PageFork
  import opened Worlds
  import opened Teardown
  import opened Forking

  // ---------- Tearing down an address space ----------

  ghost function Loosen(w: World, r: nat): World {
    World(w.tables, w.data, w.pool, w.g.(loose := w.g.loose + {Top(r)}), w.cut, w.others, w.shm)
  }

  lemma LoosenUp(g: Layout, r: nat)
    requires Sized(g.ents) && Up(g) && Top(r) in g.ents
    ensures Up(g.(loose := g.loose + {Top(r)}))
  {
    var h := g.(loose := g.loose + {Top(r)});
    forall q, i: nat | Kid(q, i) in h.ents ensures Hangs(h, q, i) <==> Kid(q, i) !in h.loose {
      assert Hangs(g, q, i) <==> Kid(q, i) !in g.loose;
    }
  }

  lemma LoosenGood(w: World, r: nat)
    requires Good(w) && Top(r) in w.g.ents
    ensures Good(Loosen(w, r))
  {
    hide Sized, Named, Rooted, Stored, Balanced, Inv, Flattened, Down, Up, KernelHalfShared;
    var h := Loosen(w, r).g;
    LoosenUp(w.g, r);
    LoosenHalf(w.g, r);
    StoredSame(w.tables, w.g, h, w.cut);
    FlatSame(w.g, h);
    DownSame(w.g, h);
  }

  lemma LoosenHalf(g: Layout, r: nat)
    requires Sized(g.ents) && Rooted(g) && KernelHalfShared(g)
    ensures KernelHalfShared(g.(loose := g.loose + {Top(r)}))
  {
  }

  lemma LoosenRemovable(w: World, r: nat)
    requires w.g.loose == {} && Uncut(w) && r != w.g.kern
    ensures Removable(Loosen(w, r), Top(r))
  {
  }

  // Address space r is gone; nothing else has changed.
  ghost predicate Gone(s: World, w: World, r: nat) {
    && w.g.flat == Without(s.g.flat, r)
    && w.g.kern == s.g.kern && w.g.loose == s.g.loose
    && (forall q :: q in w.g.ents <==> q in s.g.ents && q.Root() != r)
    && SameRest(s, w) && SameCut(s, w)
  }

  lemma GoneTables(l: Layout, h: Layout, r: nat)
    requires Basic(l) && Basic(h) && Pruned(l, h, Top(r))
    ensures h.kern == l.kern && h.loose == l.loose - {Top(r)}
    ensures forall q :: q in h.ents <==> q in l.ents && q.Root() != r
  {
    hide Sized, Named;
    forall q ensures q in h.ents <==> q in l.ents && q.Root() != r {
      BelowTop(q);
      BelowRoot(Top(r), 0, q);
    }
  }

  lemma FreedLoosened(s: World, w: World, r: nat)
    requires Freed(Loosen(s, r), w, Top(r))
    ensures var l := Loosen(s, r).g; Basic(l) && Basic(w.g) && Pruned(l, w.g, Top(r)) && l.ents == s.g.ents && l.node == s.g.node
    ensures SameRest(s, w) && SameCut(s, w)
    ensures Loosen(s, r).g.loose == s.g.loose + {Top(r)} && Loosen(s, r).g.kern == s.g.kern
  {
  }

  lemma SpaceGone(s: World, w: World, r: nat)
    requires Good(s) && Good(w) && s.g.loose == {} && Freed(Loosen(s, r), w, Top(r))
    ensures Gone(s, w, r)
  {
    hide Good, Shaped, Basic, Sized, Named, Without, Pruned, Freed, Loosen, SameCut;
    GoodParts(s);
    GoodParts(w);
    FreedLoosened(s, w, r);
    PrunedLoose(s.g, Loosen(s, r).g, w.g, r);
    GoneTables(Loosen(s, r).g, w.g, r);
  }

  lemma PrunedLoose(g: Layout, l: Layout, h: Layout, r: nat)
    requires Shaped(g) && Shaped(h) && Basic(l) && l.ents == g.ents && l.node == g.node
    requires Pruned(l, h, Top(r))
    ensures h.flat == Without(g.flat, r)
  {
    hide Shaped, Named;
    ShapedParts(g);
    ShapedParts(h);
    forall k ensures (k in h.flat <==> k in g.flat && k.Space() != r) && (k in h.flat ==> h.flat[k] == g.flat[k]) {
      BelowTop(k.pos);
      BelowRoot(Top(r), 0, k.pos);
    }
  }

  // ---------- A missing table on the way down ----------

  const TABLE_FLAGS := Entry(true, true, true, false, 0)

  ghost predicate CanGrow(w: World, p: Pos, i: nat) {
    && Good(w) && w.g.loose == {}
    && p in w.g.ents && !Leaf(p) && i < ENTRIES && i < |w.g.ents[p]| && !w.g.ents[p][i].present
    && (p == Top(w.g.kern) ==> i < KERNEL_HALF) && PageTree.Own(w.g, p, i)
    && Valid(w.pool) && Alloc(w.pool).1 != 0
  }

  // Adds an empty table below entry i of p.
  ghost function Grow(w: World, p: Pos, i: nat): World
    requires CanGrow(w, p, i)
  {
    GrowGood(w, p, i);
    Attach(Add(w, Kid(p, i)), p, i, TABLE_FLAGS.(frame := Alloc(w.pool).1))
  }

  lemma GrowPlace(g: Layout, p: Pos, i: nat, f: nat)
    requires Sized(g.ents) && Rooted(g) && Up(g) && g.loose == {} && p in g.ents && !Leaf(p) && i < ENTRIES
    requires PageTree.Own(g, p, i) && !g.ents[p][i].present
    requires forall q :: q in g.node ==> g.node[q] != f
    ensures CanAdd(g, Kid(p, i), f)
  {
    assert Kid(p, i) !in g.ents by { assert !Hangs(g, p, i); }
  }

  lemma GrowLink(g: Layout, p: Pos, i: nat, f: nat)
    requires Basic(g) && p in g.ents && i < ENTRIES && PageTree.Own(g, p, i)
    requires p == Top(g.kern) ==> i < KERNEL_HALF
    requires var h := AddTable(g, Kid(p, i), f); Basic(h) && h.loose <= h.ents.Keys
    ensures var h := AddTable(g, Kid(p, i), f);
            p in h.ents && CanLink(h, p, i, TABLE_FLAGS.(frame := f))
  {
  }

  lemma GrowGood(w: World, p: Pos, i: nat)
    requires CanGrow(w, p, i)
    ensures var u := Add(w, Kid(p, i)); var e := TABLE_FLAGS.(frame := Alloc(w.pool).1);
            && Good(u) && Sized(u.g.ents) && p in u.g.ents && p in u.g.node && u.g.node[p] in u.tables
            && i < |u.tables[u.g.node[p]]| && Good(Attach(u, p, i, e))
  {
    hide Good, Shaped, Stored, Sound, CanAdd, CanLink;
    var f := Alloc(w.pool).1;
    GoodParts(w);
    ShapedUp(w.g);
    AllocIsNew(w);
    GrowPlace(w.g, p, i, f);
    AddGood(w, Kid(p, i));
    var u := Add(w, Kid(p, i));
    GoodParts(u);
    GrowLink(w.g, p, i, f);
    AttachGood(u, p, i, TABLE_FLAGS.(frame := f));
  }

  lemma ShapedUp(g: Layout)
    requires Shaped(g)
    ensures Sized(g.ents) && Up(g) && Named(g) && Down(g) && Top(g.kern) in g.ents
  {
  }

  // Nothing but empty tables has been added.
  ghost predicate Grown(s: World, w: World) {
    && w.g.flat == s.g.flat && w.g.kern == s.g.kern && w.g.loose == s.g.loose
    && SameRest(s, w) && w.cut == s.cut
    && (forall q :: q in s.g.ents ==> q in w.g.ents && q in s.g.node && q in w.g.node && w.g.node[q] == s.g.node[q])
    && (forall q :: q in s.g.ents && Leaf(q) ==> w.g.ents[q] == s.g.ents[q])
    && (forall q :: q in w.g.ents && q !in s.g.ents && Leaf(q) ==> w.g.ents[q] == Empty())
    && (forall r :: Top(r) in w.g.ents <==> Top(r) in s.g.ents)
    && (forall r :: Top(r) in s.g.ents && |w.g.ents[Top(r)]| == |s.g.ents[Top(r)]| == ENTRIES ==>
          w.g.ents[Top(r)][KERNEL_HALF..] == s.g.ents[Top(r)][KERNEL_HALF..])
  }

  // The layout after Grow.
  ghost predicate GrowResult(g: Layout, h: Layout, p: Pos, i: nat, f: nat) {
    var k := Kid(p, i);
    && k !in g.ents && h.flat == g.flat && h.kern == g.kern && h.loose == g.loose
    && h.ents.Keys == g.ents.Keys + {k} && h.node == g.node[k := f] && h.ents[k] == Empty()
    && (forall q :: q in g.ents && q != p ==> h.ents[q] == g.ents[q])
    && p in g.ents && |g.ents[p]| == ENTRIES && i < ENTRIES
    && h.ents[p] == g.ents[p][i := TABLE_FLAGS.(frame := f)]
    && g.node.Keys == g.ents.Keys
  }

  lemma GrowLayout(g: Layout, p: Pos, i: nat, f: nat)
    requires Basic(g) && p in g.ents && i < ENTRIES && Kid(p, i) !in g.ents && g.loose == {}
    requires Sized(AddTable(g, Kid(p, i), f).ents)
    ensures GrowResult(g, Link(AddTable(g, Kid(p, i), f), p, i, TABLE_FLAGS.(frame := f)), p, i, f)
  {
    var h := AddTable(g, Kid(p, i), f);
    assert h.ents[p] == g.ents[p];
  }

  lemma GrowNew(g: Layout, p: Pos, i: nat)
    requires Sized(g.ents) && Up(g) && g.loose == {} && p in g.ents && i < ENTRIES && !g.ents[p][i].present
    ensures Kid(p, i) !in g.ents
  {
    assert !Hangs(g, p, i);
  }

  lemma GrowFacts(w: World, p: Pos, i: nat)
    requires CanGrow(w, p, i)
    ensures var u := Grow(w, p, i);
            GrowResult(w.g, u.g, p, i, Alloc(w.pool).1) && SameRest(w, u) && u.cut == w.cut
  {
    hide Good, Shaped, Sized, Named, Up, GrowResult;
    GrowGood(w, p, i);
    GoodParts(w);
    ShapedUp(w.g);
    GrowNew(w.g, p, i);
    GrowLayout(w.g, p, i, Alloc(w.pool).1);
  }

  lemma GrowGrown(s: World, w: World, p: Pos, i: nat)
    requires Grown(s, w) && CanGrow(w, p, i)
    ensures Grown(s, Grow(w, p, i))
    ensures Kid(p, i) in Grow(w, p, i).g.ents && Kid(p, i) in Grow(w, p, i).g.node
    ensures Grow(w, p, i).g.node[Kid(p, i)] == Alloc(w.pool).1
  {
    hide Good, Grow;
    GrowFacts(w, p, i);
    GrownStep(s, w, Grow(w, p, i), p, i, Alloc(w.pool).1);
  }

  lemma GrownStep(s: World, w: World, u: World, p: Pos, i: nat, f: nat)
    requires Grown(s, w) && GrowResult(w.g, u.g, p, i, f) && SameRest(w, u) && u.cut == w.cut && !Leaf(p)
    requires (p == Top(w.g.kern) ==> i < KERNEL_HALF) && PageTree.Own(w.g, p, i)
    ensures Grown(s, u)
  {
    assert p.Top? ==> u.g.ents[p][KERNEL_HALF..] == w.g.ents[p][KERNEL_HALF..];
    forall r | Top(r) in s.g.ents && |u.g.ents[Top(r)]| == |s.g.ents[Top(r)]| == ENTRIES
      ensures u.g.ents[Top(r)][KERNEL_HALF..] == s.g.ents[Top(r)][KERNEL_HALF..]
    {
      assert |w.g.ents[Top(r)]| == ENTRIES;
    }
  }

  // ---------- One page entry ----------

  lemma PutFlatAny(g: Layout, a: Pos, i: nat, e: Entry)
    requires Sized(g.ents) && a in g.ents && UserLeaf(a) && i < ENTRIES
    ensures SetLeaf(g, a, i, e).flat == if e.present then g.flat[Slot(a, i) := e] else g.flat - {Slot(a, i)}
  {
  }

  // The pool after the page at slot k has been given up by vmm_map_page for frame f.
  function Replaced(pool: Pool, flat: map<Slot, Entry>, k: Slot, f: nat): Pool
    requires Valid(pool)
  {
    if k in flat && flat[k].frame != f && !flat[k].shared then Release(pool, flat[k].frame) else pool
  }

  lemma ReplaceAccount(pool: Pool, tabs: set<nat>, flat: map<Slot, Entry>, others: map<nat, nat>, k: Slot, f: nat)
    requires Balanced(pool, tabs, flat, others) && LOW_FRAMES <= f && f in others && others[f] == 1
    ensures var e := Entry(true, true, true, false, f);
            Balanced(Replaced(pool, flat, k, f), tabs, flat[k := e], others - {f})
  {
    var e := Entry(true, true, true, false, f);
    NotInOthers(pool, tabs, flat, others, k);
    hide Balanced;
    if k in flat && !flat[k].shared {
      DropPrivateBalances(pool, tabs, flat, others, k);
      GivePrivateBalances(Release(pool, flat[k].frame), tabs, flat - {k}, others, k, e);
      assert (flat - {k})[k := e] == flat[k := e];
    } else {
      GivePrivateBalances(pool, tabs, flat, others, k, e);
    }
  }

  lemma NotInOthers(pool: Pool, tabs: set<nat>, flat: map<Slot, Entry>, others: map<nat, nat>, k: Slot)
    requires Balanced(pool, tabs, flat, others)
    ensures k in flat && !flat[k].shared ==> flat[k].frame !in others
  {
  }

  lemma ReplacePrivate(w: World, k: Slot, f: nat)
    requires Sound(w) && Valid(w.pool) && LOW_FRAMES <= f && f in w.others && w.others[f] == 1 && f !in w.shm
    ensures var e := Entry(true, true, true, false, f); var pool := Replaced(w.pool, w.g.flat, k, f);
            && Balanced(pool, w.tables.Keys, w.g.flat[k := e], w.others - {f})
            && |w.data| == |pool.used| && w.shm <= (w.others - {f}).Keys
            && f < |w.data| && Unused(w.View(), f) && Inv(Lazy(w.g.flat[k := e], w.data, w.shm))
  {
    hide Balanced, Inv;
    InHand(w, f);
    MapKeeps(w.View(), k, Entry(true, true, true, false, f), f, w.data[f]);
    assert w.data[f := w.data[f]] == w.data;
    ReplaceAccount(w.pool, w.tables.Keys, w.g.flat, w.others, k, f);
  }

  // No user page lies in a frame the kernel keeps.
  lemma InHand(w: World, f: nat)
    requires Sound(w) && f in w.others && f !in w.shm
    ensures f < |w.data| && Unused(w.View(), f)
  {
  }

  lemma ReplaceShared(w: World, k: Slot, f: nat)
    requires Sound(w) && Valid(w.pool) && f in w.shm
    ensures var e := Entry(true, true, true, true, f); var pool := Replaced(w.pool, w.g.flat, k, f);
            && Balanced(pool, w.tables.Keys, w.g.flat[k := e], w.others)
            && |w.data| == |pool.used| && Inv(Lazy(w.g.flat[k := e], w.data, w.shm))
  {
    var e := Entry(true, true, true, true, f);
    MapSharedKeeps(w.View(), k, f);
    if k in w.g.flat && !w.g.flat[k].shared {
      assert f in w.others && w.g.flat[k].frame != f;
      hide Balanced, Inv;
      DropPrivateBalances(w.pool, w.tables.Keys, w.g.flat, w.others, k);
      SameHoldersBalance(Release(w.pool, w.g.flat[k].frame), w.tables.Keys, w.g.flat - {k}, w.g.flat[k := e], w.others);
    } else {
      hide Balanced, Inv;
      SameHoldersBalance(w.pool, w.tables.Keys, w.g.flat, w.g.flat[k := e], w.others);
    }
  }

  // The pool after vmm_unmap_user has dropped the page at k; the flag is that of the region's node.
  function Unmapped(pool: Pool, e: Entry, shmNode: bool): Pool
    requires Valid(pool)
  {
    if shmNode then pool else Release(pool, e.frame)
  }

  lemma DropMapped(w: World, k: Slot)
    requires Sound(w) && Valid(w.pool) && k in w.g.flat
    ensures var pool := Unmapped(w.pool, w.g.flat[k], w.g.flat[k].shared);
            && Balanced(pool, w.tables.Keys, w.g.flat - {k}, w.others)
            && |w.data| == |pool.used| && Inv(Lazy(w.g.flat - {k}, w.data, w.shm))
  {
    hide Balanced, Inv;
    DropKeeps(w.View(), Lazy(w.g.flat - {k}, w.data, w.shm));
    if w.g.flat[k].shared {
      SameHoldersBalance(w.pool, w.tables.Keys, w.g.flat, w.g.flat - {k}, w.others);
    } else {
      DropPrivateBalances(w.pool, w.tables.Keys, w.g.flat, w.others, k);
    }
  }

  // vmm_unmap_user keeps the account of frames exactly when the flag of the region agrees with the
  // entry: a private page in a region marked shared is never given back, and a shared page in an
  // ordinary region is given back although its owner keeps it.
  lemma UnmapBalancedIff(pool: Pool, tabs: set<nat>, flat: map<Slot, Entry>, others: map<nat, nat>, k: Slot, shmNode: bool)
    requires Balanced(pool, tabs, flat, others) && k in flat
    requires flat[k].shared ==> LOW_FRAMES <= flat[k].frame && flat[k].frame in others && others[flat[k].frame] >= 1
    ensures Balanced(Unmapped(pool, flat[k], shmNode), tabs, flat - {k}, others) <==> shmNode == flat[k].shared
  {
    var e := flat[k];
    if shmNode == e.shared {
      if e.shared {
        SameHoldersBalance(pool, tabs, flat, flat - {k}, others);
      } else {
        DropPrivateBalances(pool, tabs, flat, others, k);
      }
    } else if !e.shared {
      assert k in Holders(flat, e.frame);
      assert Holders(flat - {k}, e.frame) == Holders(flat, e.frame) - {k};
      assert |Holders(flat - {k}, e.frame)| == |Holders(flat, e.frame)| - 1;
    }
  }

  // ---------- The page fault ----------

  // The account after vmm_handle_cow has moved slot k to a frame of its own.
  lemma SplitAccount(pool: Pool, tabs: set<nat>, flat: map<Slot, Entry>, others: map<nat, nat>, k: Slot, e: Entry)
    requires Balanced(pool, tabs, flat, others) && Valid(pool) && k in flat && !flat[k].shared && !e.shared
    requires e.frame == Alloc(pool).1 != 0
    ensures Balanced(Release(Alloc(pool).0, flat[k].frame), tabs, flat[k := e], others)
  {
    hide Balanced;
    var (taken, f) := Alloc(pool);
    AllocBalances(pool, tabs, flat, others);
    DropPrivateBalances(taken, tabs, flat, others[f := 1], k);
    GivePrivateBalances(Release(taken, flat[k].frame), tabs, flat - {k}, others[f := 1], k, e);
    assert (flat - {k})[k := e] == flat[k := e];
    assert others[f := 1] - {f} == others;
  }

  lemma SplitPage(w: World, k: Slot)
    requires Sound(w) && Valid(w.pool) && k in w.g.flat && !w.g.flat[k].shared && !w.g.flat[k].writable
    requires |Holders(w.g.flat, w.g.flat[k].frame)| > 1 && Alloc(w.pool).1 != 0
    ensures var (taken, f) := Alloc(w.pool); var was := w.g.flat[k];
            var pool := Release(taken, was.frame);
            var t := Lazy(w.g.flat[k := was.(writable := true, frame := f)], w.data[f := w.data[was.frame]], w.shm);
            && f < |w.data| && was.frame < |w.data| && Unused(w.View(), f)
            && t == HandleFault(w.View(), k, f).0
            && Balanced(pool, w.tables.Keys, t.maps, w.others) && |t.data| == |pool.used| && Inv(t)
  {
    hide Balanced, Inv, Unused, Valid, Holders;
    var (taken, f) := Alloc(w.pool);
    var was := w.g.flat[k];
    SpareUnused(w);
    FaultCount(w, k);
    FaultKeeps(w.View(), k, f);
    SplitAccount(w.pool, w.tables.Keys, w.g.flat, w.others, k, was.(writable := true, frame := f));
  }

  lemma SpareUnused(w: World)
    requires Sound(w) && Valid(w.pool) && Alloc(w.pool).1 != 0
    ensures Alloc(w.pool).1 < |w.data| && Unused(w.View(), Alloc(w.pool).1) && Alloc(w.pool).1 !in w.others
  {
    AllocBalances(w.pool, w.tables.Keys, w.g.flat, w.others);
  }

  // The last holder of a page may write to it.
  lemma Reclaim(w: World, k: Slot)
    requires Sound(w) && Valid(w.pool) && k in w.g.flat && !w.g.flat[k].shared && !w.g.flat[k].writable
    requires |Holders(w.g.flat, w.g.flat[k].frame)| <= 1
    ensures w.g.flat[k].frame < |w.data|
    ensures var t := HandleFault(w.View(), k, 0).0;
            && t == Lazy(w.g.flat[k := w.g.flat[k].(writable := true)], w.data, w.shm)
            && Balanced(w.pool, w.tables.Keys, t.maps, w.others) && Inv(t)
  {
    assert EntryOk(w.View(), k);
    FaultKeeps(w.View(), k, 0);
    hide Balanced, Inv;
    SameHoldersBalance(w.pool, w.tables.Keys, w.g.flat,
                       w.g.flat[k := w.g.flat[k].(writable := true)], w.others);
  }

  // The count the handler reads is the number of holders, and a page that faults is private.
  lemma FaultCount(w: World, k: Slot)
    requires Sound(w) && k in w.g.flat && !w.g.flat[k].writable
    ensures !w.g.flat[k].shared && w.g.flat[k].frame < |w.pool.refs| == |w.data|
    ensures w.pool.refs[w.g.flat[k].frame] == |Holders(w.g.flat, w.g.flat[k].frame)|
  {
    assert EntryOk(w.View(), k);
  }

  // ---------- Steps of the walk ----------

  lemma StepDown(g: Layout, p: Pos, i: nat)
    requires Shaped(g) && p in g.ents && !Leaf(p) && i < ENTRIES && PageTree.Own(g, p, i) && g.loose == {}
    ensures g.ents[p][i].present <==> Kid(p, i) in g.ents
    ensures g.ents[p][i].present ==> Kid(p, i) in g.node && g.node[Kid(p, i)] == g.ents[p][i].frame
  {
    assert Hangs(g, p, i) <==> g.ents[p][i].present;
  }

  // The kernel half of any PML4 leads into the kernel's tree.
  lemma StepDownKernel(g: Layout, r: nat, i: nat)
    requires Shaped(g) && Top(r) in g.ents && KERNEL_HALF <= i < ENTRIES && g.loose == {}
    ensures Top(g.kern) in g.ents && g.ents[Top(r)][i] == g.ents[Top(g.kern)][i]
    ensures g.ents[Top(r)][i].present <==> Kid(Top(g.kern), i) in g.ents
    ensures g.ents[Top(r)][i].present ==>
      Kid(Top(g.kern), i) in g.node && g.node[Kid(Top(g.kern), i)] == g.ents[Top(r)][i].frame
  {
    StepDown(g, Top(g.kern), i);
  }

  lemma GrownSelf(w: World)
    requires Good(w)
    ensures Grown(w, w)
  {
  }

  lemma GrownTrans(a: World, b: World, c: World)
    requires Sized(a.g.ents) && Sized(b.g.ents) && Sized(c.g.ents) && Grown(a, b) && Grown(b, c)
    ensures Grown(a, c)
  {
    forall r | Top(r) in a.g.ents ensures c.g.ents[Top(r)][KERNEL_HALF..] == a.g.ents[Top(r)][KERNEL_HALF..] {
      assert Top(r) in b.g.ents;
    }
  }

  // A table frame is never frame 0, which stands for "none".
  lemma TableNotZero(w: World, p: Pos)
    requires Good(w) && p in w.g.node
    ensures w.g.node[p] != 0
  {
    assert w.g.node[p] in w.g.node.Values;
  }

  lemma GrowIs(w: World, p: Pos, i: nat)
    requires CanGrow(w, p, i)
    ensures Good(Grow(w, p, i))
    ensures var f := Alloc(w.pool).1; var e := TABLE_FLAGS.(frame := f);
            && f !in w.tables && p in w.g.node && w.g.node[p] in w.tables && w.g.node[p] != f && i < |w.tables[w.g.node[p]]|
            && Sized(AddTable(w.g, Kid(p, i), f).ents) && p in AddTable(w.g, Kid(p, i), f).ents
            && Grow(w, p, i) ==
                 World(w.tables[f := Empty()][w.g.node[p] := w.tables[w.g.node[p]][i := e]], w.data, Alloc(w.pool).0,
                       Link(AddTable(w.g, Kid(p, i), f), p, i, e), w.cut, w.others, w.shm)
  {
    hide Good, AddTable, Link;
    GrowGood(w, p, i);
    AllocIsNew(w);
    GoodParts(w);
    TableThere(w, p);
    AddNode(w.g, Kid(p, i), Alloc(w.pool).1, p);
  }

  lemma TableThere(w: World, p: Pos)
    requires Good(w) && p in w.g.ents
    ensures p in w.g.node && w.g.node[p] in w.tables && |w.tables[w.g.node[p]]| == ENTRIES
  {
    assert w.g.node[p] in w.g.node.Values;
  }

  lemma AddNode(g: Layout, k: Pos, f: nat, p: Pos)
    requires p in g.node && p != k
    ensures p in AddTable(g, k, f).node && AddTable(g, k, f).node[p] == g.node[p]
  {
  }

  lemma GrownReady(s: World, w: World)
    requires Grown(s, w) && s.g.loose == {} && Uncut(s)
    ensures w.g.loose == {} && Uncut(w) && w.g.kern == s.g.kern
  {
  }

  lemma GoneReady(s: World, w: World, r: nat)
    requires Gone(s, w, r) && s.g.loose == {} && Uncut(s)
    ensures w.g.loose == {} && Uncut(w) && w.g.kern == s.g.kern
  {
    UncutAt(s, w, Top(0));
  }

  // ---------- A new address space ----------

  // Address space r is there, maps nothing of its own, and shares the kernel half.
  ghost predicate Opened(s: World, w: World, r: nat) {
    && Top(r) !in s.g.ents && w.g.ents.Keys == s.g.ents.Keys + {Top(r)}
    && w.g.flat == s.g.flat && w.g.kern == s.g.kern && w.g.loose == s.g.loose
    && SameRest(s, w) && w.cut == s.cut
    && (forall q :: q in s.g.ents ==> w.g.ents[q] == s.g.ents[q])
    && (|w.g.ents[Top(r)]| == ENTRIES && forall j :: 0 <= j < KERNEL_HALF ==> w.g.ents[Top(r)][j] == ABSENT)
  }

  lemma CanOpen(s: World, r: nat)
    requires Good(s) && Top(r) !in s.g.ents && forall q :: q in s.g.node ==> s.g.node[q] != r
    ensures CanAdd(s.g, Top(r), r)
  {
  }

  lemma SpaceOpened(s: World, u: World, r: nat)
    requires Good(s) && s.g.loose == {} && Top(r) !in s.g.ents && Valid(s.pool) && Alloc(s.pool).1 == r
    requires HalfFilled(Add(s, Top(r)), u, r)
    ensures Opened(s, Publish(u, r), r)
  {
    hide Good;
  }

  // ---------- The four levels of a path ----------

  lemma PathLeaf(r: nat, path: seq<nat>)
    requires |path| == 3
    ensures Descend(Top(r), path) == Kid(Kid(Kid(Top(r), path[0]), path[1]), path[2])
    ensures Leaf(Descend(Top(r), path))
  {
    assert path[1..][1..] == [path[2]];
    assert Descend(Kid(Kid(Top(r), path[0]), path[1]), [path[2]]) == Kid(Kid(Kid(Top(r), path[0]), path[1]), path[2]);
  }

  lemma NotLeafAbove(r: nat, path: seq<nat>)
    requires |path| == 3
    ensures !Leaf(Top(r)) && !Leaf(Kid(Top(r), path[0])) && !Leaf(Kid(Kid(Top(r), path[0]), path[1]))
  {
  }

  // If a table on the way is missing, so is the last one.
  lemma MissingAt(w: World, top: Pos, path: seq<nat>, k: nat)
    requires Good(w) && w.g.loose == {} && |path| == 3 && k < 3 && top.Top?
    requires k == 0 ==> Kid(top, path[0]) !in w.g.ents
    requires k == 1 ==> Kid(Kid(top, path[0]), path[1]) !in w.g.ents
    requires k == 2 ==> Kid(Kid(Kid(top, path[0]), path[1]), path[2]) !in w.g.ents
    ensures Descend(top, path) !in w.g.ents
  {
    hide Down, Up, KernelHalfShared, Flattened, Stored, Sound, Named;
    PathLeaf(top.root, path);
  }

  lemma TopKernel(w: World, r: nat, i: nat)
    requires Good(w) && w.g.loose == {} && Uncut(w) && Top(r) in w.g.ents && KERNEL_HALF <= i < ENTRIES
    ensures r in w.tables && i < |w.tables[r]| && Top(w.g.kern) in w.g.ents && i < |w.g.ents[Top(w.g.kern)]|
    ensures w.tables[r][i] == w.g.ents[Top(w.g.kern)][i]
    ensures w.tables[r][i].present <==> Kid(Top(w.g.kern), i) in w.g.ents
    ensures w.tables[r][i].present ==>
      Kid(Top(w.g.kern), i) in w.g.node && w.g.node[Kid(Top(w.g.kern), i)] == w.tables[r][i].frame
  {
    hide Good, Shaped;
    GoodParts(w);
    TopNode(w.g, r);
    ReadEntry(w, Top(r), i);
    StepDownKernel(w.g, r, i);
  }

  lemma EntriesOf(w: World, p: Pos)
    requires Good(w) && p in w.g.ents
    ensures |w.g.ents[p]| == ENTRIES
  {
  }

  lemma GrownGood(a: World, b: World, c: World)
    requires Good(a) && Good(b) && Good(c) && Grown(a, b) && Grown(b, c)
    ensures Grown(a, c)
  {
    hide Good, Grown, Sized;
    GoodParts(a);
    GoodParts(b);
    GoodParts(c);
    GrownTrans(a, b, c);
  }

  // ---------- Events ----------

  // The world moves from s to w by the given event of the copy-on-write machine.
  ghost predicate Moves(s: World, ev: Event, w: World) {
    Enabled(s.View(), ev) && (Inv(s.View()) ==> w.View() == CopyOnWrite.Step(s.View(), ev).0)
  }

  lemma GoodInv(w: World)
    requires Good(w)
    ensures Inv(w.View()) && Sound(w) && Valid(w.pool) && |w.data| == |w.pool.used|
  {
  }

  lemma ForkMoves(s: World, w: World, r: nat, c: nat)
    requires Good(s) && Good(w) && Forked(s, w, r, c)
    ensures Moves(s, Fork(r, c), w)
  {
    hide Good, Shaped, Inv, ForkMaps;
    GoodParts(s);
    GoodInv(s);
    NoneAtRoot(s.g, c);
  }

  lemma GiveUpMoves(s: World, w: World)
    requires Good(s) && Good(w) && GaveUp(s, w)
    ensures exists ks :: Moves(s, FailedFork(ks), w)
  {
    hide Good, Inv, GaveUp;
    GoodInv(s);
    GaveUpRestores(s, w);
    var ks :| w.g.flat == DemoteAll(s.g.flat, ks);
    assert Moves(s, FailedFork(ks), w);
  }

  lemma ExitMoves(s: World, w: World, r: nat)
    requires Good(s) && Good(w) && Gone(s, w, r)
    ensures Moves(s, Exit(r), w)
  {
    hide Good, Inv;
    GoodInv(s);
  }

  // ---------- Frames in hand ----------

  // A frame just allocated, filled by its new owner.
  ghost function TakeFrame(w: World, page: Page): World
    requires Valid(w.pool) && Alloc(w.pool).1 < |w.data|
  {
    var (pool, f) := Alloc(w.pool);
    World(w.tables, w.data[f := page], pool, w.g, w.cut, w.others[f := 1], w.shm)
  }

  lemma TakeFrameGood(w: World, page: Page)
    requires Good(w) && Valid(w.pool) && Alloc(w.pool).1 != 0
    ensures var f := Alloc(w.pool).1;
            && f < |w.data| && LOW_FRAMES <= f && f !in w.shm && Unused(w.View(), f)
            && Good(TakeFrame(w, page))
  {
    hide Shaped, Stored, Balanced, Inv, Unused;
    var f := Alloc(w.pool).1;
    SpareUnused(w);
    AllocBalances(w.pool, w.tables.Keys, w.g.flat, w.others);
    FillUnused(w.View(), f, page);
    assert f !in w.shm;
    var u := TakeFrame(w, page);
    assert u.View() == w.View().(data := w.data[f := page]);
    assert Sound(u);
    MakeGood(u);
  }

  // The page entry in memory is the flat entry.
  lemma PageAt(w: World, p: Pos, i: nat)
    requires Good(w) && Uncut(w) && p in w.g.ents && UserLeaf(p) && i < ENTRIES
    ensures p in w.g.node && w.g.node[p] in w.tables && |w.tables[w.g.node[p]]| == ENTRIES
    ensures var e := w.tables[w.g.node[p]][i]; var k := Slot(p, i);
            (k in w.g.flat <==> e.present) && (k in w.g.flat ==> w.g.flat[k] == e)
  {
    hide Good, Sized, Flattened, UserLeaf;
    GoodParts(w);
    ReadEntry(w, p, i);
    FlatEntry(w.g, p, i);
  }

  lemma NoPage(w: World, p: Pos, i: nat)
    requires Good(w) && p !in w.g.ents
    ensures Slot(p, i) !in w.g.flat
  {
  }

  lemma GrownView(s: World, w: World)
    requires Grown(s, w)
    ensures w.View() == s.View() && w.others == s.others && w.shm == s.shm && w.data == s.data && w.g.flat == s.g.flat
  {
  }

  lemma GrownTops(s: World, w: World, r: nat)
    requires Grown(s, w) && Top(r) in s.g.ents
    ensures Top(r) in w.g.ents
  {
  }

  lemma KernelKeeps(w: World)
    requires Good(w)
    ensures w.shm <= w.others.Keys && |w.data| == |w.pool.used|
  {
  }

  // Rewriting one entry, when pool, contents and kernel frames already fit the new flat view.
  lemma RewriteReady(w: World, p: Pos, i: nat, e: Entry, rest: map<nat, nat>, flat: map<Slot, Entry>)
    requires Shaped(w.g) && Stored(w.tables, w.g, w.cut) && p in w.g.ents && UserLeaf(p) && i < ENTRIES
    requires flat == if e.present then w.g.flat[Slot(p, i) := e] else w.g.flat - {Slot(p, i)}
    requires Balanced(w.pool, w.tables.Keys, flat, rest) && |w.data| == |w.pool.used| && w.shm <= rest.Keys
    requires Inv(Lazy(flat, w.data, w.shm))
    ensures Sized(w.g.ents) && p in w.g.node && w.g.node[p] in w.tables && i < |w.tables[w.g.node[p]]|
    ensures var f := w.g.node[p];
            var u := World(w.tables[f := w.tables[f][i := e]], w.data, w.pool, SetLeaf(w.g, p, i, e), w.cut, rest, w.shm);
            Good(u) && u.g.flat == flat && u.g.ents.Keys == w.g.ents.Keys && u.g.kern == w.g.kern && u.g.loose == w.g.loose
  {
    hide Shaped, Sized, Named, Stored, Balanced, Inv, UserLeaf;
    ShapedUp(w.g);
    UserLeafIsLeaf(p);
    SetLeafShaped(w.g, p, i, e);
    StoredSet(w.tables, w.g, w.cut, p, i, e);
    var f := w.g.node[p];
    var tables := w.tables[f := w.tables[f][i := e]];
    StoredSame(tables, SetEntry(w.g, p, i, e), SetLeaf(w.g, p, i, e), w.cut);
    PutFlatAny(w.g, p, i, e);
    var u := World(tables, w.data, w.pool, SetLeaf(w.g, p, i, e), w.cut, rest, w.shm);
    assert tables.Keys == w.tables.Keys;
    assert u.View() == Lazy(flat, w.data, w.shm);
    assert Sound(u);
    MakeGood(u);
  }

  // ---------- The kernel half ----------

  lemma KernelSlotNew(w: World, i: nat)
    requires Good(w) && w.g.loose == {} && KERNEL_HALF <= i < ENTRIES && Valid(w.pool) && Alloc(w.pool).1 != 0
    requires Top(w.g.kern) in w.g.ents && i < |w.g.ents[Top(w.g.kern)]| && !w.g.ents[Top(w.g.kern)][i].present
    requires forall r :: Top(r) in w.g.ents ==> r == w.g.kern
    ensures var u := Add(w, Kid(Top(w.g.kern), i)); var e := Entry(true, true, false, false, Alloc(w.pool).1);
            && Good(u) && Sized(u.g.ents) && Top(w.g.kern) in u.g.ents && Top(w.g.kern) in u.g.node
            && u.g.node[Top(w.g.kern)] == w.g.kern && w.g.kern in u.tables && i < |u.tables[w.g.kern]|
            && Good(Attach(u, Top(w.g.kern), i, e))
  {
    hide Good, Shaped, Stored, Sound, CanAdd, Leaf, CanLink, Sized, Named, Rooted, Up, Flattened;
    var f, top := Alloc(w.pool).1, Top(w.g.kern);
    var k := Kid(top, i);
    GoodParts(w);
    ShapedUp(w.g);
    AllocIsNew(w);
    NotLeafAbove(w.g.kern, [i, 0, 0]);
    GrowPlace(w.g, top, i, f);
    AddGood(w, k);
    var u := Add(w, k);
    GoodParts(u);
    TopNode(u.g, w.g.kern);
    KernelCanLink(w.g, i, f);
    AttachGood(u, top, i, Entry(true, true, false, false, f));
  }

  lemma KernelCanLink(g: Layout, i: nat, f: nat)
    requires Basic(g) && Top(g.kern) in g.ents && i < ENTRIES && forall r :: Top(r) in g.ents ==> r == g.kern
    requires var h := AddTable(g, Kid(Top(g.kern), i), f); Basic(h) && h.loose <= h.ents.Keys
    ensures var h := AddTable(g, Kid(Top(g.kern), i), f);
            h.kern == g.kern && Top(g.kern) in h.ents && CanLink(h, Top(g.kern), i, Entry(true, true, false, false, f))
  {
  }

  // The layout with the new table in place.
  lemma KernelSlotFacts(w: World, i: nat, f: nat)
    requires Sized(w.g.ents) && Top(w.g.kern) in w.g.ents && i < ENTRIES && w.g.loose == {}
    requires Sized(AddTable(w.g, Kid(Top(w.g.kern), i), f).ents)
    ensures var top := Top(w.g.kern); var e := Entry(true, true, false, false, f);
            var h := AddTable(w.g, Kid(top, i), f);
            && top in h.ents
            && var v := Link(h, top, i, e);
               && v.kern == w.g.kern && v.loose == {} && v.flat == w.g.flat && top in v.ents
               && v.ents[top] == w.g.ents[top][i := e]
               && (forall r :: Top(r) in v.ents ==> Top(r) in w.g.ents)
  {
    assert AddTable(w.g, Kid(Top(w.g.kern), i), f).loose == {Kid(Top(w.g.kern), i)};
  }

  // What is mapped in the kernel half is mapped there in every address space.
  lemma KernelSeenEverywhere(tables: map<nat, seq<Entry>>, g: Layout, r: nat, path: seq<nat>, i: nat)
    requires Settled(g) && Stored(tables, g, map[]) && Top(r) in g.ents && Top(g.kern) in g.ents
    requires |path| == 3 && path[0] >= KERNEL_HALF
    ensures Translate(tables, r, path, i) == Translate(tables, g.kern, path, i)
  {
    WalkIsFlat(tables, g, r, path);
    WalkIsFlat(tables, g, g.kern, path);
  }

  lemma StoredUncutAll(w: World)
    requires Good(w) && Uncut(w)
    ensures Stored(w.tables, w.g, map[])
  {
    hide Down, Up, KernelHalfShared, Flattened, Sound, Rooted;
    assert forall p :: At(w.cut, p) == 0;
  }

  // Writing an entry of a kernel page table changes no user page.
  lemma KernelEntryGood(w: World, p: Pos, i: nat, e: Entry)
    requires Good(w) && p in w.g.ents && Leaf(p) && !UserLeaf(p) && i < ENTRIES
    ensures p in w.g.node && w.g.node[p] in w.tables && i < |w.tables[w.g.node[p]]|
    ensures Good(Put(w, p, i, e)) && Put(w, p, i, e).g.flat == w.g.flat
  {
    hide Good, Shaped, Stored, Sound, Sized, Named, Leaf, UserLeaf, Balanced, Inv;
    GoodParts(w);
    PutShaped(w, p, i, e);
    KernelPut(w, p, i, e);
    MakeGood(Put(w, p, i, e));
  }

  lemma KernelPut(w: World, p: Pos, i: nat, e: Entry)
    requires Sound(w) && Sized(w.g.ents) && p in w.g.ents && !UserLeaf(p) && i < ENTRIES
    requires p in w.g.node && w.g.node[p] in w.tables && i < |w.tables[w.g.node[p]]|
    ensures Sound(Put(w, p, i, e)) && Put(w, p, i, e).g.flat == w.g.flat
  {
    hide Balanced, Inv, UserLeaf;
    assert Put(w, p, i, e).tables.Keys == w.tables.Keys;
  }

  lemma SpareFree(w: World)
    requires Good(w) && Valid(w.pool)
    ensures Alloc(w.pool).1 != 0 ==> Unused(w.View(), Alloc(w.pool).1)
  {
    GoodInv(w);
    if Alloc(w.pool).1 != 0 { SpareUnused(w); }
  }

  lemma MappedFrame(w: World, k: Slot)
    requires Good(w) && k in w.g.flat
    ensures w.g.flat[k].frame < |w.data| && (w.g.flat[k].present)
  {
    assert EntryOk(w.View(), k);
  }

  // After a repaired fault the slot is still mapped, writable now.
  lemma HandledPage(s: Lazy, k: Slot, spare: nat)
    requires Inv(s) && k in s.maps && !s.maps[k].writable && (spare != 0 ==> Unused(s, spare))
    requires s.maps[k].frame < |s.data|
    requires HandleFault(s, k, spare).1
    ensures var t := HandleFault(s, k, spare).0; Inv(t) && k in t.maps && t.maps[k].writable
  {
    FaultKeeps(s, k, spare);
  }

  lemma StoreGood(w: World, k: Slot, off: nat, b: bv8)
    requires Good(w) && k in w.g.flat && w.g.flat[k].writable && off < PAGE_SIZE && w.g.flat[k].frame < |w.data|
    ensures var f := w.g.flat[k].frame; var d := w.data[f := Poke(w.data[f], off, b)];
            var u := World(w.tables, d, w.pool, w.g, w.cut, w.others, w.shm);
            Good(u) && u.View() == Store(w.View(), k, off, b)
  {
    hide Shaped, Stored, Balanced, Inv;
    StoreKeeps(w.View(), k, off, b);
  }

  lemma SpareNotKept(w: World)
    requires Good(w) && Valid(w.pool) && Alloc(w.pool).1 != 0
    ensures Alloc(w.pool).1 !in w.others
  {
    GoodInv(w);
    SpareUnused(w);
  }

  lemma KernelTop(w: World)
    requires Good(w)
    ensures Top(w.g.kern) in w.g.ents && |w.g.ents[Top(w.g.kern)]| == ENTRIES && Valid(w.pool)
  {
  }

  lemma KernelPath(r: nat, path: seq<nat>)
    requires |path| == 3 && path[0] >= KERNEL_HALF
    ensures !UserLeaf(Descend(Top(r), path)) && Leaf(Descend(Top(r), path))
  {
    PathLeaf(r, path);
  }

  lemma GoneRest(s: World, w: World, r: nat)
    requires Gone(s, w, r)
    ensures w.others == s.others && forall q :: q in w.g.ents <==> q in s.g.ents && q.Root() != r
  {
  }

  // ---------- After boot ----------

  ghost function FirstLayout(root: nat): Layout {
    Layout(root, map[Top(root) := Empty()], map[Top(root) := root], map[], {})
  }

  // Every frame in use but one belongs to the rest of the kernel.
  ghost function FramesBut(pool: Pool, root: nat): map<nat, nat>
    requires |pool.used| == |pool.refs|
  {
    map f: nat | f < |pool.used| && pool.used[f] && f != root :: pool.refs[f]
  }

  lemma BootShaped(root: nat)
    ensures Shaped(FirstLayout(root)) && Stored(map[root := Empty()], FirstLayout(root), map[])
  {
    var g := FirstLayout(root);
    assert Top(root) in g.node && g.node[Top(root)] == root;
    assert g.node.Values == {root};
  }

  lemma BootGood(root: nat, pool: Pool, data: seq<Page>)
    requires Valid(pool) && LOW_FRAMES <= root < |pool.used| == |data| && pool.used[root] && pool.refs[root] == 1
    ensures var w := World(map[root := Empty()], data, pool, FirstLayout(root), map[], FramesBut(pool, root), {});
            Good(w) && Uncut(w)
  {
    hide Shaped, Stored;
    BootShaped(root);
    var w := World(map[root := Empty()], data, pool, FirstLayout(root), map[], FramesBut(pool, root), {});
    assert w.tables.Keys == {root};
    assert Sound(w);
  }
}
