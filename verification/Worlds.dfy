/**
 The whole paging state as one value, what holds of it between operations, and what each elementary
 edit of the tables does to it.
 */
module Worlds {
  import opened PageTypes
  import opened Frames
  import opened CopyOnWrite
  import opened FrameAccounts
  import opened PageTree
  import opened PageTeardown

  // tables: the frames that hold page tables; data: the contents of all other frames; g: the trees
  // the tables represent; cut: how many entries of a dying table are stale; others: frames kept by the
  // rest of the kernel; shm: those of them that belong to shared-memory objects.
  datatype World = World(tables: map<nat, seq<Entry>>, data: seq<Page>, pool: Pool,
                         g: Layout, cut: map<Pos, nat>, others: map<nat, nat>, shm: set<nat>) {
    // The flat address spaces that copy-on-write is about.
    function View(): Lazy {
      Lazy(g.flat, data, shm)
    }
  }

  // The account of frames and the meaning of user pages.
  ghost predicate Sound(w: World) {
    && Balanced(w.pool, w.tables.Keys, w.g.flat, w.others)
    && |w.data| == |w.pool.used|
    && w.shm <= w.others.Keys
    && Inv(w.View())
  }

  ghost predicate Good(w: World) {
    Shaped(w.g) && Stored(w.tables, w.g, w.cut) && Sound(w)
  }

  // An entry read from memory is the entry of the layout.
  lemma ReadEntry(w: World, p: Pos, i: nat)
    requires Good(w) && p in w.g.ents && At(w.cut, p) <= i < ENTRIES
    ensures p in w.g.node && w.g.node[p] in w.tables
    ensures |w.tables[w.g.node[p]]| == |w.g.ents[p]| == ENTRIES
    ensures w.tables[w.g.node[p]][i] == w.g.ents[p][i]
  {
    hide Rooted, Down, Up, KernelHalfShared, Flattened, Sound;
    assert w.g.node[p] in w.g.node.Values;
  }

  lemma TaskLeaf(g: Layout, p: Pos)
    requires Sized(g.ents) && Rooted(g) && p in g.ents && Leaf(p) && p.Root() != g.kern
    ensures UserLeaf(p)
  {
    assert p.up in g.ents && p.up.up in g.ents;
    assert p.up.up == Kid(p.up.up.up, p.up.up.index);
    assert p.Root() == p.up.Root() == p.up.up.Root() == p.up.up.up.Root();
  }

  // ---------- Tearing down ----------

  // Drops page entry i of p, releasing the page if it is private.
  ghost function DropPage(w: World, p: Pos, i: nat): World
    requires Valid(w.pool) && Sized(w.g.ents) && p in w.g.ents && i < ENTRIES
  {
    var e := w.g.ents[p][i];
    World(w.tables, w.data, if e.shared then w.pool else Release(w.pool, e.frame),
          SetLeaf(w.g, p, i, ABSENT), w.cut[p := i + 1], w.others, w.shm)
  }

  lemma DropPageSound(w: World, p: Pos, i: nat)
    requires Sized(w.g.ents) && Flattened(w.g) && Sound(w)
    requires p in w.g.ents && UserLeaf(p) && i < ENTRIES && w.g.ents[p][i].present
    ensures Sound(DropPage(w, p, i))
  {
    var k := Slot(p, i);
    assert k in w.g.flat && w.g.flat[k] == w.g.ents[p][i];
    var u := DropPage(w, p, i);
    assert u.g.flat == w.g.flat - {k};
    hide Flattened, Sized, Balanced, Inv;
    if w.g.flat[k].shared {
      SameHoldersBalance(w.pool, w.tables.Keys, w.g.flat, u.g.flat, w.others);
    } else {
      DropPrivateBalances(w.pool, w.tables.Keys, w.g.flat, w.others, k);
    }
    DropKeeps(w.View(), u.View());
  }

  // A stale entry is not looked at.
  lemma StoredForget(tables: map<nat, seq<Entry>>, g: Layout, cut: map<Pos, nat>, p: Pos, i: nat)
    requires Sized(g.ents) && Named(g) && Stored(tables, g, cut) && p in g.ents && At(cut, p) <= i < ENTRIES
    ensures var h := SetEntry(g, p, i, ABSENT);
            Sized(h.ents) && Named(h) && Stored(tables, h, cut[p := i + 1])
  {
    SetEntryBasic(g, p, i, ABSENT);
  }

  lemma StoredSame(tables: map<nat, seq<Entry>>, g: Layout, h: Layout, cut: map<Pos, nat>)
    requires Sized(g.ents) && Named(g) && Stored(tables, g, cut)
    requires h.ents == g.ents && h.node == g.node
    ensures Sized(h.ents) && Named(h) && Stored(tables, h, cut)
  {
  }

  lemma DropPageGood(w: World, p: Pos, i: nat)
    requires Good(w) && p in w.g.ents && Leaf(p) && p.Root() != w.g.kern
    requires At(w.cut, p) <= i < ENTRIES && i < |w.g.ents[p]| && w.g.ents[p][i].present
    ensures Good(DropPage(w, p, i))
  {
    hide Sized, Named, Rooted, Down, Up, KernelHalfShared, Flattened, Sound, Stored;
    TaskLeaf(w.g, p);
    SetLeafShaped(w.g, p, i, ABSENT);
    StoredForget(w.tables, w.g, w.cut, p, i);
    StoredSame(w.tables, SetEntry(w.g, p, i, ABSENT), SetLeaf(w.g, p, i, ABSENT), w.cut[p := i + 1]);
    DropPageSound(w, p, i);
  }

  // Forgets entry i of p; the table below it is about to be torn down.
  ghost function Detach(w: World, p: Pos, i: nat): World
    requires Sized(w.g.ents) && p in w.g.ents && i < ENTRIES
  {
    World(w.tables, w.data, w.pool, Unlink(w.g, p, i), w.cut[p := i + 1], w.others, w.shm)
  }

  lemma DetachGood(w: World, p: Pos, i: nat)
    requires Good(w) && Hangs(w.g, p, i) && At(w.cut, p) <= i && !Leaf(p) && p != Top(w.g.kern)
    ensures Good(Detach(w, p, i))
  {
    hide Sized, Named, Rooted, Down, Up, KernelHalfShared, Flattened, Stored, Balanced, Inv;
    UnlinkShaped(w.g, p, i);
    StoredForget(w.tables, w.g, w.cut, p, i);
    StoredSame(w.tables, SetEntry(w.g, p, i, ABSENT), Unlink(w.g, p, i), w.cut[p := i + 1]);
  }

  // Gives back the frame of table p.
  ghost function Remove(w: World, p: Pos): World
    requires Valid(w.pool) && p in w.g.node
  {
    World(w.tables - {w.g.node[p]}, w.data, Release(w.pool, w.g.node[p]), RemoveTable(w.g, p),
          w.cut - {p}, w.others, w.shm)
  }

  lemma StoredUncut(tables: map<nat, seq<Entry>>, g: Layout, cut: map<Pos, nat>, p: Pos)
    requires Sized(g.ents) && Named(g) && Stored(tables, g, cut) && p !in g.ents
    ensures Stored(tables, g, cut - {p})
  {
  }

  lemma RemoveGood(w: World, p: Pos)
    requires Good(w) && CanRemove(w.g, p)
    ensures p in w.g.node && Good(Remove(w, p))
  {
    assert w.g.node.Keys == w.g.ents.Keys;
    assert w.g.node[p] in w.tables by { assert w.g.node[p] in w.g.node.Values; }
    hide Sized, Named, Rooted, Down, Up, KernelHalfShared, Flattened, Stored, Balanced, Inv;
    RemoveTableShaped(w.g, p);
    StoredRemove(w.tables, w.g, w.cut, p);
    StoredUncut(w.tables - {w.g.node[p]}, RemoveTable(w.g, p), w.cut, p);
    ReleaseTableBalances(w.pool, w.tables.Keys, w.g.flat, w.others, w.g.node[p]);
    assert (w.tables - {w.g.node[p]}).Keys == w.tables.Keys - {w.g.node[p]};
  }

  // ---------- Building ----------

  // Puts an empty table, in the frame the allocator gives, at position p.
  ghost function Add(w: World, p: Pos): World
    requires Valid(w.pool)
  {
    var (pool, f) := Alloc(w.pool);
    World(w.tables[f := Empty()], w.data, pool, AddTable(w.g, p, f), w.cut, w.others, w.shm)
  }

  // A frame the allocator hands out holds no table.
  lemma AllocIsNew(w: World)
    requires Good(w)
    ensures Valid(w.pool)
    ensures var f := Alloc(w.pool).1;
            f != 0 ==> && f < |w.data| && f !in w.tables && (forall q :: q in w.g.node ==> w.g.node[q] != f)
                       && Top(f) !in w.g.ents && f != w.g.kern && Unused(w.View(), f)
  {
    assert Top(w.g.kern) in w.g.ents;
    hide Rooted, Down, Up, KernelHalfShared, Flattened, Inv;
    AllocBalances(w.pool, w.tables.Keys, w.g.flat, w.others);
    var f := Alloc(w.pool).1;
    if f != 0 {
      assert forall q :: q in w.g.node ==> w.g.node[q] in w.g.node.Values;
    }
  }

  lemma AddGood(w: World, p: Pos)
    requires Good(w) && Valid(w.pool)
    requires var f := Alloc(w.pool).1; f != 0 && CanAdd(w.g, p, f)
    ensures Good(Add(w, p))
  {
    hide Sized, Named, Rooted, Down, Up, KernelHalfShared, Flattened, Stored, Balanced, Inv, CanAdd;
    var (pool, f) := Alloc(w.pool);
    AddTableShaped(w.g, p, f);
    assert p !in w.g.ents by { AddIsNew(w.g, p, f); }
    StoredAdd(w.tables, w.g, w.cut, p, f);
    AllocBalances(w.pool, w.tables.Keys, w.g.flat, w.others);
    assert w.tables[f := Empty()].Keys == w.tables.Keys + {f};
  }

  lemma AddIsNew(g: Layout, p: Pos, f: nat)
    requires CanAdd(g, p, f)
    ensures p !in g.ents
  {
  }

  // Hangs the finished table below entry i of p.
  ghost function Attach(w: World, p: Pos, i: nat, e: Entry): World
    requires Sized(w.g.ents) && p in w.g.ents && p in w.g.node && w.g.node[p] in w.tables
    requires i < ENTRIES && i < |w.tables[w.g.node[p]]|
  {
    var f := w.g.node[p];
    World(w.tables[f := w.tables[f][i := e]], w.data, w.pool, Link(w.g, p, i, e), w.cut, w.others, w.shm)
  }

  lemma AttachGood(w: World, p: Pos, i: nat, e: Entry)
    requires Good(w) && CanLink(w.g, p, i, e)
    ensures p in w.g.node && w.g.node[p] in w.tables && i < |w.tables[w.g.node[p]]|
    ensures Good(Attach(w, p, i, e))
  {
    hide Sized, Named, Rooted, Down, Up, KernelHalfShared, Flattened, Stored, Balanced, Inv;
    LinkShaped(w.g, p, i, e);
    StoredSet(w.tables, w.g, w.cut, p, i, e);
    var f := w.g.node[p];
    var tables := w.tables[f := w.tables[f][i := e]];
    StoredSame(tables, SetEntry(w.g, p, i, e), Link(w.g, p, i, e), w.cut);
    assert tables.Keys == w.tables.Keys;
  }

  // Writes page entry i of p; the caller accounts for the page it names.
  ghost function Put(w: World, p: Pos, i: nat, e: Entry): World
    requires Sized(w.g.ents) && p in w.g.ents && p in w.g.node && w.g.node[p] in w.tables
    requires i < ENTRIES && i < |w.tables[w.g.node[p]]|
  {
    var f := w.g.node[p];
    World(w.tables[f := w.tables[f][i := e]], w.data, w.pool, SetLeaf(w.g, p, i, e), w.cut, w.others, w.shm)
  }

  lemma PutShaped(w: World, p: Pos, i: nat, e: Entry)
    requires Good(w) && p in w.g.ents && Leaf(p) && i < ENTRIES
    ensures p in w.g.node && w.g.node[p] in w.tables && i < |w.tables[w.g.node[p]]|
    ensures var u := Put(w, p, i, e);
            Shaped(u.g) && Stored(u.tables, u.g, u.cut) && u.tables.Keys == w.tables.Keys
  {
    hide Sized, Named, Rooted, Down, Up, KernelHalfShared, Flattened, Stored, Sound;
    SetLeafShaped(w.g, p, i, e);
    StoredSet(w.tables, w.g, w.cut, p, i, e);
    var f := w.g.node[p];
    var tables := w.tables[f := w.tables[f][i := e]];
    StoredSame(tables, SetEntry(w.g, p, i, e), SetLeaf(w.g, p, i, e), w.cut);
  }
}
