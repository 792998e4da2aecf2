/**
 The loops of vmm_copy_hierarchy, step by step.
 */
module Forking {
  import opened PageTypes
  import opened Frames
  import opened CopyOnWrite
  import opened FrameAccounts
  import opened PageTree
  import opened PageTeardown
  import opened PageFork
  import opened Worlds
  import opened Teardown

  ghost predicate SameCut(s: World, w: World) {
    forall p :: At(w.cut, p) == At(s.cut, p)
  }

  ghost predicate Uncut(w: World) {
    forall p :: At(w.cut, p) == 0
  }

  // The first i entries of a have been copied since state s.
  ghost predicate Copying(s: World, w: World, a: Pos, b: Pos, i: nat) {
    Copied(s.g, w.g, a, b, i) && SameRest(s, w) && SameCut(s, w)
  }

  ghost predicate CopyMade(s: World, w: World, a: Pos, b: Pos) {
    CopiedAll(s.g, w.g, a, b) && SameRest(s, w) && SameCut(s, w)
  }

  ghost predicate GaveUp(s: World, w: World) {
    Faded(s.g, w.g) && SameRest(s, w) && SameCut(s, w)
  }

  // ---------- Start ----------

  // Where the copy of a may be put, f being the frame for it.
  ghost predicate Place(g: Layout, b: Pos, f: nat) {
    (b.Top? ==> f == b.root) && (b.Kid? ==> b.up in g.ents)
  }

  lemma PlaceCanAdd(g: Layout, a: Pos, b: Pos, f: nat)
    requires Sized(g.ents) && Rooted(g) && Apart(g, a, b) && Place(g, b, f)
    requires forall q :: q in g.node ==> g.node[q] != f
    ensures CanAdd(g, b, f)
  {
    assert Below(b, b);
    assert a.Kid? ==> b.index == a.index && b.up == a.up.Reroot(b.Root());
    assert a.Kid? && a.up.Top? ==> a == Kid(Top(a.Root()), a.index);
    if a.Kid? && a.up.Kid? {
      assert b.up.up == a.up.up.Reroot(b.Root());
      if a.up.up.Kid? { assert b.up.up.up == a.up.up.up.Reroot(b.Root()); }
    }
  }

  lemma Begin(s: World, a: Pos, b: Pos)
    requires Good(s) && Valid(s.pool) && Alloc(s.pool).1 != 0
    requires Apart(s.g, a, b) && Place(s.g, b, Alloc(s.pool).1)
    ensures Good(Add(s, b)) && Copying(s, Add(s, b), a, b, 0)
  {
    hide Sized, Named, Rooted, Down, Up, KernelHalfShared, Flattened, Stored, Sound, Apart, Place, CanAdd, Copied, Good, Shaped;
    GoodParts(s);
    AllocIsNew(s);
    PlaceCanAdd(s.g, a, b, Alloc(s.pool).1);
    AddGood(s, b);
    GoodBasic(Add(s, b));
    CopyStart(s.g, a, b, Alloc(s.pool).1);
  }

  lemma GoodParts(w: World)
    requires Good(w)
    ensures Shaped(w.g) && Basic(w.g) && Sized(w.g.ents) && Named(w.g) && Rooted(w.g) && Flattened(w.g)
    ensures w.g.loose <= w.g.ents.Keys && Stored(w.tables, w.g, w.cut)
    ensures Valid(w.pool) && Sound(w)
  {
  }

  // ---------- Entry i ----------

  lemma Untouched(g: Layout, h: Layout, a: Pos, b: Pos, i: nat)
    requires Apart(g, a, b) && Copied(g, h, a, b, i) && i < ENTRIES
    ensures a in h.ents && b in h.ents && b !in g.ents && a in h.node && a in g.node && h.node[a] == g.node[a]
    ensures h.ents[a][i] == g.ents[a][i] && g.ents.Keys <= h.ents.Keys
  {
    assert Below(b, b);
    BelowIrreflexive(a, i, a);
  }

  lemma SkipEntry(s: World, w: World, a: Pos, b: Pos, i: nat)
    requires Good(s) && Apart(s.g, a, b) && Copying(s, w, a, b, i)
    requires i < ENTRIES && a in s.g.ents && i < |s.g.ents[a]| && !s.g.ents[a][i].present
    ensures Copying(s, w, a, b, i + 1)
  {
    hide Good, Shaped, Apart, Copied;
    GoodParts(s);
    CopySkip(s.g, w.g, a, b, i);
  }

  // The recursive call may be made.
  lemma BeforeCopy(s: World, w: World, a: Pos, b: Pos, i: nat)
    requires Good(s) && Apart(s.g, a, b) && Copied(s.g, w.g, a, b, i) && !Leaf(a)
    requires i < Limit(a) && s.g.ents[a][i].present
    ensures Kid(a, i) in s.g.ents && Apart(w.g, Kid(a, i), Kid(b, i)) && b in w.g.ents
    ensures Kid(a, i) in w.g.node && w.g.node[Kid(a, i)] == s.g.ents[a][i].frame
  {
    hide KernelHalfShared, Flattened, Stored, Sound, CopiedNew;
    assert PageTree.Own(s.g, a, i) && Hangs(s.g, a, i);
    Untouched(s.g, w.g, a, b, i);
    KidApart(s.g, w.g, a, b, i);
  }

  lemma CanAttach(g: Layout, u: Layout, a: Pos, b: Pos, i: nat, e: Entry)
    requires Basic(u) && u.loose <= u.ents.Keys && Kid(b, i) in u.loose && b in u.ents && b.Root() != u.kern
    requires i < Limit(b) && e.present && e.frame == u.node[Kid(b, i)]
    ensures CanLink(u, b, i, e)
  {
  }

  lemma AfterCopy(s: World, w: World, u: World, a: Pos, b: Pos, i: nat, e: Entry)
    requires Good(s) && Good(u) && Apart(s.g, a, b) && Copying(s, w, a, b, i) && !Leaf(a)
    requires i < Limit(a) && a in s.g.ents && i < |s.g.ents[a]| && SameFlags(s.g.ents[a][i], e) && e.present
    requires CopyMade(w, u, Kid(a, i), Kid(b, i)) && Kid(b, i) in u.g.node && e.frame == u.g.node[Kid(b, i)]
    requires b in u.g.ents
    ensures b in u.g.node && u.g.node[b] in u.tables && i < |u.tables[u.g.node[b]]|
    ensures Good(Attach(u, b, i, e)) && Copying(s, Attach(u, b, i, e), a, b, i + 1)
  {
    hide Good, Shaped, Copied, Sized, Named, Apart;
    GoodParts(s);
    GoodParts(u);
    ApartRoots(s.g, a, b);
    MadeLoose(w.g, u.g, Kid(a, i), Kid(b, i));
    CopyKern(s.g, w.g, a, b, i);
    CanAttach(w.g, u.g, a, b, i, e);
    AttachGood(u, b, i, e);
    CopyKid(s.g, w.g, u.g, a, b, i, e);
  }

  lemma ApartRoots(g: Layout, a: Pos, b: Pos)
    requires Apart(g, a, b)
    ensures a in g.ents && b.Root() != g.kern && Limit(a) == Limit(b) && b == a.Reroot(b.Root()) && a != b
    ensures a.Root() != g.kern
  {
    TwinOf(g, a, b);
  }

  lemma MadeLoose(g: Layout, h: Layout, a: Pos, b: Pos)
    requires CopiedAll(g, h, a, b)
    ensures b in h.loose && h.kern == g.kern
  {
  }

  lemma CopyKern(g: Layout, h: Layout, a: Pos, b: Pos, i: nat)
    requires Copied(g, h, a, b, i)
    ensures h.kern == g.kern && b in h.loose && b in h.ents
  {
  }

  // ---------- A page entry ----------

  lemma CopyKeeps(s: Lazy, k: Slot, j: Slot)
    requires Inv(s) && k in s.maps && j !in s.maps && !s.maps[k].shared && !s.maps[k].writable
    ensures Inv(s.(maps := s.maps[j := s.maps[k]]))
  {
    var t := s.(maps := s.maps[j := s.maps[k]]);
    forall l | l in t.maps ensures EntryOk(t, l) {
      var l0 := if l == j then k else l;
      assert EntryOk(s, l0);
      if !t.maps[l].shared && t.maps[l].writable {
        assert k !in Holders(s.maps, s.maps[l].frame);
        assert Holders(t.maps, t.maps[l].frame) == Holders(s.maps, s.maps[l].frame);
      }
    }
  }

  lemma SoundWith(w: World, u: World)
    requires Sound(w) && u.tables.Keys == w.tables.Keys && u.data == w.data && u.others == w.others && u.shm == w.shm
    requires |u.pool.used| == |w.pool.used|
    requires Balanced(u.pool, w.tables.Keys, u.g.flat, w.others) && Inv(u.View())
    ensures Sound(u)
  {
  }

  // Taking the writable bit from a private page.
  lemma FadeSound(w: World, u: World, k: Slot)
    requires Sound(w) && k in w.g.flat && !w.g.flat[k].shared
    requires u.tables.Keys == w.tables.Keys && SameRest(w, u) && u.pool == w.pool
    requires u.g.flat == w.g.flat[k := Demote(w.g.flat[k])]
    ensures Sound(u)
  {
    hide Balanced, Inv;
    SameHoldersBalance(w.pool, w.tables.Keys, w.g.flat, u.g.flat, w.others);
    DemoteKeeps(w.View(), {k});
    assert DemoteAll(w.g.flat, {k}) == u.g.flat;
    SoundWith(w, u);
  }

  // A second entry for a private page that is no longer writable.
  lemma SecondSound(w: World, u: World, k: Slot, j: Slot)
    requires Sound(w) && k in w.g.flat && !w.g.flat[k].shared && !w.g.flat[k].writable && j !in w.g.flat
    requires u.tables.Keys == w.tables.Keys && SameRest(w, u)
    requires u.g.flat == w.g.flat[j := w.g.flat[k]]
    requires var f := w.g.flat[k].frame;
             Valid(w.pool) && f < |w.pool.used| && w.pool.used[f] && u.pool == Retain(w.pool, f)
    ensures Sound(u)
  {
    hide Balanced, Inv;
    CopyPrivateBalances(w.pool, w.tables.Keys, w.g.flat, w.others, k, j, w.g.flat[k]);
    CopyKeeps(w.View(), k, j);
    SoundWith(w, u);
  }

  // A second entry for a shared page.
  lemma ShareSound(w: World, u: World, k: Slot, j: Slot)
    requires Sound(w) && k in w.g.flat && w.g.flat[k].shared && j !in w.g.flat
    requires u.tables.Keys == w.tables.Keys && SameRest(w, u) && u.pool == w.pool
    requires u.g.flat == w.g.flat[j := w.g.flat[k]]
    ensures Sound(u)
  {
    assert EntryOk(w.View(), k);
    hide Balanced, Inv;
    MapSharedKeeps(w.View(), j, w.g.flat[k].frame);
    SameHoldersBalance(w.pool, w.tables.Keys, w.g.flat, u.g.flat, w.others);
    SoundWith(w, u);
  }

  lemma UsedFrame(w: World, k: Slot)
    requires Sound(w) && k in w.g.flat && !w.g.flat[k].shared
    ensures Valid(w.pool) && w.g.flat[k].frame < |w.pool.used| && w.pool.used[w.g.flat[k].frame]
  {
  }

  // Entry i of a after its writable bit has been taken.
  lemma FadePage(w: World, a: Pos, i: nat, e: Entry)
    requires Good(w) && a in w.g.ents && UserLeaf(a) && i < ENTRIES && i < |w.g.ents[a]|
    requires e == w.g.ents[a][i] && e.present && !e.shared
    ensures a in w.g.node && w.g.node[a] in w.tables && i < |w.tables[w.g.node[a]]|
    ensures Good(Put(w, a, i, Demote(e)))
  {
    hide Good, Shaped, Stored, Sound, Sized, Named, UserLeaf;
    GoodParts(w);
    UserLeafIsLeaf(a);
    FlatEntry(w.g, a, i);
    PutShaped(w, a, i, Demote(e));
    PutFlat(w.g, a, i, Demote(e));
    FadeSound(w, Put(w, a, i, Demote(e)), Slot(a, i));
    MakeGood(Put(w, a, i, Demote(e)));
  }

  lemma MakeGood(w: World)
    requires Shaped(w.g) && Stored(w.tables, w.g, w.cut) && Sound(w)
    ensures Good(w)
  {
  }

  lemma FlatEntry(g: Layout, a: Pos, i: nat)
    requires Sized(g.ents) && Flattened(g) && a in g.ents && UserLeaf(a) && i < ENTRIES
    ensures Slot(a, i) in g.flat <==> g.ents[a][i].present
    ensures g.ents[a][i].present ==> g.flat[Slot(a, i)] == g.ents[a][i]
  {
  }

  lemma PutFlat(g: Layout, a: Pos, i: nat, e: Entry)
    requires Sized(g.ents) && a in g.ents && UserLeaf(a) && i < ENTRIES && e.present
    ensures SetLeaf(g, a, i, e).flat == g.flat[Slot(a, i) := e]
  {
  }

  // The copy of entry i of a, whose page is shared or no longer writable.
  ghost function PutCopy(w: World, b: Pos, i: nat, e: Entry): World
    requires Sized(w.g.ents) && b in w.g.ents && b in w.g.node && w.g.node[b] in w.tables
    requires i < ENTRIES && i < |w.tables[w.g.node[b]]|
    requires !e.shared ==> Valid(w.pool) && e.frame < |w.pool.used| && w.pool.used[e.frame]
  {
    var u := Put(w, b, i, e);
    World(u.tables, u.data, if e.shared then u.pool else Retain(u.pool, e.frame), u.g, u.cut, u.others, u.shm)
  }

  lemma PutCopyGood(w: World, a: Pos, b: Pos, i: nat, e: Entry)
    requires Good(w) && a in w.g.ents && UserLeaf(a) && b in w.g.ents && UserLeaf(b) && i < ENTRIES
    requires i < |w.g.ents[a]| && i < |w.g.ents[b]|
    requires e == w.g.ents[a][i] && e.present && (!e.shared ==> !e.writable) && !w.g.ents[b][i].present
    ensures b in w.g.node && w.g.node[b] in w.tables && i < |w.tables[w.g.node[b]]|
    ensures !e.shared ==> Valid(w.pool) && e.frame < |w.pool.used| && w.pool.used[e.frame]
    ensures Good(PutCopy(w, b, i, e))
  {
    hide Good, Shaped, Stored, Sound, Sized, Named, UserLeaf;
    GoodParts(w);
    UserLeafIsLeaf(b);
    FlatEntry(w.g, a, i);
    FlatEntry(w.g, b, i);
    PutShaped(w, b, i, e);
    PutFlat(w.g, b, i, e);
    if e.shared {
      ShareSound(w, PutCopy(w, b, i, e), Slot(a, i), Slot(b, i));
    } else {
      UsedFrame(w, Slot(a, i));
      SecondSound(w, PutCopy(w, b, i, e), Slot(a, i), Slot(b, i));
    }
    MakeGood(PutCopy(w, b, i, e));
  }

  lemma SetLeafSame(g: Layout, a: Pos, i: nat)
    requires Sized(g.ents) && Flattened(g) && a in g.ents && UserLeaf(a) && i < ENTRIES && g.ents[a][i].present
    ensures SetLeaf(g, a, i, g.ents[a][i]) == g
  {
    assert g.ents[a][i := g.ents[a][i]] == g.ents[a];
    assert g.ents[a := g.ents[a]] == g.ents;
    assert g.flat[Slot(a, i) := g.ents[a][i]] == g.flat;
  }

  // The tables of a copy are user page tables too.
  lemma BothLeaves(g: Layout, a: Pos, b: Pos)
    requires Sized(g.ents) && Rooted(g) && Apart(g, a, b) && Leaf(a)
    ensures UserLeaf(a) && UserLeaf(b)
  {
    TaskLeaf(g, a);
    TwinUserLeaf(b.Root(), a);
  }

  // The entry of the copy is still empty.
  lemma CopyEntryEmpty(g: Layout, h: Layout, a: Pos, b: Pos, i: nat)
    requires Apart(g, a, b) && Copied(g, h, a, b, i) && i < ENTRIES
    ensures b in h.ents && h.ents[b][i] == ABSENT
  {
    assert Below(b, b);
    TwinOf(g, a, b);
  }

  lemma PageCopied(s: World, w: World, x: World, a: Pos, b: Pos, i: nat)
    requires Good(s) && Good(w) && Apart(s.g, a, b) && Copying(s, w, a, b, i) && UserLeaf(a) && i < ENTRIES
    requires a in s.g.ents && i < |s.g.ents[a]| && s.g.ents[a][i].present
    requires a in w.g.ents && b in w.g.ents && Sized(w.g.ents)
    requires x.g == CopyPage(w.g, a, b, i, s.g.ents[a][i]) && SameRest(w, x) && x.cut == w.cut
    ensures Copying(s, x, a, b, i + 1)
  {
    hide Good, Shaped, Apart, Copied, CopyPage, UserLeaf, Sized, Named;
    GoodParts(s);
    Untouched(s.g, w.g, a, b, i);
    CopyLeaf(s.g, w.g, a, b, i);
  }

  // ---------- Giving up ----------

  lemma BeforeUndo(s: World, w: World, u: World, a: Pos, b: Pos, i: nat)
    requires Good(s) && Uncut(s) && Apart(s.g, a, b) && Copying(s, w, a, b, i) && GaveUp(w, u)
    ensures Removable(u, b) && b in u.g.node
  {
    hide Named, Down, KernelHalfShared, Flattened, Stored, Sound, CopiedOld, CopiedNew;
    CopyKern(s.g, w.g, a, b, i);
    assert forall q :: At(u.cut, q) == At(s.cut, q) == 0;
    FadedLoose(w.g, u.g);
  }

  lemma FadedLoose(g: Layout, h: Layout)
    requires Faded(g, h)
    ensures h.kern == g.kern && h.loose == g.loose && h.node.Keys == g.ents.Keys && h.node == g.node
  {
  }

  lemma AfterUndo(s: World, w: World, u: World, v: World, a: Pos, b: Pos, i: nat)
    requires Good(s) && Apart(s.g, a, b) && Copying(s, w, a, b, i) && GaveUp(w, u) && Freed(u, v, b)
    ensures GaveUp(s, v)
  {
    hide Good, Shaped, Apart, Copied, Faded, Pruned, Basic;
    GoodParts(s);
    CopyUndone(s.g, w.g, u.g, v.g, a, b, i);
  }

  lemma NothingGivenUp(w: World)
    requires Good(w)
    ensures GaveUp(w, w)
  {
    hide Good, Faded;
    GoodBasic(w);
    FadedSelf(w.g);
  }

  // Giving back every frame: the pool is as it was, and so is every reference count.
  lemma GaveUpRestores(s: World, w: World)
    requires Good(s) && Good(w) && GaveUp(s, w)
    ensures w.pool.used == s.pool.used && w.pool.refs == s.pool.refs
    ensures w.tables.Keys == s.tables.Keys
    ensures exists ks :: w.g.flat == DemoteAll(s.g.flat, ks)
    ensures w.data == s.data && w.shm == s.shm
  {
    TablesFromNodes(s);
    TablesFromNodes(w);
    FadedLoose(s.g, w.g);
    FadedFlat(s.g, w.g);
    hide Shaped, Stored, Inv, Faded, Balanced;
    OwnersDeterminePool(s.pool, w.pool, s.tables.Keys, s.g.flat, w.g.flat, s.others);
  }

  lemma TablesFromNodes(w: World)
    requires Good(w)
    ensures w.tables.Keys == w.g.node.Values
  {
  }

  // ---------- The kernel half of the new PML4 ----------

  lemma SetTopShaped(g: Layout, c: nat, j: nat, e: Entry)
    requires Shaped(g) && Top(c) in g.loose && c != g.kern && KERNEL_HALF <= j < ENTRIES
    ensures Shaped(SetEntry(g, Top(c), j, e))
  {
    hide Sized, Named, Rooted, Down, KernelHalfShared, Flattened;
    SetTopUp(g, c, j, e);
    SetTopDown(g, c, j, e);
    SetTopFlat(g, c, j, e);
  }

  lemma SetTopFlat(g: Layout, c: nat, j: nat, e: Entry)
    requires Sized(g.ents) && Rooted(g) && KernelHalfShared(g) && Flattened(g)
    requires Top(c) in g.loose && Top(c) in g.ents && c != g.kern && KERNEL_HALF <= j < ENTRIES
    ensures var h := SetEntry(g, Top(c), j, e);
            Sized(h.ents) && Rooted(h) && KernelHalfShared(h) && Flattened(h)
  {
  }

  lemma SetTopUp(g: Layout, c: nat, j: nat, e: Entry)
    requires Sized(g.ents) && Up(g) && Top(c) in g.loose && c != g.kern && KERNEL_HALF <= j < ENTRIES
    ensures var h := SetEntry(g, Top(c), j, e); Sized(h.ents) && Up(h)
  {
    var h := SetEntry(g, Top(c), j, e);
    forall q, i: nat | Kid(q, i) in h.ents ensures Hangs(h, q, i) <==> Kid(q, i) !in h.loose {
      assert Hangs(g, q, i) <==> Kid(q, i) !in g.loose;
    }
  }

  lemma SetTopDown(g: Layout, c: nat, j: nat, e: Entry)
    requires Sized(g.ents) && Named(g) && Down(g) && Top(c) in g.ents && c != g.kern && KERNEL_HALF <= j < ENTRIES
    ensures var h := SetEntry(g, Top(c), j, e); Sized(h.ents) && Named(h) && Down(h)
  {
  }

  ghost function PutTop(w: World, c: nat, j: nat, e: Entry): World
    requires Sized(w.g.ents) && Top(c) in w.g.ents && c in w.tables && j < ENTRIES && j < |w.tables[c]|
  {
    World(w.tables[c := w.tables[c][j := e]], w.data, w.pool, SetEntry(w.g, Top(c), j, e), w.cut, w.others, w.shm)
  }

  lemma TopNode(g: Layout, c: nat)
    requires Named(g) && Top(c) in g.ents
    ensures Top(c) in g.node && g.node[Top(c)] == c
  {
  }

  lemma PutTopGood(w: World, c: nat, j: nat, e: Entry)
    requires Good(w) && Top(c) in w.g.loose && Top(c) in w.g.ents && c != w.g.kern && KERNEL_HALF <= j < ENTRIES
    ensures c in w.tables && j < |w.tables[c]| && Good(PutTop(w, c, j, e))
  {
    hide Good, Shaped, Stored, Balanced, Inv, Sized, Named;
    GoodParts(w);
    TopNode(w.g, c);
    SetTopShaped(w.g, c, j, e);
    StoredSet(w.tables, w.g, w.cut, Top(c), j, e);
    assert w.tables[c := w.tables[c][j := e]].Keys == w.tables.Keys;
    assert Sound(PutTop(w, c, j, e));
    MakeGood(PutTop(w, c, j, e));
  }

  // The first entries of the kernel half that have been copied.
  ghost predicate HalfDone(g: Layout, c: nat, n: nat)
    requires Sized(g.ents)
  {
    Top(c) in g.ents && Top(g.kern) in g.ents && n <= ENTRIES &&
    forall j :: KERNEL_HALF <= j < n ==> g.ents[Top(c)][j] == g.ents[Top(g.kern)][j]
  }

  // Hands out the new PML4.
  ghost function Publish(w: World, c: nat): World {
    World(w.tables, w.data, w.pool, w.g.(loose := w.g.loose - {Top(c)}), w.cut, w.others, w.shm)
  }

  lemma PublishGood(w: World, c: nat)
    requires Good(w) && HalfDone(w.g, c, ENTRIES)
    ensures Good(Publish(w, c))
  {
    hide Sized, Named, Rooted, Stored, Balanced, Inv, Flattened, Down, Up, KernelHalfShared, HalfDone;
    PublishUp(w.g, c);
    PublishHalf(w.g, c);
    StoredSame(w.tables, w.g, Publish(w, c).g, w.cut);
    FlatSame(w.g, Publish(w, c).g);
    DownSame(w.g, Publish(w, c).g);
  }

  lemma PublishHalf(g: Layout, c: nat)
    requires Sized(g.ents) && Rooted(g) && KernelHalfShared(g) && HalfDone(g, c, ENTRIES)
    ensures KernelHalfShared(g.(loose := g.loose - {Top(c)}))
  {
  }

  lemma PublishUp(g: Layout, c: nat)
    requires Sized(g.ents) && Up(g)
    ensures Up(g.(loose := g.loose - {Top(c)}))
  {
    var h := g.(loose := g.loose - {Top(c)});
    forall q, i: nat | Kid(q, i) in h.ents ensures Hangs(h, q, i) <==> Kid(q, i) !in h.loose {
      assert Hangs(g, q, i) <==> Kid(q, i) !in g.loose;
    }
  }

  lemma FlatSame(g: Layout, h: Layout)
    requires Sized(g.ents) && Flattened(g) && h.ents == g.ents && h.flat == g.flat
    ensures Flattened(h)
  {
  }

  lemma DownSame(g: Layout, h: Layout)
    requires Sized(g.ents) && Named(g) && Down(g) && h.ents == g.ents && h.node == g.node && h.kern == g.kern
    ensures Sized(h.ents) && Named(h) && Down(h) && (Rooted(g) ==> Rooted(h))
  {
  }

  // ---------- The result ----------

  // Address space c is the lazy copy of r; nothing else has changed.
  ghost predicate Forked(s: World, w: World, r: nat, c: nat) {
    && Top(c) !in s.g.ents && Top(c) in w.g.ents && r != c
    && w.g.flat == ForkMaps(s.g.flat, r, c)
    && w.g.kern == s.g.kern && w.g.loose == s.g.loose
    && (forall q :: q in s.g.ents ==> q in w.g.ents && q in s.g.node && q in w.g.node && w.g.node[q] == s.g.node[q])
    && SameRest(s, w) && SameCut(s, w)
  }

  lemma Conclude(s: World, w: World, r: nat, c: nat)
    requires Good(s) && Good(w) && CopyMade(s, w, Top(r), Top(c)) && r != c && Top(c) !in s.g.ents
    requires HalfDone(w.g, c, ENTRIES)
    ensures Good(Publish(w, c)) && Forked(s, Publish(w, c), r, c)
  {
    hide Good, Shaped, Stored, Sound, CopiedAll, ForkMaps, Sized, Named, Basic, Rooted, Flattened, Valid;
    GoodParts(s);
    GoodParts(w);
    PublishGood(w, c);
    ForkedFlat(s.g, w.g, r, c);
    CopiedNodes(s.g, w.g, Top(r), Top(c));
    CopiedLoose(s.g, w.g, Top(r), Top(c));
    HalfTop(w.g, c);
    hide HalfDone;
  }

  lemma HalfTop(g: Layout, c: nat)
    requires Sized(g.ents) && HalfDone(g, c, ENTRIES)
    ensures Top(c) in g.ents
  {
  }

  lemma CopiedLoose(g: Layout, h: Layout, a: Pos, b: Pos)
    requires CopiedAll(g, h, a, b)
    ensures h.loose == g.loose + {b} && h.kern == g.kern
  {
  }

  lemma CopiedNodes(g: Layout, h: Layout, a: Pos, b: Pos)
    requires CopiedAll(g, h, a, b)
    ensures forall q :: q in g.ents ==> q in h.ents && q in g.node && q in h.node && h.node[q] == g.node[q]
  {
  }

  lemma UncutAt(s: World, w: World, p: Pos)
    requires Uncut(s) && SameCut(s, w)
    ensures At(w.cut, p) == 0 && Uncut(w)
  {
    assert forall q :: At(w.cut, q) == At(s.cut, q);
  }

  lemma KidDepth(a: Pos, i: nat, level: nat)
    requires a.Depth() + level == 4
    ensures Kid(a, i).Depth() + level == 5
  {
  }

  lemma {:induction false} RerootDepth(a: Pos, b: Pos)
    requires b == a.Reroot(b.Root())
    ensures b.Depth() == a.Depth()
  {
    var r := b.Root();
    assert a.Reroot(r).Depth() == a.Depth();
  }

  lemma GaveUpNode(w: World, u: World, b: Pos)
    requires GaveUp(w, u) && b in w.g.node
    ensures b in u.g.node && u.g.node[b] == w.g.node[b]
  {
  }

  lemma SetLeafFacts(g: Layout, a: Pos, b: Pos, i: nat, e: Entry)
    requires Sized(g.ents) && a in g.ents && b in g.ents && a != b && i < ENTRIES
    ensures var h := SetLeaf(g, a, i, e);
            && h.node == g.node && a in h.ents && b in h.ents && |h.ents[a]| == ENTRIES
            && h.ents[a][i] == e && h.ents[b] == g.ents[b] && |h.ents[b]| == ENTRIES
  {
  }

  // ---------- Filling the kernel half ----------

  // What CopyKernelHalf has changed when entries 256..n-1 are done.
  ghost predicate Filling(w: World, u: World, c: nat, n: nat) {
    && Basic(w.g) && Basic(u.g) && SameRest(w, u) && u.cut == w.cut
    && u.g.kern == w.g.kern && u.g.loose == w.g.loose && u.g.node == w.g.node && u.g.flat == w.g.flat
    && u.g.ents.Keys == w.g.ents.Keys
    && (forall q :: q in w.g.ents && q != Top(c) ==> u.g.ents[q] == w.g.ents[q])
    && (Top(c) in w.g.ents ==> forall j :: 0 <= j < KERNEL_HALF ==> u.g.ents[Top(c)][j] == w.g.ents[Top(c)][j])
    && HalfDone(u.g, c, n)
  }

  ghost predicate HalfFilled(w: World, u: World, c: nat) {
    Filling(w, u, c, ENTRIES)
  }

  lemma FillStart(w: World, c: nat)
    requires Good(w) && Top(c) in w.g.ents
    ensures Filling(w, w, c, KERNEL_HALF)
  {
  }

  lemma RootEntries(w: World, c: nat, j: nat)
    requires Good(w) && Uncut(w) && Top(c) in w.g.ents && j < ENTRIES
    ensures Top(w.g.kern) in w.g.ents && w.g.kern in w.tables && j < |w.tables[w.g.kern]|
    ensures j < |w.g.ents[Top(w.g.kern)]| && w.tables[w.g.kern][j] == w.g.ents[Top(w.g.kern)][j]
  {
    assert Top(w.g.kern) in w.g.ents;
    ReadEntry(w, Top(w.g.kern), j);
  }

  lemma FillStep(w: World, u: World, c: nat, j: nat, e: Entry)
    requires Filling(w, u, c, j) && KERNEL_HALF <= j < ENTRIES && c != u.g.kern
    requires c in u.tables && j < |u.tables[c]| && e == u.g.ents[Top(u.g.kern)][j]
    ensures Filling(w, PutTop(u, c, j, e), c, j + 1)
  {
    SetEntryBasic(u.g, Top(c), j, e);
  }

  lemma FillingKeeps(w: World, u: World, c: nat, n: nat)
    requires Filling(w, u, c, n)
    ensures u.g.kern == w.g.kern && u.g.loose == w.g.loose && u.cut == w.cut && Basic(w.g) && Basic(u.g)
    ensures Uncut(w) ==> Uncut(u)
    ensures u.g.ents.Keys == w.g.ents.Keys && u.g.node == w.g.node && SameRest(w, u) && HalfDone(u.g, c, n)
  {
  }

  lemma FilledOld(s: World, w: World, u: World, r: nat, c: nat)
    requires Basic(s.g) && HalfFilled(w, u, c) && s.g.ents.Keys <= w.g.ents.Keys && Top(c) !in s.g.ents
    requires AllOld(s.g, w.g, Top(r))
    ensures AllOld(s.g, u.g, Top(r))
  {
  }

  lemma FilledNew(s: World, w: World, u: World, r: nat, c: nat)
    requires Basic(s.g) && HalfFilled(w, u, c) && Top(c) in w.g.ents && AllNew(s.g, w.g, Top(r))
    ensures AllNew(s.g, u.g, Top(r))
  {
  }

  // The kernel half is not part of the copy.
  lemma CopyFilled(s: World, w: World, u: World, r: nat, c: nat)
    requires Good(s) && CopyMade(s, w, Top(r), Top(c)) && Top(c) !in s.g.ents && HalfFilled(w, u, c)
    ensures CopyMade(s, u, Top(r), Top(c)) && HalfDone(u.g, c, ENTRIES)
  {
    hide Good, Sized, Named, AllOld, AllNew, Filling;
    FillingKeeps(w, u, c, ENTRIES);
    FilledOld(s, w, u, r, c);
    FilledNew(s, w, u, r, c);
  }

  lemma RootsApart(s: World, r: nat, c: nat)
    requires Good(s) && Top(r) in s.g.ents && Top(c) !in s.g.ents && r != s.g.kern && s.g.loose == {}
    ensures Apart(s.g, Top(r), Top(c)) && Place(s.g, Top(c), c)
  {
    GoodParts(s);
    NoneAtRoot(s.g, c);
    forall q | q in s.g.ents ensures !Below(Top(c), q) { BelowRoot(Top(c), 0, q); }
    assert Top(s.g.kern) in s.g.ents;
  }

  lemma GaveUpReady(s: World, w: World)
    requires GaveUp(s, w) && s.g.loose == {} && Uncut(s)
    ensures w.g.loose == {} && Uncut(w) && w.g.kern == s.g.kern && w.others == s.others
  {
    UncutAt(s, w, Top(0));
  }

  lemma ForkedReady(s: World, w: World, r: nat, c: nat)
    requires Forked(s, w, r, c) && s.g.loose == {} && Uncut(s)
    ensures w.g.loose == {} && Uncut(w) && w.g.kern == s.g.kern && w.others == s.others && Top(c) in w.g.ents
  {
    UncutAt(s, w, Top(0));
  }
}
