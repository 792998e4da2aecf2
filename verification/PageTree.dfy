/**
 The shape of all four-level page-table trees at once (src/mem/vmm.c).

 A `Layout` gives every table by its position: what its entries should be (`ents`), which frame it
 occupies (`node`), and the flat map from user pages to entries that all of them represent (`flat`).
 `Shaped` ties these together in both directions without recursion: a present entry names the frame of
 the table one level down, and a table hangs from the entry above it.  Tables that are being built or
 torn down are `loose`: the entry above them is not set.
 */
module PageTree {
  import opened PageTypes
  import opened CopyOnWrite

  datatype Layout = Layout(kern: nat, ents: map<Pos, seq<Entry>>, node: map<Pos, nat>,
                           flat: map<Slot, Entry>, loose: set<Pos>)

  // q is p or a table below it.
  predicate Below(p: Pos, q: Pos) {
    q == p || (q.Kid? && Below(p, q.up))
  }

  // q hangs below one of the first i entries of p.
  predicate InKids(p: Pos, i: nat, q: Pos) {
    q.Kid? && ((q.up == p && q.index < i) || InKids(p, i, q.up))
  }

  // Page tables of user space: three levels down, in the lower half of the PML4.
  predicate UserLeaf(p: Pos) {
    p.Kid? && p.up.Kid? && p.up.up.Kid? && p.up.up.up.Top? && p.up.up.index < KERNEL_HALF
  }

  predicate Leaf(p: Pos) {
    p.Kid? && p.up.Kid? && p.up.up.Kid?
  }

  // Tables are at most four deep.
  predicate Shallow(p: Pos) {
    p.Top? || p.up.Top? || p.up.up.Top? || p.up.up.up.Top?
  }

  ghost predicate Sized(ents: map<Pos, seq<Entry>>) {
    forall p :: p in ents ==> |ents[p]| == ENTRIES && Shallow(p)
  }

  // Entry i of table p belongs to p's own tree; the kernel half of a task's PML4 does not.
  ghost predicate Own(g: Layout, p: Pos, i: nat) {
    p == Top(g.kern) || p.Kid? || i < KERNEL_HALF
  }

  ghost predicate Named(g: Layout) {
    && g.node.Keys == g.ents.Keys
    && (forall p, q :: p in g.node && q in g.node && g.node[p] == g.node[q] ==> p == q)
    && (forall r :: Top(r) in g.node ==> g.node[Top(r)] == r)
  }

  // A table's parent is there, and tables of tasks cover only user space.
  ghost predicate Rooted(g: Layout) {
    && Top(g.kern) in g.ents
    && (forall p, i: nat :: Kid(p, i) in g.ents ==> p in g.ents)
    && (forall r, i: nat :: Kid(Top(r), i) in g.ents && r != g.kern ==> i < KERNEL_HALF)
  }

  ghost predicate Down(g: Layout)
    requires Sized(g.ents) && Named(g)
  {
    forall p, i: nat :: p in g.ents && !Leaf(p) && 0 <= i < ENTRIES && Own(g, p, i) && g.ents[p][i].present ==>
      Kid(p, i) in g.ents && g.ents[p][i].frame == g.node[Kid(p, i)]
  }

  ghost predicate Hangs(g: Layout, p: Pos, i: nat)
    requires Sized(g.ents)
  {
    p in g.ents && i < ENTRIES && Own(g, p, i) && g.ents[p][i].present
  }

  ghost predicate Up(g: Layout)
    requires Sized(g.ents)
  {
    && (forall p, i: nat :: Kid(p, i) in g.ents ==> (Hangs(g, p, i) <==> Kid(p, i) !in g.loose))
    && g.loose <= g.ents.Keys
  }

  // Every finished PML4 repeats the kernel's upper half.
  ghost predicate KernelHalfShared(g: Layout)
    requires Sized(g.ents) && Top(g.kern) in g.ents
  {
    forall r, i: nat :: Top(r) in g.ents && Top(r) !in g.loose && KERNEL_HALF <= i < ENTRIES ==>
      g.ents[Top(r)][i] == g.ents[Top(g.kern)][i]
  }

  ghost predicate Flattened(g: Layout)
    requires Sized(g.ents)
  {
    && (forall k :: k in g.flat ==> k.pos in g.ents && UserLeaf(k.pos) && k.index < ENTRIES
                                    && g.ents[k.pos][k.index] == g.flat[k] && g.flat[k].present)
    && (forall p, i: nat :: p in g.ents && UserLeaf(p) && 0 <= i < ENTRIES && g.ents[p][i].present ==>
          Slot(p, i) in g.flat)
  }

  ghost predicate Shaped(g: Layout) {
    Sized(g.ents) && Named(g) && Rooted(g) && Down(g) && Up(g) && KernelHalfShared(g) && Flattened(g)
  }

  function At(cut: map<Pos, nat>, p: Pos): nat {
    if p in cut then cut[p] else 0
  }

  // The tables in memory hold the layout.  While a table is being torn down its first entries are
  // stale; `cut` says how many.
  ghost predicate Stored(tables: map<nat, seq<Entry>>, g: Layout, cut: map<Pos, nat>)
    requires Sized(g.ents) && Named(g)
  {
    && tables.Keys == g.node.Values
    && (forall p :: p in g.ents ==> |tables[g.node[p]]| == ENTRIES)
    && (forall p, i: nat :: p in g.ents && At(cut, p) <= i < ENTRIES ==> tables[g.node[p]][i] == g.ents[p][i])
  }

  // ---------- Edits ----------

  function Empty(): seq<Entry> {
    seq(ENTRIES, _ => ABSENT)
  }

  ghost function SetEntry(g: Layout, p: Pos, i: nat, e: Entry): Layout
    requires Sized(g.ents) && p in g.ents && i < ENTRIES
  {
    g.(ents := g.ents[p := g.ents[p][i := e]])
  }

  ghost function SetLeaf(g: Layout, p: Pos, i: nat, e: Entry): Layout
    requires Sized(g.ents) && p in g.ents && i < ENTRIES
  {
    SetEntry(g, p, i, e).(flat :=
      if !UserLeaf(p) then g.flat
      else if e.present then g.flat[Slot(p, i) := e]
      else g.flat - {Slot(p, i)})
  }

  ghost function AddTable(g: Layout, p: Pos, f: nat): Layout {
    g.(ents := g.ents[p := Empty()], node := g.node[p := f], loose := g.loose + {p})
  }

  ghost function Link(g: Layout, p: Pos, i: nat, e: Entry): Layout
    requires Sized(g.ents) && p in g.ents && i < ENTRIES
  {
    SetEntry(g, p, i, e).(loose := g.loose - {Kid(p, i)})
  }

  // The entry is forgotten, and the table below it loose.
  ghost function Unlink(g: Layout, p: Pos, i: nat): Layout
    requires Sized(g.ents) && p in g.ents && i < ENTRIES
  {
    SetEntry(g, p, i, ABSENT).(loose := g.loose + {Kid(p, i)})
  }

  ghost function RemoveTable(g: Layout, p: Pos): Layout {
    g.(ents := g.ents - {p}, node := g.node - {p}, loose := g.loose - {p})
  }

  ghost predicate CanAdd(g: Layout, p: Pos, f: nat) {
    && p !in g.ents && Shallow(p)
    && (forall q :: q in g.node ==> g.node[q] != f)
    && (p.Top? ==> f == p.root)
    && (p.Kid? ==> p.up in g.ents)
    && (p.Kid? && p.up.Top? && p.up.root != g.kern ==> p.index < KERNEL_HALF)
  }

  lemma AddTableUp(g: Layout, p: Pos, f: nat)
    requires Sized(g.ents) && Named(g) && Rooted(g) && Down(g) && Up(g) && CanAdd(g, p, f)
    ensures var h := AddTable(g, p, f); Sized(h.ents) && Up(h)
  {
    var h := AddTable(g, p, f);
    forall q, i: nat | Kid(q, i) in h.ents ensures Hangs(h, q, i) <==> Kid(q, i) !in h.loose {
      if Kid(q, i) in g.ents {
        assert Hangs(g, q, i) <==> Kid(q, i) !in g.loose;
      }
    }
  }

  lemma AddTableDown(g: Layout, p: Pos, f: nat)
    requires Sized(g.ents) && Named(g) && Rooted(g) && Down(g) && CanAdd(g, p, f)
    ensures var h := AddTable(g, p, f); Sized(h.ents) && Named(h) && Rooted(h) && Down(h)
  {
  }

  lemma AddTableFlat(g: Layout, p: Pos, f: nat)
    requires Sized(g.ents) && Rooted(g) && KernelHalfShared(g) && Flattened(g) && CanAdd(g, p, f)
    ensures var h := AddTable(g, p, f);
            Sized(h.ents) && Top(h.kern) in h.ents && KernelHalfShared(h) && Flattened(h)
  {
  }

  lemma AddTableShaped(g: Layout, p: Pos, f: nat)
    requires Shaped(g) && CanAdd(g, p, f)
    ensures Shaped(AddTable(g, p, f))
  {
    AddTableUp(g, p, f);
    AddTableDown(g, p, f);
    AddTableFlat(g, p, f);
  }

  ghost predicate CanLink(g: Layout, p: Pos, i: nat, e: Entry)
    requires Named(g) && g.loose <= g.ents.Keys
  {
    && Kid(p, i) in g.loose && p in g.ents && i < ENTRIES && Own(g, p, i)
    && e.present && e.frame == g.node[Kid(p, i)]
    && (p == Top(g.kern) && i >= KERNEL_HALF ==> forall r :: Top(r) in g.ents ==> r == g.kern)
  }

  lemma LinkUp(g: Layout, p: Pos, i: nat, e: Entry)
    requires Sized(g.ents) && Named(g) && Up(g) && CanLink(g, p, i, e)
    ensures var h := Link(g, p, i, e); Sized(h.ents) && Up(h)
  {
    var h := Link(g, p, i, e);
    forall q, j: nat | Kid(q, j) in h.ents ensures Hangs(h, q, j) <==> Kid(q, j) !in h.loose {
      assert Hangs(g, q, j) <==> Kid(q, j) !in g.loose;
    }
  }

  lemma LinkDown(g: Layout, p: Pos, i: nat, e: Entry)
    requires Sized(g.ents) && Named(g) && Rooted(g) && Down(g) && g.loose <= g.ents.Keys && CanLink(g, p, i, e)
    ensures var h := Link(g, p, i, e); Sized(h.ents) && Named(h) && Rooted(h) && Down(h)
  {
  }

  lemma LinkHalf(g: Layout, p: Pos, i: nat, e: Entry)
    requires Sized(g.ents) && Named(g) && Rooted(g) && KernelHalfShared(g)
    requires g.loose <= g.ents.Keys && CanLink(g, p, i, e)
    ensures var h := Link(g, p, i, e); Sized(h.ents) && Top(h.kern) in h.ents && KernelHalfShared(h)
  {
  }

  lemma LinkFlat(g: Layout, p: Pos, i: nat, e: Entry)
    requires Sized(g.ents) && Named(g) && Flattened(g) && g.loose <= g.ents.Keys && CanLink(g, p, i, e)
    ensures var h := Link(g, p, i, e); Sized(h.ents) && Flattened(h)
  {
    assert Shallow(Kid(p, i)) && !UserLeaf(p);
  }

  lemma LinkShaped(g: Layout, p: Pos, i: nat, e: Entry)
    requires Shaped(g) && CanLink(g, p, i, e)
    ensures Shaped(Link(g, p, i, e))
  {
    hide Sized, Named, Rooted, Down, KernelHalfShared, Flattened, CanLink;
    LinkUp(g, p, i, e);
    LinkDown(g, p, i, e);
    LinkHalf(g, p, i, e);
    LinkFlat(g, p, i, e);
  }

  lemma SetLeafUp(g: Layout, p: Pos, i: nat, e: Entry)
    requires Sized(g.ents) && Up(g) && p in g.ents && Leaf(p) && i < ENTRIES
    ensures var h := SetLeaf(g, p, i, e); Sized(h.ents) && Up(h)
  {
    var h := SetLeaf(g, p, i, e);
    forall q, j: nat | Kid(q, j) in h.ents ensures Hangs(h, q, j) <==> Kid(q, j) !in h.loose {
      assert Hangs(g, q, j) <==> Kid(q, j) !in g.loose;
    }
  }

  lemma SetLeafFlat(g: Layout, p: Pos, i: nat, e: Entry)
    requires Sized(g.ents) && Flattened(g) && p in g.ents && Leaf(p) && i < ENTRIES
    ensures var h := SetLeaf(g, p, i, e); Sized(h.ents) && Flattened(h)
  {
    var h := SetLeaf(g, p, i, e);
    forall k | k in h.flat
      ensures k.pos in h.ents && UserLeaf(k.pos) && k.index < ENTRIES
      ensures h.ents[k.pos][k.index] == h.flat[k] && h.flat[k].present
    {
      if k != Slot(p, i) { assert k in g.flat; }
    }
    forall q, j: nat | q in h.ents && UserLeaf(q) && 0 <= j < ENTRIES && h.ents[q][j].present
      ensures Slot(q, j) in h.flat
    {
      if Slot(q, j) != Slot(p, i) { assert Slot(q, j) in g.flat; }
    }
  }

  lemma SetLeafDown(g: Layout, p: Pos, i: nat, e: Entry)
    requires Sized(g.ents) && Named(g) && Rooted(g) && Down(g) && KernelHalfShared(g)
    requires p in g.ents && Leaf(p) && i < ENTRIES
    ensures var h := SetLeaf(g, p, i, e);
            Sized(h.ents) && Named(h) && Rooted(h) && Down(h) && KernelHalfShared(h)
  {
  }

  lemma SetLeafShaped(g: Layout, p: Pos, i: nat, e: Entry)
    requires Shaped(g) && p in g.ents && Leaf(p) && i < ENTRIES
    ensures Shaped(SetLeaf(g, p, i, e))
  {
    hide Sized, Named, Rooted, Down, Up, KernelHalfShared, Flattened;
    SetLeafUp(g, p, i, e);
    SetLeafDown(g, p, i, e);
    SetLeafFlat(g, p, i, e);
  }

  lemma UnlinkUp(g: Layout, p: Pos, i: nat)
    requires Sized(g.ents) && Named(g) && Down(g) && Up(g) && Hangs(g, p, i) && !Leaf(p)
    ensures var h := Unlink(g, p, i); Sized(h.ents) && Up(h)
  {
    var h := Unlink(g, p, i);
    forall q, j: nat | Kid(q, j) in h.ents ensures Hangs(h, q, j) <==> Kid(q, j) !in h.loose {
      assert Hangs(g, q, j) <==> Kid(q, j) !in g.loose;
    }
  }

  lemma UnlinkDown(g: Layout, p: Pos, i: nat)
    requires Sized(g.ents) && Named(g) && Rooted(g) && Down(g) && Hangs(g, p, i)
    ensures var h := Unlink(g, p, i); Sized(h.ents) && Named(h) && Rooted(h) && Down(h)
  {
  }

  lemma UnlinkFlat(g: Layout, p: Pos, i: nat)
    requires Sized(g.ents) && Rooted(g) && KernelHalfShared(g) && Flattened(g)
    requires Hangs(g, p, i) && !Leaf(p) && p != Top(g.kern)
    ensures var h := Unlink(g, p, i);
            Sized(h.ents) && Top(h.kern) in h.ents && KernelHalfShared(h) && Flattened(h)
  {
  }

  lemma UnlinkShaped(g: Layout, p: Pos, i: nat)
    requires Shaped(g) && Hangs(g, p, i) && !Leaf(p) && p != Top(g.kern)
    ensures Shaped(Unlink(g, p, i))
  {
    UnlinkUp(g, p, i);
    UnlinkDown(g, p, i);
    UnlinkFlat(g, p, i);
  }

  ghost predicate CanRemove(g: Layout, p: Pos)
    requires Sized(g.ents) && g.loose <= g.ents.Keys
  {
    && p in g.loose && p != Top(g.kern)
    && (forall i: nat :: Kid(p, i) !in g.ents)
    && (UserLeaf(p) ==> forall i: nat :: i < ENTRIES ==> !g.ents[p][i].present)
  }

  lemma RemoveTableUp(g: Layout, p: Pos)
    requires Sized(g.ents) && Rooted(g) && Up(g) && CanRemove(g, p)
    ensures var h := RemoveTable(g, p); Sized(h.ents) && Up(h)
  {
    var h := RemoveTable(g, p);
    forall q, j: nat | Kid(q, j) in h.ents ensures Hangs(h, q, j) <==> Kid(q, j) !in h.loose {
      assert Hangs(g, q, j) <==> Kid(q, j) !in g.loose;
    }
  }

  lemma RemoveTableDown(g: Layout, p: Pos)
    requires Sized(g.ents) && Named(g) && Down(g) && Up(g) && CanRemove(g, p)
    ensures var h := RemoveTable(g, p); Sized(h.ents) && Named(h) && Down(h)
  {
    var h := RemoveTable(g, p);
    forall q, j: nat | q in h.ents && !Leaf(q) && 0 <= j < ENTRIES && Own(h, q, j) && h.ents[q][j].present
      ensures Kid(q, j) in h.ents && h.ents[q][j].frame == h.node[Kid(q, j)]
    {
      assert Hangs(g, q, j);
    }
  }

  lemma RemoveTableFlat(g: Layout, p: Pos)
    requires Sized(g.ents) && Rooted(g) && KernelHalfShared(g) && Flattened(g)
    requires g.loose <= g.ents.Keys && CanRemove(g, p)
    ensures var h := RemoveTable(g, p);
            Sized(h.ents) && Rooted(h) && KernelHalfShared(h) && Flattened(h)
  {
    assert UserLeaf(p) ==> forall i: nat :: i < ENTRIES ==> Slot(p, i) !in g.flat;
  }

  lemma RemoveTableShaped(g: Layout, p: Pos)
    requires Shaped(g) && CanRemove(g, p)
    ensures Shaped(RemoveTable(g, p))
  {
    RemoveTableUp(g, p);
    RemoveTableDown(g, p);
    RemoveTableFlat(g, p);
  }

  lemma BelowTop(q: Pos)
    ensures Below(Top(q.Root()), q)
  {
  }

  // The PML4 of any table is there.
  lemma RootThere(g: Layout, p: Pos)
    requires Rooted(g) && p in g.ents
    ensures Top(p.Root()) in g.ents
  {
  }

  // ---------- The same edits in memory ----------

  lemma SetEntryBasic(g: Layout, p: Pos, i: nat, e: Entry)
    requires Sized(g.ents) && Named(g) && p in g.ents && i < ENTRIES
    ensures var h := SetEntry(g, p, i, e); Sized(h.ents) && Named(h)
  {
  }

  lemma StoredNodes(tables: map<nat, seq<Entry>>, g: Layout, cut: map<Pos, nat>, p: Pos)
    requires Sized(g.ents) && Named(g) && Stored(tables, g, cut) && p in g.ents
    ensures g.node.Keys == g.ents.Keys && tables.Keys == g.node.Values
    ensures forall q :: q in g.ents && q != p ==> g.node[q] != g.node[p]
    ensures forall q :: q in g.ents ==> g.node[q] in tables && |tables[g.node[q]]| == ENTRIES && |g.ents[q]| == ENTRIES
    ensures forall q, j: nat :: q in g.ents && At(cut, q) <= j < ENTRIES ==> tables[g.node[q]][j] == g.ents[q][j]
  {
    forall q | q in g.ents ensures g.node[q] in tables { assert g.node[q] in g.node.Values; }
  }

  lemma StoredSet(tables: map<nat, seq<Entry>>, g: Layout, cut: map<Pos, nat>, p: Pos, i: nat, e: Entry)
    requires Sized(g.ents) && Named(g) && Stored(tables, g, cut) && p in g.ents && i < ENTRIES
    ensures p in g.node && g.node[p] in tables && i < |tables[g.node[p]]|
    ensures var h := SetEntry(g, p, i, e);
            Sized(h.ents) && Named(h) && Stored(tables[g.node[p] := tables[g.node[p]][i := e]], h, cut)
  {
    hide Sized, Named;
    StoredNodes(tables, g, cut, p);
    SetEntryBasic(g, p, i, e);
    var h := SetEntry(g, p, i, e);
    var t := tables[g.node[p] := tables[g.node[p]][i := e]];
    assert t.Keys == tables.Keys && h.node == g.node;
    forall q | q in g.ents
      ensures h.node[q] in t && |t[h.node[q]]| == ENTRIES
      ensures forall j: nat :: At(cut, q) <= j < ENTRIES ==> t[h.node[q]][j] == h.ents[q][j]
    {
      if q != p {
        assert t[h.node[q]] == tables[g.node[q]] && h.ents[q] == g.ents[q];
      }
    }
  }

  lemma StoredAdd(tables: map<nat, seq<Entry>>, g: Layout, cut: map<Pos, nat>, p: Pos, f: nat)
    requires Sized(g.ents) && Named(g) && Stored(tables, g, cut) && p !in g.ents
    requires var h := AddTable(g, p, f); Sized(h.ents) && Named(h)
    ensures Stored(tables[f := Empty()], AddTable(g, p, f), cut)
  {
    var h := AddTable(g, p, f);
    var t := tables[f := Empty()];
    ValuesAdd(g.node, p, f);
    forall q | q in h.ents
      ensures h.node[q] in t && |t[h.node[q]]| == ENTRIES
      ensures forall j :: At(cut, q) <= j < ENTRIES ==> t[h.node[q]][j] == h.ents[q][j]
    {
      assert h.node[q] in h.node.Values;
      if q != p { assert h.node[q] != h.node[p] && h.node[q] == g.node[q]; }
    }
  }

  lemma ValuesAdd(m: map<Pos, nat>, p: Pos, f: nat)
    requires p !in m
    ensures m[p := f].Values == m.Values + {f}
  {
    var h := m[p := f];
    assert p in h && h[p] == f;
    forall q | q in m ensures m[q] in h.Values { assert q in h && h[q] == m[q]; }
  }

  lemma ValuesRemove(m: map<Pos, nat>, p: Pos)
    requires p in m && forall q :: q in m && m[q] == m[p] ==> q == p
    ensures (m - {p}).Values == m.Values - {m[p]}
  {
    var h := m - {p};
    forall q | q in h ensures h[q] in m.Values - {m[p]} { assert q in m && m[q] == h[q]; }
    forall q | q in m && q != p ensures m[q] in h.Values { assert q in h && h[q] == m[q]; }
  }

  lemma StoredRemove(tables: map<nat, seq<Entry>>, g: Layout, cut: map<Pos, nat>, p: Pos)
    requires Sized(g.ents) && Named(g) && Stored(tables, g, cut) && p in g.ents
    ensures var h := RemoveTable(g, p);
            Sized(h.ents) && Named(h) && Stored(tables - {g.node[p]}, h, cut)
  {
    var h := RemoveTable(g, p);
    ValuesRemove(g.node, p);
    forall q | q in h.ents ensures h.node[q] in tables - {g.node[p]} {
      assert g.node[q] in g.node.Values && g.node[q] != g.node[p];
    }
  }

  // ---------- The walk ----------

  datatype Step = Missing | Found(frame: nat)

  // Follow the given indices from the table in frame f, as the hardware and vmm_walk_to_pte do.
  function Walk(tables: map<nat, seq<Entry>>, f: nat, path: seq<nat>): Step
    decreases |path|
  {
    if path == [] then Found(f)
    else if f in tables && path[0] < |tables[f]| && tables[f][path[0]].present then
      Walk(tables, tables[f][path[0]].frame, path[1..])
    else Missing
  }

  function Descend(p: Pos, path: seq<nat>): (q: Pos)
    ensures q.Root() == p.Root() && q.Depth() == p.Depth() + |path|
    decreases |path|
  {
    if path == [] then p else Descend(Kid(p, path[0]), path[1..])
  }

  lemma DescendLast(p: Pos, path: seq<nat>, i: nat)
    ensures Descend(p, path + [i]) == Kid(Descend(p, path), i)
    decreases |path|
  {
    if path != [] {
      assert (path + [i])[1..] == path[1..] + [i];
      DescendLast(Kid(p, path[0]), path[1..], i);
    }
  }

  lemma LeafDepth(p: Pos)
    requires Leaf(p)
    ensures p.Depth() >= 3
  {
    assert p.up.Depth() == p.up.up.Depth() + 1;
  }

  // Nothing is under construction.
  ghost predicate Settled(g: Layout) {
    Shaped(g) && g.loose == {}
  }

  lemma BelowClosed(g: Layout, p: Pos, path: seq<nat>)
    requires Settled(g) && Descend(p, path) in g.ents
    ensures p in g.ents
    decreases |path|
  {
    if path != [] {
      BelowClosed(g, Kid(p, path[0]), path[1..]);
      assert Hangs(g, p, path[0]);
    }
  }

  // Walking the tables in memory from the table at p finds exactly the table the layout has at the
  // end of the path.
  lemma {:induction false} WalkInTree(tables: map<nat, seq<Entry>>, g: Layout, p: Pos, path: seq<nat>)
    requires Settled(g) && Stored(tables, g, map[]) && p in g.ents && p.Depth() + |path| <= 3
    requires path != [] && path[0] >= KERNEL_HALF ==> p.Kid? || p == Top(g.kern)
    ensures var q := Descend(p, path);
            Walk(tables, g.node[p], path) == if q in g.ents then Found(g.node[q]) else Missing
    decreases |path|
  {
    if path != [] {
      var i := path[0];
      assert g.node[p] in tables.Keys;
      var q := Descend(p, path);
      if i < ENTRIES && tables[g.node[p]][i].present {
        assert Own(g, p, i);
        if Leaf(p) { LeafDepth(p); }
        WalkInTree(tables, g, Kid(p, i), path[1..]);
      } else if q in g.ents {
        BelowClosed(g, Kid(p, i), path[1..]);
        assert false;
      }
    }
  }

  // The tree that answers for a top-level index of address space r.
  function Home(g: Layout, r: nat, i: nat): nat {
    if i < KERNEL_HALF then r else g.kern
  }

  // From any PML4, a walk finds exactly the table of its own tree, or of the kernel's for the upper
  // half: the radix trees behave as one flat index of tables.
  lemma WalkIsFlat(tables: map<nat, seq<Entry>>, g: Layout, r: nat, path: seq<nat>)
    requires Settled(g) && Stored(tables, g, map[]) && Top(r) in g.ents && |path| == 3
    ensures var q := Descend(Top(Home(g, r, path[0])), path);
            Walk(tables, r, path) == if q in g.ents then Found(g.node[q]) else Missing
  {
    if path[0] < KERNEL_HALF || r == g.kern {
      WalkInTree(tables, g, Top(r), path);
    } else {
      WalkInTree(tables, g, Top(g.kern), path);
      assert r in tables.Keys && g.kern in tables.Keys by {
        assert g.node[Top(r)] in g.node.Values && g.node[Top(g.kern)] in g.node.Values;
      }
      assert path[0] < ENTRIES ==> tables[r][path[0]] == tables[g.kern][path[0]];
    }
  }

  // The entry a translation reads, if there is one.
  function Translate(tables: map<nat, seq<Entry>>, r: nat, path: seq<nat>, i: nat): Entry {
    match Walk(tables, r, path)
    case Missing => ABSENT
    case Found(f) => if f in tables && i < |tables[f]| && tables[f][i].present then tables[f][i] else ABSENT
  }

  // Translations of user pages are the flat map.
  lemma TranslateIsFlat(tables: map<nat, seq<Entry>>, g: Layout, r: nat, path: seq<nat>, i: nat)
    requires Settled(g) && Stored(tables, g, map[]) && Top(r) in g.ents
    requires |path| == 3 && path[0] < KERNEL_HALF && i < ENTRIES
    ensures var k := Slot(Descend(Top(r), path), i);
            Translate(tables, r, path, i) == if k in g.flat then g.flat[k] else ABSENT
  {
    WalkIsFlat(tables, g, r, path);
    var q := Descend(Top(r), path);
    UserPath(r, path);
    if q in g.ents {
      assert g.node[q] in g.node.Values;
    }
  }

  lemma UserPath(r: nat, path: seq<nat>)
    requires |path| == 3 && path[0] < KERNEL_HALF
    ensures UserLeaf(Descend(Top(r), path))
  {
    assert path[1..][1..] == [path[2]];
    assert Descend(Kid(Kid(Top(r), path[0]), path[1]), [path[2]]) == Kid(Kid(Kid(Top(r), path[0]), path[1]), path[2]);
  }
}
