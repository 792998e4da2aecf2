/**
 What tearing down a subtree does to the layout (vmm_free_table, src/mem/vmm.c).
 */
module PageTeardown {
  import opened PageTypes
  import opened PageTree

  // No table strictly below p is under construction.
  ghost predicate QuietBelow(g: Layout, p: Pos) {
    forall q :: q in g.loose && Below(p, q) ==> q == p
  }

  ghost predicate Basic(g: Layout) {
    Sized(g.ents) && Named(g)
  }

  // How many entries vmm_free_table looks at: the kernel half of a PML4 is never freed.
  function Limit(p: Pos): nat {
    if p.Top? then KERNEL_HALF else ENTRIES
  }

  // A table below p is below the table some entry of p points to.
  lemma Branch(g: Layout, p: Pos, q: Pos) returns (j: nat)
    requires Shaped(g) && QuietBelow(g, p) && q in g.ents && Below(p, q) && q != p && p != Top(g.kern)
    ensures Hangs(g, p, j) && Kid(p, j) in g.ents && Below(Kid(p, j), q) && j < Limit(p)
  {
    assert Hangs(g, q.up, q.index);
    if q.up == p {
      j := q.index;
    } else {
      j := Branch(g, p, q.up);
    }
  }

  lemma InKidsStep(p: Pos, i: nat, q: Pos)
    ensures InKids(p, i + 1, q) <==> InKids(p, i, q) || Below(Kid(p, i), q)
    decreases q
  {
    if q.Kid? { InKidsStep(p, i, q.up); }
  }

  lemma BelowIrreflexive(p: Pos, i: nat, q: Pos)
    ensures Below(p, q) ==> p.Depth() <= q.Depth()
    ensures InKids(p, i, q) ==> p.Depth() < q.Depth() && Below(p, q)
    decreases q
  {
    if q.Kid? { BelowIrreflexive(p, i, q.up); }
  }

  lemma KidsBelow(p: Pos, i: nat, j: nat, q: Pos)
    ensures InKids(p, i, q) ==> Below(p, q) && q != p
    ensures Below(Kid(p, j), q) && j < i ==> InKids(p, i, q)
    decreases q
  {
    BelowIrreflexive(p, i, q);
    if q.Kid? { KidsBelow(p, i, j, q.up); }
  }

  // g is the layout at the start; the first i entries of p and everything below them are gone.
  ghost predicate TrimmedTables(g: Layout, h: Layout, p: Pos, i: nat) {
    && h.kern == g.kern && h.loose == g.loose
    && p in g.ents && p in h.ents
    && (forall q :: q in h.ents <==> q in g.ents && !InKids(p, i, q))
  }

  ghost predicate TrimmedEntries(g: Layout, h: Layout, p: Pos, i: nat)
    requires Basic(g) && Basic(h) && p in g.ents && p in h.ents && h.ents.Keys <= g.ents.Keys
  {
    && (forall q :: q in h.ents ==> h.node[q] == g.node[q])
    && (forall q :: q in h.ents && q != p ==> h.ents[q] == g.ents[q])
    && (forall j: nat :: i <= j < ENTRIES ==> h.ents[p][j] == g.ents[p][j])
    && (forall j: nat :: 0 <= j < i && j < ENTRIES ==> !h.ents[p][j].present)
  }

  ghost predicate Trimmed(g: Layout, h: Layout, p: Pos, i: nat)
    requires Basic(g) && Basic(h)
  {
    TrimmedTables(g, h, p, i) && TrimmedEntries(g, h, p, i)
  }

  // The whole subtree at p is gone, and nothing else has changed.
  ghost predicate Pruned(g: Layout, h: Layout, p: Pos)
    requires Basic(g) && Basic(h)
  {
    && h.kern == g.kern && h.loose == g.loose - {p}
    && (forall q :: q in h.ents <==> q in g.ents && !Below(p, q))
    && (forall q :: q in h.ents ==> h.node[q] == g.node[q] && h.ents[q] == g.ents[q])
  }

  lemma TrimStart(g: Layout, p: Pos)
    requires Shaped(g) && p in g.ents
    ensures Trimmed(g, g, p, 0)
  {
    forall q ensures !InKids(p, 0, q) { NoKids(p, q); }
  }

  lemma NoKids(p: Pos, q: Pos)
    ensures !InKids(p, 0, q)
  {
  }

  // An entry that is not present has nothing below it.
  lemma TrimSkip(g: Layout, h: Layout, p: Pos, i: nat)
    requires Shaped(g) && Shaped(h) && Trimmed(g, h, p, i) && QuietBelow(h, p) && p != Top(h.kern)
    requires i < ENTRIES && !h.ents[p][i].present
    ensures Trimmed(g, h, p, i + 1)
  {
    forall q ensures q in h.ents <==> q in g.ents && !InKids(p, i + 1, q) {
      InKidsStep(p, i, q);
      if q in h.ents && Below(Kid(p, i), q) {
        BelowTrans(p, i, q);
        var j := Branch(h, p, q);
        OneBranch(p, i, j, q);
        assert false;
      }
    }
  }

  lemma BelowTrans(p: Pos, i: nat, q: Pos)
    requires Below(Kid(p, i), q)
    ensures Below(p, q) && q != p
  {
    BelowIrreflexive(Kid(p, i), 0, q);
    if q != Kid(p, i) { BelowTrans(p, i, q.up); }
  }

  lemma OneBranch(p: Pos, i: nat, j: nat, q: Pos)
    requires Below(Kid(p, i), q) && Below(Kid(p, j), q)
    ensures i == j
  {
    BelowIrreflexive(Kid(p, i), 0, q.up);
    BelowIrreflexive(Kid(p, j), 0, q.up);
    if q != Kid(p, i) && q != Kid(p, j) { OneBranch(p, i, j, q.up); }
  }

  // Freeing the table below entry i and forgetting the entry.
  lemma TrimStepTables(g: Layout, h: Layout, u: Layout, p: Pos, i: nat)
    requires Basic(g) && Basic(h) && Basic(u) && TrimmedTables(g, h, p, i)
    requires i < ENTRIES && Kid(p, i) !in h.loose
    requires Basic(Unlink(h, p, i)) && Pruned(Unlink(h, p, i), u, Kid(p, i))
    ensures TrimmedTables(g, u, p, i + 1)
  {
    forall q ensures q in u.ents <==> q in g.ents && !InKids(p, i + 1, q) {
      InKidsStep(p, i, q);
    }
    if Below(Kid(p, i), p) { BelowTrans(p, i, p); }
  }

  lemma TrimStepEntries(g: Layout, h: Layout, u: Layout, p: Pos, i: nat)
    requires Basic(g) && Basic(h) && Basic(u) && i < ENTRIES
    requires p in g.ents && p in h.ents && p in u.ents && h.ents.Keys <= g.ents.Keys && u.ents.Keys <= h.ents.Keys
    requires TrimmedEntries(g, h, p, i)
    requires forall q :: q in u.ents ==>
      u.node[q] == h.node[q] && u.ents[q] == if q == p then h.ents[p][i := ABSENT] else h.ents[q]
    ensures TrimmedEntries(g, u, p, i + 1)
  {
  }

  lemma TrimStep(g: Layout, h: Layout, u: Layout, p: Pos, i: nat)
    requires Basic(g) && Basic(h) && Basic(u) && Trimmed(g, h, p, i)
    requires i < ENTRIES && Kid(p, i) !in h.loose
    requires Basic(Unlink(h, p, i)) && Pruned(Unlink(h, p, i), u, Kid(p, i))
    ensures Trimmed(g, u, p, i + 1)
  {
    TrimStepTables(g, h, u, p, i);
    TrimStepEntries(g, h, u, p, i);
  }

  // Forgetting a page entry.
  lemma TrimLeafTables(g: Layout, h: Layout, p: Pos, i: nat)
    requires Basic(g) && Basic(h) && TrimmedTables(g, h, p, i) && Leaf(p) && i < ENTRIES
    ensures TrimmedTables(g, SetLeaf(h, p, i, ABSENT), p, i + 1)
  {
    forall q | q in g.ents ensures !InKids(p, i + 1, q) && !InKids(p, i, q) {
      LeafHasNoKids(g, p, i + 1, q);
      LeafHasNoKids(g, p, i, q);
    }
  }

  lemma TrimLeaf(g: Layout, h: Layout, p: Pos, i: nat)
    requires Basic(g) && Basic(h) && Trimmed(g, h, p, i) && Leaf(p) && i < ENTRIES
    ensures var u := SetLeaf(h, p, i, ABSENT); Basic(u) && Trimmed(g, u, p, i + 1)
  {
    SetEntryBasic(h, p, i, ABSENT);
    assert Basic(SetLeaf(h, p, i, ABSENT));
    hide Basic, Sized, Named, TrimmedTables, TrimmedEntries;
    TrimLeafTables(g, h, p, i);
    TrimStepEntries(g, h, SetLeaf(h, p, i, ABSENT), p, i);
  }

  lemma LeafHasNoKids(g: Layout, p: Pos, i: nat, q: Pos)
    requires Leaf(p) && Sized(g.ents) && q in g.ents
    ensures !InKids(p, i, q)
  {
    LeafDepth(p);
    ShallowDepth(q);
    BelowIrreflexive(p, i, q);
  }

  lemma ShallowDepth(q: Pos)
    requires Shallow(q)
    ensures q.Depth() <= 3
  {
    if q.Kid? && q.up.Kid? {
      assert q.up.Depth() == q.up.up.Depth() + 1;
    }
  }

  // When every entry has been dealt with, the table itself can go.
  lemma TrimAlone(g: Layout, h: Layout, p: Pos)
    requires Shaped(g) && Shaped(h) && TrimmedTables(g, h, p, Limit(p))
    requires p in h.loose && QuietBelow(h, p) && p.Root() != h.kern
    ensures forall q :: q in h.ents && Below(p, q) ==> q == p
  {
    forall q | q in h.ents && Below(p, q) ensures q == p {
      if q != p {
        var j := Branch(h, p, q);
        KidsBelow(p, Limit(p), j, q);
        assert false;
      }
    }
  }

  lemma TrimDone(g: Layout, h: Layout, p: Pos)
    requires Basic(g) && Basic(h) && Trimmed(g, h, p, Limit(p))
    requires forall q :: q in h.ents && Below(p, q) ==> q == p
    ensures var u := RemoveTable(h, p); Basic(u) && Pruned(g, u, p)
  {
    var u := RemoveTable(h, p);
    forall q ensures q in u.ents <==> q in g.ents && !Below(p, q) {
      KidsBelow(p, Limit(p), 0, q);
    }
  }
}
