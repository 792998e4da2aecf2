/**
 What copying a subtree does to the layout (vmm_copy_hierarchy, src/mem/vmm.c).

 The source subtree hangs at a, the copy is built at b, the same place in another tree.  The copy
 repeats the tables of the source; page entries, in source and copy alike, lose the writable bit unless
 they are shared.
 */
module PageFork {
  import opened PageTypes
  import opened CopyOnWrite
  import opened PageTree
  import opened PageTeardown

  // The place in the tree of a that q repeats.
  function Twin(a: Pos, q: Pos): Pos {
    q.Reroot(a.Root())
  }

  ghost predicate Apart(g: Layout, a: Pos, b: Pos) {
    && a in g.ents && a.Root() != g.kern
    && b == a.Reroot(b.Root()) && b.Root() != a.Root() && b.Root() != g.kern
    && (forall q :: q in g.ents ==> !Below(b, q))
    && (forall q :: q in g.loose ==> q.Root() != a.Root())
  }

  function Fade(e: Entry): Entry {
    if e.present then Demote(e) else e
  }

  function CopyOf(e: Entry): Entry {
    if e.present then Demote(e) else ABSENT
  }

  predicate SameFlags(e: Entry, f: Entry) {
    && f.present == e.present
    && (e.present ==> f.writable == e.writable && f.user == e.user && f.shared == e.shared)
  }

  // ---------- The copy after the first i entries ----------

  ghost predicate CopiedTables(g: Layout, h: Layout, a: Pos, b: Pos, i: nat) {
    && h.kern == g.kern && h.loose == g.loose + {b}
    && (forall q :: q in h.ents <==> q in g.ents || q == b || (InKids(b, i, q) && Twin(a, q) in g.ents))
  }

  // Page entries of the source that have been reached lose the writable bit.
  ghost predicate CopiedOld(g: Layout, h: Layout, a: Pos, i: nat)
    requires Basic(g) && Basic(h) && g.ents.Keys <= h.ents.Keys
  {
    && (forall q :: q in g.ents ==> h.node[q] == g.node[q])
    && (forall q, j: nat :: q in g.ents && j < ENTRIES ==>
          h.ents[q][j] == if UserLeaf(q) && (InKids(a, i, q) || (q == a && j < i)) then Fade(g.ents[q][j])
                          else g.ents[q][j])
  }

  ghost predicate NewEntry(b: Pos, i: nat, q: Pos, j: nat, e: Entry, f: Entry) {
    if q == b && j >= i then f == ABSENT
    else if Leaf(q) then f == CopyOf(e)
    else SameFlags(e, f)
  }

  ghost predicate CopiedNew(g: Layout, h: Layout, a: Pos, b: Pos, i: nat)
    requires Basic(g) && Basic(h)
  {
    && (forall q :: q in h.ents && q !in g.ents ==> Twin(a, q) in g.ents)
    && (forall q, j: nat {:trigger h.ents[q][j]} :: q in h.ents && q !in g.ents && j < ENTRIES ==>
          NewEntry(b, i, q, j, g.ents[Twin(a, q)][j], h.ents[q][j]))
  }

  ghost predicate Copied(g: Layout, h: Layout, a: Pos, b: Pos, i: nat) {
    && Basic(g) && Basic(h)
    && CopiedTables(g, h, a, b, i) && CopiedOld(g, h, a, i) && CopiedNew(g, h, a, b, i)
  }

  // ---------- The finished copy ----------

  ghost predicate AllTables(g: Layout, h: Layout, a: Pos, b: Pos) {
    && h.kern == g.kern && h.loose == g.loose + {b}
    && (forall q :: q in h.ents <==> q in g.ents || (Below(b, q) && Twin(a, q) in g.ents))
  }

  ghost predicate AllOld(g: Layout, h: Layout, a: Pos)
    requires Basic(g) && Basic(h) && g.ents.Keys <= h.ents.Keys
  {
    && (forall q :: q in g.ents ==> h.node[q] == g.node[q])
    && (forall q, j: nat :: q in g.ents && j < ENTRIES ==>
          h.ents[q][j] == if UserLeaf(q) && Below(a, q) then Fade(g.ents[q][j]) else g.ents[q][j])
  }

  ghost predicate AllNew(g: Layout, h: Layout, a: Pos)
    requires Basic(g) && Basic(h)
  {
    && (forall q :: q in h.ents && q !in g.ents ==> Twin(a, q) in g.ents)
    && (forall q, j: nat {:trigger h.ents[q][j]} ::
          q in h.ents && q !in g.ents && j < ENTRIES && (q.Top? ==> j < KERNEL_HALF) ==>
          if Leaf(q) then h.ents[q][j] == CopyOf(g.ents[Twin(a, q)][j])
          else SameFlags(g.ents[Twin(a, q)][j], h.ents[q][j]))
  }

  ghost predicate CopiedAll(g: Layout, h: Layout, a: Pos, b: Pos) {
    && Basic(g) && Basic(h)
    && AllTables(g, h, a, b) && AllOld(g, h, a) && AllNew(g, h, a)
  }

  // Nothing has changed but that some private page entries may have lost the writable bit.
  ghost predicate Faded(g: Layout, h: Layout) {
    && Basic(g) && Basic(h)
    && h.kern == g.kern && h.loose == g.loose && h.ents.Keys == g.ents.Keys && h.node == g.node
    && (forall q, j: nat :: q in g.ents && j < ENTRIES ==>
          h.ents[q][j] == g.ents[q][j] || (UserLeaf(q) && h.ents[q][j] == Fade(g.ents[q][j])))
  }

  // ---------- Positions in the two trees ----------

  lemma TwinBelow(a: Pos, p: Pos, i: nat, q: Pos, c: nat)
    requires p.Root() == q.Root()
    ensures Below(p.Reroot(c), q.Reroot(c)) <==> Below(p, q)
    ensures InKids(p.Reroot(c), i, q.Reroot(c)) <==> InKids(p, i, q)
    decreases q
  {
    RerootInjective(p, q, c);
    if q.Kid? {
      TwinBelow(a, p, i, q.up, c);
      RerootInjective(p, q.up, c);
    }
  }

  lemma RerootInjective(p: Pos, q: Pos, c: nat)
    requires p.Root() == q.Root()
    ensures p.Reroot(c) == q.Reroot(c) <==> p == q
  {
    p.RerootTwice(c);
    q.RerootTwice(c);
  }

  lemma BelowRoot(p: Pos, i: nat, q: Pos)
    ensures Below(p, q) ==> q.Root() == p.Root()
    ensures InKids(p, i, q) ==> q.Root() == p.Root()
    decreases q
  {
    if q.Kid? { BelowRoot(p, i, q.up); }
  }

  // For a table q of the copy's tree, where it lies relative to b is where its twin lies relative to a.
  lemma Mirror(g: Layout, a: Pos, b: Pos, i: nat, q: Pos)
    requires Apart(g, a, b) && q.Root() == b.Root()
    ensures Below(b, q) <==> Below(a, Twin(a, q))
    ensures InKids(b, i, q) <==> InKids(a, i, Twin(a, q))
    ensures q == b <==> Twin(a, q) == a
    ensures Twin(a, q).Root() == a.Root()
  {
    a.RerootTwice(b.Root());
    TwinBelow(a, b, i, q, a.Root());
    RerootInjective(b, q, a.Root());
  }

  // ---------- Steps of the copy ----------

  // A table below entry i of the source means that the entry is present.
  lemma Presence(g: Layout, a: Pos, i: nat, q: Pos)
    requires Shaped(g) && q in g.ents && Below(Kid(a, i), q)
    requires forall l :: l in g.loose ==> l.Root() != a.Root()
    ensures Kid(a, i) in g.ents && Hangs(g, a, i)
    decreases q
  {
    if q == Kid(a, i) {
      assert q.Root() == a.Root();
    } else {
      Presence(g, a, i, q.up);
    }
  }

  lemma SourceQuiet(g: Layout, a: Pos, b: Pos)
    requires Apart(g, a, b)
    ensures QuietBelow(g, a)
  {
    forall q | q in g.loose ensures !Below(a, q) {
      BelowRoot(a, 0, q);
    }
  }

  lemma KidTwin(g: Layout, a: Pos, b: Pos, i: nat)
    requires Apart(g, a, b)
    ensures Kid(b, i) == Kid(a, i).Reroot(b.Root()) && Twin(a, Kid(b, i)) == Kid(a, i)
    ensures Kid(a, i).Root() == a.Root() && Kid(b, i).Root() == b.Root()
  {
    a.RerootTwice(b.Root());
    Kid(a, i).RerootTwice(b.Root());
  }

  // Below entry i of the copy there is something only if the source entry is present.
  lemma MirrorPresence(g: Layout, a: Pos, b: Pos, i: nat, q: Pos)
    requires Shaped(g) && Apart(g, a, b) && Below(Kid(b, i), q) && Twin(a, q) in g.ents
    ensures Hangs(g, a, i) && Below(Kid(a, i), Twin(a, q))
  {
    KidTwin(g, a, b, i);
    BelowRoot(Kid(b, i), 0, q);
    TwinBelow(a, Kid(b, i), 0, q, a.Root());
    Presence(g, a, i, Twin(a, q));
  }

  lemma TwinOf(g: Layout, a: Pos, b: Pos)
    requires Apart(g, a, b)
    ensures Twin(a, b) == a && (a.Top? <==> b.Top?)
  {
    a.RerootTwice(b.Root());
  }

  lemma CopyStart(g: Layout, a: Pos, b: Pos, f: nat)
    requires Basic(g) && Apart(g, a, b) && Basic(AddTable(g, b, f))
    ensures Copied(g, AddTable(g, b, f), a, b, 0)
  {
    var h := AddTable(g, b, f);
    TwinOf(g, a, b);
    assert Below(b, b);
    forall q ensures !InKids(b, 0, q) && !InKids(a, 0, q) {
      NoKids(b, q);
      NoKids(a, q);
    }
  }

  lemma SkipTables(g: Layout, h: Layout, a: Pos, b: Pos, i: nat)
    requires Shaped(g) && Apart(g, a, b) && CopiedTables(g, h, a, b, i)
    requires i < ENTRIES && !g.ents[a][i].present
    ensures CopiedTables(g, h, a, b, i + 1)
  {
    forall q ensures InKids(b, i + 1, q) && Twin(a, q) in g.ents <==> InKids(b, i, q) && Twin(a, q) in g.ents {
      InKidsStep(b, i, q);
      if Below(Kid(b, i), q) && Twin(a, q) in g.ents {
        MirrorPresence(g, a, b, i, q);
        assert false;
      }
    }
  }

  lemma SkipOld(g: Layout, h: Layout, a: Pos, b: Pos, i: nat)
    requires Shaped(g) && Basic(h) && Apart(g, a, b) && g.ents.Keys <= h.ents.Keys && CopiedOld(g, h, a, i)
    requires i < ENTRIES && !g.ents[a][i].present
    ensures CopiedOld(g, h, a, i + 1)
  {
    forall q | q in g.ents ensures InKids(a, i + 1, q) <==> InKids(a, i, q) {
      InKidsStep(a, i, q);
      if Below(Kid(a, i), q) {
        Presence(g, a, i, q);
        assert false;
      }
    }
  }

  lemma SkipNew(g: Layout, h: Layout, a: Pos, b: Pos, i: nat)
    requires Basic(g) && Basic(h) && Apart(g, a, b) && CopiedNew(g, h, a, b, i)
    requires i < ENTRIES && !g.ents[a][i].present
    ensures CopiedNew(g, h, a, b, i + 1)
  {
    TwinOf(g, a, b);
  }

  lemma CopySkip(g: Layout, h: Layout, a: Pos, b: Pos, i: nat)
    requires Shaped(g) && Apart(g, a, b) && Copied(g, h, a, b, i)
    requires i < ENTRIES && !g.ents[a][i].present
    ensures Copied(g, h, a, b, i + 1)
  {
    assert g.ents.Keys <= h.ents.Keys;
    hide CopiedTables, CopiedOld, CopiedNew, Basic, Apart;
    SkipTables(g, h, a, b, i);
    SkipOld(g, h, a, b, i);
    SkipNew(g, h, a, b, i);
  }

  // ---------- Completion ----------

  lemma Covered(g: Layout, a: Pos, b: Pos, q: Pos)
    requires Shaped(g) && Apart(g, a, b) && q in g.ents
    ensures Below(a, q) <==> q == a || InKids(a, Limit(a), q)
  {
    SourceQuiet(g, a, b);
    KidsBelow(a, Limit(a), 0, q);
    if Below(a, q) && q != a {
      var j := Branch(g, a, q);
      KidsBelow(a, Limit(a), j, q);
    }
  }

  lemma CoveredCopy(g: Layout, a: Pos, b: Pos, q: Pos)
    requires Shaped(g) && Apart(g, a, b) && Twin(a, q) in g.ents
    ensures Below(b, q) <==> q == b || InKids(b, Limit(a), q)
  {
    BelowRoot(b, Limit(a), q);
    if q.Root() == b.Root() {
      Mirror(g, a, b, Limit(a), q);
      Covered(g, a, b, Twin(a, q));
    }
  }

  lemma DoneTables(g: Layout, h: Layout, a: Pos, b: Pos)
    requires Shaped(g) && Apart(g, a, b) && CopiedTables(g, h, a, b, Limit(a))
    ensures AllTables(g, h, a, b)
  {
    forall q ensures q in h.ents <==> q in g.ents || (Below(b, q) && Twin(a, q) in g.ents) {
      TwinOf(g, a, b);
      if Twin(a, q) in g.ents { CoveredCopy(g, a, b, q); }
    }
  }

  lemma DoneOld(g: Layout, h: Layout, a: Pos, b: Pos)
    requires Shaped(g) && Basic(h) && Apart(g, a, b) && g.ents.Keys <= h.ents.Keys && CopiedOld(g, h, a, Limit(a))
    ensures AllOld(g, h, a)
  {
    forall q | q in g.ents ensures Below(a, q) <==> q == a || InKids(a, Limit(a), q) {
      Covered(g, a, b, q);
    }
    LeafLimit(a);
    hide Shaped, Apart, Basic, Below, InKids, Sized, Named;
    assert UserLeaf(a) ==> Limit(a) == ENTRIES;
  }

  lemma LeafLimit(a: Pos)
    ensures UserLeaf(a) ==> Limit(a) == ENTRIES
  {
  }

  lemma DoneNew(g: Layout, h: Layout, a: Pos, b: Pos)
    requires Basic(g) && Basic(h) && Apart(g, a, b) && CopiedNew(g, h, a, b, Limit(a))
    ensures AllNew(g, h, a)
  {
    TwinOf(g, a, b);
  }

  lemma CopyDone(g: Layout, h: Layout, a: Pos, b: Pos)
    requires Shaped(g) && Apart(g, a, b) && Copied(g, h, a, b, Limit(a))
    ensures CopiedAll(g, h, a, b)
  {
    KeepsOld(g, h, a, b, Limit(a));
    hide CopiedTables, CopiedOld, CopiedNew, AllTables, AllOld, AllNew, Basic, Apart, Shaped;
    DoneTables(g, h, a, b);
    DoneOld(g, h, a, b);
    DoneNew(g, h, a, b);
  }

  lemma KeepsOld(g: Layout, h: Layout, a: Pos, b: Pos, i: nat)
    requires CopiedTables(g, h, a, b, i)
    ensures g.ents.Keys <= h.ents.Keys
  {
  }

  // ---------- Copying the table below entry i ----------

  lemma KidApart(g: Layout, h: Layout, a: Pos, b: Pos, i: nat)
    requires Apart(g, a, b) && CopiedTables(g, h, a, b, i) && Kid(a, i) in g.ents
    ensures Apart(h, Kid(a, i), Kid(b, i))
  {
    KidTwin(g, a, b, i);
    forall q | q in h.ents ensures !Below(Kid(b, i), q) {
      if Below(Kid(b, i), q) {
        BelowTrans(b, i, q);
        NotEarlier(b, i, q);
      }
    }
  }

  lemma NotEarlier(p: Pos, i: nat, q: Pos)
    requires Below(Kid(p, i), q)
    ensures !InKids(p, i, q)
    decreases q
  {
    BelowIrreflexive(Kid(p, i), 0, q);
    BelowIrreflexive(p, i, q.up);
    if q == Kid(p, i) {
      BelowIrreflexive(p, i, p);
    } else {
      NotEarlier(p, i, q.up);
      BelowIrreflexive(Kid(p, i), 0, q.up);
    }
  }

  // Tables of the source's tree are never new.
  lemma SourceOld(g: Layout, h: Layout, a: Pos, b: Pos, i: nat, q: Pos)
    requires Apart(g, a, b) && CopiedTables(g, h, a, b, i) && q.Root() == a.Root()
    ensures q in h.ents <==> q in g.ents
  {
    BelowRoot(b, i, q);
  }

  lemma KidTables(g: Layout, h: Layout, u: Layout, v: Layout, a: Pos, b: Pos, i: nat)
    requires Apart(g, a, b) && g.loose <= g.ents.Keys && CopiedTables(g, h, a, b, i)
    requires AllTables(h, u, Kid(a, i), Kid(b, i))
    requires v.kern == u.kern && v.loose == u.loose - {Kid(b, i)} && v.ents.Keys == u.ents.Keys
    ensures CopiedTables(g, v, a, b, i + 1)
  {
    KidTwin(g, a, b, i);
    assert Kid(b, i) !in g.loose + {b} by { assert Below(b, b) && Below(b, Kid(b, i)); }
    forall q ensures q in v.ents <==> q in g.ents || q == b || (InKids(b, i + 1, q) && Twin(a, q) in g.ents) {
      InKidsStep(b, i, q);
      assert Twin(Kid(a, i), q) == Twin(a, q);
      SourceOld(g, h, a, b, i, Twin(a, q));
    }
  }

  lemma KidOld(g: Layout, h: Layout, u: Layout, a: Pos, b: Pos, i: nat)
    requires Basic(g) && Basic(h) && Basic(u)
    requires g.ents.Keys <= h.ents.Keys && h.ents.Keys <= u.ents.Keys
    requires CopiedOld(g, h, a, i) && AllOld(h, u, Kid(a, i)) && i < ENTRIES
    requires !Leaf(a)
    ensures CopiedOld(g, u, a, i + 1)
  {
    forall q, j: nat | q in g.ents && j < ENTRIES
      ensures u.ents[q][j] == if UserLeaf(q) && (InKids(a, i + 1, q) || (q == a && j < i + 1)) then Fade(g.ents[q][j])
                              else g.ents[q][j]
    {
      InKidsStep(a, i, q);
      assert h.ents[q][j] == if UserLeaf(q) && InKids(a, i, q) then Fade(g.ents[q][j]) else g.ents[q][j];
    }
  }

  lemma KidNew(g: Layout, h: Layout, u: Layout, v: Layout, a: Pos, b: Pos, i: nat, e: Entry)
    requires Basic(g) && Basic(h) && Basic(u) && Basic(v) && Apart(g, a, b)
    requires CopiedTables(g, h, a, b, i) && CopiedOld(g, h, a, i) && CopiedNew(g, h, a, b, i)
    requires AllTables(h, u, Kid(a, i), Kid(b, i)) && AllOld(h, u, Kid(a, i)) && AllNew(h, u, Kid(a, i))
    requires i < ENTRIES && !Leaf(a) && b in u.ents && v.ents == u.ents[b := u.ents[b][i := e]]
    requires SameFlags(g.ents[a][i], e)
    ensures CopiedNew(g, v, a, b, i + 1)
  {
    hide CopiedTables, CopiedOld, AllTables, AllOld, AllNew, Apart, Named, Leaf, NewEntry;
    forall q | q in v.ents && q !in g.ents ensures Twin(a, q) in g.ents {
      KidLinkedEntry(g, h, u, v, a, b, i, e, q, 0);
    }
    forall q, j: nat | q in v.ents && q !in g.ents && j < ENTRIES
      ensures Twin(a, q) in g.ents && NewEntry(b, i + 1, q, j, g.ents[Twin(a, q)][j], v.ents[q][j])
    {
      KidLinkedEntry(g, h, u, v, a, b, i, e, q, j);
    }
  }

  lemma KidLinkedEntry(g: Layout, h: Layout, u: Layout, v: Layout, a: Pos, b: Pos, i: nat, e: Entry, q: Pos, j: nat)
    requires Basic(g) && Basic(h) && Basic(u) && Basic(v) && Apart(g, a, b)
    requires CopiedTables(g, h, a, b, i) && CopiedOld(g, h, a, i) && CopiedNew(g, h, a, b, i)
    requires AllTables(h, u, Kid(a, i), Kid(b, i)) && AllOld(h, u, Kid(a, i)) && AllNew(h, u, Kid(a, i))
    requires i < ENTRIES && !Leaf(a) && b in u.ents && v.ents == u.ents[b := u.ents[b][i := e]]
    requires SameFlags(g.ents[a][i], e) && q in v.ents && q !in g.ents && j < ENTRIES
    ensures Twin(a, q) in g.ents && NewEntry(b, i + 1, q, j, g.ents[Twin(a, q)][j], v.ents[q][j])
  {
    hide CopiedTables, CopiedOld, CopiedNew, AllTables, AllOld, AllNew, Apart, Named, Leaf;
    TwinOf(g, a, b);
    ApartTwin(g, a, b);
    SameDepth(a, b);
    CopyThere(g, h, a, b, i);
    KidNewEntry(g, h, u, a, b, i, q, j);
  }

  lemma ApartTwin(g: Layout, a: Pos, b: Pos)
    requires Apart(g, a, b)
    ensures a in g.ents && b == a.Reroot(b.Root())
  {
  }

  lemma CopyThere(g: Layout, h: Layout, a: Pos, b: Pos, i: nat)
    requires CopiedTables(g, h, a, b, i)
    ensures b in h.ents
  {
  }

  lemma SameDepth(a: Pos, b: Pos)
    requires b == a.Reroot(b.Root())
    ensures Leaf(a) <==> Leaf(b)
  {
    if a.Kid? && a.up.Kid? {
      assert b.up == a.up.Reroot(b.Root()) && b.up.up == a.up.up.Reroot(b.Root());
    }
  }

  lemma KidNewEntry(g: Layout, h: Layout, u: Layout, a: Pos, b: Pos, i: nat, q: Pos, j: nat)
    requires Basic(g) && Basic(h) && Basic(u) && Apart(g, a, b)
    requires CopiedTables(g, h, a, b, i) && CopiedOld(g, h, a, i) && CopiedNew(g, h, a, b, i)
    requires AllTables(h, u, Kid(a, i), Kid(b, i)) && AllOld(h, u, Kid(a, i)) && AllNew(h, u, Kid(a, i))
    requires q in u.ents && q !in g.ents && j < ENTRIES
    ensures Twin(a, q) in g.ents
    ensures q in h.ents ==> u.ents[q][j] == h.ents[q][j] && NewEntry(b, i, q, j, g.ents[Twin(a, q)][j], u.ents[q][j])
    ensures q !in h.ents ==> NewEntry(b, i + 1, q, j, g.ents[Twin(a, q)][j], u.ents[q][j]) && q != b
  {
    KidTwin(g, a, b, i);
    assert Twin(Kid(a, i), q) == Twin(a, q);
    SourceOld(g, h, a, b, i, Twin(a, q));
    if q in h.ents {
      NewRoot(g, h, a, b, i, q);
      BelowRoot(Kid(a, i), 0, q);
    } else {
      BelowRoot(Kid(b, i), 0, q);
      TwinBelow(a, Kid(b, i), 0, q, a.Root());
      NotEarlier(a, i, Twin(a, q));
      BelowTrans(a, i, Twin(a, q));
      assert h.ents[Twin(a, q)][j] == g.ents[Twin(a, q)][j];
    }
  }

  lemma NewRoot(g: Layout, h: Layout, a: Pos, b: Pos, i: nat, q: Pos)
    requires CopiedTables(g, h, a, b, i) && q in h.ents && q !in g.ents
    ensures q.Root() == b.Root()
  {
    BelowRoot(b, i, q);
  }

  lemma CopyKid(g: Layout, h: Layout, u: Layout, a: Pos, b: Pos, i: nat, e: Entry)
    requires Shaped(g) && Apart(g, a, b) && Copied(g, h, a, b, i) && CopiedAll(h, u, Kid(a, i), Kid(b, i))
    requires i < ENTRIES && !Leaf(a) && b in u.ents && SameFlags(g.ents[a][i], e)
    ensures Copied(g, Link(u, b, i, e), a, b, i + 1)
  {
    hide Shaped, Apart, CopiedTables, CopiedOld, CopiedNew, AllTables, AllOld, AllNew, Named, Leaf;
    CopyKidBasic(g, h, u, a, b, i, e);
    ApartTwin(g, a, b);
    var v := Link(u, b, i, e);
    KidTables(g, h, u, v, a, b, i);
    KidOld(g, h, u, a, b, i);
    OldUnlinked(g, u, v, a, b, i + 1);
    KidNew(g, h, u, v, a, b, i, e);
  }

  lemma CopyKidBasic(g: Layout, h: Layout, u: Layout, a: Pos, b: Pos, i: nat, e: Entry)
    requires Shaped(g) && Apart(g, a, b) && Copied(g, h, a, b, i) && CopiedAll(h, u, Kid(a, i), Kid(b, i))
    requires i < ENTRIES && b in u.ents
    ensures g.loose <= g.ents.Keys && g.ents.Keys <= h.ents.Keys && h.ents.Keys <= u.ents.Keys
    ensures b !in g.ents && Basic(g) && Basic(h) && Basic(u) && Basic(Link(u, b, i, e))
  {
    SetEntryBasic(u, b, i, e);
    assert Below(b, b);
  }

  lemma OldUnlinked(g: Layout, u: Layout, v: Layout, a: Pos, b: Pos, i: nat)
    requires Basic(g) && Basic(u) && Basic(v) && b !in g.ents && g.ents.Keys <= u.ents.Keys <= v.ents.Keys
    requires CopiedOld(g, u, a, i) && v.node == u.node
    requires forall q :: q in u.ents && q != b ==> v.ents[q] == u.ents[q]
    ensures CopiedOld(g, v, a, i)
  {
  }

  // ---------- Copying page entry i ----------

  lemma LeafTables(g: Layout, h: Layout, v: Layout, a: Pos, b: Pos, i: nat)
    requires Basic(g) && Apart(g, a, b) && Leaf(a) && CopiedTables(g, h, a, b, i)
    requires v.kern == h.kern && v.loose == h.loose && v.ents.Keys == h.ents.Keys
    ensures CopiedTables(g, v, a, b, i + 1)
  {
    forall q | Twin(a, q) in g.ents ensures !InKids(b, i, q) && !InKids(b, i + 1, q) {
      BelowRoot(b, i, q);
      BelowRoot(b, i + 1, q);
      if q.Root() == b.Root() {
        Mirror(g, a, b, i, q);
        Mirror(g, a, b, i + 1, q);
        LeafHasNoKids(g, a, i, Twin(a, q));
        LeafHasNoKids(g, a, i + 1, Twin(a, q));
      }
    }
  }

  lemma LeafOld(g: Layout, h: Layout, v: Layout, a: Pos, b: Pos, i: nat)
    requires Basic(g) && Basic(h) && Basic(v) && UserLeaf(a) && a in g.ents && b !in g.ents && i < ENTRIES
    requires g.ents.Keys <= h.ents.Keys && v.ents.Keys == h.ents.Keys && v.node == h.node
    requires CopiedOld(g, h, a, i)
    requires v.ents[a] == h.ents[a][i := Fade(g.ents[a][i])]
    requires forall q :: q in h.ents && q != a && q != b ==> v.ents[q] == h.ents[q]
    ensures CopiedOld(g, v, a, i + 1)
  {
    forall q | q in g.ents ensures !InKids(a, i, q) && !InKids(a, i + 1, q) {
      LeafHasNoKids(g, a, i, q);
      LeafHasNoKids(g, a, i + 1, q);
    }
  }

  lemma LeafNew(g: Layout, h: Layout, v: Layout, a: Pos, b: Pos, i: nat)
    requires Basic(g) && Basic(h) && Basic(v) && Apart(g, a, b) && Leaf(a) && i < ENTRIES
    requires CopiedNew(g, h, a, b, i) && v.ents.Keys == h.ents.Keys && b in h.ents
    requires v.ents[b] == h.ents[b][i := CopyOf(g.ents[a][i])]
    requires forall q :: q in h.ents && q !in g.ents && q != b ==> v.ents[q] == h.ents[q]
    ensures CopiedNew(g, v, a, b, i + 1)
  {
    TwinOf(g, a, b);
    SameDepth(a, b);
  }

  // The layout after page entry i has been copied.
  ghost function CopyPage(h: Layout, a: Pos, b: Pos, i: nat, e: Entry): Layout
    requires Sized(h.ents) && a in h.ents && b in h.ents && i < ENTRIES
  {
    SetLeaf(SetLeaf(h, a, i, Demote(e)), b, i, Demote(e))
  }

  lemma CopyPageBasic(h: Layout, a: Pos, b: Pos, i: nat, e: Entry)
    requires Basic(h) && a in h.ents && b in h.ents && a != b && i < ENTRIES
    ensures var v := CopyPage(h, a, b, i, e);
            && Basic(v) && v.node == h.node && v.kern == h.kern && v.loose == h.loose && v.ents.Keys == h.ents.Keys
            && v.ents == h.ents[a := h.ents[a][i := Demote(e)]][b := h.ents[b][i := Demote(e)]]
  {
    SetEntryBasic(h, a, i, Demote(e));
    SetEntryBasic(SetLeaf(h, a, i, Demote(e)), b, i, Demote(e));
  }

  lemma UserLeafIsLeaf(a: Pos)
    ensures UserLeaf(a) ==> Leaf(a)
  {
  }

  lemma CopyLeaf(g: Layout, h: Layout, a: Pos, b: Pos, i: nat)
    requires Basic(g) && Apart(g, a, b) && Copied(g, h, a, b, i)
    requires UserLeaf(a) && i < ENTRIES && a in h.ents && b in h.ents && b !in g.ents && g.ents[a][i].present
    ensures Copied(g, CopyPage(h, a, b, i, g.ents[a][i]), a, b, i + 1)
  {
    hide CopiedOld, CopiedNew, Named, Apart, UserLeaf;
    ApartTwin(g, a, b);
    var v := CopyPage(h, a, b, i, g.ents[a][i]);
    CopyPageBasic(h, a, b, i, g.ents[a][i]);
    UserLeafIsLeaf(a);
    LeafTables(g, h, v, a, b, i);
    LeafOld(g, h, v, a, b, i);
    LeafNew(g, h, v, a, b, i);
  }

  // ---------- A copy given up half-way ----------

  lemma UndoneTables(g: Layout, h: Layout, u: Layout, v: Layout, a: Pos, b: Pos, i: nat)
    requires Apart(g, a, b) && CopiedTables(g, h, a, b, i) && u.ents.Keys == h.ents.Keys
    requires forall q :: q in v.ents <==> q in u.ents && !Below(b, q)
    ensures v.ents.Keys == g.ents.Keys
  {
    assert Below(b, b);
    forall q ensures q in v.ents <==> q in g.ents {
      KidsBelow(b, i, 0, q);
    }
  }

  lemma UndoneEntries(g: Layout, h: Layout, u: Layout, v: Layout, a: Pos, i: nat)
    requires Basic(g) && Basic(h) && g.ents.Keys <= h.ents.Keys && CopiedOld(g, h, a, i) && Faded(h, u)
    requires Basic(v) && v.ents.Keys == g.ents.Keys
    requires forall q :: q in v.ents ==> q in u.ents && v.node[q] == u.node[q] && v.ents[q] == u.ents[q]
    ensures forall q, j: nat :: q in g.ents && j < ENTRIES ==>
      v.ents[q][j] == g.ents[q][j] || (UserLeaf(q) && v.ents[q][j] == Fade(g.ents[q][j]))
    ensures v.node == g.node
  {
    forall q, j: nat | q in g.ents && j < ENTRIES
      ensures v.ents[q][j] == g.ents[q][j] || (UserLeaf(q) && v.ents[q][j] == Fade(g.ents[q][j]))
    {
      assert u.ents[q][j] == h.ents[q][j] || (UserLeaf(q) && u.ents[q][j] == Fade(h.ents[q][j]));
    }
  }

  lemma CopyUndone(g: Layout, h: Layout, u: Layout, v: Layout, a: Pos, b: Pos, i: nat)
    requires Apart(g, a, b) && g.loose <= g.ents.Keys && Copied(g, h, a, b, i)
    requires Faded(h, u) && Basic(v) && Pruned(u, v, b)
    ensures Faded(g, v)
  {
    hide CopiedOld, CopiedNew, Sized, Named, Apart;
    KeepsOld(g, h, a, b, i);
    UndoneTables(g, h, u, v, a, b, i);
    UndoneEntries(g, h, u, v, a, i);
    ApartSelf(g, a, b);
  }

  lemma ApartSelf(g: Layout, a: Pos, b: Pos)
    requires Apart(g, a, b)
    ensures b !in g.ents
  {
    assert Below(b, b);
  }

  lemma FadedSelf(g: Layout)
    requires Basic(g)
    ensures Faded(g, g)
  {
  }

  // ---------- The flat view of a finished copy ----------

  lemma ForkedSlot(g: Layout, h: Layout, r: nat, c: nat, k: Slot)
    requires Basic(g) && Basic(h) && Flattened(g) && Flattened(h)
    requires r != c && (forall q :: q in g.ents ==> q.Root() != c)
    requires AllTables(g, h, Top(r), Top(c)) && AllOld(g, h, Top(r)) && AllNew(g, h, Top(r))
    ensures var i := Origin(r, c, k);
            && (k in h.flat <==> i in g.flat)
            && (k in h.flat ==> h.flat[k] == if k.Space() == r || k.Space() == c then Demote(g.flat[i]) else g.flat[i])
  {
    var i := Origin(r, c, k);
    var q := k.pos;
    BelowTop(q);
    BelowRoot(Top(r), 0, q);
    BelowRoot(Top(c), 0, q);
    if q.Root() == c {
      assert i == Slot(Twin(Top(r), q), k.index);
      TwinUserLeaf(r, q);
    }
  }

  lemma TwinUserLeaf(r: nat, q: Pos)
    ensures UserLeaf(q.Reroot(r)) <==> UserLeaf(q)
    ensures UserLeaf(q) ==> Leaf(q)
  {
    if q.Kid? && q.up.Kid? {
      assert q.Reroot(r).up == q.up.Reroot(r) && q.Reroot(r).up.up == q.up.up.Reroot(r);
    }
  }

  lemma NoneAtRoot(g: Layout, c: nat)
    requires Shaped(g) && Top(c) !in g.ents
    ensures forall q :: q in g.ents ==> q.Root() != c
    ensures forall k :: k in g.flat ==> k.Space() != c
  {
    forall q | q in g.ents ensures q.Root() != c { RootThere(g, q); }
  }

  lemma ShapedParts(g: Layout)
    requires Shaped(g)
    ensures Basic(g) && Flattened(g)
  {
  }

  lemma ForkedFlat(g: Layout, h: Layout, r: nat, c: nat)
    requires Shaped(g) && Shaped(h) && r != c && Top(c) !in g.ents && CopiedAll(g, h, Top(r), Top(c))
    ensures h.flat == ForkMaps(g.flat, r, c)
  {
    hide Shaped, Basic, Sized, Named, Flattened, AllTables, AllOld, AllNew, ForkMaps;
    NoneAtRoot(g, c);
    ShapedParts(g);
    ShapedParts(h);
    var t := ForkMaps(g.flat, r, c);
    forall k ensures (k in h.flat <==> k in t) && (k in t ==> h.flat[k] == t[k]) {
      ForkedSlot(g, h, r, c, k);
      ForkEntry(g.flat, r, c, k);
    }
  }

  lemma FadedSlot(g: Layout, h: Layout, k: Slot)
    requires Faded(g, h) && Flattened(g) && Flattened(h)
    ensures k in h.flat <==> k in g.flat
    ensures k in g.flat ==> h.flat[k] == g.flat[k] || h.flat[k] == Demote(g.flat[k])
  {
    if k in h.flat || k in g.flat {
      assert h.ents[k.pos][k.index] == g.ents[k.pos][k.index] ||
             h.ents[k.pos][k.index] == Fade(g.ents[k.pos][k.index]);
    }
  }

  // ... and of one given up.
  lemma FadedFlat(g: Layout, h: Layout)
    requires Shaped(g) && Shaped(h) && Faded(g, h)
    ensures exists ks :: h.flat == DemoteAll(g.flat, ks)
    ensures h.flat.Keys == g.flat.Keys
    ensures forall k :: k in g.flat ==> h.flat[k].frame == g.flat[k].frame && h.flat[k].shared == g.flat[k].shared
  {
    hide Shaped, Faded, Flattened;
    ShapedParts(g);
    ShapedParts(h);
    forall k { FadedSlot(g, h, k); }
    var ks := set k | k in g.flat && h.flat[k] != g.flat[k];
    assert h.flat == DemoteAll(g.flat, ks);
  }
}
