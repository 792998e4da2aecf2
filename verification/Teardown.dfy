/**
 The loop of vmm_free_table, step by step.
 */
module Teardown {
  import opened PageTypes
  import opened Frames
  import opened PageTree
  import opened PageTeardown
  import opened Worlds

  // Nothing at or below p is stale, and nothing below it is loose.
  ghost predicate Removable(w: World, p: Pos) {
    && p in w.g.loose && p.Root() != w.g.kern && QuietBelow(w.g, p)
    && forall q :: q in w.g.ents && Below(p, q) ==> At(w.cut, q) == 0
  }

  ghost predicate SameRest(a: World, w: World) {
    w.data == a.data && w.others == a.others && w.shm == a.shm
  }

  // The first i entries of p have been dealt with since state a.
  ghost predicate Trimming(a: World, w: World, p: Pos, i: nat) {
    && Basic(a.g) && Basic(w.g)
    && Trimmed(a.g, w.g, p, i)
    && At(w.cut, p) <= i
    && (forall q :: q != p ==> At(w.cut, q) == At(a.cut, q))
    && SameRest(a, w)
  }

  // The subtree at p has been given back since state a.
  ghost predicate Freed(a: World, w: World, p: Pos) {
    && Basic(a.g) && Basic(w.g)
    && Pruned(a.g, w.g, p)
    && (forall q :: At(w.cut, q) == At(a.cut, q))
    && SameRest(a, w)
  }

  lemma Start(a: World, p: Pos)
    requires Good(a) && Removable(a, p)
    ensures p in a.g.ents && Trimming(a, a, p, 0)
  {
    TrimStart(a.g, p);
    assert Below(p, p);
  }

  lemma Quiet(a: World, w: World, p: Pos, i: nat)
    requires Removable(a, p) && Trimming(a, w, p, i)
    ensures p in w.g.loose && p in w.g.ents && p in w.g.node && p in a.g.node && QuietBelow(w.g, p)
    ensures p != Top(w.g.kern) && p.Root() != w.g.kern && w.g.node[p] == a.g.node[p]
  {
  }

  lemma GoodBasic(w: World)
    requires Good(w)
    ensures Basic(w.g) && Shaped(w.g) && w.g.loose <= w.g.ents.Keys && w.g.node.Keys == w.g.ents.Keys
    ensures Valid(w.pool)
  {
  }

  lemma Skip(a: World, w: World, p: Pos, i: nat)
    requires Good(a) && Good(w) && Removable(a, p) && Trimming(a, w, p, i)
    requires i < ENTRIES && i < |w.g.ents[p]| && !w.g.ents[p][i].present
    ensures Trimming(a, w, p, i + 1)
  {
    hide Good, Shaped, Sized, Named, Rooted, Down, Up, KernelHalfShared, Flattened, Stored, Sound, QuietBelow, Removable, Basic, Trimmed;
    GoodBasic(a);
    GoodBasic(w);
    Quiet(a, w, p, i);
    TrimSkip(a.g, w.g, p, i);
  }

  lemma DropOne(a: World, w: World, p: Pos, i: nat)
    requires Good(a) && Good(w) && Removable(a, p) && Trimming(a, w, p, i) && Leaf(p)
    requires i < ENTRIES && i < |w.g.ents[p]| && w.g.ents[p][i].present
    ensures Good(DropPage(w, p, i)) && Trimming(a, DropPage(w, p, i), p, i + 1)
  {
    hide Good, Shaped, Sized, Named, Rooted, Down, Up, KernelHalfShared, Flattened, Stored, Sound, QuietBelow, Removable, Basic, Trimmed;
    Quiet(a, w, p, i);
    DropPageGood(w, p, i);
    TrimLeaf(a.g, w.g, p, i);
  }

  lemma KidRemovable(a: World, w: World, p: Pos, i: nat)
    requires Basic(w.g) && Removable(a, p) && Trimming(a, w, p, i) && i < ENTRIES
    ensures Removable(Detach(w, p, i), Kid(p, i))
  {
    var k := Kid(p, i);
    var u := Detach(w, p, i);
    assert k.Root() == p.Root();
    forall q | Below(k, q) ensures Below(p, q) && q != p { BelowTrans(p, i, q); }
  }

  lemma Hanging(g: Layout, p: Pos, i: nat)
    requires Shaped(g) && p in g.ents && !Leaf(p) && i < Limit(p) && g.ents[p][i].present
    ensures Hangs(g, p, i) && Kid(p, i) in g.node && g.ents[p][i].frame == g.node[Kid(p, i)]
    ensures Kid(p, i) !in g.loose
  {
    assert Own(g, p, i) && Hangs(g, p, i);
  }

  lemma BeforeKid(a: World, w: World, p: Pos, i: nat)
    requires Good(a) && Good(w) && Removable(a, p) && Trimming(a, w, p, i) && !Leaf(p)
    requires i < Limit(p) && i < |w.g.ents[p]| && w.g.ents[p][i].present
    ensures Hangs(w.g, p, i) && Kid(p, i) in w.g.node && w.g.ents[p][i].frame == w.g.node[Kid(p, i)]
    ensures Kid(p, i) !in w.g.loose
    ensures Good(Detach(w, p, i)) && Removable(Detach(w, p, i), Kid(p, i))
  {
    hide Good, Shaped, Sized, Named, Rooted, Down, Up, KernelHalfShared, Flattened, Stored, Sound, QuietBelow, Removable, Basic, Trimmed, Hangs;
    GoodBasic(w);
    Quiet(a, w, p, i);
    Hanging(w.g, p, i);
    DetachGood(w, p, i);
    KidRemovable(a, w, p, i);
  }

  lemma AfterKid(a: World, w: World, u: World, p: Pos, i: nat)
    requires Trimming(a, w, p, i) && i < ENTRIES && Kid(p, i) !in w.g.loose
    requires Freed(Detach(w, p, i), u, Kid(p, i))
    ensures Trimming(a, u, p, i + 1)
  {
    hide Sized, Named, Trimmed, Pruned, Basic;
    TrimStep(a.g, w.g, u.g, p, i);
  }

  lemma Alone(a: World, w: World, p: Pos)
    requires Good(a) && Good(w) && Removable(a, p) && Trimming(a, w, p, Limit(p))
    ensures forall q :: q in w.g.ents && Below(p, q) ==> q == p
  {
    hide Good, Shaped, Sized, Named, Rooted, Down, Up, KernelHalfShared, Flattened, Stored, Sound, QuietBelow, Removable, Basic, TrimmedTables, TrimmedEntries;
    GoodBasic(a);
    GoodBasic(w);
    Quiet(a, w, p, Limit(p));
    TrimAlone(a.g, w.g, p);
  }

  lemma Bare(a: World, w: World, p: Pos)
    requires Removable(a, p) && Trimming(a, w, p, Limit(p)) && w.g.loose <= w.g.ents.Keys
    requires forall q :: q in w.g.ents && Below(p, q) ==> q == p
    ensures CanRemove(w.g, p) && At(a.cut, p) == 0
  {
    Quiet(a, w, p, Limit(p));
    assert Below(p, p) && p in a.g.ents;
    forall i: nat ensures Kid(p, i) !in w.g.ents { assert Below(p, Kid(p, i)); }
  }

  lemma Finish(a: World, w: World, p: Pos)
    requires Good(a) && Good(w) && Removable(a, p) && Trimming(a, w, p, Limit(p))
    ensures p in w.g.node && Good(Remove(w, p)) && Freed(a, Remove(w, p), p)
  {
    hide Good, Shaped, Sized, Named, Rooted, Down, Up, KernelHalfShared, Flattened, Stored, Sound, QuietBelow, Removable, Basic, Trimmed, CanRemove, Pruned;
    GoodBasic(w);
    Alone(a, w, p);
    Bare(a, w, p);
    RemoveGood(w, p);
    TrimDone(a.g, w.g, p);
  }

  lemma CutBound(a: World, w: World, p: Pos, i: nat)
    requires Trimming(a, w, p, i)
    ensures At(w.cut, p) <= i
  {
  }

  // Level 1 of the source is the last level of the tree.
  lemma LevelOf(w: World, p: Pos, level: nat)
    requires Good(w) && p in w.g.ents && p.Depth() + level == 4
    ensures level >= 1 && (level == 1 <==> Leaf(p)) && (level == 4 <==> p.Top?)
  {
    ShallowDepth(p);
    if Leaf(p) { LeafDepth(p); }
    if p.Kid? && p.up.Kid? {
      assert p.up.Depth() == p.up.up.Depth() + 1;
    }
  }
}
