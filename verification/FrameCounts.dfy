/**
 How many frames are free, and how many tables a subtree has: what a copy of it costs.
 */
module FrameCounts {
  import opened PageTypes
  import opened Frames
  import opened PageTree
  import opened PageTeardown
  import opened PageFork
  import opened Worlds
  import opened Forking

  ghost function FreeFrames(s: Pool): set<nat> {
    set f: nat | f < |s.used| && !s.used[f]
  }

  ghost function FreeCount(s: Pool): nat {
    |FreeFrames(s)|
  }

  // A frame handed out is one free frame less, and there is one to hand out as long as any is free.
  lemma AllocCount(s: Pool)
    requires Valid(s)
    ensures Alloc(s).1 == 0 <==> FreeCount(s) == 0
    ensures Alloc(s).1 != 0 ==> FreeCount(Alloc(s).0) == FreeCount(s) - 1
  {
    var (t, f) := Alloc(s);
    if f == 0 {
      forall g | g in FreeFrames(s) ensures false { assert IsFree(s, g); }
      assert FreeFrames(s) == {};
    } else {
      assert f in FreeFrames(s);
      assert FreeFrames(t) == FreeFrames(s) - {f};
    }
  }

  lemma SameUsed(s: Pool, t: Pool)
    requires t.used == s.used
    ensures FreeCount(t) == FreeCount(s)
  {
  }

  // ---------- Tables ----------

  ghost function Subtree(g: Layout, p: Pos): set<Pos> {
    set q | q in g.ents && Below(p, q)
  }

  // The tables below the first i entries.
  ghost function Branches(g: Layout, p: Pos, i: nat): set<Pos> {
    set q | q in g.ents && InKids(p, i, q)
  }

  ghost function TableCount(g: Layout, p: Pos): nat {
    |Subtree(g, p)|
  }

  ghost function BranchCount(g: Layout, p: Pos, i: nat): nat {
    |Branches(g, p, i)|
  }

  lemma NoBranches(g: Layout, p: Pos)
    ensures BranchCount(g, p, 0) == 0
  {
    forall q ensures !InKids(p, 0, q) { NoKids(p, q); }
    assert Branches(g, p, 0) == {};
  }

  lemma NextBranch(g: Layout, p: Pos, i: nat)
    ensures BranchCount(g, p, i + 1) == BranchCount(g, p, i) + TableCount(g, Kid(p, i))
  {
    forall q ensures q in Branches(g, p, i + 1) <==> q in Branches(g, p, i) + Subtree(g, Kid(p, i)) { InKidsStep(p, i, q); }
    assert Branches(g, p, i + 1) == Branches(g, p, i) + Subtree(g, Kid(p, i));
    forall q | q in Subtree(g, Kid(p, i)) ensures q !in Branches(g, p, i) { NotEarlier(p, i, q); }
  }

  lemma MoreBranches(g: Layout, p: Pos, i: nat, j: nat)
    requires i <= j
    ensures BranchCount(g, p, i) <= BranchCount(g, p, j)
    decreases j - i
  {
    if i < j {
      NextBranch(g, p, i);
      MoreBranches(g, p, i + 1, j);
    }
  }

  // A table with all its branches is the subtree.
  lemma AllBranches(g: Layout, p: Pos)
    requires Shaped(g) && QuietBelow(g, p) && p in g.ents && p != Top(g.kern)
    ensures TableCount(g, p) == 1 + BranchCount(g, p, Limit(p))
  {
    var n := Limit(p);
    forall q | q in g.ents ensures Below(p, q) <==> q == p || InKids(p, n, q) {
      BelowIrreflexive(p, n, q);
      if Below(p, q) && q != p {
        var j := Branch(g, p, q);
        KidIn(p, j, n, q);
      }
    }
    assert Subtree(g, p) == Branches(g, p, n) + {p};
    BelowIrreflexive(p, n, p);
  }

  lemma KidIn(p: Pos, j: nat, n: nat, q: Pos)
    requires Below(Kid(p, j), q) && j < n
    ensures InKids(p, n, q)
    decreases q
  {
    if q != Kid(p, j) { KidIn(p, j, n, q.up); }
  }

  // What the copy adds elsewhere does not change the source.
  lemma SourceCount(g: Layout, h: Layout, a: Pos, b: Pos, i: nat, k: Pos)
    requires Apart(g, a, b) && Copied(g, h, a, b, i) && Below(a, k)
    ensures TableCount(h, k) == TableCount(g, k)
  {
    forall q ensures q in Subtree(h, k) <==> q in Subtree(g, k) {
      BelowRoot(k, i, q);
      BelowRoot(a, i, k);
      BelowRoot(b, i, q);
    }
    assert Subtree(h, k) == Subtree(g, k);
  }

  // ---------- The cost of a copy ----------

  // Copying the subtree at a has taken one frame for each of its tables.
  ghost predicate Spent(s: World, w: World, a: Pos) {
    FreeCount(w.pool) + TableCount(s.g, a) == FreeCount(s.pool)
  }

  // So far there is the table itself, and what is below its first i entries.
  ghost predicate Paid(s: World, w: World, a: Pos, i: nat) {
    FreeCount(w.pool) + 1 + BranchCount(s.g, a, i) == FreeCount(s.pool)
  }

  // There are fewer frames than tables.
  ghost predicate Short(s: World, a: Pos) {
    FreeCount(s.pool) < TableCount(s.g, a)
  }

  lemma ShortNow(s: World, a: Pos)
    requires Valid(s.pool) && Alloc(s.pool).1 == 0 && a in s.g.ents
    ensures Short(s, a)
  {
    AllocCount(s.pool);
    assert a in Subtree(s.g, a);
  }

  lemma PaidStart(s: World, w: World, a: Pos)
    requires Valid(s.pool) && Alloc(s.pool).1 != 0 && w.pool == Alloc(s.pool).0
    ensures Paid(s, w, a, 0)
  {
    AllocCount(s.pool);
    NoBranches(s.g, a);
  }

  // No table is below an absent entry or a page.
  lemma PaidSkip(s: World, w: World, u: World, a: Pos, b: Pos, i: nat)
    requires Shaped(s.g) && Apart(s.g, a, b) && Paid(s, w, a, i) && u.pool.used == w.pool.used && i < ENTRIES
    requires a in s.g.ents && i < |s.g.ents[a]| && (!s.g.ents[a][i].present || Leaf(a))
    ensures Paid(s, u, a, i + 1)
  {
    forall q | q in s.g.ents ensures !Below(Kid(a, i), q) {
      if Below(Kid(a, i), q) { Presence(s.g, a, i, q); }
    }
    assert Subtree(s.g, Kid(a, i)) == {};
    NextBranch(s.g, a, i);
    SameUsed(w.pool, u.pool);
  }

  lemma PaidKid(s: World, w: World, u: World, v: World, a: Pos, b: Pos, i: nat)
    requires Apart(s.g, a, b) && Copied(s.g, w.g, a, b, i) && Paid(s, w, a, i) && Spent(w, u, Kid(a, i)) && v.pool == u.pool
    ensures Paid(s, v, a, i + 1)
  {
    assert Below(a, Kid(a, i));
    SourceCount(s.g, w.g, a, b, i, Kid(a, i));
    NextBranch(s.g, a, i);
  }

  lemma ShortKid(s: World, w: World, a: Pos, b: Pos, i: nat)
    requires Shaped(s.g) && Apart(s.g, a, b) && Copied(s.g, w.g, a, b, i) && Paid(s, w, a, i) && Short(w, Kid(a, i)) && i < Limit(a)
    ensures Short(s, a)
  {
    assert Below(a, Kid(a, i));
    SourceCount(s.g, w.g, a, b, i, Kid(a, i));
    NextBranch(s.g, a, i);
    MoreBranches(s.g, a, i + 1, Limit(a));
    SubtreeSize(s.g, a, b);
    hide BranchCount, TableCount, FreeCount, Shaped, PageFork.Apart, Copied;
  }

  lemma SubtreeSize(g: Layout, a: Pos, b: Pos)
    requires Shaped(g) && PageFork.Apart(g, a, b)
    ensures TableCount(g, a) == 1 + BranchCount(g, a, Limit(a))
  {
    SourceQuiet(g, a, b);
    AllBranches(g, a);
  }

  lemma PaidAll(s: World, w: World, a: Pos, b: Pos)
    requires Shaped(s.g) && Apart(s.g, a, b) && Paid(s, w, a, Limit(a))
    ensures Spent(s, w, a)
  {
    SubtreeSize(s.g, a, b);
  }
}
