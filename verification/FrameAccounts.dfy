/**
 Who owns each physical frame, and what its reference count must be.

 A frame in use is a page table (one reference), a frame some other part of the kernel keeps, or a
 private user page; the last is counted once per private entry that names it, over all address
 spaces.  The lemmas say how each operation of the pager moves a frame between the three.
 */
module FrameAccounts {
  import opened PageTypes
  import opened Frames
  import opened CopyOnWrite

  // `others` maps the frames the rest of the kernel holds to their reference counts.
  ghost predicate Balanced(pool: Pool, tabs: set<nat>, flat: map<Slot, Entry>, others: map<nat, nat>) {
    && Valid(pool)
    && (forall f :: 0 <= f < LOW_FRAMES ==> f in others)
    && (forall f :: f in others ==> f < |pool.used| && pool.used[f] && pool.refs[f] == others[f])
    && (forall f :: f in tabs ==> f < |pool.used| && pool.used[f] && pool.refs[f] == 1 && f !in others)
    && (forall k :: k in flat && !flat[k].shared ==>
          var f := flat[k].frame;
          f < |pool.used| && pool.used[f] && f !in others && f !in tabs)
    && (forall f :: 0 <= f < |pool.used| && pool.used[f] && f !in others && f !in tabs ==>
          Holders(flat, f) != {} && pool.refs[f] == |Holders(flat, f)|)
  }

  // The reference count is the number of private entries over all address spaces.
  lemma CountIsHolders(pool: Pool, tabs: set<nat>, flat: map<Slot, Entry>, others: map<nat, nat>, k: Slot)
    requires Balanced(pool, tabs, flat, others) && k in flat && !flat[k].shared
    ensures flat[k].frame < |pool.refs| && pool.refs[flat[k].frame] == |Holders(flat, flat[k].frame)|
  {
  }

  // Two balanced accounts of the same owners agree on every frame: this is why an operation that
  // undoes its changes to the tables has also given back every frame and every count.
  lemma OwnersDeterminePool(p: Pool, q: Pool, tabs: set<nat>, a: map<Slot, Entry>, b: map<Slot, Entry>,
                            others: map<nat, nat>)
    requires Balanced(p, tabs, a, others) && Balanced(q, tabs, b, others)
    requires |p.used| == |q.used|
    requires a.Keys == b.Keys
    requires forall k :: k in a ==> a[k].frame == b[k].frame && a[k].shared == b[k].shared
    ensures p.used == q.used && p.refs == q.refs
  {
    forall f | 0 <= f < |p.used| ensures p.used[f] == q.used[f] && p.refs[f] == q.refs[f] {
      assert Holders(a, f) == Holders(b, f);
      if k :| k in Holders(a, f) {
        assert k in a && k in b;
      }
    }
  }

  lemma AllocBalances(pool: Pool, tabs: set<nat>, flat: map<Slot, Entry>, others: map<nat, nat>)
    requires Balanced(pool, tabs, flat, others)
    ensures var (p, f) := Alloc(pool);
            f != 0 ==> && LOW_FRAMES <= f < |pool.used|
                       && f !in tabs && f !in others && Holders(flat, f) == {}
                       && Balanced(p, tabs + {f}, flat, others)
                       && Balanced(p, tabs, flat, others[f := 1])
  {
    var (p, f) := Alloc(pool);
    if f != 0 {
      assert forall k :: k in flat && !flat[k].shared ==> flat[k].frame != f;
    }
  }

  lemma ReleaseTableBalances(pool: Pool, tabs: set<nat>, flat: map<Slot, Entry>, others: map<nat, nat>, f: nat)
    requires Balanced(pool, tabs, flat, others) && f in tabs
    ensures Balanced(Release(pool, f), tabs - {f}, flat, others)
  {
    assert f >= LOW_FRAMES;
  }

  lemma DropPrivateBalances(pool: Pool, tabs: set<nat>, flat: map<Slot, Entry>, others: map<nat, nat>, k: Slot)
    requires Balanced(pool, tabs, flat, others) && k in flat && !flat[k].shared
    ensures Balanced(Release(pool, flat[k].frame), tabs, flat - {k}, others)
  {
    var f := flat[k].frame;
    var p := Release(pool, f);
    assert f >= LOW_FRAMES;
    assert k in Holders(flat, f);
    assert Holders(flat - {k}, f) == Holders(flat, f) - {k};
    forall g | g != f ensures Holders(flat - {k}, g) == Holders(flat, g) {
    }
    forall j | j in flat - {k} && !flat[j].shared && flat[j].frame == f ensures p.used[f] {
      assert j in Holders(flat, f) - {k};
      assert |Holders(flat, f)| == |Holders(flat, f) - {k}| + 1;
      assert |Holders(flat, f) - {k}| != 0;
    }
  }

  lemma CopyPrivateBalances(pool: Pool, tabs: set<nat>, flat: map<Slot, Entry>, others: map<nat, nat>,
                            k: Slot, j: Slot, e: Entry)
    requires Balanced(pool, tabs, flat, others)
    requires k in flat && !flat[k].shared && j !in flat && !e.shared && e.frame == flat[k].frame
    ensures e.frame < |pool.used| && pool.used[e.frame]
    ensures Balanced(Retain(pool, e.frame), tabs, flat[j := e], others)
  {
    var f := e.frame;
    assert Holders(flat[j := e], f) == Holders(flat, f) + {j};
    forall g | g != f ensures Holders(flat[j := e], g) == Holders(flat, g) {
    }
  }

  // A change that leaves the private holders of every frame alone leaves the account alone.
  lemma SameHoldersBalance(pool: Pool, tabs: set<nat>, a: map<Slot, Entry>, b: map<Slot, Entry>,
                           others: map<nat, nat>)
    requires Balanced(pool, tabs, a, others)
    requires forall k :: k in a && !a[k].shared <==> k in b && !b[k].shared
    requires forall k :: k in a && !a[k].shared ==> a[k].frame == b[k].frame
    ensures Balanced(pool, tabs, b, others)
  {
    forall f ensures Holders(a, f) == Holders(b, f) {
    }
  }

  // A frame in hand (one reference, kept by the kernel) becomes a user page.
  lemma GivePrivateBalances(pool: Pool, tabs: set<nat>, flat: map<Slot, Entry>, others: map<nat, nat>,
                            k: Slot, e: Entry)
    requires Balanced(pool, tabs, flat, others)
    requires LOW_FRAMES <= e.frame && e.frame in others && others[e.frame] == 1
    requires !e.shared && (k in flat ==> flat[k].shared)
    ensures Balanced(pool, tabs, flat[k := e], others - {e.frame})
  {
    var f := e.frame;
    assert forall j :: j in flat && !flat[j].shared ==> flat[j].frame != f;
    assert Holders(flat[k := e], f) == {k};
    forall g | g != f ensures Holders(flat[k := e], g) == Holders(flat, g) {
    }
  }
}
