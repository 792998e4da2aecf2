/**
 What programs read after each event of the copy-on-write machine, byte by byte.
 */
module ByteLaws {
  import opened PageTypes
  import opened CopyOnWrite

  // The byte at offset o of page k, as address space k.Space() reads it.
  ghost function Byte(s: Lazy, k: Slot, o: nat): bv8
    requires Inv(s) && k in s.maps && o < PAGE_SIZE
  {
    EagerLoad(Show(s), k, o)
  }

  // Pages j and k show the same page of a shared-memory object.
  ghost predicate Together(s: Lazy, j: Slot, k: Slot) {
    j in s.maps && k in s.maps && s.maps[j].shared && s.maps[k].shared && s.maps[j].frame == s.maps[k].frame
  }

  // But for the given pages, the same pages are mapped as before and read the same.
  ghost predicate ReadsSame(s: Lazy, t: Lazy, but: set<Slot>)
    requires Inv(s) && Inv(t)
  {
    forall j :: j !in but ==> (j in t.maps <==> j in s.maps) && (j in s.maps ==> forall o: nat :: o < PAGE_SIZE ==> Byte(t, j, o) == Byte(s, j, o))
  }

  // ---------- Stores ----------

  // A store takes place exactly when the page is mapped, and is writable, or held once, or there is a frame for a copy.
  // Then the byte reads as stored through the page itself and through every page that shows the same shared page, and
  // every other byte of every address space is as before; otherwise nothing changes.
  lemma StoreLaw(s: Lazy, k: Slot, off: nat, b: bv8, spare: nat)
    requires Inv(s) && Enabled(s, Write(k, off, b, spare))
    ensures var (t, ok) := Step(s, Write(k, off, b, spare));
            && Inv(t) && t.maps.Keys == s.maps.Keys
            && (ok <==> k in s.maps && (s.maps[k].writable || |Holders(s.maps, s.maps[k].frame)| <= 1 || spare != 0))
            && (ok ==> Byte(t, k, off) == b)
            && (forall j, o: nat :: j in s.maps && o < PAGE_SIZE ==>
                  Byte(t, j, o) == if ok && o == off && (j == k || Together(s, j, k)) then b else Byte(s, j, o))
  {
    var ev := Write(k, off, b, spare);
    var (t, ok) := Step(s, ev);
    StepSimulates(s, ev);
    Outcome(s, k, off, b, spare);
    KeysOf(s);
    KeysOf(t);
    forall j, o: nat | j in s.maps && o < PAGE_SIZE
      ensures j in t.maps && Byte(t, j, o) == if ok && o == off && (j == k || Together(s, j, k)) then b else Byte(s, j, o)
    {
      StoreByteLaw(s, t, k, off, b, spare, ok, j, o);
    }
  }

  lemma KeysOf(s: Lazy)
    requires Inv(s)
    ensures Show(s).cells.Keys == s.maps.Keys && Show(s).common.Keys == s.shm
    ensures forall k :: k in s.maps ==> (Show(s).cells[k] == if s.maps[k].shared then Common(s.maps[k].frame) else Own(s.data[s.maps[k].frame]))
    ensures forall k :: k in s.maps && s.maps[k].shared ==> s.maps[k].frame in s.shm
  {
    forall k | k in s.maps ensures s.maps[k].shared ==> s.maps[k].frame in s.shm { assert EntryOk(s, k); }
  }

  lemma Outcome(s: Lazy, k: Slot, off: nat, b: bv8, spare: nat)
    requires Inv(s) && Enabled(s, Write(k, off, b, spare))
    ensures Step(s, Write(k, off, b, spare)).1 <==> k in s.maps && (s.maps[k].writable || |Holders(s.maps, s.maps[k].frame)| <= 1 || spare != 0)
  {
    if k in s.maps { assert EntryOk(s, k); }
  }

  // The same of the eager machine alone.
  lemma EagerStoreLaw(a: Eager, k: Slot, off: nat, b: bv8, spare: nat, ok: bool, j: Slot, o: nat)
    requires j in a.cells && o < PAGE_SIZE && off < PAGE_SIZE && (ok ==> k in a.cells)
    requires k in a.cells && a.cells[k].Common? ==> a.cells[k].frame in a.common
    ensures var e := EagerStep(a, Write(k, off, b, spare), ok);
            && j in e.cells
            && EagerLoad(e, j, o) == (if ok && o == off && (j == k || (a.cells[j].Common? && a.cells[j] == a.cells[k])) then b else EagerLoad(a, j, o))
  {
  }

  lemma StoreByteLaw(s: Lazy, t: Lazy, k: Slot, off: nat, b: bv8, spare: nat, ok: bool, j: Slot, o: nat)
    requires Inv(s) && Inv(t) && off < PAGE_SIZE && Show(t) == EagerStep(Show(s), Write(k, off, b, spare), ok)
    requires j in s.maps && o < PAGE_SIZE && (ok ==> k in s.maps)
    ensures j in t.maps && Byte(t, j, o) == if ok && o == off && (j == k || Together(s, j, k)) then b else Byte(s, j, o)
  {
    KeysOf(s);
    KeysOf(t);
    hide Inv, Show, EagerStep, EagerLoad;
    EagerStoreLaw(Show(s), k, off, b, spare, ok, j, o);
    assert j in Show(t).cells;
  }

  // ---------- The other events ----------

  // After a fork the child has the pages of the parent and reads the parent's bytes; everybody else reads as before.
  lemma ForkLaw(s: Lazy, p: nat, c: nat)
    requires Inv(s) && Enabled(s, Fork(p, c))
    ensures var t := Step(s, Fork(p, c)).0;
            && Inv(t)
            && (forall j :: j in t.maps <==> j in s.maps || (j.Space() == c && j.Reroot(p) in s.maps))
            && (forall j, o: nat :: j in s.maps && o < PAGE_SIZE ==> Byte(t, j, o) == Byte(s, j, o))
            && (forall j, o: nat :: j in t.maps && j.Space() == c && o < PAGE_SIZE ==> j.Reroot(p) in s.maps && Byte(t, j, o) == Byte(s, j.Reroot(p), o))
  {
    var t := Step(s, Fork(p, c)).0;
    StepSimulates(s, Fork(p, c));
    KeysOf(s);
    KeysOf(t);
    forall j ensures j in t.maps <==> Origin(p, c, j) in s.maps { ForkEntry(s.maps, p, c, j); }
    forall j | j in t.maps ensures Show(t).cells[j] == Show(s).cells[Origin(p, c, j)] { CopyEntry(Show(s).cells, p, c, j); }
    hide Inv, Show, ForkMaps, CopyCells;
  }

  // A page mapped privately reads as the page that was put there, and nothing else changes.
  lemma MapPrivateLaw(s: Lazy, k: Slot, f: nat, page: Page)
    requires Inv(s) && Enabled(s, MapPrivate(k, f, page))
    ensures var t := Step(s, MapPrivate(k, f, page)).0;
            Inv(t) && k in t.maps && ReadsSame(s, t, {k}) && forall o: nat :: o < PAGE_SIZE ==> Byte(t, k, o) == page[o]
  {
    var t := Step(s, MapPrivate(k, f, page)).0;
    StepSimulates(s, MapPrivate(k, f, page));
    KeysOf(s);
    KeysOf(t);
    hide Inv, Show;
  }

  // So a page made on demand reads as zeros.
  lemma FreshPageZero(s: Lazy, k: Slot, f: nat, o: nat)
    requires Inv(s) && Enabled(s, MapPrivate(k, f, Blank())) && o < PAGE_SIZE
    ensures var t := Step(s, MapPrivate(k, f, Blank())).0; Inv(t) && k in t.maps && Byte(t, k, o) == 0
  {
    MapPrivateLaw(s, k, f, Blank());
  }

  // A page of an object reads as it does wherever else it is mapped, and nothing else changes.
  lemma MapSharedLaw(s: Lazy, k: Slot, f: nat)
    requires Inv(s) && Enabled(s, MapShared(k, f))
    ensures var t := Step(s, MapShared(k, f)).0;
            && Inv(t) && k in t.maps && ReadsSame(s, t, {k})
            && (forall j, o: nat :: j in s.maps && s.maps[j].shared && s.maps[j].frame == f && o < PAGE_SIZE ==> Byte(t, k, o) == Byte(s, j, o))
  {
    var t := Step(s, MapShared(k, f)).0;
    StepSimulates(s, MapShared(k, f));
    KeysOf(s);
    KeysOf(t);
    hide Inv, Show;
  }

  // Unmapping takes away one page, exiting those of one address space; the events a program cannot see leave all as it is.
  lemma UnmapLaw(s: Lazy, k: Slot)
    requires Inv(s)
    ensures var t := Step(s, Unmap(k)).0; Inv(t) && k !in t.maps && ReadsSame(s, t, {k})
  {
    StepSimulates(s, Unmap(k));
    var t := Step(s, Unmap(k)).0;
    KeysOf(s);
    KeysOf(t);
    hide Inv, Show;
  }

  lemma ExitLaw(s: Lazy, r: nat)
    requires Inv(s)
    ensures var t := Step(s, Exit(r)).0;
            && Inv(t) && (forall j :: j in t.maps <==> j in s.maps && j.Space() != r)
            && (forall j, o: nat :: j in t.maps && o < PAGE_SIZE ==> Byte(t, j, o) == Byte(s, j, o))
  {
    StepSimulates(s, Exit(r));
    var t := Step(s, Exit(r)).0;
    KeysOf(s);
    KeysOf(t);
    hide Inv, Show;
  }

  lemma UnseenLaw(s: Lazy, ev: Event)
    requires Inv(s) && Enabled(s, ev) && (ev.FailedFork? || ev.Idle? || ev.Lose? || ev.ShmPage?)
    ensures var t := Step(s, ev).0; Inv(t) && ReadsSame(s, t, {})
  {
    StepSimulates(s, ev);
    var t := Step(s, ev).0;
    KeysOf(s);
    KeysOf(t);
    hide Show;
    if ev.ShmPage? {
      forall j | j in s.maps && s.maps[j].shared ensures s.maps[j].frame != ev.frame { assert EntryOk(s, j); }
    }
    hide Inv;
  }

  // ---------- Fork and store ----------

  // After a fork, what the parent or the child stores to a private page is read by itself and not by the other; what
  // either stores to a page of an object is read by both.
  lemma ForkThenStore(s: Lazy, p: nat, c: nat, k: Slot, off: nat, b: bv8, spare: nat, byChild: bool)
    requires Inv(s) && Enabled(s, Fork(p, c)) && k in s.maps && k.Space() == p && off < PAGE_SIZE
    requires var t := Step(s, Fork(p, c)).0; spare != 0 ==> Unused(t, spare)
    ensures var t := Step(s, Fork(p, c)).0;
            var twin := k.Reroot(c);
            var mine, other := if byChild then twin else k, if byChild then k else twin;
            && Inv(t) && Enabled(t, Write(mine, off, b, spare))
            && var (u, ok) := Step(t, Write(mine, off, b, spare));
               && Inv(u) && mine in u.maps && other in u.maps
               && (ok ==> Byte(u, mine, off) == b && Byte(u, other, off) == if s.maps[k].shared then b else Byte(s, k, off))
               && (!ok ==> Byte(u, mine, off) == Byte(s, k, off) == Byte(u, other, off))
  {
    var t := Step(s, Fork(p, c)).0;
    var twin := k.Reroot(c);
    k.pos.RerootTwice(c);
    assert twin.Reroot(p) == k;
    ForkLaw(s, p, c);
    ForkEntry(s.maps, p, c, k);
    ForkEntry(s.maps, p, c, twin);
    hide Inv, Step;
    StoreLaw(t, if byChild then twin else k, off, b, spare);
  }

  // ---------- Over runs ----------

  // The event stores to this byte, maps something else at its page, or takes the page away.
  predicate Touches(ev: Event, k: Slot, off: nat) {
    match ev
    case Write(j, o, _, _) => j == k && o == off
    case MapPrivate(j, _, _) => j == k
    case MapShared(j, _) => j == k
    case Unmap(j) => j == k
    case Exit(r) => k.Space() == r
    case _ => false
  }

  lemma StepStays(s: Lazy, ev: Event, k: Slot, off: nat)
    requires Inv(s) && Enabled(s, ev) && k in s.maps && !s.maps[k].shared && off < PAGE_SIZE && !Touches(ev, k, off)
    ensures var t := Step(s, ev).0; Inv(t) && k in t.maps && !t.maps[k].shared && Byte(t, k, off) == Byte(s, k, off)
  {
    StepSimulates(s, ev);
    StaysPrivate(s, ev, k, off);
    hide Inv, Step;
    match ev
    case Write(j, o, b, spare) => StoreLaw(s, j, o, b, spare);
    case MapPrivate(j, f, page) => MapPrivateLaw(s, j, f, page);
    case MapShared(j, f) => MapSharedLaw(s, j, f);
    case Unmap(j) => UnmapLaw(s, j);
    case Exit(r) => ExitLaw(s, r);
    case Fork(p, c) => ForkLaw(s, p, c);
    case _ => UnseenLaw(s, ev);
  }

  lemma StaysPrivate(s: Lazy, ev: Event, k: Slot, off: nat)
    requires Inv(s) && Enabled(s, ev) && k in s.maps && !s.maps[k].shared && !Touches(ev, k, off)
    ensures var t := Step(s, ev).0; k in t.maps && !t.maps[k].shared
  {
    if ev.Fork? { ForkEntry(s.maps, ev.parent, ev.child, k); }
    if ev.Write? && ev.slot in s.maps { assert EntryOk(s, ev.slot); }
  }

  // Whatever else happens - forks, faults, other stores, exits - a byte of a private page reads the same until it is
  // stored to, mapped over, unmapped, or its address space is gone.
  lemma {:induction false} ByteStays(s: Lazy, a: Eager, evs: seq<Event>, k: Slot, off: nat)
    requires Inv(s) && Runs(s, evs) && k in s.maps && !s.maps[k].shared && off < PAGE_SIZE
    requires forall i :: 0 <= i < |evs| ==> !Touches(evs[i], k, off)
    ensures var t := RunBoth(s, a, evs).0; Inv(t) && k in t.maps && Byte(t, k, off) == Byte(s, k, off)
    decreases |evs|
  {
    hide Inv, Step;
    if evs != [] {
      StepSimulates(s, evs[0]);
      StepStays(s, evs[0], k, off);
      var (t, ok) := Step(s, evs[0]);
      ByteStays(t, EagerStep(a, evs[0], ok), evs[1..], k, off);
    }
  }

  // So a byte that was stored to a private page is read back for as long.
  lemma StoredByteStays(s: Lazy, a: Eager, k: Slot, off: nat, b: bv8, spare: nat, evs: seq<Event>)
    requires Inv(s) && Enabled(s, Write(k, off, b, spare)) && k in s.maps && !s.maps[k].shared
    requires Step(s, Write(k, off, b, spare)).1 && Inv(Step(s, Write(k, off, b, spare)).0) && Runs(Step(s, Write(k, off, b, spare)).0, evs)
    requires forall i :: 0 <= i < |evs| ==> !Touches(evs[i], k, off)
    ensures var t := RunBoth(Step(s, Write(k, off, b, spare)).0, a, evs).0; Inv(t) && k in t.maps && Byte(t, k, off) == b
  {
    var u := Step(s, Write(k, off, b, spare)).0;
    assert k in u.maps && !u.maps[k].shared;
    StoreLaw(s, k, off, b, spare);
    hide Inv, Step;
    ByteStays(u, a, evs, k, off);
  }
}
