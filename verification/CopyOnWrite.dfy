/**
 Copy-on-write refines eager copying (src/mem/vmm.c, src/arch/idt.c).

 `Lazy` is the machine the kernel runs, over flat address spaces: a fork only copies entries and takes
 the writable bit away, and a write to a read-only page goes through the fault handler.  `Eager` is
 the machine a program believes in: fork copies every private page at once, and nothing is ever
 shared but pages marked shared.  Over every run, the eager machine shows exactly what the lazy one
 shows.
 */
module CopyOnWrite {
  import opened PageTypes

  // `shm` holds the frames of shared-memory objects; they are never given back.
  datatype Lazy = Lazy(maps: map<Slot, Entry>, data: seq<Page>, shm: set<nat>)

  // The private entries that name frame f, over all address spaces.
  function Holders(maps: map<Slot, Entry>, f: nat): set<Slot> {
    set k | k in maps && !maps[k].shared && maps[k].frame == f
  }

  ghost predicate Unused(s: Lazy, f: nat) {
    && f < |s.data|
    && f !in s.shm
    && Holders(s.maps, f) == {}
  }

  ghost predicate EntryOk(s: Lazy, k: Slot)
    requires k in s.maps
  {
    var e := s.maps[k];
    && e.present && e.user
    && e.frame < |s.data|
    && (e.shared <==> e.frame in s.shm)
    && (e.shared ==> e.writable)
    && (!e.shared && e.writable ==> Holders(s.maps, e.frame) == {k})
  }

  ghost predicate Inv(s: Lazy) {
    && (forall k :: k in s.maps ==> EntryOk(s, k))
    && (forall f :: f in s.shm ==> f < |s.data|)
  }

  datatype Event =
    | ShmPage(frame: nat)                                            // shm_set_size takes a frame
    | MapPrivate(slot: Slot, frame: nat, page: Page)                 // stack growth, sbrk, loader
    | MapShared(slot: Slot, frame: nat)                              // mmap
    | Unmap(slot: Slot)
    | Fork(parent: nat, child: nat)
    | FailedFork(demoted: set<Slot>)                                 // fork that ran out of frames
    | Exit(root: nat)
    | Write(slot: Slot, offset: nat, value: bv8, spare: nat)         // spare: 0 when no frame is left
    | Idle                                                           // nothing user programs can see
    | Lose(frame: nat)                                               // a zeroed frame that no table was left for

  // What the kernel guarantees when it performs the event: new frames come from the allocator, and a
  // fork makes a PML4 that was not there.
  ghost predicate Enabled(s: Lazy, ev: Event) {
    match ev
    case ShmPage(f) => Unused(s, f)
    case MapPrivate(k, f, _) => Unused(s, f)
    case MapShared(k, f) => f in s.shm
    case Unmap(k) => true
    case Fork(p, c) => p != c && forall k :: k in s.maps ==> k.Space() != c
    case FailedFork(ks) => true
    case Exit(r) => true
    case Write(k, off, _, spare) => off < PAGE_SIZE && (spare != 0 ==> Unused(s, spare))
    case Idle => true
    case Lose(f) => Unused(s, f)
  }

  function ForkMaps(maps: map<Slot, Entry>, p: nat, c: nat): map<Slot, Entry> {
    map k | k in maps.Keys + (set j | j in maps && j.Space() == p :: j.Reroot(c))
      :: if k.Space() == c && k.Reroot(p) in maps then Demote(maps[k.Reroot(p)])
         else if k in maps then (if k.Space() == p then Demote(maps[k]) else maps[k])
         else ABSENT
  }

  function DemoteAll(maps: map<Slot, Entry>, ks: set<Slot>): map<Slot, Entry> {
    map k | k in maps :: if k in ks then Demote(maps[k]) else maps[k]
  }

  // The slots of every address space but r.
  function Without<V>(m: map<Slot, V>, r: nat): map<Slot, V> {
    map k | k in m && k.Space() != r :: m[k]
  }

  // vmm_handle_cow on a present user page, spare being the frame the allocator would give.
  // The result says whether the fault was repaired.
  function HandleFault(s: Lazy, k: Slot, spare: nat): (r: (Lazy, bool))
    requires k in s.maps && s.maps[k].frame < |s.data| && (spare != 0 ==> spare < |s.data|)
  {
    var e := s.maps[k];
    if |Holders(s.maps, e.frame)| <= 1 then
      (s.(maps := s.maps[k := e.(writable := true)]), true)
    else if spare == 0 then
      (s, false)
    else
      (s.(maps := s.maps[k := e.(writable := true, frame := spare)],
          data := s.data[spare := s.data[e.frame]]), true)
  }

  function Store(s: Lazy, k: Slot, off: nat, b: bv8): Lazy
    requires k in s.maps && s.maps[k].frame < |s.data| && off < PAGE_SIZE
  {
    var f := s.maps[k].frame;
    s.(data := s.data[f := Poke(s.data[f], off, b)])
  }

  // One event of the lazy machine; the flag is false when a store was not performed.
  ghost function Step(s: Lazy, ev: Event): (r: (Lazy, bool))
    requires Inv(s) && Enabled(s, ev)
  {
    match ev
    case ShmPage(f) => (s.(shm := s.shm + {f}, data := s.data[f := Blank()]), true)
    case MapPrivate(k, f, page) =>
      (s.(maps := s.maps[k := Entry(true, true, true, false, f)], data := s.data[f := page]), true)
    case MapShared(k, f) => (s.(maps := s.maps[k := Entry(true, true, true, true, f)]), true)
    case Unmap(k) => (s.(maps := s.maps - {k}), true)
    case Fork(p, c) => (s.(maps := ForkMaps(s.maps, p, c)), true)
    case FailedFork(ks) =>
      (s.(maps := DemoteAll(s.maps, ks)), true)
    case Exit(r) => (s.(maps := Without(s.maps, r)), true)
    case Write(k, off, b, spare) =>
      if k !in s.maps then (s, false)
      else if s.maps[k].writable then (Store(s, k, off, b), true)
      else
        var (t, ok) := HandleFault(s, k, spare);
        if ok then (Store(t, k, off, b), true) else (t, false)
    case Idle => (s, true)
    case Lose(f) => (s.(data := s.data[f := Blank()]), true)
  }

  // ---------- The eager machine ----------

  datatype Cell = Own(page: Page) | Common(frame: nat)

  datatype Eager = Eager(cells: map<Slot, Cell>, common: map<nat, Page>)

  function CopyCells(cells: map<Slot, Cell>, p: nat, c: nat): map<Slot, Cell> {
    map k | k in cells.Keys + (set j | j in cells && j.Space() == p :: j.Reroot(c))
      :: if k.Space() == c && k.Reroot(p) in cells then cells[k.Reroot(p)]
         else if k in cells then cells[k]
         else Common(0)
  }

  // The same event with nothing ever shared by accident; `ok` is the outcome of a store.
  function EagerStep(a: Eager, ev: Event, ok: bool): Eager {
    match ev
    case ShmPage(f) => a.(common := a.common[f := Blank()])
    case MapPrivate(k, _, page) => a.(cells := a.cells[k := Own(page)])
    case MapShared(k, f) => a.(cells := a.cells[k := Common(f)])
    case Unmap(k) => a.(cells := a.cells - {k})
    case Fork(p, c) =>
      a.(cells := CopyCells(a.cells, p, c))
    case FailedFork(_) => a
    case Exit(r) => a.(cells := Without(a.cells, r))
    case Idle => a
    case Lose(_) => a
    case Write(k, off, b, _) =>
      if !ok || k !in a.cells || off >= PAGE_SIZE then a
      else match a.cells[k]
        case Own(page) => a.(cells := a.cells[k := Own(Poke(page, off, b))])
        case Common(f) =>
          if f in a.common then a.(common := a.common[f := Poke(a.common[f], off, b)]) else a
  }

  // What the lazy state shows.
  ghost function Show(s: Lazy): Eager
    requires Inv(s)
  {
    Eager(map k | k in s.maps ::
            if s.maps[k].shared then Common(s.maps[k].frame) else Own(s.data[s.maps[k].frame]),
          map f | f in s.shm :: s.data[f])
  }

  // A load by address space k.Space().
  ghost function Load(s: Lazy, k: Slot, off: nat): bv8
    requires Inv(s) && k in s.maps && off < PAGE_SIZE
  {
    s.data[s.maps[k].frame][off]
  }

  function EagerLoad(a: Eager, k: Slot, off: nat): bv8
    requires k in a.cells && off < PAGE_SIZE
  {
    match a.cells[k]
    case Own(page) => page[off]
    case Common(f) => if f in a.common then a.common[f][off] else 0
  }

  lemma LoadsAgree(s: Lazy, k: Slot, off: nat)
    requires Inv(s) && k in s.maps && off < PAGE_SIZE
    ensures Load(s, k, off) == EagerLoad(Show(s), k, off)
  {
    assert EntryOk(s, k);
  }

  // ---------- One step ----------

  lemma MapKeeps(s: Lazy, k: Slot, e: Entry, f: nat, page: Page)
    requires Inv(s) && Unused(s, f)
    requires e == Entry(true, true, true, false, f)
    ensures var t := s.(maps := s.maps[k := e], data := s.data[f := page]);
            Inv(t) && Show(t) == Show(s).(cells := Show(s).cells[k := Own(page)])
  {
    var t := s.(maps := s.maps[k := e], data := s.data[f := page]);
    assert Holders(t.maps, f) == {k} by { assert forall j :: j !in Holders(s.maps, f); }
    forall j | j in t.maps ensures EntryOk(t, j) {
      if j != k {
        assert EntryOk(s, j) && j !in Holders(s.maps, f);
        assert Holders(t.maps, s.maps[j].frame) <= Holders(s.maps, s.maps[j].frame);
        if !t.maps[j].shared { assert j in Holders(t.maps, t.maps[j].frame); }
      }
    }
    forall j | j in s.maps && j != k ensures s.maps[j].frame != f {
      assert EntryOk(s, j) && j !in Holders(s.maps, f);
    }
  }

  lemma MapSharedKeeps(s: Lazy, k: Slot, f: nat)
    requires Inv(s) && f in s.shm
    ensures var t := s.(maps := s.maps[k := Entry(true, true, true, true, f)]);
            Inv(t) && Show(t) == Show(s).(cells := Show(s).cells[k := Common(f)])
  {
    var t := s.(maps := s.maps[k := Entry(true, true, true, true, f)]);
    forall j | j in t.maps ensures EntryOk(t, j) {
      if j != k {
        assert EntryOk(s, j);
        assert Holders(t.maps, s.maps[j].frame) <= Holders(s.maps, s.maps[j].frame);
        if !t.maps[j].shared { assert j in Holders(t.maps, t.maps[j].frame); }
      }
    }
  }

  // Dropping entries keeps the rest as they were.
  lemma DropKeeps(s: Lazy, t: Lazy)
    requires Inv(s) && t.data == s.data && t.shm == s.shm
    requires t.maps.Keys <= s.maps.Keys && forall k :: k in t.maps ==> t.maps[k] == s.maps[k]
    ensures Inv(t)
    ensures Show(t).common == Show(s).common
    ensures forall k :: k in t.maps ==> Show(t).cells[k] == Show(s).cells[k]
  {
    forall j | j in t.maps ensures EntryOk(t, j) {
      assert EntryOk(s, j);
      assert Holders(t.maps, s.maps[j].frame) <= Holders(s.maps, s.maps[j].frame);
      if !t.maps[j].shared { assert j in Holders(t.maps, t.maps[j].frame); }
    }
  }

  lemma DemoteKeeps(s: Lazy, ks: set<Slot>)
    requires Inv(s)
    ensures var t := s.(maps := DemoteAll(s.maps, ks)); Inv(t) && Show(t) == Show(s)
  {
    var t := s.(maps := DemoteAll(s.maps, ks));
    forall j | j in t.maps ensures EntryOk(t, j) {
      assert EntryOk(s, j);
      assert Holders(t.maps, s.maps[j].frame) == Holders(s.maps, s.maps[j].frame);
    }
  }

  // The slot of the old state that slot j of the new state repeats.
  function Origin(p: nat, c: nat, j: Slot): Slot {
    if j.Space() == c then j.Reroot(p) else j
  }

  lemma ForkEntry(maps: map<Slot, Entry>, p: nat, c: nat, j: Slot)
    requires p != c && forall k :: k in maps ==> k.Space() != c
    ensures var t := ForkMaps(maps, p, c); var i := Origin(p, c, j);
            && (j in t <==> i in maps)
            && (j in t ==> t[j] == if j.Space() == p || j.Space() == c then Demote(maps[i]) else maps[i])
  {
    if j.Space() == c {
      j.pos.RerootTwice(p);
      assert Origin(p, c, j).Reroot(c) == j;
    }
    forall i | i in maps && i.Space() == p ensures i.Reroot(c).Reroot(p) == i {
      i.pos.RerootTwice(c);
    }
  }

  lemma ForkKeepsInv(s: Lazy, p: nat, c: nat)
    requires Inv(s) && Enabled(s, Fork(p, c))
    ensures Inv(s.(maps := ForkMaps(s.maps, p, c)))
  {
    var t := s.(maps := ForkMaps(s.maps, p, c));
    forall j | j in t.maps ensures EntryOk(t, j) {
      var i := Origin(p, c, j);
      ForkEntry(s.maps, p, c, j);
      assert EntryOk(s, i);
      if !t.maps[j].shared && t.maps[j].writable {
        assert i == j;
        forall l | l in Holders(t.maps, t.maps[j].frame) ensures l == j {
          ForkEntry(s.maps, p, c, l);
          assert Origin(p, c, l) in Holders(s.maps, s.maps[j].frame);
        }
        assert Holders(t.maps, t.maps[j].frame) == {j};
      }
    }
  }

  lemma CopyEntry(cells: map<Slot, Cell>, p: nat, c: nat, j: Slot)
    requires p != c && forall k :: k in cells ==> k.Space() != c
    ensures var t := CopyCells(cells, p, c); var i := Origin(p, c, j);
            (j in t <==> i in cells) && (j in t ==> t[j] == cells[i])
  {
    if j.Space() == c {
      j.pos.RerootTwice(p);
      assert Origin(p, c, j).Reroot(c) == j;
    }
    forall i | i in cells && i.Space() == p ensures i.Reroot(c).Reroot(p) == i {
      i.pos.RerootTwice(c);
    }
  }

  lemma ForkShows(s: Lazy, p: nat, c: nat, j: Slot)
    requires Inv(s) && Enabled(s, Fork(p, c))
    requires Inv(s.(maps := ForkMaps(s.maps, p, c)))
    ensures var a := Show(s.(maps := ForkMaps(s.maps, p, c))).cells;
            var b := CopyCells(Show(s).cells, p, c);
            (j in a <==> j in b) && (j in a ==> a[j] == b[j])
  {
    assert Show(s).cells.Keys == s.maps.Keys;
    ForkEntry(s.maps, p, c, j);
    CopyEntry(Show(s).cells, p, c, j);
  }

  lemma ForkKeeps(s: Lazy, p: nat, c: nat)
    requires Inv(s) && Enabled(s, Fork(p, c))
    ensures var t := s.(maps := ForkMaps(s.maps, p, c));
            Inv(t) && Show(t) == Show(s).(cells := CopyCells(Show(s).cells, p, c))
  {
    ForkKeepsInv(s, p, c);
    forall j { ForkShows(s, p, c, j); }
    assert Show(s.(maps := ForkMaps(s.maps, p, c))).cells == CopyCells(Show(s).cells, p, c);
  }

  lemma StoreKeeps(s: Lazy, k: Slot, off: nat, b: bv8)
    requires Inv(s) && k in s.maps && s.maps[k].writable && off < PAGE_SIZE
    ensures var t := Store(s, k, off, b);
            Inv(t) && Show(t) == EagerStep(Show(s), Write(k, off, b, 0), true)
  {
    var t := Store(s, k, off, b);
    assert EntryOk(s, k);
    forall j | j in t.maps ensures EntryOk(t, j) { assert EntryOk(s, j); }
    if !s.maps[k].shared {
      forall j | j in s.maps && j != k && !s.maps[j].shared ensures s.maps[j].frame != s.maps[k].frame {
        assert j !in Holders(s.maps, s.maps[k].frame);
      }
    }
  }

  // The fault handler changes what a page may be used for, never what any space reads.
  lemma FaultKeeps(s: Lazy, k: Slot, spare: nat)
    requires Inv(s) && k in s.maps && !s.maps[k].writable && (spare != 0 ==> Unused(s, spare))
    ensures var (t, ok) := HandleFault(s, k, spare);
            && Inv(t) && Show(t) == Show(s)
            && (ok ==> t.maps.Keys == s.maps.Keys && t.maps[k].writable)
            && (!ok ==> t == s && spare == 0 && |Holders(s.maps, s.maps[k].frame)| > 1)
  {
    var (t, ok) := HandleFault(s, k, spare);
    assert EntryOk(s, k);
    var f := s.maps[k].frame;
    assert k in Holders(s.maps, f);
    if |Holders(s.maps, f)| <= 1 {
      assert |Holders(s.maps, f) - {k}| == 0;
      assert Holders(t.maps, f) == Holders(s.maps, f) == {k};
      forall j | j in t.maps ensures EntryOk(t, j) {
        assert EntryOk(s, j);
        assert Holders(t.maps, s.maps[j].frame) == Holders(s.maps, s.maps[j].frame);
      }
    } else if spare != 0 {
      MapKeeps(s, k, Entry(true, true, true, false, spare), spare, s.data[f]);
      assert s.maps[k].(writable := true, frame := spare) == Entry(true, true, true, false, spare);
    }
  }

  // Nothing shows the contents of an unused frame.
  lemma FillUnused(s: Lazy, f: nat, page: Page)
    requires Inv(s) && Unused(s, f)
    ensures var t := s.(data := s.data[f := page]); Inv(t) && Show(t) == Show(s)
    ensures forall g :: Unused(s, g) <==> Unused(s.(data := s.data[f := page]), g)
  {
    var t := s.(data := s.data[f := page]);
    forall k | k in s.maps ensures EntryOk(t, k) && s.maps[k].frame != f {
      assert EntryOk(s, k) && k !in Holders(s.maps, f);
    }
  }

  lemma StepSimulates(s: Lazy, ev: Event)
    requires Inv(s) && Enabled(s, ev)
    ensures var (t, ok) := Step(s, ev);
            Inv(t) && Show(t) == EagerStep(Show(s), ev, ok)
  {
    var (t, ok) := Step(s, ev);
    match ev
    case ShmPage(f) =>
      forall j | j in t.maps ensures EntryOk(t, j) && s.maps[j].frame != f {
        assert EntryOk(s, j) && j !in Holders(s.maps, f);
      }
    case MapPrivate(k, f, page) => MapKeeps(s, k, Entry(true, true, true, false, f), f, page);
    case MapShared(k, f) => MapSharedKeeps(s, k, f);
    case Unmap(k) => DropKeeps(s, t);
    case Fork(p, c) => ForkKeeps(s, p, c);
    case FailedFork(ks) => DemoteKeeps(s, ks);
    case Exit(r) => DropKeeps(s, t);
    case Write(k, off, b, spare) =>
      if k in s.maps {
        if s.maps[k].writable {
          StoreKeeps(s, k, off, b);
        } else {
          FaultKeeps(s, k, spare);
          var (u, fixed) := HandleFault(s, k, spare);
          if fixed { StoreKeeps(u, k, off, b); }
        }
      }
    case Idle =>
    case Lose(f) => FillUnused(s, f, Blank());
  }

  // ---------- Runs ----------

  ghost predicate Runs(s: Lazy, evs: seq<Event>)
    requires Inv(s)
    decreases |evs|
  {
    evs == [] ||
    (Enabled(s, evs[0]) && (StepSimulates(s, evs[0]); Runs(Step(s, evs[0]).0, evs[1..])))
  }

  // Final states of the two machines; the eager one is told only whether each store took place.
  ghost function RunBoth(s: Lazy, a: Eager, evs: seq<Event>): (Lazy, Eager)
    requires Inv(s) && Runs(s, evs)
    decreases |evs|
  {
    if evs == [] then (s, a)
    else
      StepSimulates(s, evs[0]);
      var (t, ok) := Step(s, evs[0]);
      RunBoth(t, EagerStep(a, evs[0], ok), evs[1..])
  }

  // Over every run, lazy copying shows what eager copying holds, and the invariant - in particular
  // that a writable private page has exactly one holder - is kept throughout.
  lemma {:induction false} LazyRefinesEager(s: Lazy, evs: seq<Event>)
    requires Inv(s) && Runs(s, evs)
    ensures var (t, a) := RunBoth(s, Show(s), evs);
            Inv(t) && Show(t) == a
    decreases |evs|
  {
    if evs != [] {
      StepSimulates(s, evs[0]);
      LazyRefinesEager(Step(s, evs[0]).0, evs[1..]);
    }
  }

  // A run may be extended by any event that is enabled in its last state.
  lemma {:induction false} RunsOn(s: Lazy, a: Eager, evs: seq<Event>, ev: Event)
    requires Inv(s) && Runs(s, evs) && Enabled(RunBoth(s, a, evs).0, ev) && Inv(RunBoth(s, a, evs).0)
    ensures Runs(s, evs + [ev])
    ensures var (t, b) := RunBoth(s, a, evs); var (u, ok) := Step(t, ev);
            RunBoth(s, a, evs + [ev]) == (u, EagerStep(b, ev, ok))
    decreases |evs|
  {
    if evs == [] {
      assert [] + [ev] == [ev] && [ev][1..] == [];
      StepSimulates(s, ev);
    } else {
      assert (evs + [ev])[1..] == evs[1..] + [ev];
      StepSimulates(s, evs[0]);
      var (t, ok) := Step(s, evs[0]);
      RunsOn(t, EagerStep(a, evs[0], ok), evs[1..], ev);
    }
  }
}
