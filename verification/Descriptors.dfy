/**
 File descriptors (src/fs/vfs.c, src/arch/syscall.c, src/sched/sched.c): tables of 16 slots that name
 reference-counted handles, under open, pipe, dup2, fork, close and exit.
 */
module Descriptors {

  const MAX_OPEN_FILES := 16
  const FIRST_FREE := 3  // the slots below are for the standard streams
  const NONE: int := -1

  // What a handle is for; closing the last reference to a pipe end clears a flag of the pipe.
  datatype Kind = Plain | ReadEnd(pipe: nat) | WriteEnd(pipe: nat)

  datatype Handle = Handle(kind: Kind, refCount: nat)

  // A pipe: its two flags and, for the record, the handles sys_pipe made for its ends.
  datatype PipeEnds = PipeEnds(readOpen: bool, writeOpen: bool, reader: nat, writer: nat)

  // tables: the fd_tbl of every task.  closed counts, for every handle ever made, how often its close
  // operation has run; handles are numbered in the order they are made.
  datatype Fds = Fds(tables: map<nat, seq<int>>, handles: map<nat, Handle>, pipes: map<nat, PipeEnds>, closed: seq<nat>)

  // No slot that may be handed out is free below `end`.
  predicate NoRoom(table: seq<int>, end: int) {
    forall i :: FIRST_FREE <= i < end && i < |table| ==> table[i] != NONE
  }

  predicate AtMostOneFree(table: seq<int>) {
    forall i, j :: FIRST_FREE <= i < j < |table| ==> table[i] != NONE || table[j] != NONE
  }

  // r and w are the two lowest slots that may be handed out.
  predicate TwoLowest(table: seq<int>, r: int, w: int) {
    && FIRST_FREE <= r < w < |table| && table[r] == NONE && table[w] == NONE
    && NoRoom(table, r) && forall i :: r < i < w ==> table[i] != NONE
  }

  // The slots that name handle h, over all tasks.
  function Slots(tables: map<nat, seq<int>>, h: nat): set<(nat, nat)> {
    set pid, fd | pid in tables && 0 <= fd < |tables[pid]| && tables[pid][fd] == h :: (pid, fd)
  }

  ghost predicate TablesOk(s: Fds) {
    && (forall pid :: pid in s.tables ==> |s.tables[pid]| == MAX_OPEN_FILES)
    && (forall pid, fd :: pid in s.tables && 0 <= fd < |s.tables[pid]| ==> Names(s.handles, s.tables[pid][fd]))
  }

  // A slot is empty or names a handle that is there.
  predicate Names(handles: map<nat, Handle>, v: int) {
    v == NONE || (v >= 0 && v in handles)
  }

  // The count of a handle is the number of slots that name it.
  ghost predicate CountsOk(s: Fds) {
    forall h :: h in s.handles ==> Slots(s.tables, h) != {} && s.handles[h].refCount == |Slots(s.tables, h)|
  }

  // The close operation has run once for every handle that is gone, and for no other.
  ghost predicate ClosedOnce(s: Fds) {
    && (forall h :: h in s.handles ==> h < |s.closed|)
    && (forall h :: 0 <= h < |s.closed| ==> s.closed[h] == if h in s.handles then 0 else 1)
  }

  // A flag of a pipe is set exactly as long as the handle of that end is there.
  ghost predicate PipesOk(s: Fds) {
    && (forall p :: p in s.pipes ==> PipeOk(s, p))
    && (forall h :: h in s.handles ==> KindOk(s, h))
  }

  ghost predicate PipeOk(s: Fds, p: nat)
    requires p in s.pipes
  {
    var e := s.pipes[p];
    && e.reader == p && e.reader < |s.closed| && e.writer < |s.closed| && e.reader != e.writer
    && (e.readOpen <==> e.reader in s.handles) && (e.writeOpen <==> e.writer in s.handles)
    && (e.reader in s.handles ==> s.handles[e.reader].kind == ReadEnd(p))
    && (e.writer in s.handles ==> s.handles[e.writer].kind == WriteEnd(p))
  }

  ghost predicate KindOk(s: Fds, h: nat)
    requires h in s.handles
  {
    match s.handles[h].kind
    case Plain => true
    case ReadEnd(p) => p in s.pipes && s.pipes[p].reader == h
    case WriteEnd(p) => p in s.pipes && s.pipes[p].writer == h
  }

  ghost predicate Inv(s: Fds) {
    TablesOk(s) && CountsOk(s) && ClosedOnce(s) && PipesOk(s)
  }

  // Nothing was made: the same pipes with the same ends, no new handle, the kinds of those left and how often each
  // was closed at least as before.
  ghost predicate SameMade(s: Fds, t: Fds) {
    && |t.closed| == |s.closed| && (forall h :: 0 <= h < |s.closed| ==> s.closed[h] <= t.closed[h])
    && t.handles.Keys <= s.handles.Keys && (forall h :: h in t.handles ==> t.handles[h].kind == s.handles[h].kind)
    && t.pipes.Keys == s.pipes.Keys
    && (forall p :: p in s.pipes ==> t.pipes[p].reader == s.pipes[p].reader && t.pipes[p].writer == s.pipes[p].writer)
  }

  lemma SameMadeTrans(s: Fds, t: Fds, u: Fds)
    requires SameMade(s, t) && SameMade(t, u)
    ensures SameMade(s, u)
  {
  }

  // Write (read) end open means: some slot still names it.
  lemma FlagIffNamed(s: Fds, p: nat)
    requires Inv(s) && p in s.pipes
    ensures s.pipes[p].readOpen <==> Slots(s.tables, s.pipes[p].reader) != {}
    ensures s.pipes[p].writeOpen <==> Slots(s.tables, s.pipes[p].writer) != {}
  {
    assert PipeOk(s, p);
    forall h: nat | h !in s.handles ensures Slots(s.tables, h) == {} {
      if k :| k in Slots(s.tables, h) {
        assert false;
      }
    }
  }

  // ---------- Slots ----------

  function SetSlot(tables: map<nat, seq<int>>, pid: nat, fd: nat, v: int): map<nat, seq<int>>
    requires pid in tables && fd < |tables[pid]|
  {
    tables[pid := tables[pid][fd := v]]
  }

  lemma SlotsAfter(tables: map<nat, seq<int>>, pid: nat, fd: nat, v: int, h: nat)
    requires pid in tables && fd < |tables[pid]|
    ensures Slots(SetSlot(tables, pid, fd, v), h) ==
            if v == h then Slots(tables, h) + {(pid, fd)} else Slots(tables, h) - {(pid, fd)}
  {
    var t := SetSlot(tables, pid, fd, v);
    forall p, f ensures (p, f) in Slots(t, h) <==>
      (p, f) in (if v == h then Slots(tables, h) + {(pid, fd)} else Slots(tables, h) - {(pid, fd)})
    {
    }
  }

  // ---------- vfs_retain and vfs_close ----------

  function Retain(s: Fds, h: nat): Fds
    requires h in s.handles
  {
    s.(handles := s.handles[h := s.handles[h].(refCount := s.handles[h].refCount + 1)])
  }

  // The close operation of a handle's node.
  function CloseOp(pipes: map<nat, PipeEnds>, k: Kind): map<nat, PipeEnds> {
    match k
    case Plain => pipes
    case ReadEnd(p) => if p in pipes then pipes[p := pipes[p].(readOpen := false)] else pipes
    case WriteEnd(p) => if p in pipes then pipes[p := pipes[p].(writeOpen := false)] else pipes
  }

  function Release(s: Fds, h: nat): Fds
    requires h in s.handles && h < |s.closed| && s.handles[h].refCount > 0
  {
    if s.handles[h].refCount > 1 then
      s.(handles := s.handles[h := s.handles[h].(refCount := s.handles[h].refCount - 1)])
    else
      Fds(s.tables, s.handles - {h}, CloseOp(s.pipes, s.handles[h].kind), s.closed[h := s.closed[h] + 1])
  }

  // One more slot for a handle.
  lemma RetainCounts(s: Fds, pid: nat, fd: nat, h: nat)
    requires CountsOk(s) && pid in s.tables && fd < |s.tables[pid]| && s.tables[pid][fd] == NONE && h in s.handles
    ensures CountsOk(Retain(s.(tables := SetSlot(s.tables, pid, fd, h)), h))
  {
    var t := Retain(s.(tables := SetSlot(s.tables, pid, fd, h)), h);
    assert t.tables == SetSlot(s.tables, pid, fd, h);
    forall g | g in t.handles ensures Slots(t.tables, g) != {} && t.handles[g].refCount == |Slots(t.tables, g)| {
      SlotsAfter(s.tables, pid, fd, h, g);
      assert (pid, fd) !in Slots(s.tables, g);
      hide Slots;
    }
  }

  lemma RetainPipes(s: Fds, t: Fds, h: nat)
    requires PipesOk(s) && h in s.handles && t.pipes == s.pipes && t.closed == s.closed
    requires exists n :: t.handles == s.handles[h := s.handles[h].(refCount := n)]
    ensures PipesOk(t)
  {
    forall p | p in t.pipes ensures PipeOk(t, p) { assert PipeOk(s, p); }
    forall g | g in t.handles ensures KindOk(t, g) { assert KindOk(s, g); }
  }

  lemma RetainKeeps(s: Fds, pid: nat, fd: nat, h: nat)
    requires Inv(s) && pid in s.tables && fd < |s.tables[pid]| && s.tables[pid][fd] == NONE && h in s.handles
    ensures Inv(Retain(s.(tables := SetSlot(s.tables, pid, fd, h)), h))
  {
    var t := Retain(s.(tables := SetSlot(s.tables, pid, fd, h)), h);
    RetainCounts(s, pid, fd, h);
    hide CountsOk, PipesOk;
    RetainPipes(s, t, h);
  }

  // One slot less.
  lemma ReleaseCounts(s: Fds, t: Fds, pid: nat, fd: nat, h: nat, g: nat)
    requires CountsOk(s) && pid in s.tables && fd < |s.tables[pid]| && s.tables[pid][fd] == h && h in s.handles
    requires t.tables == SetSlot(s.tables, pid, fd, NONE) && g in s.handles
    ensures Slots(t.tables, g) == Slots(s.tables, g) - {(pid, fd)}
    ensures g != h ==> Slots(t.tables, g) == Slots(s.tables, g)
    ensures g == h ==> |Slots(t.tables, g)| == |Slots(s.tables, g)| - 1 && (pid, fd) in Slots(s.tables, g)
  {
    SlotsAfter(s.tables, pid, fd, NONE, g);
    assert g == h ==> (pid, fd) in Slots(s.tables, g);
    assert g != h ==> (pid, fd) !in Slots(s.tables, g);
    hide Slots;
  }

  lemma ReleaseKeepsSome(s: Fds, pid: nat, fd: nat, h: nat)
    requires Inv(s) && pid in s.tables && fd < |s.tables[pid]| && s.tables[pid][fd] == h && h in s.handles
    requires h < |s.closed| && s.handles[h].refCount > 1
    ensures Inv(Release(s.(tables := SetSlot(s.tables, pid, fd, NONE)), h))
  {
    var t := Release(s.(tables := SetSlot(s.tables, pid, fd, NONE)), h);
    assert CountsOk(t) by {
      hide TablesOk, ClosedOnce, PipesOk, Slots;
      forall g | g in t.handles ensures Slots(t.tables, g) != {} && t.handles[g].refCount == |Slots(t.tables, g)| {
        ReleaseCounts(s, t, pid, fd, h, g);
      }
    }
    hide CountsOk, PipesOk;
    assert t.handles == s.handles[h := s.handles[h].(refCount := s.handles[h].refCount - 1)];
    RetainPipes(s, t, h);
  }

  lemma ReleaseKeepsLast(s: Fds, pid: nat, fd: nat, h: nat)
    requires Inv(s) && pid in s.tables && fd < |s.tables[pid]| && s.tables[pid][fd] == h && h in s.handles
    requires h < |s.closed| && s.handles[h].refCount == 1
    ensures Inv(Release(s.(tables := SetSlot(s.tables, pid, fd, NONE)), h))
  {
    var t := Release(s.(tables := SetSlot(s.tables, pid, fd, NONE)), h);
    assert CountsOk(t) && Slots(s.tables, h) == {(pid, fd)} by {
      hide TablesOk, ClosedOnce, PipesOk, Slots;
      forall g | g in s.handles
        ensures g != h ==> Slots(t.tables, g) != {} && t.handles[g].refCount == |Slots(t.tables, g)|
      {
        ReleaseCounts(s, t, pid, fd, h, g);
      }
      ReleaseCounts(s, t, pid, fd, h, h);
      LastSlot(Slots(s.tables, h), (pid, fd));
    }
    hide CountsOk, Slots;
    ReleaseTables(s, t, pid, fd, h);
    ReleasePipes(s, t, h);
    hide TablesOk, PipesOk;
  }

  lemma SlotHandle(s: Fds, pid: nat, fd: nat)
    requires Inv(s) && pid in s.tables && fd < |s.tables[pid]| && s.tables[pid][fd] != NONE
    ensures var h := s.tables[pid][fd]; h >= 0 && h in s.handles && h < |s.closed| && s.handles[h].refCount > 0
  {
    var h := s.tables[pid][fd];
    assert Names(s.handles, h);
    assert (pid, fd) in Slots(s.tables, h);
  }

  lemma ReleaseKeeps(s: Fds, pid: nat, fd: nat, h: nat)
    requires Inv(s) && pid in s.tables && fd < |s.tables[pid]| && s.tables[pid][fd] == h
    ensures h in s.handles && h < |s.closed| && s.handles[h].refCount > 0
    ensures Inv(Release(s.(tables := SetSlot(s.tables, pid, fd, NONE)), h))
  {
    SlotHandle(s, pid, fd);
    hide Inv, Release;
    if s.handles[h].refCount > 1 { ReleaseKeepsSome(s, pid, fd, h); } else { ReleaseKeepsLast(s, pid, fd, h); }
  }

  lemma LastSlot<T>(m: set<T>, x: T)
    requires x in m && |m| == 1
    ensures m == {x}
  {
    assert |m - {x}| == 0;
  }

  // No slot names the handle that goes.
  lemma ReleaseTables(s: Fds, t: Fds, pid: nat, fd: nat, h: nat)
    requires TablesOk(s) && pid in s.tables && fd < |s.tables[pid]| && t.tables == SetSlot(s.tables, pid, fd, NONE)
    requires t.handles == s.handles - {h} && Slots(s.tables, h) == {(pid, fd)}
    ensures TablesOk(t)
  {
    forall p, f: nat | p in t.tables && f < |t.tables[p]| ensures Names(t.handles, t.tables[p][f]) {
      assert Names(s.handles, s.tables[p][f]);
      if s.tables[p][f] == h { assert (p, f) in Slots(s.tables, h); }
    }
  }

  lemma ReleasePipes(s: Fds, t: Fds, h: nat)
    requires PipesOk(s) && h in s.handles && t.handles == s.handles - {h} && |t.closed| == |s.closed|
    requires t.pipes == CloseOp(s.pipes, s.handles[h].kind)
    ensures PipesOk(t)
  {
    assert KindOk(s, h);
    forall p | p in t.pipes ensures PipeOk(t, p) { assert PipeOk(s, p); }
    forall g | g in t.handles ensures KindOk(t, g) { assert KindOk(s, g); }
  }

  // ---------- New handles ----------

  // A new handle with one slot.
  function Install(s: Fds, pid: nat, fd: nat, k: Kind): Fds
    requires pid in s.tables && fd < |s.tables[pid]|
  {
    var h := |s.closed|;
    Fds(SetSlot(s.tables, pid, fd, h), s.handles[h := Handle(k, 1)], s.pipes, s.closed + [0])
  }

  lemma InstallCounts(s: Fds, pid: nat, fd: nat, k: Kind)
    requires Inv(s) && pid in s.tables && fd < |s.tables[pid]| && s.tables[pid][fd] == NONE
    ensures var t := Install(s, pid, fd, k); CountsOk(t) && TablesOk(t) && ClosedOnce(t)
  {
    var t, h := Install(s, pid, fd, k), |s.closed|;
    assert h !in s.handles;
    assert Slots(s.tables, h) == {} by {
      if x :| x in Slots(s.tables, h) { assert false; }
    }
    forall g | g in t.handles ensures Slots(t.tables, g) != {} && t.handles[g].refCount == |Slots(t.tables, g)| {
      SlotsAfter(s.tables, pid, fd, h, g);
      assert (pid, fd) !in Slots(s.tables, g);
    }
    hide Slots, CountsOk, PipesOk;
  }

  lemma InstallKeeps(s: Fds, pid: nat, fd: nat)
    requires Inv(s) && pid in s.tables && fd < |s.tables[pid]| && s.tables[pid][fd] == NONE
    ensures Inv(Install(s, pid, fd, Plain))
  {
    var t := Install(s, pid, fd, Plain);
    InstallCounts(s, pid, fd, Plain);
    hide CountsOk, TablesOk;
    forall p | p in t.pipes ensures PipeOk(t, p) { assert PipeOk(s, p); }
    forall g | g in t.handles ensures KindOk(t, g) { if g in s.handles { assert KindOk(s, g); } }
  }

  // The two handles and the pipe that sys_pipe makes; the pipe takes the number of its read handle.
  function InstallPipe(s: Fds, pid: nat, r: nat, w: nat): Fds
    requires pid in s.tables && r < |s.tables[pid]| && w < |s.tables[pid]|
  {
    var p := |s.closed|;
    Install(Install(s, pid, r, ReadEnd(p)), pid, w, WriteEnd(p)).(pipes := s.pipes[p := PipeEnds(true, true, p, p + 1)])
  }

  lemma InstallPipeKeeps(s: Fds, pid: nat, r: nat, w: nat)
    requires Inv(s) && pid in s.tables && r < |s.tables[pid]| && w < |s.tables[pid]| && r != w
    requires s.tables[pid][r] == NONE && s.tables[pid][w] == NONE
    ensures Inv(InstallPipe(s, pid, r, w))
  {
    InstallTwice(s, pid, r, w);
    InstallPipePipes(s, pid, r, w);
  }

  // Kinds do not matter for counting, so the two handles can be made as plain ones.
  lemma InstallTwice(s: Fds, pid: nat, r: nat, w: nat)
    requires Inv(s) && pid in s.tables && r < |s.tables[pid]| && w < |s.tables[pid]| && r != w
    requires s.tables[pid][r] == NONE && s.tables[pid][w] == NONE
    ensures var t := InstallPipe(s, pid, r, w); CountsOk(t) && TablesOk(t) && ClosedOnce(t)
  {
    hide Slots, CountsOk, TablesOk, ClosedOnce, PipesOk;
    InstallKeeps(s, pid, r);
    var u := Install(s, pid, r, Plain);
    InstallKeeps(u, pid, w);
    var v, t := Install(u, pid, w, Plain), InstallPipe(s, pid, r, w);
    assert t.tables == v.tables && t.closed == v.closed && t.handles.Keys == v.handles.Keys;
    assert forall h :: h in t.handles ==> t.handles[h].refCount == v.handles[h].refCount;
    SameCounts(v, t);
  }

  lemma SameCounts(s: Fds, t: Fds)
    requires CountsOk(s) && TablesOk(s) && ClosedOnce(s)
    requires t.tables == s.tables && t.closed == s.closed && t.handles.Keys == s.handles.Keys
    requires forall h :: h in t.handles ==> t.handles[h].refCount == s.handles[h].refCount
    ensures CountsOk(t) && TablesOk(t) && ClosedOnce(t)
  {
    hide Slots;
    forall pid, fd: nat | pid in t.tables && fd < |t.tables[pid]| ensures Names(t.handles, t.tables[pid][fd]) {
      assert Names(s.handles, s.tables[pid][fd]);
    }
  }

  lemma InstallPipePipes(s: Fds, pid: nat, r: nat, w: nat)
    requires Inv(s) && pid in s.tables && r < |s.tables[pid]| && w < |s.tables[pid]|
    ensures PipesOk(InstallPipe(s, pid, r, w))
  {
    var t, p := InstallPipe(s, pid, r, w), |s.closed|;
    hide CountsOk, TablesOk, Slots;
    forall q | q in s.pipes ensures q < p { assert PipeOk(s, q); }
    forall q | q in t.pipes ensures PipeOk(t, q) { if q != p { assert PipeOk(s, q); } }
    forall g | g in t.handles ensures KindOk(t, g) { if g in s.handles { assert KindOk(s, g); } }
  }

  // ---------- Tasks ----------

  lemma NewTableKeeps(s: Fds, pid: nat)
    requires Inv(s) && pid !in s.tables
    ensures Inv(s.(tables := s.tables[pid := EmptyTable()]))
  {
    var t := s.(tables := s.tables[pid := EmptyTable()]);
    forall h: nat ensures Slots(t.tables, h) == Slots(s.tables, h) {
    }
    assert PipesOk(t) by { RetainNothing(s, t); }
    hide Slots, PipesOk;
  }

  lemma DropTableKeeps(s: Fds, pid: nat)
    requires Inv(s) && pid in s.tables && s.tables[pid] == EmptyTable()
    ensures Inv(s.(tables := s.tables - {pid}))
  {
    var t := s.(tables := s.tables - {pid});
    forall h: nat ensures Slots(t.tables, h) == Slots(s.tables, h) {
    }
    assert PipesOk(t) by { RetainNothing(s, t); }
    hide Slots, PipesOk;
  }

  lemma RetainNothing(s: Fds, t: Fds)
    requires PipesOk(s) && t.handles == s.handles && t.pipes == s.pipes && t.closed == s.closed
    ensures PipesOk(t)
  {
    forall p | p in t.pipes ensures PipeOk(t, p) { assert PipeOk(s, p); }
    forall g | g in t.handles ensures KindOk(t, g) { assert KindOk(s, g); }
  }

  function EmptyTable(): (t: seq<int>)
    ensures |t| == MAX_OPEN_FILES && forall i :: 0 <= i < MAX_OPEN_FILES ==> t[i] == NONE
  {
    seq(MAX_OPEN_FILES, _ => NONE)
  }

  // The first n slots name the handles from h on.
  function StdTable(h: nat, n: nat): (t: seq<int>)
    ensures |t| == MAX_OPEN_FILES && forall i :: 0 <= i < MAX_OPEN_FILES ==> t[i] == if i < n then h + i else NONE
  {
    seq(MAX_OPEN_FILES, i => if i < n then h + i else NONE)
  }

  // n plain handles were made, and nothing else changed but tables.
  ghost predicate Attached(s: Fds, t: Fds, n: nat) {
    && t.pipes == s.pipes && |t.closed| == |s.closed| + n && s.closed <= t.closed
    && (forall h :: h in s.handles ==> h in t.handles && (h < |s.closed| ==> t.handles[h] == s.handles[h]))
    && (forall h :: h in t.handles ==> h in s.handles || |s.closed| <= h < |t.closed|)
    && (forall h :: |s.closed| <= h < |t.closed| ==> h in t.handles && t.handles[h].kind == Plain)
  }

  // ---------- The system calls ----------

  // A 64-bit argument as a signed byte.
  function Int8(arg: nat): int {
    if arg % 256 < 128 then arg % 256 else arg % 256 - 256
  }

  class FdTables {
    var tables: map<nat, seq<int>>
    var handles: map<nat, Handle>
    var pipes: map<nat, PipeEnds>
    var closed: seq<nat>

    ghost function Now(): Fds
      reads this
    {
      Fds(tables, handles, pipes, closed)
    }

    constructor ()
      ensures Inv(Now()) && Now() == Fds(map[], map[], map[], [])
    {
      tables, handles, pipes, closed := map[], map[], map[], [];
    }

    // vfs_retain.
    method VfsRetain(h: nat)
      requires h in handles
      modifies this`handles
      ensures Now() == Retain(old(Now()), h)
    {
      handles := handles[h := handles[h].(refCount := handles[h].refCount + 1)];
    }

    // vfs_close.
    method VfsClose(h: nat)
      requires h in handles && h < |closed| && handles[h].refCount > 0
      modifies this
      ensures Now() == Release(old(Now()), h)
    {
      var was := handles[h];
      handles := handles[h := was.(refCount := was.refCount - 1)];
      if handles[h].refCount > 0 {
        return;
      }
      pipes := CloseOp(pipes, was.kind);
      closed := closed[h := closed[h] + 1];
      handles := handles - {h};
    }

    // find_free_fd: the lowest free slot, or -1.
    method FindFreeFd(pid: nat) returns (fd: int)
      requires pid in tables && |tables[pid]| == MAX_OPEN_FILES
      ensures fd == NONE <==> NoRoom(tables[pid], MAX_OPEN_FILES)
      ensures fd != NONE ==> FIRST_FREE <= fd < MAX_OPEN_FILES && tables[pid][fd] == NONE && NoRoom(tables[pid], fd)
    {
      for i := FIRST_FREE to MAX_OPEN_FILES
        invariant NoRoom(tables[pid], i)
      {
        if tables[pid][i] == NONE {
          return i;
        }
      }
      return NONE;
    }

    // The fd part of sys_open; found is false when vfs_open fails.
    method Open(pid: nat, found: bool) returns (fd: int)
      requires Inv(Now()) && pid in tables
      modifies this
      ensures Inv(Now())
      ensures fd == NONE <==> !found || NoRoom(old(tables)[pid], MAX_OPEN_FILES)
      ensures fd == NONE ==> Now() == old(Now())
      ensures fd != NONE ==> FIRST_FREE <= fd < MAX_OPEN_FILES && fd < |old(tables)[pid]| && NoRoom(old(tables)[pid], fd)
      ensures fd != NONE ==> old(tables)[pid][fd] == NONE && Now() == Install(old(Now()), pid, fd, Plain)
    {
      hide Inv;
      ghost var s := Now();
      TableSizes(s);
      fd := FindFreeFd(pid);
      if fd == NONE || !found {
        return NONE;
      }
      InstallKeeps(s, pid, fd);
      tables, handles, closed := SetSlot(tables, pid, fd, |closed|), handles[|closed| := Handle(Plain, 1)], closed + [0];
      assert Now() == Install(s, pid, fd, Plain);
    }

    // sys_pipe; memory is false when an allocation fails.
    method PipeCall(pid: nat, memory: bool) returns (r: int, w: int)
      requires Inv(Now()) && pid in tables
      modifies this
      ensures Inv(Now())
      ensures r == NONE ==> Now() == old(Now()) && (memory ==> AtMostOneFree(old(tables)[pid]))
      ensures r != NONE ==> FIRST_FREE <= r < w < MAX_OPEN_FILES && w < |old(tables)[pid]| && Now() == InstallPipe(old(Now()), pid, r, w)
      ensures r != NONE ==> memory && TwoLowest(old(tables)[pid], r, w)
    {
      hide Inv;
      ghost var s := Now();
      TableSizes(s);
      var table := tables[pid];
      r := FindFreeFd(pid);
      if r == NONE {
        return NONE, NONE;
      }
      var h := |closed|;
      tables := SetSlot(tables, pid, r, h);
      w := FindFreeFd(pid);
      assert tables[pid] == table[r := h];
      if w == NONE || !memory {
        assert w == NONE ==> forall i :: FIRST_FREE <= i < MAX_OPEN_FILES && i != r ==> table[i] == table[r := h][i] != NONE;
        tables := tables[pid := table];
        assert tables == s.tables;
        return NONE, NONE;
      }
      assert TwoLowest(table, r, w) by {
        forall i | r < i < w ensures table[i] != NONE { assert table[r := h][i] == table[i]; }
      }
      InstallPipeKeeps(s, pid, r, w);
      tables := SetSlot(tables, pid, w, h + 1);
      handles := handles[h := Handle(ReadEnd(h), 1)][h + 1 := Handle(WriteEnd(h), 1)];
      closed := closed + [0] + [0];
      pipes := pipes[h := PipeEnds(true, true, h, h + 1)];
      assert Now() == InstallPipe(s, pid, r, w);
    }

    // sys_close, which looks at the low eight bits of its argument only.
    method CloseFd(pid: nat, arg: nat) returns (res: int)
      requires Inv(Now()) && pid in tables
      modifies this
      ensures Inv(Now()) && pid in tables && tables.Keys == old(tables).Keys
      ensures forall p :: p in tables && p != pid ==> tables[p] == old(tables)[p]
      ensures (res == 0 || res == -1) && var fd := Int8(arg); res == 0 <==> 0 <= fd < MAX_OPEN_FILES && old(tables)[pid][fd] != NONE
      ensures var fd := Int8(arg); res == 0 ==> 0 <= fd < |old(tables)[pid]| && tables[pid] == old(tables)[pid][fd := NONE]
      ensures res != 0 ==> Now() == old(Now())
      ensures SameMade(old(Now()), Now())
    {
      hide Inv;
      TableSizes(Now());
      var fd := Int8(arg);
      if fd < 0 || fd >= MAX_OPEN_FILES || tables[pid][fd] == NONE {
        return -1;
      }
      DropSlot(pid, fd);
      return 0;
    }

    // Closes the handle in a slot and empties the slot.
    method DropSlot(pid: nat, fd: nat)
      requires Inv(Now()) && pid in tables && fd < |tables[pid]| && tables[pid][fd] != NONE
      modifies this
      ensures Inv(Now()) && tables == SetSlot(old(tables), pid, fd, NONE)
      ensures old(tables)[pid][fd] >= 0 && old(tables)[pid][fd] in old(handles)
      ensures handles.Keys <= old(handles).Keys && forall h :: h in handles && h != old(tables)[pid][fd] ==> handles[h] == old(handles)[h]
      ensures SameMade(old(Now()), Now())
    {
      hide Inv;
      ghost var s := Now();
      SlotHandle(s, pid, fd);
      var h: nat := tables[pid][fd];
      ReleaseKeeps(s, pid, fd, h);
      VfsClose(h);
      tables := SetSlot(tables, pid, fd, NONE);
      assert Now() == Release(s.(tables := SetSlot(s.tables, pid, fd, NONE)), h);
    }

    // sys_dup2.
    method Dup2(pid: nat, oldFd: int, newFd: int) returns (res: int)
      requires Inv(Now()) && pid in tables
      modifies this
      ensures Inv(Now()) && pid in tables && tables.Keys == old(tables).Keys
      ensures |old(tables)[pid]| == MAX_OPEN_FILES
      ensures res != NONE <==> 0 <= oldFd < MAX_OPEN_FILES && 0 <= newFd < MAX_OPEN_FILES && old(tables)[pid][oldFd] != NONE
      ensures res == NONE ==> Now() == old(Now())
      ensures res != NONE ==> res == newFd && Duplicated(old(tables), tables, pid, oldFd, newFd)
      ensures SameMade(old(Now()), Now())
    {
      hide Inv;
      TableSizes(Now());
      if oldFd < 0 || oldFd >= MAX_OPEN_FILES || newFd < 0 || newFd >= MAX_OPEN_FILES {
        return NONE;
      }
      ghost var table := tables[pid];
      if tables[pid][oldFd] == NONE {
        return NONE;
      }
      if oldFd == newFd {
        assert table[newFd := table[oldFd]] == table;
        return newFd;
      }
      if tables[pid][newFd] != NONE {
        DropSlot(pid, newFd);
      }
      SlotHandle(Now(), pid, oldFd);
      FillSlot(pid, newFd, tables[pid][oldFd]);
      assert tables[pid] == table[newFd := table[oldFd]];
      return newFd;
    }

    // Puts a handle into an empty slot and counts it.
    method FillSlot(pid: nat, fd: nat, h: nat)
      requires Inv(Now()) && pid in tables && fd < |tables[pid]| && tables[pid][fd] == NONE && h in handles
      modifies this
      ensures Inv(Now()) && tables == SetSlot(old(tables), pid, fd, h) && SameMade(old(Now()), Now())
    {
      hide Inv;
      ghost var s := Now();
      RetainKeeps(s, pid, fd, h);
      tables := SetSlot(tables, pid, fd, h);
      VfsRetain(h);
      assert Now() == Retain(s.(tables := SetSlot(s.tables, pid, fd, h)), h);
    }

    // sched_clean_fds: on exit and on kill every slot is closed.
    method CleanFds(pid: nat)
      requires Inv(Now()) && pid in tables
      modifies this
      ensures Inv(Now()) && tables == old(tables)[pid := EmptyTable()] && SameMade(old(Now()), Now())
    {
      hide Inv;
      TableSizes(Now());
      for fd := 0 to MAX_OPEN_FILES
        invariant Inv(Now()) && pid in tables && |tables[pid]| == MAX_OPEN_FILES
        invariant tables == old(tables)[pid := tables[pid]] && SameMade(old(Now()), Now())
        invariant forall i :: 0 <= i < fd ==> tables[pid][i] == NONE
        invariant forall i :: fd <= i < MAX_OPEN_FILES ==> tables[pid][i] == old(tables)[pid][i]
      {
        if tables[pid][fd] != NONE {
          DropSlot(pid, fd);
        }
      }
      assert tables[pid] == EmptyTable();
    }

    // The table of a new task, with its three standard handles (dev_attach_stdio).
    method NewTask(pid: nat, stdio: bool)
      requires Inv(Now()) && pid !in tables
      modifies this
      ensures Inv(Now()) && tables == old(tables)[pid := if stdio then StdTable(|old(closed)|, FIRST_FREE) else EmptyTable()]
      ensures Attached(old(Now()), Now(), if stdio then FIRST_FREE else 0)
    {
      hide Inv;
      NewTableKeeps(Now(), pid);
      tables := tables[pid := EmptyTable()];
      if stdio {
        assert StdTable(|closed|, 0) == EmptyTable();
        for fd := 0 to FIRST_FREE
          invariant Inv(Now()) && tables == old(tables)[pid := StdTable(|old(closed)|, fd)] && Attached(old(Now()), Now(), fd)
        {
          ghost var s := Now();
          InstallKeeps(s, pid, fd);
          tables, handles, closed := SetSlot(tables, pid, fd, |closed|), handles[|closed| := Handle(Plain, 1)], closed + [0];
          assert Now() == Install(s, pid, fd, Plain);
          assert tables[pid] == StdTable(|old(closed)|, fd + 1);
        }
      }
    }

    // The descriptor part of task_factory_fork: empty the new table, copy the parent's, count every entry.
    method ForkTable(parent: nat, child: nat)
      requires Inv(Now()) && parent in tables && child in tables && parent != child
      modifies this
      ensures Inv(Now()) && tables == old(tables)[child := old(tables)[parent]] && SameMade(old(Now()), Now())
    {
      hide Inv, Partly;
      CleanFds(child);
      ghost var s, partial := Now(), tables;
      TableSizes(s);
      PartlyStart(s.tables[parent]);
      tables := tables[child := tables[parent]];
      for fd := 0 to MAX_OPEN_FILES
        invariant tables == s.tables[child := s.tables[parent]]
        invariant partial == s.tables[child := Partly(s.tables[parent], fd)]
        invariant Inv(Fds(partial, handles, pipes, closed)) && SameMade(old(Now()), Now())
      {
        PartlyStep(s.tables[parent], fd);
        if tables[child][fd] != NONE {
          partial := CountOne(parent, child, fd, tables[child][fd], partial);
        }
      }
      PartlyEnd(s.tables[parent]);
      assert partial == tables;
    }

    // vfs_retain for one slot of the copied table; partial is the table as far as it has been counted.
    method CountOne(parent: nat, child: nat, fd: nat, h: int, ghost partial: map<nat, seq<int>>)
      returns (ghost more: map<nat, seq<int>>)
      requires Inv(Fds(partial, handles, pipes, closed)) && parent in partial && child in partial && parent != child
      requires fd < |partial[parent]| && fd < |partial[child]| && partial[child][fd] == NONE
      requires partial[parent][fd] == h && h != NONE
      modifies this`handles
      ensures more == SetSlot(partial, child, fd, h) && Inv(Fds(more, handles, pipes, closed)) && SameMade(old(Now()), Now())
    {
      hide Inv;
      ghost var before := Fds(partial, handles, pipes, closed);
      SlotHandle(before, parent, fd);
      RetainKeeps(before, child, fd, h);
      VfsRetain(h);
      more := SetSlot(partial, child, fd, h);
      assert Fds(more, handles, pipes, closed) == Retain(before.(tables := more), h);
    }

    // The task is gone (sched_destroy_task).
    method Destroy(pid: nat)
      requires Inv(Now()) && pid in tables
      modifies this
      ensures Inv(Now()) && tables == old(tables) - {pid} && SameMade(old(Now()), Now())
    {
      hide Inv;
      CleanFds(pid);
      DropTableKeeps(Now(), pid);
      tables := tables - {pid};
    }
  }

  // Slot n of task pid names what slot o names; no other slot has changed.
  ghost predicate Duplicated(before: map<nat, seq<int>>, after: map<nat, seq<int>>, pid: nat, o: int, n: int) {
    && pid in before && 0 <= o < |before[pid]| && 0 <= n < |before[pid]| && before[pid][o] != NONE
    && after == before[pid := before[pid][n := before[pid][o]]]
  }

  // The first n slots of a row, the others empty.
  ghost function Partly(row: seq<int>, n: nat): (r: seq<int>)
    requires |row| == MAX_OPEN_FILES && n <= MAX_OPEN_FILES
    ensures |r| == MAX_OPEN_FILES && forall i :: 0 <= i < MAX_OPEN_FILES ==> r[i] == if i < n then row[i] else NONE
  {
    row[..n] + EmptyTable()[n..]
  }

  lemma PartlyStart(row: seq<int>)
    requires |row| == MAX_OPEN_FILES
    ensures Partly(row, 0) == EmptyTable()
  {
  }

  lemma PartlyStep(row: seq<int>, n: nat)
    requires |row| == MAX_OPEN_FILES && n < MAX_OPEN_FILES
    ensures Partly(row, n)[n := row[n]] == Partly(row, n + 1)
    ensures row[n] == NONE ==> Partly(row, n + 1) == Partly(row, n)
  {
  }

  lemma PartlyEnd(row: seq<int>)
    requires |row| == MAX_OPEN_FILES
    ensures Partly(row, MAX_OPEN_FILES) == row
  {
  }

  lemma TableSizes(s: Fds)
    requires Inv(s)
    ensures forall pid :: pid in s.tables ==> |s.tables[pid]| == MAX_OPEN_FILES
  {
  }
}
