/**
 Whole runs of the descriptor calls.  `Book` keeps only which slot names which handle and what each handle ever made is
 for: no counts and no flags.  Everything the kernel keeps besides - reference counts, the flags of pipes, which handles
 are there and how often each was closed - is what can be read off the slots (`Derive`), after any sequence of calls.
 */
module DescriptorRuns {
  import opened Descriptors

  datatype Book = Book(tables: map<nat, seq<int>>, made: seq<Kind>)

  ghost predicate Sized(b: Book) {
    forall pid :: pid in b.tables ==> |b.tables[pid]| == MAX_OPEN_FILES
  }

  // Some slot names the handle.
  ghost predicate Named(tables: map<nat, seq<int>>, h: nat) {
    Slots(tables, h) != {}
  }

  // What reference counting should come to.
  ghost function Derive(b: Book): Fds {
    Fds(b.tables,
        map h: nat | h < |b.made| && Named(b.tables, h) :: Handle(b.made[h], |Slots(b.tables, h)|),
        map p: nat | p < |b.made| && b.made[p] == ReadEnd(p) :: PipeEnds(Named(b.tables, p), Named(b.tables, p + 1), p, p + 1),
        seq(|b.made|, h requires 0 <= h < |b.made| => if Named(b.tables, h) then 0 else 1))
  }

  // The handles and pipes of s are those of the book.
  ghost predicate Recorded(s: Fds, made: seq<Kind>) {
    && |made| == |s.closed|
    && (forall h :: h in s.handles ==> h < |made| && s.handles[h].kind == made[h])
    && (forall p: nat :: p in s.pipes <==> p < |made| && made[p] == ReadEnd(p))
    && (forall p :: p in s.pipes ==> s.pipes[p].writer == p + 1)
  }

  ghost predicate Matches(s: Fds, b: Book) {
    Inv(s) && s.tables == b.tables && Recorded(s, b.made)
  }

  // The invariant leaves no choice: counts, flags and closings are those read off the slots.
  lemma MatchesIs(s: Fds, b: Book)
    requires Matches(s, b)
    ensures s == Derive(b) && Sized(b)
  {
    HandlesAre(s, b);
    ClosedAre(s, b);
    PipesAre(s, b);
    TableSizes(s);
    hide Inv, Recorded, Named;
    var d := Derive(b);
    assert s.tables == d.tables;
  }

  lemma HandlesAre(s: Fds, b: Book)
    requires Matches(s, b)
    ensures s.handles == Derive(b).handles
  {
    HandlesNamed(s);
    hide Slots, TablesOk, ClosedOnce, PipesOk, Named;
    var d := Derive(b).handles;
    forall h | h in s.handles ensures h in d && s.handles[h] == d[h] { }
  }

  lemma ClosedAre(s: Fds, b: Book)
    requires Matches(s, b)
    ensures s.closed == Derive(b).closed
  {
    HandlesNamed(s);
    hide Slots, TablesOk, CountsOk, PipesOk, Named;
  }

  lemma HandlesNamed(s: Fds)
    requires Inv(s)
    ensures forall h: nat :: h in s.handles <==> Named(s.tables, h)
    ensures forall h :: h in s.handles ==> h < |s.closed|
  {
    forall h: nat | Named(s.tables, h) ensures h in s.handles {
      var k :| k in Slots(s.tables, h);
      assert Names(s.handles, s.tables[k.0][k.1]);
    }
  }

  lemma PipesAre(s: Fds, b: Book)
    requires Matches(s, b)
    ensures s.pipes == Derive(b).pipes
  {
    HandlesNamed(s);
    hide Slots, CountsOk, TablesOk, ClosedOnce, Named;
    var d := Derive(b).pipes;
    forall p | p in s.pipes ensures p in d && s.pipes[p] == d[p] { assert PipeOk(s, p); }
  }

  // ---------- Calls on the book ----------

  datatype Op =
    | DoOpen(pid: nat, found: bool)
    | DoPipe(pid: nat, memory: bool)
    | DoDup2(pid: nat, oldFd: int, newFd: int)
    | DoClose(pid: nat, arg: nat)
    | DoSpawn(pid: nat, stdio: bool)
    | DoFork(parent: nat, child: nat, stdio: bool, memory: bool)
    | DoExit(pid: nat)  // exit or kill
    | DoReap(pid: nat)

  // The lowest free slot from i on, or the length of the row.
  function Lowest(row: seq<int>, i: nat): (fd: nat)
    requires i <= |row|
    ensures i <= fd <= |row| && (forall k :: i <= k < fd ==> row[k] != NONE) && (fd < |row| ==> row[fd] == NONE)
    decreases |row| - i
  {
    if i == |row| || row[i] == NONE then i else Lowest(row, i + 1)
  }

  lemma LowestIs(row: seq<int>, i: nat, fd: nat)
    requires i <= fd <= |row| && (forall k :: i <= k < fd ==> row[k] != NONE) && (fd < |row| ==> row[fd] == NONE)
    ensures Lowest(row, i) == fd
  {
  }

  function Std(stdio: bool): seq<Kind> {
    if stdio then [Plain, Plain, Plain] else []
  }

  ghost function Step(b: Book, op: Op): Book
    requires Sized(b)
  {
    var n := |b.made|;
    match op
    case DoOpen(pid, found) =>
      if pid !in b.tables || !found then b
      else
        var fd := Lowest(b.tables[pid], FIRST_FREE);
        if fd == MAX_OPEN_FILES then b else Book(SetSlot(b.tables, pid, fd, n), b.made + [Plain])
    case DoPipe(pid, memory) =>
      if pid !in b.tables || !memory then b
      else
        var r := Lowest(b.tables[pid], FIRST_FREE);
        if r == MAX_OPEN_FILES then b
        else
          var w := Lowest(b.tables[pid], r + 1);
          if w == MAX_OPEN_FILES then b
          else Book(b.tables[pid := b.tables[pid][r := n][w := n + 1]], b.made + [ReadEnd(n), WriteEnd(n)])
    case DoDup2(pid, o, fd) =>
      if pid in b.tables && 0 <= o < MAX_OPEN_FILES && 0 <= fd < MAX_OPEN_FILES && b.tables[pid][o] != NONE
      then b.(tables := SetSlot(b.tables, pid, fd, b.tables[pid][o])) else b
    case DoClose(pid, arg) =>
      if pid in b.tables && 0 <= Int8(arg) < MAX_OPEN_FILES then b.(tables := SetSlot(b.tables, pid, Int8(arg), NONE)) else b
    case DoSpawn(pid, stdio) =>
      if pid in b.tables then b
      else Book(b.tables[pid := if stdio then StdTable(n, FIRST_FREE) else EmptyTable()], b.made + Std(stdio))
    case DoFork(parent, child, stdio, memory) =>
      if parent !in b.tables || child in b.tables then b
      else Book(if memory then b.tables[child := b.tables[parent]] else b.tables, b.made + Std(stdio))
    case DoExit(pid) => if pid in b.tables then b.(tables := b.tables[pid := EmptyTable()]) else b
    case DoReap(pid) => b.(tables := b.tables - {pid})
  }

  ghost function After(ops: seq<Op>): (b: Book)
    ensures Sized(b)
  {
    if ops == [] then Book(map[], []) else Step(After(ops[..|ops| - 1]), ops[|ops| - 1])
  }

  // ---------- The calls follow the book ----------

  lemma SameMadeKeeps(s: Fds, t: Fds, made: seq<Kind>)
    requires Recorded(s, made) && SameMade(s, t)
    ensures Recorded(t, made)
  {
  }

  lemma InstallRecorded(s: Fds, pid: nat, fd: nat, made: seq<Kind>)
    requires Inv(s) && Recorded(s, made) && pid in s.tables && fd < |s.tables[pid]|
    ensures Recorded(Install(s, pid, fd, Plain), made + [Plain]) && |s.closed| == |made|
  {
    hide Slots, CountsOk, TablesOk;
  }

  lemma InstallPipeRecorded(s: Fds, pid: nat, r: nat, w: nat, made: seq<Kind>)
    requires Inv(s) && Recorded(s, made) && pid in s.tables && r < |s.tables[pid]| && w < |s.tables[pid]|
    ensures Recorded(InstallPipe(s, pid, r, w), made + [ReadEnd(|made|), WriteEnd(|made|)])
  {
    hide Slots, CountsOk, TablesOk;
    forall p | p in s.pipes ensures p < |made| { assert PipeOk(s, p); }
  }

  lemma AttachedRecorded(s: Fds, t: Fds, made: seq<Kind>, stdio: bool)
    requires Inv(s) && Recorded(s, made) && Attached(s, t, if stdio then FIRST_FREE else 0)
    ensures Recorded(t, made + Std(stdio)) && |s.closed| == |made|
  {
    hide Slots, CountsOk, TablesOk;
  }

  // One call, made on the tables, is the call on the book.
  method Perform(f: FdTables, op: Op, ghost b: Book)
    requires Matches(f.Now(), b) && Sized(b)
    modifies f
    ensures Matches(f.Now(), Step(b, op))
  {
    hide Inv, Recorded, SameMade, Attached;
    ghost var s := f.Now();
    match op
    case DoOpen(pid, found) =>
      if pid in f.tables {
        var fd := f.Open(pid, found);
        if fd != NONE {
          LowestIs(b.tables[pid], FIRST_FREE, fd);
          InstallRecorded(s, pid, fd, b.made);
        } else if found {
          LowestIs(b.tables[pid], FIRST_FREE, MAX_OPEN_FILES);
        }
      }
    case DoPipe(pid, memory) =>
      PerformPipe(f, pid, memory, b);
    case DoDup2(pid, o, n) =>
      if pid in f.tables {
        var res := f.Dup2(pid, o, n);
        SameMadeKeeps(s, f.Now(), b.made);
      }
    case DoClose(pid, arg) =>
      if pid in f.tables {
        var res := f.CloseFd(pid, arg);
        SameMadeKeeps(s, f.Now(), b.made);
        if res != 0 && 0 <= Int8(arg) < MAX_OPEN_FILES { assert b.tables[pid][Int8(arg) := NONE] == b.tables[pid]; }
        assert f.tables == Step(b, op).tables;
      }
    case DoSpawn(pid, stdio) =>
      if pid !in f.tables {
        f.NewTask(pid, stdio);
        AttachedRecorded(s, f.Now(), b.made, stdio);
      }
    case DoFork(parent, child, stdio, memory) =>
      PerformFork(f, parent, child, stdio, memory, b);
    case DoExit(pid) =>
      if pid in f.tables {
        f.CleanFds(pid);
        SameMadeKeeps(s, f.Now(), b.made);
      }
    case DoReap(pid) =>
      if pid in f.tables {
        f.Destroy(pid);
        SameMadeKeeps(s, f.Now(), b.made);
      } else {
        assert b.tables - {pid} == b.tables;
      }
  }

  method PerformPipe(f: FdTables, pid: nat, memory: bool, ghost b: Book)
    requires Matches(f.Now(), b) && Sized(b)
    modifies f
    ensures Matches(f.Now(), Step(b, DoPipe(pid, memory)))
  {
    hide Inv, Recorded;
    ghost var s := f.Now();
    if pid !in f.tables { return; }
    ghost var row := b.tables[pid];
    var r, w := f.PipeCall(pid, memory);
    if r != NONE {
      LowestIs(row, FIRST_FREE, r);
      LowestIs(row, r + 1, w);
      InstallPipeRecorded(s, pid, r, w, b.made);
      PipeTables(s, pid, r, w, b.made);
    } else if memory {
      NoTwo(row);
    }
  }

  lemma PipeTables(s: Fds, pid: nat, r: nat, w: nat, made: seq<Kind>)
    requires pid in s.tables && r < |s.tables[pid]| && w < |s.tables[pid]| && Recorded(s, made)
    ensures InstallPipe(s, pid, r, w).tables == s.tables[pid := s.tables[pid][r := |made|][w := |made| + 1]]
  {
  }

  lemma NoTwo(row: seq<int>)
    requires |row| == MAX_OPEN_FILES && AtMostOneFree(row)
    ensures var r := Lowest(row, FIRST_FREE); r == MAX_OPEN_FILES || Lowest(row, r + 1) == MAX_OPEN_FILES
  {
  }

  // task_factory_fork: a task with its standard handles, which are closed again; then the parent's table, or nothing.
  method PerformFork(f: FdTables, parent: nat, child: nat, stdio: bool, memory: bool, ghost b: Book)
    requires Matches(f.Now(), b) && Sized(b)
    modifies f
    ensures Matches(f.Now(), Step(b, DoFork(parent, child, stdio, memory)))
  {
    hide Inv, Recorded, SameMade, Attached;
    ghost var s := f.Now();
    if parent !in f.tables || child in f.tables { return; }
    f.NewTask(child, stdio);
    ghost var t := f.Now();
    AttachedRecorded(s, t, b.made, stdio);
    if memory {
      f.ForkTable(parent, child);
    } else {
      f.CleanFds(child);
      ghost var u := f.Now();
      f.Destroy(child);
      SameMadeTrans(t, u, f.Now());
      assert f.tables == s.tables;
    }
    SameMadeKeeps(t, f.Now(), b.made + Std(stdio));
  }

  // After any sequence of calls from the start on, the kernel holds exactly what the slots say.
  method Run(ops: seq<Op>) returns (f: FdTables)
    ensures fresh(f) && f.Now() == Derive(After(ops)) && Inv(f.Now())
  {
    hide Inv, Step, Derive;
    f := new FdTables();
    for i := 0 to |ops|
      invariant fresh(f) && Matches(f.Now(), After(ops[..i]))
    {
      assert ops[..i + 1][..i] == ops[..i];
      Perform(f, ops[i], After(ops[..i]));
    }
    assert ops[..|ops|] == ops;
    MatchesIs(f.Now(), After(ops));
  }

  // ---------- What that means for handles and pipes ----------

  lemma NamedAt(tables: map<nat, seq<int>>, h: nat)
    ensures Named(tables, h) <==> exists pid, fd :: pid in tables && 0 <= fd < |tables[pid]| && tables[pid][fd] == h
  {
    if Named(tables, h) {
      var k :| k in Slots(tables, h);
      assert tables[k.0][k.1] == h;
    }
    if pid, fd :| pid in tables && 0 <= fd < |tables[pid]| && tables[pid][fd] == h { assert (pid, fd) in Slots(tables, h); }
  }

  // A call names no handle that was made before and is named no more, and forgets none that was made.
  lemma StepForgets(b: Book, op: Op, h: nat)
    requires Sized(b) && h < |b.made| && !Named(b.tables, h)
    ensures !Named(Step(b, op).tables, h)
  {
    var t := Step(b, op).tables;
    NamedAt(b.tables, h);
    NamedAt(t, h);
    hide Named;
    forall pid, fd | pid in t && 0 <= fd < |t[pid]| ensures t[pid][fd] != h {
      assert pid in b.tables && 0 <= fd < |b.tables[pid]| ==> b.tables[pid][fd] != h;
    }
  }

  lemma StepMade(b: Book, op: Op)
    requires Sized(b)
    ensures b.made <= Step(b, op).made
  {
  }

  lemma {:induction false} MadeGrows(ops: seq<Op>, more: seq<Op>)
    ensures After(ops).made <= After(ops + more).made
    decreases |more|
  {
    hide Step;
    if more == [] {
      assert ops + more == ops;
    } else {
      var n := |more| - 1;
      MadeGrows(ops, more[..n]);
      assert (ops + more)[..|ops| + n] == ops + more[..n];
      StepMade(After(ops + more[..n]), more[n]);
    }
  }

  lemma {:induction false} GoneForEver(ops: seq<Op>, more: seq<Op>, h: nat)
    requires h < |After(ops).made| && !Named(After(ops).tables, h)
    ensures !Named(After(ops + more).tables, h)
    decreases |more|
  {
    hide Step, Named;
    if more == [] {
      assert ops + more == ops;
    } else {
      var n := |more| - 1;
      GoneForEver(ops, more[..n], h);
      MadeGrows(ops, more[..n]);
      assert (ops + more)[..|ops| + n] == ops + more[..n];
      StepForgets(After(ops + more[..n]), more[n], h);
    }
  }

  // A handle, once made, stays closed exactly 0 times as long as some slot names it and exactly once from then on.
  lemma ClosedExactlyOnce(ops: seq<Op>, more: seq<Op>, h: nat)
    requires h < |After(ops).made|
    ensures var s, t := Derive(After(ops)), Derive(After(ops + more));
            && h < |s.closed| && h < |t.closed|
            && t.closed[h] == (if Named(t.tables, h) then 0 else 1) && s.closed[h] <= t.closed[h]
            && (h in t.handles <==> Named(t.tables, h))
            && (h in t.handles ==> h in s.handles && t.handles[h].kind == s.handles[h].kind)
  {
    MadeGrows(ops, more);
    if !Named(After(ops).tables, h) { GoneForEver(ops, more, h); }
    hide Named, After;
  }

  // A pipe, once made, is there for ever with the same two ends, and a flag of it is set exactly as long as some slot
  // names that end; a flag that is cleared stays cleared.
  lemma FlagsFollowNames(ops: seq<Op>, more: seq<Op>, p: nat)
    requires p in Derive(After(ops)).pipes
    ensures var s, t := Derive(After(ops)), Derive(After(ops + more));
            && p in t.pipes && t.pipes[p].reader == s.pipes[p].reader && t.pipes[p].writer == s.pipes[p].writer
            && (t.pipes[p].readOpen <==> Named(t.tables, t.pipes[p].reader))
            && (t.pipes[p].writeOpen <==> Named(t.tables, t.pipes[p].writer))
            && (t.pipes[p].readOpen ==> s.pipes[p].readOpen) && (t.pipes[p].writeOpen ==> s.pipes[p].writeOpen)
  {
    MadeGrows(ops, more);
    PipePair(ops, p);
    if !Named(After(ops).tables, p) { GoneForEver(ops, more, p); }
    if !Named(After(ops).tables, p + 1) { GoneForEver(ops, more, p + 1); }
    hide Named, After;
  }

  // The write end is made together with the read end.
  lemma {:induction false} PipePair(ops: seq<Op>, p: nat)
    requires p < |After(ops).made| && After(ops).made[p] == ReadEnd(p)
    ensures p + 1 < |After(ops).made| && After(ops).made[p + 1] == WriteEnd(p)
  {
    if ops != [] {
      var b := After(ops[..|ops| - 1]);
      StepMade(b, ops[|ops| - 1]);
      if p < |b.made| { PipePair(ops[..|ops| - 1], p); }
    }
  }

  // And a pipe call that finds two slots and memory does make one, with both flags set.
  lemma PipeMade(ops: seq<Op>, pid: nat, r: nat, w: nat)
    requires pid in After(ops).tables && TwoLowest(After(ops).tables[pid], r, w)
    ensures var t := Derive(After(ops + [DoPipe(pid, true)])); var p := |After(ops).made|;
            p in t.pipes && t.pipes[p].readOpen && t.pipes[p].writeOpen && t.tables[pid][r] == p && t.tables[pid][w] == p + 1
  {
    var b, op := After(ops), DoPipe(pid, true);
    assert (ops + [op])[..|ops|] == ops;
    LowestIs(b.tables[pid], FIRST_FREE, r);
    LowestIs(b.tables[pid], r + 1, w);
    var c := Step(b, op);
    assert After(ops + [op]) == c;
    NamedAt(c.tables, |b.made|);
    NamedAt(c.tables, |b.made| + 1);
    assert c.tables[pid][r] == |b.made| && c.tables[pid][w] == |b.made| + 1;
    hide Named, After;
  }

  // ---------- Slot by slot ----------

  ghost function SlotOf(b: Book, pid: nat, fd: nat): int
    requires Sized(b) && fd < 16
  {
    if pid in b.tables then b.tables[pid][fd] else -1
  }

  // fd is the n-th free slot, from 0, of those that may be handed out.
  ghost predicate FreeNth(row: seq<int>, fd: nat, n: nat)
    requires |row| == 16
  {
    && 3 <= fd < 16 && row[fd] == -1
    && (n == 0 ==> forall k :: 3 <= k < fd ==> row[k] != -1)
    && (n == 1 ==> exists r :: FirstBelow(row, r, fd))
  }

  ghost predicate FirstBelow(row: seq<int>, r: int, fd: nat)
    requires |row| == 16
  {
    3 <= r < fd < 16 && row[r] == -1 && forall k :: 3 <= k < fd && k != r ==> row[k] != -1
  }

  // What a slot names after a call, told slot by slot.
  ghost function SlotAfter(b: Book, op: Op, pid: nat, fd: nat): int
    requires Sized(b) && fd < 16
  {
    var was, n := SlotOf(b, pid, fd), |b.made|;
    match op
    case DoOpen(p, found) => if p == pid && pid in b.tables && found && FreeNth(b.tables[pid], fd, 0) then n else was
    case DoPipe(p, memory) =>
      if p != pid || pid !in b.tables || !memory || !(exists r, w :: TwoLowest(b.tables[pid], r, w)) then was
      else if FreeNth(b.tables[pid], fd, 0) then n
      else if FreeNth(b.tables[pid], fd, 1) then n + 1
      else was
    case DoDup2(p, from, to) =>
      if p == pid && pid in b.tables && to == fd && 0 <= from < 16 && b.tables[pid][from] != -1 then b.tables[pid][from] else was
    case DoClose(p, arg) => if p == pid && arg % 256 == fd then -1 else was
    case DoSpawn(p, stdio) => if p != pid || pid in b.tables then was else if stdio && fd < 3 then n + fd else -1
    case DoFork(parent, child, _, memory) => if child == pid && pid !in b.tables && memory then SlotOf(b, parent, fd) else was
    case DoExit(p) => if p == pid then -1 else was
    case DoReap(p) => if p == pid then -1 else was
  }

  lemma SlotsAfter(b: Book, op: Op, pid: nat, fd: nat)
    requires Sized(b) && fd < 16
    ensures Sized(Step(b, op)) && SlotOf(Step(b, op), pid, fd) == SlotAfter(b, op, pid, fd)
  {
    match op
    case DoOpen(p, found) => if pid in b.tables { FirstIs(b.tables[pid], fd); }
    case DoPipe(p, memory) => PipeSlots(b, p, memory, pid, fd);
    case _ =>
  }

  lemma FirstIs(row: seq<int>, fd: nat)
    requires |row| == 16 && fd < 16
    ensures FreeNth(row, fd, 0) <==> Lowest(row, 3) == fd
  {
    if FreeNth(row, fd, 0) { LowestIs(row, 3, fd); }
  }

  lemma PipeSlots(b: Book, p: nat, memory: bool, pid: nat, fd: nat)
    requires Sized(b) && fd < 16
    ensures Sized(Step(b, DoPipe(p, memory))) && SlotOf(Step(b, DoPipe(p, memory)), pid, fd) == SlotAfter(b, DoPipe(p, memory), pid, fd)
  {
    if p == pid && pid in b.tables {
      var row := b.tables[pid];
      var r := Lowest(row, 3);
      var w := if r < 16 then Lowest(row, r + 1) else 16;
      FirstIs(row, fd);
      LowestTwo(row, r, w);
      if r < 16 && w < 16 { SecondIs(row, r, w, fd); }
      hide FreeNth, Lowest;
    }
  }

  lemma LowestTwo(row: seq<int>, r: nat, w: nat)
    requires |row| == 16 && r == Lowest(row, 3) && w == if r < 16 then Lowest(row, r + 1) else 16
    ensures (exists a, c :: TwoLowest(row, a, c)) <==> w < 16
  {
    if w < 16 { assert TwoLowest(row, r, w); }
    if a, c :| TwoLowest(row, a, c) {
      LowestIs(row, 3, a);
      LowestIs(row, a + 1, c);
    }
  }

  lemma SecondIs(row: seq<int>, r: nat, w: nat, fd: nat)
    requires |row| == 16 && r == Lowest(row, 3) < 16 && w == Lowest(row, r + 1) < 16 && fd < 16
    ensures FreeNth(row, fd, 1) <==> fd == w
  {
    assert FirstBelow(row, r, w);
    if FreeNth(row, fd, 1) {
      var a :| FirstBelow(row, a, fd);
      assert a == r;
      LowestIs(row, r + 1, fd);
    }
  }

  // Which tables there are, and which handles a call makes.
  lemma TablesAfter(b: Book, op: Op)
    requires Sized(b)
    ensures Step(b, op).tables.Keys == (match op
                                        case DoSpawn(pid, _) => b.tables.Keys + {pid}
                                        case DoFork(parent, child, _, memory) => if parent in b.tables && memory then b.tables.Keys + {child} else b.tables.Keys
                                        case DoReap(pid) => b.tables.Keys - {pid}
                                        case _ => b.tables.Keys)
    ensures var n := |b.made|;
            Step(b, op).made == b.made + (match op
                                          case DoOpen(pid, found) => if pid in b.tables && found && (exists fd: nat :: fd < 16 && FreeNth(b.tables[pid], fd, 0)) then [Plain] else []
                                          case DoPipe(pid, memory) =>
                                            if pid in b.tables && memory && (exists r, w :: TwoLowest(b.tables[pid], r, w)) then [ReadEnd(n), WriteEnd(n)] else []
                                          case DoSpawn(pid, stdio) => if pid !in b.tables && stdio then [Plain, Plain, Plain] else []
                                          case DoFork(parent, child, stdio, _) => if parent in b.tables && child !in b.tables && stdio then [Plain, Plain, Plain] else []
                                          case _ => [])
  {
    assert b.made + [] == b.made;
    match op
    case DoOpen(pid, found) =>
      if pid in b.tables {
        var row := b.tables[pid];
        if Lowest(row, 3) < 16 { FirstIs(row, Lowest(row, 3)); }
        if fd: nat :| fd < 16 && FreeNth(row, fd, 0) { FirstIs(row, fd); }
      }
    case DoPipe(pid, memory) =>
      if pid in b.tables {
        var r := Lowest(b.tables[pid], 3);
        LowestTwo(b.tables[pid], r, if r < 16 then Lowest(b.tables[pid], r + 1) else 16);
      }
    case _ =>
  }
}
