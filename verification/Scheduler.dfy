/**
 The round-robin scheduler (src/sched/sched.c) as a machine on values.

 Tasks hang in a ring of next pointers.  `State` gives the ring as the sequence of tasks that come after
 the current one, the current task last, and `Step` is what each of the scheduler's operations does to it.
 Over every run the ring stays one cycle through the kernel task and the current one, the dead never run
 again, and a ready task waits for no more turns than there are tasks before it.
 */
module Scheduler {

  datatype Status = Ready | Waiting | Zombie | Sleeping

  const KERNEL: nat := 0
  const NOBODY: int := -1

  datatype Task = Task(status: Status, parent: int)

  // pending holds the tasks that are created and not yet registered, each with its creator.
  datatype State = State(cyc: seq<nat>, info: map<nat, Task>, pending: map<nat, nat>, nextPid: nat)

  // `owner` says that the dying task owns its window; `due` are the sleepers whose time has come.
  datatype Event =
    | Yield
    | Block
    | Sleep
    | Wake(pid: int)
    | Tick(due: set<nat>)
    | Exit(owner: bool)
    | Kill(pid: int, owner: bool)
    | Create
    | Register(child: nat)
    | Unlink(child: nat)

  function Curr(s: State): nat
    requires s.cyc != []
  {
    s.cyc[|s.cyc| - 1]
  }

  // ---------- The invariant ----------

  ghost predicate Distinct(s: seq<nat>) {
    forall i, j :: 0 <= i < j < |s| ==> s[i] != s[j]
  }

  // One cycle through the kernel task, and exactly its members are known.
  ghost predicate RingOk(cyc: seq<nat>, info: map<nat, Task>) {
    cyc != [] && Distinct(cyc) && KERNEL in cyc && forall p :: p in info <==> p in cyc
  }

  predicate ParentOk(info: map<nat, Task>, p: nat)
    requires p in info
  {
    var q := info[p].parent;
    q == NOBODY || (q >= 0 && q in info && info[q].status != Zombie)
  }

  // Every parent is a ring member and no zombie.
  ghost predicate ParentsOk(info: map<nat, Task>) {
    forall p :: p in info ==> ParentOk(info, p)
  }

  // The kernel task is ready, and the current one is no zombie.
  ghost predicate Running(info: map<nat, Task>, curr: nat) {
    KERNEL in info && info[KERNEL].status == Ready && curr in info && info[curr].status != Zombie
  }

  // A number is handed out once.
  ghost predicate PidsOk(s: State) {
    && (forall p :: p in s.info ==> p < s.nextPid && p !in s.pending)
    && (forall p :: p in s.pending ==> p < s.nextPid)
  }

  ghost predicate Inv(s: State) {
    RingOk(s.cyc, s.info) && ParentsOk(s.info) && Running(s.info, Curr(s)) && PidsOk(s)
  }

  // ---------- Choosing ----------

  // The place of the first ready task, or the length.
  function FirstReady(cyc: seq<nat>, info: map<nat, Task>): (j: nat)
    requires forall p :: p in cyc ==> p in info
    ensures j <= |cyc|
    ensures j < |cyc| ==> info[cyc[j]].status == Ready
    ensures forall i :: 0 <= i < j ==> info[cyc[i]].status != Ready
  {
    if cyc == [] then 0
    else if info[cyc[0]].status == Ready then 0
    else
      assert forall p :: p in cyc[1..] ==> p in cyc;
      1 + FirstReady(cyc[1..], info)
  }

  // The ring with the task at place j current.
  function Rotate(cyc: seq<nat>, j: nat): (r: seq<nat>)
    requires j < |cyc|
    ensures |r| == |cyc| && r[|r| - 1] == cyc[j]
  {
    cyc[j + 1..] + cyc[..j + 1]
  }

  lemma RotateMembers(cyc: seq<nat>, j: nat)
    requires j < |cyc| && Distinct(cyc)
    ensures Distinct(Rotate(cyc, j)) && forall p :: p in Rotate(cyc, j) <==> p in cyc
  {
    var r := Rotate(cyc, j);
    forall p ensures p in r <==> p in cyc {
      assert cyc == cyc[..j + 1] + cyc[j + 1..];
    }
  }

  lemma RotateRing(cyc: seq<nat>, j: nat, info: map<nat, Task>)
    requires RingOk(cyc, info) && j < |cyc|
    ensures RingOk(Rotate(cyc, j), info)
  {
    RotateMembers(cyc, j);
  }

  lemma ReadyExists(cyc: seq<nat>, info: map<nat, Task>)
    requires KERNEL in cyc && (forall p :: p in cyc ==> p in info) && info[KERNEL].status == Ready
    ensures FirstReady(cyc, info) < |cyc|
  {
    var i :| 0 <= i < |cyc| && cyc[i] == KERNEL;
  }

  // schedule(): the next ready task after the current one, which may be the current one again.  The kernel
  // task is ready, so there is one.
  ghost function Switch(s: State): (t: State)
    requires RingOk(s.cyc, s.info) && KERNEL in s.info && s.info[KERNEL].status == Ready
  {
    ReadyExists(s.cyc, s.info);
    s.(cyc := Rotate(s.cyc, FirstReady(s.cyc, s.info)))
  }

  lemma SwitchKeeps(s: State)
    requires RingOk(s.cyc, s.info) && ParentsOk(s.info) && PidsOk(s) && KERNEL in s.info && s.info[KERNEL].status == Ready
    ensures Inv(Switch(s)) && s.info[Curr(Switch(s))].status == Ready
  {
    hide ParentsOk, PidsOk;
    ReadyExists(s.cyc, s.info);
    RotateRing(s.cyc, FirstReady(s.cyc, s.info), s.info);
    SamePids(s, Switch(s));
  }

  lemma SamePids(s: State, t: State)
    requires PidsOk(s) && s.pending == t.pending && s.nextPid == t.nextPid
    requires forall p :: p in t.info ==> p in s.info
    ensures PidsOk(t)
  {
  }

  // ---------- Changes of status ----------

  function SetStatus(info: map<nat, Task>, p: nat, st: Status): map<nat, Task>
    requires p in info
  {
    info[p := info[p].(status := st)]
  }

  lemma SetStatusKeeps(info: map<nat, Task>, p: nat, st: Status)
    requires ParentsOk(info) && p in info && st != Zombie
    ensures ParentsOk(SetStatus(info, p, st))
  {
    var t := SetStatus(info, p, st);
    forall q | q in t ensures ParentOk(t, q) { assert ParentOk(info, q); }
  }

  // sched_wake_pid.
  function Woken(info: map<nat, Task>, pid: int): map<nat, Task> {
    if pid >= 0 && pid in info && info[pid].status != Zombie then SetStatus(info, pid, Ready) else info
  }

  lemma WokenKeeps(info: map<nat, Task>, pid: int)
    requires ParentsOk(info)
    ensures ParentsOk(Woken(info, pid))
  {
    if pid >= 0 && pid in info && info[pid].status != Zombie { SetStatusKeeps(info, pid, Ready); }
  }

  // sched_check_sleeping_tasks.
  function Ticked(info: map<nat, Task>, due: set<nat>): (r: map<nat, Task>) {
    map p | p in info :: if info[p].status == Sleeping && p in due then info[p].(status := Ready) else info[p]
  }

  lemma TickedKeeps(info: map<nat, Task>, due: set<nat>)
    requires ParentsOk(info)
    ensures ParentsOk(Ticked(info, due))
  {
    var t := Ticked(info, due);
    forall q | q in t ensures ParentOk(t, q) { assert ParentOk(info, q); }
  }

  // ---------- Dying ----------

  // sched_reparent_children_locked: the kernel task adopts; the children of a window's owner are signalled
  // and made ready.
  function Adopted(t: Task, p: nat, dying: nat, owner: bool): Task {
    if t.parent == dying then
      Task(if owner && p != KERNEL && t.status != Zombie then Ready else t.status, KERNEL)
    else t
  }

  function Reparented(info: map<nat, Task>, dying: nat, owner: bool): (r: map<nat, Task>)
    ensures r.Keys == info.Keys
  {
    map p | p in info :: Adopted(info[p], p, dying, owner)
  }

  // The dying task becomes a zombie, and its parent is made ready.
  function Buried(info: map<nat, Task>, dying: nat, owner: bool): map<nat, Task>
    requires dying in info
  {
    var r := Reparented(info, dying, owner);
    Woken(SetStatus(r, dying, Zombie), r[dying].parent)
  }

  lemma BuriedAt(info: map<nat, Task>, dying: nat, owner: bool, p: nat)
    requires dying in info && p in info
    ensures var b := Buried(info, dying, owner);
            && p in b
            && b[p].parent == (if info[p].parent == dying then KERNEL else info[p].parent)
            && (b[p].status == Zombie <==> p == dying || info[p].status == Zombie)
            && (p != dying && info[p].status == Ready ==> b[p].status == Ready)
  {
    var r := Reparented(info, dying, owner);
    assert r[p] == Adopted(info[p], p, dying, owner);
  }

  lemma BuriedKeys(info: map<nat, Task>, dying: nat, owner: bool)
    requires dying in info
    ensures forall p :: p in Buried(info, dying, owner) <==> p in info
  {
  }

  lemma BuriedKeeps(info: map<nat, Task>, dying: nat, owner: bool)
    requires ParentsOk(info) && dying in info && dying != KERNEL && KERNEL in info && info[KERNEL].status == Ready
    ensures ParentsOk(Buried(info, dying, owner))
  {
    hide Buried;
    var b := Buried(info, dying, owner);
    BuriedKeys(info, dying, owner);
    forall p | p in b ensures ParentOk(b, p) {
      assert ParentOk(info, p);
      BuriedAt(info, dying, owner, p);
      BuriedAt(info, dying, owner, KERNEL);
      var q := b[p].parent;
      if q != NOBODY { BuriedAt(info, dying, owner, q); }
    }
  }

  // sched_kill of another task that is no zombie.
  ghost predicate Killable(s: State, pid: int)
    requires s.cyc != []
  {
    pid > 0 && pid in s.info && pid != Curr(s) && s.info[pid].status != Zombie
  }

  // sched_exit chooses the next task while the dying one still has its old status, starting behind it and
  // never coming back to it: the kernel task is on the way.
  ghost function Left(s: State, owner: bool): (t: State)
    requires RingOk(s.cyc, s.info) && Running(s.info, Curr(s)) && Curr(s) != KERNEL
  {
    var info := Reparented(s.info, Curr(s), owner);
    var others := s.cyc[..|s.cyc| - 1];
    KernelAmong(s, owner);
    ReadyExists(others, info);
    s.(cyc := Rotate(s.cyc, FirstReady(others, info)), info := Buried(s.info, Curr(s), owner))
  }

  lemma KernelAmong(s: State, owner: bool)
    requires RingOk(s.cyc, s.info) && Running(s.info, Curr(s)) && Curr(s) != KERNEL
    ensures KERNEL in s.cyc[..|s.cyc| - 1]
    ensures Reparented(s.info, Curr(s), owner)[KERNEL].status == Ready
  {
    var i :| 0 <= i < |s.cyc| && s.cyc[i] == KERNEL;
    assert s.cyc[..|s.cyc| - 1][i] == KERNEL;
    assert Reparented(s.info, Curr(s), owner)[KERNEL] == Adopted(s.info[KERNEL], KERNEL, Curr(s), owner);
  }

  lemma SameKeysRing(cyc: seq<nat>, info: map<nat, Task>, to: map<nat, Task>)
    requires RingOk(cyc, info) && forall p :: p in to <==> p in info
    ensures RingOk(cyc, to)
  {
  }

  // The one chosen by sched_exit: another task, and the first that is ready.
  lemma LeftPlace(s: State, owner: bool) returns (j: nat)
    requires RingOk(s.cyc, s.info) && Running(s.info, Curr(s)) && Curr(s) != KERNEL
    ensures j < |s.cyc| - 1 && s.cyc[j] in s.info && s.cyc[j] != Curr(s)
    ensures Left(s, owner) == s.(cyc := Rotate(s.cyc, j), info := Buried(s.info, Curr(s), owner))
    ensures Adopted(s.info[s.cyc[j]], s.cyc[j], Curr(s), owner).status == Ready
    ensures Unready(s.cyc, s.info, j)
  {
    hide Rotate, Buried;
    var info := Reparented(s.info, Curr(s), owner);
    var others := s.cyc[..|s.cyc| - 1];
    KernelAmong(s, owner);
    ReadyExists(others, info);
    j := FirstReady(others, info);
    assert others[j] == s.cyc[j];
    assert info[s.cyc[j]] == Adopted(s.info[s.cyc[j]], s.cyc[j], Curr(s), owner);
    UnreadyBefore(s.cyc, s.info, Curr(s), owner, j);
  }

  ghost predicate Unready(cyc: seq<nat>, info: map<nat, Task>, j: nat) {
    forall i :: 0 <= i < j && i < |cyc| && cyc[i] in info ==> info[cyc[i]].status != Ready
  }

  lemma UnreadyBefore(cyc: seq<nat>, info: map<nat, Task>, dying: nat, owner: bool, j: nat)
    requires j < |cyc| && (forall p :: p in cyc ==> p in info)
    requires j == FirstReady(cyc[..|cyc| - 1], Reparented(info, dying, owner))
    ensures Unready(cyc, info, j)
  {
    forall i | 0 <= i < j && cyc[i] in info ensures info[cyc[i]].status != Ready {
      assert cyc[..|cyc| - 1][i] == cyc[i];
      assert Reparented(info, dying, owner)[cyc[i]] == Adopted(info[cyc[i]], cyc[i], dying, owner);
    }
  }

  lemma LeftKeeps(s: State, owner: bool)
    requires Inv(s) && Curr(s) != KERNEL
    ensures Inv(Left(s, owner)) && Left(s, owner).info[Curr(s)].status == Zombie
  {
    hide RingOk, ParentsOk, PidsOk, Buried, Left;
    var j := LeftPlace(s, owner);
    var t := Left(s, owner);
    BuriedKeys(s.info, Curr(s), owner);
    BuriedKeeps(s.info, Curr(s), owner);
    SameKeysRing(s.cyc, s.info, t.info);
    RotateRing(s.cyc, j, t.info);
    SamePids(s, t);
    BuriedAt(s.info, Curr(s), owner, KERNEL);
    BuriedAt(s.info, Curr(s), owner, Curr(s));
    BuriedAt(s.info, Curr(s), owner, s.cyc[j]);
  }

  // ---------- Joining and leaving ----------

  // The place behind the kernel task.
  ghost function Insert(cyc: seq<nat>, k: nat, p: nat): seq<nat>
    requires k < |cyc|
  {
    if k == |cyc| - 1 then [p] + cyc else cyc[..k + 1] + [p] + cyc[k + 1..]
  }

  ghost function PlaceOf(cyc: seq<nat>, p: nat): (k: nat)
    requires p in cyc
    ensures k < |cyc| && cyc[k] == p
  {
    var k :| 0 <= k < |cyc| && cyc[k] == p;
    k
  }

  lemma InsertRing(cyc: seq<nat>, k: nat, p: nat, info: map<nat, Task>, x: Task)
    requires k < |cyc| && RingOk(cyc, info) && p !in info
    ensures var r := Insert(cyc, k, p);
            RingOk(r, info[p := x]) && |r| == |cyc| + 1 && r[|r| - 1] == cyc[|cyc| - 1]
  {
    var r := Insert(cyc, k, p);
    forall q ensures q in r <==> q == p || q in cyc {
      assert cyc == cyc[..k + 1] + cyc[k + 1..];
    }
  }

  // sched_register_task, by the task that created the new one.
  ghost function Registered(s: State, pid: nat): (t: State)
    requires KERNEL in s.cyc
  {
    State(Insert(s.cyc, PlaceOf(s.cyc, KERNEL), pid), s.info[pid := Task(Ready, Curr(s))], s.pending - {pid}, s.nextPid)
  }

  lemma RegisteredKeeps(s: State, pid: nat)
    requires Inv(s) && pid in s.pending
    ensures Inv(Registered(s, pid))
  {
    var t := Registered(s, pid);
    InsertRing(s.cyc, PlaceOf(s.cyc, KERNEL), pid, s.info, Task(Ready, Curr(s)));
    AddedParent(s.info, pid, Curr(s));
    AddedPid(s, pid);
  }

  lemma AddedParent(info: map<nat, Task>, pid: nat, parent: nat)
    requires ParentsOk(info) && pid !in info && parent in info && info[parent].status != Zombie
    ensures ParentsOk(info[pid := Task(Ready, parent)])
  {
    var t := info[pid := Task(Ready, parent)];
    forall p | p in t ensures ParentOk(t, p) { if p != pid { assert ParentOk(info, p); } }
  }

  lemma AddedPid(s: State, pid: nat)
    requires PidsOk(s) && pid in s.pending && KERNEL in s.cyc
    ensures PidsOk(Registered(s, pid))
  {
  }

  // A zombie leaves the ring: sched_unlink_task, and sched_reap_zombies.
  ghost function Removed(s: State, pid: nat): (t: State)
    requires pid in s.cyc
  {
    s.(cyc := Cut(s.cyc, PlaceOf(s.cyc, pid)), info := s.info - {pid})
  }

  ghost function Cut(cyc: seq<nat>, j: nat): seq<nat>
    requires j < |cyc|
  {
    cyc[..j] + cyc[j + 1..]
  }

  lemma CutRing(cyc: seq<nat>, j: nat, info: map<nat, Task>)
    requires j < |cyc| - 1 && RingOk(cyc, info) && cyc[j] != KERNEL
    ensures RingOk(Cut(cyc, j), info - {cyc[j]})
  {
    var t, z := Cut(cyc, j), cyc[j];
    assert Distinct(t);
    forall p ensures p in t <==> p in cyc && p != z {
      if p in cyc && p != z {
        var i :| 0 <= i < |cyc| && cyc[i] == p;
        assert t[if i < j then i else i - 1] == p;
      }
      if p in t {
        var i :| 0 <= i < |t| && t[i] == p;
        assert cyc[if i < j then i else i + 1] == p;
      }
    }
  }

  lemma CutParents(info: map<nat, Task>, z: nat)
    requires ParentsOk(info) && z in info && info[z].status == Zombie
    ensures ParentsOk(info - {z})
  {
    var t := info - {z};
    forall p | p in t ensures ParentOk(t, p) { assert ParentOk(info, p); }
  }

  lemma RemovedKeeps(s: State, pid: nat)
    requires Inv(s) && pid in s.info && s.info[pid].status == Zombie
    ensures Inv(Removed(s, pid))
  {
    hide ParentsOk, PidsOk;
    var t, j := Removed(s, pid), PlaceOf(s.cyc, pid);
    assert j < |s.cyc| - 1;
    CutRing(s.cyc, j, s.info);
    CutParents(s.info, pid);
    SamePids(s, t);
    assert Curr(t) == Curr(s);
  }

  // ---------- The machine ----------

  // What the operations' callers see to: the kernel task never blocks, a task registers what it created,
  // and only a zombie is unlinked.
  ghost predicate Enabled(s: State, e: Event)
    requires Inv(s)
  {
    match e
    case Block => Curr(s) != KERNEL
    case Sleep => Curr(s) != KERNEL
    case Register(pid) => pid in s.pending && s.pending[pid] == Curr(s)
    case Unlink(pid) => pid in s.info && s.info[pid].status == Zombie
    case _ => true
  }

  ghost function Halted(s: State, st: Status): State
    requires s.cyc != [] && Curr(s) in s.info
  {
    s.(info := SetStatus(s.info, Curr(s), st))
  }

  ghost function Step(s: State, e: Event): (t: State)
    requires Inv(s) && Enabled(s, e)
  {
    match e
    case Yield => Switch(s)
    case Block => Switch(Halted(s, Waiting))
    case Sleep => Switch(Halted(s, Sleeping))
    case Wake(pid) => s.(info := Woken(s.info, pid))
    case Tick(due) => s.(info := Ticked(s.info, due))
    case Exit(owner) => if Curr(s) == KERNEL then s else Left(s, owner)
    case Kill(pid, owner) =>
      if pid > 0 && pid == Curr(s) then Left(s, owner)
      else if Killable(s, pid) then s.(info := Buried(s.info, pid, owner))
      else s
    case Create => s.(pending := s.pending[s.nextPid := Curr(s)], nextPid := s.nextPid + 1)
    case Register(pid) => Registered(s, pid)
    case Unlink(pid) => Removed(s, pid)
  }

  lemma InfoKeeps(s: State, t: State)
    requires Inv(s) && ParentsOk(t.info) && t == s.(info := t.info)
    requires forall p :: p in t.info <==> p in s.info
    requires t.info[KERNEL].status == Ready && t.info[Curr(s)].status != Zombie
    ensures Inv(t)
  {
    hide ParentsOk;
    SameKeysRing(s.cyc, s.info, t.info);
    SamePids(s, t);
  }

  lemma HaltedKeeps(s: State, st: Status)
    requires Inv(s) && Curr(s) != KERNEL && st != Zombie
    ensures Inv(Halted(s, st))
  {
    hide ParentsOk, PidsOk;
    SetStatusKeeps(s.info, Curr(s), st);
    InfoKeeps(s, Halted(s, st));
  }

  lemma KillKeeps(s: State, pid: nat, owner: bool)
    requires Inv(s) && Killable(s, pid)
    ensures Inv(s.(info := Buried(s.info, pid, owner)))
  {
    hide ParentsOk, PidsOk, Buried;
    BuriedKeeps(s.info, pid, owner);
    BuriedKeys(s.info, pid, owner);
    BuriedAt(s.info, pid, owner, KERNEL);
    BuriedAt(s.info, pid, owner, Curr(s));
    InfoKeeps(s, s.(info := Buried(s.info, pid, owner)));
  }

  lemma StepKeeps(s: State, e: Event)
    requires Inv(s) && Enabled(s, e)
    ensures Inv(Step(s, e))
  {
    hide ParentsOk, PidsOk, Left, Registered, Removed, Buried, Switch, Rotate;
    match e
    case Yield => SwitchKeeps(s);
    case Block => HaltedKeeps(s, Waiting); SwitchKeeps(Halted(s, Waiting));
    case Sleep => HaltedKeeps(s, Sleeping); SwitchKeeps(Halted(s, Sleeping));
    case Wake(pid) => WokenKeeps(s.info, pid); InfoKeeps(s, Step(s, e));
    case Tick(due) => TickedKeeps(s.info, due); InfoKeeps(s, Step(s, e));
    case Exit(owner) => if Curr(s) != KERNEL { LeftKeeps(s, owner); }
    case Kill(pid, owner) =>
      if pid > 0 && pid == Curr(s) { LeftKeeps(s, owner); }
      else if Killable(s, pid) { KillKeeps(s, pid, owner); }
    case Create => CreateKeeps(s);
    case Register(pid) => RegisteredKeeps(s, pid);
    case Unlink(pid) => RemovedKeeps(s, pid);
  }

  lemma CreateKeeps(s: State)
    requires Inv(s)
    ensures Inv(s.(pending := s.pending[s.nextPid := Curr(s)], nextPid := s.nextPid + 1))
  {
  }

  // ---------- Whole runs ----------

  ghost predicate StepTo(s: State, e: Event, t: State) {
    Inv(s) && Enabled(s, e) && t == Step(s, e)
  }

  ghost predicate IsRun(ss: seq<State>, es: seq<Event>) {
    |ss| == |es| + 1 && Inv(ss[0]) && forall i :: 0 <= i < |es| ==> StepTo(ss[i], es[i], ss[i + 1])
  }

  // In every state of every run the ring is one cycle through the kernel task and the current one, the
  // current task is alive, and every parent is a living member of the ring.
  lemma {:induction false} RunKeeps(ss: seq<State>, es: seq<Event>, i: nat)
    requires IsRun(ss, es) && i < |ss|
    ensures Inv(ss[i])
  {
    if i > 0 {
      RunKeeps(ss, es, i - 1);
      assert StepTo(ss[i - 1], es[i - 1], ss[i]);
      StepKeeps(ss[i - 1], es[i - 1]);
    }
  }

  // A task that died: a zombie, or gone.
  ghost predicate Dead(s: State, p: nat) {
    p < s.nextPid && p !in s.pending && (p in s.info ==> s.info[p].status == Zombie)
  }

  lemma DeadStays(s: State, e: Event, p: nat)
    requires Inv(s) && Enabled(s, e) && Dead(s, p)
    ensures Dead(Step(s, e), p)
  {
    hide ParentsOk, PidsOk, Switch, Rotate, Left, Buried;
    match e
    case Yield => SwitchInfo(s);
    case Block => HaltedKeeps(s, Waiting); SwitchInfo(Halted(s, Waiting));
    case Sleep => HaltedKeeps(s, Sleeping); SwitchInfo(Halted(s, Sleeping));
    case Wake(pid) =>
    case Tick(due) =>
    case Exit(owner) => if Curr(s) != KERNEL { LeftDead(s, owner, p); }
    case Kill(pid, owner) =>
      if pid > 0 && pid == Curr(s) { LeftDead(s, owner, p); }
      else if Killable(s, pid) { BuriedDead(s.info, pid, owner, p); }
    case Create =>
    case Register(child) =>
    case Unlink(child) =>
  }

  lemma SwitchInfo(s: State)
    requires RingOk(s.cyc, s.info) && KERNEL in s.info && s.info[KERNEL].status == Ready
    ensures Switch(s) == s.(cyc := Switch(s).cyc)
  {
  }

  lemma BuriedDead(info: map<nat, Task>, dying: nat, owner: bool, p: nat)
    requires dying in info && (p in info ==> info[p].status == Zombie)
    ensures p in Buried(info, dying, owner) ==> Buried(info, dying, owner)[p].status == Zombie
  {
    hide Buried;
    BuriedKeys(info, dying, owner);
    if p in info { BuriedAt(info, dying, owner, p); }
  }

  lemma LeftDead(s: State, owner: bool, p: nat)
    requires Inv(s) && Curr(s) != KERNEL && Dead(s, p)
    ensures Dead(Left(s, owner), p)
  {
    BuriedDead(s.info, Curr(s), owner, p);
  }

  // A dead task is never current again, whatever the scheduler goes on to do.
  lemma {:induction false} DeadNeverRuns(ss: seq<State>, es: seq<Event>, i: nat, j: nat, p: nat)
    requires IsRun(ss, es) && i <= j < |ss| && Dead(ss[i], p)
    ensures Dead(ss[j], p) && ss[j].cyc != [] && Curr(ss[j]) != p
  {
    hide Step, Enabled, ParentsOk, PidsOk;
    RunKeeps(ss, es, j);
    if i < j {
      DeadNeverRuns(ss, es, i, j - 1, p);
      RunKeeps(ss, es, j - 1);
      assert StepTo(ss[j - 1], es[j - 1], ss[j]);
      DeadStays(ss[j - 1], es[j - 1], p);
    }
  }

  // ---------- Fairness ----------

  // How many places ahead of the current task p is; the current task itself is a whole round ahead.
  ghost function Distance(cyc: seq<nat>, p: nat): (d: nat)
    requires p in cyc
    ensures 1 <= d <= |cyc|
  {
    PlaceOf(cyc, p) + 1
  }

  ghost predicate IsReady(s: State, p: nat) {
    p in s.info && p in s.cyc && s.info[p].status == Ready
  }

  // The calls that choose a next task.
  ghost predicate Calls(s: State, e: Event)
    requires s.cyc != []
  {
    e.Yield? || e.Block? || e.Sleep? || (e.Exit? && Curr(s) != KERNEL) || (e.Kill? && e.pid > 0 && e.pid == Curr(s))
  }

  lemma PlaceIs(cyc: seq<nat>, p: nat, k: nat)
    requires Distinct(cyc) && k < |cyc| && cyc[k] == p
    ensures p in cyc && PlaceOf(cyc, p) == k
  {
  }

  // Choosing the first ready task either chooses p or moves p nearer.
  lemma RotateNearer(cyc: seq<nat>, j: nat, p: nat)
    requires Distinct(cyc) && p in cyc && j <= PlaceOf(cyc, p)
    ensures p in Rotate(cyc, j)
    ensures Rotate(cyc, j)[|cyc| - 1] == p || Distance(Rotate(cyc, j), p) < Distance(cyc, p)
  {
    var r, k := Rotate(cyc, j), PlaceOf(cyc, p);
    RotateMembers(cyc, j);
    if j < k {
      assert r[k - j - 1] == p;
      PlaceIs(r, p, k - j - 1);
    }
  }

  lemma SwitchNearer(s: State, p: nat)
    requires RingOk(s.cyc, s.info) && KERNEL in s.info && s.info[KERNEL].status == Ready && IsReady(s, p)
    ensures var t := Switch(s).cyc;
            p in t && t != [] && (t[|t| - 1] == p || Distance(t, p) < Distance(s.cyc, p))
  {
    ReadyExists(s.cyc, s.info);
    RotateNearer(s.cyc, FirstReady(s.cyc, s.info), p);
  }

  lemma LeftNearer(s: State, owner: bool, p: nat)
    requires Inv(s) && Curr(s) != KERNEL && IsReady(s, p) && p != Curr(s)
    ensures var t := Left(s, owner).cyc;
            p in t && t != [] && (t[|t| - 1] == p || Distance(t, p) < Distance(s.cyc, p))
  {
    hide ParentsOk, PidsOk, Left, Buried;
    var j := LeftPlace(s, owner);
    RotateNearer(s.cyc, j, p);
  }

  lemma InsertFurther(cyc: seq<nat>, k: nat, q: nat, p: nat)
    requires Distinct(cyc) && k < |cyc| && q !in cyc && p in cyc && Distinct(Insert(cyc, k, q))
    ensures p in Insert(cyc, k, q) && Distance(Insert(cyc, k, q), p) <= Distance(cyc, p) + 1
  {
    var r, i := Insert(cyc, k, q), PlaceOf(cyc, p);
    var i' := if k == |cyc| - 1 || i > k then i + 1 else i;
    assert r[i'] == p;
    PlaceIs(r, p, i');
  }

  lemma CutNearer(cyc: seq<nat>, j: nat, p: nat)
    requires Distinct(cyc) && j < |cyc| && p in cyc && p != cyc[j]
    ensures p in Cut(cyc, j) && Distance(Cut(cyc, j), p) <= Distance(cyc, p)
  {
    var r, i := Cut(cyc, j), PlaceOf(cyc, p);
    var i' := if i < j then i else i - 1;
    assert Distinct(r) && r[i'] == p;
    PlaceIs(r, p, i');
  }

  // One step, for a task that is ready before and after.
  lemma StepNearer(s: State, e: Event, p: nat)
    requires Inv(s) && Enabled(s, e) && IsReady(s, p) && IsReady(Step(s, e), p)
    ensures var t := Step(s, e).cyc;
            t[|t| - 1] == p || Distance(t, p) + (if Calls(s, e) then 1 else 0) <= Distance(s.cyc, p) + (if e.Register? then 1 else 0)
  {
    hide ParentsOk, PidsOk, Switch, Rotate, Left, Buried, Insert, Cut, Distance;
    match e
    case Yield => SwitchNearer(s, p);
    case Block => HaltedNearer(s, Waiting, p);
    case Sleep => HaltedNearer(s, Sleeping, p);
    case Wake(pid) =>
    case Tick(due) =>
    case Exit(owner) => if Curr(s) != KERNEL { LeftKeeps(s, owner); LeftNearer(s, owner, p); }
    case Kill(pid, owner) => if pid > 0 && pid == Curr(s) { LeftKeeps(s, owner); LeftNearer(s, owner, p); }
    case Create =>
    case Register(child) =>
      PendingNew(s, child);
      var k := PlaceOf(s.cyc, KERNEL);
      InsertRing(s.cyc, k, child, s.info, Task(Ready, Curr(s)));
      InsertFurther(s.cyc, k, child, p);
    case Unlink(child) => CutNearer(s.cyc, PlaceOf(s.cyc, child), p);
  }

  lemma PendingNew(s: State, child: nat)
    requires PidsOk(s) && child in s.pending
    ensures child !in s.info
  {
  }

  lemma HaltedNearer(s: State, st: Status, p: nat)
    requires Inv(s) && Curr(s) != KERNEL && (st == Waiting || st == Sleeping)
    requires IsReady(s, p) && IsReady(Switch(Halted(s, st)), p)
    ensures var t := Switch(Halted(s, st)).cyc;
            p in t && t != [] && (t[|t| - 1] == p || Distance(t, p) < Distance(s.cyc, p))
  {
    hide ParentsOk, PidsOk, Switch;
    HaltedKeeps(s, st);
    SwitchInfo(Halted(s, st));
    SwitchNearer(Halted(s, st), p);
  }

  ghost function CallCount(ss: seq<State>, es: seq<Event>): nat
    requires IsRun(ss, es)
  {
    if es == [] then 0
    else
      RunPrefix(ss, es);
      CallCount(ss[..|es|], es[..|es| - 1]) + if Calls(ss[|es| - 1], es[|es| - 1]) then 1 else 0
  }

  ghost function RegisterCount(es: seq<Event>): nat {
    if es == [] then 0 else RegisterCount(es[..|es| - 1]) + if es[|es| - 1].Register? then 1 else 0
  }

  lemma RunPrefix(ss: seq<State>, es: seq<Event>)
    requires IsRun(ss, es) && es != []
    ensures IsRun(ss[..|es|], es[..|es| - 1]) && Inv(ss[|es| - 1])
    ensures Enabled(ss[|es| - 1], es[|es| - 1]) && ss[|es|] == Step(ss[|es| - 1], es[|es| - 1])
  {
    RunKeeps(ss, es, |es| - 1);
    assert StepTo(ss[|es| - 1], es[|es| - 1], ss[|es|]);
    var tt, ff := ss[..|es|], es[..|es| - 1];
    forall i | 0 <= i < |ff| ensures StepTo(tt[i], ff[i], tt[i + 1]) { assert StepTo(ss[i], es[i], ss[i + 1]); }
  }

  lemma {:induction false} WaitingShrinks(ss: seq<State>, es: seq<Event>, p: nat)
    requires IsRun(ss, es) && (forall i :: 0 <= i < |ss| ==> IsReady(ss[i], p)) && IsReady(ss[0], p) && IsReady(ss[|es|], p)
    requires forall i :: 0 < i < |ss| ==> ss[i].cyc != [] && Curr(ss[i]) != p
    ensures Distance(ss[|es|].cyc, p) + CallCount(ss, es) <= Distance(ss[0].cyc, p) + RegisterCount(es)
  {
    hide Step, Inv, Enabled, Distance;
    if es != [] {
      RunPrefix(ss, es);
      WaitingShrinks(ss[..|es|], es[..|es| - 1], p);
      StepNearer(ss[|es| - 1], es[|es| - 1], p);
    }
  }

  // A task that stays ready at distance d becomes current within d calls, and one more for every task
  // registered meanwhile.
  lemma BoundedWait(ss: seq<State>, es: seq<Event>, p: nat)
    requires IsRun(ss, es) && (forall i :: 0 <= i < |ss| ==> IsReady(ss[i], p)) && IsReady(ss[0], p)
    requires CallCount(ss, es) >= Distance(ss[0].cyc, p) + RegisterCount(es)
    ensures exists i :: 0 < i < |ss| && ss[i].cyc != [] && Curr(ss[i]) == p
  {
    if forall i :: 0 < i < |ss| ==> ss[i].cyc != [] ==> Curr(ss[i]) != p {
      WaitingShrinks(ss, es, p);
    }
  }
}
