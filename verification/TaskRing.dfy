/**
 The scheduler's operations on the ring of next pointers (src/sched/sched.c).

 Each method is proved to be the step of the same name of the machine in `Scheduler`, so what is proved there
 of every run holds of the pointers.  A task is named by its pid; the ghost `cyc` is the ring from behind the
 current task.
 */
module TaskRing {

  import opened Scheduler
  import opened Wakeups

  // The pointers run along cyc and from its end back to its start.
  ghost predicate Linked(next: map<nat, nat>, cyc: seq<nat>) {
    forall i :: 0 <= i < |cyc| ==> cyc[i] in next && next[cyc[i]] == After(cyc, i)
  }

  ghost function After(cyc: seq<nat>, i: nat): nat
    requires i < |cyc|
  {
    if i + 1 < |cyc| then cyc[i + 1] else cyc[0]
  }

  lemma LinkedAt(next: map<nat, nat>, cyc: seq<nat>, i: nat)
    requires Linked(next, cyc) && i < |cyc|
    ensures cyc[i] in next && next[cyc[i]] == After(cyc, i)
  {
  }

  lemma RingFacts(cyc: seq<nat>, info: map<nat, Task>)
    requires RingOk(cyc, info)
    ensures cyc != [] && KERNEL in cyc && KERNEL in info && cyc[|cyc| - 1] in info
    ensures forall p :: p in cyc ==> p in info
  {
  }

  lemma At(next: map<nat, nat>, cyc: seq<nat>, info: map<nat, Task>, i: nat)
    requires Linked(next, cyc) && RingOk(cyc, info) && i < |cyc|
    ensures cyc[i] in info && cyc[i] in next && next[cyc[i]] == After(cyc, i)
    ensures i + 1 < |cyc| ==> cyc[i + 1] != cyc[i]
  {
    LinkedAt(next, cyc, i);
  }

  lemma RingDistinct(cyc: seq<nat>, info: map<nat, Task>)
    requires RingOk(cyc, info)
    ensures Distinct(cyc)
  {
  }

  // p is not on the ring unless it is known.
  lemma Known(cyc: seq<nat>, info: map<nat, Task>, p: nat)
    requires RingOk(cyc, info)
    ensures p in info <==> p in cyc
  {
  }

  lemma RotateLinked(next: map<nat, nat>, cyc: seq<nat>, j: nat)
    requires Linked(next, cyc) && j < |cyc|
    ensures Linked(next, Rotate(cyc, j))
  {
    var r := Rotate(cyc, j);
    forall i | 0 <= i < |r| ensures r[i] in next && next[r[i]] == After(r, i) {
      LinkedAt(next, cyc, if i + j + 1 < |cyc| then i + j + 1 else i + j + 1 - |cyc|);
    }
  }

  lemma InsertLinked(next: map<nat, nat>, cyc: seq<nat>, k: nat, p: nat)
    requires Linked(next, cyc) && k < |cyc| && Distinct(cyc) && p !in cyc && cyc[k] in next
    ensures Linked(next[p := next[cyc[k]]][cyc[k] := p], Insert(cyc, k, p))
  {
    var to, r := next[p := next[cyc[k]]][cyc[k] := p], Insert(cyc, k, p);
    LinkedAt(next, cyc, k);
    forall i | 0 <= i < |r| ensures r[i] in to && to[r[i]] == After(r, i) {
      if k == |cyc| - 1 {
        if i > 0 { LinkedAt(next, cyc, i - 1); }
      } else if i <= k {
        LinkedAt(next, cyc, i);
      } else if i > k + 1 {
        LinkedAt(next, cyc, i - 1);
      }
    }
  }

  lemma CutLinked(next: map<nat, nat>, cyc: seq<nat>, j: nat, h: nat)
    requires Linked(next, cyc) && Distinct(cyc) && j < |cyc| && h < |cyc| && j != h && After(cyc, h) == cyc[j]
    requires cyc[j] in next
    ensures Linked(next[cyc[h] := next[cyc[j]]], Cut(cyc, j))
  {
    var to, r := next[cyc[h] := next[cyc[j]]], Cut(cyc, j);
    assert h == if j == 0 then |cyc| - 1 else j - 1;
    forall i | 0 <= i < |r| ensures r[i] in to && to[r[i]] == After(r, i) { CutLinkedAt(next, cyc, j, i, h); }
  }

  lemma CutLinkedAt(next: map<nat, nat>, cyc: seq<nat>, j: nat, i: nat, h: nat)
    requires Linked(next, cyc) && Distinct(cyc) && j < |cyc| && i < |cyc| - 1 && cyc[j] in next
    requires h == if j == 0 then |cyc| - 1 else j - 1
    ensures var to, r := next[cyc[h] := next[cyc[j]]], Cut(cyc, j); r[i] in to && to[r[i]] == After(r, i)
  {
    hide Linked;
    LinkedAt(next, cyc, j);
    LinkedAt(next, cyc, if i < j then i else i + 1);
  }

  // A stretch of the ring along the pointers.
  ghost predicate Stretch(next: map<nat, nat>, info: map<nat, Task>, c: seq<nat>) {
    && (forall p :: p in c ==> p in info && p in next)
    && (forall i :: 0 <= i < |c| - 1 ==> next[c[i]] == c[i + 1])
  }

  lemma RingStretch(next: map<nat, nat>, cyc: seq<nat>, info: map<nat, Task>, n: nat)
    requires Linked(next, cyc) && RingOk(cyc, info) && n <= |cyc|
    ensures Stretch(next, info, cyc[..n]) && (n == |cyc| ==> cyc[..n] == cyc)
    ensures n < |cyc| ==> forall i :: 0 <= i < n ==> cyc[..n][i] != cyc[n]
    ensures forall i :: 0 < i < |cyc| ==> cyc[i] != cyc[0]
  {
    hide Linked;
    var c := cyc[..n];
    forall p | p in c ensures p in info && p in next {
      var i :| 0 <= i < n && c[i] == p;
      LinkedAt(next, cyc, i);
    }
    forall i | 0 <= i < |c| - 1 ensures next[c[i]] == c[i + 1] { LinkedAt(next, cyc, i); }
  }

  lemma FirstReadyIs(cyc: seq<nat>, info: map<nat, Task>, j: nat)
    requires (forall p :: p in cyc ==> p in info) && j < |cyc| && info[cyc[j]].status == Ready
    requires forall i :: 0 <= i < j ==> info[cyc[i]].status != Ready
    ensures FirstReady(cyc, info) == j
  {
  }

  // ---------- Sweeps ----------

  // A sweep over the ring that has dealt with the tasks in `done`.
  ghost function PartReparented(info: map<nat, Task>, dying: nat, owner: bool, done: set<nat>): map<nat, Task> {
    map p | p in info :: if p in done then Adopted(info[p], p, dying, owner) else info[p]
  }

  lemma ReparentOn(info: map<nat, Task>, dying: nat, owner: bool, done: set<nat>, t: nat)
    requires t in info && t !in done
    ensures var m := PartReparented(info, dying, owner, done);
            t in m && m[t := Adopted(m[t], t, dying, owner)] == PartReparented(info, dying, owner, done + {t})
  {
  }

  lemma ReparentDone(info: map<nat, Task>, dying: nat, owner: bool, done: set<nat>)
    requires forall p :: p in info ==> p in done
    ensures PartReparented(info, dying, owner, done) == Reparented(info, dying, owner)
  {
  }

  ghost function PartTicked(info: map<nat, Task>, due: set<nat>, done: set<nat>): map<nat, Task> {
    map p | p in info :: if p in done then Roused(info[p], p, due) else info[p]
  }

  function Roused(t: Task, p: nat, due: set<nat>): Task {
    if t.status == Sleeping && p in due then t.(status := Ready) else t
  }

  lemma TickOn(info: map<nat, Task>, due: set<nat>, done: set<nat>, t: nat)
    requires t in info && t !in done
    ensures var m := PartTicked(info, due, done);
            t in m && m[t := Roused(m[t], t, due)] == PartTicked(info, due, done + {t})
  {
  }

  lemma TickDone(info: map<nat, Task>, due: set<nat>, done: set<nat>)
    requires forall p :: p in info ==> p in done
    ensures PartTicked(info, due, done) == Ticked(info, due)
  {
  }

  lemma PartNone(info: map<nat, Task>, dying: nat, owner: bool, due: set<nat>)
    ensures PartReparented(info, dying, owner, {}) == info && PartTicked(info, due, {}) == info
  {
  }

  // Where a walk that began at the kernel task stands: at r[i], having dealt with the kernel task and r[..i].
  ghost predicate Walking(r: seq<nat>, i: nat, t: nat, done: set<nat>) {
    i < |r| && t == r[i] && forall p :: p in done <==> p == KERNEL || p in r[..i]
  }

  lemma WalkStart(r: seq<nat>)
    requires r != []
    ensures Walking(r, 0, r[0], {} + {KERNEL})
  {
  }

  lemma WalkOn(r: seq<nat>, i: nat, t: nat, done: set<nat>)
    requires Walking(r, i, t, done) && i + 1 < |r|
    ensures Walking(r, i + 1, r[i + 1], done + {t})
  {
    assert r[..i + 1] == r[..i] + [r[i]];
  }

  lemma NotYet(r: seq<nat>, i: nat, t: nat, done: set<nat>, info: map<nat, Task>)
    requires Walking(r, i, t, done) && RingOk(r, info) && t != KERNEL
    ensures t !in done
  {
  }

  lemma WalkDone(r: seq<nat>, i: nat, t: nat, done: set<nat>, info: map<nat, Task>)
    requires Walking(r, i, t, done) && i < |r| && i + 1 == |r| && r[i] == KERNEL && RingOk(r, info)
    ensures forall p :: p in info ==> p in done
  {
    assert r == r[..i] + [r[i]];
  }

  lemma RingFromKernel(next: map<nat, nat>, cyc: seq<nat>, info: map<nat, Task>) returns (r: seq<nat>)
    requires Linked(next, cyc) && RingOk(cyc, info)
    ensures RingOk(r, info) && Linked(next, r) && |r| > 0 && r[|r| - 1] == KERNEL
    ensures forall i :: 0 <= i < |r| && r[i] == KERNEL ==> i == |r| - 1
  {
    r := Rotate(cyc, PlaceOf(cyc, KERNEL));
    RotateLinked(next, cyc, PlaceOf(cyc, KERNEL));
    RotateRing(cyc, PlaceOf(cyc, KERNEL), info);
  }

  // sched_reap_zombies takes a zombie that no living task but the kernel could wait for.
  ghost predicate Reapable(info: map<nat, Task>, p: nat) {
    p in info && p != KERNEL && info[p].status == Zombie && (info[p].parent == NOBODY || info[p].parent == KERNEL)
  }

  class Ring {
    var next: map<nat, nat>
    var info: map<nat, Task>
    var curr: nat
    var nextPid: nat
    var pending: map<nat, nat>
    ghost var cyc: seq<nat>

    ghost function Now(): State
      reads this
    {
      State(cyc, info, pending, nextPid)
    }

    ghost predicate Shaped()
      reads this
    {
      RingOk(cyc, info) && Linked(next, cyc) && curr == cyc[|cyc| - 1]
    }

    ghost predicate Valid()
      reads this
    {
      Inv(Now()) && Shaped()
    }

    // sched_init.
    constructor ()
      ensures Valid() && Now() == State([KERNEL], map[KERNEL := Task(Ready, NOBODY)], map[], 1)
    {
      next := map[KERNEL := KERNEL];
      info := map[KERNEL := Task(Ready, NOBODY)];
      curr := KERNEL;
      nextPid := 1;
      pending := map[];
      cyc := [KERNEL];
    }

    // sched_find_task_locked.
    method FindTask(pid: int) returns (found: bool)
      requires Shaped()
      ensures found <==> pid >= 0 && pid in info
    {
      hide Linked, RingOk, Distinct, ParentsOk, PidsOk, Settled;
      RingFacts(cyc, info);
      ghost var r := RingFromKernel(next, cyc, info);
      if pid == KERNEL { return true; }
      ghost var i := 0;
      At(next, r, info, |r| - 1);
      var t := next[KERNEL];
      while t != KERNEL
        invariant i < |r| && t == r[i] && pid != KERNEL
        invariant forall h :: 0 <= h < i ==> r[h] != pid
        decreases |r| - i
      {
        if t == pid { return true; }
        At(next, r, info, i);
        t := next[t];
        i := i + 1;
      }
      assert pid >= 0 ==> pid !in r;
      return false;
    }

    method Adopt(t: nat, dying: nat, owner: bool)
      requires t in info
      modifies this`info
      ensures info == old(info)[t := Adopted(old(info)[t], t, dying, owner)]
    {
      if info[t].parent == dying {
        info := info[t := info[t].(parent := KERNEL)];
        if owner && t != KERNEL && info[t].status != Zombie {
          info := info[t := info[t].(status := Ready)];
        }
      }
    }

    // sched_reparent_children_locked.
    method ReparentChildren(dying: nat, owner: bool)
      requires Shaped()
      modifies this`info
      ensures info == Reparented(old(info), dying, owner)
    {
      hide Linked, RingOk, Distinct, PartReparented, Walking, Adopted, Reparented;
      RingFacts(cyc, info);
      ghost var r := RingFromKernel(next, cyc, info);
      ghost var was := info;
      PartNone(was, dying, owner, {});
      ReparentOn(was, dying, owner, {}, KERNEL);
      Adopt(KERNEL, dying, owner);
      At(next, r, was, |r| - 1);
      WalkStart(r);
      ghost var i, done := 0, {} + {KERNEL};
      var t := next[KERNEL];
      while t != KERNEL
        invariant Walking(r, i, t, done) && i < |r| && t == r[i] && RingOk(r, was) && Linked(next, r)
        invariant info == PartReparented(was, dying, owner, done)
        decreases |r| - i
      {
        At(next, r, was, i);
        NotYet(r, i, t, done, was);
        ReparentOn(was, dying, owner, done, t);
        Adopt(t, dying, owner);
        WalkOn(r, i, t, done);
        done := done + {t};
        t := next[t];
        i := i + 1;
      }
      WalkDone(r, i, t, done, was);
      ReparentDone(was, dying, owner, done);
    }

    method WakeIfDue(t: nat, due: set<nat>)
      requires t in info
      modifies this`info
      ensures info == old(info)[t := Roused(old(info)[t], t, due)]
    {
      if info[t].status == Sleeping && t in due {
        info := info[t := info[t].(status := Ready)];
      }
    }

    // sched_check_sleeping_tasks; `due` are the tasks whose wake tick has passed.
    method CheckSleeping(due: set<nat>)
      requires Valid()
      modifies this`info
      ensures Valid() && Now() == Step(old(Now()), Tick(due)) && Settled(old(Now()), Tick(due), Now())
    {
      hide Linked, RingOk, Distinct, ParentsOk, PidsOk, PartTicked, Walking, Roused, Ticked, Running, Settled;
      RingFacts(cyc, info);
      ghost var r := RingFromKernel(next, cyc, info);
      ghost var was := info;
      StepKeeps(Now(), Tick(due));
      AllSettled(Now(), Tick(due));
      PartNone(was, 0, false, due);
      TickOn(was, due, {}, KERNEL);
      WakeIfDue(KERNEL, due);
      At(next, r, was, |r| - 1);
      WalkStart(r);
      ghost var i, done := 0, {} + {KERNEL};
      var t := next[KERNEL];
      while t != KERNEL
        invariant Walking(r, i, t, done) && i < |r| && t == r[i] && RingOk(r, was) && Linked(next, r)
        invariant info == PartTicked(was, due, done)
        decreases |r| - i
      {
        At(next, r, was, i);
        NotYet(r, i, t, done, was);
        TickOn(was, due, done, t);
        WakeIfDue(t, due);
        WalkOn(r, i, t, done);
        done := done + {t};
        t := next[t];
        i := i + 1;
      }
      WalkDone(r, i, t, done, was);
      TickDone(was, due, done);
    }

    // The search of schedule and of sched_exit along the pointers, over the stretch c.  Coming to `stop` again
    // would end it at the kernel task, but the kernel task is met first.
    method Search(from: nat, stop: nat, ghost c: seq<nat>) returns (t: nat, ghost j: nat)
      requires Stretch(next, info, c) && c != [] && c[0] == from && KERNEL in c && info[KERNEL].status == Ready
      requires forall i :: 0 < i < |c| ==> c[i] != stop
      ensures j < |c| && t == c[j] && j == FirstReady(c, info)
    {
      ghost var k := PlaceOf(c, KERNEL);
      j := 0;
      t := from;
      while info[t].status != Ready
        invariant j <= k && t == c[j]
        invariant forall h :: 0 <= h < j ==> info[c[h]].status != Ready
        decreases |c| - j
      {
        t := next[t];
        j := j + 1;
        if t == stop {
          t := KERNEL;
          break;
        }
      }
      FirstReadyIs(c, info, j);
    }

    // schedule: also run by sched_block and by a sleeper, once the current task's status is set.
    method Schedule()
      requires Shaped() && info[KERNEL].status == Ready
      modifies this`curr, this`cyc
      ensures Shaped() && Now() == Switch(old(Now()))
    {
      hide Linked, RingOk, Distinct, FirstReady, Stretch;
      RingFacts(cyc, info);
      At(next, cyc, info, |cyc| - 1);
      RingStretch(next, cyc, info, |cyc|);
      var t, j := Search(next[curr], next[curr], cyc);
      RotateLinked(next, cyc, j);
      RotateRing(cyc, j, info);
      curr := t;
      cyc := Rotate(cyc, j);
    }

    method Yield()
      requires Valid()
      modifies this`curr, this`cyc
      ensures Valid() && Now() == Step(old(Now()), Event.Yield)
    {
      hide Linked, RingOk, Distinct, ParentsOk, PidsOk, Settled;
      RingFacts(cyc, info);
      StepKeeps(Now(), Event.Yield);
      Schedule();
    }

    // sched_block, and the sleeping of sys_sleep.
    method Halt(e: Event)
      requires Valid() && (e == Block || e == Sleep) && Enabled(Now(), e)
      modifies this`info, this`curr, this`cyc
      ensures Valid() && Now() == Step(old(Now()), e)
    {
      hide Linked, RingOk, Distinct, ParentsOk, PidsOk, Settled;
      RingFacts(cyc, info);
      ghost var st := if e == Block then Waiting else Sleeping;
      StepKeeps(Now(), e);
      HaltedKeeps(Now(), st);
      info := info[curr := info[curr].(status := if e == Block then Waiting else Sleeping)];
      assert Now() == Halted(old(Now()), st);
      Schedule();
    }

    // sched_wake_pid.
    method WakePid(pid: int)
      requires Valid()
      modifies this`info
      ensures Valid() && Now() == Step(old(Now()), Wake(pid)) && Settled(old(Now()), Wake(pid), Now())
    {
      hide Linked, RingOk, Distinct, ParentsOk, PidsOk, Settled;
      RingFacts(cyc, info);
      StepKeeps(Now(), Wake(pid));
      AllSettled(Now(), Wake(pid));
      var found := FindTask(pid);
      if found && info[pid].status != Zombie {
        info := info[pid := info[pid].(status := Ready)];
      }
    }

    // The tail that sched_exit and sched_kill share.
    method Bury(dying: nat)
      requires dying in info && (info[dying].parent >= 0 ==> info[dying].parent in info)
      modifies this`info
      ensures info == Woken(SetStatus(old(info), dying, Zombie), old(info)[dying].parent)
    {
      info := info[dying := info[dying].(status := Zombie)];
      var parent := info[dying].parent;
      if parent >= 0 {
        if info[parent].status != Zombie {
          info := info[parent := info[parent].(status := Ready)];
        }
      }
    }

    // The first ready task behind the current one, which is not looked at itself.
    method ChooseOther() returns (t: nat, ghost j: nat)
      requires Shaped() && curr != KERNEL && info[KERNEL].status == Ready
      ensures var others := cyc[..|cyc| - 1]; j < |others| && t == cyc[j] && j == FirstReady(others, info)
    {
      hide Linked, RingOk, Distinct, FirstReady, Stretch;
      RingFacts(cyc, info);
      At(next, cyc, info, |cyc| - 1);
      ghost var k := PlaceOf(cyc, KERNEL);
      assert cyc[..|cyc| - 1][k] == KERNEL;
      RingStretch(next, cyc, info, |cyc| - 1);
      t, j := Search(next[curr], curr, cyc[..|cyc| - 1]);
    }

    // sched_exit; the kernel task cannot exit.
    method ExitTask(owner: bool)
      requires Valid()
      modifies this`info, this`curr, this`cyc
      ensures Valid() && Now() == Step(old(Now()), Exit(owner)) && Settled(old(Now()), Exit(owner), Now())
    {
      hide Linked, RingOk, Distinct, ParentsOk, PidsOk, FirstReady, Stretch, Rotate, SetStatus, Woken, Reparented, Left, Settled;
      RingFacts(cyc, info);
      ghost var s := Now();
      StepKeeps(s, Exit(owner));
      AllSettled(s, Exit(owner));
      if curr == KERNEL { return; }
      var dying := curr;
      ReparentChildren(dying, owner);
      SameKeysRing(cyc, s.info, info);
      KernelAmong(s, owner);
      var t, j := ChooseOther();
      RotateLinked(next, cyc, j);
      ParentKnown(s.info, dying, owner);
      LeftIs(s, owner, j);
      curr := t;
      Bury(dying);
      cyc := Rotate(cyc, j);
    }

    // sched_kill.
    method KillTask(pid: int, owner: bool)
      requires Valid()
      modifies this`info, this`curr, this`cyc
      ensures Valid() && Now() == Step(old(Now()), Kill(pid, owner)) && Settled(old(Now()), Kill(pid, owner), Now())
    {
      hide Linked, RingOk, Distinct, ParentsOk, PidsOk, Settled;
      RingFacts(cyc, info);
      ghost var s := Now();
      StepKeeps(s, Kill(pid, owner));
      AllSettled(s, Kill(pid, owner));
      if pid <= 0 { return; }
      if pid == curr {
        ExitTask(owner);
        return;
      }
      var found := FindTask(pid);
      if !found || info[pid].status == Zombie { return; }
      ReparentChildren(pid, owner);
      ParentKnown(s.info, pid, owner);
      Bury(pid);
    }

    // sched_new_task, as far as the pid and the creator go.
    method NewTask() returns (pid: nat)
      requires Valid()
      modifies this`nextPid, this`pending
      ensures Valid() && Now() == Step(old(Now()), Create) && pid == old(nextPid)
    {
      hide Linked, RingOk, Distinct, ParentsOk, PidsOk, Settled;
      RingFacts(cyc, info);
      StepKeeps(Now(), Create);
      pid := nextPid;
      nextPid := nextPid + 1;
      pending := pending[pid := curr];
    }

    // sched_register_task.
    method RegisterTask(pid: nat)
      requires Valid() && Enabled(Now(), Register(pid))
      modifies this`next, this`info, this`pending, this`cyc
      ensures Valid() && Now() == Step(old(Now()), Register(pid))
    {
      hide Linked, RingOk, Distinct, ParentsOk, PidsOk, Settled;
      RingFacts(cyc, info);
      StepKeeps(Now(), Register(pid));
      PendingNew(Now(), pid);
      ghost var k := PlaceOf(cyc, KERNEL);
      At(next, cyc, info, k);
      RingDistinct(cyc, info);
      Known(cyc, info, pid);
      InsertLinked(next, cyc, k, pid);
      next := next[pid := next[KERNEL]];
      next := next[KERNEL := pid];
      info := info[pid := Task(Ready, curr)];
      pending := pending - {pid};
      cyc := Insert(cyc, k, pid);
    }

    // The link before a task is moved past it, and the task is destroyed.
    method Detach(prev: nat, pid: nat)
      requires Valid() && Enabled(Now(), Unlink(pid)) && prev in cyc && prev in next && next[prev] == pid && prev != pid
      modifies this`next, this`info, this`cyc
      ensures Valid() && Now() == Step(old(Now()), Unlink(pid))
    {
      hide Linked, RingOk, Distinct, ParentsOk, PidsOk, Settled;
      RingFacts(cyc, info);
      StepKeeps(Now(), Unlink(pid));
      RingDistinct(cyc, info);
      Known(cyc, info, pid);
      ghost var j, h := PlaceOf(cyc, pid), PlaceOf(cyc, prev);
      At(next, cyc, info, j);
      At(next, cyc, info, h);
      CutLinked(next, cyc, j, h);
      next := next[prev := next[pid]];
      info := info - {pid};
      cyc := Cut(cyc, j);
    }

    // sched_unlink_task, and the destruction that follows it.
    method UnlinkTask(pid: nat)
      requires Valid() && (pid in info ==> info[pid].status == Zombie)
      modifies this`next, this`info, this`cyc
      ensures Valid() && Now() == if pid in old(info) then Step(old(Now()), Unlink(pid)) else old(Now())
    {
      hide Linked, RingOk, Distinct, ParentsOk, PidsOk, Settled;
      RingFacts(cyc, info);
      ghost var r := RingFromKernel(next, cyc, info);
      ghost var i := 0;
      At(next, r, info, |r| - 1);
      var prev := KERNEL;
      while next[prev] != pid && next[prev] != KERNEL
        invariant i < |r| && prev in r && prev in next && next[prev] == r[i] && prev != pid
        invariant forall h :: 0 <= h < i ==> r[h] != pid
        modifies {}
        decreases |r| - i
      {
        At(next, r, info, i);
        prev := next[prev];
        i := i + 1;
      }
      if next[prev] == pid {
        Known(r, info, prev);
        Known(cyc, info, prev);
        Known(r, info, pid);
        Detach(prev, pid);
      } else {
        Known(r, info, pid);
        assert pid !in r;
      }
    }

    // sched_reap_zombies: one zombie that nobody can wait for leaves, if there is one.
    method ReapZombies() returns (reaped: int)
      requires Valid()
      modifies this`next, this`info, this`cyc
      ensures Valid()
      ensures reaped == NOBODY ==> Now() == old(Now()) && forall p :: !Reapable(old(info), p)
      ensures reaped != NOBODY ==> reaped >= 0 && Reapable(old(info), reaped) && Now() == Step(old(Now()), Unlink(reaped))
    {
      hide Linked, RingOk, Distinct, ParentsOk, PidsOk, Settled;
      RingFacts(cyc, info);
      ghost var r := RingFromKernel(next, cyc, info);
      ghost var i := 0;
      At(next, r, info, |r| - 1);
      var prev, t, hit := KERNEL, next[KERNEL], false;
      while t != KERNEL && !hit
        invariant i < |r| && t == r[i] && prev in r && prev in next && next[prev] == t && (t != KERNEL ==> prev != t)
        invariant forall h :: 0 <= h < i ==> !Reapable(info, r[h])
        invariant hit ==> Reapable(info, t)
        modifies {}
        decreases |r| - i, !hit
      {
        At(next, r, info, i);
        ParentHere(info, t);
        if t != curr && info[t].status == Zombie
           && (info[t].parent == NOBODY || info[t].parent == KERNEL || info[info[t].parent].status == Zombie) {
          hit := true;
        } else {
          prev := t;
          t := next[t];
          i := i + 1;
        }
      }
      if hit {
        Known(r, info, prev);
        Known(cyc, info, prev);
        Detach(prev, t);
        return t;
      }
      forall p ensures !Reapable(info, p) { Known(r, info, p); }
      return NOBODY;
    }
  }

  lemma ParentHere(info: map<nat, Task>, p: nat)
    requires ParentsOk(info) && p in info
    ensures ParentOk(info, p)
  {
  }

  lemma LeftIs(s: State, owner: bool, j: nat)
    requires RingOk(s.cyc, s.info) && Running(s.info, Curr(s)) && Curr(s) != KERNEL
    requires var r := Reparented(s.info, Curr(s), owner);
             (forall p :: p in s.cyc[..|s.cyc| - 1] ==> p in r) && j < |s.cyc| && j == FirstReady(s.cyc[..|s.cyc| - 1], r)
    ensures var r := Reparented(s.info, Curr(s), owner);
            && Left(s, owner).cyc == Rotate(s.cyc, j)
            && Left(s, owner).info == Woken(SetStatus(r, Curr(s), Zombie), r[Curr(s)].parent)
            && Left(s, owner) == s.(cyc := Left(s, owner).cyc, info := Left(s, owner).info)
  {
  }

  lemma ParentKnown(info: map<nat, Task>, dying: nat, owner: bool)
    requires ParentsOk(info) && dying in info && KERNEL in info
    ensures var q := Reparented(info, dying, owner)[dying].parent; q == NOBODY || (q >= 0 && q in info)
  {
    assert ParentOk(info, dying);
  }
}
