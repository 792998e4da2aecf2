/**
 What the scheduler's operations do to the status of each task, told task by task, and what follows over runs: a task
 that is woken runs again (src/sched/sched.c).
 */
module Wakeups {
  import opened Scheduler

  // The task that the operation kills, or NOBODY.
  ghost function Victim(s: State, e: Event): int
    requires s.cyc != []
  {
    match e
    case Exit(_) => if Curr(s) == KERNEL then NOBODY else Curr(s)
    case Kill(pid, _) => if pid > 0 && pid in s.info && s.info[pid].status != Zombie then pid else NOBODY
    case _ => NOBODY
  }

  // The operation makes task p ready: by its number, because its time has come, because its child died, or because it is
  // a child of the dying owner of a window.
  ghost predicate Rouses(s: State, e: Event, p: nat)
    requires s.cyc != []
  {
    p in s.info && s.info[p].status != Zombie &&
    match e
    case Wake(pid) => pid == p
    case Tick(due) => s.info[p].status == Sleeping && p in due
    case Exit(owner) => var v := Victim(s, e); v >= 0 && v in s.info && p != v && Bereaved(s.info, v, owner, p)
    case Kill(_, owner) => var v := Victim(s, e); v >= 0 && v in s.info && p != v && Bereaved(s.info, v, owner, p)
    case _ => false
  }

  ghost predicate Bereaved(info: map<nat, Task>, dying: nat, owner: bool, p: nat)
    requires dying in info && p in info
  {
    info[dying].parent == p || (info[dying].parent == dying && p == KERNEL) || (info[p].parent == dying && owner && p != KERNEL)
  }

  // The operation stops task p from being ready.
  ghost predicate Stops(s: State, e: Event, p: nat)
    requires s.cyc != []
  {
    Victim(s, e) == p || (Curr(s) == p && (e.Block? || e.Sleep?))
  }

  // The status of every task after every operation.
  lemma StatusAfter(s: State, e: Event, p: nat)
    requires Inv(s) && Enabled(s, e) && p in s.info && !(e.Unlink? && e.child == p)
    ensures var t := Step(s, e);
            && p in t.info
            && t.info[p].status == (if Victim(s, e) == p then Zombie
                                    else if Curr(s) == p && e.Block? then Waiting
                                    else if Curr(s) == p && e.Sleep? then Sleeping
                                    else if Rouses(s, e, p) then Ready
                                    else s.info[p].status)
            && t.info[p].parent == (if Victim(s, e) >= 0 && s.info[p].parent == Victim(s, e) then KERNEL else s.info[p].parent)
  {
    hide ParentsOk, PidsOk, Switch, Rotate, Left, Buried, Insert, Cut;
    match e
    case Yield => SwitchInfo(s);
    case Block => HaltedKeeps(s, Waiting); SwitchInfo(Halted(s, Waiting));
    case Sleep => HaltedKeeps(s, Sleeping); SwitchInfo(Halted(s, Sleeping));
    case Exit(owner) => if Curr(s) != KERNEL { LeftInfo(s, owner); BuriedStatus(s, Curr(s), owner, p); }
    case Kill(pid, owner) =>
      if pid > 0 && pid == Curr(s) { LeftInfo(s, owner); BuriedStatus(s, Curr(s), owner, p); }
      else if Killable(s, pid) { BuriedStatus(s, pid, owner, p); }
    case Register(child) => PendingNew(s, child);
    case _ =>
  }

  // The same for all tasks at once.
  ghost predicate Settled(s: State, e: Event, t: State) {
    s.cyc != [] && forall p: nat :: p in s.info && !(e.Unlink? && e.child == p) ==> StatusIs(s, e, t, p)
  }

  ghost predicate StatusIs(s: State, e: Event, t: State, p: nat)
    requires s.cyc != [] && p in s.info
  {
    && p in t.info
    && t.info[p].status == (if Victim(s, e) == p then Zombie
                            else if Curr(s) == p && e.Block? then Waiting
                            else if Curr(s) == p && e.Sleep? then Sleeping
                            else if Rouses(s, e, p) then Ready
                            else s.info[p].status)
    && t.info[p].parent == if Victim(s, e) >= 0 && s.info[p].parent == Victim(s, e) then KERNEL else s.info[p].parent
  }

  lemma AllSettled(s: State, e: Event)
    requires Inv(s) && Enabled(s, e)
    ensures Settled(s, e, Step(s, e))
  {
    hide ParentsOk, PidsOk, Step, Victim, Rouses, Enabled;
    InvCyc(s);
    forall p: nat | p in s.info && !(e.Unlink? && e.child == p) ensures StatusIs(s, e, Step(s, e), p) { StatusAfter(s, e, p); }
  }

  lemma LeftInfo(s: State, owner: bool)
    requires Inv(s) && Curr(s) != KERNEL
    ensures Left(s, owner).info == Buried(s.info, Curr(s), owner)
  {
  }

  lemma BuriedStatus(s: State, dying: nat, owner: bool, p: nat)
    requires Inv(s) && dying in s.info && dying != KERNEL && s.info[dying].status != Zombie && p in s.info
    ensures var b := Buried(s.info, dying, owner);
            && p in b
            && b[p].status == (if p == dying then Zombie
                               else if s.info[p].status != Zombie && Bereaved(s.info, dying, owner, p) then Ready
                               else s.info[p].status)
            && b[p].parent == if s.info[p].parent == dying then KERNEL else s.info[p].parent
  {
    BuriedParts(s, dying);
    hide Inv, ParentOk, Woken;
    var r := Reparented(s.info, dying, owner);
    var z := SetStatus(r, dying, Zombie);
    assert r[p] == Adopted(s.info[p], p, dying, owner) && r[dying] == Adopted(s.info[dying], dying, dying, owner);
    WokenAt(z, r[dying].parent, p);
  }

  lemma WokenAt(info: map<nat, Task>, q: int, p: nat)
    requires p in info
    ensures var w := Woken(info, q);
            p in w && w[p].parent == info[p].parent && w[p].status == if q == p && info[p].status != Zombie then Ready else info[p].status
  {
  }

  lemma BuriedParts(s: State, dying: nat)
    requires Inv(s) && dying in s.info
    ensures KERNEL in s.info && s.info[KERNEL].status != Zombie && ParentOk(s.info, dying)
  {
  }

  // The tasks there are: a registered one is new and ready, an unlinked one is gone, and no other comes or goes.
  lemma MembersAfter(s: State, e: Event)
    requires Inv(s) && Enabled(s, e)
    ensures var t := Step(s, e);
            t.info.Keys == (match e
                            case Register(child) => s.info.Keys + {child}
                            case Unlink(child) => s.info.Keys - {child}
                            case _ => s.info.Keys)
    ensures e.Register? ==> Step(s, e).info[e.child] == Task(Ready, Curr(s))
  {
    hide ParentsOk, PidsOk, Switch, Rotate, Left, Buried, Insert, Cut;
    match e
    case Yield => SwitchInfo(s);
    case Block => HaltedKeeps(s, Waiting); SwitchInfo(Halted(s, Waiting));
    case Sleep => HaltedKeeps(s, Sleeping); SwitchInfo(Halted(s, Sleeping));
    case Exit(owner) => if Curr(s) != KERNEL { LeftInfo(s, owner); BuriedKeys(s.info, Curr(s), owner); }
    case Kill(pid, owner) =>
      if pid > 0 && pid == Curr(s) { LeftInfo(s, owner); BuriedKeys(s.info, Curr(s), owner); }
      else if Killable(s, pid) { BuriedKeys(s.info, pid, owner); }
    case _ =>
  }

  // The task that runs next: the same one, unless the operation is one that chooses; then the nearest that is ready.
  lemma CurrentAfter(s: State, e: Event)
    requires Inv(s) && Enabled(s, e)
    ensures Step(s, e).cyc != [] && (if Calls(s, e) then Chooses(s, Step(s, e)) else Curr(Step(s, e)) == Curr(s))
  {
    hide ParentsOk, PidsOk, RingOk, Buried, Insert, Cut, Left, Rotate, Switch, Removed, Registered, NextAt, Woken, Ticked;
    InvCyc(s);
    match e
    case Yield => SwitchNext(s, s);
    case Block => HaltedNext(s, Waiting);
    case Sleep => HaltedNext(s, Sleeping);
    case Exit(owner) => if Curr(s) != KERNEL { LeftNext(s, owner); }
    case Kill(pid, owner) => if pid > 0 && pid == Curr(s) { LeftNext(s, owner); }
    case Register(child) => RegisteredLast(s, child);
    case Unlink(child) => CutLast(s, child);
    case _ =>
  }

  ghost predicate Chooses(s: State, t: State) {
    s.cyc != [] && t.cyc != [] && exists j :: 0 <= j < |s.cyc| && NextAt(s, t, j)
  }

  // The task at place j of the ring is chosen: it is ready now, those before it were not ready when it was chosen, and
  // the ring goes on behind it.
  ghost predicate NextAt(s: State, t: State, j: nat)
    requires s.cyc != [] && t.cyc != [] && j < |s.cyc|
  {
    && Curr(t) == s.cyc[j] && s.cyc[j] in t.info && t.info[s.cyc[j]].status == Ready
    && (forall i :: 0 <= i < j && s.cyc[i] in s.info ==> s.info[s.cyc[i]].status != Ready)
    && t.cyc == s.cyc[j + 1..] + s.cyc[..j + 1]
  }

  lemma SwitchNext(s: State, h: State)
    requires Inv(s) && Inv(h) && h.cyc == s.cyc
    requires forall i :: 0 <= i < |s.cyc| - 1 && s.cyc[i] in s.info ==> s.cyc[i] in h.info && h.info[s.cyc[i]] == s.info[s.cyc[i]]
    ensures Chooses(s, Switch(h))
  {
    hide ParentsOk, PidsOk, Distinct;
    ReadyExists(h.cyc, h.info);
    var j := FirstReady(h.cyc, h.info);
    assert Rotate(s.cyc, j) == s.cyc[j + 1..] + s.cyc[..j + 1];
    assert NextAt(s, Switch(h), j);
  }

  lemma HaltedNext(s: State, st: Status)
    requires Inv(s) && Curr(s) != KERNEL && st != Zombie
    ensures RingOk(Halted(s, st).cyc, Halted(s, st).info) && KERNEL in Halted(s, st).info && Halted(s, st).info[KERNEL].status == Ready
    ensures Chooses(s, Switch(Halted(s, st)))
  {
    hide Switch, Chooses, ParentsOk, PidsOk;
    HaltedKeeps(s, st);
    SwitchNext(s, Halted(s, st));
  }

  lemma LeftNext(s: State, owner: bool)
    requires Inv(s) && Curr(s) != KERNEL
    ensures Chooses(s, Left(s, owner))
  {
    hide ParentsOk, PidsOk, Left, Buried;
    var j := LeftPlace(s, owner);
    var t := Left(s, owner);
    LeftKeeps(s, owner);
    BuriedStatus(s, Curr(s), owner, s.cyc[j]);
    assert NextAt(s, t, j);
  }

  lemma RegisteredLast(s: State, child: nat)
    requires Inv(s) && child in s.pending
    ensures Registered(s, child).cyc != [] && Curr(Registered(s, child)) == Curr(s)
  {
  }

  lemma CutLast(s: State, child: nat)
    requires Inv(s) && child in s.info && s.info[child].status == Zombie
    ensures Removed(s, child).cyc != [] && Curr(Removed(s, child)) == Curr(s)
  {
  }

  // Going round the ring, q comes directly behind p.
  ghost predicate Behind(c: seq<nat>, p: nat, q: nat) {
    exists i :: 0 <= i < |c| && c[i] == p && c[if i + 1 == |c| then 0 else i + 1] == q
  }

  // A registered task comes directly behind the kernel task.
  lemma RegisteredPlace(s: State, child: nat)
    requires Inv(s) && Enabled(s, Register(child))
    ensures var c := Step(s, Register(child)).cyc; |c| == |s.cyc| + 1 && Behind(c, KERNEL, child)
  {
    var k := PlaceOf(s.cyc, KERNEL);
    var c := Insert(s.cyc, k, child);
    var i := if k == |s.cyc| - 1 then |c| - 1 else k;
    assert c[i] == KERNEL && c[if i + 1 == |c| then 0 else i + 1] == child;
  }

  // ---------- Over runs ----------

  // A ready task stays ready until it stops itself or is killed.
  lemma ReadyStays(s: State, e: Event, p: nat)
    requires Inv(s) && Enabled(s, e) && IsReady(s, p) && !Stops(s, e, p)
    ensures IsReady(Step(s, e), p)
  {
    StepKeeps(s, e);
    StatusAfter(s, e, p);
  }

  lemma RousedReady(s: State, e: Event, p: nat)
    requires Inv(s) && Enabled(s, e) && Rouses(s, e, p)
    ensures IsReady(Step(s, e), p)
  {
    StepKeeps(s, e);
    StatusAfter(s, e, p);
  }

  lemma RunSuffix(ss: seq<State>, es: seq<Event>, i: nat)
    requires IsRun(ss, es) && i <= |es|
    ensures IsRun(ss[i..], es[i..])
  {
    RunKeeps(ss, es, i);
    forall j | 0 <= j < |es[i..]| ensures StepTo(ss[i..][j], es[i..][j], ss[i..][j + 1]) { assert StepTo(ss[i + j], es[i + j], ss[i + j + 1]); }
  }

  // As long as a ready task is not current, only being killed can stop it.
  lemma {:induction false} StaysReady(ss: seq<State>, es: seq<Event>, p: nat, j: nat)
    requires IsRun(ss, es) && IsReady(ss[0], p) && j < |ss|
    requires forall k :: 0 <= k < j ==> !(es[k].Kill? && es[k].pid == p)
    requires forall k :: 0 <= k < j ==> ss[k].cyc != [] && Curr(ss[k]) != p
    ensures IsReady(ss[j], p)
    decreases j
  {
    if j > 0 {
      StaysReady(ss, es, p, j - 1);
      RunKeeps(ss, es, j - 1);
      assert StepTo(ss[j - 1], es[j - 1], ss[j]);
      hide Inv, Step, Enabled;
      ReadyStays(ss[j - 1], es[j - 1], p);
    }
  }

  // A woken task is ready and in the ring, and the run goes on from there.
  lemma RousedThere(ss: seq<State>, es: seq<Event>, i: nat, p: nat)
    requires IsRun(ss, es) && i < |es| && ss[i].cyc != [] && Rouses(ss[i], es[i], p)
    ensures IsRun(ss[i + 1..], es[i + 1..]) && IsReady(ss[i + 1], p)
  {
    hide Step, Inv, Enabled;
    RunKeeps(ss, es, i);
    assert StepTo(ss[i], es[i], ss[i + 1]);
    RousedReady(ss[i], es[i], p);
    RunSuffix(ss, es, i + 1);
  }

  // A task that is woken - by number, by the clock or by the death of a child - runs again, unless it is killed first:
  // within as many calls of the scheduler as it is places away, and one more for every task registered meanwhile.
  lemma WokenRuns(ss: seq<State>, es: seq<Event>, i: nat, p: nat)
    requires IsRun(ss, es) && i < |es| && ss[i].cyc != [] && Rouses(ss[i], es[i], p)
    requires forall k :: i < k < |es| ==> !(es[k].Kill? && es[k].pid == p)
    requires (RousedThere(ss, es, i, p); CallCount(ss[i + 1..], es[i + 1..]) >= Distance(ss[i + 1].cyc, p) + RegisterCount(es[i + 1..]))
    ensures exists j :: i < j < |ss| && ss[j].cyc != [] && Curr(ss[j]) == p
  {
    hide Step, Inv, Enabled, Distance, CallCount;
    RousedThere(ss, es, i, p);
    var tt, ff := ss[i + 1..], es[i + 1..];
    if forall j :: 0 <= j < |tt| ==> tt[j].cyc != [] && Curr(tt[j]) != p {
      forall j | 0 <= j < |tt| ensures IsReady(tt[j], p) { StaysReady(tt, ff, p, j); }
      BoundedWait(tt, ff, p);
    }
    var j :| 0 <= j < |tt| && !(tt[j].cyc != [] && Curr(tt[j]) != p);
    RunKeeps(tt, ff, j);
    InvCyc(tt[j]);
    assert tt[j] == ss[i + 1 + j];
  }

  lemma InvCyc(s: State)
    requires Inv(s)
    ensures s.cyc != []
  {
  }
}
