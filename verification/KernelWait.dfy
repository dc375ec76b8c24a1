/**
 The steps of _wait_sem and of sched keep the invariant.
 */
module KernelWait {
  import opened Basics
  import opened Scheduler
  import opened Kernel
  import opened KernelInvariant
  import opened KernelSteps

  // ----- _wait_sem

  lemma WaitFastOne(s: State, p: Pid, x: SemId, w: WaitFor)
    requires Inv(s) && CanWait(s, p, x, w) && s.sems[x].val > 0
    ensures OneStep(s, WaitFast(s, p, x, w), p, x)
  {
    hide Inv, SchedOk, TokensOk, ProcsOk, LockChange;
    Facts(s, p, x);
    NoLocks(s, WaitFast(s, p, x, w), p);
  }

  /** The tokens of q still match when its children changed by as much as its tokens. */
  lemma TokensShift(s: State, r: State, q: Pid, n: int)
    requires q in s.procs && q in r.procs && ChildExit(q) in s.sems && ChildExit(q) in r.sems && TokensOf(s, q)
    requires |Kids(r, q)| == |Kids(s, q)| + n
    requires Max0(r.sems[ChildExit(q)].val) + (if Holding(r, q) then 1 else 0)
             + (if q == ROOT && AdoptionPending(r) then 1 else 0)
          == Max0(s.sems[ChildExit(q)].val) + (if Holding(s, q) then 1 else 0)
             + (if q == ROOT && AdoptionPending(s) then 1 else 0) + n
    ensures TokensOf(r, q)
  {
  }

  /** A token that wait() takes at once is in its hand afterwards. */
  lemma WaitFastToken(s: State, p: Pid, x: SemId, w: WaitFor, q: Pid)
    requires CanWait(s, p, x, w) && s.sems[x].val > 0
    requires q in s.procs && ChildExit(q) in s.sems && TokensOf(s, q)
    ensures TokensOf(WaitFast(s, p, x, w), q)
  {
    hide Kids, TokensOf;
    var r := WaitFast(s, p, x, w);
    KidsKept(s, r, p, q);
    TokensShift(s, r, q, 0);
  }

  lemma WaitFastTokens(s: State, p: Pid, x: SemId, w: WaitFor)
    requires TokensOk(s) && CanWait(s, p, x, w) && s.sems[x].val > 0
    ensures TokensOk(WaitFast(s, p, x, w))
  {
    hide TokensOf;
    var r := WaitFast(s, p, x, w);
    forall q | q in r.procs && ChildExit(q) in r.sems && !Exits(r.procs[q].pc) ensures TokensOf(r, q) {
      WaitFastToken(s, p, x, w, q);
    }
  }

  lemma WaitFastKeeps(s: State, p: Pid, x: SemId, w: WaitFor)
    requires Inv(s) && CanWait(s, p, x, w) && s.sems[x].val > 0
    ensures Inv(WaitFast(s, p, x, w))
  {
    hide OneStep, ProcsOk, LocksOk, SemsOk, WakeOk, TokensOk, SchedOk;
    WaitFastOne(s, p, x, w);
    WaitFastTokens(s, p, x, w);
    SchedKept(s, WaitFast(s, p, x, w));
    OneStepKeeps(s, WaitFast(s, p, x, w), p, x);
  }

  lemma WaitSlowOne(s: State, p: Pid, x: SemId, alertable: bool, w: WaitFor)
    requires Inv(s) && CanWait(s, p, x, w) && s.sems[x].val <= 0
    ensures OneStep(s, WaitSlow(s, p, x, alertable, w), p, x)
  {
    hide Inv, SchedOk, TokensOk, ProcsOk, LockChange;
    Facts(s, p, x);
    WaitSlowLocks(s, p, x, alertable, w);
  }

  lemma WaitSlowLocks(s: State, p: Pid, x: SemId, alertable: bool, w: WaitFor)
    requires CanWait(s, p, x, w) && s.sems[x].val <= 0
    ensures LockChange(s, WaitSlow(s, p, x, alertable, w), p)
  {
  }

  lemma WaitSlowKeeps(s: State, p: Pid, x: SemId, alertable: bool, w: WaitFor)
    requires Inv(s) && CanWait(s, p, x, w) && s.sems[x].val <= 0
    ensures Inv(WaitSlow(s, p, x, alertable, w))
  {
    hide OneStep, ProcsOk, LocksOk, SemsOk, WakeOk, TokensOk, SchedOk;
    WaitSlowOne(s, p, x, alertable, w);
    SchedKept(s, WaitSlow(s, p, x, alertable, w));
    TokensKept(s, WaitSlow(s, p, x, alertable, w), p);
    OneStepKeeps(s, WaitSlow(s, p, x, alertable, w), p, x);
  }

  lemma Sems(s: State, p: Pid)
    requires ProcsOk(s) && p in s.procs
    ensures ChildExit(p) in s.sems && (HasSem(s.procs[p].pc) ==> s.procs[p].pc.x in s.sems)
    ensures s.procs[p].parent in s.procs && ChildExit(s.procs[p].parent) in s.sems && ChildExit(ROOT) in s.sems
    ensures ROOT in s.procs
  {
    assert Links(s, p) && Links(s, ROOT) && Links(s, s.procs[p].parent);
  }

  lemma HandOverOne(s: State, p: Pid)
    requires Inv(s) && CanHandOver(s, p)
    ensures OneStep(s, HandOver(s, p), p, s.procs[p].pc.x) && SchedOk(HandOver(s, p))
  {
    hide ProcsOk, LocksOk, SemsOk, WakeOk, TokensOk, SchedOk;
    Sems(s, p);
    Facts(s, p, s.procs[p].pc.x);
    SchedKept(s, HandOver(s, p));
  }

  lemma HandOverKeeps(s: State, p: Pid)
    requires Inv(s) && CanHandOver(s, p)
    ensures Inv(HandOver(s, p))
  {
    hide OneStep, ProcsOk, LocksOk, SemsOk, WakeOk, TokensOk, SchedOk;
    HandOverOne(s, p);
    TokensKept(s, HandOver(s, p), p);
    OneStepKeeps(s, HandOver(s, p), p, s.procs[p].pc.x);
  }

  lemma LeaveOnly(s: State, c: nat, st: PState)
    requires c < |s.cur| == |s.idle| && (s.cur[c].Some? ==> s.cur[c].value in s.procs)
    ensures SchedOnly(s, Leave(s, c, st))
  {
    hide Without;
  }

  lemma EnterOnly(s: State, c: nat)
    requires c < |s.cur| == |s.idle|
    ensures SchedOnly(s, Enter(s, c))
  {
  }

  lemma SwitchOnly(s: State, c: nat, st: PState)
    requires c < |s.cur| == |s.idle| && (s.cur[c].Some? ==> s.cur[c].value in s.procs)
    ensures SchedOnly(s, Switch(s, c, st))
  {
    hide Without, Pick, Entries;
    LeaveOnly(s, c, st);
    EnterOnly(Leave(s, c, st), c);
  }

  lemma SwitchStates(s: State, c: nat, st: PState)
    requires SchedOk(s) && c < |s.cur| && s.cur[c].Some?
    ensures var r, p := Switch(s, c, st), s.cur[c].value;
            && r.procs.Keys == s.procs.Keys
            && StateSteps(s, r, p, p)
            && (r.procs[p].state == st || (st == RUNNABLE && r.procs[p].state == RUNNING))
  {
    var p := s.cur[c].value;
    var m := Leave(s, c, st);
    assert st != RUNNABLE ==> !Ready(Entries(m.procs), p);
  }

  /** _wait_sem at the call of sched, before the switch. */
  function SleepMid(s: State, p: Pid): (m: State)
    requires p in s.procs && s.procs[p].pc.Sleeping?
  {
    SetPc(s, p, Woken(s.procs[p].pc.x, s.procs[p].pc.w)).(schedLock := None)
  }

  lemma SleepControl(s: State, p: Pid)
    requires Inv(s) && p in s.procs && s.procs[p].pc.Sleeping?
    ensures OneControl(s, SleepMid(s, p), p, s.procs[p].pc.x) && Local(s.procs[p], p)
  {
    hide Inv, SchedOk, TokensOk, ProcsOk, LockChange;
    InvProcs(s);
    Sems(s, p);
    Facts(s, p, s.procs[p].pc.x);
    SleepLocks(s, p);
  }

  lemma SleepLocks(s: State, p: Pid)
    requires p in s.procs && s.procs[p].pc.Sleeping?
    ensures LockChange(s, SleepMid(s, p), p)
  {
  }

  lemma SleepFrame(s: State, p: Pid)
    requires Inv(s) && p in s.procs && s.procs[p].pc.Sleeping?
    ensures SchedOk(SleepMid(s, p)) && TokensOk(SleepMid(s, p))
  {
    hide Inv, SchedOk, TokensOk, ProcsOk;
    InvProcs(s);
    SchedKept(s, SleepMid(s, p));
    TokensKept(s, SleepMid(s, p), p);
  }

  lemma SleepKeeps(s: State, p: Pid, c: nat)
    requires Inv(s) && CanSleep(s, p, c)
    ensures Inv(Sleep(s, p, c))
  {
    hide Inv, SchedOk, TokensOk, ProcsOk, Switch, OneControl;
    var x := s.procs[p].pc.x;
    var r := Sleep(s, p, c);
    var m := SleepMid(s, p);
    SleepControl(s, p);
    SleepFrame(s, p);
    if !s.procs[p].killed {
      var st := if s.procs[p].pc.alertable then SLEEPING else DEEPSLEEPING;
      SwitchSched(m, c, st);
      SwitchParts(m, c);
      SwitchOnly(m, c, st);
      SwitchStates(m, c, st);
      ControlThenSched(s, m, r, p, x);
      TokensSame(m, r);
    }
    assert OneState(s, r, p);
    OneStepKeeps(s, r, p, x);
  }

  /** What SchedOk says of CPU c. */
  lemma SwitchParts(s: State, c: nat)
    requires SchedOk(s) && c < |s.cur|
    ensures c < |s.idle| == |s.cur| && (s.cur[c].Some? ==> s.cur[c].value in s.procs)
  {
  }

  lemma TokensSame(m: State, r: State)
    requires TokensOk(m) && SchedOnly(m, r)
    ensures TokensOk(r)
  {
    forall q | q in r.procs && ChildExit(q) in r.sems && !Exits(r.procs[q].pc) ensures TokensOf(r, q) {
      assert Kids(r, q) == Kids(m, q);
      assert TokensOf(m, q);
    }
  }

  lemma InvProcs(s: State)
    requires Inv(s)
    ensures ProcsOk(s) && TokensOk(s) && SchedOk(s)
  {
  }

  // ----- _wait_sem, last part

  lemma WakeUpOne(s: State, p: Pid)
    requires Inv(s) && CanWakeUp(s, p)
    ensures OneStep(s, WakeUp(s, p), p, s.procs[p].pc.x)
  {
    hide Inv, SchedOk, TokensOk, ProcsOk, LockChange, Without;
    var x := s.procs[p].pc.x;
    Facts(s, p, x);
    WithoutMembers(s.sems[x].queue, p);
    NoLocks(s, WakeUp(s, p), p);
  }

  lemma WakeUpKeeps(s: State, p: Pid)
    requires Inv(s) && CanWakeUp(s, p)
    ensures Inv(WakeUp(s, p))
  {
    hide OneStep, Inv, ProcsOk, TokensOk, SchedOk, Without;
    var x := s.procs[p].pc.x;
    Facts(s, p, x);
    WakeUpOne(s, p);
    SchedKept(s, WakeUp(s, p));
    TokensKept(s, WakeUp(s, p), p);
    OneStepKeeps(s, WakeUp(s, p), p, x);
  }

  // ----- sched without a wait

  /** Rescheduling keeps the invariant when state and program counter of each process go on to agree. */
  lemma SchedOnlyKeeps(s: State, r: State)
    requires Inv(s) && SchedOnly(s, r) && SchedOk(r)
    requires forall z :: z in r.procs ==> Local(r.procs[z], z)
    requires forall z :: z in s.procs && Asleep(r.procs[z].state) ==> Asleep(s.procs[z].state)
    ensures Inv(r)
  {
    hide ProcsOk, LocksOk, SchedOk, SemsOk, WakeOk, TokensOk, Local, SchedOnly, Asleep;
    TokensSame(s, r);
    SchedOnlyProcs(s, r);
    SchedOnlyLocks(s, r);
    SchedOnlySems(s, r);
    SchedOnlyWake(s, r);
  }

  lemma SchedOnlyProcs(s: State, r: State)
    requires ProcsOk(s) && SchedOnly(s, r)
    requires forall z :: z in r.procs ==> Local(r.procs[z], z)
    ensures ProcsOk(r)
  {
    hide Local, Links;
    forall z | z in r.procs ensures Links(r, z) {
      SchedOnlyLinks(s, r, z);
    }
  }

  lemma SchedOnlyLinks(s: State, r: State, z: Pid)
    requires SchedOnly(s, r) && z in s.procs && Links(s, z)
    ensures Links(r, z)
  {
  }

  lemma SchedOnlyLocks(s: State, r: State)
    requires LocksOk(s) && SchedOnly(s, r)
    ensures LocksOk(r)
  {
  }

  lemma SchedOnlySems(s: State, r: State)
    requires SemsOk(s) && SchedOnly(s, r)
    ensures SemsOk(r)
  {
    hide SemOk;
  }

  lemma SchedOnlyWake(s: State, r: State)
    requires WakeOk(s) && SchedOnly(s, r)
    requires forall z :: z in s.procs && Asleep(r.procs[z].state) ==> Asleep(s.procs[z].state)
    ensures WakeOk(r)
  {
  }

  /** Rescheduling that puts no process to sleep. */
  lemma SwitchLocals(s: State, c: nat)
    requires ProcsOk(s) && SchedOk(s) && c < |s.cur|
    requires s.cur[c].Some? ==> s.cur[c].value in s.procs && LockFree(s.procs[s.cur[c].value].pc)
    ensures var r := Switch(s, c, RUNNABLE);
            && r.procs.Keys == s.procs.Keys
            && (forall z :: z in r.procs ==> Local(r.procs[z], z))
            && (forall z :: z in s.procs && Asleep(r.procs[z].state) ==> Asleep(s.procs[z].state))
  {
    hide ProcsOk, Without, Pick, Entries;
    SwitchParts(s, c);
    SwitchOnly(s, c, RUNNABLE);
    var r := Switch(s, c, RUNNABLE);
    forall z | z in s.procs ensures Local(r.procs[z], z) && (Asleep(r.procs[z].state) ==> Asleep(s.procs[z].state)) {
      OneLocal(s, z);
      SwitchLocal(s, c, z);
    }
  }

  lemma OneLocal(s: State, z: Pid)
    requires ProcsOk(s) && z in s.procs
    ensures Local(s.procs[z], z)
  {
    hide Local, Links;
  }

  predicate InRq(st: PState) { st == RUNNABLE || st == RUNNING }

  lemma SwitchLocal(s: State, c: nat, z: Pid)
    requires SchedOk(s) && c < |s.cur| == |s.idle| && z in s.procs && Local(s.procs[z], z)
    requires s.cur[c].Some? ==> s.cur[c].value in s.procs && LockFree(s.procs[s.cur[c].value].pc)
    requires SchedOnly(s, Switch(s, c, RUNNABLE))
    ensures var r := Switch(s, c, RUNNABLE);
            && Local(r.procs[z], z) && (Asleep(r.procs[z].state) ==> Asleep(s.procs[z].state))
  {
    hide SchedOk, Switch, WaitTarget, Exits;
    SwitchState(s, c, z);
  }

  lemma SwitchState(s: State, c: nat, z: Pid)
    requires SchedOk(s) && c < |s.cur| == |s.idle| && z in s.procs && (s.cur[c].Some? ==> s.cur[c].value in s.procs)
    requires SchedOnly(s, Switch(s, c, RUNNABLE))
    ensures var t, u := s.procs[z].state, Switch(s, c, RUNNABLE).procs[z].state;
            t == u || (InRq(t) && InRq(u) && (t == RUNNABLE || s.cur[c] == Some(z)))
  {
    hide Without;
    var m := Leave(s, c, RUNNABLE);
    assert s.cur[c] != Some(z) ==> m.procs[z] == s.procs[z];
  }

  lemma YieldKeeps(s: State, p: Pid, c: nat)
    requires Inv(s) && CanYield(s, p, c)
    ensures Inv(Yield(s, p, c))
  {
    hide Inv, ProcsOk, SchedOk, TokensOk, Switch, SchedOnly, Asleep, Local;
    if !s.procs[p].killed {
      InvProcs(s);
      SwitchSched(s, c, RUNNABLE);
      SwitchLocals(s, c);
      SwitchOnly(s, c, RUNNABLE);
      SchedOnlyKeeps(s, Switch(s, c, RUNNABLE));
    }
  }

  lemma IdleYieldKeeps(s: State, c: nat)
    requires Inv(s) && CanIdle(s, c)
    ensures Inv(IdleYield(s, c))
  {
    hide Inv, ProcsOk, SchedOk, TokensOk, Switch, SchedOnly, Asleep, Local;
    InvProcs(s);
    SwitchSched(s, c, RUNNABLE);
    SwitchLocals(s, c);
    SwitchOnly(s, c, RUNNABLE);
    SchedOnlyKeeps(s, Switch(s, c, RUNNABLE));
  }
}
