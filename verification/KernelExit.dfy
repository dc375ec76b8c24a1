/**
 The steps of fork, wait and exit keep the invariant.
 */
module KernelExit {
  import opened Basics
  import opened Scheduler
  import opened Kernel
  import opened KernelInvariant
  import opened KernelSteps
  import opened KernelWait
  import opened KernelPost

  // ----- create_proc and set_parent_to_this

  /** A process number that has never been used. */
  predicate NewPid(s: State, child: Pid) {
    child !in s.procs && child !in s.reaped && ChildExit(child) !in s.sems
  }

  lemma ForkLinks(s: State, par: Pid, child: Pid, z: Pid)
    requires NewPid(s, child) && z in s.procs && Links(s, z)
    ensures Links(Fork(s, par, child), z)
  {
  }

  lemma ForkChild(s: State, par: Pid, child: Pid)
    requires NewPid(s, child) && par in s.procs && !Gone(s.procs[par].pc)
    ensures var r := Fork(s, par, child); Links(r, child) && Local(r.procs[child], child)
  {
  }

  lemma ForkProcs(s: State, par: Pid, child: Pid)
    requires ProcsOk(s) && NewPid(s, child) && par in s.procs && !Gone(s.procs[par].pc)
    ensures ProcsOk(Fork(s, par, child))
  {
    hide Local, Links;
    var r := Fork(s, par, child);
    ForkChild(s, par, child);
    forall z | z in r.procs ensures Links(r, z) {
      if z != child { ForkLinks(s, par, child, z); }
    }
  }

  lemma ForkLocks(s: State, par: Pid, child: Pid)
    requires LocksOk(s) && NewPid(s, child)
    ensures LocksOk(Fork(s, par, child))
  {
  }

  lemma ForkSched(s: State, par: Pid, child: Pid)
    requires SchedOk(s) && NewPid(s, child)
    ensures SchedOk(Fork(s, par, child))
  {
  }

  lemma ForkSems(s: State, par: Pid, child: Pid)
    requires SemsOk(s) && NewPid(s, child)
    ensures SemsOk(Fork(s, par, child)) && (WakeOk(s) ==> WakeOk(Fork(s, par, child)))
  {
    var r := Fork(s, par, child);
    assert SemOk(r.sems[ChildExit(child)]);
    hide SemOk;
  }

  lemma ForkKids(s: State, par: Pid, child: Pid, z: Pid)
    requires NewPid(s, child) && forall c :: c in s.procs ==> s.procs[c].parent != child
    ensures Kids(Fork(s, par, child), z) == if z == child then {} else Kids(s, z)
  {
  }

  lemma NoKids(s: State, child: Pid)
    requires ProcsOk(s) && child !in s.procs
    ensures forall c :: c in s.procs ==> s.procs[c].parent != child
  {
    hide Local, Links;
    forall c | c in s.procs ensures s.procs[c].parent != child {
      Sems(s, c);
    }
  }

  /** A process that has just been created has no children and its parent no token for it. */
  lemma ForkToken(s: State, par: Pid, child: Pid, z: Pid)
    requires NewPid(s, child) && z in Fork(s, par, child).procs
    requires forall c :: c in s.procs ==> s.procs[c].parent != child
    requires ChildExit(z) in Fork(s, par, child).sems && child != ROOT
    requires z != child ==> ChildExit(z) in s.sems && TokensOf(s, z)
    ensures TokensOf(Fork(s, par, child), z)
  {
    hide Kids;
    ForkKids(s, par, child, z);
    if z != child {
      TokensShift(s, Fork(s, par, child), z, 0);
    }
  }

  lemma ForkKeeps(s: State, par: Pid, child: Pid)
    requires Inv(s) && NewPid(s, child) && par in s.procs && !Gone(s.procs[par].pc)
    ensures Inv(Fork(s, par, child))
  {
    hide ProcsOk, LocksOk, SemsOk, WakeOk, SchedOk, TokensOf;
    var r := Fork(s, par, child);
    ForkProcs(s, par, child);
    ForkLocks(s, par, child);
    ForkSched(s, par, child);
    ForkSems(s, par, child);
    NoKids(s, child);
    RootThere(s);
    forall z | z in r.procs && ChildExit(z) in r.sems && !Exits(r.procs[z].pc) ensures TokensOf(r, z) {
      ForkToken(s, par, child, z);
    }
  }

  // ----- start_proc

  lemma BeginStartOne(s: State, p: Pid, child: Pid)
    requires Inv(s) && At(s, p) && s.procs[p].pc.Run? && s.procLock.None? && ChildExit(p) in s.sems
    requires child in s.procs && child != p && s.procs[child].pc.NotStarted?
    ensures OneStep(s, BeginStart(s, p, child), p, ChildExit(p))
  {
    hide Inv, SchedOk, TokensOk, ProcsOk, QueueChange, StillThere;
    Facts(s, p, ChildExit(p));
    NoWait(s, BeginStart(s, p, child), p, ChildExit(p));
  }

  lemma BeginStartKeeps(s: State, p: Pid, child: Pid)
    requires Inv(s) && At(s, p) && s.procs[p].pc.Run? && s.procLock.None?
    requires child in s.procs && child != p && s.procs[child].pc.NotStarted?
    ensures Inv(BeginStart(s, p, child))
  {
    hide OneStep, Inv, ProcsOk, TokensOk, SchedOk;
    var r := BeginStart(s, p, child);
    Targets(s, p);
    InvProcs(s);
    BeginStartOne(s, p, child);
    SchedKept(s, r);
    TokensKept(s, r, p);
    OneStepKeeps(s, r, p, ChildExit(p));
  }

  /** A process that is started without a parent becomes a child of root. */
  lemma OrphanKeeps(s: State, p: Pid, child: Pid)
    requires Inv(s) && CanFork(s, p, child)
    ensures Inv(Orphan(s, p, child))
  {
    hide Inv, ProcsOk, TokensOk, SchedOk;
    InvProcs(s);
    RootThere(s);
    ForkKeeps(s, ROOT, child);
    BeginStartKeeps(Fork(s, ROOT, child), p, child);
  }

  /** start_proc drops the process lock. */
  function StartMid(s: State, p: Pid): (m: State)
    requires p in s.procs
  {
    SetPc(s, p, Run).(procLock := None)
  }

  lemma StartMidOne(s: State, p: Pid)
    requires Inv(s) && At(s, p) && s.procs[p].pc.Starting? && ChildExit(p) in s.sems
    ensures OneStep(s, StartMid(s, p), p, ChildExit(p))
    ensures s.procs[p].pc.child in s.procs && s.procs[p].pc.child != p && s.procs[s.procs[p].pc.child].pc.NotStarted?
  {
    hide Inv, SchedOk, TokensOk, ProcsOk, QueueChange, StillThere;
    Facts(s, p, ChildExit(p));
    NoWait(s, StartMid(s, p), p, ChildExit(p));
  }

  lemma StartMidKeeps(s: State, p: Pid)
    requires Inv(s) && At(s, p) && s.procs[p].pc.Starting?
    ensures Inv(StartMid(s, p))
    ensures s.procs[p].pc.child in s.procs && s.procs[p].pc.child != p && s.procs[s.procs[p].pc.child].pc.NotStarted?
  {
    hide OneStep, Inv, ProcsOk, TokensOk, SchedOk;
    Targets(s, p);
    Facts(s, p, ChildExit(p));
    StartMidOne(s, p);
    SchedKept(s, StartMid(s, p));
    TokensKept(s, StartMid(s, p), p);
    OneStepKeeps(s, StartMid(s, p), p, ChildExit(p));
  }

  lemma FirstRunOne(s: State, child: Pid)
    requires Inv(s) && child in s.procs && s.procs[child].pc.NotStarted? && s.procLock.None?
    requires ChildExit(child) in s.sems
    ensures OneStep(s, FirstRun(s, child), child, ChildExit(child))
  {
    hide Inv, SchedOk, TokensOk, ProcsOk;
    Facts(s, child, ChildExit(child));
  }

  lemma FirstRunSched(s: State, child: Pid)
    requires SchedOk(s) && child in s.procs
    ensures SchedOk(FirstRun(s, child))
  {
    hide SchedOk;
    ActivateSched(s, child, false);
    SchedKept(Activate(s, child, false), FirstRun(s, child));
  }

  lemma FirstRunTokens(s: State, child: Pid)
    requires TokensOk(s) && ProcsOk(s) && child in s.procs && s.procs[child].pc.NotStarted? && s.procLock.None?
    ensures TokensOk(FirstRun(s, child))
  {
    hide TokensOk, ProcsOk;
    TokensKept(s, FirstRun(s, child), child);
  }

  lemma FirstRunKeeps(s: State, child: Pid)
    requires Inv(s) && child in s.procs && s.procs[child].pc.NotStarted? && s.procLock.None?
    ensures Inv(FirstRun(s, child))
  {
    hide OneStep, Inv, ProcsOk, TokensOk, SchedOk, FirstRun;
    Targets(s, child);
    InvProcs(s);
    FirstRunOne(s, child);
    FirstRunSched(s, child);
    FirstRunTokens(s, child);
    OneStepKeeps(s, FirstRun(s, child), child, ChildExit(child));
  }

  lemma StartKeeps(s: State, p: Pid)
    requires Inv(s) && CanStart(s, p)
    ensures s.procs[p].pc.child in s.procs && Inv(Start(s, p))
  {
    hide Inv, FirstRun;
    StartMidKeeps(s, p);
    FirstRunKeeps(StartMid(s, p), s.procs[p].pc.child);
  }

  // ----- wait, with a token

  lemma CollectOne(s: State, p: Pid)
    requires Inv(s) && CanCollect(s, p) && ChildExit(p) in s.sems
    ensures OneStep(s, Collect(s, p), p, ChildExit(p))
  {
    hide Inv, SchedOk, TokensOk, ProcsOk, QueueChange, StillThere;
    Facts(s, p, ChildExit(p));
    NoWait(s, Collect(s, p), p, ChildExit(p));
  }

  lemma CollectKeeps(s: State, p: Pid)
    requires Inv(s) && CanCollect(s, p)
    ensures Inv(Collect(s, p))
  {
    hide OneStep, Inv, ProcsOk, TokensOk, SchedOk;
    Targets(s, p);
    InvProcs(s);
    CollectOne(s, p);
    SchedKept(s, Collect(s, p));
    TokensKept(s, Collect(s, p), p);
    OneStepKeeps(s, Collect(s, p), p, ChildExit(p));
  }

  lemma ReapLinks(s: State, p: Pid, child: Pid, z: Pid)
    requires CanReap(s, p) && IsZombieChild(s, p, child) && s.procs[child].pc.Dead?
    requires z in s.procs && z != child && Links(s, z) && !s.procs[z].pc.Alerting? && !s.procs[z].pc.Starting?
    ensures Links(Reap(s, p, child), z)
  {
  }

  /** Nobody but p holds the process lock, and nobody the sched lock. */
  lemma NoHolders(s: State, z: Pid)
    requires LocksOk(s) && z in s.procs
    ensures s.procLock != Some(z) ==> !HoldsProc(s.procs[z].pc)
    ensures s.schedLock.None? ==> !HoldsSched(s.procs[z].pc)
  {
    hide SemLocksOk;
  }

  lemma LockOf(s: State, p: Pid)
    requires LocksOk(s) && p in s.procs && HoldsProc(s.procs[p].pc)
    ensures s.procLock == Some(p)
  {
    hide SemLocksOk;
  }

  lemma ReapLocal(s: State, p: Pid, child: Pid)
    requires ProcsOk(s) && CanReap(s, p) && IsZombieChild(s, p, child)
    ensures forall z :: z in Reap(s, p, child).procs ==> Local(Reap(s, p, child).procs[z], z)
    ensures s.procs[child].pc.Dead? && child != ROOT
  {
    hide Links;
    assert Local(s.procs[child], child);
  }

  lemma ReapProcs(s: State, p: Pid, child: Pid)
    requires ProcsOk(s) && LocksOk(s) && CanReap(s, p) && IsZombieChild(s, p, child)
    ensures ProcsOk(Reap(s, p, child))
  {
    hide Local, Links, LocksOk;
    var r := Reap(s, p, child);
    ReapLocal(s, p, child);
    LockOf(s, p);
    forall z | z in r.procs ensures Links(r, z) {
      NoHolders(s, z);
      ReapLinks(s, p, child, z);
    }
  }

  lemma ReapLocks(s: State, p: Pid, child: Pid)
    requires LocksOk(s) && CanReap(s, p) && IsZombieChild(s, p, child) && s.procs[child].pc.Dead?
    ensures LocksOk(Reap(s, p, child))
  {
  }

  lemma ReapSched(s: State, p: Pid, child: Pid)
    requires SchedOk(s) && CanReap(s, p) && IsZombieChild(s, p, child)
    ensures SchedOk(Reap(s, p, child))
  {
  }

  lemma ReapSems(s: State, p: Pid, child: Pid)
    requires SemsOk(s) && CanReap(s, p) && IsZombieChild(s, p, child) && s.procs[child].pc.Dead?
    ensures SemsOk(Reap(s, p, child)) && (WakeOk(s) ==> WakeOk(Reap(s, p, child)))
  {
    hide SemOk;
  }

  /** The token of p is used up and so is one of its children. */
  lemma ReapToken(s: State, p: Pid, child: Pid, z: Pid)
    requires CanReap(s, p) && s.procLock == Some(p) && IsZombieChild(s, p, child) && s.procs[child].pc.Dead?
    requires z in s.procs && z != child && ChildExit(z) in s.sems && TokensOf(s, z)
    ensures TokensOf(Reap(s, p, child), z)
  {
    hide Kids;
    var r := Reap(s, p, child);
    KidsReaped(s, p, child, z);
    TokensShift(s, r, z, if z == p then -1 else 0);
  }

  lemma KidsRemoved(s: State, r: State, child: Pid, z: Pid)
    requires r.procs.Keys == s.procs.Keys - {child}
    requires forall c :: c in r.procs ==>
               r.procs[c].parent == s.procs[c].parent && Posted(r.procs[c].pc) == Posted(s.procs[c].pc)
    ensures Kids(r, z) == Kids(s, z) - {child}
  {
    hide Posted;
  }

  lemma KidsReaped(s: State, p: Pid, child: Pid, z: Pid)
    requires CanReap(s, p) && IsZombieChild(s, p, child) && s.procs[child].pc.Dead? && z != child
    ensures |Kids(Reap(s, p, child), z)| == |Kids(s, z)| - if z == p then 1 else 0
  {
    KidsRemoved(s, Reap(s, p, child), child, z);
    assert child in Kids(s, z) <==> z == p;
  }

  lemma ReapKeeps(s: State, p: Pid, child: Pid)
    requires Inv(s) && CanReap(s, p) && IsZombieChild(s, p, child)
    ensures Inv(Reap(s, p, child))
  {
    hide ProcsOk, LocksOk, SemsOk, WakeOk, SchedOk, TokensOf;
    var r := Reap(s, p, child);
    ReapLocal(s, p, child);
    ReapProcs(s, p, child);
    ReapLocks(s, p, child);
    ReapSched(s, p, child);
    ReapSems(s, p, child);
    LockOf(s, p);
    forall z | z in r.procs && ChildExit(z) in r.sems && !Exits(r.procs[z].pc) ensures TokensOf(r, z) {
      ReapToken(s, p, child, z);
    }
  }

  // ----- exit

  lemma ExitBeginOne(s: State, p: Pid)
    requires Inv(s) && CanExit(s, p) && ChildExit(p) in s.sems
    ensures OneStep(s, ExitBegin(s, p), p, ChildExit(p))
  {
    hide Inv, SchedOk, TokensOk, ProcsOk;
    Facts(s, p, ChildExit(p));
  }

  lemma ExitBeginKeeps(s: State, p: Pid)
    requires Inv(s) && CanExit(s, p)
    ensures Inv(ExitBegin(s, p))
  {
    hide OneStep, Inv, ProcsOk, TokensOk, SchedOk;
    Targets(s, p);
    InvProcs(s);
    ExitBeginOne(s, p);
    SchedKept(s, ExitBegin(s, p));
    TokensKept(s, ExitBegin(s, p), p);
    OneStepKeeps(s, ExitBegin(s, p), p, ChildExit(p));
  }

  lemma ExitLeftOne(s: State, p: Pid)
    requires Inv(s) && CanLeave(s, p) && ChildExit(p) in s.sems
    ensures OneStep(s, ExitLeft(s, p), p, ChildExit(p))
  {
    hide Inv, SchedOk, TokensOk, ProcsOk;
    Facts(s, p, ChildExit(p));
  }

  lemma ExitLeftKeeps(s: State, p: Pid)
    requires Inv(s) && CanLeave(s, p)
    ensures Inv(ExitLeft(s, p))
  {
    hide OneStep, Inv, ProcsOk, TokensOk, SchedOk;
    Targets(s, p);
    Facts(s, p, ChildExit(p));
    ExitLeftOne(s, p);
    SchedKept(s, ExitLeft(s, p));
    TokensKept(s, ExitLeft(s, p), p);
    OneStepKeeps(s, ExitLeft(s, p), p, ChildExit(p));
  }

  lemma TellOne(s: State, p: Pid)
    requires Inv(s) && CanTell(s, p) && ChildExit(p) in s.sems
    ensures OneStep(s, Tell(s, p), p, ChildExit(p))
  {
    hide Inv, SchedOk, TokensOk, ProcsOk, QueueChange, StillThere;
    Facts(s, p, ChildExit(p));
    NoWait(s, Tell(s, p), p, ChildExit(p));
  }

  lemma TellKeeps(s: State, p: Pid)
    requires Inv(s) && CanTell(s, p)
    ensures Inv(Tell(s, p))
  {
    hide OneStep, Inv, ProcsOk, TokensOk, SchedOk;
    Targets(s, p);
    InvProcs(s);
    TellOne(s, p);
    SchedKept(s, Tell(s, p));
    TokensKept(s, Tell(s, p), p);
    OneStepKeeps(s, Tell(s, p), p, ChildExit(p));
  }

  lemma TakeSchedOne(s: State, p: Pid)
    requires Inv(s) && CanTakeSched(s, p) && ChildExit(p) in s.sems
    ensures OneStep(s, TakeSched(s, p), p, ChildExit(p))
  {
    hide Inv, SchedOk, TokensOk, ProcsOk;
    Facts(s, p, ChildExit(p));
  }

  lemma TakeSchedKeeps(s: State, p: Pid)
    requires Inv(s) && CanTakeSched(s, p)
    ensures Inv(TakeSched(s, p))
  {
    hide OneStep, Inv, ProcsOk, TokensOk, SchedOk;
    Targets(s, p);
    Facts(s, p, ChildExit(p));
    TakeSchedOne(s, p);
    SchedKept(s, TakeSched(s, p));
    TokensKept(s, TakeSched(s, p), p);
    OneStepKeeps(s, TakeSched(s, p), p, ChildExit(p));
  }

  /** exit at the call of sched, before the switch. */
  function DieMid(s: State, p: Pid): (m: State)
    requires p in s.procs
  {
    SetPc(s, p, Dead).(schedLock := None)
  }

  lemma DieControl(s: State, p: Pid)
    requires Inv(s) && p in s.procs && s.procs[p].pc.Dying? && ChildExit(p) in s.sems
    ensures OneControl(s, DieMid(s, p), p, ChildExit(p)) && Local(s.procs[p], p)
  {
    hide Inv, SchedOk, TokensOk, ProcsOk;
    Facts(s, p, ChildExit(p));
  }

  lemma DieFrame(s: State, p: Pid)
    requires Inv(s) && p in s.procs && s.procs[p].pc.Dying? && ChildExit(p) in s.sems
    ensures SchedOk(DieMid(s, p)) && TokensOk(DieMid(s, p))
  {
    hide Inv, SchedOk, TokensOk, ProcsOk;
    InvProcs(s);
    Facts(s, p, ChildExit(p));
    SchedKept(s, DieMid(s, p));
    TokensKept(s, DieMid(s, p), p);
  }

  lemma DieKeeps(s: State, p: Pid, c: nat)
    requires Inv(s) && CanDie(s, p, c)
    ensures Inv(Die(s, p, c))
  {
    hide Inv, SchedOk, TokensOk, ProcsOk, Switch, OneControl;
    var r := Die(s, p, c);
    var m := DieMid(s, p);
    Targets(s, p);
    DieControl(s, p);
    DieFrame(s, p);
    SwitchSched(m, c, ZOMBIE);
    SwitchParts(m, c);
    SwitchOnly(m, c, ZOMBIE);
    SwitchStates(m, c, ZOMBIE);
    ControlThenSched(s, m, r, p, ChildExit(p));
    TokensSame(m, r);
    DieState(s, r, p);
    hide SchedOnly, OneState, StateSteps, Local, Die;
    OneStepKeeps(s, r, p, ChildExit(p));
  }

  /** Only p changes to a state that its program counter has to follow, and p is dead. */
  lemma DieState(s: State, r: State, p: Pid)
    requires p in s.procs && p in r.procs && Local(s.procs[p], p) && StateSteps(DieMid(s, p), r, p, p)
    requires r.procs[p].state == ZOMBIE && r.procs[p].pc.Dead? && r.procs[p].parent == s.procs[p].parent
    requires s.procs[p].pc.Dying?
    ensures OneState(s, r, p)
  {
  }

  // ----- exit: children go to root

  lemma HandChildControl(s: State, p: Pid, child: Pid)
    requires CanHandChild(s, p, child) && s.procLock == Some(p)
    ensures var r := HandChild(s, p, child);
            && SameControl(s, r, p, child) && LockChange(s, r, p) && r.procs[child].pc == s.procs[child].pc
            && r.procs[child].state == s.procs[child].state && r.procs[p].state == s.procs[p].state
  {
  }

  lemma HandChildLocal(s: State, p: Pid, child: Pid)
    requires Inv(s) && CanHandChild(s, p, child)
    ensures var r := HandChild(s, p, child);
            && Local(r.procs[p], p) && Local(r.procs[child], child) && Links(r, p) && Links(r, child)
            && StillThere(s, r, p) && StillThere(s, r, child) && child != ROOT
  {
    hide Inv, SchedOk, TokensOk, ProcsOk, SemOk;
    Targets(s, p);
    Facts(s, p, ChildExit(p));
    Facts(s, child, ChildExit(p));
    RootThere(s);
  }

  lemma RootThere(s: State)
    requires ProcsOk(s)
    ensures ROOT in s.procs && s.procs[ROOT].parent == ROOT && !Exits(s.procs[ROOT].pc)
  {
    assert Local(s.procs[ROOT], ROOT);
    hide Local, Links;
  }

  lemma HandChildProcs(s: State, p: Pid, child: Pid)
    requires Inv(s) && CanHandChild(s, p, child)
    ensures ProcsOk(HandChild(s, p, child)) && LocksOk(HandChild(s, p, child))
  {
    hide Inv, Local, Links, SchedOk, TokensOk, SemLocksOk, LockChange, StillThere, SemOk;
    var r := HandChild(s, p, child);
    Targets(s, p);
    Facts(s, p, ChildExit(p));
    InvLocks(s);
    RootThere(s);
    HandChildControl(s, p, child);
    HandChildLocal(s, p, child);
    LocksKept(s, r, p, child);
    ProcsKept(s, r, p, child);
  }

  lemma HandChildSems(s: State, p: Pid, child: Pid)
    requires SemsOk(s) && CanHandChild(s, p, child)
    ensures SemsOk(HandChild(s, p, child))
  {
    hide SemOk;
  }

  lemma HandChildWake(s: State, p: Pid, child: Pid)
    requires WakeOk(s) && CanHandChild(s, p, child)
    ensures WakeOk(HandChild(s, p, child))
  {
  }

  lemma KidsMoved(s: State, r: State, child: Pid, z: Pid)
    requires r.procs.Keys == s.procs.Keys && child in s.procs
    requires forall c :: c in r.procs && c != child ==>
               r.procs[c].parent == s.procs[c].parent && Posted(r.procs[c].pc) == Posted(s.procs[c].pc)
    ensures Kids(r, z) - {child} == Kids(s, z) - {child}
  {
    hide Posted;
  }

  lemma KidsAdopted(s: State, p: Pid, child: Pid, z: Pid)
    requires CanHandChild(s, p, child) && z != p && p != ROOT && child != ROOT
    requires Posted(s.procs[child].pc) <==> s.procs[child].state == ZOMBIE
    ensures |Kids(HandChild(s, p, child), z)|
         == |Kids(s, z)| + if z == ROOT && s.procs[child].state == ZOMBIE then 1 else 0
  {
    var r := HandChild(s, p, child);
    KidsMoved(s, r, child, z);
    assert child !in Kids(s, z);
    assert child in Kids(r, z) <==> z == ROOT && s.procs[child].state == ZOMBIE;
    hide Kids;
    assert Kids(s, z) == Kids(s, z) - {child};
    if child in Kids(r, z) {
      assert Kids(r, z) == (Kids(r, z) - {child}) + {child};
    } else {
      assert Kids(r, z) == Kids(r, z) - {child};
    }
  }

  /** Root gets a child and, if that is a zombie already, a token that is still to be sent. */
  lemma HandChildToken(s: State, p: Pid, child: Pid, z: Pid)
    requires CanHandChild(s, p, child) && z != p && p != ROOT && child != ROOT && s.procLock == Some(p)
    requires Posted(s.procs[child].pc) <==> s.procs[child].state == ZOMBIE
    requires z in s.procs && ChildExit(z) in s.sems && TokensOf(s, z)
    ensures TokensOf(HandChild(s, p, child), z)
  {
    hide Kids;
    KidsAdopted(s, p, child, z);
    TokensShift(s, HandChild(s, p, child), z, if z == ROOT && s.procs[child].state == ZOMBIE then 1 else 0);
  }

  lemma HandChildTokens(s: State, p: Pid, child: Pid)
    requires Inv(s) && CanHandChild(s, p, child)
    ensures TokensOk(HandChild(s, p, child))
  {
    hide TokensOf, Inv, ProcsOk, SchedOk, Links, SemOk;
    var r := HandChild(s, p, child);
    Targets(s, p);
    Facts(s, p, ChildExit(p));
    Facts(s, child, ChildExit(p));
    RootThere(s);
    forall z | z in r.procs && ChildExit(z) in r.sems && !Exits(r.procs[z].pc) ensures TokensOf(r, z) {
      HandChildToken(s, p, child, z);
    }
  }

  lemma HandChildKeeps(s: State, p: Pid, child: Pid)
    requires Inv(s) && CanHandChild(s, p, child)
    ensures Inv(HandChild(s, p, child))
  {
    hide ProcsOk, LocksOk, SemsOk, WakeOk, TokensOk, SchedOk;
    HandChildProcs(s, p, child);
    HandChildSems(s, p, child);
    HandChildWake(s, p, child);
    HandChildTokens(s, p, child);
    SchedKept(s, HandChild(s, p, child));
  }
}
