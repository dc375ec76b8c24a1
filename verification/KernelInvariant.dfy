/**
 What every step of the kernel keeps: run queue and CPUs, who holds which lock, semaphore values and
 sleep lists, no lost wakeup, and the childexit tokens of parents.
 */
module KernelInvariant {
  import opened Basics
  import opened Scheduler
  import opened Kernel

  // ----- processes and locks

  /** In exit. */
  predicate Exits(pc: Pc) {
    || pc.Leaving? || pc.Adopting? || pc.Left? || pc.Telling? || pc.Told? || pc.Dying? || pc.Dead?
    || (pc.Waking? && InExit(pc.f))
  }

  /** In exit, with all children handed over. */
  predicate Gone(pc: Pc) {
    pc.Left? || pc.Telling? || pc.Told? || pc.Dying? || pc.Dead? || (pc.Waking? && pc.f == ForParent)
  }

  /** In exit, and its parent has been sent a token for it. */
  predicate Posted(pc: Pc) {
    pc.Told? || pc.Dying? || pc.Dead? || (pc.Waking? && pc.f == ForParent)
  }

  /** State and program counter of p agree. */
  ghost predicate Local(me: Proc, p: Pid) {
    && (me.state == ZOMBIE <==> me.pc.Dead?)
    && (me.state == UNUSED <==> me.pc.NotStarted?)
    && (Asleep(me.state) ==> me.pc.Woken?)
    && (me.state == RUNNABLE ==> LockFree(me.pc))
    && (me.pc.Enqueued? || me.pc.Sleeping? || me.pc.Woken? ==> WaitTarget(p, me.pc.x, me.pc.w))
    && (me.pc.Enqueued? ==> !me.up)
    && (Exits(me.pc) ==> p != ROOT)
    && (me.parent == p ==> p == ROOT)
  }

  /** What p refers to is there: its semaphores, its parent, which can still have children, and the
      process it is waking. */
  ghost predicate Links(s: State, p: Pid)
    requires p in s.procs
  {
    var me := s.procs[p];
    && ChildExit(p) in s.sems && p !in s.reaped
    && (me.pc.Enqueued? || me.pc.Sleeping? || me.pc.Woken? || me.pc.Waking? || me.pc.PostingAll? ==> me.pc.x in s.sems)
    && (me.pc.PostingAll? ==> me.pc.x.Other?)
    && (me.pc.Starting? ==> me.pc.child in s.procs && me.pc.child != p && s.procs[me.pc.child].pc.NotStarted?)
    && (me.pc.Alerting? ==> me.pc.q in s.procs && !s.procs[me.pc.q].pc.NotStarted?)
    && me.parent in s.procs && !Gone(s.procs[me.parent].pc)
    && (me.pc.Waking? ==>
          && me.pc.q in s.procs && me.pc.q != p
          && WaitsOn(s.procs[me.pc.q].pc, me.pc.x) && s.procs[me.pc.q].up
          && PostTarget(s, p, me.pc.x, me.pc.f))
  }

  ghost predicate ProcsOk(s: State) {
    && ROOT in s.procs && s.procs[ROOT].parent == ROOT
    && (forall p :: p in s.procs ==> Local(s.procs[p], p))
    && (forall p :: p in s.procs ==> Links(s, p))
    && (forall q :: ChildExit(q) in s.sems ==> q in s.procs || q in s.reaped)
  }

  /** The lock variables say who holds what. */
  ghost predicate SchedLockOk(s: State) {
    && (s.schedLock.Some? ==> s.schedLock.value in s.procs && HoldsSched(s.procs[s.schedLock.value].pc))
    && (forall p :: p in s.procs && HoldsSched(s.procs[p].pc) ==> s.schedLock == Some(p))
  }

  ghost predicate ProcLockOk(s: State) {
    && (s.procLock.Some? ==> s.procLock.value in s.procs && HoldsProc(s.procs[s.procLock.value].pc))
    && (forall p :: p in s.procs && HoldsProc(s.procs[p].pc) ==> s.procLock == Some(p))
  }

  /** The semaphore lock that a process at pc holds. */
  function HeldSem(pc: Pc): (x: Option<SemId>)
  {
    if pc.Enqueued? || pc.Waking? || pc.PostingAll? then Some(pc.x) else None
  }

  ghost predicate SemLocksOk(s: State) {
    && (forall x :: x in s.semLock ==> s.semLock[x] in s.procs && HeldSem(s.procs[s.semLock[x]].pc) == Some(x))
    && (forall p :: p in s.procs && HeldSem(s.procs[p].pc).Some? ==>
          HeldSem(s.procs[p].pc).value in s.semLock && s.semLock[HeldSem(s.procs[p].pc).value] == p)
  }

  ghost predicate LocksOk(s: State) {
    SchedLockOk(s) && ProcLockOk(s) && SemLocksOk(s)
  }

  // ----- scheduler

  /** Process p is on CPU c exactly when it is RUNNING; on the run queue exactly when RUNNING or
      RUNNABLE. */
  ghost predicate SchedOk(s: State) {
    && |s.cur| == |s.idle|
    && NoDup(s.rq)
    && (forall p :: p in s.rq ==> p in s.procs && (s.procs[p].state == RUNNABLE || s.procs[p].state == RUNNING))
    && (forall p :: p in s.procs && (s.procs[p].state == RUNNABLE || s.procs[p].state == RUNNING) ==> p in s.rq)
    && (forall c, d :: 0 <= c < d < |s.cur| && s.cur[c].Some? ==> s.cur[c] != s.cur[d])
    && (forall c :: 0 <= c < |s.cur| && s.cur[c].Some? ==>
          s.cur[c].value in s.procs && s.procs[s.cur[c].value].state == RUNNING)
    && (forall p :: p in s.procs && s.procs[p].state == RUNNING ==> Some(p) in s.cur)
    && (forall c :: 0 <= c < |s.cur| ==> s.idle[c] == if s.cur[c].None? then RUNNING else RUNNABLE)
  }

  // ----- semaphores

  function Max0(n: int): (m: nat) { if n > 0 then n else 0 }

  /** val < 0 exactly when -val processes are on the sleep list; tokens are conserved. */
  ghost predicate SemOk(sem: Sem) {
    && NoDup(sem.queue)
    && |sem.queue| == Max0(-sem.val)
    && sem.initial + sem.posts == sem.grants + Max0(sem.val)
  }

  ghost predicate SemsOk(s: State) {
    && (forall x :: x in s.sems ==> SemOk(s.sems[x]))
    && (forall x, q :: x in s.sems && q in s.sems[x].queue ==>
          q in s.procs && WaitsOn(s.procs[q].pc, x) && !s.procs[q].up)
    && (forall q :: q in s.procs && Queued(s.procs[q]) ==>
          s.procs[q].pc.x in s.sems && q in s.sems[s.procs[q].pc.x].queue)
  }

  /** In _wait_sem, on the sleep list and not up. */
  predicate Queued(p: Proc) {
    (p.pc.Enqueued? || p.pc.Sleeping? || p.pc.Woken?) && !p.up
  }

  /** Whoever holds the semaphore that q waits on is about to activate q. */
  ghost predicate Pending(s: State, q: Pid)
    requires q in s.procs && (s.procs[q].pc.Enqueued? || s.procs[q].pc.Sleeping? || s.procs[q].pc.Woken?)
  {
    var x := s.procs[q].pc.x;
    && x in s.semLock && s.semLock[x] in s.procs
    && s.procs[s.semLock[x]].pc.Waking? && s.procs[s.semLock[x]].pc.q == q
  }

  /** No lost wakeup: a process that has been granted its token and is asleep, or still about to go to
      sleep, is about to be activated by the process that granted it, which holds the semaphore. */
  ghost predicate WakeOk(s: State) {
    forall q :: q in s.procs && s.procs[q].up && (Asleep(s.procs[q].state) || s.procs[q].pc.Sleeping?) ==>
      (s.procs[q].pc.Sleeping? || s.procs[q].pc.Woken?) && Pending(s, q)
  }

  // ----- childexit tokens

  /** The children of p that p has been sent a token for. */
  ghost function Kids(s: State, p: Pid): (ks: set<Pid>)
  {
    set c | c in s.procs && c != p && s.procs[c].parent == p && Posted(s.procs[c].pc)
  }

  /** p has a token in hand: granted, not used yet. */
  predicate Holding(s: State, p: Pid)
    requires p in s.procs
  {
    s.procs[p].pc.Reaping? || s.procs[p].pc.Collecting? || (WaitsOn(s.procs[p].pc, ChildExit(p)) && s.procs[p].up)
  }

  /** A zombie has been handed to root and root has not been sent the token for it yet. */
  predicate AdoptionPending(s: State) {
    s.procLock.Some? && s.procLock.value in s.procs && s.procs[s.procLock.value].pc.Adopting?
  }

  ghost predicate TokensOf(s: State, p: Pid)
    requires p in s.procs && ChildExit(p) in s.sems
  {
    Max0(s.sems[ChildExit(p)].val) + (if Holding(s, p) then 1 else 0)
    + (if p == ROOT && AdoptionPending(s) then 1 else 0) == |Kids(s, p)|
  }

  /** Unconsumed plus granted tokens of a process match its children that have told it of their exit. */
  ghost predicate TokensOk(s: State) {
    forall p :: p in s.procs && ChildExit(p) in s.sems && !Exits(s.procs[p].pc) ==> TokensOf(s, p)
  }

  ghost predicate Inv(s: State) {
    ProcsOk(s) && LocksOk(s) && SchedOk(s) && SemsOk(s) && WakeOk(s) && TokensOk(s)
  }
}
