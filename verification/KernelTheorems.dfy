/**
 What the kernel promises in every run: no lost wakeup, no deadlock on its locks, conservation and order
 of semaphore tokens, every child reaped at most once.
 */
module KernelTheorems {
  import opened Basics
  import opened Scheduler
  import opened Kernel
  import opened KernelInvariant
  import opened KernelSteps
  import opened KernelWait
  import opened KernelPost
  import opened KernelExit
  import opened KernelRuns

  /** s is reached from boot by es. */
  ghost predicate Reaches(s0: State, es: seq<Event>, s: State) {
    Boot(s0) && After(s0, es) == Reached(s)
  }

  // ----- scheduler

  /** A process is on the run queue, exactly once, iff it is RUNNABLE or RUNNING; RUNNING iff it is the
      current process of exactly one CPU; an idle process is RUNNABLE iff it is not current. */
  lemma SchedulerInvariant(s0: State, es: seq<Event>, s: State, p: Pid, c: nat)
    requires Reaches(s0, es, s) && p in s.procs && c < |s.cur|
    ensures p in s.rq <==> s.procs[p].state == RUNNABLE || s.procs[p].state == RUNNING
    ensures forall i, j :: 0 <= i < j < |s.rq| ==> s.rq[i] != s.rq[j]
    ensures s.procs[p].state == RUNNING <==> Some(p) in s.cur
    ensures s.cur[c].Some? ==>
              s.cur[c].value in s.procs && forall d :: 0 <= d < |s.cur| && d != c ==> s.cur[d] != s.cur[c]
    ensures c < |s.idle| && (s.idle[c] == RUNNABLE <==> s.cur[c].Some?)
  {
    hide Boot, After, ProcsOk, LocksOk, SemsOk, WakeOk, TokensOk;
    RunsKeep(s0, es);
  }

  // ----- no lost wakeup

  lemma SleeperQueued(s: State, q: Pid)
    requires SemsOk(s) && q in s.procs && Queued(s.procs[q])
    ensures var x := s.procs[q].pc.x;
            && x in s.sems && q in s.sems[x].queue && NoDup(s.sems[x].queue)
            && (forall y :: y in s.sems && y != x ==> q !in s.sems[y].queue)
  {
  }

  /** A process sleeps only in _wait_sem. While the semaphore is unlocked it is on its sleep list, exactly
      once and on no other, and not up. One that is up and asleep is about to be activated by the process
      that holds the semaphore. */
  lemma NoLostWakeup(s0: State, es: seq<Event>, s: State, q: Pid)
    requires Reaches(s0, es, s) && q in s.procs && Asleep(s.procs[q].state)
    ensures s.procs[q].pc.Woken? && s.procs[q].pc.x in s.sems
    ensures s.procs[q].pc.x !in s.semLock ==> !s.procs[q].up
    ensures !s.procs[q].up ==>
              && q in s.sems[s.procs[q].pc.x].queue && NoDup(s.sems[s.procs[q].pc.x].queue)
              && (forall y :: y in s.sems && y != s.procs[q].pc.x ==> q !in s.sems[y].queue)
    ensures s.procs[q].up ==> Pending(s, q)
  {
    hide Boot, After, ProcsOk, SchedOk, SemsOk, WakeOk, TokensOk, LocksOk;
    RunsKeep(s0, es);
    OneLocal(s, q);
    Sems(s, q);
    if s.procs[q].up {
      PendingAt(s, q);
    } else {
      SleeperQueued(s, q);
    }
  }

  // ----- exit and wait

  /** The children of p that are zombies or have told p that they are about to be. */
  ghost predicate Leftover(s: State, p: Pid, child: Pid) {
    child in s.procs && child != p && s.procs[child].parent == p && Posted(s.procs[child].pc)
  }

  /** The unused tokens of a process, the one it has been granted, and the one that an exiting process is
      about to send to root for a zombie, are as many as its children that have gone. */
  lemma ExitTokens(s0: State, es: seq<Event>, s: State, p: Pid)
    requires Reaches(s0, es, s) && p in s.procs && !Exits(s.procs[p].pc)
    ensures ChildExit(p) in s.sems
    ensures Max0(s.sems[ChildExit(p)].val) + (if Holding(s, p) then 1 else 0)
            + (if p == ROOT && AdoptionPending(s) then 1 else 0)
         == |set child | child in s.procs && Leftover(s, p, child)|
  {
    hide Boot, After, ProcsOk, SchedOk, SemsOk, WakeOk, LocksOk;
    RunsKeep(s0, es);
    Sems(s, p);
    assert TokensOf(s, p);
    assert Kids(s, p) == set child | child in s.procs && Leftover(s, p, child);
  }

  /** A wait() that has obtained a token finds a ZOMBIE child in every run. */
  lemma WaitFindsZombie(s0: State, es: seq<Event>, s: State, p: Pid)
    requires Reaches(s0, es, s) && CanReap(s, p)
    ensures exists child :: child in s.procs && child != p && s.procs[child].parent == p
                            && s.procs[child].state == ZOMBIE
  {
    hide Boot, After, Inv;
    RunsKeep(s0, es);
    TokenFindsZombie(s, p);
    var child :| child in s.procs && IsZombieChild(s, p, child);
  }

  // ----- locks

  /** Somebody holds a lock. */
  predicate Locked(s: State) {
    s.schedLock.Some? || s.procLock.Some? || s.semLock != map[]
  }

  /** p holds a lock. */
  predicate Holder(s: State, p: Pid) {
    p in s.procs && (HoldsSched(s.procs[p].pc) || HoldsProc(s.procs[p].pc) || HeldSem(s.procs[p].pc).Some?)
  }

  /** The process of an event that a lock holder takes. */
  function By(e: Event): (p: Option<Pid>) {
    if e.EIdle? then None else Some(e.p)
  }

  lemma HoldersRun(s: State, p: Pid)
    requires ProcsOk(s) && SchedOk(s) && Holder(s, p)
    ensures At(s, p) && exists c: nat :: On(s, c, p)
  {
    hide Links;
    assert Local(s.procs[p], p);
    var c :| 0 <= c < |s.cur| && s.cur[c] == Some(p);
    assert On(s, c, p);
  }

  lemma SchedHolderMoves(s: State, p: Pid) returns (e: Event)
    requires ProcsOk(s) && SchedOk(s) && p in s.procs && HoldsSched(s.procs[p].pc)
    ensures Enabled(s, e) && By(e) == Some(p)
  {
    hide ProcsOk, SchedOk;
    HoldersRun(s, p);
    var c: nat :| On(s, c, p);
    e := if s.procs[p].pc.Sleeping? then ESleep(p, c) else EDie(p, c);
  }

  lemma LinksOf(s: State, p: Pid)
    requires ProcsOk(s) && p in s.procs
    ensures Links(s, p)
  {
    hide Local, Links;
  }

  lemma SemHolderMoves(s: State, p: Pid) returns (e: Event)
    requires ProcsOk(s) && SchedOk(s) && p in s.procs && HeldSem(s.procs[p].pc).Some? && s.schedLock.None?
    ensures Enabled(s, e) && By(e) == Some(p)
  {
    hide ProcsOk, SchedOk;
    HoldersRun(s, p);
    LinksOf(s, p);
    var pc := s.procs[p].pc;
    e := if pc.Enqueued? then EHandOver(p) else if pc.Waking? then EPostWake(p) else EPost(p, pc.x, ToAll);
  }

  /** Between exit's steps with the process lock. */
  lemma LeavingMoves(s: State, p: Pid) returns (e: Event)
    requires At(s, p) && s.procs[p].pc.Leaving? && s.schedLock.None?
    ensures Enabled(s, e) && By(e) == Some(p)
  {
    if HasChild(s, p) {
      var child :| child in s.procs && child != p && s.procs[child].parent == p;
      e := EHandChild(p, child);
    } else {
      e := ELeft(p);
    }
  }

  lemma CollectingMoves(s: State, p: Pid) returns (e: Event)
    requires At(s, p) && s.procs[p].pc.Collecting? && s.schedLock.None?
    ensures Enabled(s, e) && By(e) == Some(p)
  {
    if HasZombie(s, p) {
      var child :| child in s.procs && IsZombieChild(s, p, child);
      e := EReap(p, child);
    } else {
      e := EReap(p, p);
    }
  }

  lemma ProcHolderMoves(s: State, p: Pid) returns (e: Event)
    requires ProcsOk(s) && SchedOk(s) && LocksOk(s) && p in s.procs && HoldsProc(s.procs[p].pc)
    requires s.schedLock.None? && s.semLock == map[]
    ensures Enabled(s, e) && By(e) == Some(p)
  {
    hide ProcsOk, SchedOk, HasZombie, HasChild;
    HoldersRun(s, p);
    Sems(s, p);
    var pc := s.procs[p].pc;
    assert !pc.Waking? by { assert HeldSem(pc).None?; }
    hide LocksOk;
    if pc.Alerting? {
      e := EAlert(p);
    } else if pc.Adopting? {
      e := EPost(p, ChildExit(ROOT), ForAdopted);
    } else if pc.Told? {
      e := ETakeSched(p);
    } else if pc.Starting? {
      e := EStart(p);
    } else if pc.Telling? {
      e := EPost(p, ChildExit(s.procs[p].parent), ForParent);
    } else if pc.Collecting? {
      e := CollectingMoves(s, p);
    } else {
      e := LeavingMoves(s, p);
    }
  }

  /** The locks never deadlock: whenever some lock is held, one of the holders can go on. */
  lemma NoLockDeadlock(s0: State, es: seq<Event>, s: State)
    requires Reaches(s0, es, s) && Locked(s)
    ensures exists e :: Enabled(s, e) && By(e).Some? && Holder(s, By(e).value)
  {
    hide Boot, After, ProcsOk, SchedOk, SemsOk, WakeOk, TokensOk, Enabled;
    RunsKeep(s0, es);
    if s.schedLock.Some? {
      var e := SchedHolderMoves(s, s.schedLock.value);
    } else if s.semLock != map[] {
      var x :| x in s.semLock;
      var e := SemHolderMoves(s, s.semLock[x]);
    } else {
      var e := ProcHolderMoves(s, s.procLock.value);
    }
  }

  // ----- events that leave the semaphores alone

  /** z has been granted a token of x and has not returned from _wait_sem yet. */
  predicate Flies(s: State, z: Pid, x: SemId) {
    z in s.procs && WaitsOn(s.procs[z].pc, x) && s.procs[z].up
  }

  /** No semaphore has changed, new ones are unused, no token has been granted or returned with. */
  ghost predicate Quiet(s: State, r: State) {
    && (forall x :: x in s.sems ==> x in r.sems && r.sems[x] == s.sems[x])
    && (forall x :: x in r.sems && x !in s.sems ==> r.sems[x] == Sem(0, [], 0, 0, 0))
    && (forall z, x :: Flies(r, z, x) <==> Flies(s, z, x))
  }

  /** Events in which a process works on a semaphore. */
  predicate Loud(e: Event) { e.EWait? || e.EWakeUp? || e.EGet? || e.EGetAll? || e.EPost? }

  lemma QuietSched(s: State, m: State, r: State)
    requires Quiet(s, m) && SchedOnly(m, r)
    ensures Quiet(s, r)
  {
    hide WaitsOn;
  }

  lemma QuietRefl(s: State)
    ensures Quiet(s, s)
  {
  }

  /** Setting a program counter outside _wait_sem, or going on inside it. */
  lemma QuietPc(s: State, p: Pid, r: State)
    requires p in s.procs && r.procs.Keys == s.procs.Keys && r.sems == s.sems
    requires forall z :: z in s.procs && z != p ==> r.procs[z].pc == s.procs[z].pc && r.procs[z].up == s.procs[z].up
    requires r.procs[p].up == s.procs[p].up
    requires HasSem(s.procs[p].pc) <==> HasSem(r.procs[p].pc)
    requires HasSem(s.procs[p].pc) ==> s.procs[p].pc.x == r.procs[p].pc.x
    ensures Quiet(s, r)
  {
  }

  lemma QuietFork(s: State, par: Pid, child: Pid)
    requires NewPid(s, child)
    ensures Quiet(s, Fork(s, par, child))
  {
  }

  lemma QuietOrphan(s: State, p: Pid, child: Pid)
    requires CanFork(s, p, child)
    ensures Quiet(s, Orphan(s, p, child))
  {
    var m := Fork(s, ROOT, child);
    QuietFork(s, ROOT, child);
    QuietPc(m, p, BeginStart(m, p, child));
    hide Fork, BeginStart, Flies;
  }

  lemma QuietReap(s: State, p: Pid, child: Pid)
    requires CanReap(s, p) && IsZombieChild(s, p, child) && Local(s.procs[child], child)
    ensures Quiet(s, Reap(s, p, child))
  {
  }

  lemma QuietSleep(s: State, p: Pid, c: nat)
    requires CanSleep(s, p, c)
    ensures Quiet(s, Sleep(s, p, c))
  {
    hide Switch, Quiet;
    QuietPc(s, p, SleepMid(s, p));
    if !s.procs[p].killed {
      SwitchOnly(SleepMid(s, p), c, if s.procs[p].pc.alertable then SLEEPING else DEEPSLEEPING);
      QuietSched(s, SleepMid(s, p), Sleep(s, p, c));
    }
  }

  lemma QuietDie(s: State, p: Pid, c: nat)
    requires CanDie(s, p, c)
    ensures Quiet(s, Die(s, p, c))
  {
    hide Switch, Quiet;
    QuietPc(s, p, DieMid(s, p));
    SwitchOnly(DieMid(s, p), c, ZOMBIE);
    QuietSched(s, DieMid(s, p), Die(s, p, c));
  }

  lemma QuietYield(s: State, c: nat)
    requires c < |s.cur| == |s.idle| && (s.cur[c].Some? ==> s.cur[c].value in s.procs)
    ensures Quiet(s, s) && Quiet(s, Switch(s, c, RUNNABLE))
  {
    hide Switch, Quiet;
    QuietRefl(s);
    SwitchOnly(s, c, RUNNABLE);
    QuietSched(s, s, Switch(s, c, RUNNABLE));
  }

  lemma QuietWake(s: State, p: Pid)
    requires CanPostWake(s, p) && s.procs[p].pc.q in s.procs
    ensures Quiet(s, PostWake(s, p))
  {
    hide Quiet;
    QuietPc(s, p, PostWake(s, p));
  }

  lemma QuietAlert(s: State, p: Pid)
    requires CanAlert(s, p) && s.procs[p].pc.q in s.procs
    ensures Quiet(s, KillAlert(s, p))
  {
    hide Quiet;
    QuietPc(s, p, KillAlert(s, p));
  }

  lemma QuietFirstRun(s: State, child: Pid)
    requires child in s.procs && s.procs[child].pc.NotStarted?
    ensures Quiet(s, FirstRun(s, child))
  {
    hide Quiet;
    QuietPc(s, child, FirstRun(s, child));
  }

  lemma QuietStart(s: State, p: Pid)
    requires CanStart(s, p) && s.procs[p].pc.child in s.procs && s.procs[p].pc.child != p
    requires s.procs[s.procs[p].pc.child].pc.NotStarted?
    ensures Quiet(s, Start(s, p))
  {
    var m := StartMid(s, p);
    QuietPc(s, p, m);
    QuietFirstRun(m, s.procs[p].pc.child);
    hide FirstRun, Flies;
  }

  /** Taking the process lock, or a semaphore for post_all_sem. */
  lemma QuietLocks(s: State, p: Pid, x: SemId, child: Pid)
    ensures CanCollect(s, p) ==> Quiet(s, Collect(s, p))
    ensures CanTell(s, p) ==> Quiet(s, Tell(s, p))
    ensures CanGet(s, p, x) ==> Quiet(s, PostAllBegin(s, p, x))
    ensures CanBeginStart(s, p, child) ==> Quiet(s, BeginStart(s, p, child))
  {
    hide Quiet;
    if CanCollect(s, p) { QuietPc(s, p, Collect(s, p)); }
    if CanTell(s, p) { QuietPc(s, p, Tell(s, p)); }
    if CanGet(s, p, x) { QuietPc(s, p, PostAllBegin(s, p, x)); }
    if CanBeginStart(s, p, child) { QuietPc(s, p, BeginStart(s, p, child)); }
  }

  lemma QuietExits(s: State, p: Pid, child: Pid)
    ensures CanExit(s, p) ==> Quiet(s, ExitBegin(s, p))
    ensures CanLeave(s, p) ==> Quiet(s, ExitLeft(s, p))
    ensures CanTakeSched(s, p) ==> Quiet(s, TakeSched(s, p))
    ensures CanHandChild(s, p, child) ==> Quiet(s, HandChild(s, p, child))
  {
    hide Quiet;
    if CanExit(s, p) {
      QuietPc(s, p, ExitBegin(s, p));
    } else if CanTakeSched(s, p) {
      QuietPc(s, p, TakeSched(s, p));
    } else {
      if CanLeave(s, p) { QuietPc(s, p, ExitLeft(s, p)); }
      if CanHandChild(s, p, child) { QuietPc(s, p, HandChild(s, p, child)); }
    }
  }

  lemma QuietFlag(s: State, p: Pid, q: Pid)
    ensures CanKill(s, p, q) ==> Quiet(s, KillFlag(s, p, q))
    ensures CanHandOver(s, p) ==> Quiet(s, HandOver(s, p))
  {
    hide Quiet;
    if CanKill(s, p, q) {
      QuietPc(s, p, KillFlag(s, p, q));
    } else if CanHandOver(s, p) {
      QuietPc(s, p, HandOver(s, p));
    }
  }

  lemma QuietEvents(s: State, e: Event)
    requires Inv(s) && Enabled(s, e) && !GoesWrong(s, e) && !Loud(e)
    ensures Quiet(s, Next(s, e))
  {
    hide Inv, ProcsOk, SchedOk, TokensOk, Quiet, Switch, NextRunnable, Sleep, Die, PostWake, KillAlert, Start, Reap,
         Fork, ExitBegin, ExitLeft, TakeSched, HandChild, KillFlag, HandOver, Local, Collect, Tell, PostAllBegin,
         BeginStart, Orphan;
    InvProcs(s);
    match e {
      case EHandOver(p) => QuietFlag(s, p, p);
      case ESleep(p, c) => QuietSleep(s, p, c);
      case EPostWake(p) => QuietWake(s, p);
      case EYield(p, c) => QuietYield(s, c);
      case EIdle(c) => QuietYield(s, c);
      case EKill(p, q) => QuietFlag(s, p, q);
      case EAlert(p) => QuietAlert(s, p);
      case EFork(p, child) => QuietFork(s, p, child);
      case EBeginStart(p, child) => QuietLocks(s, p, ChildExit(p), child);
      case EOrphan(p, child) => QuietOrphan(s, p, child);
      case EStart(p) => StartMidKeeps(s, p); QuietStart(s, p);
      case ECollect(p) => QuietLocks(s, p, ChildExit(p), p);
      case ETell(p) => QuietLocks(s, p, ChildExit(p), p);
      case EPostAll(p, x) => QuietLocks(s, p, x, p);
      case EReap(p, child) => OneLocal(s, child); QuietReap(s, p, child);
      case EExit(p) => QuietExits(s, p, p);
      case EHandChild(p, child) => QuietExits(s, p, child);
      case ELeft(p) => QuietExits(s, p, p);
      case ETakeSched(p) => QuietExits(s, p, p);
      case EDie(p, c) => QuietDie(s, p, c);
    }
  }

  // ----- order of wakeups

  /** a has waited longer than b. */
  ghost predicate Ahead(q: seq<Pid>, a: Pid, b: Pid) {
    exists i, j :: 0 <= j < i < |q| && q[i] == a && q[j] == b
  }

  lemma {:induction false} WithoutKeepsOrder(q: seq<Pid>, p: Pid, a: Pid, b: Pid)
    requires Ahead(q, a, b) && a != p && b != p
    ensures Ahead(Without(q, p), a, b)
  {
    var i, j :| 0 <= j < i < |q| && q[i] == a && q[j] == b;
    var rest := Without(q[1..], p);
    assert q[1..][i - 1] == a;
    WithoutMembers(q[1..], p);
    if j == 0 {
      assert a in rest;
      FirstAhead(rest, a, b);
    } else {
      assert q[1..][j - 1] == b;
      WithoutKeepsOrder(q[1..], p, a, b);
      if q[0] != p { LongerQueue(rest, q[0], a, b); }
    }
  }

  lemma FirstAhead(q: seq<Pid>, a: Pid, b: Pid)
    requires a in q
    ensures Ahead([b] + q, a, b)
  {
    var k :| 0 <= k < |q| && q[k] == a;
    assert ([b] + q)[k + 1] == a && ([b] + q)[0] == b;
  }

  lemma LongerQueue(q: seq<Pid>, p: Pid, a: Pid, b: Pid)
    requires Ahead(q, a, b)
    ensures Ahead([p] + q, a, b)
  {
    var i, j :| 0 <= j < i < |q| && q[i] == a && q[j] == b;
    assert ([p] + q)[i + 1] == a && ([p] + q)[j + 1] == b;
  }

  lemma ShorterQueue(q: seq<Pid>, a: Pid, b: Pid)
    requires Ahead(q, a, b) && NoDup(q)
    ensures b != q[|q| - 1] && (a in q[..|q| - 1] ==> Ahead(q[..|q| - 1], a, b))
  {
    var i, j :| 0 <= j < i < |q| && q[i] == a && q[j] == b;
    if a in q[..|q| - 1] {
      assert i < |q| - 1;
      assert q[..|q| - 1][i] == a && q[..|q| - 1][j] == b;
    }
  }

  /** a stays ahead of b while both are on the sleep list, and b is not granted a token before a leaves. */
  ghost predicate InOrder(r: State, x: SemId, a: Pid, b: Pid) {
    && x in r.sems && !Flies(r, b, x)
    && (a in r.sems[x].queue && b in r.sems[x].queue ==> Ahead(r.sems[x].queue, a, b))
  }

  lemma QueueFlies(s: State, x: SemId, b: Pid)
    requires SemsOk(s) && x in s.sems && b in s.sems[x].queue
    ensures NoDup(s.sems[x].queue) && b in s.procs && QueuedOn(s.procs[b], x)
  {
  }

  lemma PostInOrder(s: State, p: Pid, y: SemId, f: PostFor, x: SemId, a: Pid, b: Pid)
    requires CanPost(s, p, y, f) && s.sems[y].val < 0 && SomeoneWaits(s, p, y)
    requires QueuedOn(s.procs[Last(s.sems[y].queue)], y)
    requires x in s.sems && Ahead(s.sems[x].queue, a, b) && NoDup(s.sems[x].queue)
    requires b in s.procs && QueuedOn(s.procs[b], x)
    ensures InOrder(PostTake(s, p, y, f), x, a, b)
  {
    hide Ahead;
    ShorterQueue(s.sems[x].queue, a, b);
  }

  lemma TakeInOrder(s: State, p: Pid, y: SemId, f: PostFor, x: SemId, a: Pid, b: Pid)
    requires SemsOk(s) && CanPost(s, p, y, f) && s.sems[y].val < 0 && SomeoneWaits(s, p, y)
    requires x in s.sems && Ahead(s.sems[x].queue, a, b) && NoDup(s.sems[x].queue)
    requires b in s.procs && QueuedOn(s.procs[b], x)
    ensures InOrder(PostTake(s, p, y, f), x, a, b)
  {
    hide SemsOk, Ahead, QueuedOn, PostTake, NoDup, InOrder;
    assert Last(s.sems[y].queue) in s.sems[y].queue;
    QueueFlies(s, y, Last(s.sems[y].queue));
    PostInOrder(s, p, y, f, x, a, b);
  }

  lemma WakeInOrder(s: State, p: Pid, x: SemId, a: Pid, b: Pid)
    requires CanWakeUp(s, p)
    requires x in s.sems && Ahead(s.sems[x].queue, a, b) && b in s.procs && QueuedOn(s.procs[b], x)
    ensures InOrder(WakeUp(s, p), x, a, b)
  {
    hide Ahead, Without;
    WithoutMembers(s.sems[x].queue, p);
    if a != p && b != p {
      WithoutKeepsOrder(s.sems[x].queue, p, a, b);
    }
  }

  lemma WaitInOrder(s: State, p: Pid, y: SemId, alertable: bool, w: WaitFor, x: SemId, a: Pid, b: Pid)
    requires CanWait(s, p, y, w)
    requires x in s.sems && Ahead(s.sems[x].queue, a, b) && b in s.procs && QueuedOn(s.procs[b], x)
    ensures s.sems[y].val > 0 ==> InOrder(WaitFast(s, p, y, w), x, a, b)
    ensures s.sems[y].val <= 0 ==> InOrder(WaitSlow(s, p, y, alertable, w), x, a, b)
  {
    hide Ahead;
    LongerQueue(s.sems[x].queue, p, a, b);
  }

  lemma FastInOrder(s: State, p: Pid, y: SemId, f: PostFor, x: SemId, a: Pid, b: Pid)
    requires CanPost(s, p, y, f) && s.sems[y].val >= 0 && f != ToAll
    requires x in s.sems && Ahead(s.sems[x].queue, a, b) && b in s.procs && QueuedOn(s.procs[b], x)
    ensures InOrder(PostFast(s, p, y, f), x, a, b)
  {
    hide Ahead;
  }

  /** Steps that change values and leave every sleep list alone. */
  lemma ValueInOrder(s: State, p: Pid, y: SemId, x: SemId, a: Pid, b: Pid)
    requires x in s.sems && Ahead(s.sems[x].queue, a, b) && b in s.procs && QueuedOn(s.procs[b], x)
    ensures CanGet(s, p, y) ==> InOrder(Get(s, p, y), x, a, b) && InOrder(GetAll(s, p, y), x, a, b)
    ensures CanPost(s, p, y, ToAll) && s.sems[y].val >= 0 ==> InOrder(PostAllEnd(s, p, y), x, a, b)
  {
    hide Ahead;
  }

  lemma AheadMembers(q: seq<Pid>, a: Pid, b: Pid)
    requires Ahead(q, a, b)
    ensures a in q && b in q
  {
  }

  /** Wakeups by post are first come, first served: nobody is granted a token of x while a process that
      has waited longer is on the sleep list. */
  lemma NoOvertaking(s: State, e: Event, x: SemId, a: Pid, b: Pid)
    requires Inv(s) && Enabled(s, e) && !GoesWrong(s, e) && x in s.sems && Ahead(s.sems[x].queue, a, b)
    ensures InOrder(Next(s, e), x, a, b)
  {
    hide ProcsOk, LocksOk, SchedOk, SemsOk, WakeOk, TokensOk, Ahead, QueuedOn, NextRunnable, WaitFast, WaitSlow,
         PostFast, PostTake, WakeUp, SomeoneWaits, IsZombieChild, Get, GetAll, PostAllEnd;
    AheadMembers(s.sems[x].queue, a, b);
    QueueFlies(s, x, b);
    match e {
      case EWait(p, y, alertable, w) => WaitInOrder(s, p, y, alertable, w, x, a, b);
      case EWakeUp(p) => WakeInOrder(s, p, x, a, b);
      case EPost(p, y, f) =>
        if s.sems[y].val < 0 {
          TakeInOrder(s, p, y, f, x, a, b);
        } else if f == ToAll {
          ValueInOrder(s, p, y, x, a, b);
        } else {
          FastInOrder(s, p, y, f, x, a, b);
        }
      case EGet(p, y) => ValueInOrder(s, p, y, x, a, b);
      case EGetAll(p, y) => ValueInOrder(s, p, y, x, a, b);
      case _ => QuietInOrder(s, e, x, a, b);
    }
  }

  lemma QuietInOrder(s: State, e: Event, x: SemId, a: Pid, b: Pid)
    requires Inv(s) && Enabled(s, e) && !GoesWrong(s, e) && !Loud(e) && x in s.sems
    requires Ahead(s.sems[x].queue, a, b) && b in s.procs && QueuedOn(s.procs[b], x)
    ensures InOrder(Next(s, e), x, a, b)
  {
    hide Inv, Ahead, Next, GoesWrong, Enabled;
    QuietEvents(s, e);
  }
}
