/**
 Whole runs of the kernel: any number of processes on any number of CPUs, from boot on, in every
 interleaving.
 */
module KernelRuns {
  import opened Basics
  import opened Scheduler
  import opened Kernel
  import opened KernelInvariant
  import opened KernelSteps
  import opened KernelWait
  import opened KernelPost
  import opened KernelExit

  /** What happens next, and who does it. */
  datatype Event =
    | EWait(p: Pid, x: SemId, alertable: bool, w: WaitFor)
    | EHandOver(p: Pid)
    | ESleep(p: Pid, c: nat)
    | EWakeUp(p: Pid)
    | EGet(p: Pid, x: SemId)
    | EGetAll(p: Pid, x: SemId)
    | EPostAll(p: Pid, x: SemId)
    | EPost(p: Pid, x: SemId, f: PostFor)
    | EPostWake(p: Pid)
    | EYield(p: Pid, c: nat)
    | EIdle(c: nat)
    | EKill(p: Pid, q: Pid)
    | EAlert(p: Pid)
    | EFork(p: Pid, child: Pid)
    | EBeginStart(p: Pid, child: Pid)
    | EOrphan(p: Pid, child: Pid)
    | EStart(p: Pid)
    | ECollect(p: Pid)
    | EReap(p: Pid, child: Pid)
    | EExit(p: Pid)
    | EHandChild(p: Pid, child: Pid)
    | ELeft(p: Pid)
    | ETell(p: Pid)
    | ETakeSched(p: Pid)
    | EDie(p: Pid, c: nat)

  predicate HasZombie(s: State, p: Pid) {
    exists child :: child in s.procs && IsZombieChild(s, p, child)
  }

  /** Somebody is at the point where e happens, and the locks it takes are free. wait() picks one of the
      zombies if it has any. */
  predicate Enabled(s: State, e: Event) {
    match e
    case EWait(p, x, _, w) => CanWait(s, p, x, w)
    case EHandOver(p) => CanHandOver(s, p)
    case ESleep(p, c) => CanSleep(s, p, c)
    case EWakeUp(p) => CanWakeUp(s, p)
    case EGet(p, x) => CanGet(s, p, x)
    case EGetAll(p, x) => CanGet(s, p, x)
    case EPostAll(p, x) => CanGet(s, p, x)
    case EPost(p, x, f) => CanPost(s, p, x, f)
    case EPostWake(p) => CanPostWake(s, p)
    case EYield(p, c) => CanYield(s, p, c)
    case EIdle(c) => CanIdle(s, c)
    case EKill(p, q) => CanKill(s, p, q)
    case EAlert(p) => CanAlert(s, p)
    case EFork(p, child) => CanFork(s, p, child)
    case EBeginStart(p, child) => CanBeginStart(s, p, child)
    case EOrphan(p, child) => CanFork(s, p, child)
    case EStart(p) => CanStart(s, p)
    case ECollect(p) => CanCollect(s, p)
    case EReap(p, child) => CanReap(s, p) && (HasZombie(s, p) ==> IsZombieChild(s, p, child))
    case EExit(p) => CanExit(s, p)
    case EHandChild(p, child) => CanHandChild(s, p, child)
    case ELeft(p) => CanLeave(s, p)
    case ETell(p) => CanTell(s, p)
    case ETakeSched(p) => CanTakeSched(s, p)
    case EDie(p, c) => CanDie(s, p, c)
  }

  /** The ASSERT at the end of sched holds on CPU c. */
  predicate NextRunnable(s: State, c: nat, st: PState)
    requires c < |s.cur| == |s.idle| && (s.cur[c].Some? ==> s.cur[c].value in s.procs)
  {
    var m := Leave(s, c, st);
    match Pick(m.rq, Entries(m.procs))
    case None => m.idle[c] == RUNNABLE
    case Some(q) => m.procs[q].state == RUNNABLE
  }

  /** e goes wrong: an ASSERT fails, a process that is to be activated is not there, or wait() finds no
      zombie although it has been given a token. */
  predicate GoesWrong(s: State, e: Event)
    requires Enabled(s, e)
  {
    match e
    case EPost(p, x, _) => s.sems[x].val < 0 && !SomeoneWaits(s, p, x)
    case EWakeUp(p) => !s.procs[p].up && s.sems[s.procs[p].pc.x].val + 1 > 0
    case EPostWake(p) => s.procs[p].pc.q !in s.procs
    case EAlert(p) => s.procs[p].pc.q !in s.procs
    case EStart(p) => s.procs[p].pc.child !in s.procs
    case EReap(p, _) => !HasZombie(s, p)
    case ESleep(p, c) =>
      !s.procs[p].killed && !NextRunnable(SleepMid(s, p), c, if s.procs[p].pc.alertable then SLEEPING else DEEPSLEEPING)
    case EYield(p, c) => !s.procs[p].killed && !NextRunnable(s, c, RUNNABLE)
    case EIdle(c) => s.idle[c] != RUNNING || !NextRunnable(s, c, RUNNABLE)
    case EDie(p, c) => !NextRunnable(DieMid(s, p), c, ZOMBIE)
    case _ => false
  }

  function Next(s: State, e: Event): (r: State)
    requires Enabled(s, e) && !GoesWrong(s, e)
  {
    match e
    case EWait(p, x, alertable, w) =>
      if s.sems[x].val > 0 then WaitFast(s, p, x, w) else WaitSlow(s, p, x, alertable, w)
    case EHandOver(p) => HandOver(s, p)
    case ESleep(p, c) => Sleep(s, p, c)
    case EWakeUp(p) => WakeUp(s, p)
    case EGet(p, x) => Get(s, p, x)
    case EGetAll(p, x) => GetAll(s, p, x)
    case EPostAll(p, x) => PostAllBegin(s, p, x)
    case EPost(p, x, f) =>
      if s.sems[x].val < 0 then PostTake(s, p, x, f)
      else if f == ToAll then PostAllEnd(s, p, x)
      else PostFast(s, p, x, f)
    case EPostWake(p) => PostWake(s, p)
    case EYield(p, c) => Yield(s, p, c)
    case EIdle(c) => IdleYield(s, c)
    case EKill(p, q) => KillFlag(s, p, q)
    case EAlert(p) => KillAlert(s, p)
    case EFork(p, child) => Fork(s, p, child)
    case EBeginStart(p, child) => BeginStart(s, p, child)
    case EOrphan(p, child) => Orphan(s, p, child)
    case EStart(p) => Start(s, p)
    case ECollect(p) => Collect(s, p)
    case EReap(p, child) => Reap(s, p, child)
    case EExit(p) => ExitBegin(s, p)
    case EHandChild(p, child) => HandChild(s, p, child)
    case ELeft(p) => ExitLeft(s, p)
    case ETell(p) => Tell(s, p)
    case ETakeSched(p) => TakeSched(s, p)
    case EDie(p, c) => Die(s, p, c)
  }

  // ----- nothing goes wrong

  /** The ASSERT on a wait that has been cancelled: the value was negative. */
  lemma CancelledWait(s: State, p: Pid)
    requires Inv(s) && CanWakeUp(s, p) && !s.procs[p].up
    ensures s.sems[s.procs[p].pc.x].val + 1 <= 0
  {
    hide Inv, ProcsOk, SchedOk, TokensOk, Local, Links;
    Facts(s, p, s.procs[p].pc.x);
  }

  /** A process with a token in hand has a child that has told it of its exit. */
  lemma TokenMeansKid(s: State, p: Pid)
    requires TokensOk(s) && p in s.procs && s.procs[p].pc.Collecting? && ChildExit(p) in s.sems
    ensures Kids(s, p) != {}
  {
    hide Kids;
    assert TokensOf(s, p);
  }

  lemma KidIsZombie(s: State, p: Pid, child: Pid)
    requires ProcsOk(s) && LocksOk(s) && s.procLock == Some(p) && s.schedLock.None? && child in Kids(s, p)
    ensures IsZombieChild(s, p, child)
  {
    hide LocksOk, Links;
    OneLocal(s, child);
    NoHolders(s, child);
  }

  /** A wait() that has obtained a token finds a zombie. */
  lemma TokenFindsZombie(s: State, p: Pid)
    requires Inv(s) && CanReap(s, p)
    ensures HasZombie(s, p)
  {
    hide ProcsOk, LocksOk, SchedOk, SemsOk, WakeOk, TokensOk;
    Targets(s, p);
    TokenMeansKid(s, p);
    LockOf(s, p);
    var child :| child in Kids(s, p);
    KidIsZombie(s, p, child);
  }

  lemma IdleRuns(s: State, c: nat)
    requires SchedOk(s) && CanIdle(s, c)
    ensures s.idle[c] == RUNNING
  {
  }

  /** No ASSERT fails and no token is lost. */
  lemma NothingGoesWrong(s: State, e: Event)
    requires Inv(s) && Enabled(s, e)
    ensures !GoesWrong(s, e)
  {
    hide Inv, SchedOk, TokensOk, ProcsOk, SomeoneWaits, IsZombieChild, HasZombie, NextRunnable, SleepMid, DieMid,
         CanSleep, CanDie, CanReap, CanPost, CanYield, CanIdle;
    match e {
      case EPost(p, x, f) => PostSafe(s, p, x, f);
      case EWakeUp(p) => if !s.procs[p].up { CancelledWait(s, p); }
      case EPostWake(p) => Targets(s, p);
      case EAlert(p) => Targets(s, p);
      case EStart(p) => StartMidKeeps(s, p);
      case EReap(p, _) => TokenFindsZombie(s, p);
      case ESleep(p, c) => SleepSwitches(s, p, c);
      case EYield(p, c) => YieldSwitches(s, p, c);
      case EIdle(c) => IdleSwitches(s, c);
      case EDie(p, c) => DieSwitches(s, p, c);
      case _ =>
    }
  }

  lemma PostSafe(s: State, p: Pid, x: SemId, f: PostFor)
    requires Inv(s) && CanPost(s, p, x, f)
    ensures s.sems[x].val < 0 ==> SomeoneWaits(s, p, x)
  {
    hide Inv, SomeoneWaits;
    if s.sems[x].val < 0 { PostFindsWaiter(s, p, x, f); }
  }

  lemma YieldSwitches(s: State, p: Pid, c: nat)
    requires Inv(s) && CanYield(s, p, c)
    ensures NextRunnable(s, c, RUNNABLE)
  {
    hide Inv, SchedOk, TokensOk, ProcsOk;
    InvProcs(s);
    SwitchSched(s, c, RUNNABLE);
  }

  lemma IdleSwitches(s: State, c: nat)
    requires Inv(s) && CanIdle(s, c)
    ensures s.idle[c] == RUNNING && NextRunnable(s, c, RUNNABLE)
  {
    hide Inv, SchedOk, TokensOk, ProcsOk;
    InvProcs(s);
    IdleRuns(s, c);
    SwitchSched(s, c, RUNNABLE);
  }

  lemma SleepSwitches(s: State, p: Pid, c: nat)
    requires Inv(s) && CanSleep(s, p, c)
    ensures NextRunnable(SleepMid(s, p), c, if s.procs[p].pc.alertable then SLEEPING else DEEPSLEEPING)
  {
    hide Inv, SchedOk, TokensOk;
    SleepFrame(s, p);
    SwitchSched(SleepMid(s, p), c, if s.procs[p].pc.alertable then SLEEPING else DEEPSLEEPING);
  }

  lemma DieSwitches(s: State, p: Pid, c: nat)
    requires Inv(s) && CanDie(s, p, c)
    ensures NextRunnable(DieMid(s, p), c, ZOMBIE)
  {
    hide Inv, SchedOk, TokensOk;
    Targets(s, p);
    DieFrame(s, p);
    SwitchSched(DieMid(s, p), c, ZOMBIE);
  }

  lemma StepKeeps(s: State, e: Event)
    requires Inv(s) && Enabled(s, e) && !GoesWrong(s, e)
    ensures Inv(Next(s, e))
  {
    hide Inv, WaitFast, WaitSlow, HandOver, Sleep, WakeUp, PostFast, PostTake, PostWake, Yield, IdleYield, KillFlag,
         Get, GetAll, PostAllBegin, PostAllEnd, BeginStart, Orphan, Collect, Tell, KillAlert, Fork, Start, Reap,
         ExitBegin, HandChild, ExitLeft, TakeSched, Die, NextRunnable, SomeoneWaits,
         IsZombieChild;
    match e {
      case EWait(p, x, alertable, w) =>
        if s.sems[x].val > 0 { WaitFastKeeps(s, p, x, w); } else { WaitSlowKeeps(s, p, x, alertable, w); }
      case EHandOver(p) => HandOverKeeps(s, p);
      case ESleep(p, c) => SleepKeeps(s, p, c);
      case EWakeUp(p) => WakeUpKeeps(s, p);
      case EGet(p, x) => GetKeeps(s, p, x);
      case EGetAll(p, x) => GetAllKeeps(s, p, x);
      case EPostAll(p, x) => PostAllBeginKeeps(s, p, x);
      case EPost(p, x, f) =>
        if s.sems[x].val < 0 {
          PostTakeKeeps(s, p, x, f);
        } else if f == ToAll {
          PostAllEndKeeps(s, p, x);
        } else {
          PostFastKeeps(s, p, x, f);
        }
      case EPostWake(p) => PostWakeKeeps(s, p);
      case EYield(p, c) => YieldKeeps(s, p, c);
      case EIdle(c) => IdleYieldKeeps(s, c);
      case EKill(p, q) => KillFlagKeeps(s, p, q);
      case EAlert(p) => KillAlertKeeps(s, p);
      case EFork(p, child) => ForkKeeps(s, p, child);
      case EBeginStart(p, child) => BeginStartKeeps(s, p, child);
      case EOrphan(p, child) => OrphanKeeps(s, p, child);
      case EStart(p) => StartKeeps(s, p);
      case ECollect(p) => CollectKeeps(s, p);
      case EReap(p, child) => ReapKeeps(s, p, child);
      case EExit(p) => ExitBeginKeeps(s, p);
      case EHandChild(p, child) => HandChildKeeps(s, p, child);
      case ELeft(p) => ExitLeftKeeps(s, p);
      case ETell(p) => TellKeeps(s, p);
      case ETakeSched(p) => TakeSchedKeeps(s, p);
      case EDie(p, c) => DieKeeps(s, p, c);
    }
  }

  // ----- runs

  /** How a run ends: in a state, at an event that cannot happen there, or at one that goes wrong. */
  datatype Outcome = Reached(s: State) | Impossible | Wrong

  function After(s: State, es: seq<Event>): (o: Outcome)
  {
    if es == [] then Reached(s)
    else
      var o := After(s, es[..|es| - 1]);
      if !o.Reached? then o
      else
        var e := es[|es| - 1];
        if !Enabled(o.s, e) then Impossible else if GoesWrong(o.s, e) then Wrong else Reached(Next(o.s, e))
  }

  /** Root is ready to run, every CPU runs its idle process, all semaphores are unused. */
  ghost predicate Boot(s: State) {
    && s.procs == map[ROOT := Proc(RUNNABLE, false, 0, ROOT, Run, false)] && s.rq == [ROOT]
    && |s.cur| == |s.idle| && (forall c :: 0 <= c < |s.cur| ==> s.cur[c] == None && s.idle[c] == RUNNING)
    && ChildExit(ROOT) in s.sems && s.sems[ChildExit(ROOT)].val == 0
    && (forall x :: x in s.sems ==> s.sems[x] == Sem(s.sems[x].initial, [], s.sems[x].initial, 0, 0))
    && (forall q :: ChildExit(q) in s.sems ==> q == ROOT)
    && s.schedLock.None? && s.procLock.None? && s.semLock == map[] && s.reaped == {}
  }

  lemma BootInv(s: State)
    requires Boot(s)
    ensures Inv(s)
  {
    hide SchedOk;
    BootSched(s);
    assert Kids(s, ROOT) == {};
  }

  lemma BootSched(s: State)
    requires Boot(s)
    ensures SchedOk(s)
  {
  }

  /** From a state with the invariant on, nothing goes wrong and the invariant holds all the time. */
  lemma {:induction false} RunsKeepFrom(s: State, es: seq<Event>)
    requires Inv(s)
    ensures !After(s, es).Wrong?
    ensures After(s, es).Reached? ==> Inv(After(s, es).s)
  {
    hide Inv, Enabled, GoesWrong, Next;
    if es != [] {
      RunsKeepFrom(s, es[..|es| - 1]);
      var o := After(s, es[..|es| - 1]);
      var e := es[|es| - 1];
      if o.Reached? && Enabled(o.s, e) {
        NothingGoesWrong(o.s, e);
        StepKeeps(o.s, e);
      }
    }
  }

  /** In every run nothing goes wrong and the invariant holds all the time. */
  lemma RunsKeep(s: State, es: seq<Event>)
    requires Boot(s)
    ensures !After(s, es).Wrong?
    ensures After(s, es).Reached? ==> Inv(After(s, es).s)
  {
    hide Boot, Inv, Enabled, GoesWrong, Next;
    BootInv(s);
    RunsKeepFrom(s, es);
  }
}
