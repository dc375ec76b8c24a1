/**
 Fairness of the scheduler over whole runs of the kernel (src/kernel/sched.c): how often others are picked
 while a process is RUNNABLE, and what happens to a process whose load has reached the limit.
 */
module KernelFairness {
  import opened Basics
  import opened Scheduler
  import opened Kernel
  import opened KernelInvariant
  import opened KernelSteps
  import opened KernelWait
  import opened KernelPost
  import opened KernelExit
  import opened KernelRuns

  // ----- calls of sched

  /** A call of sched on CPU c, in state s, that goes past the test for a killed process. */
  datatype Call = NoCall | Call(s: State, c: nat, st: PState) {
    ghost predicate Valid() {
      Call? ==>
        && c < |s.cur| == |s.idle| && (s.cur[c].Some? ==> s.cur[c].value in s.procs)
        && SchedState(st) && (s.cur[c].None? ==> st == RUNNABLE)
    }
  }

  function CallOf(s: State, e: Event): (k: Call)
    requires Enabled(s, e)
    ensures k.Valid()
  {
    match e
    case ESleep(p, c) =>
      if s.procs[p].killed then NoCall
      else Call(SleepMid(s, p), c, if s.procs[p].pc.alertable then SLEEPING else DEEPSLEEPING)
    case EYield(p, c) => if s.procs[p].killed then NoCall else Call(s, c, RUNNABLE)
    case EIdle(c) => Call(s, c, RUNNABLE)
    case EDie(p, c) => Call(DieMid(s, p), c, ZOMBIE)
    case _ => NoCall
  }

  /** What the call picks; None is the idle process. */
  function PickedBy(k: Call): (pick: Option<Pid>)
    requires k.Valid()
  {
    match k
    case NoCall => None
    case Call(s, c, st) => Pick(Leave(s, c, st).rq, Entries(Leave(s, c, st).procs))
  }

  function Picked(s: State, e: Event): (pick: Option<Pid>)
    requires Enabled(s, e)
  {
    PickedBy(CallOf(s, e))
  }

  predicate Forks(e: Event) { e.EFork? || e.EOrphan? }

  /** Loads go up for the process picked only, new processes have none, and without a fork there are none. */
  ghost predicate LoadsStep(s: State, r: State, pick: Option<Pid>, forked: set<Pid>) {
    && r.procs.Keys <= s.procs.Keys + forked
    && (forall x :: x in s.procs && x in r.procs ==>
          r.procs[x].load == s.procs[x].load + (if pick == Some(x) then 1 else 0))
    && (forall x :: x in r.procs && x !in s.procs ==> r.procs[x].load == 0)
  }

  /** A RUNNABLE process stays one until it is picked. */
  ghost predicate ReadyStep(s: State, r: State, pick: Option<Pid>) {
    forall x :: x in s.procs && s.procs[x].state == RUNNABLE ==>
      x in r.procs && r.procs[x].state == if pick == Some(x) then RUNNING else RUNNABLE
  }

  function Forked(e: Event): (ps: set<Pid>) { if Forks(e) then {e.child} else {} }

  /** The call as a turn of the scheduler: its own run queue, with every RUNNABLE process on it. */
  lemma CallTurns(s: State, c: nat, st: PState, p: Pid)
    requires Call(s, c, st).Valid() && SchedOk(s) && p in s.procs && s.procs[p].state == RUNNABLE
    ensures var m := Leave(s, c, st);
            var pick := PickedBy(Call(s, c, st));
            Turn(m.rq, p, Entries(m.procs), pick, Entries(Switch(s, c, st).procs))
    ensures Leave(s, c, st).procs.Keys == s.procs.Keys
    ensures forall x :: x in s.procs ==> Leave(s, c, st).procs[x].load == s.procs[x].load
  {
    hide SchedOk, Pick, IsPick, Leave;
    LeaveSched(s, c, st);
    LeaveLoads(s, c, st);
    var m := Leave(s, c, st);
    PickIsPick(m.rq, Entries(m.procs));
  }

  lemma LeaveLoads(s: State, c: nat, st: PState)
    requires Call(s, c, st).Valid() && SchedOk(s)
    ensures var m := Leave(s, c, st);
            && m.procs.Keys == s.procs.Keys
            && (forall x :: x in s.procs ==> m.procs[x].load == s.procs[x].load)
            && (forall x :: x in s.procs && s.procs[x].state == RUNNABLE ==> m.procs[x].state == RUNNABLE)
  {
    hide Without;
  }

  lemma SwitchLoads(s: State, c: nat, st: PState)
    requires Call(s, c, st).Valid() && SchedOk(s)
    ensures LoadsStep(s, Switch(s, c, st), PickedBy(Call(s, c, st)), {})
    ensures ReadyStep(s, Switch(s, c, st), PickedBy(Call(s, c, st)))
    ensures Switch(s, c, st).procs.Keys == s.procs.Keys
  {
    hide SchedOk, Leave;
    LeaveLoads(s, c, st);
  }

  /** The event of a call is that call. */
  lemma CallIs(s: State, e: Event)
    requires Inv(s) && Enabled(s, e) && !GoesWrong(s, e) && CallOf(s, e).Call?
    ensures var k := CallOf(s, e);
            && SchedOk(k.s) && Next(s, e) == Switch(k.s, k.c, k.st) && k.s.procs.Keys == s.procs.Keys
            && forall x :: x in s.procs ==>
                 k.s.procs[x].load == s.procs[x].load && k.s.procs[x].state == s.procs[x].state
  {
    hide Inv, SchedOk, TokensOk, ProcsOk, Switch, NextRunnable;
    match e {
      case ESleep(p, c) => SleepFrame(s, p);
      case EYield(p, c) => InvProcs(s);
      case EIdle(c) => InvProcs(s);
      case EDie(p, c) => Targets(s, p); DieFrame(s, p);
    }
  }

  lemma ActivateLoads(s: State, q: Pid, onalert: bool)
    requires q in s.procs
    ensures LoadsStep(s, Activate(s, q, onalert), None, {}) && ReadyStep(s, Activate(s, q, onalert), None)
    ensures Activate(s, q, onalert).procs.Keys == s.procs.Keys
  {
  }

  lemma PostLoads(s: State, p: Pid, x: SemId, f: PostFor)
    requires CanPost(s, p, x, f) && !GoesWrong(s, EPost(p, x, f))
    ensures var r := Next(s, EPost(p, x, f)); LoadsStep(s, r, None, {}) && ReadyStep(s, r, None)
  {
    hide PostsTo, PostsFrom, PostTarget;
  }

  lemma ReapLoads(s: State, p: Pid, child: Pid)
    requires CanReap(s, p) && IsZombieChild(s, p, child)
    ensures LoadsStep(s, Reap(s, p, child), None, {}) && ReadyStep(s, Reap(s, p, child), None)
  {
  }

  /** No process comes, goes or changes its load or its state. */
  ghost predicate Still(s: State, r: State) {
    && r.procs.Keys == s.procs.Keys
    && forall x :: x in s.procs ==> r.procs[x].load == s.procs[x].load && r.procs[x].state == s.procs[x].state
  }

  lemma StillLoads(s: State, r: State)
    requires Still(s, r)
    ensures LoadsStep(s, r, None, {}) && ReadyStep(s, r, None)
  {
  }

  /** The steps of semaphores, and of sched for a killed process. */
  predicate SemStep(e: Event) {
    e.EWait? || e.EHandOver? || e.ESleep? || e.EWakeUp? || e.EGet? || e.EGetAll? || e.EPostAll? || e.EYield?
  }

  lemma SemStill(s: State, e: Event)
    requires Enabled(s, e) && !GoesWrong(s, e) && CallOf(s, e).NoCall? && SemStep(e)
    ensures Still(s, Next(s, e))
  {
    hide Without, Switch, NextRunnable, HasChild;
  }

  /** The steps of kill, start_proc, wait and exit that call nobody. */
  predicate PcStep(e: Event) {
    e.EKill? || e.EBeginStart? || e.ECollect? || e.EExit? || e.EHandChild? || e.ELeft? || e.ETell? || e.ETakeSched?
  }

  lemma PcStill(s: State, e: Event)
    requires Enabled(s, e) && !GoesWrong(s, e) && PcStep(e)
    ensures Still(s, Next(s, e))
  {
    hide HasChild;
  }

  lemma PostWakeLoads(s: State, p: Pid)
    requires CanPostWake(s, p) && s.procs[p].pc.q in s.procs
    ensures LoadsStep(s, PostWake(s, p), None, {}) && ReadyStep(s, PostWake(s, p), None)
  {
    hide Activate, PostsTo;
    ActivateLoads(s, s.procs[p].pc.q, false);
  }

  lemma AlertLoads(s: State, p: Pid)
    requires CanAlert(s, p) && s.procs[p].pc.q in s.procs
    ensures LoadsStep(s, KillAlert(s, p), None, {}) && ReadyStep(s, KillAlert(s, p), None)
  {
    hide Activate;
    ActivateLoads(s, s.procs[p].pc.q, true);
  }

  lemma StartLoads(s: State, p: Pid)
    requires CanStart(s, p) && s.procs[p].pc.child in s.procs
    ensures LoadsStep(s, Start(s, p), None, {}) && ReadyStep(s, Start(s, p), None)
  {
    hide Activate;
    var child, mid := s.procs[p].pc.child, StartMid(s, p);
    ActivateLoads(mid, child, false);
    assert Start(s, p).procs == Activate(mid, child, false).procs[child := Start(s, p).procs[child]];
  }

  lemma ForkLoads(s: State, p: Pid, child: Pid)
    requires CanFork(s, p, child)
    ensures LoadsStep(s, Fork(s, p, child), None, {child}) && ReadyStep(s, Fork(s, p, child), None)
    ensures LoadsStep(s, Orphan(s, p, child), None, {child}) && ReadyStep(s, Orphan(s, p, child), None)
  {
  }

  lemma QuietLoads(s: State, e: Event)
    requires Enabled(s, e) && !GoesWrong(s, e) && CallOf(s, e).NoCall?
    ensures LoadsStep(s, Next(s, e), None, Forked(e)) && ReadyStep(s, Next(s, e), None)
  {
    hide Without, Switch, NextRunnable, SomeoneWaits, Activate, HasChild, HasZombie, PostsTo, PostsFrom, PostTarget,
         PostTake, PostFast, PostAllEnd, Reap, IsZombieChild, WaitFast, WaitSlow, HandOver, Sleep, WakeUp, Get, GetAll,
         PostAllBegin, Yield, PostWake, KillAlert, Start, Fork, Orphan,
         KillFlag, BeginStart, Collect, ExitBegin, HandChild, ExitLeft, Tell, TakeSched, LoadsStep, ReadyStep, Still;
    if SemStep(e) {
      SemStill(s, e);
      StillLoads(s, Next(s, e));
    } else if PcStep(e) {
      PcStill(s, e);
      StillLoads(s, Next(s, e));
    } else {
      match e {
        case EPostWake(p) => PostWakeLoads(s, p);
        case EAlert(p) => AlertLoads(s, p);
        case EStart(p) => StartLoads(s, p);
        case EPost(p, x, f) => PostLoads(s, p, x, f);
        case EReap(p, child) => ReapLoads(s, p, child);
        case EFork(p, child) => ForkLoads(s, p, child);
        case EOrphan(p, child) => ForkLoads(s, p, child);
        case _ =>
      }
    }
  }

  /** What an event does to loads and to RUNNABLE processes. */
  lemma EventLoads(s: State, e: Event)
    requires Inv(s) && Enabled(s, e) && !GoesWrong(s, e)
    ensures LoadsStep(s, Next(s, e), Picked(s, e), Forked(e)) && ReadyStep(s, Next(s, e), Picked(s, e))
  {
    hide Inv, Enabled, GoesWrong, Next, Switch, SchedOk, Leave, Pick;
    var k := CallOf(s, e);
    if k.Call? {
      CallIs(s, e);
      SwitchLoads(k.s, k.c, k.st);
    } else {
      QuietLoads(s, e);
    }
  }

  // ----- bounded bypass in every run

  /** p is there and RUNNABLE. */
  predicate Waits(s: State, p: Pid) { p in s.procs && s.procs[p].state == RUNNABLE }

  /** What the other processes may still be picked before p. */
  ghost function Allowance(s: State, p: Pid): (n: nat)
    requires p in s.procs
  {
    Bypass(s.procs.Keys, Entries(s.procs), p)
  }

  /** One call of pick_next uses up one unit of the allowance. */
  lemma CallDrops(s: State, e: Event, p: Pid)
    requires Inv(s) && Enabled(s, e) && !GoesWrong(s, e) && CallOf(s, e).Call?
    requires Waits(s, p) && s.procs[p].load < MIN_LOAD && Picked(s, e) != Some(p)
    ensures Picked(s, e).Some? && p in Next(s, e).procs && Allowance(Next(s, e), p) == Allowance(s, p) - 1
  {
    hide Inv, Enabled, GoesWrong, Next, Switch, SchedOk, Leave, PickedBy, Bypass, CallOf;
    var k := CallOf(s, e);
    CallIs(s, e);
    CallTurns(k.s, k.c, k.st, p);
    var m := Leave(k.s, k.c, k.st);
    TurnDrops(m.rq, p, Entries(m.procs), PickedBy(k), Entries(Next(s, e).procs));
    BypassMono(m.procs.Keys, Entries(m.procs), s.procs.Keys, Entries(s.procs), p);
    BypassMono(s.procs.Keys, Entries(s.procs), m.procs.Keys, Entries(m.procs), p);
  }

  /** Other events do not add to it, but for a new process, which has no load yet. */
  lemma QuietDrops(s: State, e: Event, p: Pid)
    requires Enabled(s, e) && !GoesWrong(s, e) && CallOf(s, e).NoCall? && Waits(s, p)
    ensures Waits(Next(s, e), p)
    ensures Allowance(Next(s, e), p) <= Allowance(s, p) + if Forks(e) then s.procs[p].load + 1 else 0
  {
    hide Enabled, GoesWrong, Next, Bypass, CallOf;
    QuietLoads(s, e);
    LoadsMono(s, Next(s, e), Forked(e), p);
  }

  lemma LoadsMono(s: State, r: State, forked: set<Pid>, p: Pid)
    requires LoadsStep(s, r, None, forked) && p in s.procs && p in r.procs && |forked| <= 1
    ensures Allowance(r, p) <= Allowance(s, p) + |forked| * (s.procs[p].load + 1)
  {
    hide Bypass;
    var born := r.procs.Keys - s.procs.Keys;
    if born == {} {
      BypassMono(r.procs.Keys, Entries(r.procs), s.procs.Keys, Entries(s.procs), p);
    } else {
      var x :| x in born;
      OneOf(born, forked, x);
      BypassSplit(r.procs.Keys, Entries(r.procs), p, x);
      BypassMono(r.procs.Keys - {x}, Entries(r.procs), s.procs.Keys, Entries(s.procs), p);
    }
  }

  lemma OneOf(a: set<Pid>, b: set<Pid>, x: Pid)
    requires x in a && a <= b && |b| <= 1
    ensures a == {x} && |b| == 1
  {
    assert |b - {x}| == |b| - 1;
  }

  /** How often pick_next is called in the run es from s on, and how many processes are created. */
  function PickCalls(s: State, es: seq<Event>): (n: nat) {
    if es == [] then 0
    else
      var front, e := es[..|es| - 1], es[|es| - 1];
      var o := After(s, front);
      PickCalls(s, front) + if o.Reached? && Enabled(o.s, e) && CallOf(o.s, e).Call? then 1 else 0
  }

  function ForkCount(es: seq<Event>): (n: nat) {
    if es == [] then 0 else ForkCount(es[..|es| - 1]) + if Forks(es[|es| - 1]) then 1 else 0
  }

  /** The run es from s on is possible, and p is RUNNABLE all the time. */
  ghost predicate WaitsThrough(s: State, es: seq<Event>, p: Pid) {
    && Waits(s, p) && After(s, es).Reached? && Waits(After(s, es).s, p)
    && (es != [] ==> WaitsThrough(s, es[..|es| - 1], p))
  }

  lemma EventDrops(s: State, e: Event, p: Pid)
    requires Inv(s) && Enabled(s, e) && !GoesWrong(s, e)
    requires Waits(s, p) && s.procs[p].load < MIN_LOAD && Waits(Next(s, e), p)
    ensures Next(s, e).procs[p].load == s.procs[p].load
    ensures Allowance(Next(s, e), p) + (if CallOf(s, e).Call? then 1 else 0)
            <= Allowance(s, p) + if Forks(e) then s.procs[p].load + 1 else 0
  {
    hide Inv, Enabled, GoesWrong, Next, CallOf, PickedBy, Allowance;
    EventLoads(s, e);
    if CallOf(s, e).Call? {
      CallDrops(s, e, p);
    } else {
      QuietDrops(s, e, p);
    }
  }

  /** Bounded bypass in every run, in every interleaving: while a process of load L below the limit is
      RUNNABLE, pick_next is called at most the sum over the others of max(0, L + 1 - load) times, and
      L + 1 times more for each process that is created meanwhile. */
  lemma {:induction false} BypassBounded(s: State, es: seq<Event>, p: Pid)
    requires Inv(s) && WaitsThrough(s, es, p) && s.procs[p].load < MIN_LOAD
    ensures After(s, es).s.procs[p].load == s.procs[p].load
    ensures PickCalls(s, es) + Allowance(After(s, es).s, p)
            <= Allowance(s, p) + ForkCount(es) * (s.procs[p].load + 1)
  {
    hide Inv, Enabled, GoesWrong, Next, CallOf, Allowance;
    if es != [] {
      var front, e := es[..|es| - 1], es[|es| - 1];
      BypassBounded(s, front, p);
      RunsKeepFrom(s, front);
      EventDrops(After(s, front).s, e, p);
      CountUp(ForkCount(front), if Forks(e) then 1 else 0, s.procs[p].load + 1);
    }
  }

  lemma CountUp(n: nat, i: nat, l: nat)
    ensures (n + i) * l == n * l + i * l
  {
  }

  /** The limit is exact: a RUNNABLE process whose load has reached it is never picked again in any run. */
  lemma {:induction false} NeverPicked(s: State, es: seq<Event>, p: Pid)
    requires Inv(s) && Waits(s, p) && s.procs[p].load >= MIN_LOAD && After(s, es).Reached?
    ensures Waits(After(s, es).s, p) && After(s, es).s.procs[p].load == s.procs[p].load
  {
    hide Inv, Enabled, GoesWrong, Next, CallOf, PickedBy;
    if es != [] {
      var front, e := es[..|es| - 1], es[|es| - 1];
      NeverPicked(s, front, p);
      RunsKeepFrom(s, front);
      EventLoads(After(s, front).s, e);
      if Picked(After(s, front).s, e) == Some(p) { PickedReady(After(s, front).s, e); }
    }
  }

  /** What is picked was below the limit. */
  lemma PickedReady(s: State, e: Event)
    requires Inv(s) && Enabled(s, e) && !GoesWrong(s, e) && Picked(s, e).Some?
    ensures Picked(s, e).value in s.procs && s.procs[Picked(s, e).value].load < MIN_LOAD
  {
    hide Inv, Enabled, GoesWrong, Next, Switch, SchedOk, Leave, Pick;
    var k := CallOf(s, e);
    CallIs(s, e);
    LeaveLoads(k.s, k.c, k.st);
  }

  /** The 32-bit load of a process does not overflow: in every run it stays within the limit. */
  lemma {:induction false} LoadWithinLimit(s0: State, es: seq<Event>, p: Pid)
    requires Boot(s0) && After(s0, es).Reached? && p in After(s0, es).s.procs
    ensures After(s0, es).s.procs[p].load <= MIN_LOAD
  {
    hide Inv, Enabled, GoesWrong, Next, CallOf, PickedBy;
    if es != [] {
      var front, e := es[..|es| - 1], es[|es| - 1];
      var s := After(s0, front).s;
      RunsKeep(s0, front);
      EventLoads(s, e);
      if p in s.procs {
        LoadWithinLimit(s0, front, p);
        if Picked(s, e) == Some(p) { PickedReady(s, e); }
      }
    }
  }
}
