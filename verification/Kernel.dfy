/**
 Semaphores, scheduler and exit/wait on several CPUs (src/common/sem.c, src/kernel/sched.c,
 src/kernel/proc.c) as one transition system. A step is what one process does between two points
 where another CPU can get in: it takes its locks, works and goes on to the next such point, which its
 program counter names. Locks that are still held there are part of the state.
 */
module Kernel {
  import opened Basics
  import opened Scheduler

  /** childexit of a process, or any other semaphore of the kernel. */
  datatype SemId = ChildExit(p: Pid) | Other(id: nat)

  /** What a wait on a semaphore is for: wait() for a child, or anything else. */
  datatype WaitFor = Plain | Child

  /** What a post is for: anything, exit telling root of a zombie, exit telling the parent, post_all_sem. */
  datatype PostFor = Signal | ForAdopted | ForParent | ToAll

  /** Where a process is. */
  datatype Pc =
    | NotStarted                                        // created, not activated yet
    | Run                                               // anywhere without locks, about to do anything
    | Enqueued(x: SemId, alertable: bool, w: WaitFor)   // _wait_sem: on the sleep list; holds x
    | Sleeping(x: SemId, alertable: bool, w: WaitFor)   // _wait_sem: holds the sched lock, x dropped
    | Woken(x: SemId, w: WaitFor)                       // _wait_sem: sched has been called
    | Waking(x: SemId, q: Pid, f: PostFor)              // _post_sem: q is up; holds x
    | PostingAll(x: SemId)                              // post_all_sem: between two rounds; holds x
    | Starting(child: Pid)                              // start_proc: holds the process lock
    | Alerting(q: Pid)                                  // kill: flag set; holds the process lock
    | Reaping                                           // wait: has a token
    | Collecting                                        // wait: has a token; holds the process lock
    | Leaving                                           // exit: handing over children; holds the process lock
    | Adopting                                          // exit: root must be told of a zombie; holds the process lock
    | Left                                              // exit: children handed over, no locks
    | Telling                                           // exit: holds the process lock again
    | Told                                              // exit: parent told; holds the process lock
    | Dying                                             // exit: holds the sched lock only
    | Dead

  datatype Proc = Proc(state: PState, killed: bool, load: nat, parent: Pid, pc: Pc, up: bool)

  /** posts and grants count what has happened to the semaphore since it had value initial. */
  datatype Sem = Sem(val: int, queue: seq<Pid>, initial: nat, posts: nat, grants: nat)

  datatype State = State(
    procs: map<Pid, Proc>,
    rq: seq<Pid>,                  // first entry first
    cur: seq<Option<Pid>>,         // per CPU; None is its idle process
    idle: seq<PState>,             // per CPU: the state of its idle process
    sems: map<SemId, Sem>,
    schedLock: Option<Pid>,
    procLock: Option<Pid>,
    semLock: map<SemId, Pid>,
    reaped: set<Pid>
  )

  const ROOT: Pid := 0

  // ----- what a process holds

  predicate HoldsSched(pc: Pc) { pc.Sleeping? || pc.Dying? }

  /** The posts that exit makes. */
  predicate InExit(f: PostFor) { f == ForAdopted || f == ForParent }

  predicate HoldsProc(pc: Pc) {
    || pc.Starting? || pc.Alerting? || pc.Collecting? || pc.Leaving? || pc.Adopting? || pc.Telling? || pc.Told?
    || (pc.Waking? && InExit(pc.f))
  }

  predicate LockFree(pc: Pc) { pc.Run? || pc.Woken? || pc.Reaping? || pc.Left? }

  /** In _wait_sem on x, between joining the sleep list and looking at wait->up. */
  predicate WaitsOn(pc: Pc, x: SemId) {
    (pc.Enqueued? || pc.Sleeping? || pc.Woken?) && pc.x == x
  }

  predicate Asleep(st: PState) { st == SLEEPING || st == DEEPSLEEPING }

  // ----- pieces of steps

  function SetPc(s: State, p: Pid, pc: Pc): (r: State)
    requires p in s.procs
  {
    s.(procs := s.procs[p := s.procs[p].(pc := pc)])
  }

  function SetSem(s: State, x: SemId, sem: Sem): (r: State)
  {
    s.(sems := s.sems[x := sem])
  }

  function Without(q: seq<Pid>, p: Pid): (r: seq<Pid>)
  {
    if q == [] then [] else if q[0] == p then Without(q[1..], p) else [q[0]] + Without(q[1..], p)
  }

  function Entries(procs: map<Pid, Proc>): (es: map<Pid, Entry>)
    ensures es.Keys == procs.Keys
  {
    map p | p in procs :: Entry(procs[p].state, procs[p].load)
  }

  /** _activate_proc. */
  function Activate(s: State, q: Pid, onalert: bool): (r: State)
    requires q in s.procs
  {
    var st := s.procs[q].state;
    if st == RUNNING || st == RUNNABLE || st == ZOMBIE || (st == DEEPSLEEPING && onalert) then s
    else s.(procs := s.procs[q := s.procs[q].(state := RUNNABLE)], rq := [q] + s.rq)
  }

  /** update_this_state for the process on CPU c. */
  function Leave(s: State, c: nat, st: PState): (r: State)
    requires c < |s.cur| == |s.idle| && (s.cur[c].Some? ==> s.cur[c].value in s.procs)
  {
    match s.cur[c]
    case None => s.(idle := s.idle[c := st])
    case Some(p) =>
      var q := if st == RUNNABLE then s.rq else Without(s.rq, p);
      s.(procs := s.procs[p := s.procs[p].(state := st)], rq := q)
  }

  /** pick_next, update_this_proc and the new state of the process picked, on CPU c. */
  function Enter(s: State, c: nat): (r: State)
    requires c < |s.cur| == |s.idle|
  {
    match Pick(s.rq, Entries(s.procs))
    case None => s.(cur := s.cur[c := None], idle := s.idle[c := RUNNING])
    case Some(q) =>
      s.(cur := s.cur[c := Some(q)],
         procs := s.procs[q := s.procs[q].(state := RUNNING, load := s.procs[q].load + 1)])
  }

  /** sched, apart from the test for a killed process. */
  function Switch(s: State, c: nat, st: PState): (r: State)
    requires c < |s.cur| == |s.idle| && (s.cur[c].Some? ==> s.cur[c].value in s.procs)
  {
    Enter(Leave(s, c, st), c)
  }

  /** Where a process goes on once its wait has been granted. */
  function Granted(w: WaitFor): (pc: Pc) { if w == Child then Reaping else Run }

  /** Where a process posts to x from, and where it goes on afterwards. */
  function PostsFrom(x: SemId, f: PostFor): (pc: Pc) {
    match f
    case Signal => Run
    case ForAdopted => Adopting
    case ForParent => Telling
    case ToAll => PostingAll(x)
  }

  function PostsTo(x: SemId, f: PostFor): (pc: Pc) {
    match f
    case Signal => Run
    case ForAdopted => Leaving
    case ForParent => Told
    case ToAll => PostingAll(x)
  }

  /** The semaphore that a post is made to. */
  predicate PostTarget(s: State, p: Pid, x: SemId, f: PostFor)
    requires p in s.procs
  {
    match f
    case Signal => x.Other?
    case ForAdopted => x == ChildExit(ROOT)
    case ForParent => x == ChildExit(s.procs[p].parent)
    case ToAll => x.Other?
  }

  // ----- steps

  /** The running process p is at pc. */
  predicate At(s: State, p: Pid) {
    p in s.procs && s.procs[p].state == RUNNING
  }

  /** CPU c runs process p. */
  predicate On(s: State, c: nat, p: Pid) {
    c < |s.cur| == |s.idle| && s.cur[c] == Some(p)
  }

  /** wait() waits on the caller's own childexit, and nothing else waits on a childexit. */
  predicate WaitTarget(p: Pid, x: SemId, w: WaitFor) {
    if w == Child then x == ChildExit(p) else x.Other?
  }

  predicate HasChild(s: State, p: Pid) {
    exists q :: q in s.procs && q != p && s.procs[q].parent == p
  }

  // _wait_sem, first part

  predicate CanWait(s: State, p: Pid, x: SemId, w: WaitFor) {
    && At(s, p) && s.procs[p].pc.Run? && x in s.sems && x !in s.semLock && WaitTarget(p, x, w)
    && (w == Child ==> HasChild(s, p))
  }

  function WaitFast(s: State, p: Pid, x: SemId, w: WaitFor): (r: State)
    requires CanWait(s, p, x, w) && s.sems[x].val > 0
  {
    var sem := s.sems[x];
    SetPc(SetSem(s, x, sem.(val := sem.val - 1, grants := sem.grants + 1)), p, Granted(w))
  }

  function WaitSlow(s: State, p: Pid, x: SemId, alertable: bool, w: WaitFor): (r: State)
    requires CanWait(s, p, x, w) && s.sems[x].val <= 0
  {
    var sem := s.sems[x];
    s.(sems := s.sems[x := sem.(val := sem.val - 1, queue := [p] + sem.queue)],
       procs := s.procs[p := s.procs[p].(pc := Enqueued(x, alertable, w), up := false)],
       semLock := s.semLock[x := p])
  }

  // _wait_sem: take the sched lock, then drop the semaphore lock

  predicate CanHandOver(s: State, p: Pid) {
    At(s, p) && s.procs[p].pc.Enqueued? && s.schedLock.None?
  }

  function HandOver(s: State, p: Pid): (r: State)
    requires CanHandOver(s, p)
  {
    var pc := s.procs[p].pc;
    SetPc(s, p, Sleeping(pc.x, pc.alertable, pc.w)).(schedLock := Some(p), semLock := s.semLock - {pc.x})
  }

  // _wait_sem: sched(SLEEPING) or sched(DEEPSLEEPING)

  predicate CanSleep(s: State, p: Pid, c: nat) {
    At(s, p) && s.procs[p].pc.Sleeping? && On(s, c, p)
  }

  function Sleep(s: State, p: Pid, c: nat): (r: State)
    requires CanSleep(s, p, c)
  {
    var me := s.procs[p];
    var r := SetPc(s, p, Woken(me.pc.x, me.pc.w)).(schedLock := None);
    if me.killed then r else Switch(r, c, if me.pc.alertable then SLEEPING else DEEPSLEEPING)
  }

  // _wait_sem, last part

  predicate CanWakeUp(s: State, p: Pid) {
    At(s, p) && s.procs[p].pc.Woken? && s.procs[p].pc.x in s.sems && s.procs[p].pc.x !in s.semLock
  }

  function WakeUp(s: State, p: Pid): (r: State)
    requires CanWakeUp(s, p)
  {
    var me := s.procs[p];
    var sem := s.sems[me.pc.x];
    if me.up then SetPc(s, p, Granted(me.pc.w))
    else SetPc(SetSem(s, me.pc.x, sem.(val := sem.val + 1, queue := Without(sem.queue, p))), p, Run)
  }

  // _get_sem and get_all_sem

  predicate CanGet(s: State, p: Pid, x: SemId) {
    At(s, p) && s.procs[p].pc.Run? && x.Other? && x in s.sems && x !in s.semLock
  }

  function Get(s: State, p: Pid, x: SemId): (r: State)
    requires CanGet(s, p, x)
  {
    var sem := s.sems[x];
    if sem.val > 0 then SetSem(s, x, sem.(val := sem.val - 1, grants := sem.grants + 1)) else s
  }

  function GetAll(s: State, p: Pid, x: SemId): (r: State)
    requires CanGet(s, p, x)
  {
    var sem := s.sems[x];
    if sem.val > 0 then SetSem(s, x, sem.(val := 0, grants := sem.grants + sem.val)) else s
  }

  // _post_sem

  predicate CanPost(s: State, p: Pid, x: SemId, f: PostFor) {
    && At(s, p) && s.procs[p].pc == PostsFrom(x, f) && PostTarget(s, p, x, f) && x in s.sems
    && (f != ToAll ==> x !in s.semLock)
  }

  function PostFast(s: State, p: Pid, x: SemId, f: PostFor): (r: State)
    requires CanPost(s, p, x, f) && s.sems[x].val >= 0 && f != ToAll
  {
    var sem := s.sems[x];
    SetPc(SetSem(s, x, sem.(val := sem.val + 1, posts := sem.posts + 1)), p, PostsTo(x, f))
  }

  /** Somebody is on the sleep list: the ASSERT of _post_sem. */
  predicate SomeoneWaits(s: State, p: Pid, x: SemId) {
    && x in s.sems && s.sems[x].queue != []
    && var q := s.sems[x].queue[|s.sems[x].queue| - 1]; q in s.procs && q != p
  }

  function PostTake(s: State, p: Pid, x: SemId, f: PostFor): (r: State)
    requires CanPost(s, p, x, f) && s.sems[x].val < 0 && SomeoneWaits(s, p, x)
  {
    var sem := s.sems[x];
    var q := sem.queue[|sem.queue| - 1];
    s.(sems := s.sems[x := sem.(val := sem.val + 1, posts := sem.posts + 1, grants := sem.grants + 1,
                                queue := sem.queue[..|sem.queue| - 1])],
       procs := s.procs[q := s.procs[q].(up := true)][p := s.procs[p].(pc := Waking(x, q, f))],
       semLock := s.semLock[x := p])
  }

  predicate CanPostWake(s: State, p: Pid) {
    At(s, p) && s.procs[p].pc.Waking? && s.schedLock.None?
  }

  /** activate_proc; post_all_sem keeps the semaphore. */
  function PostWake(s: State, p: Pid): (r: State)
    requires CanPostWake(s, p) && s.procs[p].pc.q in s.procs
  {
    var pc := s.procs[p].pc;
    var r := SetPc(Activate(s, pc.q, false), p, PostsTo(pc.x, pc.f));
    if pc.f == ToAll then r else r.(semLock := s.semLock - {pc.x})
  }

  // post_all_sem

  function PostAllBegin(s: State, p: Pid, x: SemId): (r: State)
    requires CanGet(s, p, x)
  {
    SetPc(s, p, PostingAll(x)).(semLock := s.semLock[x := p])
  }

  /** The last round: what is posted is taken back at once. */
  function PostAllEnd(s: State, p: Pid, x: SemId): (r: State)
    requires CanPost(s, p, x, ToAll) && s.sems[x].val >= 0
  {
    var sem := s.sems[x];
    SetPc(SetSem(s, x, sem.(posts := sem.posts + 1, grants := sem.grants + 1)), p, Run).(semLock := s.semLock - {x})
  }

  // yield, or the timer

  predicate CanYield(s: State, p: Pid, c: nat) {
    At(s, p) && LockFree(s.procs[p].pc) && s.schedLock.None? && On(s, c, p)
  }

  function Yield(s: State, p: Pid, c: nat): (r: State)
    requires CanYield(s, p, c)
  {
    if s.procs[p].killed then s else Switch(s, c, RUNNABLE)
  }

  /** The idle process of CPU c calls sched. */
  predicate CanIdle(s: State, c: nat) {
    c < |s.cur| == |s.idle| && s.cur[c].None? && s.schedLock.None?
  }

  function IdleYield(s: State, c: nat): (r: State)
    requires CanIdle(s, c)
  {
    Switch(s, c, RUNNABLE)
  }

  // kill

  predicate CanKill(s: State, p: Pid, q: Pid) {
    At(s, p) && s.procs[p].pc.Run? && s.procLock.None? && q in s.procs && s.procs[q].state != UNUSED
  }

  function KillFlag(s: State, p: Pid, q: Pid): (r: State)
    requires CanKill(s, p, q)
  {
    SetPc(s.(procs := s.procs[q := s.procs[q].(killed := true)]), p, Alerting(q)).(procLock := Some(p))
  }

  predicate CanAlert(s: State, p: Pid) {
    At(s, p) && s.procs[p].pc.Alerting? && s.schedLock.None?
  }

  function KillAlert(s: State, p: Pid): (r: State)
    requires CanAlert(s, p) && s.procs[p].pc.q in s.procs
  {
    SetPc(Activate(s, s.procs[p].pc.q, true), p, Run).(procLock := None)
  }

  // create_proc with set_parent_to_this, and start_proc

  predicate CanFork(s: State, p: Pid, child: Pid) {
    && At(s, p) && s.procs[p].pc.Run? && s.procLock.None?
    && child !in s.procs && child !in s.reaped && ChildExit(child) !in s.sems
  }

  function Fork(s: State, parent: Pid, child: Pid): (r: State)
  {
    s.(procs := s.procs[child := Proc(UNUSED, false, 0, parent, NotStarted, false)],
       sems := s.sems[ChildExit(child) := Sem(0, [], 0, 0, 0)])
  }

  /** start_proc takes the process lock. */
  predicate CanBeginStart(s: State, p: Pid, child: Pid) {
    && At(s, p) && s.procs[p].pc.Run? && s.procLock.None?
    && child in s.procs && s.procs[child].pc.NotStarted? && s.procs[child].parent == p
  }

  function BeginStart(s: State, p: Pid, child: Pid): (r: State)
    requires p in s.procs
  {
    SetPc(s, p, Starting(child)).(procLock := Some(p))
  }

  /** start_proc of a process without a parent, which becomes a child of root with the lock held. */
  function Orphan(s: State, p: Pid, child: Pid): (r: State)
    requires CanFork(s, p, child)
  {
    BeginStart(Fork(s, ROOT, child), p, child)
  }

  predicate CanStart(s: State, p: Pid) {
    At(s, p) && s.procs[p].pc.Starting? && s.schedLock.None?
  }

  /** The first activation of child. */
  function FirstRun(s: State, child: Pid): (r: State)
    requires child in s.procs
  {
    SetPc(Activate(s, child, false), child, Run)
  }

  function Start(s: State, p: Pid): (r: State)
    requires CanStart(s, p) && s.procs[p].pc.child in s.procs
  {
    FirstRun(SetPc(s, p, Run).(procLock := None), s.procs[p].pc.child)
  }

  // wait, with a token

  predicate CanCollect(s: State, p: Pid) {
    At(s, p) && s.procs[p].pc.Reaping? && s.procLock.None?
  }

  function Collect(s: State, p: Pid): (r: State)
    requires CanCollect(s, p)
  {
    SetPc(s, p, Collecting).(procLock := Some(p))
  }

  predicate CanReap(s: State, p: Pid) {
    At(s, p) && s.procs[p].pc.Collecting? && s.schedLock.None?
  }

  predicate IsZombieChild(s: State, p: Pid, child: Pid) {
    child in s.procs && child != p && s.procs[child].parent == p && s.procs[child].state == ZOMBIE
  }

  function Reap(s: State, p: Pid, child: Pid): (r: State)
    requires CanReap(s, p) && IsZombieChild(s, p, child)
  {
    s.(procs := s.procs[p := s.procs[p].(pc := Run)] - {child}, procLock := None, reaped := s.reaped + {child})
  }

  // exit

  predicate CanExit(s: State, p: Pid) {
    At(s, p) && s.procs[p].pc.Run? && p != ROOT && s.procLock.None?
  }

  function ExitBegin(s: State, p: Pid): (r: State)
    requires CanExit(s, p)
  {
    SetPc(s, p, Leaving).(procLock := Some(p))
  }

  predicate CanHandChild(s: State, p: Pid, child: Pid) {
    && At(s, p) && s.procs[p].pc.Leaving? && s.schedLock.None?
    && child in s.procs && child != p && s.procs[child].parent == p
  }

  function HandChild(s: State, p: Pid, child: Pid): (r: State)
    requires CanHandChild(s, p, child)
  {
    var r := s.(procs := s.procs[child := s.procs[child].(parent := ROOT)]);
    if s.procs[child].state == ZOMBIE then SetPc(r, p, Adopting) else r
  }

  predicate CanLeave(s: State, p: Pid) {
    At(s, p) && s.procs[p].pc.Leaving? && !HasChild(s, p)
  }

  function ExitLeft(s: State, p: Pid): (r: State)
    requires CanLeave(s, p)
  {
    SetPc(s, p, Left).(procLock := None)
  }

  predicate CanTell(s: State, p: Pid) {
    At(s, p) && s.procs[p].pc.Left? && s.procLock.None?
  }

  function Tell(s: State, p: Pid): (r: State)
    requires CanTell(s, p)
  {
    SetPc(s, p, Telling).(procLock := Some(p))
  }

  predicate CanTakeSched(s: State, p: Pid) {
    At(s, p) && s.procs[p].pc.Told? && s.schedLock.None?
  }

  function TakeSched(s: State, p: Pid): (r: State)
    requires CanTakeSched(s, p)
  {
    SetPc(s, p, Dying).(schedLock := Some(p), procLock := None)
  }

  predicate CanDie(s: State, p: Pid, c: nat) {
    At(s, p) && s.procs[p].pc.Dying? && On(s, c, p)
  }

  function Die(s: State, p: Pid, c: nat): (r: State)
    requires CanDie(s, p, c)
  {
    Switch(SetPc(s, p, Dead).(schedLock := None), c, ZOMBIE)
  }
}
