/**
 What adds up over whole runs of the kernel: the tokens of every semaphore and the children reaped.
 */
module KernelCounts {
  import opened Basics
  import opened Scheduler
  import opened Kernel
  import opened KernelInvariant
  import opened KernelSteps
  import opened KernelWait
  import opened KernelPost
  import opened KernelExit
  import opened KernelRuns
  import opened KernelTheorems

  // ----- tokens

  /** Processes that have been granted a token of x and have not returned from _wait_sem yet. */
  ghost function InFlight(s: State, x: SemId): (ps: set<Pid>)
  {
    set z | z in s.procs && Flies(s, z, x)
  }

  /** e is a post of x. */
  function Posts(e: Event, x: SemId): (n: nat) {
    if e.EPost? && e.x == x then 1 else 0
  }

  /** The tokens of x that somebody obtains in e: a _wait_sem or a _get_sem returns true, get_all_sem takes what
      there is, and post_all_sem takes its last post back. */
  function Returns(s: State, e: Event, x: SemId): (n: nat)
    requires Enabled(s, e)
  {
    if (e.EWait? || e.EGet?) && e.x == x && s.sems[x].val > 0 then 1
    else if e.EGetAll? && e.x == x then Max0(s.sems[x].val)
    else if e.EPost? && e.x == x && e.f == ToAll && s.sems[x].val >= 0 then 1
    else if e.EWakeUp? && s.procs[e.p].pc.x == x && s.procs[e.p].up then 1
    else 0
  }

  function TotalPosts(es: seq<Event>, x: SemId): (n: nat) {
    if es == [] then 0 else TotalPosts(es[..|es| - 1], x) + Posts(es[|es| - 1], x)
  }

  function TotalReturns(s0: State, es: seq<Event>, x: SemId): (n: nat) {
    if es == [] then 0
    else
      var n := TotalReturns(s0, es[..|es| - 1], x);
      var o := After(s0, es[..|es| - 1]);
      if o.Reached? && Enabled(o.s, es[|es| - 1]) then n + Returns(o.s, es[|es| - 1], x) else n
  }

  /** The books of x: initial value and posts on one side, grants on the other. */
  ghost predicate Balanced(s: State, r: State, x: SemId, posts: nat, done: nat)
    requires x in s.sems
  {
    && x in r.sems && r.sems[x].initial == s.sems[x].initial && r.sems[x].posts == s.sems[x].posts + posts
    && r.sems[x].grants - |InFlight(r, x)| == s.sems[x].grants - |InFlight(s, x)| + done
  }

  lemma SameFlights(s: State, r: State, x: SemId)
    requires forall z :: Flies(r, z, x) <==> Flies(s, z, x)
    ensures InFlight(r, x) == InFlight(s, x)
  {
    hide WaitsOn;
  }

  /** One process more in flight. */
  lemma OneMore(s: State, r: State, x: SemId, q: Pid)
    requires forall z :: z != q ==> (Flies(r, z, x) <==> Flies(s, z, x))
    requires Flies(r, q, x) && !Flies(s, q, x)
    ensures |InFlight(r, x)| == |InFlight(s, x)| + 1
  {
    hide WaitsOn;
    assert InFlight(r, x) == InFlight(s, x) + {q};
    assert q !in InFlight(s, x);
  }

  lemma QuietBalanced(s: State, r: State, x: SemId)
    requires Quiet(s, r) && x in s.sems
    ensures Balanced(s, r, x, 0, 0)
  {
    hide Flies;
    SameFlights(s, r, x);
  }

  lemma FastBalanced(s: State, p: Pid, y: SemId, w: WaitFor, x: SemId)
    requires CanWait(s, p, y, w) && s.sems[y].val > 0 && x in s.sems
    ensures Balanced(s, WaitFast(s, p, y, w), x, 0, if y == x then 1 else 0)
  {
    hide InFlight;
    SameFlights(s, WaitFast(s, p, y, w), x);
  }

  lemma SlowBalanced(s: State, p: Pid, y: SemId, alertable: bool, w: WaitFor, x: SemId)
    requires CanWait(s, p, y, w) && s.sems[y].val <= 0 && x in s.sems
    ensures Balanced(s, WaitSlow(s, p, y, alertable, w), x, 0, 0)
  {
    hide InFlight;
    SameFlights(s, WaitSlow(s, p, y, alertable, w), x);
  }

  lemma WakeBalanced(s: State, p: Pid, x: SemId)
    requires CanWakeUp(s, p) && x in s.sems
    ensures Balanced(s, WakeUp(s, p), x, 0, if s.procs[p].pc.x == x && s.procs[p].up then 1 else 0)
  {
    hide InFlight, Without;
    if s.procs[p].pc.x == x && s.procs[p].up {
      OneMore(WakeUp(s, p), s, x, p);
    } else {
      SameFlights(s, WakeUp(s, p), x);
    }
  }

  lemma PostBalanced(s: State, p: Pid, y: SemId, f: PostFor, x: SemId)
    requires CanPost(s, p, y, f) && s.sems[y].val >= 0 && f != ToAll && x in s.sems
    ensures Balanced(s, PostFast(s, p, y, f), x, if y == x then 1 else 0, 0)
  {
    hide InFlight;
    SameFlights(s, PostFast(s, p, y, f), x);
  }

  lemma GetBalanced(s: State, p: Pid, y: SemId, x: SemId)
    requires CanGet(s, p, y) && x in s.sems
    ensures Balanced(s, Get(s, p, y), x, 0, if y == x && s.sems[x].val > 0 then 1 else 0)
    ensures Balanced(s, GetAll(s, p, y), x, 0, if y == x then Max0(s.sems[x].val) else 0)
  {
    hide InFlight;
    SameFlights(s, Get(s, p, y), x);
    SameFlights(s, GetAll(s, p, y), x);
  }

  lemma EndBalanced(s: State, p: Pid, y: SemId, x: SemId)
    requires CanPost(s, p, y, ToAll) && s.sems[y].val >= 0 && x in s.sems
    ensures Balanced(s, PostAllEnd(s, p, y), x, if y == x then 1 else 0, if y == x then 1 else 0)
  {
    hide InFlight;
    SameFlights(s, PostAllEnd(s, p, y), x);
  }

  lemma TakeBalanced(s: State, p: Pid, y: SemId, f: PostFor, x: SemId)
    requires CanPost(s, p, y, f) && s.sems[y].val < 0 && SomeoneWaits(s, p, y) && x in s.sems
    requires QueuedOn(s.procs[Last(s.sems[y].queue)], y)
    ensures Balanced(s, PostTake(s, p, y, f), x, if y == x then 1 else 0, 0)
  {
    hide InFlight;
    var q := Last(s.sems[y].queue);
    var r := PostTake(s, p, y, f);
    assert r.procs[q].pc == s.procs[q].pc && r.procs[q].up && !s.procs[q].up;
    if y == x {
      OneMore(s, r, x, q);
    } else {
      SameFlights(s, r, x);
    }
  }

  lemma EventBalanced(s: State, e: Event, x: SemId)
    requires Inv(s) && Enabled(s, e) && !GoesWrong(s, e) && x in s.sems
    ensures Balanced(s, Next(s, e), x, Posts(e, x), Returns(s, e, x))
  {
    hide ProcsOk, LocksOk, SchedOk, SemsOk, WakeOk, TokensOk, QueuedOn, NextRunnable, WaitFast, WaitSlow,
         PostFast, PostTake, WakeUp, SomeoneWaits, IsZombieChild, Balanced, Get, GetAll, PostAllEnd;
    match e {
      case EWait(p, y, alertable, w) =>
        if s.sems[y].val > 0 { FastBalanced(s, p, y, w, x); } else { SlowBalanced(s, p, y, alertable, w, x); }
      case EWakeUp(p) => WakeBalanced(s, p, x);
      case EPost(p, y, f) =>
        if s.sems[y].val < 0 {
          LastQueued(s, p, y);
          TakeBalanced(s, p, y, f, x);
        } else if f == ToAll {
          EndBalanced(s, p, y, x);
        } else {
          PostBalanced(s, p, y, f, x);
        }
      case EGet(p, y) => GetBalanced(s, p, y, x);
      case EGetAll(p, y) => GetBalanced(s, p, y, x);
      case _ => QuietEventBalanced(s, e, x);
    }
  }

  lemma LastQueued(s: State, p: Pid, y: SemId)
    requires SemsOk(s) && SomeoneWaits(s, p, y)
    ensures QueuedOn(s.procs[Last(s.sems[y].queue)], y)
  {
    hide SemsOk, QueuedOn;
    assert Last(s.sems[y].queue) in s.sems[y].queue;
    QueueFlies(s, y, Last(s.sems[y].queue));
  }

  lemma QuietEventBalanced(s: State, e: Event, x: SemId)
    requires Inv(s) && Enabled(s, e) && !GoesWrong(s, e) && !Loud(e) && x in s.sems
    ensures Balanced(s, Next(s, e), x, 0, 0)
  {
    hide Inv, Next, GoesWrong, Enabled, Balanced, Quiet;
    QuietEvents(s, e);
    QuietBalanced(s, Next(s, e), x);
  }

  // ----- semaphores that do not exist yet

  lemma NoFlights(s: State, x: SemId)
    requires ProcsOk(s) && x !in s.sems
    ensures InFlight(s, x) == {}
  {
    hide Local, Links;
    forall z | z in s.procs ensures !Flies(s, z, x) {
      Sems(s, z);
    }
  }

  /** The semaphore has come into being unused. */
  lemma EventCreates(s: State, e: Event, x: SemId)
    requires Inv(s) && Enabled(s, e) && !GoesWrong(s, e) && x !in s.sems
    ensures Posts(e, x) == 0 && Returns(s, e, x) == 0
    ensures x in Next(s, e).sems ==> Next(s, e).sems[x] == Sem(0, [], 0, 0, 0) && InFlight(Next(s, e), x) == {}
  {
    hide ProcsOk, LocksOk, SchedOk, SemsOk, WakeOk, TokensOk, NextRunnable, SomeoneWaits, IsZombieChild, Quiet,
         Without;
    if !Loud(e) {
      QuietCreates(s, e, x);
    }
  }

  lemma QuietCreates(s: State, e: Event, x: SemId)
    requires Inv(s) && Enabled(s, e) && !GoesWrong(s, e) && !Loud(e) && x !in s.sems
    ensures x in Next(s, e).sems ==> Next(s, e).sems[x] == Sem(0, [], 0, 0, 0) && InFlight(Next(s, e), x) == {}
  {
    hide ProcsOk, LocksOk, SchedOk, SemsOk, WakeOk, TokensOk, Next, GoesWrong, Enabled, InFlight, Flies;
    QuietEvents(s, e);
    NoFlights(s, x);
    SameFlights(s, Next(s, e), x);
  }

  // ----- over a run

  /** The books of x after es. */
  ghost predicate Books(s0: State, es: seq<Event>, s: State, x: SemId) {
    if x in s.sems then
      && s.sems[x].initial == (if x in s0.sems then s0.sems[x].val else 0)
      && s.sems[x].posts == TotalPosts(es, x)
      && s.sems[x].grants == TotalReturns(s0, es, x) + |InFlight(s, x)|
    else
      TotalPosts(es, x) == 0 && TotalReturns(s0, es, x) == 0 && x !in s0.sems
  }

  lemma BooksStart(s0: State, x: SemId)
    requires Boot(s0)
    ensures Books(s0, [], s0, x)
  {
    assert forall z :: !Flies(s0, z, x);
    assert InFlight(s0, x) == {};
  }

  lemma BooksStep(s0: State, es: seq<Event>, s: State, e: Event, x: SemId)
    requires After(s0, es) == Reached(s) && Inv(s) && Enabled(s, e) && !GoesWrong(s, e) && Books(s0, es, s, x)
    ensures Books(s0, es + [e], Next(s, e), x)
  {
    hide Inv, Enabled, GoesWrong, Next, After, InFlight, Posts, Returns;
    assert (es + [e])[..|es + [e]| - 1] == es;
    if x in s.sems {
      EventBalanced(s, e, x);
    } else {
      EventCreates(s, e, x);
    }
  }

  lemma {:induction false} BooksBalance(s0: State, es: seq<Event>, s: State, x: SemId)
    requires Reaches(s0, es, s)
    ensures Books(s0, es, s, x)
  {
    hide Boot, Inv, Enabled, GoesWrong, Next, Books;
    if es == [] {
      BooksStart(s0, x);
    } else {
      var n := |es| - 1;
      var m := After(s0, es[..n]).s;
      BooksBalance(s0, es[..n], m, x);
      RunsKeep(s0, es[..n]);
      BooksStep(s0, es[..n], m, es[n], x);
      assert es[..n] + [es[n]] == es;
    }
  }

  /** Tokens are conserved: the initial value and all posts make up the waits that have returned true, those
      about to, and the value that is left; a negative value is the number of processes waiting. An alert
      or a kill that cancels a wait loses none. */
  lemma SemaphoreConservation(s0: State, es: seq<Event>, s: State, x: SemId)
    requires Reaches(s0, es, s) && x in s.sems
    ensures (if x in s0.sems then s0.sems[x].val else 0) + TotalPosts(es, x)
         == TotalReturns(s0, es, x) + |InFlight(s, x)| + Max0(s.sems[x].val)
    ensures |s.sems[x].queue| == Max0(-s.sems[x].val)
  {
    hide Boot, ProcsOk, LocksOk, SchedOk, WakeOk, TokensOk, After, TotalPosts, TotalReturns, InFlight;
    RunsKeep(s0, es);
    BooksBalance(s0, es, s, x);
  }

  // ----- children

  function Reaps(e: Event, child: Pid): (n: nat) {
    if e.EReap? && e.child == child then 1 else 0
  }

  function TotalReaps(es: seq<Event>, child: Pid): (n: nat) {
    if es == [] then 0 else TotalReaps(es[..|es| - 1], child) + Reaps(es[|es| - 1], child)
  }

  lemma EventReaps(s: State, e: Event)
    requires Enabled(s, e) && !GoesWrong(s, e)
    ensures Next(s, e).reaped == s.reaped + (if e.EReap? then {e.child} else {})
    ensures e.EReap? ==> e.child in s.procs
  {
    hide Without, Switch, NextRunnable, SomeoneWaits, Activate, SchedOnly, HasChild, HasZombie, PostsTo, PostsFrom,
         PostTarget;
    match e {
      case ESleep(p, c) => if !s.procs[p].killed { SleepReaps(s, p, c); }
      case EDie(p, c) => SwitchReaps(DieMid(s, p), c, ZOMBIE);
      case EYield(p, c) => SwitchReaps(s, c, RUNNABLE);
      case EIdle(c) => SwitchReaps(s, c, RUNNABLE);
      case EPostWake(p) => ActivateReaps(s, s.procs[p].pc.q, false);
      case EAlert(p) => ActivateReaps(s, s.procs[p].pc.q, true);
      case EStart(p) => ActivateReaps(StartMid(s, p), s.procs[p].pc.child, false);
      case _ =>
    }
  }

  lemma SleepReaps(s: State, p: Pid, c: nat)
    requires CanSleep(s, p, c)
    ensures Sleep(s, p, c).reaped == s.reaped
  {
    hide Switch;
    SwitchReaps(SleepMid(s, p), c, if s.procs[p].pc.alertable then SLEEPING else DEEPSLEEPING);
  }

  lemma SwitchReaps(s: State, c: nat, st: PState)
    requires c < |s.cur| == |s.idle| && (s.cur[c].Some? ==> s.cur[c].value in s.procs)
    ensures Switch(s, c, st).reaped == s.reaped
  {
    hide Switch;
    SwitchOnly(s, c, st);
  }

  lemma ActivateReaps(s: State, q: Pid, onalert: bool)
    requires q in s.procs
    ensures Activate(s, q, onalert).reaped == s.reaped && Activate(s, q, onalert).procs.Keys == s.procs.Keys
  {
  }

  lemma NotReapedYet(s: State, child: Pid)
    requires ProcsOk(s) && child in s.procs
    ensures child !in s.reaped
  {
    assert Links(s, child);
  }

  /** Every child is reaped at most once, and exactly once if it is in the set of reaped ones. */
  lemma {:induction false} ReapedOnce(s0: State, es: seq<Event>, s: State, child: Pid)
    requires Reaches(s0, es, s)
    ensures TotalReaps(es, child) == if child in s.reaped then 1 else 0
  {
    hide Inv, ProcsOk, Enabled, GoesWrong, Next;
    if es != [] {
      var n := |es| - 1;
      var m := After(s0, es[..n]).s;
      ReapedOnce(s0, es[..n], m, child);
      RunsKeep(s0, es[..n]);
      InvProcs(m);
      EventReaps(m, es[n]);
      if es[n].EReap? {
        NotReapedYet(m, es[n].child);
      }
    }
  }

  // ----- why the order of the locks matters

  /** _wait_sem as it would be if it dropped the semaphore before taking the sched lock. */
  function DropEarly(s: State, p: Pid): (r: State)
    requires p in s.procs && s.procs[p].pc.Enqueued?
  {
    s.(semLock := s.semLock - {s.procs[p].pc.x})
  }

  /** q posts in between and finds p still RUNNING. */
  lemma EarlyPost(s: State, p: Pid, q: Pid, x: SemId)
    requires At(s, p) && s.procs[p].pc.Enqueued? && s.procs[p].pc.x == x && x.Other? && x in s.sems
    requires At(s, q) && s.procs[q].pc.Run? && q != p && s.schedLock.None?
    requires s.sems[x].queue == [p] && s.sems[x].val == -1
    ensures var s1 := DropEarly(s, p);
            && CanPost(s1, q, x, Signal) && SomeoneWaits(s1, q, x)
            && var s2 := PostTake(s1, q, x, Signal);
            && CanPostWake(s2, q) && s2.procs[q].pc.q in s2.procs
            && var s3 := PostWake(s2, q);
            && CanHandOver(s3, p)
            && var s4 := HandOver(s3, p);
            && s4.procs.Keys == s.procs.Keys && s4.procs[p] == s.procs[p].(pc := s4.procs[p].pc, up := true)
            && s4.procs[p].pc == Sleeping(x, s.procs[p].pc.alertable, s.procs[p].pc.w)
            && s4.cur == s.cur && s4.idle == s.idle && s4.sems.Keys == s.sems.Keys && s4.sems[x].queue == []
            && x !in s4.semLock
  {
  }

  /** The wakeup that is lost then: p goes to sleep with its token, off the sleep list, and nobody is left
      to wake it. */
  lemma EarlyDropLosesWakeup(s: State, p: Pid, q: Pid, c: nat)
    requires Inv(s) && At(s, p) && s.procs[p].pc.Enqueued? && s.procs[p].pc.x.Other? && !s.procs[p].killed
    requires On(s, c, p) && At(s, q) && s.procs[q].pc.Run? && q != p && s.schedLock.None?
    requires s.procs[p].pc.x in s.sems && s.sems[s.procs[p].pc.x].queue == [p]
    ensures var x := s.procs[p].pc.x;
            var s1 := DropEarly(s, p);
            && CanPost(s1, q, x, Signal) && s1.sems[x].val < 0 && SomeoneWaits(s1, q, x)
            && var s2 := PostTake(s1, q, x, Signal);
            && CanPostWake(s2, q) && s2.procs[q].pc.q in s2.procs
            && var s3 := PostWake(s2, q);
            && CanHandOver(s3, p)
            && var s4 := HandOver(s3, p);
            && CanSleep(s4, p, c)
            && var s5 := Sleep(s4, p, c);
            && p in s5.procs && Asleep(s5.procs[p].state) && s5.procs[p].up
            && x !in s5.semLock && x in s5.sems && p !in s5.sems[x].queue
  {
    hide Inv, ProcsOk, SchedOk, TokensOk, Switch, PostTake, PostWake, HandOver, CanPost, CanPostWake, CanHandOver,
         SomeoneWaits;
    var x := s.procs[p].pc.x;
    Facts(s, p, x);
    EarlyPost(s, p, q, x);
    var s4 := HandOver(PostWake(PostTake(DropEarly(s, p), q, x, Signal), q), p);
    SwitchAway(SleepMid(s4, p), c, if s4.procs[p].pc.alertable then SLEEPING else DEEPSLEEPING);
    SwitchOnly(SleepMid(s4, p), c, if s4.procs[p].pc.alertable then SLEEPING else DEEPSLEEPING);
  }

  lemma SwitchAway(s: State, c: nat, st: PState)
    requires c < |s.cur| == |s.idle| && s.cur[c].Some? && s.cur[c].value in s.procs && Asleep(st)
    ensures var p := s.cur[c].value;
            p in Switch(s, c, st).procs && Switch(s, c, st).procs[p].state == st
  {
    hide Without;
    assert !Ready(Entries(Leave(s, c, st).procs), s.cur[c].value);
  }
}
