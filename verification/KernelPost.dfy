/**
 The steps of _post_sem and of kill keep the invariant.
 */
module KernelPost {
  import opened Basics
  import opened Scheduler
  import opened Kernel
  import opened KernelInvariant
  import opened KernelSteps
  import opened KernelWait

  // ----- _post_sem with nobody waiting

  lemma PostFastLocks(s: State, p: Pid, x: SemId, f: PostFor)
    requires CanPost(s, p, x, f) && s.sems[x].val >= 0 && f != ToAll
    requires HoldsProc(s.procs[p].pc) <==> s.procLock == Some(p)
    ensures LockChange(s, PostFast(s, p, x, f), p)
  {
  }

  lemma PostFastOne(s: State, p: Pid, x: SemId, f: PostFor)
    requires Inv(s) && CanPost(s, p, x, f) && s.sems[x].val >= 0 && f != ToAll
    ensures OneStep(s, PostFast(s, p, x, f), p, x)
  {
    hide Inv, SchedOk, TokensOk, ProcsOk, LockChange, QueueChange, StillThere;
    Facts(s, p, x);
    PostFastLocks(s, p, x, f);
    NoWait(s, PostFast(s, p, x, f), p, x);
  }

  /** Kids of q when p has told its parent of its exit. */
  lemma KidsTold(s: State, r: State, p: Pid, q: Pid)
    requires p in s.procs && SameControl(s, r, p, p) && r.procs[p].parent == s.procs[p].parent
    requires !Posted(s.procs[p].pc) && Posted(r.procs[p].pc) && s.procs[p].parent != p
    ensures |Kids(r, q)| == |Kids(s, q)| + if q == s.procs[p].parent then 1 else 0
  {
    if q == s.procs[p].parent {
      assert Kids(r, q) == Kids(s, q) + {p};
      assert p !in Kids(s, q);
    } else {
      assert Kids(r, q) == Kids(s, q);
    }
  }

  /** A token is sent for the exit of p, or for a zombie that p has handed to root. */
  lemma PostFastToken(s: State, p: Pid, x: SemId, f: PostFor, q: Pid)
    requires CanPost(s, p, x, f) && s.sems[x].val >= 0 && f != ToAll && Local(s.procs[p], p)
    requires HoldsProc(s.procs[p].pc) <==> s.procLock == Some(p)
    requires q in s.procs && ChildExit(q) in s.sems && q != p && TokensOf(s, q)
    ensures TokensOf(PostFast(s, p, x, f), q)
  {
    hide Kids, TokensOf;
    var r := PostFast(s, p, x, f);
    if f == ForParent {
      KidsTold(s, r, p, q);
      TokensShift(s, r, q, if q == s.procs[p].parent then 1 else 0);
    } else {
      KidsKept(s, r, p, q);
      TokensShift(s, r, q, 0);
    }
  }

  lemma PostFastOwn(s: State, p: Pid, x: SemId)
    requires CanPost(s, p, x, Signal) && s.sems[x].val >= 0
    requires HoldsProc(s.procs[p].pc) <==> s.procLock == Some(p)
    requires ChildExit(p) in s.sems && TokensOf(s, p)
    ensures TokensOf(PostFast(s, p, x, Signal), p)
  {
    hide Kids, TokensOf;
    var r := PostFast(s, p, x, Signal);
    KidsKept(s, r, p, p);
    TokensShift(s, r, p, 0);
  }

  lemma PostFastTokens(s: State, p: Pid, x: SemId, f: PostFor)
    requires Inv(s) && CanPost(s, p, x, f) && s.sems[x].val >= 0 && f != ToAll
    ensures TokensOk(PostFast(s, p, x, f))
  {
    hide TokensOf, Inv, ProcsOk, SchedOk, Local, Links, SemOk;
    var r := PostFast(s, p, x, f);
    Facts(s, p, x);
    forall q | q in r.procs && ChildExit(q) in r.sems && !Exits(r.procs[q].pc) ensures TokensOf(r, q) {
      if q != p {
        PostFastToken(s, p, x, f, q);
      } else {
        PostFastOwn(s, p, x);
      }
    }
  }

  lemma PostFastKeeps(s: State, p: Pid, x: SemId, f: PostFor)
    requires Inv(s) && CanPost(s, p, x, f) && s.sems[x].val >= 0 && f != ToAll
    ensures Inv(PostFast(s, p, x, f))
  {
    hide OneStep, Inv, ProcsOk, LocksOk, SemsOk, WakeOk, TokensOk, SchedOk;
    Facts(s, p, x);
    PostFastOne(s, p, x, f);
    PostFastTokens(s, p, x, f);
    SchedKept(s, PostFast(s, p, x, f));
    OneStepKeeps(s, PostFast(s, p, x, f), p, x);
  }

  // ----- _post_sem with a process waiting

  /** The ASSERT of _post_sem: a negative value means that somebody else is on the sleep list. */
  lemma PostFindsWaiter(s: State, p: Pid, x: SemId, f: PostFor)
    requires Inv(s) && CanPost(s, p, x, f) && s.sems[x].val < 0
    ensures SomeoneWaits(s, p, x)
  {
    hide SchedOk, TokensOk, ProcsOk, LocksOk, WakeOk;
    var q := s.sems[x].queue[|s.sems[x].queue| - 1];
    assert q in s.sems[x].queue;
  }

  function Last(queue: seq<Pid>): (q: Pid)
    requires queue != []
  {
    queue[|queue| - 1]
  }

  lemma PostTakeQueue(s: State, p: Pid, x: SemId, f: PostFor)
    requires CanPost(s, p, x, f) && s.sems[x].val < 0 && SomeoneWaits(s, p, x) && SemOk(s.sems[x])
    requires QueuedOn(s.procs[Last(s.sems[x].queue)], x) && p !in s.sems[x].queue
    ensures var r, q := PostTake(s, p, x, f), Last(s.sems[x].queue);
            QueueChange(s, r, p, q, x) && SemOk(r.sems[x])
  {
    var queue := s.sems[x].queue;
    assert queue == queue[..|queue| - 1] + [Last(queue)];
  }

  lemma QueueFacts(s: State, p: Pid, x: SemId, q: Pid)
    requires SemsOk(s) && p in s.procs && x in s.sems && q in s.sems[x].queue && !HasSem(s.procs[p].pc)
    ensures SemOk(s.sems[x]) && q in s.procs && QueuedOn(s.procs[q], x) && p !in s.sems[x].queue
  {
  }

  /** Who is granted the token, and what is known of the sleep list. */
  lemma PostTakeFacts(s: State, p: Pid, x: SemId, f: PostFor)
    requires SemsOk(s) && CanPost(s, p, x, f) && s.sems[x].val < 0 && SomeoneWaits(s, p, x)
    ensures SemOk(s.sems[x]) && QueuedOn(s.procs[Last(s.sems[x].queue)], x) && p !in s.sems[x].queue
  {
    hide SemsOk, SemOk, QueuedOn;
    assert Last(s.sems[x].queue) in s.sems[x].queue;
    QueueFacts(s, p, x, Last(s.sems[x].queue));
  }

  lemma PostTakeControl(s: State, p: Pid, x: SemId, f: PostFor)
    requires CanPost(s, p, x, f) && s.sems[x].val < 0 && SomeoneWaits(s, p, x)
    requires HoldsProc(s.procs[p].pc) <==> s.procLock == Some(p)
    ensures var r, q := PostTake(s, p, x, f), Last(s.sems[x].queue);
            SameControl(s, r, p, q) && LockChange(s, r, p) && r.procs[q].pc == s.procs[q].pc
  {
  }

  /** The process that posts. */
  lemma PostTakePoster(s: State, p: Pid, x: SemId, f: PostFor)
    requires CanPost(s, p, x, f) && s.sems[x].val < 0 && SomeoneWaits(s, p, x)
    requires Local(s.procs[p], p) && Links(s, p) && QueuedOn(s.procs[Last(s.sems[x].queue)], x)
    ensures var r := PostTake(s, p, x, f); Local(r.procs[p], p) && Links(r, p) && StillThere(s, r, p)
  {
  }

  /** The process that is granted the token. */
  lemma PostTakeTaker(s: State, p: Pid, x: SemId, f: PostFor)
    requires CanPost(s, p, x, f) && s.sems[x].val < 0 && SomeoneWaits(s, p, x)
    requires var q := Last(s.sems[x].queue);
             && Local(s.procs[q], q) && Links(s, q) && QueuedOn(s.procs[q], x) && !s.procs[q].pc.Enqueued?
             && !Gone(PostTake(s, p, x, f).procs[s.procs[q].parent].pc)
    ensures var r, q := PostTake(s, p, x, f), Last(s.sems[x].queue);
            Local(r.procs[q], q) && Links(r, q) && StillThere(s, r, q)
  {
  }

  lemma PostTakeLocal(s: State, p: Pid, x: SemId, f: PostFor)
    requires Inv(s) && CanPost(s, p, x, f) && s.sems[x].val < 0 && SomeoneWaits(s, p, x)
    ensures var r, q := PostTake(s, p, x, f), Last(s.sems[x].queue);
            && Local(r.procs[p], p) && Local(r.procs[q], q) && Links(r, p) && Links(r, q)
            && StillThere(s, r, p) && StillThere(s, r, q)
  {
    hide Inv, SchedOk, TokensOk, ProcsOk, SemOk, SemsOk, Local, StillThere;
    var q := Last(s.sems[x].queue);
    InvLocks(s);
    PostTakeFacts(s, p, x, f);
    Facts(s, p, x);
    Facts(s, q, x);
    NotEnqueued(s, x, q);
    PostTakePoster(s, p, x, f);
    PostTakeTaker(s, p, x, f);
  }

  /** A process that is still inserting itself holds the semaphore. */
  lemma NotEnqueued(s: State, x: SemId, q: Pid)
    requires Inv(s) && (x in s.semLock ==> s.semLock[x] != q) && q in s.procs && WaitsOn(s.procs[q].pc, x)
    ensures !s.procs[q].pc.Enqueued?
  {
    hide SchedOk, TokensOk, ProcsOk, SemsOk, WakeOk;
    assert HeldSem(s.procs[q].pc).Some? ==>
      HeldSem(s.procs[q].pc).value in s.semLock && s.semLock[HeldSem(s.procs[q].pc).value] == q;
  }

  lemma PostTakeProcs(s: State, p: Pid, x: SemId, f: PostFor)
    requires Inv(s) && CanPost(s, p, x, f) && s.sems[x].val < 0 && SomeoneWaits(s, p, x)
    ensures ProcsOk(PostTake(s, p, x, f)) && LocksOk(PostTake(s, p, x, f))
  {
    hide Inv, Local, Links, SchedOk, TokensOk, SemLocksOk, LockChange, StillThere, SemOk;
    var q := Last(s.sems[x].queue);
    var r := PostTake(s, p, x, f);
    Facts(s, p, x);
    InvLocks(s);
    PostTakeControl(s, p, x, f);
    PostTakeLocal(s, p, x, f);
    LocksKept(s, r, p, q);
    ProcsKept(s, r, p, q);
  }

  lemma InvLocks(s: State)
    requires Inv(s)
    ensures ProcsOk(s) && LocksOk(s) && SemLocksOk(s) && SchedOk(s) && SemsOk(s) && WakeOk(s) && TokensOk(s)
  {
  }

  lemma PostTakeSems(s: State, p: Pid, x: SemId, f: PostFor)
    requires Inv(s) && CanPost(s, p, x, f) && s.sems[x].val < 0 && SomeoneWaits(s, p, x)
    ensures SemsOk(PostTake(s, p, x, f)) && SchedOk(PostTake(s, p, x, f))
  {
    hide Inv, ProcsOk, SchedOk, TokensOk, LockChange, QueueChange, SemOk, SemsOk, SemLocksOk, Local, Links;
    InvLocks(s);
    Facts(s, p, x);
    PostTakeFacts(s, p, x, f);
    PostTakeQueue(s, p, x, f);
    PostTakeControl(s, p, x, f);
    SemsKept(s, PostTake(s, p, x, f), p, Last(s.sems[x].queue), x);
    SchedKept(s, PostTake(s, p, x, f));
  }

  /** The process that has just been granted its token is about to be activated. */
  lemma PostTakeWake(s: State, p: Pid, x: SemId, f: PostFor)
    requires Inv(s) && CanPost(s, p, x, f) && s.sems[x].val < 0 && SomeoneWaits(s, p, x)
    ensures WakeOk(PostTake(s, p, x, f))
  {
    hide Inv, ProcsOk, SchedOk, TokensOk, SemsOk, WakeOk, LocksOk, SemLocksOk, Local, Links, SemOk;
    var r := PostTake(s, p, x, f);
    var q := Last(s.sems[x].queue);
    InvLocks(s);
    PostTakeFacts(s, p, x, f);
    Facts(s, p, x);
    NotEnqueued(s, x, q);
    forall z | z in r.procs && r.procs[z].up && (Asleep(r.procs[z].state) || r.procs[z].pc.Sleeping?)
      ensures (r.procs[z].pc.Sleeping? || r.procs[z].pc.Woken?) && Pending(r, z)
    {
      if z != q {
        PendingAt(s, z);
        Facts(s, p, x);
      }
    }
    WakeOkIntro(r);
  }

  lemma PendingAt(s: State, q: Pid)
    requires WakeOk(s) && q in s.procs && s.procs[q].up && (Asleep(s.procs[q].state) || s.procs[q].pc.Sleeping?)
    ensures (s.procs[q].pc.Sleeping? || s.procs[q].pc.Woken?) && Pending(s, q)
  {
  }

  lemma WakeOkIntro(s: State)
    requires forall q :: q in s.procs && s.procs[q].up && (Asleep(s.procs[q].state) || s.procs[q].pc.Sleeping?) ==>
               (s.procs[q].pc.Sleeping? || s.procs[q].pc.Woken?) && Pending(s, q)
    ensures WakeOk(s)
  {
  }

  lemma KidsKeptTwo(s: State, r: State, p: Pid, q: Pid, z: Pid)
    requires p in s.procs && q in s.procs && SameControl(s, r, p, q)
    requires r.procs[p].parent == s.procs[p].parent && r.procs[q].parent == s.procs[q].parent
    requires r.procs[q].pc == s.procs[q].pc && Posted(r.procs[p].pc) == Posted(s.procs[p].pc)
    ensures Kids(r, z) == Kids(s, z)
  {
  }

  lemma KidsToldTwo(s: State, r: State, p: Pid, q: Pid, z: Pid)
    requires p in s.procs && q in s.procs && SameControl(s, r, p, q)
    requires r.procs[p].parent == s.procs[p].parent && r.procs[q].parent == s.procs[q].parent
    requires r.procs[q].pc == s.procs[q].pc
    requires !Posted(s.procs[p].pc) && Posted(r.procs[p].pc) && s.procs[p].parent != p
    ensures |Kids(r, z)| == |Kids(s, z)| + if z == s.procs[p].parent then 1 else 0
  {
    if z == s.procs[p].parent {
      assert Kids(r, z) == Kids(s, z) + {p};
      assert p !in Kids(s, z);
    } else {
      assert Kids(r, z) == Kids(s, z);
    }
  }

  /** The token goes to the waiting process itself, which is the one it is for. */
  lemma PostTakeToken(s: State, p: Pid, x: SemId, f: PostFor, z: Pid)
    requires CanPost(s, p, x, f) && s.sems[x].val < 0 && SomeoneWaits(s, p, x) && Local(s.procs[p], p)
    requires QueuedOn(s.procs[Last(s.sems[x].queue)], x) && Local(s.procs[Last(s.sems[x].queue)], Last(s.sems[x].queue))
    requires HoldsProc(s.procs[p].pc) <==> s.procLock == Some(p)
    requires z in s.procs && ChildExit(z) in s.sems && TokensOf(s, z) && (z == p ==> !InExit(f))
    ensures TokensOf(PostTake(s, p, x, f), z)
  {
    hide Kids, TokensOf;
    var r := PostTake(s, p, x, f);
    var q := Last(s.sems[x].queue);
    if f == ForParent {
      KidsToldTwo(s, r, p, q, z);
      TokensShift(s, r, z, if z == s.procs[p].parent then 1 else 0);
    } else {
      KidsKeptTwo(s, r, p, q, z);
      TokensShift(s, r, z, 0);
    }
  }

  lemma PostTakeTokens(s: State, p: Pid, x: SemId, f: PostFor)
    requires Inv(s) && CanPost(s, p, x, f) && s.sems[x].val < 0 && SomeoneWaits(s, p, x)
    ensures TokensOk(PostTake(s, p, x, f))
  {
    hide TokensOf, Inv, ProcsOk, SchedOk, Local, Links, SemOk, QueuedOn;
    var r := PostTake(s, p, x, f);
    var q := Last(s.sems[x].queue);
    Facts(s, p, x);
    Facts(s, q, x);
    assert q in s.sems[x].queue;
    forall z | z in r.procs && ChildExit(z) in r.sems && !Exits(r.procs[z].pc) ensures TokensOf(r, z) {
      PostTakeToken(s, p, x, f, z);
    }
  }

  lemma PostTakeKeeps(s: State, p: Pid, x: SemId, f: PostFor)
    requires Inv(s) && CanPost(s, p, x, f) && s.sems[x].val < 0 && SomeoneWaits(s, p, x)
    ensures Inv(PostTake(s, p, x, f))
  {
    hide ProcsOk, LocksOk, SemsOk, WakeOk, TokensOk, SchedOk, PostTake;
    PostTakeProcs(s, p, x, f);
    PostTakeSems(s, p, x, f);
    PostTakeWake(s, p, x, f);
    PostTakeTokens(s, p, x, f);
  }

  // ----- activate_proc in _post_sem

  lemma PostWakeLocks(s: State, p: Pid)
    requires CanPostWake(s, p) && s.procs[p].pc.q in s.procs && s.procs[p].pc.q != p
    requires s.procs[p].pc.x in s.semLock && s.semLock[s.procs[p].pc.x] == p
    requires HoldsProc(s.procs[p].pc) <==> s.procLock == Some(p)
    ensures LockChange(s, PostWake(s, p), p) && SameControl(s, PostWake(s, p), p, p)
  {
    var x := s.procs[p].pc.x;
    assert s.semLock == (s.semLock - {x})[x := p];
  }

  lemma PostWakeStates(s: State, p: Pid)
    requires CanPostWake(s, p) && s.procs[p].pc.q in s.procs && s.procs[p].pc.x in s.sems && Local(s.procs[p], p)
    requires Links(s, p) && Local(s.procs[s.procs[p].pc.q], s.procs[p].pc.q)
    ensures OneState(s, PostWake(s, p), p)
  {
  }

  lemma PostWakeLinks(s: State, p: Pid)
    requires CanPostWake(s, p) && s.procs[p].pc.q in s.procs && Links(s, p)
    ensures Links(PostWake(s, p), p) && s.procs[p].pc.q != p
  {
  }

  lemma PostWakeOne(s: State, p: Pid)
    requires Inv(s) && CanPostWake(s, p) && s.procs[p].pc.q in s.procs && s.procs[p].pc.x in s.sems
    ensures OneStep(s, PostWake(s, p), p, s.procs[p].pc.x)
  {
    hide Inv, SchedOk, TokensOk, ProcsOk, LockChange, OneState, Local, QueueChange, StillThere;
    Facts(s, p, s.procs[p].pc.x);
    PostWakeLinks(s, p);
    Facts(s, s.procs[p].pc.q, s.procs[p].pc.x);
    hide Links;
    PostWakeLocks(s, p);
    PostWakeStates(s, p);
    NoWait(s, PostWake(s, p), p, s.procs[p].pc.x);
  }

  /** A process that is up and sleeps is still about to be activated, and it is not the one just woken. */
  lemma PostWakePending(s: State, p: Pid, z: Pid)
    requires CanPostWake(s, p) && s.procs[p].pc.q in s.procs && s.procs[p].pc.q != p && z in s.procs
    requires Local(s.procs[z], z) && !s.procs[z].pc.Sleeping?
    requires s.procs[p].pc.x in s.semLock && s.semLock[s.procs[p].pc.x] == p
    requires s.procs[z].up && Asleep(s.procs[z].state) ==> s.procs[z].pc.Woken? && Pending(s, z)
    requires PostWake(s, p).procs[z].up && Asleep(PostWake(s, p).procs[z].state)
    ensures PostWake(s, p).procs[z].pc.Woken? && Pending(PostWake(s, p), z)
  {
  }

  lemma PostWakeWakes(s: State, p: Pid)
    requires Inv(s) && CanPostWake(s, p) && s.procs[p].pc.q in s.procs && s.procs[p].pc.x in s.sems
    ensures WakeOk(PostWake(s, p))
  {
    hide Inv, ProcsOk, SchedOk, TokensOk, SemsOk, WakeOk, LocksOk, SemLocksOk, SemOk, Links;
    var r := PostWake(s, p);
    var x := s.procs[p].pc.x;
    InvLocks(s);
    Facts(s, p, x);
    PostWakeLinks(s, p);
    forall z | z in r.procs && r.procs[z].up && (Asleep(r.procs[z].state) || r.procs[z].pc.Sleeping?)
      ensures (r.procs[z].pc.Sleeping? || r.procs[z].pc.Woken?) && Pending(r, z)
    {
      Facts(s, z, x);
      if s.procs[z].up && Asleep(s.procs[z].state) { PendingAt(s, z); }
      PostWakePending(s, p, z);
    }
    hide PostWake;
    WakeOkIntro(r);
  }

  lemma PostWakeSched(s: State, p: Pid)
    requires SchedOk(s) && CanPostWake(s, p) && s.procs[p].pc.q in s.procs
    ensures SchedOk(PostWake(s, p))
  {
    hide SchedOk;
    ActivateSched(s, s.procs[p].pc.q, false);
    SchedKept(Activate(s, s.procs[p].pc.q, false), PostWake(s, p));
  }

  lemma PostWakeTokens(s: State, p: Pid)
    requires Inv(s) && CanPostWake(s, p) && s.procs[p].pc.q in s.procs && s.procs[p].pc.x in s.sems
    ensures TokensOk(PostWake(s, p))
  {
    hide Inv, ProcsOk, SchedOk, TokensOk, LockChange, SemOk;
    Facts(s, p, s.procs[p].pc.x);
    PostWakeLocks(s, p);
    TokensKept(s, PostWake(s, p), p);
  }

  /** What p refers to while it wakes or alerts another process. */
  lemma Targets(s: State, p: Pid)
    requires Inv(s) && p in s.procs
    ensures s.procs[p].pc.Waking? ==> s.procs[p].pc.q in s.procs && s.procs[p].pc.x in s.sems
    ensures s.procs[p].pc.Alerting? ==> s.procs[p].pc.q in s.procs
    ensures ChildExit(p) in s.sems
  {
    assert Links(s, p);
  }

  lemma PostWakeKeeps(s: State, p: Pid)
    requires Inv(s) && CanPostWake(s, p)
    ensures s.procs[p].pc.q in s.procs && Inv(PostWake(s, p))
  {
    hide OneStep, ProcsOk, LocksOk, SemsOk, WakeOk, TokensOk, SchedOk, PostWake;
    Targets(s, p);
    PostWakeOne(s, p);
    OneStepCore(s, PostWake(s, p), p, s.procs[p].pc.x);
    PostWakeSched(s, p);
    PostWakeTokens(s, p);
    PostWakeWakes(s, p);
  }

  // ----- _get_sem, get_all_sem, post_all_sem

  /** Changing the value of a semaphore whose sleep list stays as it is. */
  lemma ValueOne(s: State, p: Pid, x: SemId, sem: Sem)
    requires Inv(s) && CanGet(s, p, x) && SemOk(sem) && sem.queue == s.sems[x].queue
    ensures OneStep(s, SetSem(s, x, sem), p, x)
  {
    hide Inv, SchedOk, TokensOk, ProcsOk, LockChange, QueueChange, StillThere, SemOk;
    var r := SetSem(s, x, sem);
    Facts(s, p, x);
    NoLocks(s, r, p);
    NoWait(s, r, p, x);
  }

  lemma ValueKeeps(s: State, p: Pid, x: SemId, sem: Sem)
    requires Inv(s) && CanGet(s, p, x) && SemOk(sem) && sem.queue == s.sems[x].queue
    ensures Inv(SetSem(s, x, sem))
  {
    hide OneStep, Inv, ProcsOk, TokensOk, SchedOk, SemOk;
    var r := SetSem(s, x, sem);
    InvProcs(s);
    ValueOne(s, p, x, sem);
    SchedKept(s, r);
    TokensKept(s, r, p);
    OneStepKeeps(s, r, p, x);
  }

  lemma GetKeeps(s: State, p: Pid, x: SemId)
    requires Inv(s) && CanGet(s, p, x)
    ensures Inv(Get(s, p, x))
  {
    hide Inv, SchedOk, TokensOk, ProcsOk;
    var sem := s.sems[x];
    Facts(s, p, x);
    if sem.val > 0 {
      ValueKeeps(s, p, x, sem.(val := sem.val - 1, grants := sem.grants + 1));
    }
  }

  lemma GetAllKeeps(s: State, p: Pid, x: SemId)
    requires Inv(s) && CanGet(s, p, x)
    ensures Inv(GetAll(s, p, x))
  {
    hide Inv, SchedOk, TokensOk, ProcsOk;
    var sem := s.sems[x];
    Facts(s, p, x);
    if sem.val > 0 {
      ValueKeeps(s, p, x, sem.(val := 0, grants := sem.grants + sem.val));
    }
  }

  lemma PostAllBeginOne(s: State, p: Pid, x: SemId)
    requires Inv(s) && CanGet(s, p, x)
    ensures OneStep(s, PostAllBegin(s, p, x), p, x)
  {
    hide Inv, SchedOk, TokensOk, ProcsOk, QueueChange, StillThere;
    Facts(s, p, x);
    NoWait(s, PostAllBegin(s, p, x), p, x);
  }

  lemma PostAllBeginKeeps(s: State, p: Pid, x: SemId)
    requires Inv(s) && CanGet(s, p, x)
    ensures Inv(PostAllBegin(s, p, x))
  {
    hide OneStep, Inv, ProcsOk, TokensOk, SchedOk;
    var r := PostAllBegin(s, p, x);
    InvProcs(s);
    PostAllBeginOne(s, p, x);
    SchedKept(s, r);
    TokensKept(s, r, p);
    OneStepKeeps(s, r, p, x);
  }

  lemma PostAllEndOne(s: State, p: Pid, x: SemId)
    requires Inv(s) && CanPost(s, p, x, ToAll) && s.sems[x].val >= 0
    ensures OneStep(s, PostAllEnd(s, p, x), p, x)
  {
    hide Inv, SchedOk, TokensOk, ProcsOk, QueueChange, StillThere;
    Facts(s, p, x);
    NoWait(s, PostAllEnd(s, p, x), p, x);
  }

  lemma PostAllEndKeeps(s: State, p: Pid, x: SemId)
    requires Inv(s) && CanPost(s, p, x, ToAll) && s.sems[x].val >= 0
    ensures Inv(PostAllEnd(s, p, x))
  {
    hide OneStep, Inv, ProcsOk, TokensOk, SchedOk;
    var r := PostAllEnd(s, p, x);
    InvProcs(s);
    PostAllEndOne(s, p, x);
    SchedKept(s, r);
    TokensKept(s, r, p);
    OneStepKeeps(s, r, p, x);
  }

  // ----- kill

  lemma KillFlagOne(s: State, p: Pid, q: Pid)
    requires Inv(s) && CanKill(s, p, q) && ChildExit(p) in s.sems
    ensures OneStep(s, KillFlag(s, p, q), p, ChildExit(p))
  {
    hide Inv, SchedOk, TokensOk, ProcsOk, QueueChange, StillThere;
    Facts(s, p, ChildExit(p));
    Facts(s, q, ChildExit(p));
    NoWait(s, KillFlag(s, p, q), p, ChildExit(p));
  }

  lemma KillFlagKeeps(s: State, p: Pid, q: Pid)
    requires Inv(s) && CanKill(s, p, q)
    ensures Inv(KillFlag(s, p, q))
  {
    hide OneStep, Inv, ProcsOk, TokensOk, SchedOk;
    Targets(s, p);
    InvProcs(s);
    KillFlagOne(s, p, q);
    SchedKept(s, KillFlag(s, p, q));
    TokensKept(s, KillFlag(s, p, q), p);
    OneStepKeeps(s, KillFlag(s, p, q), p, ChildExit(p));
  }

  lemma KillAlertLocks(s: State, p: Pid)
    requires CanAlert(s, p) && s.procs[p].pc.q in s.procs
    ensures LockChange(s, KillAlert(s, p), p) && SameControl(s, KillAlert(s, p), p, p)
  {
  }

  lemma KillAlertOne(s: State, p: Pid)
    requires Inv(s) && CanAlert(s, p) && s.procs[p].pc.q in s.procs && ChildExit(p) in s.sems
    ensures OneStep(s, KillAlert(s, p), p, ChildExit(p))
  {
    hide Inv, SchedOk, TokensOk, ProcsOk, LockChange, QueueChange, StillThere;
    Facts(s, p, ChildExit(p));
    Facts(s, s.procs[p].pc.q, ChildExit(p));
    KillAlertLocks(s, p);
    NoWait(s, KillAlert(s, p), p, ChildExit(p));
  }

  lemma KillAlertSched(s: State, p: Pid)
    requires SchedOk(s) && CanAlert(s, p) && s.procs[p].pc.q in s.procs
    ensures SchedOk(KillAlert(s, p))
  {
    hide SchedOk;
    ActivateSched(s, s.procs[p].pc.q, true);
    SchedKept(Activate(s, s.procs[p].pc.q, true), KillAlert(s, p));
  }

  lemma KillAlertTokens(s: State, p: Pid)
    requires Inv(s) && CanAlert(s, p) && s.procs[p].pc.q in s.procs && ChildExit(p) in s.sems
    ensures TokensOk(KillAlert(s, p))
  {
    hide Inv, ProcsOk, SchedOk, TokensOk, LockChange, SemOk;
    Facts(s, p, ChildExit(p));
    KillAlertLocks(s, p);
    TokensKept(s, KillAlert(s, p), p);
  }

  lemma KillAlertKeeps(s: State, p: Pid)
    requires Inv(s) && CanAlert(s, p)
    ensures s.procs[p].pc.q in s.procs && Inv(KillAlert(s, p))
  {
    hide OneStep, Inv, TokensOk, SchedOk, KillAlert;
    Targets(s, p);
    InvProcs(s);
    KillAlertOne(s, p);
    KillAlertSched(s, p);
    KillAlertTokens(s, p);
    OneStepKeeps(s, KillAlert(s, p), p, ChildExit(p));
  }
}
