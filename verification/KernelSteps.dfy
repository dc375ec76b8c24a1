/**
 Frame lemmas for the kernel invariant: each part of it depends on little of the state, so a step
 keeps a part when it changes only one or two processes in a way that part allows.
 */
module KernelSteps {
  import opened Basics
  import opened Scheduler
  import opened Kernel
  import opened KernelInvariant

  // ----- control: program counter, up flag and parent

  /** Apart from p and q no process has changed its program counter, its up flag or its parent. */
  ghost predicate SameControl(s: State, r: State, p: Pid, q: Pid) {
    && r.procs.Keys == s.procs.Keys
    && forall z :: z in s.procs && z != p && z != q ==>
         r.procs[z].pc == s.procs[z].pc && r.procs[z].up == s.procs[z].up && r.procs[z].parent == s.procs[z].parent
  }

  /** A lock variable after p has taken, kept or dropped the lock. */
  function Lock(l: Option<Pid>, p: Pid, before: bool, after: bool): (r: Option<Pid>)
  {
    if after then Some(p) else if before then None else l
  }

  function SemLocks(m: map<SemId, Pid>, p: Pid, before: Option<SemId>, after: Option<SemId>): (r: map<SemId, Pid>)
  {
    var n := if before.Some? then m - {before.value} else m;
    if after.Some? then n[after.value := p] else n
  }

  /** The locks change as the program counter of p says, and p takes only free locks. */
  ghost predicate LockChange(s: State, r: State, p: Pid)
    requires p in s.procs && p in r.procs
  {
    var b, a := s.procs[p].pc, r.procs[p].pc;
    && r.schedLock == Lock(s.schedLock, p, HoldsSched(b), HoldsSched(a))
    && (HoldsSched(a) ==> HoldsSched(b) || s.schedLock.None?)
    && r.procLock == Lock(s.procLock, p, HoldsProc(b), HoldsProc(a))
    && (HoldsProc(a) ==> HoldsProc(b) || s.procLock.None?)
    && r.semLock == SemLocks(s.semLock, p, HeldSem(b), HeldSem(a))
    && (HeldSem(a).Some? ==> HeldSem(a) == HeldSem(b) || HeldSem(a).value !in s.semLock)
  }

  lemma SchedLockKept(s: State, r: State, p: Pid, q: Pid)
    requires SchedLockOk(s) && p in s.procs && q in s.procs && SameControl(s, r, p, q) && LockChange(s, r, p)
    requires q != p ==> r.procs[q].pc == s.procs[q].pc
    ensures SchedLockOk(r)
  {
  }

  lemma ProcLockKept(s: State, r: State, p: Pid, q: Pid)
    requires ProcLockOk(s) && p in s.procs && q in s.procs && SameControl(s, r, p, q) && LockChange(s, r, p)
    requires q != p ==> r.procs[q].pc == s.procs[q].pc
    ensures ProcLockOk(r)
  {
  }

  /** What p holds, and who holds it. */
  lemma SemLocksAt(m: map<SemId, Pid>, p: Pid, before: Option<SemId>, after: Option<SemId>, x: SemId)
    ensures x in SemLocks(m, p, before, after) <==> Some(x) == after || (x in m && Some(x) != before)
    ensures x in SemLocks(m, p, before, after) ==>
              SemLocks(m, p, before, after)[x] == if Some(x) == after then p else m[x]
  {
  }

  lemma SemLockKept(s: State, r: State, p: Pid, q: Pid, x: SemId)
    requires SemLocksOk(s) && p in s.procs && q in s.procs && SameControl(s, r, p, q) && LockChange(s, r, p)
    requires (q != p ==> r.procs[q].pc == s.procs[q].pc) && x in r.semLock
    ensures r.semLock[x] in r.procs && HeldSem(r.procs[r.semLock[x]].pc) == Some(x)
  {
    hide HeldSem, SemLocks;
    SemLocksAt(s.semLock, p, HeldSem(s.procs[p].pc), HeldSem(r.procs[p].pc), x);
  }

  lemma SemHolderKept(s: State, r: State, p: Pid, q: Pid, z: Pid)
    requires SemLocksOk(s) && p in s.procs && q in s.procs && SameControl(s, r, p, q) && LockChange(s, r, p)
    requires (q != p ==> r.procs[q].pc == s.procs[q].pc) && z in r.procs && HeldSem(r.procs[z].pc).Some?
    ensures HeldSem(r.procs[z].pc).value in r.semLock && r.semLock[HeldSem(r.procs[z].pc).value] == z
  {
    hide HeldSem, SemLocks;
    SemLocksAt(s.semLock, p, HeldSem(s.procs[p].pc), HeldSem(r.procs[p].pc), HeldSem(r.procs[z].pc).value);
  }

  lemma SemLocksKept(s: State, r: State, p: Pid, q: Pid)
    requires SemLocksOk(s) && p in s.procs && q in s.procs && SameControl(s, r, p, q) && LockChange(s, r, p)
    requires q != p ==> r.procs[q].pc == s.procs[q].pc
    ensures SemLocksOk(r)
  {
    hide HeldSem, LockChange, SameControl;
    forall x | x in r.semLock ensures r.semLock[x] in r.procs && HeldSem(r.procs[r.semLock[x]].pc) == Some(x) {
      SemLockKept(s, r, p, q, x);
    }
    forall z | z in r.procs && HeldSem(r.procs[z].pc).Some?
      ensures HeldSem(r.procs[z].pc).value in r.semLock && r.semLock[HeldSem(r.procs[z].pc).value] == z
    {
      SemHolderKept(s, r, p, q, z);
    }
  }

  lemma LocksKept(s: State, r: State, p: Pid, q: Pid)
    requires LocksOk(s) && p in s.procs && q in s.procs && SameControl(s, r, p, q) && LockChange(s, r, p)
    requires q != p ==> r.procs[q].pc == s.procs[q].pc
    ensures LocksOk(r)
  {
    hide SchedLockOk, ProcLockOk, SemLocksOk, LockChange, SameControl;
    SchedLockKept(s, r, p, q);
    ProcLockKept(s, r, p, q);
    SemLocksKept(s, r, p, q);
  }

  // ----- scheduler

  lemma SchedKept(s: State, r: State)
    requires SchedOk(s) && r.rq == s.rq && r.cur == s.cur && r.idle == s.idle && r.procs.Keys == s.procs.Keys
    requires forall z :: z in s.procs ==> r.procs[z].state == s.procs[z].state
    ensures SchedOk(r)
  {
  }

  lemma ActivateSched(s: State, q: Pid, onalert: bool)
    requires SchedOk(s) && q in s.procs
    ensures SchedOk(Activate(s, q, onalert))
  {
  }

  lemma {:induction false} WithoutMembers(q: seq<Pid>, p: Pid)
    ensures forall z :: z in Without(q, p) ==> z in q && z != p
    ensures forall z :: z in q && z != p ==> z in Without(q, p)
    ensures NoDup(q) ==> NoDup(Without(q, p))
    ensures p !in q ==> Without(q, p) == q
    ensures p in q && NoDup(q) ==> |Without(q, p)| == |q| - 1
  {
    if q != [] {
      WithoutMembers(q[1..], p);
      assert q == [q[0]] + q[1..];
      if NoDup(q) {
        assert NoDup(q[1..]);
        assert q[0] !in q[1..];
      }
    }
  }

  /** The state that a process may call sched with. */
  predicate SchedState(st: PState) {
    st == RUNNABLE || st == SLEEPING || st == DEEPSLEEPING || st == ZOMBIE
  }

  /** After update_this_state CPU c has no running process yet. */
  ghost predicate MidSched(s: State, c: nat) {
    && c < |s.cur| == |s.idle|
    && NoDup(s.rq)
    && (forall p :: p in s.rq ==> p in s.procs && (s.procs[p].state == RUNNABLE || s.procs[p].state == RUNNING))
    && (forall p :: p in s.procs && (s.procs[p].state == RUNNABLE || s.procs[p].state == RUNNING) ==> p in s.rq)
    && (forall a, b :: 0 <= a < b < |s.cur| && a != c && b != c && s.cur[a].Some? ==> s.cur[a] != s.cur[b])
    && (forall a :: 0 <= a < |s.cur| && a != c && s.cur[a].Some? ==>
          s.cur[a].value in s.procs && s.procs[s.cur[a].value].state == RUNNING)
    && (forall p :: p in s.procs && s.procs[p].state == RUNNING ==>
          exists a :: 0 <= a < |s.cur| && a != c && s.cur[a] == Some(p))
    && (forall a :: 0 <= a < |s.cur| && a != c ==> s.idle[a] == if s.cur[a].None? then RUNNING else RUNNABLE)
    && s.idle[c] == RUNNABLE
  }

  lemma LeaveSched(s: State, c: nat, st: PState)
    requires SchedOk(s) && c < |s.cur| && SchedState(st) && (s.cur[c].None? ==> st == RUNNABLE)
    ensures MidSched(Leave(s, c, st), c)
  {
    var r := Leave(s, c, st);
    if s.cur[c].Some? {
      var p := s.cur[c].value;
      WithoutMembers(s.rq, p);
      forall z | z in r.procs && r.procs[z].state == RUNNING
        ensures exists a :: 0 <= a < |r.cur| && a != c && r.cur[a] == Some(z)
      {
        assert Some(z) in s.cur;
        var a :| 0 <= a < |s.cur| && s.cur[a] == Some(z);
      }
    } else {
      forall z | z in r.procs && r.procs[z].state == RUNNING
        ensures exists a :: 0 <= a < |r.cur| && a != c && r.cur[a] == Some(z)
      {
        assert Some(z) in s.cur;
        var a :| 0 <= a < |s.cur| && s.cur[a] == Some(z);
      }
    }
  }

  lemma EnterSched(s: State, c: nat)
    requires MidSched(s, c)
    ensures SchedOk(Enter(s, c))
  {
    var r := Enter(s, c);
    forall z | z in r.procs && r.procs[z].state == RUNNING ensures Some(z) in r.cur {
      if s.procs[z].state == RUNNING {
        var a :| 0 <= a < |s.cur| && a != c && s.cur[a] == Some(z);
        assert r.cur[a] == Some(z);
      } else {
        assert r.cur[c] == Some(z);
      }
    }
  }

  /** sched keeps the scheduler invariant; its ASSERT on the state of the process picked holds. */
  lemma SwitchSched(s: State, c: nat, st: PState)
    requires SchedOk(s) && c < |s.cur| && SchedState(st) && (s.cur[c].None? ==> st == RUNNABLE)
    ensures SchedOk(Switch(s, c, st))
    ensures match Pick(Leave(s, c, st).rq, Entries(Leave(s, c, st).procs))
            case None => Leave(s, c, st).idle[c] == RUNNABLE
            case Some(q) => Leave(s, c, st).procs[q].state == RUNNABLE
  {
    LeaveSched(s, c, st);
    EnterSched(Leave(s, c, st), c);
  }

  // ----- processes

  /** A change of state that no other part of the process has to follow. */
  predicate StateStep(a: PState, b: PState) {
    a == b || (a == RUNNABLE && b == RUNNING) || (Asleep(a) && b == RUNNABLE)
  }

  ghost predicate StateSteps(s: State, r: State, p: Pid, q: Pid) {
    forall z :: z in s.procs && z != p && z != q && z in r.procs ==> StateStep(s.procs[z].state, r.procs[z].state)
  }

  /** Whoever refers to p can go on doing so. */
  ghost predicate StillThere(s: State, r: State, p: Pid)
    requires p in s.procs && p in r.procs
  {
    var a, b := s.procs[p], r.procs[p];
    && (Gone(b.pc) && !Gone(a.pc) ==> !HasChild(s, p))
    && (b.pc.NotStarted? ==> a.pc.NotStarted?)
    && (a.pc.NotStarted? && !b.pc.NotStarted? ==> s.procLock.None?)
    && (WaitsOn(a.pc, if HasSem(a.pc) then a.pc.x else ChildExit(p)) && a.up && a.pc.x in s.semLock ==>
          WaitsOn(b.pc, a.pc.x) && b.up)
  }

  predicate HasSem(pc: Pc) { pc.Enqueued? || pc.Sleeping? || pc.Woken? }

  lemma LocalsKept(s: State, r: State, p: Pid, q: Pid)
    requires ProcsOk(s) && p in s.procs && q in s.procs && SameControl(s, r, p, q) && StateSteps(s, r, p, q)
    requires Local(r.procs[p], p) && Local(r.procs[q], q)
    ensures forall z :: z in r.procs ==> Local(r.procs[z], z)
  {
    hide Links;
  }

  lemma LinksKept(s: State, r: State, p: Pid, q: Pid)
    requires ProcsOk(s) && SemLocksOk(s) && ProcLockOk(s) && p in s.procs && q in s.procs && SameControl(s, r, p, q)
    requires r.sems.Keys == s.sems.Keys && r.reaped == s.reaped
    requires StillThere(s, r, p) && StillThere(s, r, q) && Links(r, p) && Links(r, q)
    ensures forall z :: z in r.procs ==> Links(r, z)
  {
    hide Local, Links, StillThere, SemLocksOk, ProcLockOk;
    forall z | z in r.procs && z != p && z != q ensures Links(r, z) {
      LinkKept(s, r, p, q, z);
    }
  }

  lemma LinkKept(s: State, r: State, p: Pid, q: Pid, z: Pid)
    requires z in s.procs && Links(s, z) && SemLocksOk(s) && ProcLockOk(s)
    requires p in s.procs && q in s.procs && SameControl(s, r, p, q)
    requires r.sems.Keys == s.sems.Keys && r.reaped == s.reaped
    requires StillThere(s, r, p) && StillThere(s, r, q) && z != p && z != q
    ensures Links(r, z)
  {
    var me := s.procs[z];
    assert !Gone(r.procs[me.parent].pc) by {
      if me.parent == p { assert HasChild(s, p); }
      if me.parent == q { assert HasChild(s, q); }
    }
    if me.pc.Waking? {
      assert HeldSem(me.pc) == Some(me.pc.x);
      assert me.pc.x in s.semLock;
    }
  }

  lemma ProcsKept(s: State, r: State, p: Pid, q: Pid)
    requires ProcsOk(s) && SemLocksOk(s) && ProcLockOk(s) && p in s.procs && q in s.procs && SameControl(s, r, p, q)
    requires StateSteps(s, r, p, q) && r.sems.Keys == s.sems.Keys && r.reaped == s.reaped
    requires StillThere(s, r, p) && StillThere(s, r, q)
    requires Local(r.procs[p], p) && Local(r.procs[q], q) && Links(r, p) && Links(r, q)
    requires r.procs[ROOT].parent == ROOT
    ensures ProcsOk(r)
  {
    hide Local, Links, SemLocksOk, ProcLockOk, StillThere, StateSteps;
    LocalsKept(s, r, p, q);
    LinksKept(s, r, p, q);
  }

  // ----- semaphores

  predicate QueuedOn(p: Proc, x: SemId) { Queued(p) && p.pc.x == x }

  /** The sleep list of x follows what p and q have become; p and q are on no other. */
  ghost predicate QueueChange(s: State, r: State, p: Pid, q: Pid, x: SemId)
    requires p in s.procs && q in s.procs && p in r.procs && q in r.procs && x in s.sems && x in r.sems
  {
    && (Queued(s.procs[p]) ==> s.procs[p].pc.x == x) && (Queued(r.procs[p]) ==> r.procs[p].pc.x == x)
    && (Queued(s.procs[q]) ==> s.procs[q].pc.x == x) && (Queued(r.procs[q]) ==> r.procs[q].pc.x == x)
    && (p in r.sems[x].queue <==> QueuedOn(r.procs[p], x))
    && (q in r.sems[x].queue <==> QueuedOn(r.procs[q], x))
    && (forall z :: z != p && z != q && z in r.sems[x].queue ==> z in s.sems[x].queue)
    && (forall z :: z != p && z != q && z in s.sems[x].queue ==> z in r.sems[x].queue)
  }

  lemma SemsKept(s: State, r: State, p: Pid, q: Pid, x: SemId)
    requires SemsOk(s) && p in s.procs && q in s.procs && SameControl(s, r, p, q)
    requires x in s.sems && r.sems.Keys == s.sems.Keys && SemOk(r.sems[x])
    requires forall y :: y in s.sems && y != x ==> r.sems[y] == s.sems[y]
    requires QueueChange(s, r, p, q, x)
    ensures SemsOk(r)
  {
    hide SemOk, QueueChange;
    forall y, z | y in r.sems && z in r.sems[y].queue
      ensures z in r.procs && WaitsOn(r.procs[z].pc, y) && !r.procs[z].up
    {
      QueueEntryKept(s, r, p, q, x, y, z);
    }
    forall z | z in r.procs && Queued(r.procs[z])
      ensures r.procs[z].pc.x in r.sems && z in r.sems[r.procs[z].pc.x].queue
    {
      QueuedKept(s, r, p, q, x, z);
    }
  }

  lemma QueueEntryKept(s: State, r: State, p: Pid, q: Pid, x: SemId, y: SemId, z: Pid)
    requires SemsOk(s) && p in s.procs && q in s.procs && SameControl(s, r, p, q)
    requires x in s.sems && r.sems.Keys == s.sems.Keys && (y != x ==> y in s.sems && r.sems[y] == s.sems[y])
    requires QueueChange(s, r, p, q, x) && y in r.sems && z in r.sems[y].queue
    ensures z in r.procs && WaitsOn(r.procs[z].pc, y) && !r.procs[z].up
  {
    hide SemOk;
    if y == x {
    } else {
      assert z in s.sems[y].queue;
      assert Queued(s.procs[z]);
    }
  }

  lemma QueuedKept(s: State, r: State, p: Pid, q: Pid, x: SemId, z: Pid)
    requires SemsOk(s) && p in s.procs && q in s.procs && SameControl(s, r, p, q)
    requires x in s.sems && r.sems.Keys == s.sems.Keys
    requires forall y :: y in s.sems && y != x ==> r.sems[y] == s.sems[y]
    requires QueueChange(s, r, p, q, x) && z in r.procs && Queued(r.procs[z])
    ensures r.procs[z].pc.x in r.sems && z in r.sems[r.procs[z].pc.x].queue
  {
    hide SemOk;
  }

  // ----- wakeups

  /** Every process but p that is about to wake somebody goes on holding its semaphore. */
  lemma WakeKept(s: State, r: State, p: Pid)
    requires WakeOk(s) && SemLocksOk(s) && p in s.procs && SameControl(s, r, p, p) && !s.procs[p].pc.Waking?
    requires LockChange(s, r, p)
    requires forall z :: z in s.procs && z != p && Asleep(r.procs[z].state) ==> Asleep(s.procs[z].state)
    requires r.procs[p].up && (Asleep(r.procs[p].state) || r.procs[p].pc.Sleeping?) ==>
               s.procs[p].up && s.procs[p].pc.Sleeping? && r.procs[p].pc.Woken? && r.procs[p].pc.x == s.procs[p].pc.x
    ensures WakeOk(r)
  {
    forall q | q in r.procs && r.procs[q].up && (Asleep(r.procs[q].state) || r.procs[q].pc.Sleeping?)
      ensures (r.procs[q].pc.Sleeping? || r.procs[q].pc.Woken?) && Pending(r, q)
    {
      PendingKept(s, r, p, q);
    }
  }

  lemma PendingKept(s: State, r: State, p: Pid, q: Pid)
    requires SemLocksOk(s) && p in s.procs && SameControl(s, r, p, p) && !s.procs[p].pc.Waking? && LockChange(s, r, p)
    requires q in s.procs && (s.procs[q].pc.Sleeping? || s.procs[q].pc.Woken?) && Pending(s, q)
    requires (r.procs[q].pc.Sleeping? || r.procs[q].pc.Woken?) && r.procs[q].pc.x == s.procs[q].pc.x
    ensures Pending(r, q)
  {
    var x := s.procs[q].pc.x;
    var h := s.semLock[x];
    assert h != p;
    assert HeldSem(s.procs[p].pc) != Some(x);
  }

  // ----- tokens

  /** Nothing that the tokens of parents depend on has changed, except that p may have begun to exit. */
  ghost predicate TokenFrame(s: State, r: State, p: Pid)
    requires p in s.procs && p in r.procs
  {
    && r.procs[p].parent == s.procs[p].parent
    && Posted(r.procs[p].pc) == Posted(s.procs[p].pc)
    && (Exits(r.procs[p].pc) || (Holding(s, p) == Holding(r, p) && !Exits(s.procs[p].pc)))
    && AdoptionPending(r) == AdoptionPending(s)
    && (forall q :: ChildExit(q) in s.sems ==>
          ChildExit(q) in r.sems && Max0(r.sems[ChildExit(q)].val) == Max0(s.sems[ChildExit(q)].val))
  }

  lemma KidsKept(s: State, r: State, p: Pid, q: Pid)
    requires p in s.procs && SameControl(s, r, p, p)
    requires r.procs[p].parent == s.procs[p].parent && Posted(r.procs[p].pc) == Posted(s.procs[p].pc)
    ensures Kids(r, q) == Kids(s, q)
  {
  }

  lemma TokenKept(s: State, r: State, p: Pid, q: Pid)
    requires p in s.procs && SameControl(s, r, p, p) && TokenFrame(s, r, p)
    requires q in s.procs && ChildExit(q) in s.sems && ChildExit(q) in r.sems && !Exits(r.procs[q].pc)
    requires !Exits(s.procs[q].pc) ==> TokensOf(s, q)
    ensures TokensOf(r, q)
  {
    hide Kids;
    KidsKept(s, r, p, q);
  }

  lemma TokensKept(s: State, r: State, p: Pid)
    requires TokensOk(s) && ProcsOk(s) && p in s.procs && SameControl(s, r, p, p) && TokenFrame(s, r, p)
    ensures TokensOk(r)
  {
    hide Local, TokensOf, TokenFrame, Exits;
    forall q | q in r.procs && ChildExit(q) in r.sems && !Exits(r.procs[q].pc) ensures TokensOf(r, q) {
      assert Links(s, q);
      TokenKept(s, r, p, q);
    }
  }

  // ----- steps that change the control of one process

  /** Only p changes its control, and only x its value; locks, references and sleep lists follow. */
  ghost predicate OneControl(s: State, r: State, p: Pid, x: SemId) {
    && p in s.procs && SameControl(s, r, p, p) && LockChange(s, r, p)
    && r.sems.Keys == s.sems.Keys && r.reaped == s.reaped && r.procs[p].parent == s.procs[p].parent
    && StillThere(s, r, p) && Links(r, p)
    && x in s.sems && SemOk(r.sems[x]) && (forall y :: y in s.sems && y != x ==> r.sems[y] == s.sems[y])
    && QueueChange(s, r, p, p, x)
  }

  /** The states of the processes follow the control. */
  ghost predicate OneState(s: State, r: State, p: Pid)
    requires p in s.procs && p in r.procs
  {
    && StateSteps(s, r, p, p) && Local(r.procs[p], p)
    && (r.procs[p].up && (Asleep(r.procs[p].state) || r.procs[p].pc.Sleeping?) ==>
          s.procs[p].up && s.procs[p].pc.Sleeping? && r.procs[p].pc.Woken? && r.procs[p].pc.x == s.procs[p].pc.x)
  }

  /** All that has to be shown of a step in which only p changes its control and only x its value. */
  ghost predicate OneStep(s: State, r: State, p: Pid, x: SemId) {
    OneControl(s, r, p, x) && OneState(s, r, p)
  }

  /** m and r differ at most in scheduling. */
  ghost predicate SchedOnly(m: State, r: State) {
    && r.procs.Keys == m.procs.Keys
    && (forall z :: z in m.procs ==>
          r.procs[z].pc == m.procs[z].pc && r.procs[z].up == m.procs[z].up && r.procs[z].parent == m.procs[z].parent)
    && r.sems == m.sems && r.schedLock == m.schedLock && r.procLock == m.procLock && r.semLock == m.semLock
    && r.reaped == m.reaped
  }

  lemma ControlThenSched(s: State, m: State, r: State, p: Pid, x: SemId)
    requires OneControl(s, m, p, x) && SchedOnly(m, r)
    ensures OneControl(s, r, p, x)
  {
  }

  lemma OneStepCore(s: State, r: State, p: Pid, x: SemId)
    requires Inv(s) && OneStep(s, r, p, x)
    ensures ProcsOk(r) && LocksOk(r) && SemsOk(r)
  {
    hide SchedOk, LockChange, StillThere, Local, Links, SemOk, QueueChange, SemsOk, WakeOk, TokensOk, SemLocksOk,
         SchedLockOk, ProcLockOk;
    RootParent(s, r, p);
    LocksKept(s, r, p, p);
    ProcsKept(s, r, p, p);
    SemsKept(s, r, p, p, x);
  }

  lemma OneStepWake(s: State, r: State, p: Pid, x: SemId)
    requires Inv(s) && OneStep(s, r, p, x) && !s.procs[p].pc.Waking?
    ensures WakeOk(r)
  {
    hide SchedOk, LockChange, StillThere, Local, Links, SemOk, QueueChange, SemsOk, WakeOk, TokensOk, SemLocksOk,
         SchedLockOk, ProcLockOk;
    Sleepier(s, r, p);
    WakeKept(s, r, p);
  }

  lemma OneStepKeeps(s: State, r: State, p: Pid, x: SemId)
    requires Inv(s) && OneStep(s, r, p, x) && SchedOk(r) && TokensOk(r) && !s.procs[p].pc.Waking?
    ensures Inv(r)
  {
    hide OneControl, OneState, ProcsOk, LocksOk, SchedOk, SemsOk, WakeOk, TokensOk;
    OneStepCore(s, r, p, x);
    OneStepWake(s, r, p, x);
  }

  /** A process that is in no wait, before or after: its place on sleep lists, and who refers to it. */
  lemma NoWait(s: State, r: State, p: Pid, x: SemId)
    requires p in s.procs && p in r.procs && x in s.sems && x in r.sems && r.sems[x].queue == s.sems[x].queue
    requires !HasSem(s.procs[p].pc) && !HasSem(r.procs[p].pc) && p !in s.sems[x].queue
    requires !s.procs[p].pc.NotStarted? && !r.procs[p].pc.NotStarted?
    requires Gone(r.procs[p].pc) && !Gone(s.procs[p].pc) ==> !HasChild(s, p)
    ensures QueueChange(s, r, p, p, x) && StillThere(s, r, p)
  {
    hide Gone, HasChild;
  }

  /** A process that neither holds nor takes a lock. */
  lemma NoLocks(s: State, r: State, p: Pid)
    requires p in s.procs && p in r.procs && LockFree(s.procs[p].pc) && LockFree(r.procs[p].pc)
    requires r.schedLock == s.schedLock && r.procLock == s.procLock && r.semLock == s.semLock
    ensures LockChange(s, r, p)
  {
  }

  lemma RootParent(s: State, r: State, p: Pid)
    requires ProcsOk(s) && p in s.procs && SameControl(s, r, p, p) && r.procs[p].parent == s.procs[p].parent
    ensures ROOT in r.procs && r.procs[ROOT].parent == ROOT
  {
  }

  lemma Sleepier(s: State, r: State, p: Pid)
    requires SameControl(s, r, p, p) && StateSteps(s, r, p, p)
    ensures forall z :: z in s.procs && z != p && Asleep(r.procs[z].state) ==> Asleep(s.procs[z].state)
  {
  }

  /** What the invariant says about one process and one semaphore. */
  lemma Facts(s: State, p: Pid, x: SemId)
    requires Inv(s) && p in s.procs && x in s.sems
    ensures SchedOk(s) && TokensOk(s) && ProcsOk(s)
    ensures Local(s.procs[p], p) && Links(s, p) && SemOk(s.sems[x])
    ensures HoldsSched(s.procs[p].pc) <==> s.schedLock == Some(p)
    ensures HoldsProc(s.procs[p].pc) <==> s.procLock == Some(p)
    ensures HeldSem(s.procs[p].pc).Some? ==>
              HeldSem(s.procs[p].pc).value in s.semLock && s.semLock[HeldSem(s.procs[p].pc).value] == p
    ensures p in s.sems[x].queue <==> QueuedOn(s.procs[p], x)
  {
    hide SchedOk, TokensOk;
  }

}
