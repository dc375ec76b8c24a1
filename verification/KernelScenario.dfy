/**
 One run of the kernel, step by step, on one CPU: root forks a child and waits for it, the child exits, wakes
 root and becomes a ZOMBIE, root reaps it. The theorems about runs speak of something.
 */
module KernelScenario {
  import opened Basics
  import opened Scheduler
  import opened Kernel
  import opened KernelInvariant
  import opened KernelSteps
  import opened KernelWait
  import opened KernelExit
  import opened KernelRuns
  import opened KernelTheorems

  const CHILD: Pid := 1
  const X: SemId := ChildExit(ROOT)

  /** Root alone, on the CPU or not. */
  function Alone(root: Proc, cur: Option<Pid>, idle: PState, sems: map<SemId, Sem>, reaped: set<Pid>): (s: State) {
    State(map[ROOT := root], [ROOT], [cur], [idle], sems, None, None, map[], reaped)
  }

  /** Root with its child. */
  function Both(root: Proc, child: Proc, rq: seq<Pid>, cur: Pid, sem: Sem, sched: Option<Pid>, lock: Option<Pid>,
                sems: map<SemId, Pid>): (s: State)
  {
    State(map[ROOT := root, CHILD := child], rq, [Some(cur)], [RUNNABLE], map[X := sem, ChildExit(CHILD) := Unused()],
          sched, lock, sems, {})
  }

  function Unused(): (s: Sem) { Sem(0, [], 0, 0, 0) }

  function Root(st: PState, load: nat, pc: Pc, up: bool): (p: Proc) { Proc(st, false, load, ROOT, pc, up) }

  function Kid(st: PState, load: nat, pc: Pc): (p: Proc) { Proc(st, false, load, ROOT, pc, false) }

  /** The sleeping root, before and after it has been granted the token. */
  const ASLEEP: Sem := Sem(-1, [ROOT], 0, 0, 0)
  const GRANTED: Sem := Sem(0, [], 0, 1, 1)

  /** The states of the run. */
  function S(i: nat): (s: State) {
    match i
    case 0 => Alone(Root(RUNNABLE, 0, Run, false), None, RUNNING, map[X := Unused()], {})
    case 1 => Alone(Root(RUNNING, 1, Run, false), Some(ROOT), RUNNABLE, map[X := Unused()], {})
    case 2 => Both(Root(RUNNING, 1, Run, false), Kid(UNUSED, 0, NotStarted), [ROOT], ROOT, Unused(), None, None, map[])
    case 3 => Both(Root(RUNNING, 1, Starting(CHILD), false), Kid(UNUSED, 0, NotStarted), [ROOT], ROOT, Unused(), None,
                   Some(ROOT), map[])
    case 4 => Both(Root(RUNNING, 1, Run, false), Kid(RUNNABLE, 0, Run), [CHILD, ROOT], ROOT, Unused(), None, None,
                   map[])
    case 5 => Both(Root(RUNNING, 1, Enqueued(X, true, Child), false), Kid(RUNNABLE, 0, Run), [CHILD, ROOT], ROOT,
                   ASLEEP, None, None, map[X := ROOT])
    case 6 => Both(Root(RUNNING, 1, Sleeping(X, true, Child), false), Kid(RUNNABLE, 0, Run), [CHILD, ROOT], ROOT,
                   ASLEEP, Some(ROOT), None, map[])
    case 7 => Both(Root(SLEEPING, 1, Woken(X, Child), false), Kid(RUNNING, 1, Run), [CHILD], CHILD, ASLEEP, None, None,
                   map[])
    case 8 => Both(Root(SLEEPING, 1, Woken(X, Child), false), Kid(RUNNING, 1, Leaving), [CHILD], CHILD, ASLEEP, None,
                   Some(CHILD), map[])
    case 9 => Both(Root(SLEEPING, 1, Woken(X, Child), false), Kid(RUNNING, 1, Left), [CHILD], CHILD, ASLEEP, None, None,
                   map[])
    case 10 => Both(Root(SLEEPING, 1, Woken(X, Child), false), Kid(RUNNING, 1, Telling), [CHILD], CHILD, ASLEEP, None,
                    Some(CHILD), map[])
    case 11 => Both(Root(SLEEPING, 1, Woken(X, Child), true), Kid(RUNNING, 1, Waking(X, ROOT, ForParent)), [CHILD],
                    CHILD, GRANTED, None, Some(CHILD), map[X := CHILD])
    case 12 => Both(Root(RUNNABLE, 1, Woken(X, Child), true), Kid(RUNNING, 1, Told), [ROOT, CHILD], CHILD, GRANTED,
                    None, Some(CHILD), map[])
    case 13 => Both(Root(RUNNABLE, 1, Woken(X, Child), true), Kid(RUNNING, 1, Dying), [ROOT, CHILD], CHILD, GRANTED,
                    Some(CHILD), None, map[])
    case 14 => Both(Root(RUNNING, 2, Woken(X, Child), true), Kid(ZOMBIE, 1, Dead), [ROOT], ROOT, GRANTED, None, None,
                    map[])
    case 15 => Both(Root(RUNNING, 2, Reaping, true), Kid(ZOMBIE, 1, Dead), [ROOT], ROOT, GRANTED, None, None, map[])
    case 16 => Both(Root(RUNNING, 2, Collecting, true), Kid(ZOMBIE, 1, Dead), [ROOT], ROOT, GRANTED, None, Some(ROOT),
                    map[])
    case _ => Alone(Root(RUNNING, 2, Run, true), Some(ROOT), RUNNABLE,
                    map[X := GRANTED, ChildExit(CHILD) := Unused()], {CHILD})
  }

  /** What happens in it. */
  function Script(): (es: seq<Event>) {
    [EIdle(0), EFork(ROOT, CHILD), EBeginStart(ROOT, CHILD), EStart(ROOT), EWait(ROOT, X, true, Child), EHandOver(ROOT),
     ESleep(ROOT, 0), EExit(CHILD), ELeft(CHILD), ETell(CHILD), EPost(CHILD, X, ForParent), EPostWake(CHILD),
     ETakeSched(CHILD), EDie(CHILD, 0), EWakeUp(ROOT), ECollect(ROOT), EReap(ROOT, CHILD)]
  }

  /** The event can happen, nothing goes wrong, and it leads there. */
  ghost predicate Leads(s: State, e: Event, r: State) {
    Enabled(s, e) && !GoesWrong(s, e) && Next(s, e) == r
  }

  lemma PickOnly(es: map<Pid, Entry>, p: Pid)
    requires Ready(es, p)
    ensures Pick([p], es) == Some(p)
  {
    assert [p][..0] == [];
  }

  lemma Boots()
    ensures Leads(S(0), EIdle(0), S(1))
  {
    var m := Leave(S(0), 0, RUNNABLE);
    PickOnly(Entries(m.procs), ROOT);
  }

  lemma Forks()
    ensures Leads(S(1), EFork(ROOT, CHILD), S(2))
    ensures Leads(S(2), EBeginStart(ROOT, CHILD), S(3))
  {
  }

  lemma Starts()
    ensures Leads(S(3), EStart(ROOT), S(4))
  {
    assert [CHILD] + [ROOT] == [CHILD, ROOT];
  }

  lemma Waits()
    ensures Leads(S(4), EWait(ROOT, X, true, Child), S(5))
    ensures Leads(S(5), EHandOver(ROOT), S(6))
  {
    assert CHILD in S(4).procs && HasChild(S(4), ROOT);
    assert [ROOT] + [] == [ROOT];
  }

  /** Root asleep, before the child is picked. */
  function Slept(): (s: State) {
    Both(Root(SLEEPING, 1, Woken(X, Child), false), Kid(RUNNABLE, 0, Run), [CHILD], ROOT, ASLEEP, None, None,
         map[])
  }

  lemma RootLeaves()
    ensures Leave(SleepMid(S(6), ROOT), 0, SLEEPING) == Slept()
  {
    hide Without;
    WithoutTwo(CHILD, ROOT, ROOT);
  }

  lemma ChildEnters()
    ensures Pick(Slept().rq, Entries(Slept().procs)) == Some(CHILD) && Enter(Slept(), 0) == S(7)
  {
    hide Pick;
    PickOnly(Entries(Slept().procs), CHILD);
  }

  lemma Sleeps()
    ensures Leads(S(6), ESleep(ROOT, 0), S(7))
  {
    hide Pick, Leave, Enter, Entries;
    RootLeaves();
    ChildEnters();
  }

  lemma WithoutTwo(a: Pid, b: Pid, p: Pid)
    requires a != b && (p == a || p == b)
    ensures Without([a, b], p) == if p == a then [b] else [a]
  {
    WithoutMembers([b], p);
    assert [a, b][1..] == [b] && [b][1..] == [];
    assert Without([b], p) == if p == b then [] else [b];
  }

  lemma Exits()
    ensures Leads(S(7), EExit(CHILD), S(8))
  {
  }

  lemma Leaves()
    ensures Leads(S(8), ELeft(CHILD), S(9))
  {
  }

  lemma Returns()
    ensures Leads(S(9), ETell(CHILD), S(10))
  {
  }

  lemma Tells()
    ensures Leads(S(10), EPost(CHILD, X, ForParent), S(11))
  {
    assert [ROOT][..0] == [];
  }

  lemma Wakes()
    ensures Leads(S(11), EPostWake(CHILD), S(12))
  {
    assert [ROOT] + [CHILD] == [ROOT, CHILD];
  }

  lemma TakesSched()
    ensures Leads(S(12), ETakeSched(CHILD), S(13))
  {
  }

  /** The child dead, before root is picked. */
  function Died(): (s: State) {
    Both(Root(RUNNABLE, 1, Woken(X, Child), true), Kid(ZOMBIE, 1, Dead), [ROOT], CHILD, GRANTED, None, None, map[])
  }

  lemma ChildLeaves()
    ensures Leave(DieMid(S(13), CHILD), 0, ZOMBIE) == Died()
  {
    hide Without;
    WithoutTwo(ROOT, CHILD, CHILD);
  }

  lemma RootEnters()
    ensures Pick(Died().rq, Entries(Died().procs)) == Some(ROOT) && Enter(Died(), 0) == S(14)
  {
    hide Pick;
    PickOnly(Entries(Died().procs), ROOT);
  }

  lemma Dies()
    ensures Leads(S(13), EDie(CHILD, 0), S(14))
  {
    hide Pick, Leave, Enter, Entries;
    ChildLeaves();
    RootEnters();
  }

  lemma Rises()
    ensures Leads(S(14), EWakeUp(ROOT), S(15))
  {
  }

  lemma Locks()
    ensures Leads(S(15), ECollect(ROOT), S(16))
  {
  }

  lemma Reaps()
    ensures Leads(S(16), EReap(ROOT, CHILD), S(17))
  {
    assert CHILD in S(16).procs && IsZombieChild(S(16), ROOT, CHILD);
  }

  lemma AllLead(i: nat)
    requires i < |Script()|
    ensures Leads(S(i), Script()[i], S(i + 1))
  {
    hide Leads, S;
    Boots();
    Forks();
    Starts();
    Waits();
    Sleeps();
    Exits();
    Leaves();
    Returns();
    Tells();
    Wakes();
    TakesSched();
    Dies();
    Rises();
    Locks();
    Reaps();
  }

  lemma {:induction false} UpTo(n: nat)
    requires n <= |Script()|
    ensures After(S(0), Script()[..n]) == Reached(S(n))
  {
    if n > 0 {
      var es := Script()[..n];
      assert es[..|es| - 1] == Script()[..n - 1];
      AllLead(n - 1);
      hide S, Script, Enabled, GoesWrong, Next;
      UpTo(n - 1);
    } else {
      assert Script()[..0] == [];
    }
  }

  /** There is a run in which a parent sleeps in wait, its child exits and wakes it, and the child is reaped. */
  lemma ChildIsReaped() returns (s0: State, es: seq<Event>, s: State)
    ensures Reaches(s0, es, s) && CHILD in s.reaped && CHILD !in s.procs
    ensures exists k :: 0 <= k < |es| && After(s0, es[..k]).Reached? && ROOT in After(s0, es[..k]).s.procs
                        && After(s0, es[..k]).s.procs[ROOT].state == SLEEPING
  {
    hide After, Boot;
    s0, es, s := S(0), Script(), S(17);
    StartsAtBoot();
    UpTo(17);
    UpTo(7);
    assert es[..17] == es;
    assert After(s0, es[..7]).s == S(7);
  }

  lemma StartsAtBoot()
    ensures Boot(S(0))
  {
  }
}
