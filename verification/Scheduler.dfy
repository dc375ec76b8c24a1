/**
 Choosing the next process (src/kernel/sched.c, pick_next): the RUNNABLE process with the least load.
 */
module Scheduler {
  import opened Basics

  type Pid = nat

  /** enum procstate. */
  datatype PState = UNUSED | RUNNABLE | RUNNING | SLEEPING | DEEPSLEEPING | ZOMBIE

  const MIN_LOAD := 1000000

  /** What the scheduler looks at in a process. */
  datatype Entry = Entry(state: PState, load: nat)

  /** Process p may be picked. */
  predicate Ready(es: map<Pid, Entry>, p: Pid) {
    p in es && es[p].state == RUNNABLE && es[p].load < MIN_LOAD
  }

  /** best is the first process of least load among the ready processes of q. */
  ghost predicate IsPick(q: seq<Pid>, es: map<Pid, Entry>, best: Option<Pid>) {
    match best
    case None => forall i :: 0 <= i < |q| ==> !Ready(es, q[i])
    case Some(p) => exists i :: 0 <= i < |q| && IsPickAt(q, es, p, i)
  }

  ghost predicate IsPickAt(q: seq<Pid>, es: map<Pid, Entry>, p: Pid, i: nat)
    requires i < |q|
  {
    && q[i] == p && Ready(es, p)
    && (forall j :: 0 <= j < |q| && Ready(es, q[j]) ==> es[p].load <= es[q[j]].load)
    && (forall j :: 0 <= j < i && Ready(es, q[j]) ==> es[p].load < es[q[j]].load)
  }

  /** pick_next without its side effect, one queue entry at a time. */
  function Pick(q: seq<Pid>, es: map<Pid, Entry>): (best: Option<Pid>)
    ensures best.Some? ==> Ready(es, best.value) && best.value in q
  {
    if q == [] then None
    else
      var best := Pick(q[..|q| - 1], es);
      var p := q[|q| - 1];
      if Ready(es, p) && (best.None? || es[p].load < es[best.value].load) then Some(p) else best
  }

  lemma {:induction false} PickIsPick(q: seq<Pid>, es: map<Pid, Entry>)
    ensures IsPick(q, es, Pick(q, es))
  {
    if q != [] {
      var n := |q| - 1;
      var front := q[..n];
      PickIsPick(front, es);
      var best := Pick(front, es);
      if Pick(q, es) == Some(q[n]) && (best.None? || Pick(q, es) != best) {
        assert IsPickAt(q, es, q[n], n) by {
          if best.Some? {
            var i :| 0 <= i < |front| && IsPickAt(front, es, best.value, i);
          }
          forall j | 0 <= j < |q| && Ready(es, q[j]) ensures es[q[n]].load <= es[q[j]].load {
            if j < n { assert front[j] == q[j]; }
          }
          forall j | 0 <= j < n && Ready(es, q[j]) ensures es[q[n]].load < es[q[j]].load {
            assert front[j] == q[j];
          }
        }
      } else if best.Some? {
        var i :| 0 <= i < |front| && IsPickAt(front, es, best.value, i);
        assert IsPickAt(q, es, best.value, i) by {
          forall j | 0 <= j < |q| && Ready(es, q[j]) ensures es[best.value].load <= es[q[j]].load {
            if j < n { assert front[j] == q[j]; }
          }
          forall j | 0 <= j < i && Ready(es, q[j]) ensures es[best.value].load < es[q[j]].load {
            assert front[j] == q[j];
          }
        }
      } else {
        forall i | 0 <= i < |q| ensures !Ready(es, q[i]) {
          if i < n { assert front[i] == q[i]; }
        }
      }
    }
  }

  /** The loop of pick_next over the run queue. */
  method PickNext(rq: seq<Pid>, es: map<Pid, Entry>) returns (selected: Option<Pid>)
    requires forall i :: 0 <= i < |rq| ==> rq[i] in es
    ensures selected == Pick(rq, es) && IsPick(rq, es, selected)
  {
    selected := None;
    var minLoad := MIN_LOAD;
    var i := 0;
    while i < |rq|
      invariant 0 <= i <= |rq|
      invariant selected == Pick(rq[..i], es)
      invariant minLoad == if selected.Some? then es[selected.value].load else MIN_LOAD
    {
      var p := rq[i];
      assert rq[..i + 1][..i] == rq[..i];
      if es[p].state == RUNNABLE && es[p].load < minLoad {
        selected := Some(p);
        minLoad := es[p].load;
      }
      i := i + 1;
    }
    assert rq[..i] == rq;
    PickIsPick(rq, es);
  }

  // ----- bounded bypass

  /** The picked process runs for a while: its load goes up by one. */
  function Charge(es: map<Pid, Entry>, p: Pid): (r: map<Pid, Entry>)
    requires p in es
  {
    es[p := es[p].(load := es[p].load + 1)]
  }

  /** How often a process can still be picked before one of load l: max(0, l + 1 - load). */
  function Ahead(l: nat, load: nat): (n: nat)
  {
    if load <= l then l + 1 - load else 0
  }

  /** The same for process x and process p. */
  function Share(es: map<Pid, Entry>, p: Pid, x: Pid): (n: nat)
    requires p in es && x in es
  {
    if x == p then 0 else Ahead(es[p].load, es[x].load)
  }

  /** The sum of the shares of the processes ps. */
  ghost function Bypass(ps: set<Pid>, es: map<Pid, Entry>, p: Pid): (n: nat)
    requires p in es && ps <= es.Keys
  {
    if ps == {} then 0
    else
      var x :| x in ps;
      Bypass(ps - {x}, es, p) + Share(es, p, x)
  }

  lemma {:induction false} BypassSplit(ps: set<Pid>, es: map<Pid, Entry>, p: Pid, x: Pid)
    requires p in es && ps <= es.Keys && x in ps
    ensures Bypass(ps, es, p) == Bypass(ps - {x}, es, p) + Share(es, p, x)
  {
    var y :| y in ps && Bypass(ps, es, p) == Bypass(ps - {y}, es, p) + Share(es, p, y);
    if x != y {
      BypassSplit(ps - {y}, es, p, x);
      BypassSplit(ps - {x}, es, p, y);
      assert ps - {x} - {y} == ps - {y} - {x};
    }
  }

  /** Fewer processes with higher loads have a smaller sum. */
  lemma {:induction false} BypassMono(ps: set<Pid>, a: map<Pid, Entry>, qs: set<Pid>, b: map<Pid, Entry>, p: Pid)
    requires ps <= qs && ps <= a.Keys && qs <= b.Keys && p in a && p in b && a[p].load == b[p].load
    requires forall x :: x in ps ==> b[x].load <= a[x].load
    ensures Bypass(ps, a, p) <= Bypass(qs, b, p)
  {
    if ps != {} {
      var x :| x in ps;
      BypassSplit(ps, a, p, x);
      BypassSplit(qs, b, p, x);
      BypassMono(ps - {x}, a, qs - {x}, b, p);
    }
  }

  /** Charging a process other than p that has no more load than p lowers the sum by one. */
  lemma BypassDrops(ps: set<Pid>, es: map<Pid, Entry>, p: Pid, r: Pid)
    requires p in es && ps <= es.Keys && r in ps && r != p && es[r].load <= es[p].load
    ensures Bypass(ps, Charge(es, r), p) == Bypass(ps, es, p) - 1
  {
    var charged := Charge(es, r);
    BypassSplit(ps, es, p, r);
    BypassSplit(ps, charged, p, r);
    BypassMono(ps - {r}, es, ps - {r}, charged, p);
    BypassMono(ps - {r}, charged, ps - {r}, es, p);
  }

  /** One call of pick_next, with the run queue q of that moment, and the charge for its pick. Process p is
      RUNNABLE and so on the queue; what else is there, and in which order, is left open. */
  ghost predicate Turn(q: seq<Pid>, p: Pid, before: map<Pid, Entry>, pick: Option<Pid>, after: map<Pid, Entry>) {
    && before.Keys == after.Keys && (forall i :: 0 <= i < |q| ==> q[i] in before)
    && p in q && before[p].state == RUNNABLE
    && IsPick(q, before, pick)
    && forall x :: x in before ==> after[x].load == before[x].load + (if pick == Some(x) then 1 else 0)
  }

  /** While p is ready, the process picked has no more load than p. */
  lemma TurnPicks(q: seq<Pid>, p: Pid, es: map<Pid, Entry>, pick: Option<Pid>)
    requires IsPick(q, es, pick) && p in q && Ready(es, p)
    ensures pick.Some? && pick.value in es && es[pick.value].load <= es[p].load
  {
    var j :| 0 <= j < |q| && q[j] == p;
    assert Ready(es, q[j]);
    var i :| 0 <= i < |q| && IsPickAt(q, es, pick.value, i);
  }

  /** A turn that picks some other process brings p one step nearer; idle is not picked. */
  lemma TurnDrops(q: seq<Pid>, p: Pid, before: map<Pid, Entry>, pick: Option<Pid>, after: map<Pid, Entry>)
    requires Turn(q, p, before, pick, after) && pick != Some(p) && before[p].load < MIN_LOAD
    ensures pick.Some? && after[p].load == before[p].load
    ensures Bypass(after.Keys, after, p) == Bypass(before.Keys, before, p) - 1
  {
    hide IsPick, Bypass;
    TurnPicks(q, p, before, pick);
    var charged := Charge(before, pick.value);
    assert charged.Keys == before.Keys;
    BypassDrops(before.Keys, before, p, pick.value);
    BypassMono(after.Keys, after, charged.Keys, charged, p);
    BypassMono(charged.Keys, charged, after.Keys, after, p);
  }

  /** picks are the picks of a run in which p stays RUNNABLE. Each turn has its own run queue, as processes
      leave it when they sleep and come back at its front. */
  ghost predicate Run(rqs: seq<seq<Pid>>, p: Pid, picks: seq<Option<Pid>>, loads: seq<map<Pid, Entry>>) {
    && |loads| == |picks| + 1 && |rqs| == |picks| && p in loads[0]
    && (forall k :: 0 <= k < |picks| ==> Turn(rqs[k], p, loads[k], picks[k], loads[k + 1]))
  }

  /** Bounded bypass: a process that stays RUNNABLE with load L below the limit is picked before any
      run has picked others more than the sum of max(0, L + 1 - load(r)) times. */
  lemma {:induction false} BoundedBypass(rqs: seq<seq<Pid>>, p: Pid, picks: seq<Option<Pid>>,
                                         loads: seq<map<Pid, Entry>>)
    requires Run(rqs, p, picks, loads) && loads[0][p].load < MIN_LOAD && Some(p) !in picks
    ensures |picks| <= Bypass(loads[0].Keys, loads[0], p)
    decreases |picks|
  {
    if picks != [] {
      assert Turn(rqs[0], p, loads[0], picks[0], loads[1]);
      TurnDrops(rqs[0], p, loads[0], picks[0], loads[1]);
      forall k | 0 <= k < |picks[1..]|
        ensures Turn(rqs[1..][k], p, loads[1..][k], picks[1..][k], loads[1..][k + 1])
      {
        assert Turn(rqs[k + 1], p, loads[k + 1], picks[k + 1], loads[k + 2]);
      }
      BoundedBypass(rqs[1..], p, picks[1..], loads[1..]);
    }
  }
}
