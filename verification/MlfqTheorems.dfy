/**
  What one pass of mlfq_scheduler does, without its loops, and how long a process keeps its level
  (kernel/proc.c, kernel/trap.c).  The constants are written out.
 */
module MlfqTheorems {
  import opened ProcState
  import opened Queue
  import opened Mlfq
  import Finite

  // ---------- one pass of the scheduler

  /** p has been RUNNABLE for 128 ticks or more since it was last picked or moved up. */
  predicate Overdue(s: Sched, p: nat) {
    p < |s.procs| && s.procs[p].state.Runnable? && (s.ticks - s.procs[p].qEnter) % 0x1_0000_0000 >= 128
  }

  /** The processes below n that are overdue. */
  function OverdueBelow(s: Sched, n: nat): (r: set<nat>)
    ensures forall p :: p in r <==> 0 <= p < n && Overdue(s, p)
  {
    if n == 0 then {} else OverdueBelow(s, n - 1) + (if Overdue(s, n - 1) then {n - 1} else {})
  }

  /** The entries of q that are not in `out`, in their order. */
  function Kept(q: seq<nat>, out: set<nat>): seq<nat> {
    if q == [] then [] else Kept(q[..|q| - 1], out) + (if q[|q| - 1] in out then [] else [q[|q| - 1]])
  }

  /** p joins queue l in this pass. */
  predicate Joins(s: Sched, p: nat, l: nat) {
    p < |s.procs| && s.procs[p].state.Runnable? && (!s.procs[p].inQueue || Overdue(s, p)) &&
    l == if Overdue(s, p) && s.procs[p].level > 0 then s.procs[p].level - 1 else s.procs[p].level
  }

  /** The processes below n that join queue l, in the order of the process table. */
  function Joiners(s: Sched, l: nat, n: nat): seq<nat> {
    if n == 0 then [] else Joiners(s, l, n - 1) + (if Joins(s, n - 1, l) then [n - 1] else [])
  }

  /** One step of ageing() on a process record. */
  function AgedProc(s: Sched, p: nat): Proc
    requires p < |s.procs|
  {
    var x := s.procs[p];
    if Overdue(s, p) then x.(inQueue := false, level := if x.level > 0 then x.level - 1 else 0, qEnter := s.ticks) else x
  }

  lemma {:induction false} KeptTwice(q: seq<nat>, a: set<nat>, b: set<nat>)
    ensures Kept(Kept(q, a), b) == Kept(q, a + b)
  {
    if q != [] {
      var r, x := q[..|q| - 1], q[|q| - 1];
      KeptTwice(r, a, b);
      if x in a {
        assert Kept(q, a) == Kept(r, a);
        assert Kept(q, a + b) == Kept(r, a + b);
      } else {
        assert (Kept(r, a) + [x])[..|Kept(r, a)|] == Kept(r, a);
      }
    }
  }

  lemma {:induction false} KeptAll(q: seq<nat>, a: set<nat>)
    requires forall i :: 0 <= i < |q| ==> q[i] !in a
    ensures Kept(q, a) == q
  {
    if q != [] {
      KeptAll(q[..|q| - 1], a);
    }
  }

  /** Dropping the one place of p is keeping all others. */
  lemma {:induction false} WithoutIsKept(q: seq<nat>, k: nat, p: nat)
    requires k < |q| && q[k] == p && Finite.NoRepeats(q)
    ensures Finite.Without(q, k) == Kept(q, {p})
  {
    var r, x := q[..|q| - 1], q[|q| - 1];
    if k == |q| - 1 {
      KeptAll(r, {p});
      assert Finite.Without(q, k) == r;
    } else {
      WithoutIsKept(r, k, p);
      assert Finite.Without(q, k) == Finite.Without(r, k) + [x];
    }
  }

  /** From s to t exactly the overdue processes below n have left their queues and gone up one level. */
  ghost predicate AgedTo(s: Sched, t: Sched, n: nat) {
    && |s.procs| == |t.procs| == NPROC && |s.queues| == |t.queues| == NMLFQ
    && (forall p :: 0 <= p < NPROC ==> t.procs[p] == if p < n then AgedProc(s, p) else s.procs[p])
    && (forall l :: 0 <= l < NMLFQ ==> t.queues[l] == Kept(s.queues[l], OverdueBelow(s, n)))
    && t.pushedAt == s.pushedAt && t.pushes == s.pushes && t.ticks == s.ticks && t.nextpid == s.nextpid
  }

  /** ageing() as a whole. */
  lemma {:induction false} AgeingExact(s: Sched, n: nat)
    requires Inv(s) && n <= NPROC
    ensures AgedTo(s, AgeUpto(s, n), n)
  {
    if n == 0 {
      forall l | 0 <= l < NMLFQ
        ensures s.queues[l] == Kept(s.queues[l], {})
      {
        KeptAll(s.queues[l], {});
      }
    } else {
      hide Inv, AgeOne, AgedTo, AgedBy;
      AgeingExact(s, n - 1);
      AgeOneExact(AgeUpto(s, n - 1), n - 1);
      AgedMore(s, AgeUpto(s, n - 1), AgeUpto(s, n), n - 1);
    }
  }

  lemma AgedMore(s: Sched, t: Sched, u: Sched, p: nat)
    requires p < NPROC && AgedTo(s, t, p) && AgedBy(t, u, p)
    ensures AgedTo(s, u, p + 1)
  {
    hide OverdueBelow, Kept;
    forall l | 0 <= l < NMLFQ
      ensures u.queues[l] == Kept(s.queues[l], OverdueBelow(s, p + 1))
    {
      KeptMore(s, s.queues[l], p);
    }
  }

  /** From s to t process p has left its queue and gone up one level, if it was overdue. */
  ghost predicate AgedBy(s: Sched, t: Sched, p: nat) {
    && p < NPROC == |s.procs| && |s.queues| == |t.queues| == NMLFQ
    && t == s.(procs := s.procs[p := AgedProc(s, p)], queues := t.queues)
    && forall l :: 0 <= l < NMLFQ ==> t.queues[l] == Kept(s.queues[l], if Overdue(s, p) then {p} else {})
  }

  lemma KeptMore(s: Sched, q: seq<nat>, p: nat)
    ensures Kept(Kept(q, OverdueBelow(s, p)), if Overdue(s, p) then {p} else {}) == Kept(q, OverdueBelow(s, p + 1))
  {
    KeptTwice(q, OverdueBelow(s, p), if Overdue(s, p) then {p} else {});
  }

  lemma AgeOneExact(s: Sched, p: nat)
    requires Inv(s) && p < NPROC
    ensures AgedBy(s, AgeOne(s, p), p)
  {
    assert ProcOk(s, p);
    hide Kept, Erased;
    forall l | 0 <= l < NMLFQ
      ensures AgeOne(s, p).queues[l] == Kept(s.queues[l], if Overdue(s, p) then {p} else {})
    {
      AgeQueue(s, p, l);
    }
  }

  lemma AgeQueue(s: Sched, p: nat, l: nat)
    requires Inv(s) && p < NPROC && l < NMLFQ
    ensures |AgeOne(s, p).queues| == NMLFQ
    ensures AgeOne(s, p).queues[l] == Kept(s.queues[l], if Overdue(s, p) then {p} else {})
  {
    assert Shape(s);
    hide Inv, Kept, Erased, Finite.Without, AgeOne;
    QueueDistinct(s, l);
    AgeQueueIs(s, p, l);
    if Overdue(s, p) && s.procs[p].inQueue && s.procs[p].level == l {
      var k := EraseOfQueued(s, p);
      WithoutIsKept(s.queues[l], k, p);
    } else {
      if Overdue(s, p) {
        NotListed(s, p, l);
      }
      KeptAll(s.queues[l], if Overdue(s, p) then {p} else {});
    }
  }

  lemma AgeQueueIs(s: Sched, p: nat, l: nat)
    requires Inv(s) && p < NPROC && l < NMLFQ && forall i :: 0 <= i < |s.queues[l]| ==> s.queues[l][i] < |Pids(s)|
    ensures |AgeOne(s, p).queues| == NMLFQ
    ensures AgeOne(s, p).queues[l] ==
      if Overdue(s, p) && s.procs[p].inQueue && s.procs[p].level == l then Erased(s.queues[l], Pids(s), s.procs[p].pid)
      else s.queues[l]
  {
    assert ProcOk(s, p);
    hide Erased;
  }

  lemma NotListed(s: Sched, p: nat, l: nat)
    requires Inv(s) && p < NPROC && l < NMLFQ && !(s.procs[p].inQueue && s.procs[p].level == l)
    ensures forall i :: 0 <= i < |s.queues[l]| ==> s.queues[l][i] != p
  {
    forall i | 0 <= i < |s.queues[l]|
      ensures s.queues[l][i] != p
    {
      assert EntryOk(s, l, i);
    }
  }

  /** From s to t the RUNNABLE processes below n that were in no queue have been appended to that of their level. */
  ghost predicate EnqueuedTo(s: Sched, t: Sched, n: nat) {
    && |s.procs| == |t.procs| == NPROC && |s.queues| == |t.queues| == NMLFQ && |s.pushedAt| == |t.pushedAt| == NPROC
    && (forall p :: 0 <= p < NPROC ==> t.procs[p] == if p < n && s.procs[p].state.Runnable? then s.procs[p].(inQueue := true) else s.procs[p])
    && (forall l :: 0 <= l < NMLFQ ==> t.queues[l] == s.queues[l] + Waiting(s, l, n))
    && t.ticks == s.ticks && t.nextpid == s.nextpid && t.pushes >= s.pushes
    && (forall p :: 0 <= p < NPROC && (s.procs[p].inQueue || p >= n) ==> t.pushedAt[p] == s.pushedAt[p])
    && (forall p :: 0 <= p < n && p < NPROC && s.procs[p].state.Runnable? && !s.procs[p].inQueue ==> t.pushedAt[p] >= s.pushes)
  }

  /** The first loop of mlfq_scheduler as a whole. */
  lemma {:induction false} EnqueueExact(s: Sched, n: nat)
    requires Inv(s) && n <= NPROC
    ensures EnqueuedTo(s, EnqueueUpto(s, n), n)
  {
    if n > 0 {
      var t := EnqueueUpto(s, n - 1);
      EnqueueExact(s, n - 1);
      assert ProcOk(t, n - 1) && ProcOk(s, n - 1) && Shape(t);
      hide Inv, EnqueuedTo;
      EnqueuedMore(s, t, n - 1);
    }
  }

  lemma EnqueuedMore(s: Sched, t: Sched, p: nat)
    requires Inv(t) && p < NPROC && EnqueuedTo(s, t, p)
    requires s.procs[p].inQueue ==> s.procs[p].state.Runnable?
    ensures EnqueuedTo(s, EnqueueOne(t, p), p + 1)
  {
    assert ProcOk(t, p) && Shape(t);
    hide Inv;
  }

  /** The RUNNABLE processes below n of level l that are in no queue. */
  function Waiting(s: Sched, l: nat, n: nat): seq<nat> {
    if n == 0 then [] else Waiting(s, l, n - 1) + (if Waits(s, n - 1, l) then [n - 1] else [])
  }

  predicate Waits(s: Sched, p: nat, l: nat) {
    p < |s.procs| && s.procs[p].state.Runnable? && !s.procs[p].inQueue && s.procs[p].level == l
  }

  lemma {:induction false} WaitingIsJoiners(s: Sched, a: Sched, l: nat, n: nat)
    requires n <= NPROC == |s.procs| == |a.procs|
    requires forall p :: 0 <= p < NPROC ==> a.procs[p] == AgedProc(s, p)
    requires forall p :: 0 <= p < NPROC ==> s.procs[p].level < NMLFQ
    ensures Waiting(a, l, n) == Joiners(s, l, n)
  {
    if n > 0 {
      WaitingIsJoiners(s, a, l, n - 1);
    }
  }

  /**
    The state in which mlfq_scheduler makes its choice.  Exactly the RUNNABLE processes are queued.  A process,
    queued or not, is one level up exactly if it was overdue and not at the top.  In each queue come first those
    that stayed, in their old order, and then those that joined, in the order of the process table.
   */
  lemma PreparedExact(s: Sched)
    requires Inv(s)
    ensures var t := Prepared(s);
      && (forall p :: 0 <= p < NPROC ==>
           && t.procs[p].level == (if Overdue(s, p) && s.procs[p].level > 0 then s.procs[p].level - 1 else s.procs[p].level)
           && t.procs[p].qEnter == (if Overdue(s, p) then s.ticks else s.procs[p].qEnter)
           && t.procs[p].inQueue == s.procs[p].state.Runnable?
           && t.procs[p] == s.procs[p].(level := t.procs[p].level, qEnter := t.procs[p].qEnter, inQueue := t.procs[p].inQueue))
      && (forall l :: 0 <= l < NMLFQ ==> t.queues[l] == Kept(s.queues[l], OverdueBelow(s, NPROC)) + Joiners(s, l, NPROC))
      && t.ticks == s.ticks && t.nextpid == s.nextpid
      && (forall p :: 0 <= p < NPROC && s.procs[p].inQueue && !Overdue(s, p) ==> t.pushedAt[p] == s.pushedAt[p])
      && (forall p: nat, l: nat :: Joins(s, p, l) ==> t.pushedAt[p] >= s.pushes)
  {
    var a := AgeUpto(s, NPROC);
    AgeingExact(s, NPROC);
    EnqueueExact(a, NPROC);
    assert Shape(s) && Shape(a) && Shape(Prepared(s));
    forall p | 0 <= p < NPROC
      ensures s.procs[p].level < NMLFQ && (s.procs[p].inQueue ==> s.procs[p].state.Runnable?)
    {
      assert ProcOk(s, p);
    }
    forall l | 0 <= l < NMLFQ
      ensures Waiting(a, l, NPROC) == Joiners(s, l, NPROC)
    {
      WaitingIsJoiners(s, a, l, NPROC);
    }
  }

  /** A whole pass: the choice leaves its queue and runs for 1 << level ticks; all else is as prepared. */
  lemma ScheduleExact(s: Sched)
    requires Inv(s)
    ensures var t, u := Prepared(s), Schedule(s); var c := Choice(t);
      && Inv(u) && u.ticks == s.ticks && u.nextpid == s.nextpid
      && (c.Nothing? ==> u == t)
      && (c.Chosen? ==>
           && t.procs[c.p].level < NMLFQ
           && u.procs[c.p] == t.procs[c.p].(state := Running, inQueue := false, qEnter := s.ticks,
                                            changeQueue := [1, 2, 4, 8, 16][t.procs[c.p].level])
           && (forall p :: 0 <= p < NPROC && p != c.p ==> u.procs[p] == t.procs[p])
           && (forall l :: 0 <= l < NMLFQ ==> t.queues[l] == (if l == t.procs[c.p].level then [c.p] else []) + u.queues[l]))
  {
    ScheduleKeepsInv(s);
    PreparedExact(s);
    var t := Prepared(s);
    var l := FirstBusy(t.queues, 0);
    if l < NMLFQ {
      assert EntryOk(t, l, 0);
      assert Power(0) == 1 && Power(1) == 2 && Power(2) == 4 && Power(3) == 8 && Power(4) == 16;
      assert t.queues[l] == [t.queues[l][0]] + t.queues[l][1..];
    }
  }

  // ---------- time slices

  /** The clock ticks since the last pass of the scheduler, from the events alone. */
  function TicksSince(es: seq<Event>): nat
    decreases |es|
  {
    if es == [] then 0
    else
      var n := |es| - 1;
      if es[n].RunScheduler? then 0 else TicksSince(es[..n]) + (if es[n].Tick? then 1 else 0)
  }

  /** The RUNNING process was dispatched by the last pass and has used one tick per clock tick since. */
  lemma {:induction false} SliceLeft(es: seq<Event>, s: Sched, p: nat)
    requires Run(es) == Reached(s) && p < NPROC
    ensures Inv(s) && s.procs[p].level < NMLFQ
    ensures s.procs[p].state.Running? ==> s.procs[p].changeQueue == [1, 2, 4, 8, 16][s.procs[p].level] - TicksSince(es)
    decreases |es|
  {
    RunKeepsInv(es, s);
    assert ProcOk(s, p);
    if es != [] {
      var n := |es| - 1;
      var t := Run(es[..n]).state;
      SliceLeft(es[..n], t, p);
      if es[n].RunScheduler? {
        ScheduleExact(t);
        PreparedExact(t);
      } else {
        hide Inv;
        StillRuns(t, es[n], p);
      }
    }
  }

  lemma StillRuns(s: Sched, e: Event, p: nat)
    requires Inv(s) && Enabled(s, e) && p < NPROC && !e.RunScheduler?
    ensures var x, y := s.procs[p], Step(s, e).procs[p];
      y.state.Running? ==> x.state.Running? && y == x.(changeQueue := if e.Tick? then x.changeQueue - 1 else x.changeQueue)
  {
  }

  /**
    A timer interrupt takes the CPU from the running process exactly when 1 << level clock ticks have gone by
    since it was dispatched.  It then goes down one level, from the lowest to the lowest, and is RUNNABLE.
   */
  lemma DemotionExact(es: seq<Event>, s: Sched, p: nat)
    requires Run(es) == Reached(s) && Enabled(s, Timer(p))
    ensures Inv(s) && p < NPROC && s.procs[p].level < 5
    ensures var x, y := s.procs[p], Step(s, Timer(p)).procs[p];
      if TicksSince(es) >= [1, 2, 4, 8, 16][x.level]
      then y == x.(state := Runnable, level := if x.level == 4 then 4 else x.level + 1)
      else y == x
  {
    RunKeepsInv(es, s);
    SliceLeft(es, s, p);
  }

  // ---------- the life cycle

  /** Which state changes an event makes. */
  predicate Legal(e: Event, p: nat, from: PState, to: PState) {
    match e
    case Alloc(q) => if p == q then from.Unused? && to.Used? else to == from
    case Ready(q) => if p == q then from.Used? && to.Runnable? else to == from
    case Wake(q) => if p == q then from.Sleeping? && to.Runnable? else to == from
    case Sleep(q) => if p == q then from.Running? && to.Sleeping? else to == from
    case Exit(q) => if p == q then from.Running? && to.Zombie? else to == from
    case Free(q) => if p == q then (from.Zombie? || from.Used?) && to.Unused? else to == from
    case Yield(q) => if p == q then from.Running? && to.Runnable? else to == from
    case Timer(q) => if p == q then from.Running? && (to.Running? || to.Runnable?) else to == from
    case Tick => to == from
    case RunScheduler => to == from || (from.Runnable? && to.Running?)
  }

  /** Events move processes along the life cycle and, apart from timer and scheduler, touch no level and no queue. */
  lemma LifeCycle(s: Sched, e: Event, p: nat)
    requires Inv(s) && Enabled(s, e) && p < NPROC
    ensures Inv(Step(s, e))
    ensures Legal(e, p, s.procs[p].state, Step(s, e).procs[p].state)
    ensures !e.RunScheduler? && !(e == Timer(p)) ==>
      Step(s, e).procs[p].level == s.procs[p].level && Step(s, e).procs[p].qEnter == s.procs[p].qEnter
    ensures !e.RunScheduler? ==> Step(s, e).queues == s.queues && Step(s, e).ticks == s.ticks + (if e.Tick? then 1 else 0)
  {
    StepKeepsInv(s, e);
    if e.RunScheduler? {
      ScheduleExact(s);
      PreparedExact(s);
      SelectionCorrect(s);
    }
  }
}
