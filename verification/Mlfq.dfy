/**
  The multi-level feedback queue scheduler (kernel/proc.c, kernel/trap.c) on one hart: process
  states, five queues, and the events that move processes between them.  Picking a process and
  dispatching it is one event.
 */
module Mlfq {
  import opened ProcState
  import opened Queue
  import Finite

  const NMLFQ: nat := 5
  const AGETICK: nat := 128
  const UINT: nat := 0x1_0000_0000

  datatype Proc = Proc(state: PState, pid: nat, level: nat, inQueue: bool, qEnter: int, changeQueue: int)

  /** `queues[l]` is the contents of mlfq[l]; `pushedAt[p]` numbers the last push of p. */
  datatype Sched = Sched(procs: seq<Proc>, queues: seq<seq<nat>>, ticks: nat, nextpid: nat,
                         pushedAt: seq<nat>, pushes: nat)

  function Boot(): Sched {
    Sched(seq(NPROC, i => Proc(Unused, 0, 0, false, 0, 0)), seq(NMLFQ, i => []), 0, 1, seq(NPROC, i => 0), 0)
  }

  function PidsOf(procs: seq<Proc>): seq<int> {
    seq(|procs|, i requires 0 <= i < |procs| => procs[i].pid)
  }

  function Pids(s: Sched): seq<int> {
    PidsOf(s.procs)
  }

  // ---------- the invariant

  ghost predicate Shape(s: Sched) {
    |s.procs| == NPROC && |s.queues| == NMLFQ && |s.pushedAt| == NPROC && s.nextpid >= 1
  }

  ghost predicate ProcOk(s: Sched, p: nat)
    requires Shape(s) && p < NPROC
  {
    var x := s.procs[p];
    && x.level < NMLFQ
    && (x.inQueue ==> x.state.Runnable? && p in s.queues[x.level])
    && (!x.state.Unused? ==> 1 <= x.pid < s.nextpid)
    && s.pushedAt[p] < s.pushes + 1
  }

  /** Entry i of queue l is a waiting process of that level, and later entries were pushed later. */
  ghost predicate EntryOk(s: Sched, l: nat, i: nat)
    requires Shape(s) && l < NMLFQ && i < |s.queues[l]|
  {
    var p := s.queues[l][i];
    && p < NPROC && s.procs[p].inQueue && s.procs[p].level == l
    && s.pushedAt[p] < s.pushes
    && (forall j :: i < j < |s.queues[l]| && s.queues[l][j] < NPROC ==> s.pushedAt[p] < s.pushedAt[s.queues[l][j]])
  }

  ghost predicate PidsDiffer(s: Sched)
    requires Shape(s)
  {
    forall p, q :: 0 <= p < q < NPROC && !s.procs[p].state.Unused? && !s.procs[q].state.Unused? ==>
      s.procs[p].pid != s.procs[q].pid
  }

  ghost predicate Inv(s: Sched) {
    && Shape(s)
    && (forall p :: 0 <= p < NPROC ==> ProcOk(s, p))
    && (forall l, i :: 0 <= l < NMLFQ && 0 <= i < |s.queues[l]| ==> EntryOk(s, l, i))
    && PidsDiffer(s)
  }

  // ---------- the scheduler, one process at a time

  /** `ticks - p->q_enter >= AGETICK` in unsigned arithmetic. */
  predicate Aged(ticks: nat, x: Proc) {
    (ticks - x.qEnter) % UINT >= AGETICK
  }

  /** The body of ageing()'s loop for process p. */
  function AgeOne(s: Sched, p: nat): Sched
    requires Inv(s) && p < NPROC
  {
    var x := s.procs[p];
    if x.state.Runnable? && Aged(s.ticks, x) then
      var l := x.level;
      assert ProcOk(s, p);
      var up := x.(inQueue := false, level := if l != 0 then l - 1 else 0, qEnter := s.ticks);
      s.(procs := s.procs[p := up],
         queues := if x.inQueue then
                     QueueDistinct(s, l);
                     s.queues[l := Erased(s.queues[l], Pids(s), x.pid)]
                   else s.queues)
    else s
  }

  /** The body of mlfq_scheduler's first loop: a runnable process that is in no queue is pushed. */
  function EnqueueOne(s: Sched, p: nat): Sched
    requires Inv(s) && p < NPROC
  {
    var x := s.procs[p];
    assert ProcOk(s, p);
    if x.state.Runnable? && !x.inQueue then
      s.(procs := s.procs[p := x.(inQueue := true)],
         queues := s.queues[x.level := s.queues[x.level] + [p]],
         pushedAt := s.pushedAt[p := s.pushes],
         pushes := s.pushes + 1)
    else s
  }

  lemma QueueDistinct(s: Sched, l: nat)
    requires Inv(s) && l < NMLFQ
    ensures forall i, j :: 0 <= i < j < |s.queues[l]| ==> s.queues[l][i] != s.queues[l][j]
    ensures DistinctPids(s.queues[l], Pids(s))
  {
    var q := s.queues[l];
    forall i, j | 0 <= i < j < |q|
      ensures q[i] != q[j] && q[i] < NPROC && q[j] < NPROC && Pids(s)[q[i]] != Pids(s)[q[j]]
    {
      assert EntryOk(s, l, i) && EntryOk(s, l, j);
      assert ProcOk(s, q[i]) && ProcOk(s, q[j]);
    }
    forall i | 0 <= i < |q|
      ensures q[i] < NPROC
    {
      assert EntryOk(s, l, i);
    }
  }

  /** A process that is marked as queued sits at exactly one place, in the queue of its level. */
  lemma EraseOfQueued(s: Sched, p: nat) returns (k: nat)
    requires Inv(s) && p < NPROC && s.procs[p].inQueue
    ensures s.procs[p].level < NMLFQ
    ensures var q := s.queues[s.procs[p].level];
      && k < |q| && q[k] == p
      && (forall i :: 0 <= i < |q| ==> q[i] < |Pids(s)|)
      && Erased(q, Pids(s), s.procs[p].pid) == Finite.Without(q, k)
  {
    assert ProcOk(s, p);
    var l := s.procs[p].level;
    k :| 0 <= k < |s.queues[l]| && s.queues[l][k] == p;
    QueueDistinct(s, l);
    FoundAt(s.queues[l], Pids(s), s.procs[p].pid, k);
  }

  /** Taking entry k out of a queue keeps the other entries in order. */
  lemma WithoutKeepsEntries(s: Sched, s': Sched, l: nat, k: nat, i: nat)
    requires Inv(s) && Shape(s') && l < NMLFQ && k < |s.queues[l]|
    requires s'.queues[l] == Finite.Without(s.queues[l], k) && i < |s'.queues[l]|
    requires s'.pushedAt == s.pushedAt && s'.pushes == s.pushes
    requires forall p :: 0 <= p < NPROC && p != s.queues[l][k] ==> s'.procs[p] == s.procs[p]
    ensures EntryOk(s', l, i)
  {
    QueueDistinct(s, l);
    hide Inv;
    var q, q' := s.queues[l], s'.queues[l];
    assert forall j :: 0 <= j < |q'| ==> q'[j] == q[if j < k then j else j + 1];
    assert EntryOk(s, l, if i < k then i else i + 1) by { EntryIn(s, l, if i < k then i else i + 1); }
  }

  lemma EntryIn(s: Sched, l: nat, i: nat)
    requires Inv(s) && l < NMLFQ && i < |s.queues[l]|
    ensures EntryOk(s, l, i)
  {
  }

  lemma AgeKeepsEntries(s: Sched, p: nat, l: nat, i: nat)
    requires Inv(s) && p < NPROC && l < NMLFQ
    requires var s' := AgeOne(s, p); Shape(s') && i < |s'.queues[l]|
    ensures EntryOk(AgeOne(s, p), l, i)
  {
    var s' := AgeOne(s, p);
    var x := s.procs[p];
    if s' != s && x.inQueue && l == x.level {
      var k := EraseOfQueued(s, p);
      WithoutKeepsEntries(s, s', l, k, i);
    } else {
      assert EntryOk(s, l, i);
    }
  }

  lemma AgeKeepsInv(s: Sched, p: nat)
    requires Inv(s) && p < NPROC
    ensures Inv(AgeOne(s, p))
  {
    var s' := AgeOne(s, p);
    var x := s.procs[p];
    assert ProcOk(s, p);
    if s' != s {
      forall r | 0 <= r < NPROC
        ensures ProcOk(s', r)
      {
        assert ProcOk(s, r);
        if x.inQueue && r != p && s.procs[r].inQueue && s.procs[r].level == x.level {
          var k := EraseOfQueued(s, p);
          var q := s.queues[x.level];
          var j :| 0 <= j < |q| && q[j] == r;
          assert Finite.Without(q, k)[if j < k then j else j - 1] == r;
        }
      }
      forall l, i | 0 <= l < NMLFQ && 0 <= i < |s'.queues[l]|
        ensures EntryOk(s', l, i)
      {
        AgeKeepsEntries(s, p, l, i);
      }
    }
  }

  lemma EnqueueKeepsInv(s: Sched, p: nat)
    requires Inv(s) && p < NPROC
    ensures Inv(EnqueueOne(s, p))
  {
    var s' := EnqueueOne(s, p);
    if s' != s {
      var x := s.procs[p];
      assert ProcOk(s, p);
      forall r | 0 <= r < NPROC
        ensures ProcOk(s', r)
      {
        assert ProcOk(s, r);
        if r == p {
          assert s'.queues[x.level][|s.queues[x.level]|] == p;
        } else if s.procs[r].inQueue {
          var j :| 0 <= j < |s.queues[s.procs[r].level]| && s.queues[s.procs[r].level][j] == r;
          assert s'.queues[s.procs[r].level][j] == r;
        }
      }
      forall l, i | 0 <= l < NMLFQ && 0 <= i < |s'.queues[l]|
        ensures EntryOk(s', l, i)
      {
        if i < |s.queues[l]| {
          assert EntryOk(s, l, i);
          assert s.queues[l][i] != p;
        }
      }
    }
  }

  // ---------- the scheduler's loops

  /** ageing() after processes 0..n-1. */
  function AgeUpto(s: Sched, n: nat): (r: Sched)
    requires Inv(s) && n <= NPROC
    ensures Inv(r)
  {
    if n == 0 then s
    else
      var t := AgeUpto(s, n - 1);
      AgeKeepsInv(t, n - 1);
      AgeOne(t, n - 1)
  }

  function EnqueueUpto(s: Sched, n: nat): (r: Sched)
    requires Inv(s) && n <= NPROC
    ensures Inv(r)
  {
    if n == 0 then s
    else
      var t := EnqueueUpto(s, n - 1);
      EnqueueKeepsInv(t, n - 1);
      EnqueueOne(t, n - 1)
  }

  /** The first level from l on whose queue is not empty, or NMLFQ. */
  function FirstBusy(queues: seq<seq<nat>>, l: nat): (r: nat)
    requires l <= |queues|
    ensures l <= r <= |queues|
    ensures forall m :: l <= m < r ==> queues[m] == []
    ensures r < |queues| ==> queues[r] != []
    decreases |queues| - l
  {
    if l == |queues| || queues[l] != [] then l else FirstBusy(queues, l + 1)
  }

  /** pop(&mlfq[l]) with the bookkeeping of mlfq_scheduler's second loop. */
  function Take(s: Sched, l: nat): Sched
    requires Inv(s) && l < NMLFQ && s.queues[l] != []
  {
    assert EntryOk(s, l, 0);
    var p := s.queues[l][0];
    s.(procs := s.procs[p := s.procs[p].(inQueue := false, qEnter := s.ticks)], queues := s.queues[l := s.queues[l][1..]])
  }

  datatype Pick = Nothing | Chosen(p: nat)

  /** The state in which mlfq_scheduler makes its choice. */
  function Prepared(s: Sched): (r: Sched)
    requires Inv(s)
    ensures Inv(r)
  {
    EnqueueUpto(AgeUpto(s, NPROC), NPROC)
  }

  function Choice(s: Sched): (c: Pick)
    requires Inv(s)
    ensures c.Chosen? ==> c.p < NPROC
  {
    var l := FirstBusy(s.queues, 0);
    if l == NMLFQ then Nothing else
      assert EntryOk(s, l, 0);
      Chosen(s.queues[l][0])
  }

  function AfterChoice(s: Sched): Sched
    requires Inv(s)
  {
    var l := FirstBusy(s.queues, 0);
    if l == NMLFQ then s else Take(s, l)
  }

  /** scheduler()'s dispatch of the process it was given. */
  function Dispatch(s: Sched, p: nat): Sched
    requires Shape(s) && p < NPROC
  {
    var x := s.procs[p];
    s.(procs := s.procs[p := x.(state := Running, changeQueue := Power(x.level), qEnter := s.ticks)])
  }

  /** 1 << level. */
  function Power(n: nat): nat {
    if n == 0 then 1 else 2 * Power(n - 1)
  }

  function Schedule(s: Sched): Sched
    requires Inv(s)
  {
    var t := Prepared(s);
    var c := Choice(t);
    if c.Nothing? then t else Dispatch(AfterChoice(t), c.p)
  }

  lemma TakeKeeps(s: Sched, l: nat)
    requires Inv(s) && l < NMLFQ && s.queues[l] != []
    ensures s.queues[l][0] < NPROC && Shape(Take(s, l))
    ensures Inv(Dispatch(Take(s, l), s.queues[l][0])) && Inv(Take(s, l))
  {
    assert EntryOk(s, l, 0);
    QueueDistinct(s, l);
    var p := s.queues[l][0];
    assert ProcOk(s, p);
    var mid := Take(s, l);
    var s' := Dispatch(mid, p);
    forall r | 0 <= r < NPROC
      ensures ProcOk(mid, r) && ProcOk(s', r)
    {
      assert ProcOk(s, r);
      if r != p && s.procs[r].inQueue && s.procs[r].level == l {
        var j :| 0 <= j < |s.queues[l]| && s.queues[l][j] == r;
        assert s.queues[l][1..][j - 1] == r;
      }
    }
    forall m, i | 0 <= m < NMLFQ && 0 <= i < |mid.queues[m]|
      ensures EntryOk(mid, m, i) && EntryOk(s', m, i)
    {
      assert EntryOk(s, m, if m == l then i + 1 else i);
      assert m == l ==> mid.queues[m][i] == s.queues[l][i + 1];
      assert mid.queues[m][i] != p;
    }
  }

  lemma ScheduleKeepsInv(s: Sched)
    requires Inv(s)
    ensures Inv(Schedule(s))
  {
    var t := Prepared(s);
    var l := FirstBusy(t.queues, 0);
    if l < NMLFQ {
      TakeKeeps(t, l);
    }
  }

  // ---------- what the choice means

  /** The loops only touch levels, queues and entry times. */
  lemma {:induction false} AgeKeepsStates(s: Sched, n: nat)
    requires Inv(s) && n <= NPROC
    ensures forall p :: 0 <= p < NPROC ==> AgeUpto(s, n).procs[p].state == s.procs[p].state
    ensures AgeUpto(s, n).ticks == s.ticks
  {
    if n > 0 {
      AgeKeepsStates(s, n - 1);
      assert ProcOk(AgeUpto(s, n - 1), n - 1);
    }
  }

  lemma {:induction false} EnqueueKeepsStates(s: Sched, n: nat)
    requires Inv(s) && n <= NPROC
    ensures forall p :: 0 <= p < NPROC ==>
      EnqueueUpto(s, n).procs[p].state == s.procs[p].state && EnqueueUpto(s, n).procs[p].level == s.procs[p].level
    ensures EnqueueUpto(s, n).ticks == s.ticks
    ensures forall p :: 0 <= p < n && s.procs[p].state.Runnable? ==> EnqueueUpto(s, n).procs[p].inQueue
  {
    if n > 0 {
      EnqueueKeepsStates(s, n - 1);
      assert ProcOk(EnqueueUpto(s, n - 1), n - 1);
    }
  }

  /** mlfq_scheduler returns null exactly when nothing is RUNNABLE; otherwise it returns a RUNNABLE
      process of least level after ageing that was pushed before every other one of that level. */
  lemma SelectionCorrect(s: Sched)
    requires Inv(s)
    ensures var t := Prepared(s); var c := Choice(t);
      && (c.Nothing? <==> forall p :: 0 <= p < NPROC ==> !s.procs[p].state.Runnable?)
      && (c.Chosen? ==>
            && s.procs[c.p].state.Runnable?
            && forall p :: 0 <= p < NPROC && s.procs[p].state.Runnable? && p != c.p ==>
                 || t.procs[c.p].level < t.procs[p].level
                 || (t.procs[c.p].level == t.procs[p].level && t.pushedAt[c.p] < t.pushedAt[p]))
  {
    var a := AgeUpto(s, NPROC);
    var t := Prepared(s);
    AgeKeepsStates(s, NPROC);
    EnqueueKeepsStates(a, NPROC);
    var l := FirstBusy(t.queues, 0);
    assert l < NMLFQ ==> EntryOk(t, l, 0);
    forall p | 0 <= p < NPROC && s.procs[p].state.Runnable?
      ensures l < NMLFQ && l <= t.procs[p].level
      ensures t.procs[p].level == l && p != t.queues[l][0] ==> t.pushedAt[t.queues[l][0]] < t.pushedAt[p]
    {
      assert t.procs[p].inQueue && ProcOk(t, p);
      var q := t.queues[t.procs[p].level];
      var j :| 0 <= j < |q| && q[j] == p;
      assert q != [];
      if t.procs[p].level == l {
        assert EntryOk(t, l, 0) && EntryOk(t, l, j);
      }
    }
    if l < NMLFQ {
      assert EntryOk(t, l, 0);
      assert ProcOk(t, t.queues[l][0]);
    }
  }

  // ---------- everything else that happens to processes

  datatype Event =
    | Alloc(p: nat)        // allocproc: UNUSED to USED with a new pid; level is inherited from the slot
    | Ready(p: nat)        // fork, userinit: USED to RUNNABLE
    | Wake(p: nat)         // wakeup, kill: SLEEPING to RUNNABLE
    | Sleep(p: nat)        // RUNNING to SLEEPING
    | Exit(p: nat)         // RUNNING to ZOMBIE
    | Free(p: nat)         // freeproc: back to UNUSED
    | Yield(p: nat)        // RUNNING to RUNNABLE
    | Timer(p: nat)        // timer interrupt while p runs: demote and yield when its slice is used up
    | Tick                 // clockintr
    | RunScheduler

  predicate Enabled(s: Sched, e: Event)
    requires Shape(s)
  {
    match e
    case Alloc(p) => p < NPROC && s.procs[p].state.Unused?
    case Ready(p) => p < NPROC && s.procs[p].state.Used?
    case Wake(p) => p < NPROC && s.procs[p].state.Sleeping?
    case Sleep(p) => p < NPROC && s.procs[p].state.Running?
    case Exit(p) => p < NPROC && s.procs[p].state.Running?
    case Free(p) => p < NPROC && (s.procs[p].state.Zombie? || s.procs[p].state.Used?)
    case Yield(p) => p < NPROC && s.procs[p].state.Running?
    case Timer(p) => p < NPROC && s.procs[p].state.Running?
    case Tick => true
    case RunScheduler => forall p :: 0 <= p < NPROC ==> !s.procs[p].state.Running?
  }

  function SetProc(s: Sched, p: nat, x: Proc): Sched
    requires Shape(s) && p < NPROC
  {
    s.(procs := s.procs[p := x])
  }

  /** The MLFQ part of usertrap and kerneltrap. */
  function Timed(x: Proc): Proc {
    if x.changeQueue <= 0 then
      x.(level := if x.level + 1 != NMLFQ then x.level + 1 else x.level, state := Runnable)
    else x
  }

  /** clockintr counts down the slice of the running process. */
  function Counted(x: Proc): Proc {
    if x.state.Running? then x.(changeQueue := x.changeQueue - 1) else x
  }

  function Step(s: Sched, e: Event): Sched
    requires Inv(s) && Enabled(s, e)
  {
    match e
    case Alloc(p) => SetProc(s, p, s.procs[p].(state := Used, pid := s.nextpid)).(nextpid := s.nextpid + 1)
    case Ready(p) => SetProc(s, p, s.procs[p].(state := Runnable))
    case Wake(p) => SetProc(s, p, s.procs[p].(state := Runnable))
    case Sleep(p) => SetProc(s, p, s.procs[p].(state := Sleeping))
    case Exit(p) => SetProc(s, p, s.procs[p].(state := Zombie))
    case Free(p) => SetProc(s, p, s.procs[p].(state := Unused, pid := 0))
    case Yield(p) => SetProc(s, p, s.procs[p].(state := Runnable))
    case Timer(p) => SetProc(s, p, Timed(s.procs[p]))
    case Tick => s.(ticks := s.ticks + 1, procs := seq(NPROC, i requires 0 <= i < NPROC => Counted(s.procs[i])))
    case RunScheduler => Schedule(s)
  }

  /** A process outside the queues may change its state, level and pid freely. */
  lemma SetProcKeepsInv(s: Sched, p: nat, x: Proc, nextpid: nat)
    requires Inv(s) && p < NPROC && !s.procs[p].inQueue && !x.inQueue && x.level < NMLFQ && s.nextpid <= nextpid
    requires !x.state.Unused? ==> 1 <= x.pid < nextpid
    requires !x.state.Unused? && x.pid < s.nextpid ==> x.pid == s.procs[p].pid && !s.procs[p].state.Unused?
    ensures Inv(SetProc(s, p, x).(nextpid := nextpid))
  {
    var s' := SetProc(s, p, x).(nextpid := nextpid);
    forall r | 0 <= r < NPROC
      ensures ProcOk(s', r)
    {
      assert ProcOk(s, r);
    }
    forall l, i | 0 <= l < NMLFQ && 0 <= i < |s'.queues[l]|
      ensures EntryOk(s', l, i)
    {
      assert EntryOk(s, l, i);
    }
    forall a, b | 0 <= a < b < NPROC && !s'.procs[a].state.Unused? && !s'.procs[b].state.Unused?
      ensures s'.procs[a].pid != s'.procs[b].pid
    {
      assert ProcOk(s, a) && ProcOk(s, b);
    }
  }

  lemma TickKeepsInv(s: Sched)
    requires Inv(s)
    ensures Inv(Step(s, Tick))
  {
    var s' := Step(s, Tick);
    forall r | 0 <= r < NPROC
      ensures ProcOk(s', r)
    {
      assert ProcOk(s, r);
    }
    forall l, i | 0 <= l < NMLFQ && 0 <= i < |s'.queues[l]|
      ensures EntryOk(s', l, i)
    {
      assert EntryOk(s, l, i);
    }
  }

  lemma StepKeepsInv(s: Sched, e: Event)
    requires Inv(s) && Enabled(s, e)
    ensures Inv(Step(s, e))
  {
    match e
    case Tick => TickKeepsInv(s);
    case RunScheduler => ScheduleKeepsInv(s);
    case Alloc(p) =>
      assert ProcOk(s, p);
      SetProcKeepsInv(s, p, s.procs[p].(state := Used, pid := s.nextpid), s.nextpid + 1);
    case _ => MoveKeepsInv(s, e);
  }

  lemma MoveKeepsInv(s: Sched, e: Event)
    requires Inv(s) && !e.Tick? && !e.RunScheduler? && !e.Alloc? && Enabled(s, e)
    ensures Inv(Step(s, e))
  {
    assert ProcOk(s, e.p);
    var x := Step(s, e).procs[e.p];
    SetProcKeepsInv(s, e.p, x, s.nextpid);
    assert Step(s, e) == SetProc(s, e.p, x).(nextpid := s.nextpid);
  }

  datatype Outcome = Stopped | Reached(state: Sched)

  /** The state after a sequence of events. */
  ghost function Run(es: seq<Event>): Outcome
    decreases |es|
  {
    if es == [] then Reached(Boot())
    else
      var n := |es| - 1;
      var before := Run(es[..n]);
      if before.Reached? && Inv(before.state) && Enabled(before.state, es[n])
      then Reached(Step(before.state, es[n]))
      else Stopped
  }

  lemma {:induction false} RunKeepsInv(es: seq<Event>, s: Sched)
    requires Run(es) == Reached(s)
    ensures Inv(s)
    decreases |es|
  {
    if es != [] {
      var n := |es| - 1;
      RunKeepsInv(es[..n], Run(es[..n]).state);
      StepKeepsInv(Run(es[..n]).state, es[n]);
    } else {
      BootInv();
    }
  }

  lemma BootInv()
    ensures Inv(Boot())
  {
    forall p | 0 <= p < NPROC
      ensures ProcOk(Boot(), p)
    {
    }
  }

  /** Process p is at position i of queue l. */
  predicate At(s: Sched, p: nat, l: nat, i: nat) {
    l < |s.queues| && i < |s.queues[l]| && s.queues[l][i] == p
  }

  /** In every reachable state in_queue holds exactly for the processes that are in some queue;
      such a process is RUNNABLE and occurs once, in the queue of its own level. */
  lemma MembershipExact(es: seq<Event>, s: Sched, p: nat)
    requires Run(es) == Reached(s) && p < NPROC
    ensures Inv(s)
    ensures s.procs[p].level < NMLFQ
    ensures s.procs[p].inQueue <==> exists l, i :: At(s, p, l, i)
    ensures forall l, i :: At(s, p, l, i) ==> s.procs[p].state.Runnable? && l == s.procs[p].level
    ensures forall l, i, m, j :: At(s, p, l, i) && At(s, p, m, j) ==> l == m && i == j
  {
    RunKeepsInv(es, s);
    assert ProcOk(s, p);
    forall l, i | At(s, p, l, i)
      ensures s.procs[p].inQueue && s.procs[p].state.Runnable? && l == s.procs[p].level
    {
      assert EntryOk(s, l, i);
    }
    if s.procs[p].inQueue {
      var k :| 0 <= k < |s.queues[s.procs[p].level]| && s.queues[s.procs[p].level][k] == p;
      assert At(s, p, s.procs[p].level, k);
    }
    forall l, i, m, j | At(s, p, l, i) && At(s, p, m, j)
      ensures l == m && i == j
    {
      QueueDistinct(s, s.procs[p].level);
    }
  }

  // ---------- push never panics

  /** Whenever the scheduler pushes a process, its queue has room. */
  lemma PushHasRoom(s: Sched, p: nat)
    requires Inv(s) && p < NPROC && !s.procs[p].inQueue
    ensures s.procs[p].level < NMLFQ && |s.queues[s.procs[p].level]| < NPROC
  {
    assert ProcOk(s, p);
    var l := s.procs[p].level;
    var q := s.queues[l];
    QueueDistinct(s, l);
    forall i | 0 <= i < |q|
      ensures q[i] < NPROC && q[i] != p
    {
      assert EntryOk(s, l, i);
    }
    Finite.DistinctBound(q, NPROC, p);
  }

  // ---------- what the README promises about waking processes

  lemma {:induction false} AgeEffect(s: Sched, n: nat, p: nat)
    requires Inv(s) && n <= NPROC && p < NPROC && s.procs[p].state.Runnable? && !s.procs[p].inQueue
    ensures var x, y := s.procs[p], AgeUpto(s, n).procs[p];
      && y.state.Runnable? && !y.inQueue
      && y == if p < n && Aged(s.ticks, x) then x.(level := if x.level != 0 then x.level - 1 else 0, qEnter := s.ticks) else x
    ensures AgeUpto(s, n).pushes == s.pushes && AgeUpto(s, n).ticks == s.ticks
  {
    if n > 0 {
      AgeEffect(s, n - 1, p);
      assert ProcOk(AgeUpto(s, n - 1), n - 1);
    }
  }

  lemma {:induction false} EnqueueEffect(s: Sched, n: nat, p: nat)
    requires Inv(s) && n <= NPROC && p < NPROC && s.procs[p].state.Runnable? && !s.procs[p].inQueue
    ensures EnqueueUpto(s, n).procs[p].level == s.procs[p].level
    ensures EnqueueUpto(s, n).pushes >= s.pushes
    ensures if p < n then EnqueueUpto(s, n).procs[p].inQueue && EnqueueUpto(s, n).pushedAt[p] >= s.pushes
            else EnqueueUpto(s, n).procs[p] == s.procs[p]
  {
    if n > 0 {
      EnqueueEffect(s, n - 1, p);
      assert ProcOk(EnqueueUpto(s, n - 1), n - 1);
    }
  }

  /** A process that becomes ready again is put behind every process already waiting, but into the
      queue it left only if it is in the top queue or was dispatched less than AGETICK ticks ago;
      otherwise ageing moves it up first. */
  lemma ReturnsToItsQueue(s: Sched, p: nat)
    requires Inv(s) && p < NPROC && s.procs[p].state.Runnable? && !s.procs[p].inQueue
    ensures var t := Prepared(s);
      && t.procs[p].inQueue && t.pushedAt[p] >= s.pushes
      && (t.procs[p].level == s.procs[p].level <==> s.procs[p].level == 0 || !Aged(s.ticks, s.procs[p]))
      && (t.procs[p].level != s.procs[p].level ==> t.procs[p].level == s.procs[p].level - 1)
  {
    AgeEffect(s, NPROC, p);
    EnqueueEffect(AgeUpto(s, NPROC), NPROC, p);
  }

  // ---------- a process that does not return to its queue

  /** Process 0, with the given fields, is the only one; the queues are empty. */
  ghost predicate Lone(s: Sched, x: Proc) {
    && Inv(s) && s.procs[0] == x && !x.inQueue
    && (forall p :: 1 <= p < NPROC ==> s.procs[p].state.Unused?)
    && forall l :: 0 <= l < NMLFQ ==> s.queues[l] == []
  }

  lemma {:induction false} LoneAges(s: Sched, x: Proc, n: nat)
    requires Lone(s, x) && !Aged(s.ticks, x) && n <= NPROC
    ensures AgeUpto(s, n) == s
  {
    if n > 0 {
      LoneAges(s, x, n - 1);
    }
  }

  lemma {:induction false} LoneEnqueues(s: Sched, x: Proc, n: nat)
    requires Lone(s, x) && x.state.Runnable? && 1 <= n <= NPROC
    ensures EnqueueUpto(s, n) == EnqueueOne(s, 0)
  {
    if n > 1 {
      LoneEnqueues(s, x, n - 1);
    } else {
      assert EnqueueUpto(s, 0) == s;
    }
  }

  /** The scheduler dispatches the only runnable process. */
  lemma LoneSchedules(s: Sched, x: Proc)
    requires Lone(s, x) && x.state.Runnable? && !Aged(s.ticks, x)
    ensures Lone(Schedule(s), x.(state := Running, changeQueue := Power(x.level), qEnter := s.ticks))
    ensures Schedule(s).ticks == s.ticks
  {
    LoneAges(s, x, NPROC);
    LoneEnqueues(s, x, NPROC);
    ScheduleKeepsInv(s);
    assert ProcOk(s, 0);
    var t := EnqueueOne(s, 0);
    assert t.queues[x.level] == [0] && forall l :: 0 <= l < NMLFQ && l != x.level ==> t.queues[l] == [];
    assert FirstBusy(t.queues, 0) == x.level;
    assert t.queues[x.level][1..] == [];
  }

  lemma LoneTicks(s: Sched, x: Proc)
    requires Lone(s, x)
    ensures Lone(Step(s, Tick), Counted(x)) && Step(s, Tick).ticks == s.ticks + 1
  {
    TickKeepsInv(s);
  }

  lemma LoneMoves(s: Sched, x: Proc, e: Event, y: Proc)
    requires Lone(s, x) && Enabled(s, e) && (e == Timer(0) || e == Sleep(0) || e == Wake(0))
    requires y == if e.Timer? then Timed(x) else x.(state := if e.Sleep? then Sleeping else Runnable)
    ensures Lone(Step(s, e), y) && Step(s, e).ticks == s.ticks
  {
    StepKeepsInv(s, e);
  }

  lemma Extend(es: seq<Event>, s: Sched, e: Event)
    requires Run(es) == Reached(s) && Inv(s) && Enabled(s, e)
    ensures Run(es + [e]) == Reached(Step(s, e))
  {
    assert (es + [e])[..|es|] == es;
  }

  /** A sleeping process 0 stays as it is while n ticks go by. */
  lemma {:induction false} SleepOn(es: seq<Event>, s: Sched, x: Proc, n: nat) returns (es': seq<Event>, s': Sched)
    requires Run(es) == Reached(s) && Lone(s, x) && x.state.Sleeping?
    ensures Run(es') == Reached(s') && Lone(s', x) && s'.ticks == s.ticks + n
  {
    hide Lone, Run, Inv, Aged;
    if n == 0 {
      es', s' := es, s;
    } else {
      es', s' := SleepOn(es, s, x, n - 1);
      LoneInv(s', x);
      Extend(es', s', Tick);
      LoneTicks(s', x);
      es', s' := es' + [Tick], Step(s', Tick);
    }
  }

  lemma LoneInv(s: Sched, x: Proc)
    requires Lone(s, x)
    ensures Inv(s) && Shape(s) && s.procs[0] == x && !x.inQueue
  {
  }

  /** The first process of the machine, demoted once, on its second turn. */
  lemma SecondTurn() returns (es: seq<Event>, s: Sched, x: Proc)
    ensures Run(es) == Reached(s) && Lone(s, x) && x.state.Running? && x.level == 1 && x.qEnter == s.ticks
  {
    hide Run, Inv, Lone, Schedule;
    var s1, x1 := FirstProcess();
    es := [Alloc(0), Ready(0)];
    LoneSchedules(s1, x1);
    LoneInv(s1, x1);
    Extend(es, s1, RunScheduler) by { OnlyOne(s1, x1); }
    var s2, x2 := Schedule(s1), x1.(state := Running, changeQueue := Power(x1.level), qEnter := s1.ticks);
    LoneInv(s2, x2);
    Extend(es + [RunScheduler], s2, Tick);
    LoneTicks(s2, x2);
    var s3, x3 := Step(s2, Tick), Counted(x2);
    LoneInv(s3, x3);
    Extend(es + [RunScheduler] + [Tick], s3, Timer(0));
    var s4, x4 := Step(s3, Timer(0)), Timed(x3);
    LoneMoves(s3, x3, Timer(0), x4);
    LoneInv(s4, x4);
    LoneSchedules(s4, x4);
    Extend(es + [RunScheduler] + [Tick] + [Timer(0)], s4, RunScheduler) by { OnlyOne(s4, x4); }
    es := es + [RunScheduler] + [Tick] + [Timer(0)] + [RunScheduler];
    s, x := Schedule(s4), x4.(state := Running, changeQueue := Power(x4.level), qEnter := s4.ticks);
  }

  lemma OnlyOne(s: Sched, x: Proc)
    requires Lone(s, x) && !x.state.Running?
    ensures Enabled(s, RunScheduler)
  {
  }

  lemma FirstProcess() returns (s: Sched, x: Proc)
    ensures Run([Alloc(0), Ready(0)]) == Reached(s) && Lone(s, x)
    ensures x.state.Runnable? && x.level == 0 && x.qEnter == 0 && s.ticks == 0
  {
    BootInv();
    var b := Boot();
    StepKeepsInv(b, Alloc(0));
    var s1 := Step(b, Alloc(0));
    StepKeepsInv(s1, Ready(0));
    s := Step(s1, Ready(0));
    x := s.procs[0];
    Extend([], b, Alloc(0));
    Extend([Alloc(0)], s1, Ready(0));
    assert [] + [Alloc(0)] == [Alloc(0)] && [Alloc(0)] + [Ready(0)] == [Alloc(0), Ready(0)];
  }

  /** A run in which a process sleeps at level 1 for AGETICK ticks, wakes, and is queued at level 0. */
  lemma SleeperChangesQueue() returns (es: seq<Event>, s: Sched)
    ensures Run(es) == Reached(s) && Inv(s)
    ensures s.procs[0].state.Runnable? && !s.procs[0].inQueue && s.procs[0].level == 1
    ensures Prepared(s).procs[0].inQueue && Prepared(s).procs[0].level == 0
  {
    hide Run, Inv, Lone, Prepared;
    var es1, s1, x1 := SecondTurn();
    LoneInv(s1, x1);
    Extend(es1, s1, Sleep(0));
    var s2, x2 := Step(s1, Sleep(0)), x1.(state := Sleeping);
    LoneMoves(s1, x1, Sleep(0), x2);
    var es3, s3 := SleepOn(es1 + [Sleep(0)], s2, x2, AGETICK);
    LoneInv(s3, x2);
    Extend(es3, s3, Wake(0));
    es, s := es3 + [Wake(0)], Step(s3, Wake(0));
    var x := x2.(state := Runnable);
    LoneMoves(s3, x2, Wake(0), x);
    LoneInv(s, x);
    ReturnsToItsQueue(s, 0);
  }
}
