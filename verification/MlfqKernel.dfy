/** ageing() and mlfq_scheduler() (kernel/proc.c) over the process table and five real queues. */
module MlfqKernel {
  import opened ProcState
  import opened Queue
  import opened Mlfq
  import opened MlfqTheorems

  class Kernel {
    var proc: seq<Proc>
    const mlfq: seq<ProcQueue>
    var ticks: nat
    ghost var nextpid: nat
    ghost var pushedAt: seq<nat>
    ghost var pushes: nat

    ghost predicate Separate()
    {
      && |mlfq| == NMLFQ
      && (forall l, m :: 0 <= l < m < NMLFQ ==> mlfq[l] != mlfq[m] && mlfq[l].slot != mlfq[m].slot)
    }

    ghost function Repr(): set<object>
    {
      (set q: ProcQueue | q in mlfq :: q as object) + (set q: ProcQueue | q in mlfq :: q.slot as object)
    }

    ghost predicate QueuesValid()
      reads Repr()
    {
      Separate() && forall l :: 0 <= l < NMLFQ ==> mlfq[l].Valid()
    }

    ghost function Queues(): (qs: seq<seq<nat>>)
      reads Repr()
      requires QueuesValid()
      ensures |qs| == NMLFQ && forall l :: 0 <= l < NMLFQ ==> qs[l] == mlfq[l].Contents()
    {
      [mlfq[0].Contents(), mlfq[1].Contents(), mlfq[2].Contents(), mlfq[3].Contents(), mlfq[4].Contents()]
    }

    ghost function View(): Sched
      reads this, Repr()
      requires QueuesValid()
    {
      Sched(proc, Queues(), ticks, nextpid, pushedAt, pushes)
    }

    ghost predicate Valid()
      reads this, Repr()
    {
      QueuesValid() && Inv(View())
    }

    /** The kernel at boot: a zeroed process table over five empty queues. */
    constructor (qs: seq<ProcQueue>)
      requires |qs| == NMLFQ && forall l :: 0 <= l < NMLFQ ==> qs[l].Valid() && qs[l].Contents() == []
      requires forall l, m :: 0 <= l < m < NMLFQ ==> qs[l] != qs[m] && qs[l].slot != qs[m].slot
      ensures mlfq == qs && Valid() && View() == Boot()
    {
      proc := Boot().procs;
      mlfq := qs;
      ticks, nextpid, pushedAt, pushes := 0, 1, Boot().pushedAt, 0;
      new;
      assert Queues() == Boot().queues;
      BootInv();
    }

    /** push(&mlfq[l], p): only that queue changes, and there is room. */
    method PushOn(l: nat, p: nat)
      requires QueuesValid() && l < NMLFQ && |Queues()[l]| < NPROC
      modifies Repr()
      ensures QueuesValid() && Queues() == old(Queues())[l := old(Queues())[l] + [p]]
    {
      hide Queues;
      var panicked := mlfq[l].Push(p);
      assert forall m :: 0 <= m < NMLFQ && m != l ==> mlfq[m].Contents() == old(mlfq[m].Contents());
    }

    method EraseFrom(l: nat, pid: int, pids: seq<int>)
      requires QueuesValid() && l < NMLFQ && Queues()[l] != [] && DistinctPids(Queues()[l], pids)
      modifies Repr()
      ensures QueuesValid() && Queues() == old(Queues())[l := Erased(old(Queues())[l], pids, pid)]
    {
      hide Erased, DistinctPids, Queues;
      mlfq[l].Qerase(pid, pids);
      assert forall m :: 0 <= m < NMLFQ && m != l ==> mlfq[m].Contents() == old(mlfq[m].Contents());
    }

    /** pop(&mlfq[l]) after front(&mlfq[l]). */
    method TakeFrom(l: nat) returns (p: nat)
      requires QueuesValid() && l < NMLFQ && Queues()[l] != []
      modifies Repr()
      ensures QueuesValid() && Queues() == old(Queues())[l := old(Queues())[l][1..]]
      ensures p == old(Queues())[l][0]
    {
      hide Queues;
      var f := mlfq[l].Front();
      p := f.p;
      var panicked := mlfq[l].Pop();
      assert forall m :: 0 <= m < NMLFQ && m != l ==> mlfq[m].Contents() == old(mlfq[m].Contents());
    }

    /** The body of ageing()'s loop. */
    method AgeOneProc(p: nat)
      requires Valid() && p < NPROC
      modifies this, Repr()
      ensures Valid() && View() == AgeOne(old(View()), p) && AgedBy(old(View()), View(), p)
    {
      hide Inv, Aged, Erased, Queues, AgedBy;
      AgeFacts(View(), p);
      AgeOneExact(View(), p);
      var x := proc[p];
      if x.state.Runnable? && Aged(ticks, x) {
        if x.inQueue {
          EraseFrom(x.level, x.pid, PidsOf(proc));
        }
        proc := proc[p := x.(inQueue := false, level := if x.level != 0 then x.level - 1 else 0, qEnter := ticks)];
      }
    }

    /** ageing(): the loop over the process table. */
    method Ageing()
      requires Valid()
      modifies this, Repr()
      ensures Valid() && View() == AgeUpto(old(View()), NPROC) && AgedTo(old(View()), View(), NPROC)
    {
      hide Inv, AgeOne, Queues, AgedTo;
      ghost var s := View();
      var p := 0;
      while p < NPROC
        invariant p <= NPROC && Valid() && View() == AgeUpto(s, p)
      {
        AgeOneProc(p);
        p := p + 1;
      }
      AgeingExact(s, NPROC);
    }

    /** The body of mlfq_scheduler's first loop. */
    method EnqueueOneProc(p: nat)
      requires Valid() && p < NPROC
      modifies this, Repr()
      ensures Valid() && View() == EnqueueOne(old(View()), p)
    {
      hide Inv, Queues;
      EnqueueFacts(View(), p);
      var x := proc[p];
      if x.state.Runnable? && !x.inQueue {
        PushOn(x.level, p);
        proc := proc[p := x.(inQueue := true)];
        pushedAt := pushedAt[p := pushes];
        pushes := pushes + 1;
      }
    }

    method Enqueue()
      requires Valid()
      modifies this, Repr()
      ensures Valid() && View() == EnqueueUpto(old(View()), NPROC)
    {
      hide Inv, EnqueueOne, Queues;
      ghost var s := View();
      var p := 0;
      while p < NPROC
        invariant p <= NPROC && Valid() && View() == EnqueueUpto(s, p)
      {
        EnqueueOneProc(p);
        p := p + 1;
      }
    }

    /** mlfq_scheduler(): its inner loop ends in the first round, because every queued process is
        RUNNABLE; its push never panics. */
    method MlfqScheduler() returns (c: Pick)
      requires Valid()
      modifies this, Repr()
      ensures Valid() && c == Choice(Prepared(old(View()))) && View() == AfterChoice(Prepared(old(View())))
    {
      hide Inv, Queues, AgeUpto, EnqueueUpto, Choice, AfterChoice, AgedTo;
      Ageing();
      Enqueue();
      ghost var s := View();
      var level := 0;
      while level < NMLFQ
        invariant level <= NMLFQ && Valid() && View() == s
        invariant forall m :: 0 <= m < level ==> s.queues[m] == []
      {
        if mlfq[level].size != 0 {
          c := TakeAt(level, s);
          return;
        }
        level := level + 1;
      }
      c := Nothing;
      NothingQueued(s);
    }

    method TakeAt(level: nat, ghost s: Sched) returns (c: Pick)
      requires Valid() && View() == s && level < NMLFQ && mlfq[level].size != 0
      requires forall m :: 0 <= m < level ==> s.queues[m] == []
      modifies this, Repr()
      ensures Valid() && c == Choice(s) && View() == AfterChoice(s)
    {
      hide Inv, Queues;
      assert s.queues[level] != [];
      FirstBusyAt(s.queues, level);
      TakeFacts(s, level);
      var p := TakeFrom(level);
      assert proc[p].state.Runnable?;
      proc := proc[p := proc[p].(inQueue := false, qEnter := ticks)];
      assert View() == Take(s, level);
      c := Chosen(p);
    }
  }

  lemma NothingQueued(s: Sched)
    requires Inv(s) && forall m :: 0 <= m < NMLFQ ==> s.queues[m] == []
    ensures Choice(s) == Nothing && AfterChoice(s) == s
  {
    FirstBusyAt(s.queues, NMLFQ);
  }

  lemma AgeFacts(s: Sched, p: nat)
    requires Inv(s) && p < NPROC
    ensures Shape(s) && Inv(AgeOne(s, p)) && s.procs[p].level < NMLFQ
    ensures DistinctPids(s.queues[s.procs[p].level], Pids(s))
    ensures s.procs[p].inQueue ==> s.queues[s.procs[p].level] != []
  {
    AgeKeepsInv(s, p);
    assert ProcOk(s, p);
    QueueDistinct(s, s.procs[p].level);
  }

  lemma EnqueueFacts(s: Sched, p: nat)
    requires Inv(s) && p < NPROC
    ensures Shape(s) && Inv(EnqueueOne(s, p)) && s.procs[p].level < NMLFQ
    ensures !s.procs[p].inQueue ==> |s.queues[s.procs[p].level]| < NPROC
  {
    EnqueueKeepsInv(s, p);
    assert ProcOk(s, p);
    if !s.procs[p].inQueue {
      PushHasRoom(s, p);
    }
  }

  lemma TakeFacts(s: Sched, l: nat)
    requires Inv(s) && l < NMLFQ && s.queues[l] != []
    ensures Shape(s) && s.queues[l][0] < NPROC && s.procs[s.queues[l][0]].state.Runnable? && Inv(Take(s, l))
  {
    TakeKeeps(s, l);
    assert EntryOk(s, l, 0) && ProcOk(s, s.queues[l][0]);
  }

  lemma FirstBusyAt(queues: seq<seq<nat>>, l: nat)
    requires l <= |queues| && forall m :: 0 <= m < l ==> queues[m] == []
    requires l < |queues| ==> queues[l] != []
    ensures FirstBusy(queues, 0) == l
  {
  }
}
