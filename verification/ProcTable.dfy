/**
  wakeup(), reparent(), and the sections of exit() and wait() under wait_lock (kernel/proc.c), as
  loops over the process table.  The section of exit runs here without interference; module
  ExitWait interleaves its steps with those of other processes.
 */
module ProcTable {
  import opened ProcState
  import opened ExitWait

  /** The table after wakeup(channel of q) by process me. */
  function Woken(t: Table, me: nat, q: int): Table
  {
    if Has(t, q) && q != me then WakeOne(t, q, q) else t
  }

  /** Nobody else holds a p->lock. */
  ghost predicate NoPLocks(t: Table) {
    forall j :: 0 <= j < |t.procs| ==> !t.procs[j].pc.Window? && !t.procs[j].pc.Dying?
  }

  /** A child of p as reparent leaves it. */
  function Adopted(x: Proc, p: nat): Proc {
    if x.parent == p then x.(parent := INIT) else x
  }

  /** Process c after exiting p, now at pc, has looked at the first i slots; any: initproc was woken. */
  function GivenUp(was: seq<Proc>, p: nat, i: nat, any: bool, pc: Pc, c: int): Proc
    requires 0 <= c < |was|
  {
    var x := if c < i then Adopted(was[c], p) else was[c];
    if c == p then x.(pc := pc) else if c == INIT && any then Roused(x) else x
  }

  /** Process c after the look of p at slot i. */
  function Looked(was: seq<Proc>, p: nat, i: nat, c: int): Proc
    requires 0 <= c < |was| && i < |was|
  {
    var x := if c == i then Adopted(was[c], p) else was[c];
    if c == p then x.(pc := Reparenting(i + 1)) else if c == INIT && was[i].parent == p then Roused(x) else x
  }

  /** What wakeup makes of a process that sleeps in wait. */
  function Roused(x: Proc): Proc {
    if x.pc.Asleep? then x.(state := Runnable, pc := Awake) else x
  }

  lemma LooksStart(was: seq<Proc>, p: nat)
    requires p < |was| && was[p].pc == Reparenting(0)
    ensures forall c :: 0 <= c < |was| ==> was[c] == GivenUp(was, p, 0, false, Reparenting(0), c)
  {
  }

  lemma LooksMore(was: seq<Proc>, now: seq<Proc>, later: seq<Proc>, p: nat, i: nat, any: bool, any': bool)
    requires |was| == |now| == |later| && p < |was| && i < |was| && p != INIT
    requires forall c :: 0 <= c < |was| ==> now[c] == GivenUp(was, p, i, any, Reparenting(i), c)
    requires forall c :: 0 <= c < |was| ==> later[c] == Looked(now, p, i, c)
    requires any' == (any || was[i].parent == p)
    ensures forall c :: 0 <= c < |was| ==> later[c] == GivenUp(was, p, i + 1, any', Reparenting(i + 1), c)
    ensures later[p].pc == Reparenting(i + 1)
  {
    forall c | 0 <= c < |was|
      ensures later[c] == GivenUp(was, p, i + 1, any', Reparenting(i + 1), c)
    {
      assert now[c] == GivenUp(was, p, i, any, Reparenting(i), c);
      assert now[i] == GivenUp(was, p, i, any, Reparenting(i), i);
    }
  }

  lemma LooksEnd(was: seq<Proc>, now: seq<Proc>, p: nat, any: bool)
    requires |was| == |now| && p < |was|
    requires forall c :: 0 <= c < |was| ==> now[c] == GivenUp(was, p, |was|, any, Reparenting(|was|), c)
    ensures forall c :: 0 <= c < |was| ==>
      now[p := now[p].(pc := WakingParent(0))][c] == GivenUp(was, p, |was|, any, WakingParent(0), c)
    ensures forall c :: 0 <= c < |was| ==>
      now[p := now[p].(pc := WakingParent(0))][c].parent == if was[c].parent == p then INIT else was[c].parent
  {
  }

  lemma WokenKeepsInv(t: Table, me: nat, q: int)
    requires Inv(t) && Has(t, me) && t.procs[me].state.Running?
    ensures Inv(Woken(t, me, q)) && |Woken(t, me, q).procs| == |t.procs|
    ensures Woken(t, me, q).procs[me] == t.procs[me]
  {
    if Has(t, q) && q != me {
      WakeStep(t, me, q, q);
    }
  }

  lemma WokenIsAwake(t: Table, me: nat, q: int)
    requires NoPLocks(t) && q != me
    ensures !WaitAsleep(Woken(t, me, q), q)
  {
  }

  /** wakeup(initproc) as a whole, between two looks of reparent. */
  lemma WakeInitWhole(t: Table, p: nat, i: nat)
    requires Inv(t) && Has(t, p) && t.procs[p].pc == WakingInit(i, 0) && NoPLocks(t)
    ensures p != INIT && Has(Woken(t, p, INIT), p) && Inv(SetPc(Woken(t, p, INIT), p, Reparenting(i + 1)))
  {
    assert PcOk(t, p) && ExitOk(t, p, p);
    WokenKeepsInv(t, p, INIT);
    WokenIsAwake(t, p, INIT);
    var u := Woken(t, p, INIT);
    var t' := SetPc(u, p, Reparenting(i + 1));
    assert PcOk(u, p);
    forall c | 0 <= c < |t'.procs|
      ensures ExitOk(t', p, c)
    {
      assert ExitOk(u, p, c);
    }
    MoveStep(u, t', p);
  }

  /** wakeup(p->parent) as a whole. */
  lemma WakeParentWhole(t: Table, p: nat)
    requires Inv(t) && Has(t, p) && t.procs[p].pc == WakingParent(0) && NoPLocks(t)
    ensures Has(Woken(t, p, t.procs[p].parent), p)
    ensures Inv(SetPc(Woken(t, p, t.procs[p].parent), p, WakingParent(|t.procs|)))
  {
    var q := t.procs[p].parent;
    assert PcOk(t, p) && ExitOk(t, p, p) && ParentOk(t, p);
    WokenKeepsInv(t, p, q);
    WokenIsAwake(t, p, q);
    var u := Woken(t, p, q);
    var t' := SetPc(u, p, WakingParent(|t.procs|));
    assert PcOk(u, p);
    forall c | 0 <= c < |t'.procs|
      ensures ExitOk(t', p, c)
    {
      assert ExitOk(u, p, c);
    }
    MoveStep(u, t', p);
  }

  /** What exit() makes of the table from the point where it wakes the parent. */
  function Departed(t: Table, p: nat): Table
    requires Has(t, p)
  {
    Zombied(SetPc(Woken(t, p, t.procs[p].parent), p, WakingParent(|t.procs|)), p)
  }

  lemma DepartedFacts(t: Table, p: nat)
    requires Inv(t) && Has(t, p) && t.procs[p].pc.WakingParent? && NoPLocks(t)
    ensures var t' := Departed(t, p);
      && |t'.procs| == |t.procs| && t'.lock.Open? && t'.exited == t.exited + {t.procs[p].pid}
      && t'.procs[p] == t.procs[p].(state := Zombie, pc := Dying)
      && !WaitAsleep(t', t.procs[p].parent)
      && forall c :: 0 <= c < |t.procs| ==>
        && t'.procs[c].parent == t.procs[c].parent
        && (c != p ==> t'.procs[c] == if c == t.procs[p].parent then Roused(t.procs[c]) else t.procs[c])
  {
    assert ExitOk(t, p, p);
  }

  // The steps of module ExitWait that the code below takes, written out.

  lemma ExitBegins(t: Table, p: nat)
    requires Inv(t) && Enabled(t, Exit(p))
    ensures Inv(SetPc(t, p, Reparenting(0)).(lock := HeldBy(p)))
  {
    LockStep(t, Exit(p));
  }

  lemma ReparentEnds(t: Table, p: nat)
    requires Inv(t) && Runs(t, p) && t.procs[p].pc == Reparenting(|t.procs|)
    ensures Inv(SetPc(t, p, WakingParent(0)))
  {
    ReparentStep(t, p);
  }

  lemma ReparentLooks(t: Table, p: nat, i: nat)
    requires Inv(t) && Runs(t, p) && Has(t, i) && t.procs[p].pc == Reparenting(i)
    ensures Inv(if t.procs[i].parent == p then GiveAway(t, p, i) else SetPc(t, p, Reparenting(i + 1)))
  {
    ReparentStep(t, p);
  }

  lemma Dies(t: Table, p: nat)
    requires Inv(t) && Has(t, p) && t.procs[p].pc == WakingParent(|t.procs|)
    ensures Inv(Zombied(t, p))
  {
    assert PcOk(t, p);
    ZombieStep(t, p);
  }

  lemma WaitBegins(t: Table, p: nat)
    requires Inv(t) && Enabled(t, Wait(p))
    ensures Inv(SetPc(t, p, Scanning(0, false)).(lock := HeldBy(p)))
  {
    LockStep(t, Wait(p));
  }

  ghost predicate ScansAt(t: Table, p: nat, i: nat, kids: bool) {
    Runs(t, p) && t.procs[p].pc == Scanning(i, kids) && t.lock == HeldBy(p)
  }

  lemma ScanPasses(t: Table, p: nat, i: nat, kids: bool)
    requires Inv(t) && ScansAt(t, p, i, kids) && Has(t, i) && !PLocked(t, i)
    requires !(t.procs[i].parent == p && t.procs[i].state.Zombie?)
    ensures Inv(SetPc(t, p, Scanning(i + 1, kids || t.procs[i].parent == p)))
  {
    ScanStep(t, p, false);
  }

  lemma ScanFinds(t: Table, p: nat, i: nat, kids: bool)
    requires Inv(t) && ScansAt(t, p, i, kids) && Has(t, i) && !PLocked(t, i)
    requires t.procs[i].parent == p && t.procs[i].state.Zombie?
    ensures Inv(SetPc(t, p, Idle).(lock := Open)) && Inv(Reaped(t, p, i))
  {
    ScanStep(t, p, false);
    ScanStep(t, p, true);
  }

  lemma ScanEnds(t: Table, p: nat, kids: bool)
    requires Inv(t) && ScansAt(t, p, |t.procs|, kids)
    ensures Inv(SetPc(t, p, if kids && !t.procs[p].killed then Window else Idle).(lock := Open))
  {
    LockStep(t, if kids && !t.procs[p].killed then StartSleep(p) else GiveUp(p));
  }

  class ProcTable {
    var procs: seq<Proc>
    var lock: Lock
    ghost var nextpid: nat
    ghost var exited: set<nat>
    ghost var reaped: seq<nat>

    ghost function View(): Table
      reads this
    {
      Table(procs, lock, nextpid, exited, reaped)
    }

    /** wakeup(): the loop over the table, skipping the caller. */
    method Wakeup(me: nat, q: int)
      modifies `procs
      ensures View() == Woken(old(View()), me, q)
    {
      var j := 0;
      while j < |procs|
        invariant j <= |procs| == |old(procs)|
        invariant View() == if q < j then Woken(old(View()), me, q) else old(View())
      {
        if j != me {
          if procs[j].pc.Asleep? && j == q {
            procs := procs[j := procs[j].(state := Runnable, pc := Awake)];
          }
        }
        j := j + 1;
      }
    }

    /** reparent(): every child of p now belongs to initproc, which is woken if there was one. */
    method Reparent(p: nat)
      requires Inv(View()) && Has(View(), p) && procs[p].pc == Reparenting(0) && NoPLocks(View())
      modifies `procs
      ensures Inv(View()) && NoPLocks(View()) && |procs| == |old(procs)|
      ensures forall c :: 0 <= c < |procs| ==>
        procs[c].parent == if old(procs)[c].parent == p then INIT else old(procs)[c].parent
      ensures forall c :: 0 <= c < |procs| ==>
        procs[c] == GivenUp(old(procs), p, |procs|, HasKids(old(procs), p, 0), WakingParent(0), c)
    {
      hide Inv, GivenUp, Looked;
      ghost var was := procs;
      SectionFacts(View(), p);
      LooksStart(was, p);
      ghost var any := false;
      var i := 0;
      while i < |procs|
        invariant i <= |procs| == |was| && p < |procs| && procs[p].pc == Reparenting(i)
        invariant Inv(View()) && NoPLocks(View())
        invariant forall c :: 0 <= c < |procs| ==> procs[c] == GivenUp(was, p, i, any, Reparenting(i), c)
        invariant HasKids(was, p, 0) == (any || HasKids(was, p, i))
      {
        ghost var now, before := procs, any;
        any := any || was[i].parent == p;
        AdoptOne(p, i);
        LooksMore(was, now, procs, p, i, before, any);
        i := i + 1;
      }
      SectionFacts(View(), p);
      ReparentEnds(View(), p);
      LooksEnd(was, procs, p, any);
      procs := procs[p := procs[p].(pc := WakingParent(0))];
    }

    /** One iteration of reparent(). */
    method AdoptOne(p: nat, i: nat)
      requires Inv(View()) && Has(View(), p) && Has(View(), i) && procs[p].pc == Reparenting(i) && NoPLocks(View())
      modifies `procs
      ensures Inv(View()) && NoPLocks(View()) && |procs| == |old(procs)| && Has(View(), INIT) && p != INIT
      ensures forall c :: 0 <= c < |procs| ==> procs[c] == Looked(old(procs), p, i, c)
    {
      hide Inv;
      SectionFacts(View(), p);
      ReparentLooks(View(), p, i);
      if procs[i].parent == p {
        procs := procs[i := procs[i].(parent := INIT)];
        procs := procs[p := procs[p].(pc := WakingInit(i, 0))];
        WakeInitWhole(View(), p, i);
        Wakeup(p, INIT);
        procs := procs[p := procs[p].(pc := Reparenting(i + 1))];
      } else {
        procs := procs[p := procs[p].(pc := Reparenting(i + 1))];
      }
    }

    /** The section of exit() under wait_lock; true stands for panic("init exiting"). */
    method Exit(p: nat) returns (panicked: bool)
      requires Inv(View()) && Has(View(), p) && procs[p].state.Running? && procs[p].pc.Idle? && lock.Open? && NoPLocks(View())
      modifies this
      ensures panicked <==> p == INIT
      ensures panicked ==> View() == old(View())
      ensures Inv(View()) && lock.Open? && |procs| == |old(procs)|
      ensures !panicked ==>
        && procs[p].state.Zombie? && procs[p].pid == old(procs)[p].pid && exited == old(exited) + {procs[p].pid}
        && (forall c :: 0 <= c < |procs| ==>
             procs[c].parent == if old(procs)[c].parent == p then INIT else old(procs)[c].parent)
        && !WaitAsleep(View(), procs[p].parent)
        && (forall c :: 0 <= c < |procs| && c != p ==>
             var x := GivenUp(old(procs), p, |procs|, HasKids(old(procs), p, 0), Idle, c);
             procs[c] == if c == procs[p].parent then Roused(x) else x)
    {
      hide Inv;
      if p == INIT {
        return true;
      }
      panicked := false;
      ExitBegins(View(), p);
      lock := HeldBy(p);
      procs := procs[p := procs[p].(pc := Reparenting(0))];
      Reparent(p);
      DepartedFacts(View(), p);
      Depart(p);
    }

    /** exit() after reparent: wake the parent, become a zombie, and let go of wait_lock. */
    method Depart(p: nat)
      requires Inv(View()) && Has(View(), p) && procs[p].pc == WakingParent(0) && NoPLocks(View())
      modifies this
      ensures Inv(View()) && View() == Departed(old(View()), p)
    {
      hide Inv;
      WakeParentWhole(View(), p);
      Wakeup(p, procs[p].parent);
      procs := procs[p := procs[p].(pc := WakingParent(|procs|))];
      Dies(View(), p);
      exited := exited + {procs[p].pid};
      procs := procs[p := procs[p].(state := Zombie, pc := Dying)];
      lock := Open;
    }

    /** One round of wait(), from taking wait_lock to its release. */
    method WaitRound(p: nat, fault: bool) returns (r: WaitResult)
      requires Inv(View()) && Has(View(), p) && procs[p].state.Running? && (procs[p].pc.Idle? || procs[p].pc.Awake?)
      requires lock.Open? && NoPLocks(View())
      modifies this
      ensures Inv(View()) && lock.Open? && |procs| == |old(procs)|
      ensures var kid := FirstZombie(old(procs), p, 0);
        if kid < |procs| then
          if fault then r == Fault && procs == old(procs)[p := old(procs)[p].(pc := Idle)] && reaped == old(reaped)
          else && r == Pid(old(procs)[kid].pid) && reaped == old(reaped) + [r.pid]
               && procs == old(procs)[kid := Cleared(old(procs)[kid])][p := old(procs)[p].(pc := Idle)]
        else if HasKids(old(procs), p, 0) && !old(procs)[p].killed then
          r == Sleeps && procs == old(procs)[p := old(procs)[p].(pc := Window)] && reaped == old(reaped)
        else
          r == NoChildren && procs == old(procs)[p := old(procs)[p].(pc := Idle)] && reaped == old(reaped)
    {
      hide Inv;
      var i, kids := Scan(p);
      if i < |procs| {
        ScanFinds(View(), p, i, kids);
        r := Collect(p, i, fault);
      } else {
        ScanEnds(View(), p, kids);
        r := Conclude(p, kids);
      }
    }

    /** wait() from taking wait_lock to the first exited child, or to the end of its loop. */
    method Scan(p: nat) returns (i: nat, kids: bool)
      requires Inv(View()) && Has(View(), p) && procs[p].state.Running? && (procs[p].pc.Idle? || procs[p].pc.Awake?)
      requires lock.Open? && NoPLocks(View())
      modifies `procs, `lock
      ensures i == FirstZombie(old(procs), p, 0) && (i == |procs| ==> kids == HasKids(old(procs), p, 0))
      ensures Inv(View()) && View() == SetPc(old(View()), p, Scanning(i, kids)).(lock := HeldBy(p))
    {
      hide Inv;
      WaitBegins(View(), p);
      lock := HeldBy(p);
      procs := procs[p := procs[p].(pc := Scanning(0, false))];
      i, kids := 0, false;
      while i < |procs| && !(procs[i].parent == p && procs[i].state.Zombie?)
        invariant i <= |procs| == |old(procs)| && p < |procs| && lock == HeldBy(p)
        invariant Inv(View()) && procs == old(procs)[p := old(procs)[p].(pc := Scanning(i, kids))]
        invariant FirstZombie(old(procs), p, 0) == FirstZombie(old(procs), p, i)
        invariant HasKids(old(procs), p, 0) == (kids || HasKids(old(procs), p, i))
      {
        ScanPasses(View(), p, i, kids);
        kids := kids || procs[i].parent == p;
        i := i + 1;
        procs := procs[p := procs[p].(pc := Scanning(i, kids))];
      }
    }

    /** wait() has found no exited child. */
    method Conclude(p: nat, kids: bool) returns (r: WaitResult)
      requires Has(View(), p)
      modifies `procs, `lock
      ensures r == if kids && !old(procs)[p].killed then Sleeps else NoChildren
      ensures View() == SetPc(old(View()), p, if r.Sleeps? then Window else Idle).(lock := Open)
    {
      if !kids || procs[p].killed {
        procs := procs[p := procs[p].(pc := Idle)];
        r := NoChildren;
      } else {
        procs := procs[p := procs[p].(pc := Window)];
        r := Sleeps;
      }
      lock := Open;
    }

    /** wait() has found exited child i. */
    method Collect(p: nat, i: nat, fault: bool) returns (r: WaitResult)
      requires Has(View(), p) && Has(View(), i)
      modifies `procs, `lock, `reaped
      ensures r == if fault then Fault else Pid(old(procs)[i].pid)
      ensures View() == if fault then SetPc(old(View()), p, Idle).(lock := Open) else Reaped(old(View()), p, i)
    {
      if fault {
        procs := procs[p := procs[p].(pc := Idle)];
        lock := Open;
        return Fault;
      }
      r := Pid(procs[i].pid);
      reaped := reaped + [procs[i].pid];
      procs := procs[i := Cleared(procs[i])];
      procs := procs[p := procs[p].(pc := Idle)];
      lock := Open;
    }
  }

  datatype WaitResult = Pid(pid: nat) | Fault | NoChildren | Sleeps

  /** The first exited child of p from index i on, or the length of the table. */
  function FirstZombie(procs: seq<Proc>, p: nat, i: nat): (r: nat)
    requires i <= |procs|
    ensures i <= r <= |procs|
    ensures r < |procs| ==> procs[r].parent == p && procs[r].state.Zombie?
    ensures forall c :: i <= c < r ==> !(procs[c].parent == p && procs[c].state.Zombie?)
    decreases |procs| - i
  {
    if i == |procs| || (procs[i].parent == p && procs[i].state.Zombie?) then i else FirstZombie(procs, p, i + 1)
  }

  predicate HasKids(procs: seq<Proc>, p: nat, i: nat)
    requires i <= |procs|
    ensures HasKids(procs, p, i) <==> exists c :: i <= c < |procs| && procs[c].parent == p
    decreases |procs| - i
  {
    i < |procs| && (procs[i].parent == p || HasKids(procs, p, i + 1))
  }

  /** An exiting process is not initproc, and initproc has no parent of its own to lose. */
  lemma SectionFacts(t: Table, p: nat)
    requires Inv(t) && Has(t, p) && t.procs[p].pc.Reparenting?
    ensures Has(t, INIT) && p != INIT && t.procs[p].state.Running?
  {
    assert PcOk(t, p) && ExitOk(t, p, p);
  }
}
