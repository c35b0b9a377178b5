/**
  fork, exit, wait, sleep, wakeup and kill of kernel/proc.c, interleaved step by step.  A step is
  what one process does under one acquisition of a p->lock, or between two of them, so every
  window in which another process can run is a state of this system.
 */
module ExitWait {
  import opened ProcState
  import Finite

  const INIT: nat := 0     // initproc
  const NULL: int := -1    // no parent

  /** Where a process is in the code that takes wait_lock. */
  datatype Pc =
    | Idle                          // none of the places below
    | Elsewhere                     // asleep on a channel that has nothing to do with wait
    | Forking(child: nat)           // fork, child allocated but not yet given a parent
    | Forked(child: nat)            // fork, parent recorded, child not yet RUNNABLE
    | Reparenting(i: nat)           // exit: in reparent(), about to look at process i
    | WakingInit(i: nat, j: nat)    // exit: in wakeup(initproc) for process i, about to look at j
    | WakingParent(j: nat)          // exit: in wakeup(p->parent), about to look at j
    | Dying                         // exit: ZOMBIE, wait_lock released, p->lock still held
    | Dead                          // exit: switched away for good
    | Scanning(i: nat, kids: bool)  // wait: about to look at process i
    | Window                        // sleep: p->lock held, wait_lock released, not SLEEPING yet
    | Asleep                        // sleep: SLEEPING on its own channel
    | Awake                         // sleep: woken, wait_lock to be taken again

  datatype Proc = Proc(state: PState, parent: int, killed: bool, pid: nat, pc: Pc)

  datatype Lock = Open | HeldBy(p: nat)

  /** `exited` and `reaped` record the pids of processes that became ZOMBIE and of those that
      wait() or waitx() has returned. */
  datatype Table = Table(procs: seq<Proc>, lock: Lock, nextpid: nat, exited: set<nat>, reaped: seq<nat>)

  predicate Has(t: Table, p: int) {
    0 <= p < |t.procs|
  }

  function Set(t: Table, p: nat, x: Proc): Table
    requires Has(t, p)
  {
    t.(procs := t.procs[p := x])
  }

  /** p->lock is held across steps only while p goes to sleep and while it dies. */
  predicate PLocked(t: Table, p: nat)
    requires Has(t, p)
  {
    t.procs[p].pc.Window? || t.procs[p].pc.Dying?
  }

  /** p waits, or is about to wait, for a child to exit. */
  predicate WaitAsleep(t: Table, p: int) {
    Has(t, p) && (t.procs[p].pc.Window? || t.procs[p].pc.Asleep?)
  }

  /** What wakeup(chan of q) does to process j. */
  function WakeOne(t: Table, j: nat, q: int): Table
    requires Has(t, j)
  {
    var x := t.procs[j];
    if j == q && x.pc.Asleep? then Set(t, j, x.(state := Runnable, pc := Awake)) else t
  }

  // ---------- actions

  datatype Action =
    | Dispatch(p: nat)              // scheduler: RUNNABLE to RUNNING
    | Yield(p: nat)
    | SleepElsewhere(p: nat)        // sleep on some other channel
    | WakeElsewhere(p: nat)         // wakeup of that channel
    | Kill(p: nat)
    | Alloc(p: nat, c: nat)         // fork: allocproc
    | ForkFails(p: nat)             // fork: no memory, freeproc
    | SetParent(p: nat)             // fork: np->parent = p under wait_lock
    | StartChild(p: nat)            // fork: np->state = RUNNABLE
    | Exit(p: nat)                  // exit: acquire wait_lock
    | ReparentOne(p: nat)
    | WakeInitOne(p: nat)
    | WakeParentOne(p: nat)
    | BecomeZombie(p: nat)          // exit: ZOMBIE, release wait_lock
    | SwitchAway(p: nat)            // the scheduler releases the dead process's p->lock
    | Wait(p: nat)                  // wait: acquire wait_lock, also after waking up
    | ScanOne(p: nat, fault: bool)  // wait: look at one process; fault: copyout fails
    | GiveUp(p: nat)                // wait: no children, or killed
    | StartSleep(p: nat)            // sleep: take p->lock, release wait_lock
    | FallAsleep(p: nat)            // sleep: SLEEPING and switched away

  predicate Runs(t: Table, p: nat) {
    Has(t, p) && t.procs[p].state.Running?
  }

  predicate Enabled(t: Table, a: Action) {
    match a
    case Dispatch(p) => Has(t, p) && t.procs[p].state.Runnable?
    case Yield(p) => Runs(t, p) &&
      (t.procs[p].pc.Idle? || t.procs[p].pc.Awake? || t.procs[p].pc.Forking? || t.procs[p].pc.Forked?)
    case SleepElsewhere(p) => Runs(t, p) && t.procs[p].pc.Idle?
    case WakeElsewhere(p) => Has(t, p) && t.procs[p].pc.Elsewhere?
    case Kill(p) => Has(t, p) && !PLocked(t, p)
    case Alloc(p, c) => Runs(t, p) && t.procs[p].pc.Idle? && Has(t, c) && t.procs[c].state.Unused?
    case ForkFails(p) => Runs(t, p) && t.procs[p].pc.Forking?
    case SetParent(p) => Runs(t, p) && t.procs[p].pc.Forking? && t.lock.Open?
    case StartChild(p) => Runs(t, p) && t.procs[p].pc.Forked?
    case Exit(p) => Runs(t, p) && t.procs[p].pc.Idle? && t.lock.Open? && p != INIT
    case ReparentOne(p) => Runs(t, p) && t.procs[p].pc.Reparenting?
    case WakeInitOne(p) => Runs(t, p) && t.procs[p].pc.WakingInit? &&
      (Has(t, t.procs[p].pc.j) && t.procs[p].pc.j != p ==> !PLocked(t, t.procs[p].pc.j))
    case WakeParentOne(p) => Runs(t, p) && t.procs[p].pc.WakingParent? && Has(t, t.procs[p].pc.j) &&
      (t.procs[p].pc.j != p ==> !PLocked(t, t.procs[p].pc.j))
    case BecomeZombie(p) => Runs(t, p) && t.procs[p].pc.WakingParent? && !Has(t, t.procs[p].pc.j)
    case SwitchAway(p) => Has(t, p) && t.procs[p].pc.Dying?
    case Wait(p) => Runs(t, p) && (t.procs[p].pc.Idle? || t.procs[p].pc.Awake?) && t.lock.Open?
    case ScanOne(p, _) => Runs(t, p) && t.procs[p].pc.Scanning? && Has(t, t.procs[p].pc.i) &&
      (t.procs[t.procs[p].pc.i].parent == p ==> !PLocked(t, t.procs[p].pc.i))
    case GiveUp(p) => Runs(t, p) && t.procs[p].pc.Scanning? && !Has(t, t.procs[p].pc.i) &&
      (!t.procs[p].pc.kids || t.procs[p].killed)
    case StartSleep(p) => Runs(t, p) && t.procs[p].pc.Scanning? && !Has(t, t.procs[p].pc.i) &&
      t.procs[p].pc.kids && !t.procs[p].killed
    case FallAsleep(p) => Runs(t, p) && t.procs[p].pc.Window?
  }

  function SetPc(t: Table, p: nat, pc: Pc): Table
    requires Has(t, p)
  {
    Set(t, p, t.procs[p].(pc := pc))
  }

  /** freeproc. */
  function Cleared(x: Proc): Proc {
    Proc(Unused, NULL, false, 0, Idle)
  }

  function Step(t: Table, a: Action): Table
    requires Enabled(t, a)
  {
    match a
    case Dispatch(p) => Set(t, p, t.procs[p].(state := Running))
    case Yield(p) => Set(t, p, t.procs[p].(state := Runnable))
    case SleepElsewhere(p) => Set(t, p, t.procs[p].(state := Sleeping, pc := Elsewhere))
    case WakeElsewhere(p) => Set(t, p, t.procs[p].(state := Runnable, pc := Idle))
    case Kill(p) =>
      var x := t.procs[p].(killed := true);
      if x.pc.Asleep? then Set(t, p, x.(state := Runnable, pc := Awake))
      else if x.pc.Elsewhere? then Set(t, p, x.(state := Runnable, pc := Idle))
      else Set(t, p, x)
    case Alloc(p, c) =>
      var t1 := Set(t, c, t.procs[c].(state := Used, pid := t.nextpid));
      SetPc(t1, p, Forking(c)).(nextpid := t.nextpid + 1)
    case ForkFails(p) =>
      var c := t.procs[p].pc.child;
      var t1 := if Has(t, c) then Set(t, c, Cleared(t.procs[c])) else t;
      SetPc(t1, p, Idle)
    case SetParent(p) =>
      var c := t.procs[p].pc.child;
      var t1 := if Has(t, c) then Set(t, c, t.procs[c].(parent := p)) else t;
      SetPc(t1, p, Forked(c))
    case StartChild(p) =>
      var c := t.procs[p].pc.child;
      var t1 := if Has(t, c) then Set(t, c, t.procs[c].(state := Runnable)) else t;
      SetPc(t1, p, Idle)
    case Exit(p) => SetPc(t, p, Reparenting(0)).(lock := HeldBy(p))
    case ReparentOne(p) =>
      var i := t.procs[p].pc.i;
      if !Has(t, i) then SetPc(t, p, WakingParent(0))
      else if t.procs[i].parent == p then
        SetPc(Set(t, i, t.procs[i].(parent := INIT)), p, WakingInit(i, 0))
      else SetPc(t, p, Reparenting(i + 1))
    case WakeInitOne(p) =>
      var i, j := t.procs[p].pc.i, t.procs[p].pc.j;
      if !Has(t, j) then SetPc(t, p, Reparenting(i + 1))
      else SetPc(if j != p then WakeOne(t, j, INIT) else t, p, WakingInit(i, j + 1))
    case WakeParentOne(p) =>
      var j := t.procs[p].pc.j;
      SetPc(if j != p then WakeOne(t, j, t.procs[p].parent) else t, p, WakingParent(j + 1))
    case BecomeZombie(p) =>
      Set(t, p, t.procs[p].(state := Zombie, pc := Dying)).(lock := Open, exited := t.exited + {t.procs[p].pid})
    case SwitchAway(p) => SetPc(t, p, Dead)
    case Wait(p) => SetPc(t, p, Scanning(0, false)).(lock := HeldBy(p))
    case ScanOne(p, fault) =>
      var i, kids := t.procs[p].pc.i, t.procs[p].pc.kids;
      if t.procs[i].parent != p then SetPc(t, p, Scanning(i + 1, kids))
      else if !t.procs[i].state.Zombie? then SetPc(t, p, Scanning(i + 1, true))
      else if fault then SetPc(t, p, Idle).(lock := Open)
      else SetPc(Set(t, i, Cleared(t.procs[i])), p, Idle).(lock := Open, reaped := t.reaped + [t.procs[i].pid])
    case GiveUp(p) => SetPc(t, p, Idle).(lock := Open)
    case StartSleep(p) => SetPc(t, p, Window).(lock := Open)
    case FallAsleep(p) => Set(t, p, t.procs[p].(state := Sleeping, pc := Asleep))
  }

  // ---------- the invariant

  predicate Live(x: Proc) {
    x.state.Sleeping? || x.state.Runnable? || x.state.Running?
  }

  /** The places that are reached only with wait_lock held. */
  predicate InSection(pc: Pc) {
    pc.Reparenting? || pc.WakingInit? || pc.WakingParent? || pc.Scanning?
  }

  /** State and place of a process go together, and only the holder of wait_lock is in its section. */
  ghost predicate PcOk(t: Table, p: nat)
    requires Has(t, p)
  {
    var x := t.procs[p];
    && (InSection(x.pc) <==> t.lock == HeldBy(p))
    && (InSection(x.pc) || x.pc.Window? ==> x.state.Running?)
    && (x.pc.Elsewhere? || x.pc.Asleep? <==> x.state.Sleeping?)
    && (x.pc.Forking? || x.pc.Forked? || x.pc.Awake? ==> x.state.Runnable? || x.state.Running?)
    && (x.pc.Dying? || x.pc.Dead? <==> x.state.Zombie?)
    && (x.state.Unused? || x.state.Used? ==> x.pc.Idle?)
  }

  /** A recorded parent is a living process. */
  ghost predicate ParentOk(t: Table, p: nat)
    requires Has(t, p)
  {
    var x := t.procs[p];
    && (x.parent == NULL || (Has(t, x.parent) && Live(t.procs[x.parent])))
    && (x.state.Unused? ==> x.parent == NULL)
  }

  ghost predicate ForkOk(t: Table, p: nat)
    requires Has(t, p)
  {
    var x := t.procs[p];
    && (x.pc.Forking? ==> Has(t, x.pc.child) && t.procs[x.pc.child].state.Used? && t.procs[x.pc.child].parent == NULL)
    && (x.pc.Forked? ==> Has(t, x.pc.child) && t.procs[x.pc.child].state.Used?)
  }

  predicate ForkChild(x: Proc, c: nat) {
    (x.pc.Forking? || x.pc.Forked?) && x.pc.child == c
  }

  /** Two forks never work on the same new process. */
  ghost predicate ForksDiffer(t: Table, p: nat, q: nat)
    requires Has(t, p) && Has(t, q)
  {
    p != q && (t.procs[p].pc.Forking? || t.procs[p].pc.Forked?) ==> !ForkChild(t.procs[q], t.procs[p].pc.child)
  }

  /** How much an exiting process has done: the children it has given away, the parent it has woken. */
  ghost predicate ExitOk(t: Table, p: nat, c: nat)
    requires Has(t, p) && Has(t, c)
  {
    var x := t.procs[p];
    && (x.pc.Reparenting? && c < x.pc.i ==> t.procs[c].parent != p)
    && (x.pc.WakingInit? && c <= x.pc.i ==> t.procs[c].parent != p)
    && (x.pc.WakingParent? ==> t.procs[c].parent != p)
    && (x.pc.WakingParent? && 0 <= x.parent < x.pc.j ==> !WaitAsleep(t, x.parent))
    && (x.pc.Scanning? && c < x.pc.i && t.procs[c].parent == p ==> !t.procs[c].state.Zombie?)
    && (x.pc.Reparenting? || x.pc.WakingInit? || x.pc.WakingParent? ==> p != INIT)
    && (x.state.Zombie? ==> t.procs[c].parent != p)
  }

  /** wakeup(initproc) is running and has not come to initproc yet. */
  predicate InitWakeDue(t: Table) {
    t.lock.HeldBy? && Has(t, t.lock.p) && t.procs[t.lock.p].pc.WakingInit? && t.procs[t.lock.p].pc.j <= INIT
  }

  /** The parent of a zombie is not waiting, except while initproc's wakeup is still to come. */
  ghost predicate ZombieOk(t: Table, c: nat)
    requires Has(t, c)
  {
    t.procs[c].state.Zombie? && WaitAsleep(t, t.procs[c].parent) ==> t.procs[c].parent == INIT && InitWakeDue(t)
  }

  ghost predicate InitOk(t: Table) {
    && Has(t, INIT) && Live(t.procs[INIT])
    && (t.lock.HeldBy? ==> Has(t, t.lock.p))
  }

  ghost predicate PidOk(t: Table, p: nat)
    requires Has(t, p)
  {
    var x := t.procs[p];
    && (!x.state.Unused? ==> x.pid < t.nextpid && x.pid !in t.reaped)
    && (x.state.Zombie? ==> x.pid in t.exited)
  }

  ghost predicate PidsDiffer(t: Table, p: nat, q: nat)
    requires Has(t, p) && Has(t, q)
  {
    p != q && !t.procs[p].state.Unused? && !t.procs[q].state.Unused? ==> t.procs[p].pid != t.procs[q].pid
  }

  ghost predicate ReapedOk(t: Table) {
    && Finite.NoRepeats(t.reaped)
    && (forall i :: 0 <= i < |t.reaped| ==> t.reaped[i] in t.exited && t.reaped[i] < t.nextpid)
  }

  /** What holds of each process. */
  ghost predicate Each(t: Table) {
    forall p :: 0 <= p < |t.procs| ==> PcOk(t, p) && ParentOk(t, p) && ForkOk(t, p) && PidOk(t, p)
  }

  ghost predicate Zombies(t: Table) {
    forall c :: 0 <= c < |t.procs| ==> ZombieOk(t, c)
  }

  ghost predicate Exits(t: Table) {
    forall p, c :: 0 <= p < |t.procs| && 0 <= c < |t.procs| ==> ExitOk(t, p, c)
  }

  /** What holds of each pair of processes. */
  ghost predicate Pairs(t: Table) {
    forall p, q :: 0 <= p < |t.procs| && 0 <= q < |t.procs| ==> ForksDiffer(t, p, q) && PidsDiffer(t, p, q)
  }

  ghost predicate Inv(t: Table) {
    InitOk(t) && ReapedOk(t) && Each(t) && Zombies(t) && Exits(t) && Pairs(t)
  }

  // ---------- steps of one process that nobody else has to know about

  /** x and x' differ in nothing that another process relies on. */
  predicate Quiet(x: Proc, x': Proc) {
    && x'.parent == x.parent && x'.pid == x.pid
    && Live(x') == Live(x) && (x'.state.Zombie? == x.state.Zombie?) && (x'.state.Unused? == x.state.Unused?)
    && (x'.pc == x.pc || (!InSection(x.pc) && !InSection(x'.pc) && NotForking(x.pc) && NotForking(x'.pc)))
    && (x'.pc.Window? || x'.pc.Asleep? ==> x.pc.Window? || x.pc.Asleep?)
  }

  predicate NotForking(pc: Pc) {
    !pc.Forking? && !pc.Forked?
  }

  lemma QuietEach(t: Table, p: nat, x': Proc)
    requires Inv(t) && Has(t, p) && Quiet(t.procs[p], x') && PcOk(Set(t, p, x'), p)
    ensures InitOk(Set(t, p, x')) && Each(Set(t, p, x'))
  {
    hide Exits, Pairs, Zombies, ReapedOk;
    var t' := Set(t, p, x');
    forall q | 0 <= q < |t'.procs|
      ensures PcOk(t', q) && ParentOk(t', q) && ForkOk(t', q) && PidOk(t', q)
    {
      assert PcOk(t, q) && ParentOk(t, q) && ForkOk(t, q) && PidOk(t, q);
      assert PcOk(t, p) && ParentOk(t, p);
    }
  }

  lemma QuietPairs(t: Table, p: nat, x': Proc)
    requires Inv(t) && Has(t, p) && Quiet(t.procs[p], x')
    ensures Zombies(Set(t, p, x')) && Exits(Set(t, p, x')) && Pairs(Set(t, p, x'))
  {
    hide Each, ReapedOk;
    var t' := Set(t, p, x');
    forall c | 0 <= c < |t'.procs|
      ensures ZombieOk(t', c)
    {
      assert ZombieOk(t, c);
    }
    forall q, c | 0 <= q < |t'.procs| && 0 <= c < |t'.procs|
      ensures ExitOk(t', q, c)
    {
      assert ExitOk(t, q, c);
    }
    forall q, c | 0 <= q < |t'.procs| && 0 <= c < |t'.procs|
      ensures ForksDiffer(t', q, c) && PidsDiffer(t', q, c)
    {
      assert ForksDiffer(t, q, c) && PidsDiffer(t, q, c);
    }
  }

  lemma QuietStep(t: Table, p: nat, x': Proc)
    requires Inv(t) && Has(t, p) && Quiet(t.procs[p], x') && PcOk(Set(t, p, x'), p)
    ensures Inv(Set(t, p, x'))
  {
    QuietEach(t, p, x');
    QuietPairs(t, p, x');
  }

  // ---------- steps of the process that holds, takes or releases wait_lock

  /** The processes other than p, and the lock, are the same in both tables. */
  ghost predicate OnlyChanges(t: Table, t': Table, p: nat) {
    && |t'.procs| == |t.procs|
    && (forall q :: 0 <= q < |t.procs| && q != p ==> t'.procs[q] == t.procs[q])
  }

  /** p moves along inside its section, or enters or leaves it. */
  ghost predicate Moves(t: Table, t': Table, p: nat) {
    && Has(t, p) && OnlyChanges(t, t', p)
    && t'.procs[p] == t.procs[p].(pc := t'.procs[p].pc)
    && t'.nextpid == t.nextpid && t'.exited == t.exited && t'.reaped == t.reaped
    && (t.lock.Open? || t.lock == HeldBy(p)) && (t'.lock.Open? || t'.lock == HeldBy(p))
    && NotForking(t.procs[p].pc) && NotForking(t'.procs[p].pc)
  }

  lemma MoveEach(t: Table, t': Table, p: nat)
    requires Inv(t) && Moves(t, t', p) && PcOk(t', p)
    ensures InitOk(t') && ReapedOk(t') && Each(t') && Pairs(t')
  {
    hide Exits, Zombies;
    forall q | 0 <= q < |t'.procs|
      ensures PcOk(t', q) && ParentOk(t', q) && ForkOk(t', q) && PidOk(t', q)
    {
      assert PcOk(t, q) && ParentOk(t, q) && ForkOk(t, q) && PidOk(t, q);
      assert PcOk(t, p);
    }
    forall q, c | 0 <= q < |t'.procs| && 0 <= c < |t'.procs|
      ensures ForksDiffer(t', q, c) && PidsDiffer(t', q, c)
    {
      assert ForksDiffer(t, q, c) && PidsDiffer(t, q, c);
    }
  }

  /** No zombie's parent waits, so nothing is owed to anybody. */
  ghost predicate NothingDue(t: Table) {
    forall c :: 0 <= c < |t.procs| && t.procs[c].state.Zombie? ==> !WaitAsleep(t, t.procs[c].parent)
  }

  lemma DueOnlyToInit(t: Table)
    requires Zombies(t) && (!InitWakeDue(t) || !WaitAsleep(t, INIT))
    ensures NothingDue(t)
  {
    forall c | 0 <= c < |t.procs| && t.procs[c].state.Zombie?
      ensures !WaitAsleep(t, t.procs[c].parent)
    {
      assert ZombieOk(t, c);
    }
  }

  lemma MoveExits(t: Table, t': Table, p: nat)
    requires Inv(t) && Moves(t, t', p) && PcOk(t', p)
    requires forall c :: 0 <= c < |t'.procs| ==> ExitOk(t', p, c)
    ensures Exits(t')
  {
    hide Pairs, Zombies, ReapedOk;
    forall q, c | 0 <= q < |t'.procs| && 0 <= c < |t'.procs|
      ensures ExitOk(t', q, c)
    {
      assert PcOk(t, q) && ExitOk(t, q, c);
    }
  }

  lemma MoveStep(t: Table, t': Table, p: nat)
    requires Inv(t) && Moves(t, t', p) && PcOk(t', p)
    requires forall c :: 0 <= c < |t'.procs| ==> ExitOk(t', p, c)
    requires InitWakeDue(t) && !InitWakeDue(t') ==> !WaitAsleep(t, INIT)
    requires WaitAsleep(t', p) ==> forall c :: 0 <= c < |t.procs| && t.procs[c].parent == p ==> !t.procs[c].state.Zombie?
    ensures Inv(t')
  {
    MoveEach(t, t', p);
    MoveExits(t, t', p);
    hide Pairs, Exits, Each, ReapedOk;
    if !InitWakeDue(t') {
      DueOnlyToInit(t);
    }
    forall c | 0 <= c < |t'.procs|
      ensures ZombieOk(t', c)
    {
      assert ZombieOk(t, c);
    }
  }

  /** reparent() hands child i over to initproc. */
  function GiveAway(t: Table, p: nat, i: nat): Table
    requires Has(t, p) && Has(t, i)
  {
    SetPc(Set(t, i, t.procs[i].(parent := INIT)), p, WakingInit(i, 0))
  }

  lemma GiveAwayEach(t: Table, p: nat, i: nat)
    requires Inv(t) && Has(t, p) && t.procs[p].pc == Reparenting(i) && Has(t, i) && t.procs[i].parent == p
    ensures var t' := GiveAway(t, p, i); InitOk(t') && ReapedOk(t') && Each(t') && Pairs(t')
  {
    hide Exits, Zombies;
    var t' := GiveAway(t, p, i);
    forall q | 0 <= q < |t'.procs|
      ensures PcOk(t', q) && ParentOk(t', q) && ForkOk(t', q) && PidOk(t', q)
    {
      assert PcOk(t, q) && ParentOk(t, q) && ForkOk(t, q) && PidOk(t, q);
      assert ParentOk(t, i) && PcOk(t, p);
    }
    forall q, c | 0 <= q < |t'.procs| && 0 <= c < |t'.procs|
      ensures ForksDiffer(t', q, c) && PidsDiffer(t', q, c)
    {
      assert ForksDiffer(t, q, c) && PidsDiffer(t, q, c);
    }
  }

  lemma GiveAwayExits(t: Table, p: nat, i: nat)
    requires Inv(t) && Has(t, p) && t.procs[p].pc == Reparenting(i) && Has(t, i) && t.procs[i].parent == p
    ensures var t' := GiveAway(t, p, i); Exits(t') && Zombies(t')
  {
    hide Pairs, ReapedOk;
    var t' := GiveAway(t, p, i);
    assert PcOk(t, p);
    forall q, c | 0 <= q < |t'.procs| && 0 <= c < |t'.procs|
      ensures ExitOk(t', q, c)
    {
      assert PcOk(t, q) && ExitOk(t, q, c) && ExitOk(t, p, c);
    }
    forall c | 0 <= c < |t'.procs|
      ensures ZombieOk(t', c)
    {
      assert ZombieOk(t, c);
    }
  }

  function Zombied(t: Table, p: nat): Table
    requires Has(t, p)
  {
    Set(t, p, t.procs[p].(state := Zombie, pc := Dying)).(lock := Open, exited := t.exited + {t.procs[p].pid})
  }

  lemma ZombiedEach(t: Table, p: nat)
    requires Inv(t) && Enabled(t, BecomeZombie(p))
    ensures var t' := Zombied(t, p); InitOk(t') && ReapedOk(t') && Each(t') && Pairs(t')
  {
    hide Zombies;
    var t' := Zombied(t, p);
    assert PcOk(t, p) && ExitOk(t, p, p);
    forall q | 0 <= q < |t'.procs|
      ensures PcOk(t', q) && ParentOk(t', q) && ForkOk(t', q) && PidOk(t', q)
    {
      assert PcOk(t, q) && ParentOk(t, q) && ForkOk(t, q) && PidOk(t, q) && ExitOk(t, p, q);
    }
    forall q, c | 0 <= q < |t'.procs| && 0 <= c < |t'.procs|
      ensures ForksDiffer(t', q, c) && PidsDiffer(t', q, c)
    {
      assert ForksDiffer(t, q, c) && PidsDiffer(t, q, c);
    }
  }

  /** The parent was woken before, under the same wait_lock, so it is not waiting now. */
  lemma ZombiedExits(t: Table, p: nat)
    requires Inv(t) && Enabled(t, BecomeZombie(p))
    ensures var t' := Zombied(t, p); Exits(t') && Zombies(t')
  {
    hide Pairs, ReapedOk;
    var t' := Zombied(t, p);
    assert PcOk(t, p) && ParentOk(t, p) && ExitOk(t, p, p);
    forall q, c | 0 <= q < |t'.procs| && 0 <= c < |t'.procs|
      ensures ExitOk(t', q, c)
    {
      assert PcOk(t, q) && ExitOk(t, q, c) && ExitOk(t, p, c);
    }
    DueOnlyToInit(t);
    forall c | 0 <= c < |t'.procs|
      ensures ZombieOk(t', c)
    {
      assert c != p ==> ZombieOk(t, c);
    }
  }

  function Reaped(t: Table, p: nat, i: nat): Table
    requires Has(t, p) && Has(t, i)
  {
    SetPc(Set(t, i, Cleared(t.procs[i])), p, Idle).(lock := Open, reaped := t.reaped + [t.procs[i].pid])
  }

  ghost predicate MayReap(t: Table, p: nat, i: nat) {
    && Has(t, p) && Has(t, i) && t.procs[p].pc.Scanning? && t.procs[i].parent == p && t.procs[i].state.Zombie?
    && !PLocked(t, i)
  }

  lemma ReapEach(t: Table, p: nat, i: nat)
    requires Inv(t) && MayReap(t, p, i)
    ensures var t' := Reaped(t, p, i); InitOk(t') && ReapedOk(t') && Each(t')
  {
    hide Zombies;
    var t' := Reaped(t, p, i);
    assert PcOk(t, p) && PcOk(t, i) && PidOk(t, i);
    forall q | 0 <= q < |t'.procs|
      ensures PcOk(t', q) && ParentOk(t', q) && ForkOk(t', q) && PidOk(t', q)
    {
      assert PcOk(t, q) && ParentOk(t, q) && ForkOk(t, q) && PidOk(t, q) && ExitOk(t, i, q) && PidsDiffer(t, i, q);
    }
  }

  lemma ReapRest(t: Table, p: nat, i: nat)
    requires Inv(t) && MayReap(t, p, i)
    ensures var t' := Reaped(t, p, i); Zombies(t') && Exits(t') && Pairs(t')
  {
    hide ReapedOk;
    var t' := Reaped(t, p, i);
    assert PcOk(t, p) && PcOk(t, i);
    forall q, c | 0 <= q < |t'.procs| && 0 <= c < |t'.procs|
      ensures ExitOk(t', q, c) && ForksDiffer(t', q, c) && PidsDiffer(t', q, c)
    {
      assert PcOk(t, q) && ExitOk(t, q, c) && ForksDiffer(t, q, c) && PidsDiffer(t, q, c);
    }
    DueOnlyToInit(t);
  }

  // ---------- fork

  /** A fork changes its own place and its child, which nobody else refers to. */
  ghost predicate Forks(t: Table, t': Table, p: nat, c: nat) {
    && Has(t, p) && Has(t, c) && p != c && |t'.procs| == |t.procs|
    && (forall q :: 0 <= q < |t.procs| && q != p && q != c ==> t'.procs[q] == t.procs[q])
    && t'.procs[p] == t.procs[p].(pc := t'.procs[p].pc)
    && t'.lock == t.lock && t'.exited == t.exited && t'.reaped == t.reaped
    && (t.procs[p].pc.Idle? || ForkChild(t.procs[p], c))
    && (t'.procs[p].pc.Idle? || ForkChild(t'.procs[p], c))
    && (t.procs[c].state.Unused? || (t.procs[c].state.Used? && ForkChild(t.procs[p], c)))
    && t'.procs[c].pc.Idle? && !t'.procs[c].state.Zombie? && !t'.procs[c].state.Sleeping?
    && (t'.procs[c].parent == t.procs[c].parent || t'.procs[c].parent == NULL ||
        (t'.procs[c].parent == p && t.lock.Open? && Live(t.procs[p])))
    && (t'.procs[c].state.Unused? ==> t'.procs[c].parent == NULL)
    && t'.nextpid >= t.nextpid
    && (!t'.procs[c].state.Unused? ==>
          t'.procs[c].pid < t'.nextpid &&
          (t'.procs[c].pid >= t.nextpid || (t'.procs[c].pid == t.procs[c].pid && !t.procs[c].state.Unused?)))
  }

  lemma ForkEach(t: Table, t': Table, p: nat, c: nat)
    requires Inv(t) && Forks(t, t', p, c) && PcOk(t', p) && ForkOk(t', p)
    ensures InitOk(t') && ReapedOk(t') && Each(t')
  {
    hide Zombies, Exits;
    assert PcOk(t, p) && PcOk(t, c) && ParentOk(t, c) && PidOk(t, c);
    forall q | 0 <= q < |t'.procs|
      ensures PcOk(t', q) && ParentOk(t', q) && ForkOk(t', q) && PidOk(t', q)
    {
      assert PcOk(t, q) && ParentOk(t, q) && ForkOk(t, q) && PidOk(t, q) && ForksDiffer(t, p, q);
    }
  }

  lemma ForkRest(t: Table, t': Table, p: nat, c: nat)
    requires Inv(t) && Forks(t, t', p, c)
    ensures Zombies(t') && Exits(t') && Pairs(t')
  {
    assert PcOk(t, p) && PcOk(t, c);
    forall q, r | 0 <= q < |t'.procs| && 0 <= r < |t'.procs|
      ensures ExitOk(t', q, r)
    {
      assert PcOk(t, q) && ExitOk(t, q, r);
    }
    forall q | 0 <= q < |t'.procs|
      ensures ZombieOk(t', q)
    {
      assert ZombieOk(t, q);
    }
    ForkPairs(t, t', p, c);
  }

  lemma ForkPairs(t: Table, t': Table, p: nat, c: nat)
    requires Inv(t) && Forks(t, t', p, c)
    ensures Pairs(t')
  {
    hide Zombies, Exits;
    assert PcOk(t, c);
    forall q, r | 0 <= q < |t'.procs| && 0 <= r < |t'.procs|
      ensures ForksDiffer(t', q, r) && PidsDiffer(t', q, r)
    {
      assert ForksDiffer(t, q, r) && PidsDiffer(t, q, r) && ForkOk(t, q) && ForkOk(t, r) && PidOk(t, q) && PidOk(t, r);
    }
  }

  lemma ForkStep(t: Table, a: Action)
    requires Inv(t) && Enabled(t, a) && (a.Alloc? || a.ForkFails? || a.SetParent? || a.StartChild?)
    ensures Inv(Step(t, a))
  {
    hide Zombies, Exits, Pairs;
    var p := a.p;
    var t' := Step(t, a);
    var c := if a.Alloc? then a.c else t.procs[p].pc.child;
    assert PcOk(t, p) && ForkOk(t, p);
    assert PcOk(t, c) && ParentOk(t, c) && PidOk(t, c);
    assert Forks(t, t', p, c);
    ForkEach(t, t', p, c);
    ForkRest(t, t', p, c);
  }

  // ---------- all steps

  lemma LocalStep(t: Table, a: Action)
    requires Inv(t) && Enabled(t, a)
    requires a.Dispatch? || a.Yield? || a.SleepElsewhere? || a.WakeElsewhere? || a.Kill? || a.SwitchAway? || a.FallAsleep?
    ensures Inv(Step(t, a))
  {
    hide Zombies, Exits, Pairs;
    assert PcOk(t, a.p);
    QuietStep(t, a.p, Step(t, a).procs[a.p]);
  }

  /** One look of wakeup() at process j. */
  lemma WakeStep(t: Table, p: nat, j: nat, q: int)
    requires Inv(t) && Has(t, p) && Has(t, j) && t.procs[p].state.Running?
    ensures Inv(if j != p then WakeOne(t, j, q) else t)
    ensures j != p ==> WakeOne(t, j, q).procs[p] == t.procs[p]
  {
    hide Zombies, Exits, Pairs;
    assert PcOk(t, j);
    if j != p && WakeOne(t, j, q) != t {
      QuietStep(t, j, t.procs[j].(state := Runnable, pc := Awake));
    }
  }

  lemma WakeInitStep(t: Table, p: nat)
    requires Inv(t) && Enabled(t, WakeInitOne(p))
    ensures Inv(Step(t, WakeInitOne(p)))
  {
    hide Pairs;
    var i, j := t.procs[p].pc.i, t.procs[p].pc.j;
    assert PcOk(t, p) && ExitOk(t, p, p);
    var u := t;
    if Has(t, j) {
      WakeStep(t, p, j, INIT);
      u := if j != p then WakeOne(t, j, INIT) else t;
      assert PcOk(u, p);
    }
    var t' := Step(t, WakeInitOne(p));
    forall c | 0 <= c < |t'.procs|
      ensures ExitOk(t', p, c)
    {
      assert ExitOk(u, p, c);
    }
    MoveStep(u, t', p);
  }

  lemma WakeParentStep(t: Table, p: nat)
    requires Inv(t) && Enabled(t, WakeParentOne(p))
    ensures Inv(Step(t, WakeParentOne(p)))
  {
    hide Pairs;
    var j := t.procs[p].pc.j;
    var q := t.procs[p].parent;
    assert PcOk(t, p) && ExitOk(t, p, p) && ParentOk(t, p);
    WakeStep(t, p, j, q);
    var u := if j != p then WakeOne(t, j, q) else t;
    assert PcOk(u, p);
    var t' := Step(t, WakeParentOne(p));
    forall c | 0 <= c < |t'.procs|
      ensures ExitOk(t', p, c)
    {
      assert ExitOk(u, p, c);
    }
    MoveStep(u, t', p);
  }

  lemma ReparentStep(t: Table, p: nat)
    requires Inv(t) && Enabled(t, ReparentOne(p))
    ensures Inv(Step(t, ReparentOne(p)))
  {
    var i := t.procs[p].pc.i;
    assert PcOk(t, p);
    if Has(t, i) && t.procs[i].parent == p {
      GiveAwayEach(t, p, i);
      GiveAwayExits(t, p, i);
    } else {
      hide Pairs;
      var t' := Step(t, ReparentOne(p));
      forall c | 0 <= c < |t'.procs|
        ensures ExitOk(t', p, c)
      {
        assert ExitOk(t, p, c);
      }
      MoveStep(t, t', p);
    }
  }

  lemma ScanStep(t: Table, p: nat, fault: bool)
    requires Inv(t) && Enabled(t, ScanOne(p, fault))
    ensures Inv(Step(t, ScanOne(p, fault)))
  {
    var i := t.procs[p].pc.i;
    assert PcOk(t, p);
    if t.procs[i].parent == p && t.procs[i].state.Zombie? && !fault {
      ReapEach(t, p, i);
      ReapRest(t, p, i);
    } else {
      hide Pairs;
      var t' := Step(t, ScanOne(p, fault));
      forall c | 0 <= c < |t'.procs|
        ensures ExitOk(t', p, c)
      {
        assert ExitOk(t, p, c);
      }
      MoveStep(t, t', p);
    }
  }

  lemma LockStep(t: Table, a: Action)
    requires Inv(t) && Enabled(t, a) && (a.Exit? || a.Wait? || a.GiveUp? || a.StartSleep?)
    ensures Inv(Step(t, a))
  {
    hide Pairs;
    assert PcOk(t, a.p);
    var t' := Step(t, a);
    forall c | 0 <= c < |t'.procs|
      ensures ExitOk(t', a.p, c)
      ensures WaitAsleep(t', a.p) && t.procs[c].parent == a.p ==> !t.procs[c].state.Zombie?
    {
      assert ExitOk(t, a.p, c);
    }
    MoveStep(t, t', a.p);
  }

  lemma StepKeepsInv(t: Table, a: Action)
    requires Inv(t) && Enabled(t, a)
    ensures Inv(Step(t, a))
  {
    hide Inv, Enabled, Step;
    match a
    case Alloc(_, _) => ForkStep(t, a);
    case ForkFails(_) => ForkStep(t, a);
    case SetParent(_) => ForkStep(t, a);
    case StartChild(_) => ForkStep(t, a);
    case Exit(_) => LockStep(t, a);
    case Wait(_) => LockStep(t, a);
    case GiveUp(_) => LockStep(t, a);
    case StartSleep(_) => LockStep(t, a);
    case ReparentOne(p) => ReparentStep(t, p);
    case WakeInitOne(p) => WakeInitStep(t, p);
    case WakeParentOne(p) => WakeParentStep(t, p);
    case BecomeZombie(p) => ZombieStep(t, p);
    case ScanOne(p, fault) => ScanStep(t, p, fault);
    case _ => LocalStep(t, a);
  }

  lemma ZombieStep(t: Table, p: nat)
    requires Inv(t) && Enabled(t, BecomeZombie(p))
    ensures Inv(Step(t, BecomeZombie(p)))
  {
    ZombiedEach(t, p);
    ZombiedExits(t, p);
  }

  // ---------- whole runs

  /** userinit has made initproc RUNNABLE; every other slot is free. */
  function Boot(n: nat): Table
    requires n > 0
  {
    Table(seq(n, i => if i == INIT then Proc(Runnable, NULL, false, 1, Idle) else Proc(Unused, NULL, false, 0, Idle)),
          Open, 2, {}, [])
  }

  datatype Outcome = Stopped | Reached(table: Table)

  ghost function Run(n: nat, acts: seq<Action>): Outcome
    requires n > 0
    decreases |acts|
  {
    if acts == [] then Reached(Boot(n))
    else
      var k := |acts| - 1;
      var before := Run(n, acts[..k]);
      if before.Reached? && Enabled(before.table, acts[k]) then Reached(Step(before.table, acts[k])) else Stopped
  }

  lemma BootInv(n: nat)
    requires n > 0
    ensures Inv(Boot(n))
  {
  }

  lemma {:induction false} RunKeepsInv(n: nat, acts: seq<Action>, t: Table)
    requires n > 0 && Run(n, acts) == Reached(t)
    ensures Inv(t)
    decreases |acts|
  {
    hide Inv, Enabled, Step;
    if acts == [] {
      BootInv(n);
    } else {
      var k := |acts| - 1;
      RunKeepsInv(n, acts[..k], Run(n, acts[..k]).table);
      StepKeepsInv(Run(n, acts[..k]).table, acts[k]);
    }
  }

  /** Whenever wait_lock is free, every recorded parent is a process that is neither UNUSED nor
      ZOMBIE, and no process that sleeps in wait, or is about to, has a ZOMBIE child: the wakeup of
      an exiting child is never lost. */
  lemma NoLostWakeup(n: nat, acts: seq<Action>, t: Table)
    requires n > 0 && Run(n, acts) == Reached(t) && t.lock.Open?
    ensures forall c :: Has(t, c) && t.procs[c].parent != NULL ==>
      Has(t, t.procs[c].parent) && !t.procs[t.procs[c].parent].state.Unused? && !t.procs[t.procs[c].parent].state.Zombie?
    ensures forall c :: Has(t, c) && t.procs[c].state.Zombie? ==> !WaitAsleep(t, t.procs[c].parent)
  {
    RunKeepsInv(n, acts, t);
    forall c | Has(t, c)
      ensures t.procs[c].parent != NULL ==> Has(t, t.procs[c].parent) && Live(t.procs[t.procs[c].parent])
    {
      assert ParentOk(t, c);
    }
    DueOnlyToInit(t);
  }

  /** Every pid that wait returns belongs to a process that has exited, and none is returned twice. */
  lemma ReapedAtMostOnce(n: nat, acts: seq<Action>, t: Table)
    requires n > 0 && Run(n, acts) == Reached(t)
    ensures Finite.NoRepeats(t.reaped) && forall i :: 0 <= i < |t.reaped| ==> t.reaped[i] in t.exited
  {
    RunKeepsInv(n, acts, t);
  }

  /** wait frees a process only after that process has left its kernel stack for good. */
  lemma ReapsOnlyTheDead(n: nat, acts: seq<Action>, t: Table, p: nat)
    requires n > 0 && Run(n, acts) == Reached(t) && Enabled(t, ScanOne(p, false))
    requires Step(t, ScanOne(p, false)).reaped != t.reaped
    ensures var i := t.procs[p].pc.i; Has(t, i) && t.procs[i].pc.Dead? && t.procs[i].parent == p
  {
    RunKeepsInv(n, acts, t);
    assert PcOk(t, t.procs[p].pc.i);
  }

  /** A parent that scans for exited children cannot miss one: it neither sleeps nor returns -1
      for lack of children while a child is ZOMBIE. */
  lemma ScanFindsZombie(t: Table, p: nat, c: nat)
    requires Inv(t) && Has(t, p) && Has(t, c) && t.procs[c].state.Zombie? && t.procs[c].parent == p
    requires t.procs[p].pc.Scanning?
    ensures t.procs[p].pc.i <= c && !Enabled(t, StartSleep(p)) && !Enabled(t, GiveUp(p))
  {
    assert ExitOk(t, p, c);
  }
}
