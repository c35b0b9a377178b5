/**
  The family tree of processes as fork, exit, wait and kill should leave it, read off the list of actions
  alone, with exit as a single change.  Every run of module ExitWait keeps to it (kernel/proc.c).
 */
module ProcTree {
  import opened ProcState
  import opened ExitWait

  /** How an existing process is scheduled; Waiting: it has gone to sleep in wait. */
  datatype Mode = Ready | On | Off | Waiting

  datatype Phase = Blank | Fresh | Alive(mode: Mode) | Gone

  /** A slot of the process table: fork is the child of its last allocproc, scan the next slot wait looks at. */
  datatype Life = Life(phase: Phase, parent: int, killed: bool, pid: nat, fork: int, scan: nat)

  datatype Family = Family(lives: seq<Life>, nextpid: nat, exited: set<nat>, returned: seq<nat>)

  const NOBODY: Life := Life(Blank, NULL, false, 0, NULL, 0)

  function Origin(n: nat): Family {
    Family(seq(n, i => if i == INIT then NOBODY.(phase := Alive(Ready), pid := 1) else NOBODY), 2, {}, [])
  }

  function Put(f: Family, p: int, x: Life): Family {
    if 0 <= p < |f.lives| then f.(lives := f.lives[p := x]) else f
  }

  function Get(f: Family, p: int): Life {
    if 0 <= p < |f.lives| then f.lives[p] else NOBODY
  }

  function SetMode(f: Family, p: int, m: Mode): Family {
    Put(f, p, Get(f, p).(phase := Alive(m)))
  }

  /** The exit of p: its children belong to initproc. */
  function Orphaned(x: Life, p: int): Life {
    if x.parent == p then x.(parent := INIT) else x
  }

  function Grow(f: Family, a: Action): (g: Family)
    ensures |g.lives| == |f.lives|
  {
    match a
    case Dispatch(p) => SetMode(f, p, On)
    case Yield(p) => SetMode(f, p, Ready)
    case SleepElsewhere(p) => SetMode(f, p, Off)
    case WakeElsewhere(p) => SetMode(f, p, Ready)
    case FallAsleep(p) => SetMode(f, p, Waiting)
    case Kill(p) =>
      var x := Get(f, p).(killed := true);
      Put(f, p, if x.phase == Alive(Off) || x.phase == Alive(Waiting) then x.(phase := Alive(Ready)) else x)
    case Alloc(p, c) =>
      var g := Put(f, c, Get(f, c).(phase := Fresh, pid := f.nextpid));
      Put(g, p, Get(g, p).(fork := c)).(nextpid := f.nextpid + 1)
    case ForkFails(p) => Put(f, Get(f, p).fork, NOBODY)
    case SetParent(p) => var c := Get(f, p).fork; Put(f, c, Get(f, c).(parent := p))
    case StartChild(p) => SetMode(f, Get(f, p).fork, Ready)
    case BecomeZombie(p) =>
      var g := Put(f, p, Get(f, p).(phase := Gone));
      g.(lives := seq(|g.lives|, i requires 0 <= i < |g.lives| => Orphaned(g.lives[i], p)), exited := f.exited + {Get(f, p).pid})
    case Wait(p) => Put(f, p, Get(f, p).(scan := 0))
    case ScanOne(p, fault) =>
      var i := Get(f, p).scan;
      if Get(f, i).parent != p || !Get(f, i).phase.Gone? then Put(f, p, Get(f, p).(scan := i + 1))
      else if fault then f
      else Put(f, i, NOBODY).(returned := f.returned + [Get(f, i).pid])
    case _ => f
  }

  function FamilyAfter(n: nat, acts: seq<Action>): (f: Family)
    ensures |f.lives| == n
    decreases |acts|
  {
    if acts == [] then Origin(n) else Grow(FamilyAfter(n, acts[..|acts| - 1]), acts[|acts| - 1])
  }

  // ---------- the table agrees with the tree

  predicate PhaseOk(x: Proc, h: Phase) {
    match h
    case Blank => x.state.Unused?
    case Fresh => x.state.Used?
    case Gone => x.state.Zombie?
    case Alive(Ready) => x.state.Runnable?
    case Alive(On) => x.state.Running?
    case Alive(Off) => x.pc.Elsewhere?
    case Alive(Waiting) => x.pc.Asleep? || (x.pc.Awake? && x.state.Runnable?)
  }

  /** The holder of wait_lock is in exit and has given its child away already. */
  predicate GivenAway(t: Table, parent: int, now: int) {
    && t.lock.HeldBy? && t.lock.p == parent && Has(t, parent) && now == INIT
    && (t.procs[parent].pc.Reparenting? || t.procs[parent].pc.WakingInit? || t.procs[parent].pc.WakingParent?)
  }

  predicate LifeOk(t: Table, x: Proc, h: Life) {
    && x.pid == h.pid && x.killed == h.killed && PhaseOk(x, h.phase)
    && (x.pc.Forking? || x.pc.Forked? ==> h.fork == x.pc.child)
    && (x.pc.Scanning? ==> h.scan == x.pc.i)
    && (x.parent == h.parent || GivenAway(t, h.parent, x.parent))
  }

  ghost predicate Agrees(t: Table, f: Family) {
    && |f.lives| == |t.procs| && f.nextpid == t.nextpid && f.exited == t.exited && f.returned == t.reaped
    && forall c :: 0 <= c < |t.procs| ==> LifeOk(t, t.procs[c], f.lives[c])
  }

  /** What is known of one process and of the holder of wait_lock. */
  lemma PlaceOf(t: Table, p: nat)
    requires Inv(t) && Has(t, p)
    ensures PcOk(t, p) && ForkOk(t, p)
  {
  }

  /** Steps of one process outside its section. */
  lemma ScheduleAgrees(t: Table, f: Family, a: Action)
    requires Inv(t) && Enabled(t, a) && Agrees(t, f)
    requires a.Dispatch? || a.Yield? || a.SleepElsewhere? || a.WakeElsewhere?
    ensures Agrees(Step(t, a), Grow(f, a))
  {
    hide Inv;
    PlaceOf(t, a.p);
    var t', f' := Step(t, a), Grow(f, a);
    forall c | 0 <= c < |t'.procs|
      ensures LifeOk(t', t'.procs[c], f'.lives[c])
    {
      PlaceOf(t, c);
      assert LifeOk(t, t.procs[c], f.lives[c]);
    }
  }

  lemma LocalAgrees(t: Table, f: Family, a: Action)
    requires Inv(t) && Enabled(t, a) && Agrees(t, f)
    requires a.Kill? || a.SwitchAway? || a.FallAsleep?
    ensures Agrees(Step(t, a), Grow(f, a))
  {
    hide Inv;
    PlaceOf(t, a.p);
    var t', f' := Step(t, a), Grow(f, a);
    forall c | 0 <= c < |t'.procs|
      ensures LifeOk(t', t'.procs[c], f'.lives[c])
    {
      PlaceOf(t, c);
      assert LifeOk(t, t.procs[c], f.lives[c]);
    }
  }

  lemma AllocAgrees(t: Table, f: Family, a: Action)
    requires Inv(t) && Enabled(t, a) && Agrees(t, f)
    requires a.Alloc? || a.ForkFails?
    ensures Agrees(Step(t, a), Grow(f, a))
  {
    hide Inv;
    PlaceOf(t, a.p);
    assert LifeOk(t, t.procs[a.p], f.lives[a.p]);
    var k := if a.Alloc? then a.c else t.procs[a.p].pc.child;
    PlaceOf(t, k);
    var t', f' := Step(t, a), Grow(f, a);
    forall c | 0 <= c < |t'.procs|
      ensures LifeOk(t', t'.procs[c], f'.lives[c])
    {
      PlaceOf(t, c);
      assert LifeOk(t, t.procs[c], f.lives[c]);
    }
  }

  lemma ForkAgrees(t: Table, f: Family, a: Action)
    requires Inv(t) && Enabled(t, a) && Agrees(t, f)
    requires a.SetParent? || a.StartChild?
    ensures Agrees(Step(t, a), Grow(f, a))
  {
    hide Inv;
    PlaceOf(t, a.p);
    assert LifeOk(t, t.procs[a.p], f.lives[a.p]);
    PlaceOf(t, t.procs[a.p].pc.child);
    var t', f' := Step(t, a), Grow(f, a);
    forall c | 0 <= c < |t'.procs|
      ensures LifeOk(t', t'.procs[c], f'.lives[c])
    {
      PlaceOf(t, c);
      assert LifeOk(t, t.procs[c], f.lives[c]);
    }
  }

  /** The steps of exit before the last, which nobody can tell apart from none. */
  lemma ReparentAgrees(t: Table, f: Family, a: Action)
    requires Inv(t) && Enabled(t, a) && Agrees(t, f)
    requires a.Exit? || a.ReparentOne?
    ensures Agrees(Step(t, a), Grow(f, a))
  {
    hide Inv;
    PlaceOf(t, a.p);
    var t', f' := Step(t, a), Grow(f, a);
    forall c | 0 <= c < |t'.procs|
      ensures LifeOk(t', t'.procs[c], f'.lives[c])
    {
      PlaceOf(t, c);
      assert LifeOk(t, t.procs[c], f.lives[c]);
    }
  }

  lemma WakeInitAgrees(t: Table, f: Family, a: Action)
    requires Inv(t) && Enabled(t, a) && Agrees(t, f)
    requires a.WakeInitOne?
    ensures Agrees(Step(t, a), Grow(f, a))
  {
    hide Inv;
    PlaceOf(t, a.p);
    var t', f' := Step(t, a), Grow(f, a);
    forall c | 0 <= c < |t'.procs|
      ensures LifeOk(t', t'.procs[c], f'.lives[c])
    {
      PlaceOf(t, c);
      assert LifeOk(t, t.procs[c], f.lives[c]);
    }
  }

  lemma WakeParentAgrees(t: Table, f: Family, a: Action)
    requires Inv(t) && Enabled(t, a) && Agrees(t, f)
    requires a.WakeParentOne?
    ensures Agrees(Step(t, a), Grow(f, a))
  {
    hide Inv;
    PlaceOf(t, a.p);
    var t', f' := Step(t, a), Grow(f, a);
    forall c | 0 <= c < |t'.procs|
      ensures LifeOk(t', t'.procs[c], f'.lives[c])
    {
      PlaceOf(t, c);
      assert LifeOk(t, t.procs[c], f.lives[c]);
    }
  }

  lemma ZombieAgrees(t: Table, f: Family, p: nat)
    requires Inv(t) && Enabled(t, BecomeZombie(p)) && Agrees(t, f)
    ensures Agrees(Step(t, BecomeZombie(p)), Grow(f, BecomeZombie(p)))
  {
    PlaceOf(t, p);
    assert forall c :: 0 <= c < |t.procs| ==> t.procs[c].parent != p by {
      forall c | 0 <= c < |t.procs|
        ensures t.procs[c].parent != p
      {
        assert ExitOk(t, p, c);
      }
    }
    assert LifeOk(t, t.procs[p], f.lives[p]);
    hide Inv;
    var t', f' := Step(t, BecomeZombie(p)), Grow(f, BecomeZombie(p));
    forall c | 0 <= c < |t'.procs|
      ensures LifeOk(t', t'.procs[c], f'.lives[c])
    {
      PlaceOf(t, c);
      assert LifeOk(t, t.procs[c], f.lives[c]);
    }
  }

  lemma WaitAgrees(t: Table, f: Family, a: Action)
    requires Inv(t) && Enabled(t, a) && Agrees(t, f)
    requires a.Wait? || a.ScanOne? || a.GiveUp? || a.StartSleep?
    ensures Agrees(Step(t, a), Grow(f, a))
  {
    hide Inv;
    PlaceOf(t, a.p);
    assert LifeOk(t, t.procs[a.p], f.lives[a.p]);
    if a.ScanOne? {
      var i := t.procs[a.p].pc.i;
      PlaceOf(t, i);
      assert LifeOk(t, t.procs[i], f.lives[i]);
    }
    var t', f' := Step(t, a), Grow(f, a);
    forall c | 0 <= c < |t'.procs|
      ensures LifeOk(t', t'.procs[c], f'.lives[c])
    {
      PlaceOf(t, c);
      assert LifeOk(t, t.procs[c], f.lives[c]);
    }
  }

  lemma StepAgrees(t: Table, f: Family, a: Action)
    requires Inv(t) && Enabled(t, a) && Agrees(t, f)
    ensures Agrees(Step(t, a), Grow(f, a))
  {
    hide Inv, Enabled, Step, Grow, Agrees;
    match a
    case Alloc(_, _) => AllocAgrees(t, f, a);
    case ForkFails(_) => AllocAgrees(t, f, a);
    case SetParent(_) => ForkAgrees(t, f, a);
    case StartChild(_) => ForkAgrees(t, f, a);
    case Exit(_) => ReparentAgrees(t, f, a);
    case ReparentOne(_) => ReparentAgrees(t, f, a);
    case WakeInitOne(_) => WakeInitAgrees(t, f, a);
    case WakeParentOne(_) => WakeParentAgrees(t, f, a);
    case BecomeZombie(p) => ZombieAgrees(t, f, p);
    case Wait(_) => WaitAgrees(t, f, a);
    case ScanOne(_, _) => WaitAgrees(t, f, a);
    case GiveUp(_) => WaitAgrees(t, f, a);
    case StartSleep(_) => WaitAgrees(t, f, a);
    case Kill(_) => LocalAgrees(t, f, a);
    case SwitchAway(_) => LocalAgrees(t, f, a);
    case FallAsleep(_) => LocalAgrees(t, f, a);
    case _ => ScheduleAgrees(t, f, a);
  }

  lemma OriginAgrees(n: nat)
    requires n > 0
    ensures Agrees(Boot(n), Origin(n))
  {
  }

  lemma {:induction false} RunAgrees(n: nat, acts: seq<Action>, t: Table)
    requires n > 0 && Run(n, acts) == Reached(t)
    ensures Inv(t) && Agrees(t, FamilyAfter(n, acts))
    decreases |acts|
  {
    hide Inv, Enabled, Step, Grow, Agrees;
    RunKeepsInv(n, acts, t);
    if acts == [] {
      OriginAgrees(n);
    } else {
      var k := |acts| - 1;
      RunAgrees(n, acts[..k], Run(n, acts[..k]).table);
      StepAgrees(Run(n, acts[..k]).table, FamilyAfter(n, acts[..k]), acts[k]);
    }
  }

  /**
    In every run the process table is the family tree of its actions: the same processes exist, with the same pids
    and killed flags, and the same ones have exited; the running process runs, and a sleeper sleeps unless it
    waits for a child and was woken.  While wait_lock is free the parents are the same too: the forker, or
    initproc once the forker has exited.
   */
  lemma TreeExact(n: nat, acts: seq<Action>, t: Table, c: nat)
    requires n > 0 && Run(n, acts) == Reached(t) && c < n
    ensures |t.procs| == n == |FamilyAfter(n, acts).lives|
    ensures t.reaped == FamilyAfter(n, acts).returned && t.exited == FamilyAfter(n, acts).exited
    ensures var x, h := t.procs[c], FamilyAfter(n, acts).lives[c];
      && x.pid == h.pid && x.killed == h.killed
      && (x.state.Unused? <==> h.phase.Blank?) && (x.state.Used? <==> h.phase.Fresh?) && (x.state.Zombie? <==> h.phase.Gone?)
      && (x.state.Running? <==> h.phase == Alive(On))
      && (x.state.Sleeping? ==> h.phase == Alive(Off) || h.phase == Alive(Waiting))
      && (h.phase == Alive(Off) ==> x.state.Sleeping?)
      && (t.lock.Open? ==> x.parent == h.parent)
  {
    hide Inv, Run, FamilyAfter;
    RunAgrees(n, acts, t);
    LifeAt(t, FamilyAfter(n, acts), c);
  }

  lemma LifeAt(t: Table, f: Family, c: nat)
    requires Inv(t) && Agrees(t, f) && Has(t, c)
    ensures c < |f.lives| && LifeOk(t, t.procs[c], f.lives[c]) && PcOk(t, c)
  {
    PlaceOf(t, c);
  }

  // ---------- what wait returns

  /** A scan of wait has seen a child exactly if there is one among the slots it has looked at. */
  ghost predicate KidsOk(t: Table, p: nat)
    requires Has(t, p)
  {
    t.procs[p].pc.Scanning? ==> (t.procs[p].pc.kids <==> exists c :: 0 <= c < t.procs[p].pc.i && IsChild(t, c, p))
  }

  predicate IsChild(t: Table, c: nat, p: nat) {
    Has(t, c) && t.procs[c].parent == p
  }

  /** No other process changes a parent, or its place in wait, while p holds wait_lock. */
  lemma ParentsFixed(t: Table, a: Action, p: nat, c: nat)
    requires Inv(t) && Enabled(t, a) && Has(t, p) && Has(t, c) && a.p != p && t.procs[p].pc.Scanning?
    ensures |Step(t, a).procs| == |t.procs| && Step(t, a).procs[p].pc == t.procs[p].pc
    ensures Step(t, a).procs[c].parent == t.procs[c].parent
  {
    hide Inv;
    PlaceOf(t, p);
    PlaceOf(t, c);
    if Has(t, a.p) {
      PlaceOf(t, a.p);
    }
  }

  lemma StepKeepsKids(t: Table, a: Action, p: nat)
    requires Inv(t) && Enabled(t, a) && Has(t, p) && KidsOk(t, p)
    ensures Has(Step(t, a), p) && KidsOk(Step(t, a), p)
  {
    var t' := Step(t, a);
    if a.p == p {
      OwnScan(t, a);
    } else {
      NotScanning(t, a, p);
      if t.procs[p].pc.Scanning? {
        forall c: nat | Has(t, c)
          ensures IsChild(t', c, p) == IsChild(t, c, p) && t'.procs[p].pc == t.procs[p].pc
        {
          ParentsFixed(t, a, p, c);
        }
        ParentsFixed(t, a, p, p);
        hide Inv, Step, Enabled;
        assert forall c: nat :: IsChild(t', c, p) == IsChild(t, c, p);
      }
    }
  }

  lemma NotScanning(t: Table, a: Action, p: nat)
    requires Enabled(t, a) && Has(t, p) && a.p != p
    ensures Has(Step(t, a), p) && (Step(t, a).procs[p].pc.Scanning? ==> t.procs[p].pc.Scanning?)
  {
  }

  lemma OwnScan(t: Table, a: Action)
    requires Inv(t) && Enabled(t, a) && Has(t, a.p) && KidsOk(t, a.p)
    ensures Has(Step(t, a), a.p) && KidsOk(Step(t, a), a.p)
  {
    hide Inv;
    PlaceOf(t, a.p);
    var t' := Step(t, a);
    if t'.procs[a.p].pc.Scanning? && a.ScanOne? {
      var p, i := a.p, t.procs[a.p].pc.i;
      assert forall c: nat :: IsChild(t', c, p) == IsChild(t, c, p);
      if t'.procs[p].pc.kids {
        assert exists c :: 0 <= c < i + 1 && IsChild(t', c, p) by {
          if t.procs[p].pc.kids {
            var c :| 0 <= c < i && IsChild(t, c, p);
            assert IsChild(t', c, p);
          } else {
            assert IsChild(t', i, p);
          }
        }
      }
    } else if a.Kill? {
      assert forall c: nat :: IsChild(t', c, a.p) == IsChild(t, c, a.p);
    }
  }

  lemma {:induction false} RunKeepsKids(n: nat, acts: seq<Action>, t: Table, p: nat)
    requires n > 0 && Run(n, acts) == Reached(t) && Has(t, p)
    ensures KidsOk(t, p)
    decreases |acts|
  {
    hide Inv, Enabled, Step, KidsOk;
    if acts == [] {
      assert KidsOk(t, p) by { BootKids(n, p); }
    } else {
      var k := |acts| - 1;
      var before := Run(n, acts[..k]).table;
      RunKeepsInv(n, acts[..k], before);
      RunAgrees(n, acts[..k], before);
      RunAgrees(n, acts, t);
      RunKeepsKids(n, acts[..k], before, p);
      StepKeepsKids(before, acts[k], p);
    }
  }

  lemma BootKids(n: nat, p: nat)
    requires 0 < n && p < n
    ensures KidsOk(Boot(n), p)
  {
  }

  /** c is a child of p in the tree. */
  predicate ChildIn(f: Family, c: nat, p: nat) {
    c < |f.lives| && f.lives[c].parent == p
  }

  /**
    A wait that has looked at every slot without reaping returns -1 exactly if the caller was killed or has no
    child in the tree, and otherwise goes to sleep; none of its children has exited then.
   */
  lemma WaitExact(n: nat, acts: seq<Action>, t: Table, p: nat)
    requires n > 0 && Run(n, acts) == Reached(t) && Has(t, p) && t.procs[p].pc.Scanning? && !Has(t, t.procs[p].pc.i)
    ensures p < n
    ensures var f := FamilyAfter(n, acts);
      && (Enabled(t, GiveUp(p)) <==> f.lives[p].killed || forall c: nat :: !ChildIn(f, c, p))
      && (Enabled(t, StartSleep(p)) <==> !f.lives[p].killed && exists c: nat :: ChildIn(f, c, p))
      && forall c: nat :: ChildIn(f, c, p) ==> !f.lives[c].phase.Gone?
  {
    hide Inv, Run, FamilyAfter, Agrees;
    RunAgrees(n, acts, t);
    RunKeepsKids(n, acts, t, p);
    var f := FamilyAfter(n, acts);
    LifeAt(t, f, p);
    SameLength(t, f);
    forall c: nat | c < n
      ensures ChildIn(f, c, p) == IsChild(t, c, p) && (ChildIn(f, c, p) ==> !f.lives[c].phase.Gone?)
    {
      ChildSeen(t, f, p, c);
    }
    assert forall c: nat :: ChildIn(f, c, p) == IsChild(t, c, p);
  }

  lemma SameLength(t: Table, f: Family)
    requires Agrees(t, f)
    ensures |t.procs| == |f.lives|
  {
  }

  /** While p scans, table and tree agree about its children; none of those it has passed has exited. */
  lemma ChildSeen(t: Table, f: Family, p: nat, c: nat)
    requires Inv(t) && Agrees(t, f) && Has(t, p) && Has(t, c) && t.procs[p].pc.Scanning?
    ensures ChildIn(f, c, p) == IsChild(t, c, p)
    ensures ChildIn(f, c, p) && c < t.procs[p].pc.i ==> !f.lives[c].phase.Gone?
  {
    assert ExitOk(t, p, c);
    hide Inv;
    LifeAt(t, f, p);
    LifeAt(t, f, c);
  }

  // ---------- a parent that waits for its child

  lemma Extend(n: nat, acts: seq<Action>, t: Table, a: Action, t': Table)
    requires n > 0 && Run(n, acts) == Reached(t) && Enabled(t, a) && Step(t, a) == t'
    ensures Run(n, acts + [a]) == Reached(t')
  {
    assert (acts + [a])[..|acts|] == acts;
  }

  lemma BootOfTwo()
    ensures Run(2, []) == Reached(Table([Proc(Runnable, NULL, false, 1, Idle), Proc(Unused, NULL, false, 0, Idle)], Open, 2, {}, []))
  {
    assert Boot(2).procs == [Proc(Runnable, NULL, false, 1, Idle), Proc(Unused, NULL, false, 0, Idle)];
  }

  /** A table of process 0, at place pc, and its child. */
  function Pair(x: Proc, pc: Pc, y: Proc, lock: Lock): Table {
    Table([x.(pc := pc), y], lock, 3, {}, [])
  }

  /** Process 0 forks process 1. */
  lemma ParentForks() returns (acts: seq<Action>)
    ensures Run(2, acts) == Reached(Pair(Proc(Running, NULL, false, 1, Idle), Idle, Proc(Runnable, 0, false, 2, Idle), Open))
  {
    hide Run;
    BootOfTwo();
    var x, y := Proc(Running, NULL, false, 1, Idle), Proc(Used, NULL, false, 2, Idle);
    var t1 := Table([x, Proc(Unused, NULL, false, 0, Idle)], Open, 2, {}, []);
    Extend(2, [], Table([x.(state := Runnable), t1.procs[1]], Open, 2, {}, []), Dispatch(0), t1);
    Extend(2, [] + [Dispatch(0)], t1, Alloc(0, 1), Pair(x, Forking(1), y, Open));
    acts := [] + [Dispatch(0)] + [Alloc(0, 1)];
    Extend(2, acts, Pair(x, Forking(1), y, Open), SetParent(0), Pair(x, Forked(1), y.(parent := 0), Open));
    acts := acts + [SetParent(0)];
    Extend(2, acts, Pair(x, Forked(1), y.(parent := 0), Open), StartChild(0), Pair(x, Idle, y.(parent := 0, state := Runnable), Open));
    acts := acts + [StartChild(0)];
  }

  /** It finds the child alive and goes to sleep. */
  lemma ParentScans() returns (acts: seq<Action>)
    ensures Run(2, acts) ==
      Reached(Pair(Proc(Running, NULL, false, 1, Idle), Scanning(2, true), Proc(Runnable, 0, false, 2, Idle), HeldBy(0)))
  {
    hide Run;
    acts := ParentForks();
    var x, y := Proc(Running, NULL, false, 1, Idle), Proc(Runnable, 0, false, 2, Idle);
    Extend(2, acts, Pair(x, Idle, y, Open), Wait(0), Pair(x, Scanning(0, false), y, HeldBy(0)));
    acts := acts + [Wait(0)];
    Extend(2, acts, Pair(x, Scanning(0, false), y, HeldBy(0)), ScanOne(0, false), Pair(x, Scanning(1, false), y, HeldBy(0)));
    acts := acts + [ScanOne(0, false)];
    Extend(2, acts, Pair(x, Scanning(1, false), y, HeldBy(0)), ScanOne(0, false), Pair(x, Scanning(2, true), y, HeldBy(0)));
    acts := acts + [ScanOne(0, false)];
  }

  lemma ParentSleeps() returns (acts: seq<Action>)
    ensures Run(2, acts) == Reached(Pair(Proc(Sleeping, NULL, false, 1, Idle), Asleep, Proc(Runnable, 0, false, 2, Idle), Open))
  {
    hide Run;
    acts := ParentScans();
    var x, y := Proc(Running, NULL, false, 1, Idle), Proc(Runnable, 0, false, 2, Idle);
    Extend(2, acts, Pair(x, Scanning(2, true), y, HeldBy(0)), StartSleep(0), Pair(x, Window, y, Open));
    acts := acts + [StartSleep(0)];
    Extend(2, acts, Pair(x, Window, y, Open), FallAsleep(0), Pair(x.(state := Sleeping), Asleep, y, Open));
    acts := acts + [FallAsleep(0)];
  }

  /** The child runs and exits, up to the wakeup of its parent. */
  lemma ChildExits() returns (acts: seq<Action>)
    ensures Run(2, acts) ==
      Reached(Pair(Proc(Runnable, NULL, false, 1, Idle), Awake, Proc(Running, 0, false, 2, WakingParent(2)), HeldBy(1)))
  {
    hide Run;
    acts := ParentSleeps();
    var x, y := Proc(Sleeping, NULL, false, 1, Idle), Proc(Running, 0, false, 2, Idle);
    Extend(2, acts, Pair(x, Asleep, y.(state := Runnable), Open), Dispatch(1), Pair(x, Asleep, y, Open));
    acts := acts + [Dispatch(1)];
    Extend(2, acts, Pair(x, Asleep, y, Open), Exit(1), Pair(x, Asleep, y.(pc := Reparenting(0)), HeldBy(1)));
    acts := acts + [Exit(1)];
    Extend(2, acts, Pair(x, Asleep, y.(pc := Reparenting(0)), HeldBy(1)), ReparentOne(1), Pair(x, Asleep, y.(pc := Reparenting(1)), HeldBy(1)));
    acts := acts + [ReparentOne(1)];
    Extend(2, acts, Pair(x, Asleep, y.(pc := Reparenting(1)), HeldBy(1)), ReparentOne(1), Pair(x, Asleep, y.(pc := Reparenting(2)), HeldBy(1)));
    acts := acts + [ReparentOne(1)];
    Extend(2, acts, Pair(x, Asleep, y.(pc := Reparenting(2)), HeldBy(1)), ReparentOne(1), Pair(x, Asleep, y.(pc := WakingParent(0)), HeldBy(1)));
    acts := acts + [ReparentOne(1)];
    var z := x.(state := Runnable);
    Extend(2, acts, Pair(x, Asleep, y.(pc := WakingParent(0)), HeldBy(1)), WakeParentOne(1), Pair(z, Awake, y.(pc := WakingParent(1)), HeldBy(1)));
    acts := acts + [WakeParentOne(1)];
    Extend(2, acts, Pair(z, Awake, y.(pc := WakingParent(1)), HeldBy(1)), WakeParentOne(1), Pair(z, Awake, y.(pc := WakingParent(2)), HeldBy(1)));
    acts := acts + [WakeParentOne(1)];
  }

  lemma ChildDies() returns (acts: seq<Action>)
    ensures Run(2, acts) ==
      Reached(Table([Proc(Runnable, NULL, false, 1, Awake), Proc(Zombie, 0, false, 2, Dead)], Open, 3, {2}, []))
  {
    hide Run;
    acts := ChildExits();
    var x, y := Proc(Runnable, NULL, false, 1, Awake), Proc(Zombie, 0, false, 2, Dying);
    var t := Table([x, y], Open, 3, {2}, []);
    Extend(2, acts, Pair(x, Awake, Proc(Running, 0, false, 2, WakingParent(2)), HeldBy(1)), BecomeZombie(1), t);
    acts := acts + [BecomeZombie(1)];
    Extend(2, acts, t, SwitchAway(1), Table([x, y.(pc := Dead)], Open, 3, {2}, []));
    acts := acts + [SwitchAway(1)];
  }

  /** A run in which a parent forks, sleeps in wait, is woken by the exit of its child and returns the child's pid. */
  lemma ParentReapsChild() returns (acts: seq<Action>, t: Table)
    ensures Run(2, acts) == Reached(t) && t.reaped == [2] && t.lock.Open?
    ensures t.procs == [Proc(Running, NULL, false, 1, Idle), Proc(Unused, NULL, false, 0, Idle)]
  {
    hide Run;
    acts := ChildDies();
    var y, run := Proc(Zombie, 0, false, 2, Dead), Proc(Running, NULL, false, 1, Awake);
    var t1 := Table([run.(state := Runnable), y], Open, 3, {2}, []);
    var t2 := t1.(procs := [run, y]);
    Extend(2, acts, t1, Dispatch(0), t2);
    acts := acts + [Dispatch(0)];
    var t3 := t2.(procs := [run.(pc := Scanning(0, false)), y], lock := HeldBy(0));
    Extend(2, acts, t2, Wait(0), t3);
    acts := acts + [Wait(0)];
    var t4 := t3.(procs := [run.(pc := Scanning(1, false)), y]);
    Extend(2, acts, t3, ScanOne(0, false), t4);
    acts := acts + [ScanOne(0, false)];
    t := Table([run.(pc := Idle), Proc(Unused, NULL, false, 0, Idle)], Open, 3, {2}, [2]);
    Extend(2, acts, t4, ScanOne(0, false), t);
    acts := acts + [ScanOne(0, false)];
  }
}
