/** What every run of the log keeps: crash atomicity, isolation and read-your-writes. */
module LogTheorems {
  import opened Layout
  import opened LogHeader
  import opened LogSystem
  import opened LogRefinement
  import A = LogAdmission

  // ---------- one step

  lemma StepRefines(g: Geometry, s: State, a: Action)
    requires Inv(g, s) && Enabled(g, s, a)
    ensures Refines(g, s, EffectOf(s, a), Apply(g, s, a))
  {
    match a
    case Get(t, b, stale) => GetCache(g, s, t, b, stale); BufferStep(g, s, DoGet(s, t, b, stale));
    case Lock(t, b) => LockCache(g, s, t, b); BufferStep(g, s, DoLock(s, t, b));
    case Edit(t, b, v) => EditRefines(g, s, t, b, v);
    case LogWrite(t, b) => LogWriteRefines(g, s, t, b);
    case Release(t, b) => ReleaseCache(g, s, t, b); BufferStep(g, s, DoRelease(s, t, b));
    case Evict(b) => EvictRefines(g, s, b);
    case Begin(t) => BeginRefines(g, s, t);
    case End(t) => EndRefines(g, s, t);
    case CommitBlock => CommitBlockRefines(g, s);
    case CommitHead => CommitHeadRefines(g, s, PutHeader(Fetch(s, g.start), s.adm.lh));
    case CommitInstall => CommitInstallRefines(g, s);
    case CommitErase => CommitEraseRefines(g, s, PutHeader(Fetch(s, g.start), []));
    case CommitDone => CommitDoneRefines(g, s);
    case Crash => CrashRefines(g, s);
    case ReadHead => ReadHeadRefines(g, s);
    case ReplayBlock => ReplayBlockRefines(g, s);
    case ReplayErase => ReplayEraseRefines(g, s, PutHeader(Fetch(s, g.start), []));
  }

  // ---------- runs

  datatype Outcome = Stopped | Reached(state: State)

  /** The state after a sequence of actions, or Stopped when one of them cannot happen. */
  ghost function Run(g: Geometry, s: State, acts: seq<Action>): Outcome
    decreases |acts|
  {
    if acts == [] then Reached(s)
    else
      var n := |acts| - 1;
      var before := Run(g, s, acts[..n]);
      if before.Reached? && Ready(g, before.state) && Enabled(g, before.state, acts[n])
      then Reached(Apply(g, before.state, acts[n]))
      else Stopped
  }

  /** The machine just after power-on, with nothing but a formatted disk. */
  function PowerOn(disk: Disk, nproc: nat): State {
    State(disk, map[], A.Init(nproc), {}, Booting)
  }

  lemma PowerOnInv(g: Geometry, disk: Disk, nproc: nat)
    requires DiskOk(g, disk)
    ensures Inv(g, PowerOn(disk, nproc))
  {
  }

  lemma {:induction false} RunKeepsInv(g: Geometry, s: State, acts: seq<Action>)
    requires Inv(g, s) && Run(g, s, acts).Reached?
    ensures Inv(g, Run(g, s, acts).state)
    decreases |acts|
  {
    if acts != [] {
      var n := |acts| - 1;
      RunKeepsInv(g, s, acts[..n]);
      StepRefines(g, Run(g, s, acts[..n]).state, acts[n]);
    }
  }

  // ---------- refinement over whole runs

  ghost function EffectsOf(g: Geometry, s: State, acts: seq<Action>): seq<Effect>
    requires Run(g, s, acts).Reached?
    decreases |acts|
  {
    if acts == [] then []
    else
      var n := |acts| - 1;
      EffectsOf(g, s, acts[..n]) + [EffectOf(Run(g, s, acts[..n]).state, acts[n])]
  }

  /** The block store can go from x to y with exactly these effects. */
  ghost predicate StoreRun(x: Store, es: seq<Effect>, y: Store)
    decreases |es|
  {
    if es == [] then y == x
    else
      var front, last := es[..|es| - 1], es[|es| - 1];
      exists z :: StoreRun(x, front, z) && StoreStep(z, last, y)
  }

  /** Every run of log, cache and disk, with any interleaving and any number of crashes, is a
      run of the atomic block store. */
  lemma {:induction false} RunRefines(g: Geometry, s: State, acts: seq<Action>)
    requires Inv(g, s) && Run(g, s, acts).Reached?
    ensures Inv(g, Run(g, s, acts).state)
    ensures StoreRun(Abs(g, s), EffectsOf(g, s, acts), Abs(g, Run(g, s, acts).state))
    decreases |acts|
  {
    if acts != [] {
      var n := |acts| - 1;
      RunRefines(g, s, acts[..n]);
      var before := Run(g, s, acts[..n]).state;
      StepRefines(g, before, acts[n]);
      var es := EffectsOf(g, s, acts);
      assert es[..n] == EffectsOf(g, s, acts[..n]) by { EffectsLength(g, s, acts[..n]); }
      EffectsLength(g, s, acts);
      assert StoreRun(Abs(g, s), es[..n], Abs(g, before));
    }
  }

  lemma {:induction false} EffectsLength(g: Geometry, s: State, acts: seq<Action>)
    requires Run(g, s, acts).Reached?
    ensures |EffectsOf(g, s, acts)| == |acts|
    decreases |acts|
  {
    if acts != [] {
      EffectsLength(g, s, acts[..|acts| - 1]);
    }
  }

  // ---------- crash atomicity

  /** The value of block b after a run, read off the actions alone: the last edit, or after a crash what
      was committed.  At the start readers see l0 and recovery would restore c0. */
  function EditedTo(l0: Block, c0: Block, acts: seq<Action>, b: nat): Block
    decreases |acts|
  {
    if acts == [] then l0
    else
      var n := |acts| - 1;
      match acts[n]
      case Edit(_, c, v) => if c == b then v else EditedTo(l0, c0, acts[..n], b)
      case Crash => CommittedTo(l0, c0, acts[..n], b)
      case _ => EditedTo(l0, c0, acts[..n], b)
  }

  /** The value of block b at the last commit point of a run. */
  function CommittedTo(l0: Block, c0: Block, acts: seq<Action>, b: nat): Block
    decreases |acts|
  {
    if acts == [] then c0
    else
      var n := |acts| - 1;
      if acts[n].CommitHead? then EditedTo(l0, c0, acts[..n], b) else CommittedTo(l0, c0, acts[..n], b)
  }

  /** In every state of every run readers see the last edit, and the disk alone determines the last
      committed value, of every block. */
  lemma {:induction false} DiskHoldsLastCommit(g: Geometry, s: State, acts: seq<Action>, r: State, b: nat)
    requires Inv(g, s) && Run(g, s, acts) == Reached(r) && Home(g, b)
    ensures Inv(g, r) && b in Abs(g, s).current && b in Abs(g, r).current
    ensures var l0, c0 := Abs(g, s).current[b], Durable(g, s.disk)[b];
      && Abs(g, r).current[b] == EditedTo(l0, c0, acts, b)
      && Durable(g, r.disk)[b] == CommittedTo(l0, c0, acts, b)
    decreases |acts|
  {
    hide Ready, Enabled, Apply, Inv, Durable;
    RunKeepsInv(g, s, acts);
    HomeIsThere(g, s, b);
    HomeIsThere(g, r, b);
    if acts != [] {
      var n := |acts| - 1;
      var before := Run(g, s, acts[..n]).state;
      DiskHoldsLastCommit(g, s, acts[..n], before, b);
      StepRefines(g, before, acts[n]);
    }
  }

  lemma HomeIsThere(g: Geometry, s: State, b: nat)
    requires Inv(g, s) && Home(g, b)
    ensures DiskOk(g, s.disk) && b in Abs(g, s).current && b in Durable(g, s.disk)
  {
  }

  /** A commit point is reached only with no operation inside, so every committed state holds
      only operations that have ended. */
  lemma CommitIsQuiescent(g: Geometry, s: State, acts: seq<Action>, r: State)
    requires Inv(g, s) && Run(g, s, acts) == Reached(r) && Enabled(g, r, CommitHead)
    ensures Inv(g, r) && r.adm.outstanding == 0 && forall t :: 0 <= t < |r.adm.ops| ==> !r.adm.ops[t].Active?
  {
    RunKeepsInv(g, s, acts);
    forall t | 0 <= t < |r.adm.ops|
      ensures !r.adm.ops[t].Active?
    {
      if r.adm.ops[t].Active? {
        A.ActiveCounted(r.adm.ops, t);
      }
    }
  }

  predicate RecoveryAction(a: Action) {
    a.Crash? || a.ReadHead? || a.ReplayBlock? || a.ReplayErase? || a.Evict?
  }

  predicate AllRecovery(acts: seq<Action>) {
    forall i :: 0 <= i < |acts| ==> RecoveryAction(acts[i])
  }

  lemma RunningIsHome(g: Geometry, s: State)
    requires Inv(g, s) && s.phase.Running?
    ensures forall b :: Home(g, b) ==> s.disk[b] == Durable(g, s.disk)[b]
  {
  }

  /** Recovery, interrupted by any number of further crashes, changes nothing that recovery
      will find in the end; once it finishes, the home blocks themselves are that state. */
  lemma {:induction false} RecoveryExact(g: Geometry, s: State, acts: seq<Action>, r: State)
    requires Inv(g, s) && Run(g, s, acts) == Reached(r) && AllRecovery(acts)
    ensures Inv(g, r) && Durable(g, r.disk) == Durable(g, s.disk)
    ensures r.phase.Running? ==> forall b :: Home(g, b) ==> r.disk[b] == Durable(g, s.disk)[b]
    decreases |acts|
  {
    hide Ready, Enabled, Apply, Inv, Durable;
    if acts != [] {
      var n := |acts| - 1;
      var before := Run(g, s, acts[..n]).state;
      RecoveryExact(g, s, acts[..n], before);
      assert RecoveryAction(acts[n]);
      StepRefines(g, before, acts[n]);
    }
    if r.phase.Running? {
      RunningIsHome(g, r);
    }
  }

  /** What may happen while a commit runs: its own steps, readers, and recycling of buffers. */
  predicate CommitAction(a: Action) {
    || a.CommitBlock? || a.CommitHead? || a.CommitInstall? || a.CommitErase?
    || a.Get? || a.Lock? || a.Release? || a.Evict?
  }

  predicate AllCommit(acts: seq<Action>) {
    forall i :: 0 <= i < |acts| ==> CommitAction(acts[i])
  }

  predicate HeadWritten(acts: seq<Action>) {
    exists i :: 0 <= i < |acts| && acts[i].CommitHead?
  }

  lemma HeadWrittenPrefix(acts: seq<Action>)
    requires acts != []
    ensures HeadWritten(acts) <==> HeadWritten(acts[..|acts| - 1]) || acts[|acts| - 1].CommitHead?
  {
    var n := |acts| - 1;
    assert forall i :: 0 <= i < n ==> acts[..n][i] == acts[i];
    if HeadWritten(acts[..n]) {
      var i :| 0 <= i < n && acts[..n][i].CommitHead?;
      assert acts[i].CommitHead?;
    }
  }

  /** During a commit readers see the same blocks throughout, and the disk holds the old state
      until the header is written and the new one from then on. */
  lemma {:induction false} CommitProgress(g: Geometry, s: State, acts: seq<Action>, r: State)
    requires Inv(g, s) && Run(g, s, acts) == Reached(r) && AllCommit(acts)
    ensures Inv(g, r) && Abs(g, r).current == Abs(g, s).current
    ensures Durable(g, r.disk) == if HeadWritten(acts) then Abs(g, s).current else Durable(g, s.disk)
    decreases |acts|
  {
    hide Ready, Enabled, Apply, Inv, Durable;
    if acts != [] {
      var n := |acts| - 1;
      var before := Run(g, s, acts[..n]).state;
      CommitProgress(g, s, acts[..n], before);
      HeadWrittenPrefix(acts);
      assert CommitAction(acts[n]);
      StepRefines(g, before, acts[n]);
    }
  }

  /** Crash atomicity of commit(): stop it after any of its block writes, crash, and recover
      with any number of further crashes.  The home blocks are then all as before the
      transaction or all as the transaction left them, and which of the two depends only on
      whether the header was written. */
  lemma CrashAtomicity(g: Geometry, s: State, commit: seq<Action>, mid: State, recovery: seq<Action>, r: State)
    requires Inv(g, s) && Run(g, s, commit) == Reached(mid) && AllCommit(commit)
    requires Run(g, Crashed(mid), recovery) == Reached(r) && AllRecovery(recovery) && r.phase.Running?
    ensures var whole := if HeadWritten(commit) then Abs(g, s).current else Durable(g, s.disk);
      forall b :: Home(g, b) ==> b in whole && b in r.disk && r.disk[b] == whole[b]
  {
    CommitProgress(g, s, commit, mid);
    CrashRefines(g, mid);
    RecoveryExact(g, Crashed(mid), recovery, r);
  }

  // ---------- what readers and writers may rely on

  /** In every run bread returns the last edit of the block, wherever it is kept: the value of the last
      Edit since the last crash, or else what was committed before it, or else what the disk held at
      power-on once recovered. */
  lemma BreadSeesLatestEdit(g: Geometry, disk: Disk, nproc: nat, acts: seq<Action>, r: State, t: nat, b: nat)
    requires DiskOk(g, disk) && Run(g, PowerOn(disk, nproc), acts) == Reached(r) && Enabled(g, r, Lock(t, b))
    ensures Ready(g, r) && Home(g, b) && b in Durable(g, disk)
    ensures var v := Durable(g, disk)[b]; Apply(g, r, Lock(t, b)).cache[b].data == EditedTo(v, v, acts, b)
  {
    hide Run, Durable, Enabled, Apply;
    PowerOnInv(g, disk, nproc);
    RunKeepsInv(g, PowerOn(disk, nproc), acts);
    LockReads(g, r, t, b);
    DiskHoldsLastCommit(g, PowerOn(disk, nproc), acts, r, b);
    DownCurrent(g, PowerOn(disk, nproc));
  }

  lemma LockReads(g: Geometry, s: State, t: nat, b: nat)
    requires Inv(g, s) && Enabled(g, s, Lock(t, b))
    ensures Home(g, b) && b in Abs(g, s).current && Apply(g, s, Lock(t, b)).cache[b].data == Abs(g, s).current[b]
  {
    assert BufOk(g, s, b);
  }

  /** No home block is written before the header that names it is on the disk. */
  lemma WriteAhead(g: Geometry, s: State, a: Action, b: nat)
    requires Inv(g, s) && Enabled(g, s, a) && Home(g, b)
    requires b in Apply(g, s, a).disk && Apply(g, s, a).disk[b] != s.disk[b]
    ensures b in Head(g, s.disk)
  {
    hide CacheOk, DirtyOk, AdmOk, LogHolds, HomeHolds, DiskOk, PutHeader;
  }

  /** In every run each logged block carries exactly one pin of the log until install_trans drops it, and
      a buffer can be recycled only without pin and users. */
  lemma PinsExact(g: Geometry, disk: Disk, nproc: nat, acts: seq<Action>, s: State, b: nat)
    requires DiskOk(g, disk) && Run(g, PowerOn(disk, nproc), acts) == Reached(s) && Up(s) && b in s.cache
    ensures Unpinned(s) <= |s.adm.lh|
    ensures s.cache[b].refcnt == |s.cache[b].users| + (if b in s.adm.lh[Unpinned(s)..] then 1 else 0)
    ensures Enabled(g, s, Evict(b)) ==> b !in s.adm.lh[Unpinned(s)..] && s.cache[b].users == {}
  {
    PowerOnInv(g, disk, nproc);
    RunKeepsInv(g, PowerOn(disk, nproc), acts);
    assert BufOk(g, s, b);
  }

  // ---------- invariants of the blocks

  ghost predicate NoLost(es: seq<Effect>) {
    forall i :: 0 <= i < |es| ==> !es[i].Lost?
  }

  /** Any stretch of the run without a crash, from a moment with no operation inside to another, keeps `good`. */
  ghost predicate OpsKeep(x0: Store, es: seq<Effect>, good: map<nat, Block> -> bool) {
    forall i, j, x, y :: 0 <= i <= j <= |es| && StoreRun(x0, es[..i], x) && StretchOf(x, es[i..j], y) && good(x.current)
      ==> good(y.current)
  }

  ghost predicate StretchOf(x: Store, es: seq<Effect>, y: Store) {
    NoLost(es) && x.open == 0 && y.open == 0 && StoreRun(x, es, y)
  }

  /** The last moment without operations since the last crash had good blocks. */
  ghost predicate Based(x0: Store, es: seq<Effect>, good: map<nat, Block> -> bool, q: nat, z: Store, y: Store) {
    && q <= |es| && StoreRun(x0, es[..q], z) && NoLost(es[q..]) && StoreRun(z, es[q..], y)
    && z.open == 0 && good(z.current) && good(y.durable)
  }

  lemma StoreRunEmpty(x: Store)
    ensures StoreRun(x, [], x)
  {
  }

  lemma StoreRunMore(x: Store, es: seq<Effect>, y: Store, y': Store)
    requires es != [] && StoreRun(x, es[..|es| - 1], y) && StoreStep(y, es[|es| - 1], y')
    ensures StoreRun(x, es, y')
  {
  }

  lemma StepParts(x: Store, e: Effect, y: Store)
    requires StoreStep(x, e, y)
    ensures e.Lost? ==> y.current == y.durable == x.durable && y.open == 0
    ensures e.Committed? ==> x.open == 0 && y.durable == x.current
    ensures !e.Committed? ==> y.durable == x.durable
  {
  }

  lemma BasedStep(x0: Store, es: seq<Effect>, good: map<nat, Block> -> bool, q: nat, z: Store, y: Store, y': Store)
    returns (q': nat, z': Store)
    requires es != [] && StoreRun(x0, es[..|es| - 1], y) && Based(x0, es[..|es| - 1], good, q, z, y)
    requires StoreStep(y, es[|es| - 1], y') && OpsKeep(x0, es, good)
    ensures Based(x0, es, good, q', z', y')
  {
    hide StoreRun, StoreStep;
    var n := |es| - 1;
    var e := es[n];
    StepParts(y, e, y');
    if e.Lost? {
      q', z' := |es|, y';
      assert es[q'..] == [] && es[..q'] == es;
      StoreRunEmpty(y');
      StoreRunMore(x0, es, y, y');
    } else {
      q', z' := q, z;
      assert es[..n][..q] == es[..q];
      assert es[q..][..|es[q..]| - 1] == es[..n][q..] && es[..n][q..] == es[q..n];
      StoreRunMore(z, es[q..], y, y');
      assert NoLost(es[q..]) by {
        assert forall i :: 0 <= i < |es[q..]| - 1 ==> es[q..][i] == es[..n][q..][i];
      }
      if e.Committed? {
        assert StretchOf(z, es[q..n], y);
      }
    }
  }

  lemma {:induction false} StoreKeepsGood(x: Store, es: seq<Effect>, y: Store, good: map<nat, Block> -> bool)
    returns (q: nat, z: Store)
    requires StoreRun(x, es, y) && x.open == 0 && good(x.durable) && good(x.current) && OpsKeep(x, es, good)
    ensures Based(x, es, good, q, z, y)
    decreases |es|
  {
    if es == [] {
      q, z := 0, x;
    } else {
      var front := es[..|es| - 1];
      var y0 :| StoreRun(x, front, y0) && StoreStep(y0, es[|es| - 1], y);
      assert OpsKeep(x, front, good) by { FrontKeeps(x, es, good); }
      q, z := StoreKeepsGood(x, front, y0, good);
      q, z := BasedStep(x, es, good, q, z, y0, y);
    }
  }

  lemma FrontKeeps(x0: Store, es: seq<Effect>, good: map<nat, Block> -> bool)
    requires es != [] && OpsKeep(x0, es, good)
    ensures OpsKeep(x0, es[..|es| - 1], good)
  {
    var front := es[..|es| - 1];
    forall i, j, x, y | 0 <= i <= j <= |front| && StoreRun(x0, front[..i], x) && StretchOf(x, front[i..j], y) && good(x.current)
      ensures good(y.current)
    {
      assert front[..i] == es[..i] && front[i..j] == es[i..j];
    }
  }

  /** What operations of the run keep while nothing goes wrong holds of the disk, once recovered, after any crashes at all. */
  lemma OperationsSurviveCrashes(g: Geometry, s: State, acts: seq<Action>, r: State, good: map<nat, Block> -> bool)
    requires Inv(g, s) && Run(g, s, acts) == Reached(r) && s.adm.outstanding == 0
    requires good(Durable(g, s.disk)) && good(Abs(g, s).current) && OpsKeep(Abs(g, s), EffectsOf(g, s, acts), good)
    ensures Inv(g, r) && good(Durable(g, r.disk))
  {
    hide Ready, Enabled, Apply, Inv, Durable, OpsKeep, StoreRun, DiskOk;
    RunRefines(g, s, acts);
    DiskIsOk(g, s);
    DiskIsOk(g, r);
    var q, z := StoreKeepsGood(Abs(g, s), EffectsOf(g, s, acts), Abs(g, r), good);
  }

  lemma DiskIsOk(g: Geometry, s: State)
    requires Inv(g, s)
    ensures DiskOk(g, s.disk)
  {
  }
}
