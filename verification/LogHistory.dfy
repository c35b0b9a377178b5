/**
  Who is inside the log, which blocks are listed and who uses a buffer, read off the list of actions alone
  (kernel/log.c, kernel/bio.c).
 */
module LogHistory {
  import opened Layout
  import opened LogHeader
  import opened LogSystem
  import opened LogRefinement
  import opened LogTheorems
  import A = LogAdmission

  // ---------- admission

  /** The processes in an operation and those asleep in begin_op, whether a commit runs, and the listed blocks. */
  datatype Desk = Desk(inside: set<nat>, waiting: set<nat>, committing: bool, list: seq<nat>)

  const CLOSED: Desk := Desk({}, {}, false, [])

  function Serve(d: Desk, a: Action): Desk {
    match a
    case Begin(t) =>
      if !d.committing && |d.list| + (|d.inside| + 1) * 10 <= 30 then d.(inside := d.inside + {t})
      else d.(waiting := d.waiting + {t})
    case End(t) =>
      if d.inside <= {t} then d.(inside := {}, committing := true) else d.(inside := d.inside - {t}, waiting := {})
    case LogWrite(_, b) => if b in d.list then d else d.(list := d.list + [b])
    case CommitErase => d.(list := [])
    case CommitDone => d.(committing := false, waiting := {})
    case Crash => CLOSED
    case _ => d
  }

  function DeskAfter(acts: seq<Action>): Desk
    decreases |acts|
  {
    if acts == [] then CLOSED else Serve(DeskAfter(acts[..|acts| - 1]), acts[|acts| - 1])
  }

  ghost predicate OpOk(op: A.Op, d: Desk, t: nat) {
    (op.Active? <==> t in d.inside) && (op.Asleep? <==> t in d.waiting)
  }

  ghost predicate DeskOk(adm: A.Admission, up: bool, d: Desk) {
    && adm.outstanding == |d.inside| && adm.committing == d.committing
    && (forall t :: t in d.inside || t in d.waiting ==> t < |adm.ops|)
    && (forall t :: 0 <= t < |adm.ops| ==> OpOk(adm.ops[t], d, t))
    && (up ==> adm.lh == d.list) && (!up ==> d == CLOSED)
  }

  lemma BeginDesk(adm: A.Admission, t: nat, d: Desk)
    requires DeskOk(adm, true, d) && t < |adm.ops| && adm.ops[t].Outside?
    ensures var d' := if !d.committing && |d.list| + (|d.inside| + 1) * 10 <= 30 then d.(inside := d.inside + {t})
                      else d.(waiting := d.waiting + {t});
      DeskOk(A.BeginOp(adm, t), true, d')
  {
    assert OpOk(adm.ops[t], d, t);
    var ops := A.BeginOp(adm, t).ops;
    forall u | 0 <= u < |ops| && u != t
      ensures OpOk(ops[u], d, u)
    {
      assert OpOk(adm.ops[u], d, u);
    }
  }

  lemma EndDesk(adm: A.Admission, t: nat, d: Desk)
    requires DeskOk(adm, true, d) && t < |adm.ops| && adm.ops[t].Active? && !adm.committing
    ensures var d' := if d.inside <= {t} then d.(inside := {}, committing := true)
                      else d.(inside := d.inside - {t}, waiting := {});
      DeskOk(A.EndOp(adm, t), true, d')
  {
    assert OpOk(adm.ops[t], d, t);
    Lone(d.inside, t);
    var ops := A.EndOp(adm, t).ops;
    var d' := if d.inside <= {t} then d.(inside := {}, committing := true) else d.(inside := d.inside - {t}, waiting := {});
    forall u | 0 <= u < |ops|
      ensures OpOk(ops[u], d', u)
    {
      assert OpOk(adm.ops[u], d, u);
    }
  }

  lemma FinishDesk(adm: A.Admission, d: Desk)
    requires DeskOk(adm, true, d)
    ensures DeskOk(A.Finish(adm), true, d.(committing := false, waiting := {}))
  {
    var ops, d' := A.Finish(adm).ops, d.(committing := false, waiting := {});
    forall u | 0 <= u < |ops|
      ensures OpOk(ops[u], d', u)
    {
      assert OpOk(adm.ops[u], d, u);
    }
  }

  lemma WriteDesk(adm: A.Admission, t: nat, b: nat, d: Desk)
    requires DeskOk(adm, true, d) && t < |adm.ops| && adm.ops[t].Active?
    ensures DeskOk(A.LogWrite(adm, t, b), true, if b in d.list then d else d.(list := d.list + [b]))
  {
    var ops, d' := A.LogWrite(adm, t, b).ops, if b in d.list then d else d.(list := d.list + [b]);
    forall u | 0 <= u < |ops|
      ensures OpOk(ops[u], d', u)
    {
      assert OpOk(adm.ops[u], d, u);
    }
  }

  lemma ListDesk(adm: A.Admission, lh: seq<nat>, up: bool, up': bool, d: Desk, list: seq<nat>)
    requires DeskOk(adm, up, d) && (up' ==> lh == list) && (!up' ==> d.(list := list) == CLOSED)
    ensures DeskOk(adm.(lh := lh), up', d.(list := list))
  {
    forall u | 0 <= u < |adm.ops|
      ensures OpOk(adm.ops[u], d.(list := list), u)
    {
      assert OpOk(adm.ops[u], d, u);
    }
  }

  lemma ClosedDesk(n: nat, lh: seq<nat>)
    ensures DeskOk(A.Init(n).(lh := lh), false, CLOSED)
  {
  }

  /** What an action does to admission, and to whether the system is up. */
  ghost predicate AdmMoves(adm: A.Admission, up: bool, a: Action, adm': A.Admission, up': bool) {
    match a
    case Begin(t) => up && up' && t < |adm.ops| && adm' == A.BeginOp(adm, t)
    case End(t) => up && up' && t < |adm.ops| && adm' == A.EndOp(adm, t)
    case LogWrite(t, b) => up && up' && t < |adm.ops| && adm.ops[t].Active? && adm' == A.LogWrite(adm, t, b)
    case CommitErase => up && up' && adm' == A.Erase(adm)
    case CommitDone => up && up' && adm' == A.Finish(adm)
    case Crash => !up' && adm' == A.Init(|adm.ops|)
    case ReadHead => !up && !up' && adm' == adm.(lh := adm'.lh)
    case ReplayErase => !up && up' && adm' == A.Erase(adm)
    case _ => adm' == adm && up' == up
  }

  lemma AdmOf(g: Geometry, s: State, a: Action)
    requires Ready(g, s) && Enabled(g, s, a)
    ensures AdmMoves(s.adm, Up(s), a, Apply(g, s, a).adm, Up(Apply(g, s, a)))
  {
    hide Ready, Fetch, Keep, PutHeader;
  }

  lemma DeskStep(g: Geometry, s: State, a: Action, d: Desk)
    requires Inv(g, s) && Enabled(g, s, a) && DeskOk(s.adm, Up(s), d)
    ensures DeskOk(Apply(g, s, a).adm, Up(Apply(g, s, a)), Serve(d, a)) && |Apply(g, s, a).adm.ops| == |s.adm.ops|
  {
    DownIsClosed(g, s);
    AdmOf(g, s, a);
    if a.End? {
      ActiveIsRunning(g, s, a.t);
    }
    hide Inv, Apply, DeskOk;
    match a
    case Begin(t) => BeginDesk(s.adm, t, d);
    case End(t) => EndDesk(s.adm, t, d);
    case LogWrite(t, b) => WriteDesk(s.adm, t, b, d);
    case CommitErase => ListDesk(s.adm, [], true, true, d, []);
    case CommitDone => FinishDesk(s.adm, d);
    case Crash =>
      assert A.Init(|s.adm.ops|).(lh := []) == A.Init(|s.adm.ops|);
      ClosedDesk(|s.adm.ops|, []);
    case ReadHead =>
      assert Serve(d, a) == CLOSED by { IsClosed(s.adm, d); }
      ClosedDesk(|s.adm.ops|, Apply(g, s, a).adm.lh);
    case ReplayErase =>
      IsClosed(s.adm, d);
      ListDesk(s.adm, [], false, true, d, []);
    case _ =>
  }

  lemma IsClosed(adm: A.Admission, d: Desk)
    requires DeskOk(adm, false, d)
    ensures d == CLOSED
  {
  }

  lemma ActiveIsRunning(g: Geometry, s: State, t: nat)
    requires Inv(g, s) && Up(s) && t < |s.adm.ops| && s.adm.ops[t].Active?
    ensures !s.adm.committing
  {
    A.ActiveCounted(s.adm.ops, t);
  }

  lemma Lone(s: set<nat>, t: nat)
    requires t in s
    ensures s <= {t} <==> |s| == 1
  {
    if |s| == 1 {
      assert |s - {t}| == 0;
    }
    assert s <= {t} ==> s == {t};
  }

  lemma DownIsClosed(g: Geometry, s: State)
    requires Inv(g, s)
    ensures !Up(s) ==> s.adm.(lh := []) == A.Init(|s.adm.ops|)
    ensures s.phase.WritingLog? || s.phase.Installing? || s.phase.Finishing? ==> s.adm.committing
    ensures s.phase.Finishing? ==> s.adm.lh == []
  {
  }

  lemma {:induction false} RunDesk(g: Geometry, disk: Disk, nproc: nat, acts: seq<Action>, s: State)
    requires DiskOk(g, disk) && Run(g, PowerOn(disk, nproc), acts) == Reached(s)
    ensures Inv(g, s) && DeskOk(s.adm, Up(s), DeskAfter(acts)) && |s.adm.ops| == nproc
    decreases |acts|
  {
    PowerOnInv(g, disk, nproc);
    hide Inv, Enabled, Apply, DeskOk, Serve;
    RunKeepsInv(g, PowerOn(disk, nproc), acts);
    if acts == [] {
      DeskStart(disk, nproc);
    } else {
      var n := |acts| - 1;
      var before := Run(g, PowerOn(disk, nproc), acts[..n]).state;
      RunDesk(g, disk, nproc, acts[..n], before);
      DeskStep(g, before, acts[n], DeskAfter(acts[..n]));
    }
  }

  lemma DeskStart(disk: Disk, nproc: nat)
    ensures DeskOk(PowerOn(disk, nproc).adm, false, DeskAfter([])) && |PowerOn(disk, nproc).adm.ops| == nproc
  {
  }

  /**
    In every run from power-on, with any crashes: exactly those processes are in an operation that begin_op let in
    and that have not left, it let in exactly while no commit ran and ten blocks for each fitted, a commit runs
    from the departure of the last one to its end, and the log lists each block once, in the order of log_write.
   */
  lemma AdmissionExact(g: Geometry, disk: Disk, nproc: nat, acts: seq<Action>, s: State)
    requires DiskOk(g, disk) && Run(g, PowerOn(disk, nproc), acts) == Reached(s)
    ensures var d := DeskAfter(acts);
      && s.adm.outstanding == |d.inside| && s.adm.committing == d.committing && |s.adm.ops| == nproc
      && (forall t :: 0 <= t < nproc ==> (s.adm.ops[t].Active? <==> t in d.inside) && (s.adm.ops[t].Asleep? <==> t in d.waiting))
      && (Up(s) ==> s.adm.lh == d.list)
  {
    hide Inv, Run;
    RunDesk(g, disk, nproc, acts, s);
    forall t | 0 <= t < nproc
      ensures s.adm.ops[t].Active? <==> t in DeskAfter(acts).inside
      ensures s.adm.ops[t].Asleep? <==> t in DeskAfter(acts).waiting
    {
      assert OpOk(s.adm.ops[t], DeskAfter(acts), t);
    }
  }

  // ---------- buffers

  /** The processes that have got buffer b and not released it, and the one that holds its lock. */
  datatype Use = Use(users: set<nat>, holder: Holder)

  const UNUSED: Use := Use({}, Nobody)

  function Handle(u: Use, a: Action, b: nat): Use {
    match a
    case Get(t, c, _) => if c == b then u.(users := u.users + {t}) else u
    case Lock(t, c) => if c == b then u.(holder := Held(t)) else u
    case Release(t, c) => if c == b then Use(u.users - {t}, Nobody) else u
    case Crash => UNUSED
    case _ => u
  }

  function UseAfter(acts: seq<Action>, b: nat): Use
    decreases |acts|
  {
    if acts == [] then UNUSED else Handle(UseAfter(acts[..|acts| - 1], b), acts[|acts| - 1], b)
  }

  /** The use of buffer b in a cache. */
  function UseIn(cache: map<nat, Buf>, b: nat): Use {
    if b in cache then Use(cache[b].users, cache[b].holder) else UNUSED
  }

  lemma KeepUse(cache: map<nat, Buf>, c: nat, v: Block, b: nat)
    ensures UseIn(Keep(cache, c, v), b) == UseIn(cache, b)
  {
  }

  predicate OnBuffer(a: Action) {
    a.Get? || a.Lock? || a.Edit? || a.LogWrite? || a.Release? || a.Evict? || a.Crash?
  }

  lemma UseStep(g: Geometry, s: State, a: Action, b: nat)
    requires Inv(g, s) && Enabled(g, s, a)
    ensures UseIn(Apply(g, s, a).cache, b) == Handle(UseIn(s.cache, b), a, b)
  {
    if a.Evict? {
      IdleIsUnused(g, s, a.b);
    }
    hide Inv;
    if OnBuffer(a) {
      hide Ready, Fetch;
    } else {
      OtherUse(g, s, a, b);
    }
  }

  /** Commit and recovery use buffers only within a step. */
  lemma OtherUse(g: Geometry, s: State, a: Action, b: nat)
    requires Ready(g, s) && Enabled(g, s, a) && !OnBuffer(a)
    ensures UseIn(Apply(g, s, a).cache, b) == UseIn(s.cache, b)
  {
    hide UseIn, DoInstall, DoCommitBlock, DoWriteHead, DoReadHead, PutHeader, Fetch;
    match a
    case CommitBlock => BlockUse(g, s, b);
    case CommitHead => HeadUse(g, s, PutHeader(Fetch(s, g.start), s.adm.lh), b);
    case CommitErase => HeadUse(g, s, PutHeader(Fetch(s, g.start), []), b);
    case ReplayErase => HeadUse(g, s, PutHeader(Fetch(s, g.start), []), b);
    case CommitInstall => InstallUse(g, s, s.phase.tail, 1, b);
    case ReplayBlock => InstallUse(g, s, s.phase.tail, 0, b);
    case ReadHead => ReadUse(g, s, b);
    case _ =>
  }

  lemma HeadUse(g: Geometry, s: State, v: Block, b: nat)
    ensures UseIn(DoWriteHead(g, s, v).cache, b) == UseIn(s.cache, b)
  {
  }

  lemma ReadUse(g: Geometry, s: State, b: nat)
    requires g.start in s.disk && ValidHeader(Fetch(s, g.start))
    ensures UseIn(DoReadHead(g, s).cache, b) == UseIn(s.cache, b)
  {
  }

  lemma BlockUse(g: Geometry, s: State, b: nat)
    requires s.phase.WritingLog? && Tail(s, s.phase.tail) && s.adm.lh[s.phase.tail] in s.disk
    ensures UseIn(DoCommitBlock(g, s).cache, b) == UseIn(s.cache, b)
  {
    hide Fetch;
  }

  lemma InstallUse(g: Geometry, s: State, tail: nat, pins: int, b: nat)
    requires Tail(s, tail) && Slot(g, tail) in s.disk
    ensures UseIn(DoInstall(g, s, tail, pins).cache, b) == UseIn(s.cache, b)
  {
    var c, slot := s.adm.lh[tail], Slot(g, tail);
    KeepUse(s.cache, slot, Fetch(s, slot), b);
    KeepUse(Keep(s.cache, slot, Fetch(s, slot)), c, Fetch(s, slot), b);
  }

  lemma IdleIsUnused(g: Geometry, s: State, b: nat)
    requires Inv(g, s) && b in s.cache && s.cache[b].refcnt == 0
    ensures s.cache[b].users == {} && s.cache[b].holder == Nobody
  {
    assert BufOk(g, s, b);
  }

  /** In every run from power-on a buffer is used by exactly the processes that got it since and have not released
      it, and locked by the one that locked it last, if that has not released it. */
  lemma {:induction false} UsersExact(g: Geometry, disk: Disk, nproc: nat, acts: seq<Action>, s: State, b: nat)
    requires DiskOk(g, disk) && Run(g, PowerOn(disk, nproc), acts) == Reached(s)
    ensures Inv(g, s)
    ensures UseAfter(acts, b) == if b in s.cache then Use(s.cache[b].users, s.cache[b].holder) else Use({}, Nobody)
    decreases |acts|
  {
    PowerOnInv(g, disk, nproc);
    hide Inv, Enabled, Apply, Handle;
    RunKeepsInv(g, PowerOn(disk, nproc), acts);
    if acts != [] {
      var n := |acts| - 1;
      var before := Run(g, PowerOn(disk, nproc), acts[..n]).state;
      UsersExact(g, disk, nproc, acts[..n], before, b);
      UseStep(g, before, acts[n], b);
    }
  }
}
