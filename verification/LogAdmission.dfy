/**
  Admission control of the write-ahead log (kernel/log.c): which operations may be
  inside a transaction, which block numbers the in-memory header holds, and when
  the last operation turns into the committer.  Disk and buffer cache are added
  on top of this state by module LogSystem.
 */
module LogAdmission {
  import Finite

  const MAXOPBLOCKS: nat := 10
  const LOGSIZE: nat := 30

  /** What one process is doing with the log.  `wrote` is the set of block numbers the
      operation has passed to log_write so far. */
  datatype Op = Outside | Asleep | Active(wrote: set<nat>)

  /** log.outstanding, log.committing and log.lh.block[0..n), with one Op per process. */
  datatype Admission = Admission(ops: seq<Op>, outstanding: int, committing: bool, lh: seq<nat>)

  function Init(nproc: nat): Admission {
    Admission(seq(nproc, i => Outside), 0, false, [])
  }

  // ---------- the operations of log.c

  /** wakeup(&log): every sleeper of begin_op tries again. */
  function WakeAll(ops: seq<Op>): seq<Op> {
    seq(|ops|, i requires 0 <= i < |ops| => if ops[i].Asleep? then Outside else ops[i])
  }

  predicate MayEnter(a: Admission) {
    !a.committing && |a.lh| + (a.outstanding + 1) * MAXOPBLOCKS <= LOGSIZE
  }

  /** One pass of the loop in begin_op: enter, or sleep on the log. */
  function BeginOp(a: Admission, t: nat): Admission
    requires t < |a.ops|
  {
    if MayEnter(a) then
      a.(ops := a.ops[t := Active({})], outstanding := a.outstanding + 1)
    else
      a.(ops := a.ops[t := Asleep])
  }

  /** The locked section of end_op. */
  function EndOp(a: Admission, t: nat): Admission
    requires t < |a.ops|
  {
    var b := a.(ops := a.ops[t := Outside], outstanding := a.outstanding - 1);
    if b.outstanding == 0 then b.(committing := true) else b.(ops := WakeAll(b.ops))
  }

  /** The two panics at the head of log_write. */
  predicate LogWritePanics(a: Admission, logSize: int) {
    |a.lh| >= LOGSIZE || |a.lh| >= logSize - 1 || a.outstanding < 1
  }

  /** Log absorption: a block number that is already listed is not listed again. */
  function Absorb(lh: seq<nat>, b: nat): seq<nat> {
    if b in lh then lh else lh + [b]
  }

  function LogWrite(a: Admission, t: nat, b: nat): Admission
    requires t < |a.ops| && a.ops[t].Active?
  {
    a.(ops := a.ops[t := Active(a.ops[t].wrote + {b})], lh := Absorb(a.lh, b))
  }

  /** commit() after the installation: log.lh.n = 0. */
  function Erase(a: Admission): Admission {
    a.(lh := [])
  }

  /** The second locked section of end_op. */
  function Finish(a: Admission): Admission {
    a.(committing := false, ops := WakeAll(a.ops))
  }

  // ---------- runs

  datatype Event = Begin(t: nat) | Write(t: nat, b: nat) | End(t: nat) | EraseLog | FinishCommit

  /** Operations use log_write only inside a transaction; a run stops at a panic.  Nothing keeps an
      operation from logging more than MAXOPBLOCKS blocks. */
  predicate Enabled(a: Admission, e: Event, logSize: int) {
    match e
    case Begin(t) => t < |a.ops| && a.ops[t].Outside?
    case Write(t, b) => t < |a.ops| && a.ops[t].Active? && !LogWritePanics(a, logSize)
    case End(t) => t < |a.ops| && a.ops[t].Active?
    case EraseLog => a.committing
    case FinishCommit => a.committing && a.lh == []
  }

  function Step(a: Admission, e: Event, logSize: int): Admission
    requires Enabled(a, e, logSize)
  {
    match e
    case Begin(t) => BeginOp(a, t)
    case Write(t, b) => LogWrite(a, t, b)
    case End(t) => EndOp(a, t)
    case EraseLog => Erase(a)
    case FinishCommit => Finish(a)
  }

  datatype Outcome = Stopped | Reached(state: Admission)

  /** The state after a sequence of events, or Stopped when one of them cannot happen. */
  function Run(a: Admission, es: seq<Event>, logSize: int): Outcome
    decreases |es|
  {
    if es == [] then Reached(a)
    else
      var n := |es| - 1;
      var before := Run(a, es[..n], logSize);
      if before.Reached? && Enabled(before.state, es[n], logSize)
      then Reached(Step(before.state, es[n], logSize))
      else Stopped
  }

  // ---------- the invariant

  function CountActive(ops: seq<Op>): nat {
    if ops == [] then 0 else CountActive(ops[..|ops| - 1]) + (if ops[|ops| - 1].Active? then 1 else 0)
  }

  ghost predicate Inv(a: Admission) {
    && a.outstanding == CountActive(a.ops)
    && (a.committing ==> a.outstanding == 0)
    && (!a.committing && a.outstanding == 0 ==> a.lh == [])
    && Finite.NoRepeats(a.lh) && |a.lh| <= LOGSIZE
    && ((exists t :: 0 <= t < |a.ops| && a.ops[t].Asleep?) ==> a.committing || a.outstanding > 0)
  }

  lemma {:induction false} UpdateOp(ops: seq<Op>, t: nat, op: Op)
    requires t < |ops|
    ensures CountActive(ops[t := op]) ==
            CountActive(ops) - (if ops[t].Active? then 1 else 0) + (if op.Active? then 1 else 0)
    decreases |ops|
  {
    var n := |ops| - 1;
    if t == n {
      assert ops[t := op][..n] == ops[..n];
    } else {
      assert ops[t := op][..n] == ops[..n][t := op];
      UpdateOp(ops[..n], t, op);
    }
  }

  lemma {:induction false} WakeAllKeeps(ops: seq<Op>)
    ensures CountActive(WakeAll(ops)) == CountActive(ops)
    decreases |ops|
  {
    if ops != [] {
      var n := |ops| - 1;
      assert WakeAll(ops)[..n] == WakeAll(ops[..n]);
      WakeAllKeeps(ops[..n]);
    }
  }

  lemma {:induction false} ActiveCounted(ops: seq<Op>, t: nat)
    requires t < |ops| && ops[t].Active?
    ensures CountActive(ops) >= 1
    decreases |ops|
  {
    var n := |ops| - 1;
    if t < n {
      ActiveCounted(ops[..n], t);
    }
  }

  lemma {:induction false} CountedActive(ops: seq<Op>)
    requires CountActive(ops) >= 1
    ensures exists t :: 0 <= t < |ops| && ops[t].Active?
    decreases |ops|
  {
    var n := |ops| - 1;
    if !ops[n].Active? {
      CountedActive(ops[..n]);
      var t :| 0 <= t < n && ops[..n][t].Active?;
      assert ops[t].Active?;
    }
  }

  lemma BeginKeepsInv(a: Admission, t: nat)
    requires Inv(a) && t < |a.ops| && a.ops[t].Outside?
    ensures Inv(BeginOp(a, t))
  {
    UpdateOp(a.ops, t, Active({}));
    UpdateOp(a.ops, t, Asleep);
    var a' := BeginOp(a, t);
    if !MayEnter(a) {
      assert a'.ops[t].Asleep?;
    }
  }

  lemma WriteKeepsInv(a: Admission, t: nat, b: nat)
    requires Inv(a) && t < |a.ops| && a.ops[t].Active? && |a.lh| < LOGSIZE
    ensures Inv(LogWrite(a, t, b))
  {
    UpdateOp(a.ops, t, Active(a.ops[t].wrote + {b}));
    ActiveCounted(a.ops, t);
  }

  lemma EndKeepsInv(a: Admission, t: nat)
    requires Inv(a) && t < |a.ops| && a.ops[t].Active?
    ensures Inv(EndOp(a, t))
  {
    UpdateOp(a.ops, t, Outside);
    WakeAllKeeps(a.ops[t := Outside]);
    ActiveCounted(a.ops, t);
  }

  lemma FinishKeepsInv(a: Admission)
    requires Inv(a) && a.committing && a.lh == []
    ensures Inv(Finish(a))
  {
    WakeAllKeeps(a.ops);
  }

  lemma EraseKeepsInv(a: Admission)
    requires Inv(a) && a.committing
    ensures Inv(Erase(a))
  {
  }

  lemma StepKeepsInv(a: Admission, e: Event, logSize: int)
    requires Inv(a) && Enabled(a, e, logSize)
    ensures Inv(Step(a, e, logSize))
  {
    match e
    case Begin(t) => BeginKeepsInv(a, t);
    case Write(t, b) => WriteKeepsInv(a, t, b);
    case End(t) => EndKeepsInv(a, t);
    case EraseLog => EraseKeepsInv(a);
    case FinishCommit => FinishKeepsInv(a);
  }

  lemma {:induction false} InitInv(n: nat)
    ensures Inv(Init(n))
  {
    if n > 0 {
      InitInv(n - 1);
      assert Init(n).ops[..n - 1] == Init(n - 1).ops;
    }
  }

  lemma {:induction false} RunKeepsInv(a: Admission, es: seq<Event>, logSize: int)
    requires Inv(a)
    ensures Run(a, es, logSize).Reached? ==> Inv(Run(a, es, logSize).state)
    decreases |es|
  {
    if es != [] && Run(a, es, logSize).Reached? {
      var n := |es| - 1;
      RunKeepsInv(a, es[..n], logSize);
      StepKeepsInv(Run(a, es[..n], logSize).state, es[n], logSize);
    }
  }

  // ---------- group commit

  /** In every reachable state: a committing log has no operation inside, so no log_write can
      happen and end_op's panic("log.committing") cannot be reached; an idle log is empty; and a
      sleeper of begin_op has a running operation or a running commit to wait for. */
  lemma GroupCommitIsolation(nproc: nat, es: seq<Event>, logSize: int)
    requires Run(Init(nproc), es, logSize).Reached?
    ensures var a := Run(Init(nproc), es, logSize).state;
      && (a.committing ==> a.outstanding == 0 && forall t, b :: !Enabled(a, Write(t, b), logSize))
      && (forall t :: Enabled(a, End(t), logSize) ==> !a.committing && a.outstanding >= 1)
      && (!a.committing && a.outstanding == 0 ==> a.lh == [])
      && (forall t :: 0 <= t < |a.ops| && a.ops[t].Asleep? ==>
            a.committing || exists u :: 0 <= u < |a.ops| && a.ops[u].Active?)
  {
    InitInv(nproc);
    RunKeepsInv(Init(nproc), es, logSize);
    var a := Run(Init(nproc), es, logSize).state;
    forall t | 0 <= t < |a.ops| && a.ops[t].Active?
      ensures a.outstanding >= 1
    {
      ActiveCounted(a.ops, t);
    }
    if a.outstanding > 0 {
      CountedActive(a.ops);
    }
  }

  /** What a sleeper waits for does wake it: once every event that can end its wait has happened
      (the end of one of several operations, or the end of the commit), nobody is asleep. */
  lemma WaitersAreWoken(a: Admission, e: Event, logSize: int, t: nat)
    requires Inv(a) && Enabled(a, e, logSize) && t < |a.ops| && a.ops[t].Asleep?
    requires e.FinishCommit? || (e.End? && a.outstanding > 1)
    ensures Step(a, e, logSize).ops[t].Outside?
  {
    assert e.End? ==> e.t != t;
  }

  /** After the last commit step nothing stands in the way of a woken operation. */
  lemma WokenMayEnter(a: Admission, logSize: int)
    requires Inv(a) && Enabled(a, FinishCommit, logSize)
    ensures MayEnter(Finish(a))
  {
  }

  // ---------- log reservation

  /** This log_write keeps the operation's promise of at most MAXOPBLOCKS distinct blocks. */
  predicate InBudget(a: Admission, t: nat, b: nat) {
    t < |a.ops| && a.ops[t].Active? && |a.ops[t].wrote + {b}| <= MAXOPBLOCKS
  }

  /** Every log_write of the run is in budget. */
  predicate Frugal(a: Admission, es: seq<Event>, logSize: int)
    decreases |es|
  {
    es == [] ||
    var n := |es| - 1;
    var before := Run(a, es[..n], logSize);
    Frugal(a, es[..n], logSize) && (before.Reached? && es[n].Write? ==> InBudget(before.state, es[n].t, es[n].b))
  }

  function Unused(op: Op): int {
    if op.Active? then MAXOPBLOCKS - |op.wrote| else 0
  }

  /** Log space promised to running operations and not used yet. */
  function Reserved(ops: seq<Op>): int {
    if ops == [] then 0 else Reserved(ops[..|ops| - 1]) + Unused(ops[|ops| - 1])
  }

  ghost predicate OpsWithin(a: Admission) {
    forall t :: 0 <= t < |a.ops| && a.ops[t].Active? ==>
      |a.ops[t].wrote| <= MAXOPBLOCKS && forall b :: b in a.ops[t].wrote ==> b in a.lh
  }

  /** What is listed and what is promised fit the log together. */
  ghost predicate WithinBudget(a: Admission) {
    OpsWithin(a) && |a.lh| + Reserved(a.ops) <= LOGSIZE
  }

  lemma {:induction false} UpdateReserved(ops: seq<Op>, t: nat, op: Op)
    requires t < |ops|
    ensures Reserved(ops[t := op]) == Reserved(ops) - Unused(ops[t]) + Unused(op)
    decreases |ops|
  {
    var n := |ops| - 1;
    if t == n {
      assert ops[t := op][..n] == ops[..n];
    } else {
      assert ops[t := op][..n] == ops[..n][t := op];
      UpdateReserved(ops[..n], t, op);
    }
  }

  lemma {:induction false} WakeAllReserved(ops: seq<Op>)
    ensures Reserved(WakeAll(ops)) == Reserved(ops)
    decreases |ops|
  {
    if ops != [] {
      var n := |ops| - 1;
      assert WakeAll(ops)[..n] == WakeAll(ops[..n]);
      WakeAllReserved(ops[..n]);
    }
  }

  lemma {:induction false} ReservedBound(ops: seq<Op>)
    ensures Reserved(ops) <= CountActive(ops) * MAXOPBLOCKS
    ensures (forall t :: 0 <= t < |ops| && ops[t].Active? ==> |ops[t].wrote| <= MAXOPBLOCKS) ==> 0 <= Reserved(ops)
    decreases |ops|
  {
    if ops != [] {
      ReservedBound(ops[..|ops| - 1]);
    }
  }

  lemma {:induction false} ReserveCounted(ops: seq<Op>, t: nat)
    requires t < |ops| && ops[t].Active?
    requires forall u :: 0 <= u < |ops| && ops[u].Active? ==> |ops[u].wrote| <= MAXOPBLOCKS
    ensures Unused(ops[t]) <= Reserved(ops)
    decreases |ops|
  {
    var n := |ops| - 1;
    ReservedBound(ops[..n]);
    if t < n {
      ReserveCounted(ops[..n], t);
    }
  }

  /** The heart of the reservation argument: an append that is new to the log is also new to
      its operation, so the operation pays for it out of its own reserve. */
  lemma WriteKeepsBudget(a: Admission, t: nat, b: nat)
    requires WithinBudget(a) && InBudget(a, t, b)
    ensures WithinBudget(LogWrite(a, t, b))
  {
    var w := a.ops[t].wrote;
    UpdateReserved(a.ops, t, Active(w + {b}));
    if b !in a.lh {
      assert b !in w;
      assert |w + {b}| == |w| + 1;
    } else {
      assert |w + {b}| >= |w| by { if b in w { assert w + {b} == w; } }
    }
    assert forall u :: u in a.lh ==> u in Absorb(a.lh, b);
  }

  lemma StepKeepsBudget(a: Admission, e: Event, logSize: int)
    requires Inv(a) && WithinBudget(a) && Enabled(a, e, logSize) && (e.Write? ==> InBudget(a, e.t, e.b))
    ensures WithinBudget(Step(a, e, logSize))
  {
    match e
    case Begin(t) =>
      ReservedBound(a.ops);
      UpdateReserved(a.ops, t, Active({}));
      UpdateReserved(a.ops, t, Asleep);
    case Write(t, b) => WriteKeepsBudget(a, t, b);
    case End(t) =>
      UpdateReserved(a.ops, t, Outside);
      WakeAllReserved(a.ops[t := Outside]);
      assert |a.ops[t].wrote| <= MAXOPBLOCKS;
    case EraseLog =>
      ReservedBound(a.ops);
      forall t | 0 <= t < |a.ops| && a.ops[t].Active?
        ensures false
      {
        ActiveCounted(a.ops, t);
      }
    case FinishCommit => WakeAllReserved(a.ops);
  }

  /** Listed blocks and unused budgets never exceed LOGSIZE, as long as every operation keeps its budget. */
  lemma {:induction false} FrugalRunsFit(nproc: nat, es: seq<Event>, logSize: int)
    requires Run(Init(nproc), es, logSize).Reached? && Frugal(Init(nproc), es, logSize)
    ensures Inv(Run(Init(nproc), es, logSize).state) && WithinBudget(Run(Init(nproc), es, logSize).state)
    decreases |es|
  {
    InitInv(nproc);
    RunKeepsInv(Init(nproc), es, logSize);
    if es == [] {
      ReservedBound(Init(nproc).ops);
    } else {
      var n := |es| - 1;
      FrugalRunsFit(nproc, es[..n], logSize);
      StepKeepsBudget(Run(Init(nproc), es[..n], logSize).state, es[n], logSize);
    }
  }

  /** An operation inside its budget appends a block that the log does not hold yet. */
  predicate InBudgetAppend(a: Admission, t: nat, b: nat) {
    InBudget(a, t, b) && b !in a.lh
  }

  ghost predicate AppendsNeverPanic(logSize: int) {
    forall nproc: nat, es: seq<Event>, t: nat, b: nat ::
      var r := Run(Init(nproc), es, logSize);
      r.Reached? && Frugal(Init(nproc), es, logSize) && InBudgetAppend(r.state, t, b) ==> !LogWritePanics(r.state, logSize)
  }

  lemma AppendHasRoom(a: Admission, t: nat, b: nat)
    requires Inv(a) && WithinBudget(a) && InBudgetAppend(a, t, b)
    ensures |a.lh| < LOGSIZE && a.outstanding >= 1
  {
    ActiveCounted(a.ops, t);
    ReserveCounted(a.ops, t);
    var w := a.ops[t].wrote;
    assert b !in w;
    assert |w + {b}| == |w| + 1;
  }

  /** How many of the blocks 0..m-1 operation i has logged: at most the ten from 10i on. */
  function Share(i: nat, m: nat): nat {
    if m <= 10 * i then 0 else if m < 10 * i + 10 then m - 10 * i else 10
  }

  /** Three operations have logged blocks 0..m-1 between them, ten each. */
  ghost predicate Filled(a: Admission, m: nat) {
    && |a.ops| == 3 && a.outstanding == 3 && !a.committing
    && |a.lh| == m
    && (forall b :: b in a.lh ==> b < m)
    && (forall i :: 0 <= i < 3 ==>
          && a.ops[i].Active?
          && |a.ops[i].wrote| == Share(i, m)
          && forall b :: b in a.ops[i].wrote ==> b < m)
  }

  function FillingRun(m: nat): seq<Event>
    requires m <= LOGSIZE
  {
    if m == 0 then [Begin(0), Begin(1), Begin(2)] else FillingRun(m - 1) + [Write((m - 1) / 10, m - 1)]
  }

  lemma StartFilling(logSize: int)
    ensures var r := Run(Init(3), FillingRun(0), logSize); r.Reached? && Filled(r.state, 0)
    ensures Frugal(Init(3), FillingRun(0), logSize)
  {
    var es := FillingRun(0);
    assert es[..2] == [Begin(0), Begin(1)] && es[..1] == [Begin(0)] && es[..0] == [];
    assert es[..2][..1] == es[..1] && es[..1][..0] == [];
    assert Frugal(Init(3), es[..1], logSize) && Frugal(Init(3), es[..2], logSize);
    var i0 := Init(3);
    assert Run(i0, es[..1], logSize) == Reached(BeginOp(i0, 0));
    var i1 := BeginOp(i0, 0);
    assert Run(i0, es[..2], logSize) == Reached(BeginOp(i1, 1));
    var i2 := BeginOp(i1, 1);
    assert Run(i0, es, logSize) == Reached(BeginOp(i2, 2));
  }

  lemma FillOne(a: Admission, m: nat)
    requires m < LOGSIZE && Filled(a, m)
    ensures InBudgetAppend(a, m / 10, m)
    ensures Filled(LogWrite(a, m / 10, m), m + 1)
  {
    var t := m / 10;
    var w := a.ops[t].wrote;
    assert m !in w && m !in a.lh;
    assert |w + {m}| == |w| + 1;
  }

  lemma {:induction false} FillingReached(m: nat, logSize: int)
    requires m <= LOGSIZE && m <= logSize - 1
    ensures var r := Run(Init(3), FillingRun(m), logSize); r.Reached? && Filled(r.state, m)
    ensures Frugal(Init(3), FillingRun(m), logSize)
  {
    if m == 0 {
      StartFilling(logSize);
    } else {
      FillingReached(m - 1, logSize);
      FillOne(Run(Init(3), FillingRun(m - 1), logSize).state, m - 1);
      assert FillingRun(m)[..|FillingRun(m)| - 1] == FillingRun(m - 1);
    }
  }

  /** The reservation rule of begin_op keeps every in-budget append clear of both guards of
      log_write exactly when the log region holds the header and LOGSIZE further blocks. */
  lemma ReservationExact(logSize: int)
    ensures AppendsNeverPanic(logSize) <==> logSize >= LOGSIZE + 1
  {
    if logSize >= LOGSIZE + 1 {
      forall nproc: nat, es: seq<Event>, t: nat, b: nat
        | Run(Init(nproc), es, logSize).Reached? && Frugal(Init(nproc), es, logSize)
          && InBudgetAppend(Run(Init(nproc), es, logSize).state, t, b)
        ensures !LogWritePanics(Run(Init(nproc), es, logSize).state, logSize)
      {
        FrugalRunsFit(nproc, es, logSize);
        AppendHasRoom(Run(Init(nproc), es, logSize).state, t, b);
      }
    } else {
      var m := if logSize >= 1 then logSize - 1 else 0;
      if m == 0 {
        StartFilling(logSize);
      } else {
        FillingReached(m, logSize);
      }
      FillOne(Run(Init(3), FillingRun(m), logSize).state, m);
      assert !AppendsNeverPanic(logSize);
    }
  }

  /** Absorption is not covered by the reservation: log_write tests for a full log before it
      looks for the block.  In a log of sufficient size an in-budget log_write panics exactly
      when the log is full, and then the block was listed already. */
  lemma AbsorptionPanicsExactly(nproc: nat, es: seq<Event>, logSize: int, t: nat, b: nat)
    requires logSize >= LOGSIZE + 1
    requires Run(Init(nproc), es, logSize).Reached? && Frugal(Init(nproc), es, logSize)
    requires InBudget(Run(Init(nproc), es, logSize).state, t, b)
    ensures var a := Run(Init(nproc), es, logSize).state;
      (LogWritePanics(a, logSize) <==> |a.lh| == LOGSIZE) && (LogWritePanics(a, logSize) ==> b in a.lh)
  {
    FrugalRunsFit(nproc, es, logSize);
    var a := Run(Init(nproc), es, logSize).state;
    ActiveCounted(a.ops, t);
    if b !in a.lh {
      AppendHasRoom(a, t, b);
    }
  }

  /** Such a state can be reached: three operations with ten blocks each, one of which writes
      a block of its own once more. */
  lemma AbsorptionCanPanic(logSize: int)
    requires logSize >= LOGSIZE + 1
    ensures exists es: seq<Event>, b: nat ::
      var r := Run(Init(3), es, logSize);
      && r.Reached? && Frugal(Init(3), es, logSize)
      && InBudget(r.state, 2, b) && b in r.state.lh && LogWritePanics(r.state, logSize)
  {
    FillingReached(LOGSIZE, logSize);
    FrugalRunsFit(3, FillingRun(LOGSIZE), logSize);
    var a := Run(Init(3), FillingRun(LOGSIZE), logSize).state;
    var w := a.ops[2].wrote;
    assert w != {};
    var b :| b in w;
    assert w + {b} == w;
  }
}
