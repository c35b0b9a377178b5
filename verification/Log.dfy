/**
  kernel/log.c as it is written: a structure updated in place, with loops over log.lh.block[].
  Every method is shown to perform a run of the transition system of module LogSystem, so all
  that is proved there of reachable states holds between any two block writes of this code.
 */
module Log {
  import opened Layout
  import opened LogHeader
  import opened LogSystem
  import opened LogRefinement
  import opened LogTheorems
  import A = LogAdmission

  lemma Extend(g: Geometry, s: State, acts: seq<Action>, r: State, a: Action)
    requires Run(g, s, acts) == Reached(r) && Inv(g, r) && Enabled(g, r, a)
    ensures Run(g, s, acts + [a]) == Reached(Apply(g, r, a)) && Inv(g, Apply(g, r, a))
  {
    hide Inv, Apply, Enabled;
    assert (acts + [a])[..|acts|] == acts;
    assert Ready(g, r) by { InvIsReady(g, r); }
    StepRefines(g, r, a);
  }

  lemma InvIsReady(g: Geometry, s: State)
    requires Inv(g, s)
    ensures Ready(g, s)
  {
  }

  lemma ActiveMeansIdle(g: Geometry, s: State, t: nat)
    requires Inv(g, s) && Up(s) && t < |s.adm.ops| && s.adm.ops[t].Active?
    ensures !s.adm.committing && s.phase.Running?
  {
    A.ActiveCounted(s.adm.ops, t);
  }

  lemma RunNothing(g: Geometry, s: State)
    ensures Run(g, s, []) == Reached(s)
  {
  }

  lemma ListedOnDisk(g: Geometry, s: State, k: nat)
    requires Inv(g, s) && k < |s.adm.lh|
    ensures s.adm.lh[k] in s.disk && Slot(g, k) in s.disk && s.adm.lh[k] != Slot(g, k)
    ensures s.adm.lh[k] != g.start && Slot(g, k) != g.start && g.start in s.disk
  {
    SlotIsFree(g, s, k);
  }

  /** The statements of one iteration of write_log add up to the step CommitBlock. */
  lemma CommitBlockIs(g: Geometry, s: State, s': State, x: Block, v: Block)
    requires Inv(g, s) && s.phase.WritingLog?
    requires Tail(s, s.phase.tail) && Unlocked(s, s.adm.lh[s.phase.tail])
    requires var b, slot := s.adm.lh[s.phase.tail], Slot(g, s.phase.tail);
      && b in s.disk && v == Fetch(s, b)
      && s' == s.(disk := s.disk[slot := v], phase := WritingLog(s.phase.tail + 1),
                  cache := Keep(Keep(Keep(s.cache, slot, x), b, v), slot, v))
    ensures Enabled(g, s, CommitBlock) && s' == Apply(g, s, CommitBlock)
  {
    ListedOnDisk(g, s, s.phase.tail);
    hide Inv, Fetch;
    KeepTwice(s.cache, Slot(g, s.phase.tail), x, s.adm.lh[s.phase.tail], v);
  }

  /** The statements of one iteration of install_trans(0) add up to the step CommitInstall. */
  lemma InstallIs(g: Geometry, s: State, s': State, x: Block, v: Block)
    requires Inv(g, s) && s.phase.Installing?
    requires Tail(s, s.phase.tail) && Unlocked(s, s.adm.lh[s.phase.tail])
    requires var b, slot := s.adm.lh[s.phase.tail], Slot(g, s.phase.tail);
      && slot in s.disk && v == Fetch(s, slot)
      && var c := Keep(Keep(Keep(s.cache, slot, v), b, x), b, v);
         s' == s.(disk := s.disk[b := v], phase := Installing(s.phase.tail + 1),
                  cache := c[b := c[b].(refcnt := c[b].refcnt - 1)])
    ensures Enabled(g, s, CommitInstall) && s' == Apply(g, s, CommitInstall)
  {
    ListedOnDisk(g, s, s.phase.tail);
    hide Inv, Fetch;
    KeepAgain(Keep(s.cache, Slot(g, s.phase.tail), v), s.adm.lh[s.phase.tail], x, v);
  }

  /** Neither iteration takes a lock for good. */
  lemma HoldersKept(cache: map<nat, Buf>, b1: nat, v1: Block, b2: nat, v2: Block, b3: nat, v3: Block, b: nat)
    ensures var c := Keep(Keep(Keep(cache, b1, v1), b2, v2), b3, v3);
      && (b in c && b in cache ==> c[b].holder == cache[b].holder) && (b in c && b !in cache ==> c[b].holder.Nobody?)
  {
  }

  lemma FetchKept(s: State, slot: nat, v: Block, b: nat)
    requires b != slot && b in s.disk
    ensures Fetch(s.(cache := Keep(s.cache, slot, v)), b) == Fetch(s, b)
  {
  }

  lemma KeepStays(cache: map<nat, Buf>, c: nat, b: nat, v: Block)
    requires c in cache
    ensures c in Keep(cache, b, v)
  {
  }

  lemma KeepAgain(cache: map<nat, Buf>, b: nat, x: Block, v: Block)
    ensures Keep(Keep(cache, b, x), b, v) == Keep(cache, b, v)
  {
  }

  lemma EntriesStart(b: Block, lh: seq<nat>)
    requires Encodable(lh)
    ensures PutEntries(PutWord(b, 0, |lh|), lh, 0) == PutWord(b, 0, |lh|)
  {
  }

  lemma EntriesStep(b: Block, lh: seq<nat>, i: nat)
    requires Encodable(lh) && i < |lh|
    ensures PutEntries(b, lh, i + 1) == PutWord(PutEntries(b, lh, i), 1 + i, lh[i])
  {
  }

  lemma PutHeaderIs(b: Block, lh: seq<nat>)
    requires Encodable(lh)
    ensures PutHeader(b, lh) == PutEntries(PutWord(b, 0, |lh|), lh, |lh|)
  {
  }

  lemma CommitHeadIs(g: Geometry, s: State)
    requires Inv(g, s) && s.phase.WritingLog? && s.phase.tail == |s.adm.lh|
    ensures Encodable(s.adm.lh) && g.start in s.disk && Enabled(g, s, CommitHead)
    ensures Apply(g, s, CommitHead) == DoWriteHead(g, s, PutHeader(Fetch(s, g.start), s.adm.lh)).(phase := Installing(0))
  {
    hide CacheOk, DirtyOk, AdmOk, LogHolds, HomeHolds, PutHeader;
  }

  lemma CommitEraseIs(g: Geometry, s: State)
    requires Inv(g, s) && s.phase.Installing? && s.phase.tail == |s.adm.lh|
    ensures g.start in s.disk && Enabled(g, s, CommitErase)
    ensures Apply(g, s, CommitErase) ==
            DoWriteHead(g, s, PutHeader(Fetch(s, g.start), [])).(adm := A.Erase(s.adm), phase := Finishing)
  {
    hide CacheOk, DirtyOk, AdmOk, LogHolds, HomeHolds, PutHeader;
  }

  lemma ReplayEraseIs(g: Geometry, s: State)
    requires Inv(g, s) && s.phase.Replaying? && s.phase.tail == |s.adm.lh|
    ensures g.start in s.disk && Enabled(g, s, ReplayErase)
    ensures Apply(g, s, ReplayErase) ==
            DoWriteHead(g, s, PutHeader(Fetch(s, g.start), [])).(adm := A.Erase(s.adm), phase := Running)
  {
    hide CacheOk, DirtyOk, AdmOk, LogHolds, HomeHolds, PutHeader;
  }

  /** Runs can be put one after the other. */
  lemma {:induction false} Concat(g: Geometry, s: State, xs: seq<Action>, mid: State, ys: seq<Action>, r: State)
    requires Run(g, s, xs) == Reached(mid) && Run(g, mid, ys) == Reached(r)
    ensures Run(g, s, xs + ys) == Reached(r)
    decreases |ys|
  {
    hide Ready, Apply, Enabled;
    if ys == [] {
      assert xs + ys == xs;
    } else {
      var n := |ys| - 1;
      Concat(g, s, xs, mid, ys[..n], Run(g, mid, ys[..n]).state);
      assert (xs + ys)[..|xs + ys| - 1] == xs + ys[..n];
    }
  }

  /** The statements of one iteration of install_trans(1) add up to the step ReplayBlock. */
  lemma ReplayIs(g: Geometry, s: State, s': State, x: Block, v: Block)
    requires Inv(g, s) && s.phase.Replaying? && Tail(s, s.phase.tail)
    requires var b, slot := s.adm.lh[s.phase.tail], Slot(g, s.phase.tail);
      && slot in s.disk && v == Fetch(s, slot)
      && s' == s.(disk := s.disk[b := v], phase := Replaying(s.phase.tail + 1),
                  cache := Keep(Keep(Keep(s.cache, slot, v), b, x), b, v))
    ensures Enabled(g, s, ReplayBlock) && s' == Apply(g, s, ReplayBlock)
  {
    ListedOnDisk(g, s, s.phase.tail);
    hide Inv, Fetch;
    var b := s.adm.lh[s.phase.tail];
    KeepAgain(Keep(s.cache, Slot(g, s.phase.tail), v), b, x, v);
    assert s'.cache[b].(refcnt := s'.cache[b].refcnt - 0) == s'.cache[b];
    assert s'.cache[b := s'.cache[b]] == s'.cache;
  }

  /** A silent or closing step leaves both sides of the store alone. */
  lemma EndFacts(g: Geometry, s: State, s': State)
    requires Inv(g, s) && (Refines(g, s, Silent, s') || Refines(g, s, Closed, s'))
    ensures Ready(g, s) && Ready(g, s')
    ensures Abs(g, s').current == Abs(g, s).current && Durable(g, s'.disk) == Durable(g, s.disk)
  {
  }

  /** After commit() has run, the disk holds what readers saw when it began. */
  lemma CommitFacts(g: Geometry, s: State, acts: seq<Action>, r: State)
    requires Inv(g, s) && Up(s) && s.adm.committing && Run(g, s, acts) == Reached(r) && AllCommit(acts)
    requires HeadWritten(acts) <==> |s.adm.lh| > 0
    requires s.adm.lh == [] ==> s.phase.Finishing?
    ensures Ready(g, s) && Ready(g, r) && Abs(g, r).current == Abs(g, s).current == Durable(g, r.disk)
  {
    hide Run;
    CommitProgress(g, s, acts, r);
    if s.adm.lh == [] {
      CommittingIsClean(g, s);
      RecoveredCurrent(g, s);
    }
  }

  lemma RecoveredDisk(g: Geometry, s: State, acts: seq<Action>, r: State, d: Disk, d': Disk)
    requires Inv(g, s) && Run(g, s, acts) == Reached(r) && AllRecovery(acts) && r.phase.Running?
    requires d == s.disk && d' == r.disk
    ensures DiskOk(g, d) && forall b :: Home(g, b) ==> b in d' && d'[b] == Durable(g, d)[b]
  {
    RecoveryExact(g, s, acts, r);
  }

  lemma ReadHeadIs(g: Geometry, s: State)
    requires Inv(g, s) && s.phase.Booting?
    ensures g.start in s.disk && ValidHeader(Fetch(s, g.start)) && Enabled(g, s, ReadHead)
    ensures Apply(g, s, ReadHead) == DoReadHead(g, s) && s.adm.lh == []
  {
    hide CacheOk, DirtyOk, AdmOk, LogHolds, HomeHolds, PutHeader;
  }

  /** Loading a buffer for the source block between two uses of the slot's buffer. */
  lemma KeepTwice(cache: map<nat, Buf>, slot: nat, x: Block, b: nat, v: Block)
    requires slot != b
    ensures Keep(Keep(Keep(cache, slot, x), b, v), slot, v) == Keep(Keep(cache, b, v), slot, v)
  {
  }

  class Log {
    const g: Geometry
    var disk: Disk
    var cache: map<nat, Buf>
    var n: nat                  // log.lh.n
    const block: array<nat>     // log.lh.block
    var outstanding: int
    var committing: bool

    // Where each process and the committer are; the source keeps this in stacks and registers.
    ghost var ops: seq<A.Op>
    ghost var dirty: set<nat>
    ghost var phase: Phase

    ghost predicate Valid()
      reads this, block
    {
      block.Length == A.LOGSIZE && n <= A.LOGSIZE && Inv(g, View())
    }

    ghost function View(): State
      reads this, block
      requires n <= block.Length
    {
      State(disk, cache, A.Admission(ops, outstanding, committing, block[..n]), dirty, phase)
    }

    /** The machine at power-on. */
    constructor (geometry: Geometry, image: Disk, nproc: nat)
      requires DiskOk(geometry, image)
      ensures Valid() && g == geometry && View() == PowerOn(image, nproc) && fresh(block)
    {
      g, disk, cache := geometry, image, map[];
      n, outstanding, committing := 0, 0, false;
      block := new nat[A.LOGSIZE];
      ops, dirty, phase := A.Init(nproc).ops, {}, Booting;
      new;
      assert View() == PowerOn(image, nproc);
      PowerOnInv(g, image, nproc);
    }

    /** bread by the committer, which releases the buffer again before anyone else can look. */
    method Bread(b: nat) returns (data: Block)
      requires b in disk && n <= block.Length
      modifies `cache
      ensures data == old(Fetch(View(), b))
      ensures b in cache && cache == Keep(old(cache), b, data)
    {
      if b in cache && cache[b].valid {
        data := cache[b].data;
      } else {
        data := disk[b];
      }
      cache := Keep(cache, b, data);
    }

    /** Changes the data of a cached block and writes it to the disk. */
    method Bwrite(b: nat, data: Block)
      requires b in cache
      modifies `cache, `disk
      ensures b in cache && cache == Keep(old(cache), b, data) && disk == old(disk)[b := data]
    {
      cache := Keep(cache, b, data);
      disk := disk[b := data];
    }

    /** The absorption loop of log_write: the first entry for b, or n. */
    method FindEntry(b: nat) returns (i: nat)
      requires n <= block.Length
      ensures i <= n
      ensures i < n ==> block[i] == b
      ensures i == n ==> b !in block[..n]
    {
      i := 0;
      while i < n && block[i] != b
        invariant 0 <= i <= n
        invariant forall j :: 0 <= j < i ==> block[j] != b
      {
        i := i + 1;
      }
    }

    method LogWrite(b: nat, ghost t: nat) returns (panicked: bool)
      requires Valid() && Up(View()) && HeldBy(View(), b, t) && t < |ops| && ops[t].Active?
      modifies this, block
      ensures panicked <==> old(n) >= 30 || old(n) >= g.size - 1 || old(outstanding) < 1
      ensures Valid() && n <= block.Length && old(n) <= block.Length
      ensures !panicked ==>
        block[..n] == if b in old(block[..n]) then old(block[..n]) else old(block[..n]) + [b]
      ensures View() == if panicked then old(View()) else DoLogWrite(old(View()), t, b)
    {
      hide Inv;
      if n >= A.LOGSIZE || n >= g.size - 1 || outstanding < 1 {
        return true;
      }
      ghost var s := View();
      LogWriteRefines(g, s, t, b);
      var i := FindEntry(b);
      block[i] := b;
      if i == n {
        cache := cache[b := cache[b].(refcnt := cache[b].refcnt + 1)];
        n := n + 1;
      }
      ops := ops[t := A.Active(ops[t].wrote + {b})];
      dirty := dirty - {b};
      assert block[..n] == A.Absorb(s.adm.lh, b);
      panicked := false;
    }

    /** One pass through the loop of begin_op. */
    method BeginOp(ghost t: nat) returns (entered: bool)
      requires Valid() && Up(View()) && t < |ops| && ops[t].Outside?
      modifies this
      ensures Valid() && (entered <==> !old(committing) && old(n) + (old(outstanding) + 1) * 10 <= 30)
      ensures n == old(n) && outstanding == old(outstanding) + (if entered then 1 else 0)
      ensures |ops| == |old(ops)| && (entered <==> ops[t].Active?)
      ensures View() == DoBegin(old(View()), t)
    {
      hide Inv;
      ghost var s := View();
      BeginRefines(g, s, t);
      if committing {
        entered := false;
      } else if n + (outstanding + 1) * A.MAXOPBLOCKS > A.LOGSIZE {
        entered := false;
      } else {
        outstanding := outstanding + 1;
        entered := true;
      }
      ops := A.BeginOp(s.adm, t).ops;
    }

    /** The locked section of end_op; it never finds a commit in progress. */
    method LeaveOp(ghost t: nat) returns (doCommit: bool)
      requires Valid() && Up(View()) && t < |ops| && ops[t].Active?
      requires forall b :: b in dirty ==> !HeldBy(View(), b, t)
      modifies this
      ensures Valid() && !old(committing) && doCommit == committing
      ensures outstanding == old(outstanding) - 1 && (doCommit <==> outstanding == 0)
      ensures View() == DoEnd(old(View()), t)
    {
      hide Inv;
      ghost var s := View();
      ActiveMeansIdle(g, s, t);
      EndRefines(g, s, t);
      outstanding := outstanding - 1;
      doCommit := outstanding == 0;
      if doCommit {
        committing := true;
      }
      ops := A.EndOp(s.adm, t).ops;
      phase := DoEnd(s, t).phase;
    }

    /** Nobody holds a listed block: the committer gets their sleep-locks at once. */
    ghost predicate ListUnlocked()
      reads this, block
    {
      n <= block.Length && forall k :: 0 <= k < n && block[k] in cache ==> cache[block[k]].holder.Nobody?
    }

    /** write_log: one block write per iteration. */
    method WriteLog() returns (ghost acts: seq<Action>)
      requires Valid() && phase == WritingLog(0) && ListUnlocked()
      modifies `disk, `cache, `phase
      ensures Valid() && ListUnlocked() && phase == WritingLog(n)
      ensures Run(g, old(View()), acts) == Reached(View()) && AllCommit(acts) && !HeadWritten(acts)
    {
      hide Inv, Run, Apply, Enabled;
      ghost var s0 := View();
      acts := [];
      RunNothing(g, s0);
      var tail := 0;
      while tail < n
        invariant tail <= n && phase == WritingLog(tail) && Valid() && ListUnlocked()
        invariant Run(g, s0, acts) == Reached(View()) && AllCommit(acts) && !HeadWritten(acts)
      {
        ghost var s := View();
        WriteLogOne(tail);
        Extend(g, s0, acts, s, CommitBlock);
        acts := acts + [CommitBlock];
        tail := tail + 1;
      }
    }

    /** One iteration of write_log. */
    method WriteLogOne(tail: nat)
      requires Valid() && phase == WritingLog(tail) && tail < n && ListUnlocked()
      modifies `disk, `cache, `phase
      ensures n <= block.Length && ListUnlocked() && phase == WritingLog(tail + 1)
      ensures Inv(g, old(View())) && Enabled(g, old(View()), CommitBlock) && View() == Apply(g, old(View()), CommitBlock)
    {
      hide Inv, Run, Apply, Enabled, Keep;
      ghost var s := View();
      ListedOnDisk(g, s, tail);
      var to := Bread(g.start + tail + 1);
      var from := Bread(block[tail]);
      FetchKept(s, g.start + tail + 1, to, block[tail]);
      KeepStays(Keep(s.cache, g.start + tail + 1, to), g.start + tail + 1, block[tail], from);
      Bwrite(g.start + tail + 1, from);
      forall k | 0 <= k < n && block[k] in cache
        ensures cache[block[k]].holder.Nobody?
      {
        HoldersKept(s.cache, g.start + tail + 1, to, block[tail], from, g.start + tail + 1, from, block[k]);
      }
      phase := WritingLog(tail + 1);
      CommitBlockIs(g, s, View(), to, from);
    }

    /** write_head: fill in the header buffer entry by entry, then one block write. */
    method WriteHead()
      requires n <= block.Length && block.Length == A.LOGSIZE && g.start in disk && Encodable(block[..n])
      modifies `disk, `cache
      ensures View() == DoWriteHead(g, old(View()), PutHeader(Fetch(old(View()), g.start), block[..n]))
    {
      hide PutWord, PutEntries, PutHeader;
      ghost var s := View();
      var hb := Bread(g.start);
      ghost var b0 := hb;
      hb := PutWord(hb, 0, n);
      var i := 0;
      EntriesStart(b0, block[..n]);
      while i < n
        invariant i <= n && hb == PutEntries(PutWord(b0, 0, n), block[..n], i)
        invariant cache == Keep(s.cache, g.start, b0) && disk == s.disk
      {
        EntriesStep(PutWord(b0, 0, n), block[..n], i);
        hb := PutWord(hb, 1 + i, block[i]);
        i := i + 1;
      }
      PutHeaderIs(b0, block[..n]);
      Bwrite(g.start, hb);
      KeepAgain(s.cache, g.start, b0, hb);
    }

    /** install_trans(0): one home block write and one bunpin per iteration. */
    method InstallTrans() returns (ghost acts: seq<Action>)
      requires Valid() && phase == Installing(0) && ListUnlocked()
      modifies `disk, `cache, `phase
      ensures Valid() && ListUnlocked() && phase == Installing(n)
      ensures Run(g, old(View()), acts) == Reached(View()) && AllCommit(acts) && !HeadWritten(acts)
    {
      hide Inv, Run, Apply, Enabled;
      ghost var s0 := View();
      acts := [];
      RunNothing(g, s0);
      var tail := 0;
      while tail < n
        invariant tail <= n && phase == Installing(tail) && Valid() && ListUnlocked()
        invariant Run(g, s0, acts) == Reached(View()) && AllCommit(acts) && !HeadWritten(acts)
      {
        ghost var s := View();
        InstallOne(tail);
        Extend(g, s0, acts, s, CommitInstall);
        acts := acts + [CommitInstall];
        tail := tail + 1;
      }
    }

    /** One iteration of install_trans(0). */
    method InstallOne(tail: nat)
      requires Valid() && phase == Installing(tail) && tail < n && ListUnlocked()
      modifies `disk, `cache, `phase
      ensures n <= block.Length && ListUnlocked() && phase == Installing(tail + 1)
      ensures Inv(g, old(View())) && Enabled(g, old(View()), CommitInstall) && View() == Apply(g, old(View()), CommitInstall)
    {
      hide Inv, Run, Apply, Enabled, Keep;
      ghost var s := View();
      ListedOnDisk(g, s, tail);
      var b := block[tail];
      var lbuf := Bread(g.start + tail + 1);
      var dbuf := Bread(b);
      Bwrite(b, lbuf);
      forall k | 0 <= k < n && block[k] in cache
        ensures cache[block[k]].holder.Nobody?
      {
        HoldersKept(s.cache, g.start + tail + 1, lbuf, b, dbuf, b, lbuf, block[k]);
      }
      cache := cache[b := cache[b].(refcnt := cache[b].refcnt - 1)];   // bunpin
      phase := Installing(tail + 1);
      InstallIs(g, s, View(), dbuf, lbuf);
    }

    /** commit()'s first write_head: the commit point. */
    method WriteCommitHead()
      requires Valid() && phase == WritingLog(n)
      modifies `disk, `cache, `phase
      ensures Valid() && phase == Installing(0) && (old(ListUnlocked()) ==> ListUnlocked())
      ensures Run(g, old(View()), [CommitHead]) == Reached(View())
    {
      hide Inv, Run, Apply, Enabled, PutHeader;
      ghost var s := View();
      CommitHeadIs(g, s);
      WriteHead();
      phase := Installing(0);
      RunNothing(g, s);
      Extend(g, s, [], s, CommitHead);
      assert [] + [CommitHead] == [CommitHead];
    }

    /** commit()'s last two statements: log.lh.n = 0 and write_head. */
    method EraseHead()
      requires Valid() && phase == Installing(n)
      modifies `disk, `cache, `phase, `n
      ensures Valid() && phase == Finishing && n == 0
      ensures Run(g, old(View()), [CommitErase]) == Reached(View())
    {
      hide Inv, Run, Apply, Enabled, PutHeader;
      ghost var s := View();
      CommitEraseIs(g, s);
      n := 0;
      assert block[..n] == [];
      WriteHead();
      phase := Finishing;
      RunNothing(g, s);
      Extend(g, s, [], s, CommitErase);
      assert [] + [CommitErase] == [CommitErase];
    }

    /** commit(): the transaction becomes durable with the first header write. */
    method Commit() returns (ghost acts: seq<Action>)
      requires Valid() && ListUnlocked() && committing
      requires phase == if n > 0 then WritingLog(0) else Finishing
      modifies `disk, `cache, `phase, `n
      ensures Valid() && phase == Finishing && n == 0
      ensures Run(g, old(View()), acts) == Reached(View()) && AllCommit(acts)
      ensures HeadWritten(acts) <==> old(n) > 0
    {
      hide Inv, Run, View;
      ghost var s0 := View();
      acts := [];
      RunNothing(g, s0);
      if n > 0 {
        ghost var log := WriteLog();
        ghost var s1 := View();
        WriteCommitHead();
        ghost var s2 := View();
        Concat(g, s0, log, s1, [CommitHead], s2);
        ghost var install := InstallTrans();
        ghost var s3 := View();
        Concat(g, s0, log + [CommitHead], s2, install, s3);
        EraseHead();
        Concat(g, s0, log + [CommitHead] + install, s3, [CommitErase], View());
        acts := log + [CommitHead] + install + [CommitErase];
        assert acts[|log|].CommitHead?;
      }
    }

    /** end_op: when the last operation leaves, everything readers see is durable on return. */
    method EndOp(ghost t: nat)
      requires Valid() && Up(View()) && t < |ops| && ops[t].Active?
      requires forall b :: b in dirty ==> !HeldBy(View(), b, t)
      requires outstanding == 1 ==> ListUnlocked()
      modifies this
      ensures Valid() && phase == Running && outstanding == old(outstanding) - 1
      ensures !committing && (outstanding == 0 ==> n == 0)
      ensures DiskOk(g, old(disk)) && DiskOk(g, disk)
      ensures Abs(g, View()).current == Abs(g, old(View())).current
      ensures Durable(g, disk) == if outstanding == 0 then Abs(g, old(View())).current else Durable(g, old(disk))
    {
      hide Inv, Run, Abs, Durable;
      ghost var s0 := View();
      InvIsReady(g, s0);
      ActiveMeansIdle(g, s0, t);
      EndRefines(g, s0, t);
      var doCommit := LeaveOp(t);
      ghost var s1 := View();
      EndFacts(g, s0, s1);
      if doCommit {
        ghost var acts := Commit();
        ghost var s2 := View();
        CommitFacts(g, s1, acts, s2);
        CommitDoneRefines(g, s2);
        committing := false;
        ops := A.WakeAll(ops);
        phase := Running;
        EndFacts(g, s2, View());
      }
    }

    /** read_head: the header block becomes log.lh. */
    method ReadHead()
      requires Valid() && phase == Booting
      modifies this, block
      ensures Valid() && phase == Replaying(0)
      ensures Run(g, old(View()), [Action.ReadHead]) == Reached(View())
    {
      hide Inv, Run, Apply, Enabled, WordAt;
      ghost var s := View();
      ReadHeadIs(g, s);
      var hb := Bread(g.start);
      n := WordAt(hb, 0);
      var i := 0;
      while i < n
        invariant i <= n == WordAt(hb, 0) <= block.Length
        invariant forall k :: 0 <= k < i ==> block[k] == WordAt(hb, 1 + k)
        invariant View() == s.(cache := cache, adm := s.adm.(lh := block[..n])) && cache == Keep(s.cache, g.start, hb)
      {
        block[i] := WordAt(hb, 1 + i);
        i := i + 1;
      }
      phase := Replaying(0);
      assert block[..n] == HeaderOf(hb);
      RunNothing(g, s);
      Extend(g, s, [], s, Action.ReadHead);
      assert [] + [Action.ReadHead] == [Action.ReadHead];
    }

    /** install_trans(1). */
    method Replay() returns (ghost acts: seq<Action>)
      requires Valid() && phase == Replaying(0)
      modifies `disk, `cache, `phase
      ensures Valid() && phase == Replaying(n)
      ensures Run(g, old(View()), acts) == Reached(View()) && AllRecovery(acts)
    {
      hide Inv, Run, Apply, Enabled;
      ghost var s0 := View();
      acts := [];
      RunNothing(g, s0);
      var tail := 0;
      while tail < n
        invariant tail <= n && phase == Replaying(tail) && Valid()
        invariant Run(g, s0, acts) == Reached(View()) && AllRecovery(acts)
      {
        ghost var s := View();
        ListedOnDisk(g, s, tail);
        var b := block[tail];
        var lbuf := Bread(g.start + tail + 1);
        var dbuf := Bread(b);
        Bwrite(b, lbuf);
        phase := Replaying(tail + 1);
        ReplayIs(g, s, View(), dbuf, lbuf);
        Extend(g, s0, acts, s, ReplayBlock);
        acts := acts + [ReplayBlock];
        tail := tail + 1;
      }
    }

    method FinishReplay()
      requires Valid() && phase == Replaying(n)
      modifies `disk, `cache, `phase, `n
      ensures Valid() && phase == Running && n == 0
      ensures Run(g, old(View()), [ReplayErase]) == Reached(View())
    {
      hide Inv, Run, Apply, Enabled, PutHeader;
      ghost var s := View();
      ReplayEraseIs(g, s);
      n := 0;
      assert block[..n] == [];
      WriteHead();
      phase := Running;
      RunNothing(g, s);
      Extend(g, s, [], s, ReplayErase);
      assert [] + [ReplayErase] == [ReplayErase];
    }

    /** recover_from_log: whatever the disk was at power-on, its home blocks end up as the last
        committed state, and the log is empty. */
    method RecoverFromLog() returns (ghost acts: seq<Action>)
      requires Valid() && phase == Booting
      modifies this, block
      ensures Valid() && phase == Running && n == 0
      ensures Run(g, old(View()), acts) == Reached(View()) && AllRecovery(acts)
      ensures DiskOk(g, old(disk)) &&
              forall b :: Home(g, b) ==> b in disk && disk[b] == Durable(g, old(disk))[b]
    {
      hide Inv, Run, Durable;
      ghost var s0 := View();
      ReadHead();
      ghost var s1 := View();
      acts := Replay();
      ghost var s2 := View();
      Concat(g, s0, [Action.ReadHead], s1, acts, s2);
      FinishReplay();
      Concat(g, s0, [Action.ReadHead] + acts, s2, [ReplayErase], View());
      acts := [Action.ReadHead] + acts + [ReplayErase];
      RecoveredDisk(g, s0, acts, View(), old(disk), disk);
    }
  }
}
