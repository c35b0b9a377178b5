/**
  What the log and the buffer cache promise together: seen from outside they are a block map
  with an atomic commit.  The invariant below holds in every reachable state, and every step
  is a step of the simple block store or changes nothing it can see.
 */
module LogRefinement {
  import opened Layout
  import opened LogHeader
  import opened LogSystem
  import Finite
  import A = LogAdmission

  // ---------- the simple block store

  /** `durable` survives a crash, `current` is what readers see, `open` counts operations. */
  datatype Store = Store(durable: map<nat, Block>, current: map<nat, Block>, open: int)

  datatype Effect = Silent | Wrote(b: nat, v: Block) | Opened | Closed | Committed | Lost

  ghost predicate StoreStep(x: Store, e: Effect, y: Store) {
    match e
    case Silent => y == x
    case Wrote(b, v) => b in x.current && x.open > 0 && y == x.(current := x.current[b := v])
    case Opened => y == x.(open := x.open + 1)
    case Closed => x.open > 0 && y == x.(open := x.open - 1)
    case Committed => x.open == 0 && y == x.(durable := x.current)
    case Lost => y == x.(current := x.durable, open := 0)
  }

  // ---------- abstraction

  function IndexOf(h: seq<nat>, b: nat): (k: nat)
    requires b in h
    ensures k < |h| && h[k] == b
  {
    if h[0] == b then 0 else 1 + IndexOf(h[1..], b)
  }

  /** Block b as a completed recovery would leave it. */
  ghost function DurableAt(g: Geometry, disk: Disk, b: nat): Block
    requires DiskOk(g, disk) && Home(g, b)
  {
    var h := Head(g, disk);
    if b in h then disk[Slot(g, IndexOf(h, b))] else disk[b]
  }

  ghost function Durable(g: Geometry, disk: Disk): map<nat, Block>
    requires DiskOk(g, disk)
  {
    map b | 0 <= b < g.nblocks && Home(g, b) :: DurableAt(g, disk, b)
  }

  ghost function CurrentAt(g: Geometry, s: State, b: nat): Block
    requires DiskOk(g, s.disk) && Home(g, b)
  {
    if Up(s) then Fetch(s, b) else DurableAt(g, s.disk, b)
  }

  ghost function Abs(g: Geometry, s: State): Store
    requires DiskOk(g, s.disk)
  {
    Store(Durable(g, s.disk),
          map b | 0 <= b < g.nblocks && Home(g, b) :: CurrentAt(g, s, b),
          s.adm.outstanding)
  }

  // ---------- the invariant

  function Unpinned(s: State): nat {
    if s.phase.Installing? then s.phase.tail else 0
  }

  /** The log holds a pin on the buffer of b. */
  predicate Pinned(s: State, b: nat) {
    Up(s) && Unpinned(s) <= |s.adm.lh| && b in s.adm.lh[Unpinned(s)..]
  }

  ghost predicate BufOk(g: Geometry, s: State, b: nat)
    requires b in s.cache && b in s.disk
  {
    var u := s.cache[b];
    && u.refcnt == |u.users| + (if Pinned(s, b) then 1 else 0)
    && (u.holder.Held? ==> u.holder.pid in u.users && u.valid)
    && (Pinned(s, b) ==> u.valid)
    && (!Home(g, b) || !Up(s) ==> u.users == {})
    && (u.valid && !Pinned(s, b) && b !in s.dirty ==> u.data == s.disk[b])
  }

  ghost predicate CacheOk(g: Geometry, s: State) {
    && (forall b :: b in s.cache ==> b in s.disk && BufOk(g, s, b))
    && (forall b :: Pinned(s, b) ==> b in s.cache)
  }

  ghost predicate DirtyOk(g: Geometry, s: State) {
    forall b :: b in s.dirty ==>
      && Up(s) && Home(g, b) && b in s.cache && s.cache[b].holder.Held?
      && s.cache[b].holder.pid < |s.adm.ops| && s.adm.ops[s.cache[b].holder.pid].Active?
  }

  ghost predicate AdmOk(s: State) {
    && (Up(s) ==> A.Inv(s.adm))
    && (!Up(s) ==> s.adm.(lh := []) == A.Init(|s.adm.ops|) && Finite.NoRepeats(s.adm.lh))
  }

  /** Slots lo..hi-1 of the log hold what readers see of the listed blocks. */
  ghost predicate LogHolds(g: Geometry, s: State, lo: nat, hi: nat)
    requires Ready(g, s)
  {
    forall k :: lo <= k < hi && k < |s.adm.lh| ==> s.disk[Slot(g, k)] == Fetch(s, s.adm.lh[k])
  }

  /** The first `hi` listed blocks have reached their home location. */
  ghost predicate HomeHolds(g: Geometry, s: State, hi: nat)
    requires Ready(g, s)
  {
    forall k :: 0 <= k < hi && k < |s.adm.lh| ==> s.disk[s.adm.lh[k]] == s.disk[Slot(g, k)]
  }

  ghost predicate PhaseOk(g: Geometry, s: State)
    requires Ready(g, s)
  {
    var h, lh := Head(g, s.disk), s.adm.lh;
    match s.phase
    case Running => !s.adm.committing && h == []
    case WritingLog(tail) => s.adm.committing && h == [] && tail <= |lh| && LogHolds(g, s, 0, tail)
    case Installing(tail) =>
      s.adm.committing && h == lh && tail <= |lh| && LogHolds(g, s, tail, |lh|) && HomeHolds(g, s, tail)
    case Finishing => s.adm.committing && h == [] && lh == []
    case Booting => lh == []
    case Replaying(tail) => h == lh && tail <= |lh| && HomeHolds(g, s, tail)
  }

  ghost predicate Inv(g: Geometry, s: State) {
    && Ready(g, s)
    && CacheOk(g, s)
    && DirtyOk(g, s)
    && AdmOk(s)
    && PhaseOk(g, s)
  }

  /** The effect an action has on the block store. */
  ghost function EffectOf(s: State, a: Action): Effect {
    match a
    case Edit(_, b, v) => Wrote(b, v)
    case Begin(_) => if A.MayEnter(s.adm) then Opened else Silent
    case End(_) => Closed
    case CommitHead => Committed
    case Crash => Lost
    case _ => Silent
  }

  /** s' is a legal successor of s whose visible effect is e. */
  ghost predicate Refines(g: Geometry, s: State, e: Effect, s': State)
    requires Inv(g, s)
  {
    Inv(g, s') && StoreStep(Abs(g, s), e, Abs(g, s'))
  }

  // ---------- what readers and recovery see

  /** The two states show the same home blocks to a reader. */
  ghost predicate LooksSame(g: Geometry, s: State, s': State) {
    forall b :: Home(g, b) && b in s.disk && b in s'.disk ==> Fetch(s', b) == Fetch(s, b)
  }

  lemma CurrentSame(g: Geometry, s: State, s': State)
    requires DiskOk(g, s.disk) && DiskOk(g, s'.disk) && LooksSame(g, s, s') && Up(s) && Up(s')
    ensures Abs(g, s').current == Abs(g, s).current
  {
  }

  lemma DurableSame(g: Geometry, d: Disk, d': Disk)
    requires DiskOk(g, d) && DiskOk(g, d')
    requires forall b :: Home(g, b) ==> DurableAt(g, d', b) == DurableAt(g, d, b)
    ensures Durable(g, d') == Durable(g, d)
  {
  }

  // ---------- steps that change nothing but buffers

  /** A step that leaves disk and log alone and no home block looking different is silent. */
  lemma BufferStep(g: Geometry, s: State, s': State)
    requires Inv(g, s) && Up(s) && s' == s.(cache := s'.cache, dirty := s'.dirty)
    requires CacheOk(g, s') && DirtyOk(g, s') && LooksSame(g, s, s')
    ensures Refines(g, s, Silent, s')
  {
    assert Cached(s', g.start) ==> BufOk(g, s', g.start);
    CurrentSame(g, s, s');
  }

  /** Buffers other than that of block c are as good as before. */
  lemma OthersOk(g: Geometry, s: State, s': State, c: nat)
    requires CacheOk(g, s) && s' == s.(cache := s'.cache, dirty := s'.dirty)
    requires forall b :: b in s'.cache && b != c ==> b in s.cache && s'.cache[b] == s.cache[b]
    requires forall b :: b != c ==> (b in s'.dirty <==> b in s.dirty)
    ensures forall b :: b in s'.cache && b != c ==> b in s'.disk && BufOk(g, s', b)
  {
    forall b | b in s'.cache && b != c
      ensures b in s'.disk && BufOk(g, s', b)
    {
      assert BufOk(g, s, b);
      assert Pinned(s', b) == Pinned(s, b);
    }
  }

  lemma GetCache(g: Geometry, s: State, t: nat, b: nat, stale: Block)
    requires CacheOk(g, s) && DirtyOk(g, s) && Up(s) && Home(g, b) && b in s.disk
    requires b in s.cache ==> t !in s.cache[b].users
    ensures var s' := DoGet(s, t, b, stale); CacheOk(g, s') && DirtyOk(g, s') && LooksSame(g, s, s')
  {
    var s' := DoGet(s, t, b, stale);
    OthersOk(g, s, s', b);
    assert Pinned(s', b) == Pinned(s, b);
    if b in s.cache {
      assert BufOk(g, s, b);
      assert |s.cache[b].users + {t}| == |s.cache[b].users| + 1;
    }
    assert BufOk(g, s', b);
  }

  lemma LockCache(g: Geometry, s: State, t: nat, b: nat)
    requires CacheOk(g, s) && DirtyOk(g, s) && Up(s) && b in s.disk
    requires b in s.cache && t in s.cache[b].users && s.cache[b].holder.Nobody?
    ensures var s' := DoLock(s, t, b); CacheOk(g, s') && DirtyOk(g, s') && LooksSame(g, s, s')
  {
    var s' := DoLock(s, t, b);
    OthersOk(g, s, s', b);
    assert Pinned(s', b) == Pinned(s, b);
    assert BufOk(g, s, b);
    assert BufOk(g, s', b);
  }

  lemma ReleaseCache(g: Geometry, s: State, t: nat, b: nat)
    requires CacheOk(g, s) && DirtyOk(g, s) && Up(s) && HeldBy(s, b, t) && b !in s.dirty
    ensures var s' := DoRelease(s, t, b); CacheOk(g, s') && DirtyOk(g, s') && LooksSame(g, s, s')
  {
    var s' := DoRelease(s, t, b);
    OthersOk(g, s, s', b);
    assert Pinned(s', b) == Pinned(s, b);
    assert BufOk(g, s, b);
    assert BufOk(g, s', b);
  }

  lemma EvictCache(g: Geometry, s: State, b: nat)
    requires CacheOk(g, s) && DirtyOk(g, s) && b in s.cache && s.cache[b].refcnt == 0
    ensures var s' := DoEvict(s, b); CacheOk(g, s') && DirtyOk(g, s')
    ensures forall c :: c in s.disk ==> Fetch(DoEvict(s, b), c) == Fetch(s, c)
  {
    var s' := DoEvict(s, b);
    OthersOk(g, s, s', b);
    assert Pinned(s', b) == Pinned(s, b);
    assert BufOk(g, s, b);
    assert s.cache[b].users == {};
  }

  lemma EvictRefines(g: Geometry, s: State, b: nat)
    requires Inv(g, s) && b in s.cache && s.cache[b].refcnt == 0
    ensures Refines(g, s, Silent, DoEvict(s, b))
  {
    EvictCache(g, s, b);
    if Up(s) {
      BufferStep(g, s, DoEvict(s, b));
    }
  }

  lemma EditCache(g: Geometry, s: State, t: nat, b: nat, v: Block)
    requires CacheOk(g, s) && DirtyOk(g, s) && Up(s) && HeldBy(s, b, t) && t < |s.adm.ops| && s.adm.ops[t].Active?
    ensures CacheOk(g, DoEdit(s, b, v)) && DirtyOk(g, DoEdit(s, b, v)) && Home(g, b)
  {
    var s' := DoEdit(s, b, v);
    OthersOk(g, s, s', b);
    assert Pinned(s', b) == Pinned(s, b);
    assert BufOk(g, s, b);
    assert BufOk(g, s', b);
  }

  lemma EditCurrent(g: Geometry, s: State, t: nat, b: nat, v: Block)
    requires DiskOk(g, s.disk) && CacheOk(g, s) && Up(s) && HeldBy(s, b, t) && Home(g, b)
    ensures Abs(g, DoEdit(s, b, v)) == Abs(g, s).(current := Abs(g, s).current[b := v])
  {
    assert BufOk(g, s, b);
    assert Abs(g, DoEdit(s, b, v)).current == Abs(g, s).current[b := v];
  }

  lemma EditRefines(g: Geometry, s: State, t: nat, b: nat, v: Block)
    requires Inv(g, s) && Up(s) && HeldBy(s, b, t) && t < |s.adm.ops| && s.adm.ops[t].Active?
    ensures Refines(g, s, Wrote(b, v), DoEdit(s, b, v))
  {
    EditCache(g, s, t, b, v);
    A.ActiveCounted(s.adm.ops, t);
    assert s.phase.Running?;
    EditCurrent(g, s, t, b, v);
  }

  // ---------- log_write, begin_op, end_op

  lemma LogWriteCache(g: Geometry, s: State, t: nat, b: nat)
    requires CacheOk(g, s) && DirtyOk(g, s) && s.phase.Running? && HeldBy(s, b, t)
    requires t < |s.adm.ops| && s.adm.ops[t].Active?
    ensures var s' := DoLogWrite(s, t, b); CacheOk(g, s') && DirtyOk(g, s') && LooksSame(g, s, s') && Home(g, b)
  {
    var s' := DoLogWrite(s, t, b);
    assert BufOk(g, s, b);
    forall c | c in s'.cache
      ensures c in s'.disk && BufOk(g, s', c)
    {
      assert BufOk(g, s, c);
      assert Pinned(s', c) <==> Pinned(s, c) || c == b;
    }
    assert forall c :: Pinned(s', c) ==> Pinned(s, c) || c == b;
  }

  lemma LogWriteRefines(g: Geometry, s: State, t: nat, b: nat)
    requires Inv(g, s) && HeldBy(s, b, t) && A.Enabled(s.adm, A.Write(t, b), g.size) && Up(s)
    ensures Refines(g, s, Silent, DoLogWrite(s, t, b))
  {
    var s' := DoLogWrite(s, t, b);
    A.ActiveCounted(s.adm.ops, t);
    assert s.phase.Running?;
    LogWriteCache(g, s, t, b);
    A.WriteKeepsInv(s.adm, t, b);
    assert ListOk(g, s'.adm.lh);
    CurrentSame(g, s, s');
  }

  /** A step that changes only which operations run, not the logged block numbers. */
  lemma AdmissionStep(g: Geometry, s: State, s': State)
    requires CacheOk(g, s) && s' == s.(adm := s'.adm, phase := s'.phase)
    requires s'.adm.lh == s.adm.lh && Up(s) && Up(s') && Unpinned(s') == Unpinned(s)
    ensures CacheOk(g, s')
  {
    forall b | b in s'.cache
      ensures b in s'.disk && BufOk(g, s', b)
    {
      assert BufOk(g, s, b);
      assert Pinned(s', b) == Pinned(s, b);
    }
  }

  lemma BeginRefines(g: Geometry, s: State, t: nat)
    requires Inv(g, s) && Up(s) && t < |s.adm.ops| && s.adm.ops[t].Outside?
    ensures Refines(g, s, if A.MayEnter(s.adm) then Opened else Silent, DoBegin(s, t))
  {
    var s' := DoBegin(s, t);
    AdmissionStep(g, s, s');
    A.BeginKeepsInv(s.adm, t);
    CurrentSame(g, s, s');
    assert DirtyOk(g, s');
    assert PhaseOk(g, s');
  }

  lemma EndRefines(g: Geometry, s: State, t: nat)
    requires Inv(g, s) && Up(s) && t < |s.adm.ops| && s.adm.ops[t].Active?
    requires forall b :: b in s.dirty ==> !HeldBy(s, b, t)
    ensures Refines(g, s, Closed, DoEnd(s, t))
  {
    var s' := DoEnd(s, t);
    A.ActiveCounted(s.adm.ops, t);
    assert s.phase.Running?;
    AdmissionStep(g, s, s');
    A.EndKeepsInv(s.adm, t);
    CurrentSame(g, s, s');
    assert DirtyOk(g, s');
    assert PhaseOk(g, s');
  }

  // ---------- commit

  /** While a commit runs, every edit has been logged. */
  lemma CommittingIsClean(g: Geometry, s: State)
    requires DirtyOk(g, s) && A.Inv(s.adm) && s.adm.committing
    ensures s.dirty == {}
  {
    if s.dirty != {} {
      var b :| b in s.dirty;
      A.ActiveCounted(s.adm.ops, s.cache[b].holder.pid);
    }
  }

  lemma ListedIsPinned(s: State, k: nat)
    requires Up(s) && Unpinned(s) <= k < |s.adm.lh|
    ensures Pinned(s, s.adm.lh[k])
  {
    assert s.adm.lh[Unpinned(s)..][k - Unpinned(s)] == s.adm.lh[k];
  }

  lemma SlotIsFree(g: Geometry, s: State, k: nat)
    requires Ready(g, s) && k < |s.adm.lh|
    ensures !Home(g, Slot(g, k)) && !Pinned(s, Slot(g, k)) && Home(g, s.adm.lh[k]) && Slot(g, k) in s.disk
    ensures !Pinned(s, g.start)
  {
    assert Pinned(s, Slot(g, k)) ==> Slot(g, k) in s.adm.lh;
    assert Pinned(s, g.start) ==> g.start in s.adm.lh;
  }

  lemma CommitBlockCache(g: Geometry, s: State)
    requires Ready(g, s) && CacheOk(g, s) && s.phase.WritingLog? && Tail(s, s.phase.tail)
    ensures var s' := DoCommitBlock(g, s); CacheOk(g, s') && LooksSame(g, s, s')
  {
    hide ListOk;
    var s' := DoCommitBlock(g, s);
    var b, slot := s.adm.lh[s.phase.tail], Slot(g, s.phase.tail);
    ListedIsPinned(s, s.phase.tail);
    SlotIsFree(g, s, s.phase.tail);
    assert forall c :: Pinned(s', c) == Pinned(s, c);
    assert BufOk(g, s, b);
    assert slot in s.cache ==> BufOk(g, s, slot);
    assert BufOk(g, s', b) && BufOk(g, s', slot);
    forall c | c in s'.cache && c != b && c != slot
      ensures c in s'.disk && BufOk(g, s', c)
    {
      assert c in s.cache && BufOk(g, s, c);
    }
  }

  /** Writing to a log slot that no header names yet does not change what recovery finds. */
  lemma SlotWrite(g: Geometry, d: Disk, k: nat, v: Block)
    requires DiskOk(g, d) && Head(g, d) == [] && 1 + k < g.size
    ensures DiskOk(g, d[Slot(g, k) := v]) && Durable(g, d[Slot(g, k) := v]) == Durable(g, d)
  {
    DurableSame(g, d, d[Slot(g, k) := v]);
  }

  lemma CommitBlockPhase(g: Geometry, s: State, s': State, tail: nat)
    requires Ready(g, s) && Ready(g, s') && LooksSame(g, s, s') && s'.adm == s.adm && tail < |s.adm.lh|
    requires LogHolds(g, s, 0, tail) && s'.disk == s.disk[Slot(g, tail) := Fetch(s, s.adm.lh[tail])]
    ensures LogHolds(g, s', 0, tail + 1)
  {
    assert forall k :: 0 <= k < |s.adm.lh| ==> Home(g, s.adm.lh[k]);
  }

  lemma CommitBlockRefines(g: Geometry, s: State)
    requires Inv(g, s) && s.phase.WritingLog? && Tail(s, s.phase.tail)
    ensures Refines(g, s, Silent, DoCommitBlock(g, s))
  {
    var s' := DoCommitBlock(g, s);
    CommitBlockCache(g, s);
    CommittingIsClean(g, s);
    SlotWrite(g, s.disk, s.phase.tail, Fetch(s, s.adm.lh[s.phase.tail]));
    CurrentSame(g, s, s');
    assert HeadCoherent(g, s');
    CommitBlockPhase(g, s, s', s.phase.tail);
  }

  /** Rewriting the header block leaves all other buffers and home blocks alone. */
  lemma HeadCache(g: Geometry, s: State, v: Block, s': State)
    requires Ready(g, s) && CacheOk(g, s) && DirtyOk(g, s)
    requires s'.disk == s.disk[g.start := v] && s'.cache == Keep(s.cache, g.start, v)
    requires forall b :: Pinned(s', b) == Pinned(s, b)
    requires s'.dirty == s.dirty && (Up(s') || !Up(s))
    ensures CacheOk(g, s') && HeadCoherent(g, s')
  {
    assert !Home(g, g.start);
    assert Pinned(s, g.start) ==> g.start in s.adm.lh;
    assert g.start in s.cache ==> BufOk(g, s, g.start);
    assert BufOk(g, s', g.start);
    forall c | c in s'.cache && c != g.start
      ensures c in s'.disk && BufOk(g, s', c)
    {
      assert c in s.cache && BufOk(g, s, c);
    }
  }

  lemma HeadDisk(g: Geometry, d: Disk, v: Block)
    requires DiskOk(g, d) && ValidHeader(v) && ListOk(g, HeaderOf(v))
    ensures DiskOk(g, d[g.start := v]) && Head(g, d[g.start := v]) == HeaderOf(v)
  {
  }

  /** The commit point: from one block write to the next, recovery switches from the old state
      to what readers see. */
  lemma HeadMakesDurable(g: Geometry, s: State, d: Disk)
    requires Inv(g, s) && s.phase.WritingLog? && s.phase.tail == |s.adm.lh| && s.dirty == {}
    requires DiskOk(g, d) && Head(g, d) == s.adm.lh
    requires forall b :: b in s.disk && b != g.start ==> d[b] == s.disk[b]
    ensures Durable(g, d) == Abs(g, s).current
  {
    forall b | Home(g, b)
      ensures DurableAt(g, d, b) == Fetch(s, b)
    {
      if b in s.adm.lh {
        var k := IndexOf(s.adm.lh, b);
        assert s.disk[Slot(g, k)] == Fetch(s, s.adm.lh[k]);
      } else {
        assert !Pinned(s, b);
        assert b in s.cache ==> BufOk(g, s, b);
      }
    }
  }

  lemma CommitHeadRefines(g: Geometry, s: State, v: Block)
    requires Inv(g, s) && s.phase.WritingLog? && s.phase.tail == |s.adm.lh|
    requires ValidHeader(v) && HeaderOf(v) == s.adm.lh
    ensures Refines(g, s, Committed, DoWriteHead(g, s, v).(phase := Installing(0)))
  {
    var s' := DoWriteHead(g, s, v).(phase := Installing(0));
    CommittingIsClean(g, s);
    HeadCache(g, s, v, s');
    HeadDisk(g, s.disk, v);
    assert LooksSame(g, s, s');
    CurrentSame(g, s, s');
    HeadMakesDurable(g, s, s'.disk);
    CommitHeadPhase(g, s, s');
  }

  lemma CommitHeadPhase(g: Geometry, s: State, s': State)
    requires Ready(g, s) && Ready(g, s') && LooksSame(g, s, s') && s'.adm == s.adm
    requires LogHolds(g, s, 0, |s.adm.lh|) && s'.disk == s.disk[g.start := s'.disk[g.start]]
    ensures LogHolds(g, s', 0, |s'.adm.lh|)
  {
    assert forall k :: 0 <= k < |s.adm.lh| ==> Home(g, s.adm.lh[k]);
  }

  /** After an entry is installed exactly its pin is gone. */
  lemma InstallPins(g: Geometry, s: State, s': State)
    requires ListOk(g, s.adm.lh) && s.phase.Installing? && Tail(s, s.phase.tail)
    requires s'.adm == s.adm && s'.phase == Installing(s.phase.tail + 1)
    ensures forall b :: Pinned(s', b) <==> Pinned(s, b) && b != s.adm.lh[s.phase.tail]
  {
    var lh, tail := s.adm.lh, s.phase.tail;
    assert lh[tail..] == [lh[tail]] + lh[tail + 1..];
    assert lh[tail] !in lh[tail + 1..];
  }

  lemma InstallCache(g: Geometry, s: State)
    requires Ready(g, s) && CacheOk(g, s) && s.dirty == {} && s.phase.Installing? && Tail(s, s.phase.tail)
    ensures CacheOk(g, DoInstall(g, s, s.phase.tail, 1).(phase := Installing(s.phase.tail + 1)))
  {
    hide Pinned, ListOk;
    var tail := s.phase.tail;
    SlotIsFree(g, s, tail);
    var s' := DoInstall(g, s, tail, 1).(phase := Installing(tail + 1));
    var b, slot := s.adm.lh[tail], Slot(g, tail);
    ListedIsPinned(s, tail);
    InstallPins(g, s, s');
    assert slot in s.cache ==> BufOk(g, s, slot);
    assert BufOk(g, s, b);
    assert BufOk(g, s', b) && BufOk(g, s', slot);
    forall c | c in s'.cache && c != b && c != slot
      ensures c in s'.disk && BufOk(g, s', c)
    {
      assert c in s.cache && BufOk(g, s, c);
    }
  }

  lemma InstallLooksSame(g: Geometry, s: State)
    requires Ready(g, s) && CacheOk(g, s) && DirtyOk(g, s) && s.phase.Installing? && Tail(s, s.phase.tail)
    requires LogHolds(g, s, s.phase.tail, |s.adm.lh|)
    ensures var s' := DoInstall(g, s, s.phase.tail, 1).(phase := Installing(s.phase.tail + 1));
      LooksSame(g, s, s') && HeadCoherent(g, s')
  {
    hide Pinned, ListOk, BufOk;
    SlotIsClean(g, s, s.phase.tail);
    SlotIsFree(g, s, s.phase.tail);
  }

  /** Copying a slot to the home block that the header names for it does not change what
      recovery finds. */
  lemma HomeWrite(g: Geometry, d: Disk, k: nat)
    requires DiskOk(g, d) && k < |Head(g, d)|
    ensures var d' := d[Head(g, d)[k] := d[Slot(g, k)]];
      DiskOk(g, d') && Head(g, d') == Head(g, d) && Durable(g, d') == Durable(g, d)
  {
    var d' := d[Head(g, d)[k] := d[Slot(g, k)]];
    assert Home(g, Head(g, d)[k]);
    DurableSame(g, d, d');
  }

  lemma CommitInstallRefines(g: Geometry, s: State)
    requires Inv(g, s) && s.phase.Installing? && Tail(s, s.phase.tail)
    ensures Refines(g, s, Silent, DoInstall(g, s, s.phase.tail, 1).(phase := Installing(s.phase.tail + 1)))
  {
    hide CacheOk, LooksSame, Pinned, LogHolds, HomeHolds;
    var tail := s.phase.tail;
    var s' := DoInstall(g, s, tail, 1).(phase := Installing(tail + 1));
    CommittingIsClean(g, s);
    InstallCache(g, s);
    InstallLooksSame(g, s);
    SlotIsClean(g, s, tail);
    HomeWrite(g, s.disk, tail);
    CurrentSame(g, s, s');
    InstallPhase(g, s, s');
  }

  lemma SlotIsClean(g: Geometry, s: State, k: nat)
    requires Ready(g, s) && CacheOk(g, s) && DirtyOk(g, s) && k < |s.adm.lh|
    ensures Fetch(s, Slot(g, k)) == s.disk[Slot(g, k)]
  {
    var slot := Slot(g, k);
    assert !Home(g, slot);
    assert Pinned(s, slot) ==> slot in s.adm.lh;
    assert slot in s.cache ==> BufOk(g, s, slot);
  }

  lemma InstallPhase(g: Geometry, s: State, s': State)
    requires Inv(g, s) && Ready(g, s') && s.phase.Installing? && Tail(s, s.phase.tail) && LooksSame(g, s, s')
    requires s'.adm == s.adm && s'.disk == s.disk[s.adm.lh[s.phase.tail] := s.disk[Slot(g, s.phase.tail)]]
    ensures LogHolds(g, s', s.phase.tail + 1, |s'.adm.lh|) && HomeHolds(g, s', s.phase.tail + 1)
  {
    assert forall k :: 0 <= k < |s.adm.lh| ==> !Home(g, Slot(g, k)) && Home(g, s.adm.lh[k]);
  }

  /** Once every listed block is home, erasing the header changes nothing for recovery. */
  lemma EraseKeepsDurable(g: Geometry, s: State, d: Disk)
    requires Ready(g, s) && Head(g, s.disk) == s.adm.lh && HomeHolds(g, s, |s.adm.lh|)
    requires DiskOk(g, d) && Head(g, d) == []
    requires forall b :: b in s.disk && b != g.start ==> d[b] == s.disk[b]
    ensures Durable(g, d) == Durable(g, s.disk)
  {
    forall b | Home(g, b)
      ensures DurableAt(g, d, b) == DurableAt(g, s.disk, b)
    {
      if b in s.adm.lh {
        var k := IndexOf(s.adm.lh, b);
        assert s.disk[s.adm.lh[k]] == s.disk[Slot(g, k)];
      }
    }
    DurableSame(g, s.disk, d);
  }

  lemma CommitEraseRefines(g: Geometry, s: State, v: Block)
    requires Inv(g, s) && s.phase.Installing? && s.phase.tail == |s.adm.lh|
    requires ValidHeader(v) && HeaderOf(v) == []
    ensures Refines(g, s, Silent, DoWriteHead(g, s, v).(adm := A.Erase(s.adm), phase := Finishing))
  {
    var s' := DoWriteHead(g, s, v).(adm := A.Erase(s.adm), phase := Finishing);
    CommittingIsClean(g, s);
    A.EraseKeepsInv(s.adm);
    HeadCache(g, s, v, s');
    HeadDisk(g, s.disk, v);
    CurrentSame(g, s, s');
    EraseKeepsDurable(g, s, s'.disk);
  }

  lemma CommitDoneRefines(g: Geometry, s: State)
    requires Inv(g, s) && s.phase.Finishing?
    ensures Refines(g, s, Silent, s.(adm := A.Finish(s.adm), phase := Running))
  {
    var s' := s.(adm := A.Finish(s.adm), phase := Running);
    CommittingIsClean(g, s);
    A.FinishKeepsInv(s.adm);
    AdmissionStep(g, s, s');
    CurrentSame(g, s, s');
  }

  // ---------- crash and recovery

  lemma CrashRefines(g: Geometry, s: State)
    requires Inv(g, s)
    ensures Refines(g, s, Lost, Crashed(s))
  {
    var s' := Crashed(s);
    assert Abs(g, s').current == Abs(g, s).durable;
  }

  /** Before the system is up, readers are promised what recovery will leave. */
  lemma DownCurrent(g: Geometry, s: State)
    requires DiskOk(g, s.disk) && !Up(s)
    ensures Abs(g, s).current == Durable(g, s.disk)
  {
  }

  lemma ReadHeadRefines(g: Geometry, s: State)
    requires Inv(g, s) && s.phase.Booting?
    ensures Refines(g, s, Silent, DoReadHead(g, s))
  {
    var s' := DoReadHead(g, s);
    forall c | c in s'.cache
      ensures c in s'.disk && BufOk(g, s', c)
    {
      assert c in s.cache ==> BufOk(g, s, c);
    }
    DownCurrent(g, s);
    DownCurrent(g, s');
  }

  lemma ReplayCache(g: Geometry, s: State)
    requires Ready(g, s) && CacheOk(g, s) && s.dirty == {} && s.phase.Replaying? && Tail(s, s.phase.tail)
    ensures var s' := DoInstall(g, s, s.phase.tail, 0).(phase := Replaying(s.phase.tail + 1));
      CacheOk(g, s') && HeadCoherent(g, s')
  {
    var s' := DoInstall(g, s, s.phase.tail, 0).(phase := Replaying(s.phase.tail + 1));
    assert Home(g, s.adm.lh[s.phase.tail]);
    forall c | c in s'.cache
      ensures c in s'.disk && BufOk(g, s', c)
    {
      assert c in s.cache ==> BufOk(g, s, c);
    }
  }

  lemma ReplayBlockRefines(g: Geometry, s: State)
    requires Inv(g, s) && s.phase.Replaying? && Tail(s, s.phase.tail)
    ensures Refines(g, s, Silent, DoInstall(g, s, s.phase.tail, 0).(phase := Replaying(s.phase.tail + 1)))
  {
    hide CacheOk, Pinned;
    var s' := DoInstall(g, s, s.phase.tail, 0).(phase := Replaying(s.phase.tail + 1));
    assert s.dirty == {};
    ReplayCache(g, s);
    SlotIsClean(g, s, s.phase.tail);
    HomeWrite(g, s.disk, s.phase.tail);
    DownCurrent(g, s);
    DownCurrent(g, s');
    assert HomeHolds(g, s', s'.phase.tail);
  }

  /** With an empty header, what readers see of an all-clean cache is what recovery would find. */
  lemma RecoveredCurrent(g: Geometry, s: State)
    requires Ready(g, s) && CacheOk(g, s) && Up(s) && s.dirty == {} && s.adm.lh == [] && Head(g, s.disk) == []
    ensures Abs(g, s).current == Durable(g, s.disk)
  {
    forall b | Home(g, b)
      ensures Fetch(s, b) == DurableAt(g, s.disk, b)
    {
      assert b in s.cache ==> BufOk(g, s, b);
    }
  }

  lemma ReplayEraseRefines(g: Geometry, s: State, v: Block)
    requires Inv(g, s) && s.phase.Replaying? && s.phase.tail == |s.adm.lh|
    requires ValidHeader(v) && HeaderOf(v) == []
    ensures Refines(g, s, Silent, DoWriteHead(g, s, v).(adm := A.Erase(s.adm), phase := Running))
  {
    var s' := DoWriteHead(g, s, v).(adm := A.Erase(s.adm), phase := Running);
    assert s.dirty == {};
    HeadCache(g, s, v, s');
    HeadDisk(g, s.disk, v);
    A.InitInv(|s.adm.ops|);
    DownCurrent(g, s);
    RecoveredCurrent(g, s');
    EraseKeepsDurable(g, s, s'.disk);
  }
}
