/**
  The write-ahead log over the buffer cache and the disk (kernel/log.c, kernel/bio.c) as a
  transition system.  One step is one atomic section or one block write; any process may take
  the next step, a buffer may be recycled whenever nobody counts on it, and the machine may
  crash between any two steps, also while it recovers.
 */
module LogSystem {
  import opened Layout
  import opened LogHeader
  import Finite
  import A = LogAdmission

  /** Where the log lies: the header block `start`, then size - 1 slots. */
  datatype Geometry = Geometry(start: nat, size: nat, nblocks: nat)

  ghost predicate ValidGeometry(g: Geometry) {
    1 <= g.size && g.start + g.size <= g.nblocks < UINT_LIMIT
  }

  /** A block outside the log region. */
  predicate Home(g: Geometry, b: nat) {
    b < g.nblocks && !(g.start <= b < g.start + g.size)
  }

  function Slot(g: Geometry, k: nat): nat {
    g.start + 1 + k
  }

  type Disk = map<nat, Block>

  datatype Holder = Nobody | Held(pid: nat)

  /** A cache entry.  `users` are the processes counted in refcnt that have not released it. */
  datatype Buf = Buf(valid: bool, data: Block, refcnt: int, users: set<nat>, holder: Holder)

  datatype Phase =
    | Running                   // no commit in progress
    | WritingLog(tail: nat)     // commit: write_log
    | Installing(tail: nat)     // commit: install_trans(0)
    | Finishing                 // commit: header erased
    | Booting                   // memory lost, recovery not started
    | Replaying(tail: nat)      // recover_from_log: install_trans(1)

  /** `dirty` are the blocks whose buffer was edited but not yet passed to log_write. */
  datatype State = State(disk: Disk, cache: map<nat, Buf>, adm: A.Admission, dirty: set<nat>, phase: Phase)

  predicate Up(s: State) {
    !s.phase.Booting? && !s.phase.Replaying?
  }

  // ---------- actions

  datatype Action =
    | Get(t: nat, b: nat, stale: Block)   // bget: count a reference, recycling a buffer if needed
    | Lock(t: nat, b: nat)                // the rest of bread: sleep-lock, and read if not valid
    | Edit(t: nat, b: nat, v: Block)      // change the data of a locked buffer
    | LogWrite(t: nat, b: nat)
    | Release(t: nat, b: nat)             // brelse
    | Evict(b: nat)
    | Begin(t: nat)
    | End(t: nat)
    | CommitBlock                         // one iteration of write_log
    | CommitHead                          // write_head: the commit point
    | CommitInstall                       // one iteration of install_trans(0)
    | CommitErase
    | CommitDone
    | Crash
    | ReadHead
    | ReplayBlock                         // one iteration of install_trans(1)
    | ReplayErase

  predicate Cached(s: State, b: nat) {
    b in s.cache && s.cache[b].valid
  }

  /** What bread returns for block b. */
  function Fetch(s: State, b: nat): Block
    requires b in s.disk
  {
    if Cached(s, b) then s.cache[b].data else s.disk[b]
  }

  predicate HeldBy(s: State, b: nat, t: nat) {
    b in s.cache && s.cache[b].holder == Held(t)
  }

  predicate Unlocked(s: State, b: nat) {
    b in s.cache ==> s.cache[b].holder.Nobody?
  }

  /** The buffer of block b now holds v, whether or not it was in the cache before. */
  function Keep(cache: map<nat, Buf>, b: nat, v: Block): map<nat, Buf> {
    if b in cache then cache[b := cache[b].(valid := true, data := v)]
    else cache[b := Buf(true, v, 0, {}, Nobody)]
  }

  predicate Tail(s: State, tail: nat) {
    tail < |s.adm.lh|
  }

  predicate Enabled(g: Geometry, s: State, a: Action) {
    match a
    case Get(t, b, _) => Up(s) && t < |s.adm.ops| && Home(g, b) && (b in s.cache ==> t !in s.cache[b].users)
    case Lock(t, b) => Up(s) && b in s.cache && t in s.cache[b].users && s.cache[b].holder.Nobody? && b in s.disk
    case Edit(t, b, _) => Up(s) && HeldBy(s, b, t) && t < |s.adm.ops| && s.adm.ops[t].Active?
    case LogWrite(t, b) => Up(s) && HeldBy(s, b, t) && A.Enabled(s.adm, A.Write(t, b), g.size)
    case Release(t, b) => Up(s) && HeldBy(s, b, t) && b !in s.dirty
    case Evict(b) => b in s.cache && s.cache[b].refcnt == 0
    case Begin(t) => Up(s) && A.Enabled(s.adm, A.Begin(t), g.size)
    case End(t) => Up(s) && A.Enabled(s.adm, A.End(t), g.size) && forall b :: b in s.dirty ==> !HeldBy(s, b, t)
    case CommitBlock => s.phase.WritingLog? && Tail(s, s.phase.tail) && Unlocked(s, s.adm.lh[s.phase.tail])
    case CommitHead => s.phase.WritingLog? && s.phase.tail == |s.adm.lh|
    case CommitInstall => s.phase.Installing? && Tail(s, s.phase.tail) && Unlocked(s, s.adm.lh[s.phase.tail])
    case CommitErase => s.phase.Installing? && s.phase.tail == |s.adm.lh|
    case CommitDone => s.phase.Finishing?
    case Crash => true
    case ReadHead => s.phase.Booting?
    case ReplayBlock => s.phase.Replaying? && Tail(s, s.phase.tail)
    case ReplayErase => s.phase.Replaying? && s.phase.tail == |s.adm.lh|
  }

  // The effect of each action, one function per section of the source.

  function DoGet(s: State, t: nat, b: nat, stale: Block): State {
    if b in s.cache then
      var u := s.cache[b];
      s.(cache := s.cache[b := u.(refcnt := u.refcnt + 1, users := u.users + {t})])
    else
      s.(cache := s.cache[b := Buf(false, stale, 1, {t}, Nobody)])
  }

  function DoLock(s: State, t: nat, b: nat): State
    requires b in s.cache && b in s.disk
  {
    s.(cache := s.cache[b := s.cache[b].(valid := true, data := Fetch(s, b), holder := Held(t))])
  }

  function DoEdit(s: State, b: nat, v: Block): State
    requires b in s.cache
  {
    s.(cache := s.cache[b := s.cache[b].(data := v)], dirty := s.dirty + {b})
  }

  /** log_write pins the buffer when the block is new to the log. */
  function DoLogWrite(s: State, t: nat, b: nat): State
    requires b in s.cache && t < |s.adm.ops| && s.adm.ops[t].Active?
  {
    var u := s.cache[b];
    s.(cache := if b in s.adm.lh then s.cache else s.cache[b := u.(refcnt := u.refcnt + 1)],
       adm := A.LogWrite(s.adm, t, b),
       dirty := s.dirty - {b})
  }

  function DoRelease(s: State, t: nat, b: nat): State
    requires b in s.cache
  {
    var u := s.cache[b];
    s.(cache := s.cache[b := u.(refcnt := u.refcnt - 1, users := u.users - {t}, holder := Nobody)])
  }

  function DoEvict(s: State, b: nat): State {
    s.(cache := s.cache - {b})
  }

  function DoBegin(s: State, t: nat): State
    requires t < |s.adm.ops|
  {
    s.(adm := A.BeginOp(s.adm, t))
  }

  function DoEnd(s: State, t: nat): State
    requires t < |s.adm.ops|
  {
    var adm := A.EndOp(s.adm, t);
    s.(adm := adm,
       phase := if !adm.committing then s.phase else if adm.lh == [] then Finishing else WritingLog(0))
  }

  /** bread(slot), bread(home), memmove, bwrite(slot). */
  function DoCommitBlock(g: Geometry, s: State): State
    requires s.phase.WritingLog? && Tail(s, s.phase.tail) && s.adm.lh[s.phase.tail] in s.disk
  {
    var b, slot := s.adm.lh[s.phase.tail], Slot(g, s.phase.tail);
    var v := Fetch(s, b);
    s.(disk := s.disk[slot := v], cache := Keep(Keep(s.cache, b, v), slot, v), phase := WritingLog(s.phase.tail + 1))
  }

  /** bwrite of the header buffer with contents v. */
  function DoWriteHead(g: Geometry, s: State, v: Block): State {
    s.(disk := s.disk[g.start := v], cache := Keep(s.cache, g.start, v))
  }

  /** bread(slot), bread(home), memmove, bwrite(home), and bunpin(home) unless recovering. */
  function DoInstall(g: Geometry, s: State, tail: nat, pins: int): State
    requires Tail(s, tail) && Slot(g, tail) in s.disk
  {
    var b, slot := s.adm.lh[tail], Slot(g, tail);
    var v := Fetch(s, slot);
    var cache := Keep(Keep(s.cache, slot, v), b, v);
    s.(disk := s.disk[b := v], cache := cache[b := cache[b].(refcnt := cache[b].refcnt - pins)])
  }

  function Crashed(s: State): State {
    State(s.disk, map[], A.Init(|s.adm.ops|), {}, Booting)
  }

  function DoReadHead(g: Geometry, s: State): State
    requires g.start in s.disk && ValidHeader(Fetch(s, g.start))
  {
    s.(cache := Keep(s.cache, g.start, Fetch(s, g.start)),
       adm := s.adm.(lh := HeaderOf(Fetch(s, g.start))),
       phase := Replaying(0))
  }

  /** A list of block numbers that fits the log: distinct home blocks, one slot each. */
  ghost predicate ListOk(g: Geometry, lh: seq<nat>) {
    && Encodable(lh)
    && |lh| < g.size
    && Finite.NoRepeats(lh)
    && (forall k :: 0 <= k < |lh| ==> Home(g, lh[k]))
  }

  function Head(g: Geometry, disk: Disk): seq<nat>
    requires g.start in disk && ValidHeader(disk[g.start])
  {
    HeaderOf(disk[g.start])
  }

  ghost predicate DiskOk(g: Geometry, disk: Disk) {
    && ValidGeometry(g)
    && (forall b :: b in disk <==> b < g.nblocks)
    && ValidHeader(disk[g.start])
    && ListOk(g, Head(g, disk))
  }

  ghost predicate HeadCoherent(g: Geometry, s: State)
    requires g.start in s.disk
  {
    Fetch(s, g.start) == s.disk[g.start]
  }

  /** What the state must look like for every step to be defined; part of the invariant. */
  ghost predicate Ready(g: Geometry, s: State) {
    DiskOk(g, s.disk) && ListOk(g, s.adm.lh) && HeadCoherent(g, s)
  }

  ghost function Apply(g: Geometry, s: State, a: Action): State
    requires Ready(g, s) && Enabled(g, s, a)
  {
    match a
    case Get(t, b, stale) => DoGet(s, t, b, stale)
    case Lock(t, b) => DoLock(s, t, b)
    case Edit(t, b, v) => DoEdit(s, b, v)
    case LogWrite(t, b) => DoLogWrite(s, t, b)
    case Release(t, b) => DoRelease(s, t, b)
    case Evict(b) => DoEvict(s, b)
    case Begin(t) => DoBegin(s, t)
    case End(t) => DoEnd(s, t)
    case CommitBlock => DoCommitBlock(g, s)
    case CommitHead => DoWriteHead(g, s, PutHeader(Fetch(s, g.start), s.adm.lh)).(phase := Installing(0))
    case CommitInstall => DoInstall(g, s, s.phase.tail, 1).(phase := Installing(s.phase.tail + 1))
    case CommitErase => DoWriteHead(g, s, PutHeader(Fetch(s, g.start), [])).(adm := A.Erase(s.adm), phase := Finishing)
    case CommitDone => s.(adm := A.Finish(s.adm), phase := Running)
    case Crash => Crashed(s)
    case ReadHead => DoReadHead(g, s)
    case ReplayBlock => DoInstall(g, s, s.phase.tail, 0).(phase := Replaying(s.phase.tail + 1))
    case ReplayErase => DoWriteHead(g, s, PutHeader(Fetch(s, g.start), [])).(adm := A.Erase(s.adm), phase := Running)
  }
}
