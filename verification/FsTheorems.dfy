/**
  What the operations of module Fs add up to: exact ownership of blocks, and a file system image that
  survives crashes at any block write through the log.
 */
module FsTheorems {
  import opened Layout
  import opened FsLayout
  import opened FsState
  import opened FsContents
  import opened FsTrunc
  import opened Fs
  import Finite
  import L = LogSystem
  import LR = LogRefinement
  import LT = LogTheorems

  /** Inode and slot x refer to block b: a direct address, the indirect pointer, or an indirect entry. */
  ghost predicate Refers(sb: Superblock, s: State, x: Role, b: nat) {
    match x
    case Slot(i, k) => i < sb.ninodes && k <= NDIRECT && Eff(sb, s, i).addrs[k] == b != 0
    case Entry(i, k) => i < sb.ninodes && k < NINDIRECT && EntryWord(s.blocks, Eff(sb, s, i).addrs[NDIRECT], k) == b != 0
    case _ => false
  }

  /** A reference decides the role of the block. */
  lemma RefersRole(sb: Superblock, s: State, x: Role, b: nat)
    requires Inv(sb, s) && Refers(sb, s, x, b)
    ensures b in s.owner && s.owner[b] == x
  {
    hide DataBlock, WordAt, DiskInode;
    var i := x.inum;
    assert InodeOk(s.blocks, s.owner, i, Eff(sb, s, i));
    if x.Slot? {
      assert SlotOk(s.owner, i, Eff(sb, s, i).addrs[x.k], x.k);
    } else {
      assert EntryOk(s.blocks, s.owner, i, Eff(sb, s, i).addrs[NDIRECT], x.k);
    }
  }

  /** Between operations a bit is set exactly if the block is metadata or is referred to, and then by one reference only. */
  lemma OwnershipExact(sb: Superblock, s: State, b: nat)
    requires Inv(sb, s) && NoLoose(s.owner) && b < sb.size
    ensures Bit(sb, s.blocks, b) <==> b < FirstData(sb) || exists x :: Refers(sb, s, x, b)
    ensures forall x, y :: Refers(sb, s, x, b) && Refers(sb, s, y, b) ==> x == y && b >= FirstData(sb)
  {
    hide Bit, DataBlock, WordAt, DiskInode;
    assert BitOk(sb, s.blocks, s.owner, b) && BackOk(sb, s, b, s.owner[b]);
    if s.owner[b].Slot? || s.owner[b].Entry? {
      assert Refers(sb, s, s.owner[b], b);
    }
    forall x | Refers(sb, s, x, b)
      ensures s.owner[b] == x
    {
      RefersRole(sb, s, x, b);
    }
  }

  /** What readi promises of n bytes from off on. */
  ghost predicate ReadDone(sb: Superblock, s: State, i: nat, off: nat, n: nat, data: seq<Byte>) {
    && i in s.live && |data| <= n && Reads(sb, s, i, off, data)
    && (|data| == n || off + |data| >= s.live[i].size)
  }

  /** A read where a write went, of at least as many bytes, begins with the bytes written. */
  lemma WriteThenRead(sb: Superblock, s: State, s': State, i: nat, off: nat, src: seq<Byte>, n: nat, data: seq<Byte>)
    requires WriteDone(sb, s, s', i, off, src) && ReadDone(sb, s', i, off, n, data) && |src| <= n
    ensures src <= data
  {
    ReadyBounds(sb, s', i);
    hide Ready, Persisted, ByteAt, Eff;
    assert |src| <= |data|;
    forall t | 0 <= t < |src|
      ensures data[t] == src[t]
    {
      assert ByteAt(sb, s', i, off + t) == Some(data[t]);
      assert WrittenAt(sb, s, s', i, off, src, i, off + t);
    }
  }

  /** A read elsewhere in the file, or of another file, still sees what it saw. */
  lemma WriteElsewhere(sb: Superblock, s: State, s': State, i: nat, off: nat, src: seq<Byte>, j: nat, at: nat, data: seq<Byte>)
    requires WriteDone(sb, s, s', i, off, src) && Reads(sb, s, j, at, data) && j < sb.ninodes
    requires j != i || at + |data| <= off || at >= off + |src|
    ensures Reads(sb, s', j, at, data)
  {
    hide Ready, Persisted, ByteAt, Eff;
    forall t | 0 <= t < |data|
      ensures ByteAt(sb, s', j, at + t) == Some(data[t])
    {
      assert ByteAt(sb, s, j, at + t) == Some(data[t]);
      assert WrittenAt(sb, s, s', i, off, src, j, at + t);
    }
  }

  /** A consistent file system on disk: some assignment of roles meets the invariant with no inode in memory. */
  ghost predicate Image(sb: Superblock, blocks: map<nat, Block>) {
    exists owner :: NoLoose(owner) && Inv(sb, State(blocks, map[], owner))
  }

  /** When every cached inode has been stored, the blocks alone are a consistent file system. */
  lemma SyncedImage(sb: Superblock, s: State)
    requires Inv(sb, s) && NoLoose(s.owner) && Synced(sb, s)
    ensures Image(sb, s.blocks)
  {
    hide DiskInode, DataBlock, WordAt, BitOk;
    var s' := State(s.blocks, map[], s.owner);
    assert forall j :: Eff(sb, s', j) == Eff(sb, s, j);
    forall b | b in s'.owner
      ensures BackOk(sb, s', b, s'.owner[b])
    {
      assert BackOk(sb, s, b, s.owner[b]);
    }
  }

  /** What holds between operations. */
  ghost predicate Consistent(sb: Superblock, s: State) {
    Inv(sb, s) && NoLoose(s.owner) && Synced(sb, s)
  }

  /** writei goes from one consistent state to another. */
  lemma WriteConsistent(sb: Superblock, s: State, s': State, i: nat, off: nat, src: seq<Byte>)
    requires Consistent(sb, s) && WriteDone(sb, s, s', i, off, src)
    ensures Consistent(sb, s')
  {
    hide Inv, Persisted, Written;
    PersistedSynced(sb, s, s', i);
  }

  /** So does itrunc. */
  lemma TruncConsistent(sb: Superblock, s: State, s': State, i: nat)
    requires Consistent(sb, s) && TruncDone(sb, s, s', i)
    ensures Consistent(sb, s')
  {
    hide OthersSame, DiskInode, DataBlock;
    PersistedSynced(sb, s, s', i);
    forall b | b in s'.owner
      ensures !s'.owner[b].Loose?
    {
      assert b in s.owner;
    }
  }

  /** So does the iput that frees an inode. */
  lemma PutConsistent(sb: Superblock, s: State, s': State, i: nat)
    requires Consistent(sb, s) && PutDone(sb, s, s', i)
    ensures Consistent(sb, s')
  {
    hide OthersSame, DiskInode, DataBlock;
    forall b | b in s'.owner
      ensures !s'.owner[b].Loose?
    {
      assert b in s.owner;
    }
  }

  /** So does ilock, which reads an inode into memory. */
  lemma LoadConsistent(sb: Superblock, s: State, i: nat)
    requires Consistent(sb, s) && i < sb.ninodes && i !in s.live
    ensures Consistent(sb, SetInode(s, i, DiskInode(sb, s.blocks, i)))
  {
    hide Inv, DiskInode;
    LoadKeeps(sb, s, i);
  }

  /** A disk on which every inode is free and empty and the bitmap marks just the metadata is consistent. */
  lemma EmptyImage(sb: Superblock, blocks: map<nat, Block>)
    requires WellSb(sb) && Present(sb, blocks)
    requires forall i :: 0 <= i < sb.ninodes ==> Empty(DiskInode(sb, blocks, i))
    requires forall b :: 0 <= b < sb.size ==> (Bit(sb, blocks, b) <==> b < FirstData(sb))
    ensures Image(sb, blocks)
  {
    hide Bit, DiskInode, WordAt;
    var owner := map b | b in Finite.Below(sb.size) :: if b < FirstData(sb) then Meta else Free;
    var s := State(blocks, map[], owner);
    forall i | 0 <= i < sb.ninodes
      ensures InodeOk(s.blocks, s.owner, i, Eff(sb, s, i))
    {
      assert Empty(DiskInode(sb, blocks, i));
    }
    forall b | 0 <= b < sb.size
      ensures BitOk(sb, blocks, owner, b)
    {
      assert b in owner;
    }
    assert NoLoose(owner) && Inv(sb, s);
  }

  // ---------- file system calls over the log

  /** What the kernel knows of the file system between calls: the blocks and the cached inodes. */
  datatype Core = Core(blocks: map<nat, Block>, live: map<nat, Inode>)

  ghost function StateOf(c: Core, owner: map<nat, Role>): State {
    State(c.blocks, c.live, owner)
  }

  ghost predicate Sound(sb: Superblock, c: Core) {
    exists owner :: Consistent(sb, StateOf(c, owner))
  }

  /** What one of the calls promises: a completed writei, an itrunc, an iput that frees, an ilock, or nothing done. */
  ghost predicate Promised(sb: Superblock, s: State, s': State) {
    || s' == s
    || (exists i: nat, off: nat, src: seq<Byte> :: WriteDone(sb, s, s', i, off, src))
    || (exists i: nat :: TruncDone(sb, s, s', i))
    || (exists i: nat :: PutDone(sb, s, s', i))
    || (exists i: nat :: i < sb.ninodes && i !in s.live && s' == SetInode(s, i, DiskInode(sb, s.blocks, i)))
  }

  /** A call may take c to c': whatever the roles of the blocks, if they fit c the promise is kept. */
  ghost predicate Call(sb: Superblock, c: Core, c': Core) {
    forall owner :: Consistent(sb, StateOf(c, owner)) ==> exists owner' :: Promised(sb, StateOf(c, owner), StateOf(c', owner'))
  }

  /** A transaction makes any number of calls. */
  ghost predicate Transaction(sb: Superblock, c: Core, path: seq<Core>, c': Core) {
    && path != [] && path[0] == c && path[|path| - 1] == c'
    && forall i :: 0 <= i < |path| - 1 ==> Call(sb, path[i], path[i + 1])
  }

  lemma PromisedConsistent(sb: Superblock, s: State, s': State)
    requires Consistent(sb, s) && Promised(sb, s, s')
    ensures Consistent(sb, s')
  {
    hide Consistent, WriteDone, TruncDone, PutDone, DiskInode;
    if exists i: nat, off: nat, src: seq<Byte> :: WriteDone(sb, s, s', i, off, src) {
      var i: nat, off: nat, src: seq<Byte> :| WriteDone(sb, s, s', i, off, src);
      WriteConsistent(sb, s, s', i, off, src);
    } else if exists i: nat :: TruncDone(sb, s, s', i) {
      var i: nat :| TruncDone(sb, s, s', i);
      TruncConsistent(sb, s, s', i);
    } else if exists i: nat :: PutDone(sb, s, s', i) {
      var i: nat :| PutDone(sb, s, s', i);
      PutConsistent(sb, s, s', i);
    } else if s' != s {
      var i: nat :| i < sb.ninodes && i !in s.live && s' == SetInode(s, i, DiskInode(sb, s.blocks, i));
      LoadConsistent(sb, s, i);
    }
  }

  lemma CallSound(sb: Superblock, c: Core, c': Core)
    requires Sound(sb, c) && Call(sb, c, c')
    ensures Sound(sb, c')
  {
    hide Consistent, Promised;
    var owner :| Consistent(sb, StateOf(c, owner));
    var owner' :| Promised(sb, StateOf(c, owner), StateOf(c', owner'));
    PromisedConsistent(sb, StateOf(c, owner), StateOf(c', owner'));
  }

  lemma {:induction false} TransactionSound(sb: Superblock, c: Core, path: seq<Core>, c': Core)
    requires Transaction(sb, c, path, c') && Sound(sb, c)
    ensures Sound(sb, c')
    decreases |path|
  {
    hide Sound, Call;
    var n := |path| - 1;
    if n > 0 {
      TransactionSound(sb, c, path[..n], path[n - 1]);
      assert Call(sb, path[n - 1], path[n]);
      CallSound(sb, path[n - 1], path[n]);
    }
  }

  /** The file system between transactions, or inside one that began at start. */
  datatype Kernel = Idle(core: Core) | Busy(start: Core)

  /**
    The file system side of one effect on the block store, after which readers see `current`: one
    transaction at a time, whose writes add up to its calls; a crash loses the cached inodes.
   */
  ghost predicate KernelStep(sb: Superblock, k: Kernel, e: LR.Effect, current: map<nat, Block>, k': Kernel) {
    match e
    case Opened => k.Idle? && k' == Busy(k.core)
    case Wrote(_, _) => k.Busy? && k' == k
    case Closed => k.Busy? && k'.Idle? && k'.core.blocks == current &&
      exists path :: Transaction(sb, k.start, path, k'.core)
    case Lost => k' == Idle(Core(current, map[]))
    case _ => k' == k
  }

  /** Runs of the log whose operations are file system transactions that do not overlap. */
  ghost predicate Drives(g: L.Geometry, sb: Superblock, s: L.State, acts: seq<L.Action>, k0: Kernel, k: Kernel)
    requires LT.Run(g, s, acts).Reached?
    decreases |acts|
  {
    if acts == [] then k == k0
    else
      var n := |acts| - 1;
      var before, after := LT.Run(g, s, acts[..n]).state, LT.Run(g, s, acts).state;
      L.DiskOk(g, after.disk) && exists k1 ::
        && Drives(g, sb, s, acts[..n], k0, k1)
        && KernelStep(sb, k1, LR.EffectOf(before, acts[n]), LR.Abs(g, after).current, k)
  }

  /** What holds of the block store and the file system together. */
  ghost predicate Held(sb: Superblock, x: LR.Store, k: Kernel) {
    && Image(sb, x.durable)
    && match k
       case Idle(c) => x.open == 0 && c.blocks == x.current && Sound(sb, c)
       case Busy(c) => x.open == 1 && Sound(sb, c)
  }

  lemma SoundImage(sb: Superblock, c: Core)
    requires Sound(sb, c)
    ensures Image(sb, c.blocks)
  {
    var owner :| Consistent(sb, StateOf(c, owner));
    SyncedImage(sb, StateOf(c, owner));
  }

  lemma ImageSound(sb: Superblock, blocks: map<nat, Block>)
    requires Image(sb, blocks)
    ensures Sound(sb, Core(blocks, map[]))
  {
    hide Inv;
    var owner :| NoLoose(owner) && Inv(sb, State(blocks, map[], owner));
    assert Consistent(sb, StateOf(Core(blocks, map[]), owner));
  }

  /** One effect. */
  lemma KernelKeeps(sb: Superblock, x: LR.Store, k: Kernel, e: LR.Effect, y: LR.Store, k': Kernel)
    requires Held(sb, x, k) && LR.StoreStep(x, e, y) && KernelStep(sb, k, e, y.current, k')
    ensures Held(sb, y, k')
  {
    hide Image, Sound, Transaction;
    match e
    case Closed =>
      var path :| Transaction(sb, k.start, path, k'.core);
      TransactionSound(sb, k.start, path, k'.core);
    case Committed =>
      SoundImage(sb, k.core);
    case Lost =>
      ImageSound(sb, y.current);
    case _ =>
  }

  /** Every run keeps it. */
  lemma {:induction false} DrivenRunHolds(g: L.Geometry, sb: Superblock, s: L.State, acts: seq<L.Action>, k0: Kernel, k: Kernel)
    requires LR.Inv(g, s) && LT.Run(g, s, acts).Reached? && Drives(g, sb, s, acts, k0, k) && Held(sb, LR.Abs(g, s), k0)
    ensures LR.Inv(g, LT.Run(g, s, acts).state) && Held(sb, LR.Abs(g, LT.Run(g, s, acts).state), k)
    decreases |acts|
  {
    hide LR.Inv, LR.Abs, LR.StoreStep, Held, KernelStep, L.Apply, L.Enabled, L.Ready, L.DiskOk;
    LT.RunKeepsInv(g, s, acts);
    if acts != [] {
      var n := |acts| - 1;
      var before, after := LT.Run(g, s, acts[..n]).state, LT.Run(g, s, acts).state;
      var e := LR.EffectOf(before, acts[n]);
      var k1 :| Drives(g, sb, s, acts[..n], k0, k1) && KernelStep(sb, k1, e, LR.Abs(g, after).current, k);
      DrivenRunHolds(g, sb, s, acts[..n], k0, k1);
      LT.DiskIsOk(g, before);
      LT.StepRefines(g, before, acts[n]);
      KernelKeeps(sb, LR.Abs(g, before), k1, e, LR.Abs(g, after), k);
    }
  }

  /**
    A machine started on a disk that recovers to a consistent file system, and driven by file system
    transactions one after the other, is at every moment one crash away from a consistent file system:
    whatever crashes have happened, the disk recovers to one.
   */
  lemma ImageSurvivesCrashes(g: L.Geometry, sb: Superblock, disk: L.Disk, nproc: nat, acts: seq<L.Action>, r: L.State, k: Kernel)
    requires L.DiskOk(g, disk) && Image(sb, LR.Durable(g, disk))
    requires LT.Run(g, LT.PowerOn(disk, nproc), acts) == LT.Reached(r)
    requires Drives(g, sb, LT.PowerOn(disk, nproc), acts, Idle(Core(LR.Durable(g, disk), map[])), k)
    ensures LR.Inv(g, r) && Image(sb, LR.Durable(g, r.disk))
    ensures k.Idle? ==> k.core.blocks == LR.Abs(g, r).current && Sound(sb, k.core)
  {
    hide LT.Run, Drives, Image, Sound;
    var s := LT.PowerOn(disk, nproc);
    LT.PowerOnInv(g, disk, nproc);
    LR.DownCurrent(g, s);
    ImageSound(sb, LR.Durable(g, disk));
    DrivenRunHolds(g, sb, s, acts, Idle(Core(LR.Durable(g, disk), map[])), k);
  }
}
