/**
  Blocks, inodes and who refers to each block (kernel/fs.c).  The blocks are those a bread returns; an
  inode cached in memory takes the place of its copy on disk.
 */
module FsState {
  import opened Layout
  import opened FsLayout

  datatype Superblock = Superblock(size: nat, nblocks: nat, ninodes: nat, inodestart: nat, bmapstart: nat)

  /** What a block is used for; a Loose block has been allocated and is not yet referenced. */
  datatype Role = Meta | Free | Loose | Slot(inum: nat, k: nat) | Entry(inum: nat, k: nat)

  datatype State = State(blocks: map<nat, Block>, live: map<nat, Inode>, owner: map<nat, Role>)

  // ---------- layout of the disk

  /** The data area is the last nblocks blocks. */
  function FirstData(sb: Superblock): nat {
    if sb.nblocks <= sb.size then sb.size - sb.nblocks else 0
  }

  ghost predicate WellSb(sb: Superblock) {
    && 0 < sb.size < UINT_LIMIT && 0 < sb.inodestart
    && sb.inodestart + (sb.ninodes + IPB - 1) / IPB <= sb.bmapstart
    && sb.bmapstart + (sb.size - 1) / BPB + 1 <= FirstData(sb)
  }

  function InodeBlock(sb: Superblock, i: nat): nat { i / IPB + sb.inodestart }
  function BitBlock(sb: Superblock, b: nat): nat { b / BPB + sb.bmapstart }

  lemma Regions(sb: Superblock, i: nat, b: nat)
    requires WellSb(sb)
    ensures i < sb.ninodes ==> sb.inodestart <= InodeBlock(sb, i) < sb.bmapstart
    ensures b < sb.size ==> sb.bmapstart <= BitBlock(sb, b) < FirstData(sb)
  {
    if b < sb.size {
      assert b / BPB <= (sb.size - 1) / BPB;
    }
  }

  function At(blocks: map<nat, Block>, b: nat): Block {
    if b in blocks then blocks[b] else ZeroBlock()
  }

  predicate Bit(sb: Superblock, blocks: map<nat, Block>, b: nat) {
    BitAt(At(blocks, BitBlock(sb, b)), b % BPB)
  }

  function DiskInode(sb: Superblock, blocks: map<nat, Block>, i: nat): Inode {
    ReadInode(At(blocks, InodeBlock(sb, i)), i % IPB)
  }

  /** Inode i as the kernel sees it. */
  function Eff(sb: Superblock, s: State, i: nat): Inode {
    if i in s.live then s.live[i] else DiskInode(sb, s.blocks, i)
  }

  /** Entry k of the indirect block, or 0. */
  function EntryWord(blocks: map<nat, Block>, ind: Uint, k: nat): Uint
    requires k < NINDIRECT
  {
    if ind == 0 then 0 else WordAt(At(blocks, ind), k)
  }

  /** The block that holds block bn of the file, or 0. */
  function DataBlock(blocks: map<nat, Block>, ino: Inode, bn: nat): Uint {
    if bn < NDIRECT then ino.addrs[bn]
    else if bn < MAXFILE then EntryWord(blocks, ino.addrs[NDIRECT], bn - NDIRECT)
    else 0
  }

  /** The role of the block that holds block bn of file i. */
  function DataRole(i: nat, bn: nat): Role {
    if bn < NDIRECT then Slot(i, bn) else Entry(i, bn - NDIRECT)
  }

  // ---------- invariant

  ghost predicate MapOk(sb: Superblock, blocks: map<nat, Block>, owner: map<nat, Role>) {
    forall b :: 0 <= b < sb.size ==> BitOk(sb, blocks, owner, b)
  }

  /** Bit b of the bitmap is set exactly if block b is in use. */
  ghost predicate BitOk(sb: Superblock, blocks: map<nat, Block>, owner: map<nat, Role>, b: nat) {
    && b in owner && (Bit(sb, blocks, b) <==> !owner[b].Free?)
    && (owner[b].Meta? <==> WellSb(sb) && b < FirstData(sb))
  }

  ghost predicate SlotOk(owner: map<nat, Role>, i: nat, a: Uint, k: nat) {
    a != 0 ==> a in owner && owner[a] == Slot(i, k)
  }

  ghost predicate EntryOk(blocks: map<nat, Block>, owner: map<nat, Role>, i: nat, ind: Uint, k: nat)
    requires k < NINDIRECT
  {
    var w := EntryWord(blocks, ind, k);
    w != 0 ==> w in owner && owner[w] == Entry(i, k)
  }

  /** Every block below the size of a file is there. */
  ghost predicate SizeOk(blocks: map<nat, Block>, ino: Inode) {
    && ino.size <= MAXFILE * BSIZE
    && forall bn :: 0 <= bn < BlocksOf(ino.size) ==> DataBlock(blocks, ino, bn) != 0
  }

  ghost predicate Empty(ino: Inode) {
    ino.size == 0 && forall k :: 0 <= k <= NDIRECT ==> ino.addrs[k] == 0
  }

  ghost predicate InodeOk(blocks: map<nat, Block>, owner: map<nat, Role>, i: nat, ino: Inode) {
    && (forall k :: 0 <= k <= NDIRECT ==> SlotOk(owner, i, ino.addrs[k], k))
    && (forall k :: 0 <= k < NINDIRECT ==> EntryOk(blocks, owner, i, ino.addrs[NDIRECT], k))
    && SizeOk(blocks, ino)
    && (ino.kind == 0 ==> Empty(ino))
  }

  /** A block in use by an inode is referred to where its role says. */
  ghost predicate BackOk(sb: Superblock, s: State, b: nat, x: Role) {
    match x
    case Slot(i, k) => i < sb.ninodes && k <= NDIRECT && Eff(sb, s, i).addrs[k] == b != 0
    case Entry(i, k) => i < sb.ninodes && k < NINDIRECT && EntryWord(s.blocks, Eff(sb, s, i).addrs[NDIRECT], k) == b != 0
    case _ => true
  }

  /** The blocks behind the log area, which are all the file system uses. */
  ghost predicate Present(sb: Superblock, blocks: map<nat, Block>) {
    forall b :: sb.inodestart <= b < sb.size ==> b in blocks
  }

  ghost predicate Domain(sb: Superblock, s: State) {
    && WellSb(sb)
    && (forall b :: b in s.owner <==> 0 <= b < sb.size)
    && Present(sb, s.blocks)
    && (forall i :: i in s.live ==> 0 <= i < sb.ninodes)
  }

  ghost predicate Inv(sb: Superblock, s: State) {
    && Domain(sb, s) && MapOk(sb, s.blocks, s.owner)
    && (forall i :: 0 <= i < sb.ninodes ==> InodeOk(s.blocks, s.owner, i, Eff(sb, s, i)))
    && (forall b :: b in s.owner ==> BackOk(sb, s, b, s.owner[b]))
  }

  // ---------- consequences

  lemma DataRoleOf(sb: Superblock, s: State, i: nat, bn: nat)
    requires Inv(sb, s) && i < sb.ninodes && DataBlock(s.blocks, Eff(sb, s, i), bn) != 0
    ensures bn < MAXFILE
    ensures var c := DataBlock(s.blocks, Eff(sb, s, i), bn); c in s.owner && s.owner[c] == DataRole(i, bn)
  {
    var ino := Eff(sb, s, i);
    assert InodeOk(s.blocks, s.owner, i, ino);
    if bn < NDIRECT {
      assert SlotOk(s.owner, i, ino.addrs[bn], bn);
    } else {
      assert EntryOk(s.blocks, s.owner, i, ino.addrs[NDIRECT], bn - NDIRECT);
    }
  }

  /** No block belongs to two places, in one file or in two. */
  lemma DataUnshared(sb: Superblock, s: State, i: nat, bn: nat, j: nat, bm: nat)
    requires Inv(sb, s) && i < sb.ninodes && j < sb.ninodes
    requires DataBlock(s.blocks, Eff(sb, s, i), bn) == DataBlock(s.blocks, Eff(sb, s, j), bm) != 0
    ensures i == j && bn == bm
  {
    DataRoleOf(sb, s, i, bn);
    DataRoleOf(sb, s, j, bm);
  }

  /** A block in use by an inode lies in the data area. */
  lemma InDataArea(sb: Superblock, s: State, b: nat)
    requires Inv(sb, s) && b in s.owner && !s.owner[b].Meta?
    ensures FirstData(sb) <= b < sb.size
  {
    assert BitOk(sb, s.blocks, s.owner, b);
  }
}
