/**
  The bytes of the on-disk structures (struct dinode and the bitmap in kernel/fs.h and kernel/fs.c, struct
  logheader in kernel/log.c), little-endian, with their offsets written out.
 */
module DiskFormat {
  import opened Layout
  import opened LogHeader
  import opened FsLayout
  import opened FsState

  function Half(b: Block, at: nat): int
    requires at + 2 <= 1024
  {
    (b[at] as int) + 256 * (b[at + 1] as int)
  }

  function Full(b: Block, at: nat): int
    requires at + 4 <= 1024
  {
    (b[at] as int) + 256 * (b[at + 1] as int) + 65536 * (b[at + 2] as int) + 16777216 * (b[at + 3] as int)
  }

  lemma WordBytes(b: Block, i: nat)
    requires i < 256
    ensures WordAt(b, i) == Full(b, 4 * i)
  {
  }

  /** The two halves of a word. */
  lemma HalfBytes(b: Block, i: nat)
    requires i < 256
    ensures Low(WordAt(b, i)) == Half(b, 4 * i) && High(WordAt(b, i)) == Half(b, 4 * i + 2)
  {
    var lo, hi := Half(b, 4 * i), Half(b, 4 * i + 2);
    assert WordAt(b, i) == lo + 65536 * hi;
  }

  /** Inode j of a block: type, major, minor, nlink, size and thirteen addresses, 64 bytes in all. */
  lemma InodeBytes(b: Block, j: nat)
    requires j < 16
    ensures var ino, at := ReadInode(b, j), 64 * j;
      && ino.kind == Half(b, at) && ino.major == Half(b, at + 2) && ino.minor == Half(b, at + 4) && ino.nlink == Half(b, at + 6)
      && ino.size == Full(b, at + 8)
      && forall k :: 0 <= k < 13 ==> ino.addrs[k] == Full(b, at + 12 + 4 * k)
  {
    hide Low, High, WordAt;
    HalfBytes(b, 16 * j);
    HalfBytes(b, 16 * j + 1);
    WordBytes(b, 16 * j + 2);
    forall k | 0 <= k < 13
      ensures ReadInode(b, j).addrs[k] == Full(b, 64 * j + 12 + 4 * k)
    {
      WordBytes(b, 16 * j + 3 + k);
    }
  }

  /** The log header: the count, then the block numbers. */
  lemma HeaderBytes(b: Block, k: nat)
    requires ValidHeader(b) && k < |HeaderOf(b)|
    ensures |HeaderOf(b)| == Full(b, 0) <= 30 && HeaderOf(b)[k] == Full(b, 4 + 4 * k)
  {
    hide WordAt;
    WordBytes(b, 0);
    WordBytes(b, 1 + k);
  }

  /** Bit i of a bitmap block. */
  lemma BitBytes(b: Block, i: nat)
    requires i < 8192
    ensures BitAt(b, i) <==> BitIn(b, i)
  {
    Shift(b[i / 8], i % 8);
  }

  lemma Shift(x: nat, k: nat)
    requires k < 8
    ensures BitOf(x, k) <==> x / [1, 2, 4, 8, 16, 32, 64, 128][k] % 2 == 1
  {
    if k > 0 {
      Shift(x / 2, k - 1);
    }
  }

  /** Where inode i is. */
  lemma InodePlace(sb: Superblock, blocks: map<nat, Block>, i: nat)
    ensures DiskInode(sb, blocks, i) == ReadInode(At(blocks, sb.inodestart + i / 16), i % 16)
  {
  }

  predicate BitIn(b: Block, i: nat)
    requires i < 8192
  {
    b[i / 8] / [1, 2, 4, 8, 16, 32, 64, 128][i % 8] % 2 == 1
  }

  /** Where the bit of block b is. */
  lemma BitPlace(sb: Superblock, blocks: map<nat, Block>, b: nat)
    ensures Bit(sb, blocks, b) <==> BitIn(At(blocks, sb.bmapstart + b / 8192), b % 8192)
  {
    BitBytes(At(blocks, sb.bmapstart + b / 8192), b % 8192);
  }

  /** Where block bn of a file is. */
  lemma BlockPlace(blocks: map<nat, Block>, ino: Inode, bn: nat)
    ensures bn < 12 ==> DataBlock(blocks, ino, bn) == ino.addrs[bn]
    ensures 12 <= bn < 12 + 256 ==>
      DataBlock(blocks, ino, bn) == if ino.addrs[12] == 0 then 0 else Full(At(blocks, ino.addrs[12]), 4 * (bn - 12))
    ensures bn >= 12 + 256 ==> DataBlock(blocks, ino, bn) == 0
  {
    hide WordAt;
    if 12 <= bn < 12 + 256 {
      WordBytes(At(blocks, ino.addrs[12]), bn - 12);
    }
  }
}
