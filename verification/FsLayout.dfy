/** On-disk inodes (kernel/fs.h): sixteen 32-bit words each, sixteen inodes to a block. */
module FsLayout {
  import opened Layout

  const NDIRECT: nat := 12
  const NINDIRECT: nat := 256
  const MAXFILE: nat := 268
  const IPB: nat := 16
  const SHORT: nat := 0x1_0000

  type Short = x: int | 0 <= x < SHORT
  type Addrs = a: seq<Uint> | |a| == NDIRECT + 1 witness seq(NDIRECT + 1, i => 0)

  /** struct dinode, and the part of struct inode copied from it. */
  datatype Inode = Inode(kind: Short, major: Short, minor: Short, nlink: Short, size: Uint, addrs: Addrs)

  function Low(w: Uint): Short { w % SHORT }
  function High(w: Uint): Short { w / SHORT }
  function Pair(lo: Short, hi: Short): Uint { lo + hi * SHORT }

  lemma PairParts(lo: Short, hi: Short)
    ensures Low(Pair(lo, hi)) == lo && High(Pair(lo, hi)) == hi
  {
  }

  function Words(ino: Inode): (w: seq<Uint>)
    ensures |w| == 16
  {
    [Pair(ino.kind, ino.major), Pair(ino.minor, ino.nlink), ino.size] + ino.addrs
  }

  function WordsFrom(b: Block, base: nat, n: nat): (w: seq<Uint>)
    requires base + n <= NWORDS
    ensures |w| == n && forall t :: 0 <= t < n ==> w[t] == WordAt(b, base + t)
  {
    if n == 0 then [] else WordsFrom(b, base, n - 1) + [WordAt(b, base + n - 1)]
  }

  function ReadAddrs(b: Block, j: nat): Addrs
    requires j < IPB
  {
    WordsFrom(b, 16 * j + 3, NDIRECT + 1)
  }

  /** Inode j of a block. */
  function ReadInode(b: Block, j: nat): Inode
    requires j < IPB
  {
    var w0, w1 := WordAt(b, 16 * j), WordAt(b, 16 * j + 1);
    Inode(Low(w0), High(w0), Low(w1), High(w1), WordAt(b, 16 * j + 2), ReadAddrs(b, j))
  }

  function PutWords(b: Block, base: nat, w: seq<Uint>): (r: Block)
    requires base + |w| <= NWORDS
    ensures forall k: nat :: k < NWORDS ==> WordAt(r, k) == if base <= k < base + |w| then w[k - base] else WordAt(b, k)
    decreases |w|
  {
    if w == [] then b else PutWord(PutWords(b, base, w[..|w| - 1]), base + |w| - 1, w[|w| - 1])
  }

  /** Stores inode j. */
  function PutInode(b: Block, j: nat, ino: Inode): Block
    requires j < IPB
  {
    PutWords(b, 16 * j, Words(ino))
  }

  /** What is stored is read back, and no other inode of the block changes. */
  lemma InodeRoundTrip(b: Block, j: nat, ino: Inode, k: nat)
    requires j < IPB && k < IPB
    ensures ReadInode(PutInode(b, j, ino), k) == if k == j then ino else ReadInode(b, k)
  {
    hide WordAt, PutWords, Low, High, Pair;
    var r := PutInode(b, j, ino);
    if k == j {
      PairParts(ino.kind, ino.major);
      PairParts(ino.minor, ino.nlink);
      assert ReadAddrs(r, j) == ino.addrs;
    } else {
      assert ReadAddrs(r, k) == ReadAddrs(b, k);
    }
  }

  /** A file of the given size has this many blocks. */
  function BlocksOf(size: nat): nat { (size + BSIZE - 1) / BSIZE }
}
