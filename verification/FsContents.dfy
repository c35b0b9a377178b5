/**
  Files as byte arrays: what each file holds at each offset, and how writing a block, changing an
  inode and storing an inode bear on it (kernel/fs.c).
 */
module FsContents {
  import opened Layout
  import opened FsLayout
  import opened FsState
  import opened FsSteps

  /** The byte of file j at offset o, if a block is there. */
  function ByteAt(sb: Superblock, s: State, j: nat, o: nat): MaybeByte {
    var c := DataBlock(s.blocks, Eff(sb, s, j), o / BSIZE);
    if c == 0 then None else Some(At(s.blocks, c)[o % BSIZE])
  }

  /** From s to s' the bytes of file i from off on became the given ones; no other byte of any file changed. */
  ghost predicate Written(sb: Superblock, s: State, s': State, i: nat, off: nat, bytes: seq<Byte>) {
    && (forall j :: 0 <= j < sb.ninodes ==> Resized(Eff(sb, s, j), Eff(sb, s', j), j == i))
    && forall j, o: nat :: 0 <= j < sb.ninodes ==> WrittenAt(sb, s, s', i, off, bytes, j, o)
  }

  /** Of the attributes at most the size has changed, and that only if allowed. */
  predicate Resized(x: Inode, y: Inode, may: bool) {
    y == x.(addrs := y.addrs, size := y.size) && (may || y.size == x.size)
  }

  ghost predicate WrittenAt(sb: Superblock, s: State, s': State, i: nat, off: nat, bytes: seq<Byte>, j: nat, o: nat) {
    if j == i && off <= o < off + |bytes| then ByteAt(sb, s', j, o) == Some(bytes[o - off])
    else ByteAt(sb, s, j, o).Some? ==> ByteAt(sb, s', j, o) == ByteAt(sb, s, j, o)
  }

  lemma ExtendsWrites(sb: Superblock, s: State, s': State, i: nat, off: nat)
    requires Extends(sb, s, s')
    ensures Written(sb, s, s', i, off, [])
  {
    hide Eff;
    forall j | 0 <= j < sb.ninodes
      ensures Resized(Eff(sb, s, j), Eff(sb, s', j), j == i)
    {
      assert SameAttr(Eff(sb, s, j), Eff(sb, s', j));
    }
    forall j, o: nat | 0 <= j < sb.ninodes
      ensures WrittenAt(sb, s, s', i, off, [], j, o)
    {
      if o / BSIZE < MAXFILE {
        assert Kept(sb, s, s', j, o / BSIZE);
      }
    }
  }

  lemma WrittenMore(sb: Superblock, s: State, s': State, s'': State, i: nat, off: nat, bytes: seq<Byte>, more: seq<Byte>)
    requires Written(sb, s, s', i, off, bytes) && Written(sb, s', s'', i, off + |bytes|, more)
    ensures Written(sb, s, s'', i, off, bytes + more)
  {
    hide Eff, ByteAt;
    forall j | 0 <= j < sb.ninodes
      ensures Resized(Eff(sb, s, j), Eff(sb, s'', j), j == i)
    {
      assert Resized(Eff(sb, s, j), Eff(sb, s', j), j == i) && Resized(Eff(sb, s', j), Eff(sb, s'', j), j == i);
    }
    forall j, o: nat | 0 <= j < sb.ninodes
      ensures WrittenAt(sb, s, s'', i, off, bytes + more, j, o)
    {
      assert WrittenAt(sb, s, s', i, off, bytes, j, o);
      assert WrittenAt(sb, s', s'', i, off + |bytes|, more, j, o);
    }
  }

  // ---------- writing into a data block

  function Splice(b: Block, off: nat, bytes: seq<Byte>): Block
    requires off + |bytes| <= BSIZE
  {
    b[..off] + bytes + b[off + |bytes|..]
  }

  function PutData(s: State, c: nat, v: Block): State {
    s.(blocks := s.blocks[c := v])
  }

  /** c holds block bn of file i. */
  ghost predicate Holds(sb: Superblock, s: State, i: nat, bn: nat, c: nat) {
    Inv(sb, s) && i < sb.ninodes && DataBlock(s.blocks, Eff(sb, s, i), bn) == c != 0
  }

  lemma DataEff(sb: Superblock, s: State, i: nat, bn: nat, c: nat, v: Block, j: nat)
    requires Holds(sb, s, i, bn, c) && j < sb.ninodes
    ensures Eff(sb, PutData(s, c, v), j) == Eff(sb, s, j) && Eff(sb, s, j).addrs[NDIRECT] != c
    ensures FirstData(sb) <= c < sb.size
  {
    hide DataBlock, ReadInode;
    DataRoleOf(sb, s, i, bn);
    InDataArea(sb, s, c);
    IndirectArea(sb, s, j);
    Regions(sb, j, c);
    EffFrame(sb, s, PutData(s, c, v), j);
  }

  lemma DataKeeps(sb: Superblock, s: State, i: nat, bn: nat, c: nat, v: Block)
    requires Holds(sb, s, i, bn, c)
    ensures Inv(sb, PutData(s, c, v))
  {
    hide WordAt, DataBlock, Eff, Bit;
    var s' := PutData(s, c, v);
    DataEff(sb, s, i, bn, c, v, i);
    forall b | 0 <= b < sb.size
      ensures BitOk(sb, s'.blocks, s'.owner, b)
    {
      assert BitOk(sb, s.blocks, s.owner, b);
      Regions(sb, 0, b);
      BitFrame(sb, s.blocks, s'.blocks, b);
    }
    forall j | 0 <= j < sb.ninodes
      ensures InodeOk(s'.blocks, s'.owner, j, Eff(sb, s', j))
    {
      DataEff(sb, s, i, bn, c, v, j);
      assert InodeOk(s.blocks, s.owner, j, Eff(sb, s, j));
      InodeFrame(s.blocks, s'.blocks, s.owner, s'.owner, j, Eff(sb, s, j));
    }
    forall b | b in s'.owner
      ensures BackOk(sb, s', b, s'.owner[b])
    {
      assert BackOk(sb, s, b, s.owner[b]);
      var x := s.owner[b];
      if x.Slot? || x.Entry? {
        DataEff(sb, s, i, bn, c, v, x.inum);
      }
    }
  }

  lemma DataWrites(sb: Superblock, s: State, i: nat, bn: nat, c: nat, boff: nat, bytes: seq<Byte>)
    requires Holds(sb, s, i, bn, c) && boff + |bytes| <= BSIZE
    ensures Written(sb, s, PutData(s, c, Splice(At(s.blocks, c), boff, bytes)), i, bn * BSIZE + boff, bytes)
  {
    hide Eff, DataBlock, Splice;
    var v := Splice(At(s.blocks, c), boff, bytes);
    var s' := PutData(s, c, v);
    forall j | 0 <= j < sb.ninodes
      ensures Resized(Eff(sb, s, j), Eff(sb, s', j), j == i)
    {
      DataEff(sb, s, i, bn, c, v, j);
    }
    var at := bn * BSIZE + boff;
    forall j, o: nat | 0 <= j < sb.ninodes
      ensures WrittenAt(sb, s, s', i, at, bytes, j, o)
    {
      DataEff(sb, s, i, bn, c, v, j);
      DataSame(s.blocks, s'.blocks, Eff(sb, s, j), o / BSIZE);
      if DataBlock(s.blocks, Eff(sb, s, j), o / BSIZE) == c {
        DataUnshared(sb, s, i, bn, j, o / BSIZE);
      }
      SpliceByte(At(s.blocks, c), boff, bytes, bn, o);
    }
  }

  lemma SpliceByte(b: Block, boff: nat, bytes: seq<Byte>, bn: nat, o: nat)
    requires boff + |bytes| <= BSIZE
    ensures var at := bn * BSIZE + boff; var inside := at <= o < at + |bytes|;
      && (inside ==> o / BSIZE == bn)
      && (o / BSIZE == bn ==> Splice(b, boff, bytes)[o % BSIZE] == if inside then bytes[o - at] else b[o % BSIZE])
  {
  }

  // ---------- inodes in memory and on disk

  function SetInode(s: State, i: nat, ino: Inode): State {
    s.(live := s.live[i := ino])
  }

  /** A cached inode changes, but for its addresses. */
  lemma SetInodeKeeps(sb: Superblock, s: State, i: nat, ino: Inode)
    requires Inv(sb, s) && i in s.live && ino.addrs == s.live[i].addrs
    requires SizeOk(s.blocks, ino) && (ino.kind == 0 ==> Empty(ino))
    ensures Inv(sb, SetInode(s, i, ino))
  {
    hide WordAt, DataBlock, DiskInode;
    var s' := SetInode(s, i, ino);
    assert InodeOk(s.blocks, s.owner, i, Eff(sb, s, i));
    forall j | 0 <= j < sb.ninodes
      ensures InodeOk(s'.blocks, s'.owner, j, Eff(sb, s', j))
    {
      assert InodeOk(s.blocks, s.owner, j, Eff(sb, s, j));
    }
    forall b | b in s'.owner
      ensures BackOk(sb, s', b, s'.owner[b])
    {
      assert BackOk(sb, s, b, s.owner[b]);
    }
  }

  /** The size of the file changes. */
  lemma ResizeWrites(sb: Superblock, s: State, i: nat, size: Uint, off: nat)
    requires i in s.live
    ensures Written(sb, s, SetInode(s, i, s.live[i].(size := size)), i, off, [])
  {
    hide DiskInode;
    var s' := SetInode(s, i, s.live[i].(size := size));
    forall j, o: nat | 0 <= j < sb.ninodes
      ensures WrittenAt(sb, s, s', i, off, [], j, o)
    {
      assert DataBlock(s'.blocks, Eff(sb, s', j), o / BSIZE) == DataBlock(s.blocks, Eff(sb, s, j), o / BSIZE);
    }
  }

  /** ilock reads the inode into memory: nothing the kernel sees changes. */
  lemma LoadKeeps(sb: Superblock, s: State, i: nat)
    requires Inv(sb, s) && i < sb.ninodes && i !in s.live
    ensures var s' := SetInode(s, i, DiskInode(sb, s.blocks, i)); Inv(sb, s') && forall j :: Eff(sb, s', j) == Eff(sb, s, j)
  {
    hide DiskInode, DataBlock;
    var s' := SetInode(s, i, DiskInode(sb, s.blocks, i));
    assert forall j :: Eff(sb, s', j) == Eff(sb, s, j);
    forall b | b in s'.owner
      ensures BackOk(sb, s', b, s'.owner[b])
    {
      assert BackOk(sb, s, b, s.owner[b]);
    }
  }

  /** iupdate. */
  function Stored(sb: Superblock, s: State, i: nat, ino: Inode): State {
    s.(blocks := s.blocks[InodeBlock(sb, i) := PutInode(At(s.blocks, InodeBlock(sb, i)), i % IPB, ino)])
  }

  lemma StoredDisk(sb: Superblock, s: State, i: nat, ino: Inode, j: nat)
    ensures DiskInode(sb, Stored(sb, s, i, ino).blocks, j) == if j == i then ino else DiskInode(sb, s.blocks, j)
  {
    hide ReadInode, PutInode;
    InodeRoundTrip(At(s.blocks, InodeBlock(sb, i)), i % IPB, ino, j % IPB);
    if InodeBlock(sb, i) == InodeBlock(sb, j) && i % IPB == j % IPB {
      assert i == j;
    }
  }

  /** Storing a cached inode changes nothing the kernel sees. */
  lemma StoredKeeps(sb: Superblock, s: State, i: nat)
    requires Inv(sb, s) && i in s.live
    ensures var s' := Stored(sb, s, i, s.live[i]); Inv(sb, s') && Extends(sb, s, s')
  {
    hide WordAt, DataBlock, Eff, Bit, PutInode;
    var s' := Stored(sb, s, i, s.live[i]);
    Regions(sb, i, 0);
    forall b | 0 <= b < sb.size
      ensures BitOk(sb, s'.blocks, s'.owner, b)
    {
      assert BitOk(sb, s.blocks, s.owner, b);
      Regions(sb, 0, b);
      BitFrame(sb, s.blocks, s'.blocks, b);
    }
    forall j | 0 <= j < sb.ninodes
      ensures Eff(sb, s', j) == Eff(sb, s, j) && InodeOk(s'.blocks, s'.owner, j, Eff(sb, s', j))
    {
      StoredEff(sb, s, i, j);
      assert InodeOk(s.blocks, s.owner, j, Eff(sb, s, j));
      IndirectArea(sb, s, j);
      InodeFrame(s.blocks, s'.blocks, s.owner, s'.owner, j, Eff(sb, s, j));
    }
    forall b | b in s'.owner
      ensures BackOk(sb, s', b, s'.owner[b])
    {
      assert BackOk(sb, s, b, s.owner[b]);
      var x := s.owner[b];
      if x.Slot? || x.Entry? {
        StoredEff(sb, s, i, x.inum);
        IndirectArea(sb, s, x.inum);
      }
    }
    StoredExtends(sb, s, i);
  }

  lemma StoredEff(sb: Superblock, s: State, i: nat, j: nat)
    requires i in s.live
    ensures Eff(sb, Stored(sb, s, i, s.live[i]), j) == Eff(sb, s, j)
  {
    hide DiskInode, PutInode;
    StoredDisk(sb, s, i, s.live[i], j);
  }

  lemma StoredExtends(sb: Superblock, s: State, i: nat)
    requires Inv(sb, s) && i in s.live
    ensures Extends(sb, s, Stored(sb, s, i, s.live[i]))
  {
    hide DataBlock, Eff, PutInode;
    var s' := Stored(sb, s, i, s.live[i]);
    Regions(sb, i, 0);
    forall j | 0 <= j < sb.ninodes
      ensures SameAttr(Eff(sb, s, j), Eff(sb, s', j))
    {
      StoredEff(sb, s, i, j);
    }
    forall j, bn | 0 <= j < sb.ninodes && 0 <= bn < MAXFILE
      ensures Kept(sb, s, s', j, bn)
    {
      StoredEff(sb, s, i, j);
      IndirectArea(sb, s, j);
      DataSame(s.blocks, s'.blocks, Eff(sb, s, j), bn);
      if DataBlock(s.blocks, Eff(sb, s, j), bn) != 0 {
        DataRoleOf(sb, s, j, bn);
        InDataArea(sb, s, DataBlock(s.blocks, Eff(sb, s, j), bn));
      }
    }
  }
}
