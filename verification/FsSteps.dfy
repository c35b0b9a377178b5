/**
  The single changes from which balloc, bmap and iupdate are made (kernel/fs.c), each with what it
  keeps: the invariant, and the contents of every file.
 */
module FsSteps {
  import opened Layout
  import opened FsLayout
  import opened FsState

  /** Block bn of file j, if it was there, is the same block with the same bytes. */
  ghost predicate Kept(sb: Superblock, s: State, s': State, j: nat, bn: nat) {
    var c := DataBlock(s.blocks, Eff(sb, s, j), bn);
    c != 0 ==> DataBlock(s'.blocks, Eff(sb, s', j), bn) == c && At(s'.blocks, c) == At(s.blocks, c)
  }

  predicate SameAttr(x: Inode, y: Inode) {
    y == x.(addrs := y.addrs)
  }

  /** Files may have gained blocks beyond their size; nothing else about them has changed. */
  ghost predicate Extends(sb: Superblock, s: State, s': State) {
    && (forall j :: 0 <= j < sb.ninodes ==> SameAttr(Eff(sb, s, j), Eff(sb, s', j)))
    && forall j, bn :: 0 <= j < sb.ninodes && 0 <= bn < MAXFILE ==> Kept(sb, s, s', j, bn)
  }

  lemma ExtendsTrans(sb: Superblock, s: State, s': State, s'': State)
    requires Extends(sb, s, s') && Extends(sb, s', s'')
    ensures Extends(sb, s, s'')
  {
    hide Eff, DataBlock;
    forall j | 0 <= j < sb.ninodes
      ensures SameAttr(Eff(sb, s, j), Eff(sb, s'', j))
    {
      assert SameAttr(Eff(sb, s, j), Eff(sb, s', j)) && SameAttr(Eff(sb, s', j), Eff(sb, s'', j));
    }
    forall j, bn | 0 <= j < sb.ninodes && 0 <= bn < MAXFILE
      ensures Kept(sb, s, s'', j, bn)
    {
      assert Kept(sb, s, s', j, bn) && Kept(sb, s', s'', j, bn);
    }
  }

  lemma ExtendsRefl(sb: Superblock, s: State)
    ensures Extends(sb, s, s)
  {
  }

  // ---------- the bitmap

  function SetBit(sb: Superblock, blocks: map<nat, Block>, b: nat, v: bool): map<nat, Block> {
    blocks[BitBlock(sb, b) := PutBit(At(blocks, BitBlock(sb, b)), b % BPB, v)]
  }

  lemma BitWritten(sb: Superblock, blocks: map<nat, Block>, b: nat, v: bool, c: nat)
    ensures Bit(sb, SetBit(sb, blocks, b, v), c) == if c == b then v else Bit(sb, blocks, c)
  {
    if c != b && BitBlock(sb, c) == BitBlock(sb, b) {
      assert c % BPB != b % BPB;
    }
  }

  /** Blocks outside the bitmap are as they were. */
  ghost predicate BitsOnly(sb: Superblock, blocks: map<nat, Block>, blocks': map<nat, Block>) {
    forall c: nat :: !(sb.bmapstart <= c < FirstData(sb)) ==> At(blocks', c) == At(blocks, c)
  }

  lemma SetBitOnly(sb: Superblock, blocks: map<nat, Block>, b: nat, v: bool)
    requires WellSb(sb) && b < sb.size
    ensures BitsOnly(sb, blocks, SetBit(sb, blocks, b, v))
  {
    Regions(sb, 0, b);
  }

  // ---------- frames

  /** An inode is read from its own block only. */
  lemma EffFrame(sb: Superblock, s: State, s': State, j: nat)
    requires s'.live == s.live && At(s'.blocks, InodeBlock(sb, j)) == At(s.blocks, InodeBlock(sb, j))
    ensures Eff(sb, s', j) == Eff(sb, s, j)
  {
  }

  /** The indirect block of a file lies in the data area. */
  lemma IndirectArea(sb: Superblock, s: State, j: nat)
    requires Inv(sb, s) && j < sb.ninodes
    ensures var ind := Eff(sb, s, j).addrs[NDIRECT];
      ind != 0 ==> ind in s.owner && s.owner[ind] == Slot(j, NDIRECT) && FirstData(sb) <= ind < sb.size
  {
    hide Eff;
    var ino := Eff(sb, s, j);
    assert InodeOk(s.blocks, s.owner, j, ino);
    assert SlotOk(s.owner, j, ino.addrs[NDIRECT], NDIRECT);
    if ino.addrs[NDIRECT] != 0 {
      InDataArea(sb, s, ino.addrs[NDIRECT]);
    }
  }

  lemma EntriesSame(blocks: map<nat, Block>, blocks': map<nat, Block>, ind: Uint, k: nat)
    requires k < NINDIRECT && (ind != 0 ==> At(blocks', ind) == At(blocks, ind))
    ensures EntryWord(blocks', ind, k) == EntryWord(blocks, ind, k)
  {
  }

  lemma DataSame(blocks: map<nat, Block>, blocks': map<nat, Block>, ino: Inode, bn: nat)
    requires ino.addrs[NDIRECT] != 0 ==> At(blocks', ino.addrs[NDIRECT]) == At(blocks, ino.addrs[NDIRECT])
    ensures DataBlock(blocks', ino, bn) == DataBlock(blocks, ino, bn)
  {
  }

  lemma InodeFrame(blocks: map<nat, Block>, blocks': map<nat, Block>,
                   owner: map<nat, Role>, owner': map<nat, Role>, i: nat, ino: Inode)
    requires InodeOk(blocks, owner, i, ino)
    requires (ino.addrs[NDIRECT] != 0 ==> At(blocks', ino.addrs[NDIRECT]) == At(blocks, ino.addrs[NDIRECT]))
    requires forall b :: b in owner && (owner[b].Slot? || owner[b].Entry?) && owner[b].inum == i ==>
      b in owner' && owner'[b] == owner[b]
    ensures InodeOk(blocks', owner', i, ino)
  {
    hide WordAt;
    forall bn | 0 <= bn < BlocksOf(ino.size)
      ensures DataBlock(blocks', ino, bn) != 0
    {
      assert DataBlock(blocks, ino, bn) != 0;
      DataSame(blocks, blocks', ino, bn);
    }
    forall k | 0 <= k <= NDIRECT
      ensures SlotOk(owner', i, ino.addrs[k], k)
    {
      assert SlotOk(owner, i, ino.addrs[k], k);
    }
    forall k | 0 <= k < NINDIRECT
      ensures EntryOk(blocks', owner', i, ino.addrs[NDIRECT], k)
    {
      assert EntryOk(blocks, owner, i, ino.addrs[NDIRECT], k);
      EntriesSame(blocks, blocks', ino.addrs[NDIRECT], k);
    }
  }

  // ---------- balloc

  /** Free block b is marked in use and cleared. */
  function Took(sb: Superblock, s: State, b: nat): State {
    s.(blocks := SetBit(sb, s.blocks, b, true)[b := ZeroBlock()], owner := s.owner[b := Loose])
  }

  ghost predicate MayTake(sb: Superblock, s: State, b: nat) {
    Inv(sb, s) && b in s.owner && s.owner[b].Free?
  }

  /** Only the bitmap and block b have changed. */
  lemma TookBlocks(sb: Superblock, s: State, b: nat, c: nat)
    requires MayTake(sb, s, b) && !(sb.bmapstart <= c < FirstData(sb)) && c != b
    ensures At(Took(sb, s, b).blocks, c) == At(s.blocks, c)
  {
    SetBitOnly(sb, s.blocks, b, true);
  }

  lemma TookBits(sb: Superblock, s: State, b: nat, c: nat)
    requires MayTake(sb, s, b) && c < sb.size
    ensures BitOk(sb, Took(sb, s, b).blocks, Took(sb, s, b).owner, c)
  {
    hide BitAt;
    assert BitOk(sb, s.blocks, s.owner, c) && BitOk(sb, s.blocks, s.owner, b);
    Regions(sb, 0, c);
    BitWritten(sb, s.blocks, b, true, c);
    InDataArea(sb, s, b);
  }

  lemma TookEff(sb: Superblock, s: State, b: nat, j: nat)
    requires MayTake(sb, s, b) && j < sb.ninodes
    ensures Eff(sb, Took(sb, s, b), j) == Eff(sb, s, j)
    ensures var ind := Eff(sb, s, j).addrs[NDIRECT]; ind != 0 ==> At(Took(sb, s, b).blocks, ind) == At(s.blocks, ind)
  {
    Regions(sb, j, b);
    InDataArea(sb, s, b);
    TookBlocks(sb, s, b, InodeBlock(sb, j));
    EffFrame(sb, s, Took(sb, s, b), j);
    IndirectArea(sb, s, j);
    var ind := Eff(sb, s, j).addrs[NDIRECT];
    if ind != 0 {
      TookBlocks(sb, s, b, ind);
    }
  }

  lemma TookKeeps(sb: Superblock, s: State, b: nat)
    requires MayTake(sb, s, b)
    ensures Inv(sb, Took(sb, s, b))
  {
    hide Eff, WordAt, BitOk;
    var s' := Took(sb, s, b);
    forall c | 0 <= c < sb.size
      ensures BitOk(sb, s'.blocks, s'.owner, c)
    {
      TookBits(sb, s, b, c);
    }
    forall j | 0 <= j < sb.ninodes
      ensures InodeOk(s'.blocks, s'.owner, j, Eff(sb, s', j))
    {
      TookEff(sb, s, b, j);
      InodeFrame(s.blocks, s'.blocks, s.owner, s'.owner, j, Eff(sb, s, j));
    }
    forall c | c in s'.owner
      ensures BackOk(sb, s', c, s'.owner[c])
    {
      assert BackOk(sb, s, c, s.owner[c]);
      if s'.owner[c].Slot? || s'.owner[c].Entry? {
        TookEff(sb, s, b, s.owner[c].inum);
      }
    }
  }

  lemma TookExtends(sb: Superblock, s: State, b: nat)
    requires MayTake(sb, s, b)
    ensures Extends(sb, s, Took(sb, s, b))
  {
    hide Eff, DataBlock;
    var s' := Took(sb, s, b);
    forall j | 0 <= j < sb.ninodes
      ensures SameAttr(Eff(sb, s, j), Eff(sb, s', j))
    {
      TookEff(sb, s, b, j);
    }
    forall j, bn | 0 <= j < sb.ninodes && 0 <= bn < MAXFILE
      ensures Kept(sb, s, s', j, bn)
    {
      TookEff(sb, s, b, j);
      DataSame(s.blocks, s'.blocks, Eff(sb, s, j), bn);
      var c := DataBlock(s.blocks, Eff(sb, s, j), bn);
      if c != 0 {
        DataRoleOf(sb, s, j, bn);
        InDataArea(sb, s, c);
        TookBlocks(sb, s, b, c);
      }
    }
  }

  // ---------- bmap: a fresh block becomes part of a file

  ghost predicate Fresh(sb: Superblock, s: State, i: nat, b: nat) {
    && Inv(sb, s) && i in s.live && s.live[i].kind != 0
    && b in s.owner && s.owner[b].Loose? && At(s.blocks, b) == ZeroBlock()
  }

  lemma FreshFacts(sb: Superblock, s: State, i: nat, b: nat)
    requires Fresh(sb, s, i, b)
    ensures 0 < FirstData(sb) <= b < sb.size < UINT_LIMIT && i < sb.ninodes && Eff(sb, s, i) == s.live[i]
    ensures InodeOk(s.blocks, s.owner, i, s.live[i])
  {
    InDataArea(sb, s, b);
    assert InodeOk(s.blocks, s.owner, i, Eff(sb, s, i));
  }

  /** ip->addrs[k] = b. */
  function AttachSlot(s: State, i: nat, k: nat, b: Uint): State
    requires i in s.live && k <= NDIRECT
  {
    var ino := s.live[i];
    State(s.blocks, s.live[i := ino.(addrs := ino.addrs[k := b])], s.owner[b := Slot(i, k)])
  }

  lemma SlotData(s: State, i: nat, k: nat, b: Uint, bn: nat)
    requires i in s.live && k <= NDIRECT && s.live[i].addrs[k] == 0 && At(s.blocks, b) == ZeroBlock()
    ensures DataBlock(s.blocks, AttachSlot(s, i, k, b).live[i], bn) ==
      if bn == k && k < NDIRECT then b else DataBlock(s.blocks, s.live[i], bn)
  {
    hide WordAt, ZeroBlock;
    if NDIRECT <= bn < MAXFILE {
      ZeroWord(bn - NDIRECT);
    }
  }

  lemma SlotInode(sb: Superblock, s: State, i: nat, k: nat, b: Uint)
    requires Fresh(sb, s, i, b) && k <= NDIRECT && s.live[i].addrs[k] == 0
    ensures var s' := AttachSlot(s, i, k, b); InodeOk(s'.blocks, s'.owner, i, s'.live[i])
  {
    hide WordAt, DataBlock, ZeroBlock;
    FreshFacts(sb, s, i, b);
    var s' := AttachSlot(s, i, k, b);
    var ino := s.live[i];
    forall t | 0 <= t <= NDIRECT
      ensures SlotOk(s'.owner, i, s'.live[i].addrs[t], t)
    {
      assert SlotOk(s.owner, i, ino.addrs[t], t);
    }
    forall t | 0 <= t < NINDIRECT
      ensures EntryOk(s'.blocks, s'.owner, i, s'.live[i].addrs[NDIRECT], t)
    {
      assert EntryOk(s.blocks, s.owner, i, ino.addrs[NDIRECT], t);
      ZeroWord(t);
    }
    forall bn | 0 <= bn < BlocksOf(ino.size)
      ensures DataBlock(s'.blocks, s'.live[i], bn) != 0
    {
      assert DataBlock(s.blocks, ino, bn) != 0;
      SlotData(s, i, k, b, bn);
    }
  }

  lemma SlotKeeps(sb: Superblock, s: State, i: nat, k: nat, b: Uint)
    requires Fresh(sb, s, i, b) && k <= NDIRECT && s.live[i].addrs[k] == 0
    ensures Inv(sb, AttachSlot(s, i, k, b))
  {
    hide WordAt, DataBlock, ZeroBlock, Bit, DiskInode;
    FreshFacts(sb, s, i, b);
    SlotInode(sb, s, i, k, b);
    var s' := AttachSlot(s, i, k, b);
    forall c | 0 <= c < sb.size
      ensures BitOk(sb, s'.blocks, s'.owner, c)
    {
      assert BitOk(sb, s.blocks, s.owner, c);
    }
    forall j | 0 <= j < sb.ninodes
      ensures InodeOk(s'.blocks, s'.owner, j, Eff(sb, s', j))
    {
      if j != i {
        assert InodeOk(s.blocks, s.owner, j, Eff(sb, s, j));
        InodeFrame(s.blocks, s'.blocks, s.owner, s'.owner, j, Eff(sb, s, j));
      }
    }
    forall c | c in s'.owner
      ensures BackOk(sb, s', c, s'.owner[c])
    {
      if c != b {
        assert BackOk(sb, s, c, s.owner[c]);
      }
    }
  }

  lemma SlotExtends(sb: Superblock, s: State, i: nat, k: nat, b: Uint)
    requires Fresh(sb, s, i, b) && k <= NDIRECT && s.live[i].addrs[k] == 0
    ensures Extends(sb, s, AttachSlot(s, i, k, b))
  {
    hide DataBlock, DiskInode, ZeroBlock;
    var s' := AttachSlot(s, i, k, b);
    FreshFacts(sb, s, i, b);
    forall j, bn | 0 <= j < sb.ninodes && 0 <= bn < MAXFILE
      ensures Kept(sb, s, s', j, bn)
    {
      if j == i {
        SlotData(s, i, k, b, bn);
        SlotZero(s, i, bn);
      }
    }
  }

  lemma SlotZero(s: State, i: nat, bn: nat)
    requires i in s.live
    ensures bn < NDIRECT ==> DataBlock(s.blocks, s.live[i], bn) == s.live[i].addrs[bn]
  {
  }

  /** Entry k of the indirect block becomes b. */
  function AttachEntry(s: State, i: nat, k: nat, b: Uint): State
    requires i in s.live && k < NINDIRECT
  {
    var ind := s.live[i].addrs[NDIRECT];
    s.(blocks := s.blocks[ind := PutWord(At(s.blocks, ind), k, b)], owner := s.owner[b := Entry(i, k)])
  }

  ghost predicate MayEnter(sb: Superblock, s: State, i: nat, k: nat, b: Uint) {
    && Fresh(sb, s, i, b) && k < NINDIRECT && s.live[i].addrs[NDIRECT] != 0
    && EntryWord(s.blocks, s.live[i].addrs[NDIRECT], k) == 0
  }

  lemma EntryEff(sb: Superblock, s: State, i: nat, k: nat, b: Uint, j: nat)
    requires MayEnter(sb, s, i, k, b) && j < sb.ninodes
    ensures Eff(sb, AttachEntry(s, i, k, b), j) == Eff(sb, s, j)
    ensures j != i && Eff(sb, s, j).addrs[NDIRECT] != 0 ==> Eff(sb, s, j).addrs[NDIRECT] != s.live[i].addrs[NDIRECT]
    ensures FirstData(sb) <= s.live[i].addrs[NDIRECT] < sb.size && s.live[i].addrs[NDIRECT] != b
  {
    hide WordAt, DataBlock, ZeroBlock, ReadInode;
    FreshFacts(sb, s, i, b);
    IndirectArea(sb, s, i);
    IndirectArea(sb, s, j);
    Regions(sb, j, b);
    EffFrame(sb, s, AttachEntry(s, i, k, b), j);
  }

  lemma EntryData(s: State, i: nat, k: nat, b: Uint, bn: nat)
    requires i in s.live && k < NINDIRECT && s.live[i].addrs[NDIRECT] != 0
    ensures DataBlock(AttachEntry(s, i, k, b).blocks, s.live[i], bn) ==
      if bn == k + NDIRECT then b else DataBlock(s.blocks, s.live[i], bn)
  {
  }

  lemma EntryInode(sb: Superblock, s: State, i: nat, k: nat, b: Uint)
    requires MayEnter(sb, s, i, k, b)
    ensures var s' := AttachEntry(s, i, k, b); InodeOk(s'.blocks, s'.owner, i, s.live[i])
  {
    hide WordAt, DataBlock, ZeroBlock;
    FreshFacts(sb, s, i, b);
    EntryEff(sb, s, i, k, b, i);
    var s' := AttachEntry(s, i, k, b);
    var ino := s.live[i];
    forall t | 0 <= t <= NDIRECT
      ensures SlotOk(s'.owner, i, ino.addrs[t], t)
    {
      assert SlotOk(s.owner, i, ino.addrs[t], t);
    }
    forall t | 0 <= t < NINDIRECT
      ensures EntryOk(s'.blocks, s'.owner, i, ino.addrs[NDIRECT], t)
    {
      assert EntryOk(s.blocks, s.owner, i, ino.addrs[NDIRECT], t);
    }
    forall bn | 0 <= bn < BlocksOf(ino.size)
      ensures DataBlock(s'.blocks, ino, bn) != 0
    {
      assert DataBlock(s.blocks, ino, bn) != 0;
      EntryData(s, i, k, b, bn);
    }
  }

  lemma EntryKeeps(sb: Superblock, s: State, i: nat, k: nat, b: Uint)
    requires MayEnter(sb, s, i, k, b)
    ensures Inv(sb, AttachEntry(s, i, k, b))
  {
    hide WordAt, DataBlock, ZeroBlock, Eff, Bit;
    FreshFacts(sb, s, i, b);
    EntryInode(sb, s, i, k, b);
    var s' := AttachEntry(s, i, k, b);
    forall c | 0 <= c < sb.size
      ensures BitOk(sb, s'.blocks, s'.owner, c)
    {
      assert BitOk(sb, s.blocks, s.owner, c);
      EntryEff(sb, s, i, k, b, i);
      BitFrame(sb, s.blocks, s'.blocks, c);
    }
    forall j | 0 <= j < sb.ninodes
      ensures InodeOk(s'.blocks, s'.owner, j, Eff(sb, s', j))
    {
      EntryEff(sb, s, i, k, b, j);
      if j != i {
        assert InodeOk(s.blocks, s.owner, j, Eff(sb, s, j));
        InodeFrame(s.blocks, s'.blocks, s.owner, s'.owner, j, Eff(sb, s, j));
      }
    }
    forall c | c in s'.owner
      ensures BackOk(sb, s', c, s'.owner[c])
    {
      EntryBack(sb, s, i, k, b, c);
    }
  }

  lemma BitFrame(sb: Superblock, blocks: map<nat, Block>, blocks': map<nat, Block>, c: nat)
    requires At(blocks', BitBlock(sb, c)) == At(blocks, BitBlock(sb, c))
    ensures Bit(sb, blocks', c) == Bit(sb, blocks, c)
  {
  }

  lemma EntryBack(sb: Superblock, s: State, i: nat, k: nat, b: Uint, c: nat)
    requires MayEnter(sb, s, i, k, b) && c in s.owner
    ensures var s' := AttachEntry(s, i, k, b); BackOk(sb, s', c, s'.owner[c])
  {
    hide WordAt, DataBlock, ZeroBlock, Eff;
    FreshFacts(sb, s, i, b);
    EntryEff(sb, s, i, k, b, i);
    assert BackOk(sb, s, c, s.owner[c]);
    var x := s.owner[c];
    if x.Slot? || x.Entry? {
      EntryEff(sb, s, i, k, b, x.inum);
    }
  }

  lemma EntryExtends(sb: Superblock, s: State, i: nat, k: nat, b: Uint)
    requires MayEnter(sb, s, i, k, b)
    ensures Extends(sb, s, AttachEntry(s, i, k, b))
  {
    hide DataBlock, Eff, ZeroBlock, EntryWord;
    var s' := AttachEntry(s, i, k, b);
    FreshFacts(sb, s, i, b);
    forall j | 0 <= j < sb.ninodes
      ensures SameAttr(Eff(sb, s, j), Eff(sb, s', j))
    {
      EntryEff(sb, s, i, k, b, j);
    }
    forall j, bn | 0 <= j < sb.ninodes && 0 <= bn < MAXFILE
      ensures Kept(sb, s, s', j, bn)
    {
      EntryEff(sb, s, i, k, b, j);
      if j == i {
        EntryData(s, i, k, b, bn);
        EntryIsData(s, i, k);
      } else {
        DataSame(s.blocks, s'.blocks, Eff(sb, s, j), bn);
      }
      var c := DataBlock(s.blocks, Eff(sb, s, j), bn);
      if c != 0 {
        DataRoleOf(sb, s, j, bn);
        IndirectArea(sb, s, i);
      }
    }
  }

  lemma EntryIsData(s: State, i: nat, k: nat)
    requires i in s.live && k < NINDIRECT
    ensures DataBlock(s.blocks, s.live[i], k + NDIRECT) == EntryWord(s.blocks, s.live[i].addrs[NDIRECT], k)
  {
  }
}
