/**
  Giving the blocks of a file back: the state inside itrunc (kernel/fs.c), where bits are cleared before
  the references are, and the state it ends in.
 */
module FsTrunc {
  import opened Layout
  import opened FsLayout
  import opened FsState
  import opened FsSteps
  import opened FsContents

  /** A block of file i that itrunc has freed after d of its addresses and e indirect entries. */
  predicate Retired(x: Role, i: nat, d: nat, e: nat) {
    (x.Slot? && x.inum == i && x.k < d) || (x.Entry? && x.inum == i && x.k < e)
  }

  ghost predicate Cut(sb: Superblock, s0: State, s: State, i: nat, d: nat, e: nat) {
    && d <= NDIRECT + 1 && e <= NINDIRECT && i in s0.live && WellSb(sb) && Domain(sb, s)
    && s.live == s0.live[i := s0.live[i].(addrs := Zeroed(s0.live[i].addrs, d))]
    && BitsOnly(sb, s0.blocks, s.blocks) && MapOk(sb, s.blocks, s.owner)
    && forall b :: b in s0.owner ==> CutAt(s0.owner, s.owner, i, d, e, b)
  }

  ghost predicate CutAt(owner: map<nat, Role>, owner': map<nat, Role>, i: nat, d: nat, e: nat, b: nat)
    requires b in owner
  {
    b in owner' && owner'[b] == if Retired(owner[b], i, d, e) then Free else owner[b]
  }

  /** The first d addresses cleared. */
  function Zeroed(addrs: Addrs, d: nat): (r: Addrs)
    requires d <= NDIRECT + 1
    ensures forall k :: 0 <= k <= NDIRECT ==> r[k] == if k < d then 0 else addrs[k]
  {
    if d == 0 then addrs else Zeroed(addrs, d - 1)[d - 1 := 0]
  }

  lemma CutStart(sb: Superblock, s: State, i: nat)
    requires Inv(sb, s) && i in s.live
    ensures Cut(sb, s, s, i, 0, 0)
  {
    assert s.live[i].(addrs := Zeroed(s.live[i].addrs, 0)) == s.live[i];
  }

  /** Freeing block b, which has the given role in s0, when all roles before it have been dealt with. */
  lemma CutFree(sb: Superblock, s0: State, s: State, i: nat, d: nat, e: nat, d': nat, e': nat, b: nat, ino: Inode)
    requires Inv(sb, s0) && Cut(sb, s0, s, i, d, e) && d' <= NDIRECT + 1 && e' <= NINDIRECT
    requires b in s0.owner && !Retired(s0.owner[b], i, d, e)
    requires forall c :: c in s0.owner ==> (Retired(s0.owner[c], i, d', e') <==> Retired(s0.owner[c], i, d, e) || c == b)
    requires ino == s0.live[i].(addrs := Zeroed(s0.live[i].addrs, d'))
    ensures Cut(sb, s0, State(SetBit(sb, s.blocks, b, false), s.live[i := ino], s.owner[b := Free]), i, d', e')
  {
    hide Bit, Retired, Zeroed, SetBit, BitsOnly;
    var s' := State(SetBit(sb, s.blocks, b, false), s.live[i := ino], s.owner[b := Free]);
    BitsMore(sb, s0.blocks, s.blocks, b, false);
    NotMeta(sb, s0, s, i, d, e, d', e', b);
    forall c | 0 <= c < sb.size
      ensures BitOk(sb, s'.blocks, s'.owner, c)
    {
      assert BitOk(sb, s.blocks, s.owner, c);
      BitWritten(sb, s.blocks, b, false, c);
    }
    forall c | c in s0.owner
      ensures CutAt(s0.owner, s'.owner, i, d', e', c)
    {
      assert CutAt(s0.owner, s.owner, i, d, e, c);
    }
    SetBitDomain(sb, s, b, s');
  }

  lemma NotMeta(sb: Superblock, s0: State, s: State, i: nat, d: nat, e: nat, d': nat, e': nat, b: nat)
    requires Inv(sb, s0) && b in s0.owner && Retired(s0.owner[b], i, d', e')
    requires Cut(sb, s0, s, i, d, e)
    ensures b < sb.size && b >= FirstData(sb)
  {
    InDataArea(sb, s0, b);
  }

  lemma BitsMore(sb: Superblock, blocks0: map<nat, Block>, blocks: map<nat, Block>, b: nat, v: bool)
    requires WellSb(sb) && b < sb.size && BitsOnly(sb, blocks0, blocks)
    ensures BitsOnly(sb, blocks0, SetBit(sb, blocks, b, v))
  {
    SetBitOnly(sb, blocks, b, v);
  }

  lemma SetBitDomain(sb: Superblock, s: State, b: nat, s': State)
    requires Domain(sb, s) && s'.blocks == SetBit(sb, s.blocks, b, false) && b in s.owner
    requires s'.owner == s.owner[b := Free] && (forall i :: i in s'.live ==> 0 <= i < sb.ninodes)
    ensures Domain(sb, s')
  {
  }

  /** No block has the role, so nothing is left to free. */
  lemma CutNone(sb: Superblock, s0: State, s: State, i: nat, d: nat, e: nat, d': nat, e': nat)
    requires Inv(sb, s0) && Cut(sb, s0, s, i, d, e) && d' <= NDIRECT + 1 && e' <= NINDIRECT
    requires forall c :: c in s0.owner ==> (Retired(s0.owner[c], i, d', e') <==> Retired(s0.owner[c], i, d, e))
    requires Zeroed(s0.live[i].addrs, d') == Zeroed(s0.live[i].addrs, d)
    ensures Cut(sb, s0, s, i, d', e')
  {
    hide Bit, Retired, Zeroed;
    forall c | c in s0.owner
      ensures CutAt(s0.owner, s.owner, i, d', e', c)
    {
      assert CutAt(s0.owner, s.owner, i, d, e, c);
    }
  }

  // ---------- the two kinds of reference

  /** Address k of file i, as itrunc finds it. */
  lemma SlotFacts(sb: Superblock, s0: State, s: State, i: nat, k: nat, e: nat)
    requires Inv(sb, s0) && Cut(sb, s0, s, i, k, e) && k <= NDIRECT
    ensures var a := s.live[i].addrs[k];
      && a == s0.live[i].addrs[k]
      && (a != 0 ==> a in s0.owner && s0.owner[a] == Slot(i, k) && !Retired(s0.owner[a], i, k, e) && Bit(sb, s.blocks, a))
      && forall c :: c in s0.owner ==>
           (Retired(s0.owner[c], i, k + 1, e) <==> Retired(s0.owner[c], i, k, e) || (a != 0 && c == a))
  {
    hide DataBlock, Bit, DiskInode, WordAt;
    var a := s0.live[i].addrs[k];
    assert InodeOk(s0.blocks, s0.owner, i, Eff(sb, s0, i));
    assert SlotOk(s0.owner, i, a, k);
    if a != 0 {
      assert CutAt(s0.owner, s.owner, i, k, e, a);
      assert BitOk(sb, s.blocks, s.owner, a);
    }
    forall c | c in s0.owner
      ensures Retired(s0.owner[c], i, k + 1, e) <==> Retired(s0.owner[c], i, k, e) || (a != 0 && c == a)
    {
      assert BackOk(sb, s0, c, s0.owner[c]);
    }
  }

  /** Entry k of the indirect block of file i, as itrunc finds it. */
  lemma EntryFacts(sb: Superblock, s0: State, s: State, i: nat, k: nat)
    requires Inv(sb, s0) && Cut(sb, s0, s, i, NDIRECT, k) && k < NINDIRECT && s0.live[i].addrs[NDIRECT] != 0
    ensures var ind := s.live[i].addrs[NDIRECT];
      && ind == s0.live[i].addrs[NDIRECT] && ind in s.blocks
      && var a := WordAt(s.blocks[ind], k);
         && (a != 0 ==>
              a in s0.owner && s0.owner[a] == Entry(i, k) && !Retired(s0.owner[a], i, NDIRECT, k) && Bit(sb, s.blocks, a))
         && forall c :: c in s0.owner ==>
              (Retired(s0.owner[c], i, NDIRECT, k + 1) <==> Retired(s0.owner[c], i, NDIRECT, k) || (a != 0 && c == a))
  {
    hide DataBlock, Bit, DiskInode, WordAt;
    var ind := s0.live[i].addrs[NDIRECT];
    IndirectArea(sb, s0, i);
    assert InodeOk(s0.blocks, s0.owner, i, Eff(sb, s0, i));
    assert EntryOk(s0.blocks, s0.owner, i, ind, k);
    assert At(s.blocks, ind) == At(s0.blocks, ind);
    var a := WordAt(s.blocks[ind], k);
    if a != 0 {
      assert CutAt(s0.owner, s.owner, i, NDIRECT, k, a);
      assert BitOk(sb, s.blocks, s.owner, a);
    }
    forall c | c in s0.owner
      ensures Retired(s0.owner[c], i, NDIRECT, k + 1) <==> Retired(s0.owner[c], i, NDIRECT, k) || (a != 0 && c == a)
    {
      assert BackOk(sb, s0, c, s0.owner[c]);
    }
  }

  /** Without an indirect block there are no entries. */
  lemma NoEntries(sb: Superblock, s0: State, i: nat, e: nat)
    requires Inv(sb, s0) && i in s0.live && s0.live[i].addrs[NDIRECT] == 0
    ensures forall c :: c in s0.owner ==> (Retired(s0.owner[c], i, NDIRECT, e) <==> Retired(s0.owner[c], i, NDIRECT, 0))
  {
    hide DataBlock, DiskInode, WordAt;
    forall c | c in s0.owner
      ensures Retired(s0.owner[c], i, NDIRECT, e) <==> Retired(s0.owner[c], i, NDIRECT, 0)
    {
      assert BackOk(sb, s0, c, s0.owner[c]);
    }
  }

  // ---------- the end

  predicate BelongsTo(x: Role, i: nat) {
    (x.Slot? || x.Entry?) && x.inum == i
  }

  /** Every file but i is as it was. */
  ghost predicate OthersSame(sb: Superblock, s: State, s': State, i: nat) {
    && (forall j :: 0 <= j < sb.ninodes && j != i ==> Eff(sb, s', j) == Eff(sb, s, j))
    && forall j, o: nat :: 0 <= j < sb.ninodes && j != i ==> ByteAt(sb, s', j, o) == ByteAt(sb, s, j, o)
  }

  /** File i is empty, exactly its blocks have become free, and every other file is as it was. */
  ghost predicate Emptied(sb: Superblock, s: State, s': State, i: nat) {
    && i in s.live && i in s'.live && Empty(s'.live[i]) && s'.live[i] == s.live[i].(size := 0, addrs := s'.live[i].addrs)
    && (forall b :: b in s.owner ==> b in s'.owner && s'.owner[b] == if BelongsTo(s.owner[b], i) then Free else s.owner[b])
    && OthersSame(sb, s, s', i)
  }

  lemma CutAll(sb: Superblock, s0: State, s: State, i: nat, b: nat)
    requires Inv(sb, s0) && Cut(sb, s0, s, i, NDIRECT + 1, NINDIRECT) && b in s0.owner
    ensures b in s.owner && s.owner[b] == if BelongsTo(s0.owner[b], i) then Free else s0.owner[b]
  {
    assert CutAt(s0.owner, s.owner, i, NDIRECT + 1, NINDIRECT, b);
    assert BackOk(sb, s0, b, s0.owner[b]);
  }

  /** Other files: their inodes and blocks lie outside the bitmap. */
  lemma CutOther(sb: Superblock, s0: State, s: State, i: nat, j: nat)
    requires Inv(sb, s0) && Cut(sb, s0, s, i, NDIRECT + 1, NINDIRECT) && j < sb.ninodes && j != i
    ensures Eff(sb, s, j) == Eff(sb, s0, j) && InodeOk(s.blocks, s.owner, j, Eff(sb, s, j))
    ensures var ind := Eff(sb, s0, j).addrs[NDIRECT]; ind != 0 ==> At(s.blocks, ind) == At(s0.blocks, ind)
  {
    hide ReadInode, WordAt, DataBlock, Retired, Zeroed;
    Regions(sb, j, 0);
    assert At(s.blocks, InodeBlock(sb, j)) == At(s0.blocks, InodeBlock(sb, j));
    IndirectArea(sb, s0, j);
    assert InodeOk(s0.blocks, s0.owner, j, Eff(sb, s0, j));
    forall b | b in s0.owner && BelongsTo(s0.owner[b], j)
      ensures b in s.owner && s.owner[b] == s0.owner[b]
    {
      CutAll(sb, s0, s, i, b);
    }
    InodeFrame(s0.blocks, s.blocks, s0.owner, s.owner, j, Eff(sb, s0, j));
  }

  function Cleared(s: State, i: nat): State
    requires i in s.live
  {
    SetInode(s, i, s.live[i].(size := 0))
  }

  lemma CutInv(sb: Superblock, s0: State, s: State, i: nat)
    requires Inv(sb, s0) && Cut(sb, s0, s, i, NDIRECT + 1, NINDIRECT)
    ensures Inv(sb, Cleared(s, i)) && Empty(Cleared(s, i).live[i])
  {
    hide DiskInode, WordAt, DataBlock, Retired, BitOk, BitsOnly;
    var s' := Cleared(s, i);
    forall j | 0 <= j < sb.ninodes
      ensures InodeOk(s'.blocks, s'.owner, j, Eff(sb, s', j))
    {
      if j != i {
        CutOther(sb, s0, s, i, j);
      }
    }
    forall b | b in s'.owner
      ensures BackOk(sb, s', b, s'.owner[b])
    {
      assert BackOk(sb, s0, b, s0.owner[b]);
      CutAll(sb, s0, s, i, b);
      if (s0.owner[b].Slot? || s0.owner[b].Entry?) && s0.owner[b].inum != i {
        CutOther(sb, s0, s, i, s0.owner[b].inum);
      }
    }
  }

  lemma CutOthers(sb: Superblock, s0: State, s: State, i: nat)
    requires Inv(sb, s0) && Cut(sb, s0, s, i, NDIRECT + 1, NINDIRECT)
    ensures OthersSame(sb, s0, Cleared(s, i), i)
  {
    hide DiskInode, DataBlock, InodeOk;
    var s' := Cleared(s, i);
    forall j | 0 <= j < sb.ninodes && j != i
      ensures Eff(sb, s', j) == Eff(sb, s0, j)
    {
      CutOther(sb, s0, s, i, j);
    }
    forall j, o: nat | 0 <= j < sb.ninodes && j != i
      ensures ByteAt(sb, s', j, o) == ByteAt(sb, s0, j, o)
    {
      CutOther(sb, s0, s, i, j);
      DataSame(s0.blocks, s.blocks, Eff(sb, s0, j), o / BSIZE);
      var c := DataBlock(s0.blocks, Eff(sb, s0, j), o / BSIZE);
      if c != 0 {
        DataRoleOf(sb, s0, j, o / BSIZE);
        InDataArea(sb, s0, c);
        assert At(s.blocks, c) == At(s0.blocks, c);
      }
    }
  }

  lemma CutDone(sb: Superblock, s0: State, s: State, i: nat)
    requires Inv(sb, s0) && Cut(sb, s0, s, i, NDIRECT + 1, NINDIRECT)
    ensures Inv(sb, Cleared(s, i)) && Emptied(sb, s0, Cleared(s, i), i)
  {
    CutInv(sb, s0, s, i);
    CutOthers(sb, s0, s, i);
    forall b | b in s0.owner
      ensures b in s.owner && s.owner[b] == if BelongsTo(s0.owner[b], i) then Free else s0.owner[b]
    {
      CutAll(sb, s0, s, i, b);
    }
  }

  /** One address has been dealt with. */
  lemma SlotCut(sb: Superblock, s0: State, s: State, i: nat, k: nat, e: nat)
    requires Inv(sb, s0) && Cut(sb, s0, s, i, k, e) && k <= NDIRECT
    ensures i in s.live && var a := s.live[i].addrs[k];
      if a == 0 then Cut(sb, s0, s, i, k + 1, e)
      else
        && a < sb.size && Bit(sb, s.blocks, a) && WellSb(sb) && Domain(sb, s)
        && var ino := s.live[i].(addrs := s.live[i].addrs[k := 0]);
           Cut(sb, s0, State(SetBit(sb, s.blocks, a, false), s.live[i := ino], s.owner[a := Free]), i, k + 1, e)
  {
    hide Bit, Retired, SetBit, BitsOnly, MapOk;
    SlotFacts(sb, s0, s, i, k, e);
    var a := s.live[i].addrs[k];
    var ino := s.live[i].(addrs := s.live[i].addrs[k := 0]);
    assert ino == s0.live[i].(addrs := Zeroed(s0.live[i].addrs, k + 1));
    if a == 0 {
      assert s.live[i].addrs[k := 0] == s.live[i].addrs;
      CutNone(sb, s0, s, i, k, e, k + 1, e);
    } else {
      CutFree(sb, s0, s, i, k, e, k + 1, e, a, ino);
    }
  }

  /** One entry has been dealt with. */
  lemma EntryCut(sb: Superblock, s0: State, s: State, i: nat, k: nat)
    requires Inv(sb, s0) && Cut(sb, s0, s, i, NDIRECT, k) && k < NINDIRECT && s0.live[i].addrs[NDIRECT] != 0
    ensures i in s.live && s.live[i].addrs[NDIRECT] == s0.live[i].addrs[NDIRECT] && s.live[i].addrs[NDIRECT] in s.blocks
    ensures var a := WordAt(s.blocks[s.live[i].addrs[NDIRECT]], k);
      if a == 0 then Cut(sb, s0, s, i, NDIRECT, k + 1)
      else
        && a < sb.size && Bit(sb, s.blocks, a) && WellSb(sb) && Domain(sb, s)
        && Cut(sb, s0, State(SetBit(sb, s.blocks, a, false), s.live, s.owner[a := Free]), i, NDIRECT, k + 1)
  {
    hide Bit, Retired, SetBit, BitsOnly, MapOk, Zeroed, WordAt;
    EntryFacts(sb, s0, s, i, k);
    var a := WordAt(s.blocks[s.live[i].addrs[NDIRECT]], k);
    if a == 0 {
      CutNone(sb, s0, s, i, NDIRECT, k, NDIRECT, k + 1);
    } else {
      assert s.live[i := s.live[i]] == s.live;
      CutFree(sb, s0, s, i, NDIRECT, k, NDIRECT, k + 1, a, s.live[i]);
    }
  }

  /** A file without indirect block. */
  lemma NoIndirectCut(sb: Superblock, s0: State, s: State, i: nat)
    requires Inv(sb, s0) && Cut(sb, s0, s, i, NDIRECT, 0) && s.live[i].addrs[NDIRECT] == 0
    ensures Cut(sb, s0, s, i, NDIRECT + 1, NINDIRECT)
  {
    hide Retired, BitsOnly, MapOk;
    NoEntries(sb, s0, i, NINDIRECT);
    CutNone(sb, s0, s, i, NDIRECT, 0, NDIRECT, NINDIRECT);
    SlotCut(sb, s0, s, i, NDIRECT, NINDIRECT);
  }

  /** The inodes on disk lie outside the bitmap. */
  lemma CutDisk(sb: Superblock, s0: State, s: State, i: nat, j: nat)
    requires Cut(sb, s0, s, i, NDIRECT + 1, NINDIRECT) && j < sb.ninodes
    ensures DiskInode(sb, s.blocks, j) == DiskInode(sb, s0.blocks, j)
  {
    hide ReadInode;
    Regions(sb, j, 0);
    assert At(s.blocks, InodeBlock(sb, j)) == At(s0.blocks, InodeBlock(sb, j));
  }
}
