/**
  balloc, bmap, readi, writei, itrunc, iupdate, ilock and iput of kernel/fs.c and filewrite of
  kernel/file.c.  A block write is one assignment to the block map; the set logged collects the blocks
  handed to log_write.
 */
module Fs {
  import opened Layout
  import opened FsLayout
  import opened FsState
  import opened FsSteps
  import opened FsContents
  import opened FsTrunc
  import Finite
  import A = LogAdmission

  /** Every block in use is metadata or is referred to. */
  ghost predicate NoLoose(owner: map<nat, Role>) {
    forall b :: b in owner ==> !owner[b].Loose?
  }

  /** Cached inodes other than i are as they are on disk, before and after. */
  ghost predicate SameInodes(sb: Superblock, s: State, s': State, i: nat) {
    && s'.live.Keys == s.live.Keys && (forall j :: j in s.live && j != i ==> s'.live[j] == s.live[j])
    && forall j :: 0 <= j < sb.ninodes ==> DiskInode(sb, s'.blocks, j) == DiskInode(sb, s.blocks, j)
  }

  /** Every cached inode is on disk as it is in memory. */
  ghost predicate Synced(sb: Superblock, s: State) {
    forall j :: j in s.live ==> s.live[j] == DiskInode(sb, s.blocks, j)
  }

  /** Every block that differs was handed to log_write. */
  ghost predicate AllLogged(b0: map<nat, Block>, l0: set<nat>, b1: map<nat, Block>, l1: set<nat>) {
    l0 <= l1 && forall c: nat :: At(b1, c) != At(b0, c) ==> c in l1
  }

  lemma LoggedNothing(b: map<nat, Block>, l: set<nat>)
    ensures AllLogged(b, l, b, l)
  {
  }

  lemma LoggedWrite(b0: map<nat, Block>, l0: set<nat>, b1: map<nat, Block>, l1: set<nat>, c: nat, v: Block)
    requires AllLogged(b0, l0, b1, l1)
    ensures AllLogged(b0, l0, b1[c := v], l1 + {c})
  {
  }

  lemma LoggedMore(b0: map<nat, Block>, l0: set<nat>, b1: map<nat, Block>, l1: set<nat>, b2: map<nat, Block>, l2: set<nat>)
    requires AllLogged(b0, l0, b1, l1) && AllLogged(b1, l1, b2, l2)
    ensures AllLogged(b0, l0, b2, l2)
  {
  }

  lemma BitBlockOf(sb: Superblock, b: nat, bi: nat)
    requires b % BPB == 0 && bi < BPB
    ensures BitBlock(sb, b + bi) == BitBlock(sb, b) && (b + bi) % BPB == bi
  {
  }

  class Fs {
    const sb: Superblock
    var blocks: map<nat, Block>
    var live: map<nat, Inode>      // valid entries of the inode table
    var refs: map<nat, nat>        // their reference counts
    ghost var owner: map<nat, Role>
    ghost var logged: set<nat>

    ghost function View(): State
      reads this
    {
      State(blocks, live, owner)
    }

    /** The scan of balloc(): the first block whose bit is clear, or sb.size. */
    method FindFree() returns (r: nat)
      requires WellSb(sb) && Present(sb, blocks)
      ensures r <= sb.size && (r < sb.size ==> !Bit(sb, blocks, r)) && forall c :: 0 <= c < r ==> Bit(sb, blocks, c)
    {
      hide BitAt;
      var b := 0;
      while b < sb.size
        invariant b % BPB == 0 && forall c :: 0 <= c < b && c < sb.size ==> Bit(sb, blocks, c)
        decreases sb.size - b
      {
        Regions(sb, 0, b);
        var bp := blocks[BitBlock(sb, b)];
        var bi := 0;
        while bi < BPB && b + bi < sb.size
          invariant bi <= BPB && forall c :: 0 <= c < b + bi && c < sb.size ==> Bit(sb, blocks, c)
        {
          BitBlockOf(sb, b, bi);
          if !BitAt(bp, bi) {
            return b + bi;
          }
          bi := bi + 1;
        }
        b := b + BPB;
      }
      return sb.size;
    }

    /** balloc(): the first free block, marked and cleared; 0 stands for the panic when there is none. */
    method Balloc() returns (r: nat)
      requires Inv(sb, View())
      modifies `blocks, `owner, `logged
      ensures r == 0 ==> View() == old(View()) && logged == old(logged) && NoneFree(owner)
      ensures r != 0 ==>
        && MayTake(sb, old(View()), r) && View() == Took(sb, old(View()), r)
        && (forall c :: 0 <= c < r ==> !old(owner)[c].Free?)
        && logged == old(logged) + {BitBlock(sb, r), r}
      ensures AllLogged(old(blocks), old(logged), blocks, logged)
    {
      hide Inv, Bit, BitAt, Took, AllLogged;
      LoggedNothing(blocks, logged);
      BallocFacts(sb, View());
      r := FindFree();
      if r == sb.size {
        return 0;
      }
      var bb := BitBlock(sb, r);
      TookIs(sb, View(), r);
      LoggedWrite(blocks, logged, blocks, logged, bb, PutBit(blocks[bb], r % BPB, true));
      LoggedWrite(blocks, logged, blocks[bb := PutBit(blocks[bb], r % BPB, true)], logged + {bb}, r, ZeroBlock());
      blocks := blocks[bb := PutBit(blocks[bb], r % BPB, true)];
      logged := logged + {bb};
      blocks := blocks[r := ZeroBlock()];
      logged := logged + {r};
      owner := owner[r := Loose];
    }

    /** ip->addrs[k] = balloc(). */
    method AllocSlot(i: nat, k: nat) returns (r: nat)
      requires Ready(sb, View(), i) && k <= NDIRECT && live[i].addrs[k] == 0
      modifies `blocks, `live, `owner, `logged
      ensures r == 0 ==> View() == old(View()) && logged == old(logged) && NoneFree(owner)
      ensures r != 0 ==>
        && Ready(sb, View(), i) && Extends(sb, old(View()), View()) && SameInodes(sb, old(View()), View(), i)
        && r < UINT_LIMIT && live == old(live)[i := old(live)[i].(addrs := old(live)[i].addrs[k := r])]
        && logged == old(logged) + {BitBlock(sb, r), r}
      ensures AllLogged(old(blocks), old(logged), blocks, logged)
    {
      hide Inv, Extends, SameInodes, NoLoose, AllLogged;
      ghost var s := View();
      ReadyIs(sb, s, i);
      r := Balloc();
      if r == 0 {
        return;
      }
      SlotGained(sb, s, i, k, r);
      live := live[i := live[i].(addrs := live[i].addrs[k := r])];
      owner := owner[r := Slot(i, k)];
    }

    /** a[k] = balloc() in the indirect block, and log it. */
    method AllocEntry(i: nat, k: nat) returns (r: nat)
      requires Ready(sb, View(), i) && k < NINDIRECT && live[i].addrs[NDIRECT] != 0
      requires EntryWord(blocks, live[i].addrs[NDIRECT], k) == 0
      modifies `blocks, `owner, `logged
      ensures r == 0 ==> View() == old(View()) && logged == old(logged) && NoneFree(owner)
      ensures r != 0 ==>
        && Ready(sb, View(), i) && Extends(sb, old(View()), View()) && SameInodes(sb, old(View()), View(), i)
        && EntryWord(blocks, live[i].addrs[NDIRECT], k) == r
        && logged == old(logged) + {BitBlock(sb, r), r, live[i].addrs[NDIRECT]}
      ensures AllLogged(old(blocks), old(logged), blocks, logged)
    {
      hide Inv, Extends, SameInodes, NoLoose, WordAt, AllLogged;
      ghost var s := View();
      ReadyIs(sb, s, i);
      r := Balloc();
      if r == 0 {
        return;
      }
      EntryGained(sb, s, i, k, r);
      var ind := live[i].addrs[NDIRECT];
      LoggedWrite(old(blocks), old(logged), blocks, logged, ind, PutWord(blocks[ind], k, r));
      blocks := blocks[ind := PutWord(blocks[ind], k, r)];
      logged := logged + {ind};
      owner := owner[r := Entry(i, k)];
    }

    /**
      bmap(): the block that holds block bn of file i, added to the file if it was not there.  0 stands
      for a panic.  The set bits has the bitmap blocks it logged.
     */
    method Bmap(i: nat, bn: nat) returns (addr: nat, ghost bits: set<nat>)
      requires Ready(sb, View(), i)
      modifies `blocks, `live, `owner, `logged
      ensures addr == 0 ==> DataBlock(old(blocks), old(live)[i], bn) == 0 && (bn >= MAXFILE || NoneFree(owner))
      ensures DataBlock(old(blocks), old(live)[i], bn) != 0 ==>
        addr != 0 && View() == old(View()) && logged == old(logged) && bits == {}
      ensures addr != 0 ==>
        && Ready(sb, View(), i) && bn < MAXFILE && DataBlock(blocks, live[i], bn) == addr
        && Extends(sb, old(View()), View()) && SameInodes(sb, old(View()), View(), i)
        && logged <= old(logged) + bits + {addr} + Indirects(live[i], bn)
        && |bits| <= 1 + (if bn >= NDIRECT && old(live)[i].addrs[NDIRECT] == 0 then 1 else 0)
        && (bn >= NDIRECT ==> live[i].addrs[NDIRECT] != 0)
        && (old(live)[i].addrs[NDIRECT] != 0 || bn < NDIRECT ==> live[i].addrs[NDIRECT] == old(live)[i].addrs[NDIRECT])
      ensures AllLogged(old(blocks), old(logged), blocks, logged)
    {
      hide Ready, Extends, SameInodes, NoneFree, WordAt, BitBlock, AllLogged;
      ghost var s0, l0 := View(), logged;
      LoggedNothing(blocks, logged);
      ReadyIs(sb, s0, i);
      ExtendsRefl(sb, s0);
      SameInodesRefl(sb, s0, i);
      bits := {};
      if bn < NDIRECT {
        addr := live[i].addrs[bn];
        if addr == 0 {
          addr := AllocSlot(i, bn);
          bits := {BitBlock(sb, addr)};
        }
        return;
      }
      if bn - NDIRECT < NINDIRECT {
        var k := bn - NDIRECT;
        addr := live[i].addrs[NDIRECT];
        if addr == 0 {
          addr := AllocSlot(i, NDIRECT);
          if addr == 0 {
            return;
          }
          bits := {BitBlock(sb, addr)};
        }
        IndirectReady(sb, View(), i);
        ghost var s1, l1 := View(), logged;
        addr := WordAt(blocks[addr], k);
        if addr == 0 {
          addr := AllocEntry(i, k);
          LoggedMore(s0.blocks, l0, s1.blocks, l1, blocks, logged);
          bits := bits + {BitBlock(sb, addr)};
          if addr != 0 {
            ExtendsTrans(sb, s0, s1, View());
            SameInodesTrans(sb, s0, s1, View(), i);
          }
        }
        return;
      }
      return 0, bits;
    }

    /** readi() with a copy that does not fault: all bytes of the file from off on that were asked for and
        that it has. */
    method Readi(i: nat, off: Uint, n: Uint) returns (data: seq<Byte>)
      requires Ready(sb, View(), i)
      modifies `blocks, `live, `owner, `logged
      ensures View() == old(View()) && logged == old(logged)
      ensures |data| <= n && (data != [] ==> off + |data| <= live[i].size) && Reads(sb, View(), i, off, data)
      ensures if off + n < 0x1_0000_0000 then |data| == n || off + |data| >= live[i].size else data == []
    {
      hide Ready, Reads, DataBlock, Extends, SameInodes, Indirects, NoneFree, AllLogged;
      data := [];
      ReadyIs(sb, View(), i);
      ReadsNone(sb, View(), i, off);
      if off > live[i].size || off + n >= UINT_LIMIT {
        return;
      }
      var count := if off + n > live[i].size then live[i].size - off else n;
      while |data| < count
        invariant |data| <= count && View() == old(View()) && logged == old(logged) && Reads(sb, View(), i, off, data)
      {
        var o := off + |data|;
        MappedBelow(sb, View(), i, o);
        ghost var bits;
        var addr;
        addr, bits := Bmap(i, o / BSIZE);
        var m := if count - |data| < BSIZE - o % BSIZE then count - |data| else BSIZE - o % BSIZE;
        ReadsMore(sb, View(), i, off, data, m);
        data := data + blocks[addr][o % BSIZE..o % BSIZE + m];
      }
    }

    /** iupdate(). */
    method Iupdate(i: nat)
      requires Inv(sb, View()) && i in live
      modifies `blocks, `logged
      ensures View() == Stored(sb, old(View()), i, live[i]) && logged == old(logged) + {InodeBlock(sb, i)}
      ensures AllLogged(old(blocks), old(logged), blocks, logged)
    {
      hide Inv, PutInode;
      var ib := InodeBlock(sb, i);
      InodeBlockThere(sb, View(), i);
      blocks := blocks[ib := PutInode(blocks[ib], i % IPB, live[i])];
      logged := logged + {ib};
    }

    /** One iteration of writei(): the bytes go into the block of offset o; 0 stands for a panic. */
    method WriteOne(i: nat, o: nat, bytes: seq<Byte>) returns (addr: nat, ghost bits: set<nat>)
      requires Ready(sb, View(), i) && o % BSIZE + |bytes| <= BSIZE && o / BSIZE < MAXFILE
      modifies `blocks, `live, `owner, `logged
      ensures addr == 0 ==> NoneFree(owner)
      ensures addr != 0 ==>
        && i in live && Ready(sb, View(), i) && Written(sb, old(View()), View(), i, o, bytes)
        && SameInodes(sb, old(View()), View(), i)
        && live[i].size == old(live)[i].size && DataBlock(blocks, live[i], o / BSIZE) != 0
        && logged <= old(logged) + bits + {addr} + Indirects(live[i], o / BSIZE)
        && |bits| <= NewBits(old(blocks), old(live)[i], o / BSIZE)
        && (o / BSIZE >= NDIRECT ==> live[i].addrs[NDIRECT] != 0)
        && (old(live)[i].addrs[NDIRECT] != 0 || o / BSIZE < NDIRECT ==> live[i].addrs[NDIRECT] == old(live)[i].addrs[NDIRECT])
      ensures AllLogged(old(blocks), old(logged), blocks, logged)
    {
      hide Ready, Extends, SameInodes, NoneFree, Written, DataBlock, Splice, BitBlock, AllLogged;
      ghost var s0 := View();
      ReadyIs(sb, s0, i);
      addr, bits := Bmap(i, o / BSIZE);
      if addr == 0 {
        return;
      }
      ghost var s1 := View();
      ReadyIs(sb, s1, i);
      WriteFacts(sb, s0, s1, i, o, bytes, addr);
      LoggedWrite(old(blocks), old(logged), blocks, logged, addr, Splice(blocks[addr], o % BSIZE, bytes));
      blocks := blocks[addr := Splice(blocks[addr], o % BSIZE, bytes)];
      logged := logged + {addr};
    }

    /**
      writei() with a copy that does not fault: the bytes are spliced into the file at off, the file
      grows to hold them, and no other file changes.  A write of at most three blocks' length logs at
      most MAXOPBLOCKS blocks.
     */
    method Writei(i: nat, off: Uint, src: seq<Byte>) returns (r: WriteResult)
      requires Ready(sb, View(), i) && |src| < UINT_LIMIT
      modifies `blocks, `live, `owner, `logged
      ensures r.Refused? <==> off > old(live)[i].size || off + |src| >= 0x1_0000_0000 || off + |src| > (12 + 256) * 1024
      ensures r.Refused? ==> View() == old(View()) && logged == old(logged)
      ensures r.Wrote? ==>
        && r.n == |src| && WriteDone(sb, old(View()), View(), i, off, src)
        && (|src| <= CHUNK ==> Within(logged, old(logged), A.MAXOPBLOCKS))
      ensures r.OutOfBlocks? ==> NoneFree(owner)
      ensures AllLogged(old(blocks), old(logged), blocks, logged)
    {
      hide Ready, Written, Progress, Accounts, Touched, NoneFree, DataBlock, Within, Persisted, Inv, Stored, AllLogged;
      ghost var s0, l0 := View(), logged;
      LoggedNothing(blocks, logged);
      ReadyIs(sb, s0, i);
      if off > live[i].size || off + |src| >= UINT_LIMIT {
        return Refused;
      }
      if off + |src| > MAXFILE * BSIZE {
        return Refused;
      }
      ghost var bill;
      var ok;
      ok, bill := WriteBlocks(i, off, src);
      if !ok {
        return OutOfBlocks;
      }
      ghost var s1, l1 := View(), logged;
      SizeFacts(sb, s0, s1, i, off, src);
      BillFacts(s0, s1, i, off, |src|, l1, l0, bill, InodeBlock(sb, i));
      if off + |src| > live[i].size {
        live := live[i := live[i].(size := off + |src|)];
      }
      ghost var s2 := View();
      StoreFacts(sb, s0, s1, s2, i, off, src);
      Iupdate(i);
      LoggedMore(s0.blocks, l0, s1.blocks, l1, blocks, logged);
      return Wrote(|src|);
    }

    /** The loop of writei(); false stands for a panic. */
    method WriteBlocks(i: nat, off: Uint, src: seq<Byte>) returns (ok: bool, ghost bill: Bill)
      requires Ready(sb, View(), i) && off + |src| <= MAXFILE * BSIZE
      modifies `blocks, `live, `owner, `logged
      ensures ok ==>
        && Progress(sb, old(View()), View(), i, off, src) && Touched(off, |src|, |src|, bill.count)
        && Accounts(old(View()), View(), i, off, logged, old(logged), bill)
      ensures !ok ==> NoneFree(owner)
      ensures AllLogged(old(blocks), old(logged), blocks, logged)
    {
      hide Ready, Written, SameInodes, Accounts, Touched, Progress, NoneFree, DataBlock, NewBits, Indirects, AllLogged;
      LoggedNothing(blocks, logged);
      ghost var s0, l0 := View(), logged;
      bill := Bill({}, {}, {}, 0);
      WriteStart(sb, s0, i, off, |src|);
      var tot := 0;
      while tot < |src|
        invariant tot <= |src| && Progress(sb, s0, View(), i, off, src[..tot])
        invariant Touched(off, tot, |src|, bill.count) && Accounts(s0, View(), i, off, logged, l0, bill)
        invariant AllLogged(s0.blocks, l0, blocks, logged)
      {
        var o := off + tot;
        var m := if |src| - tot < BSIZE - o % BSIZE then |src| - tot else BSIZE - o % BSIZE;
        ghost var s, l := View(), logged;
        ProgressReady(sb, s0, s, i, off, src[..tot], |src|);
        var addr;
        ghost var bits;
        addr, bits := WriteOne(i, o, src[tot..tot + m]);
        LoggedMore(s0.blocks, l0, s.blocks, l, blocks, logged);
        if addr == 0 {
          return false, bill;
        }
        ProgressMore(sb, s0, s, View(), i, off, src[..tot], src[tot..tot + m]);
        assert src[..tot] + src[tot..tot + m] == src[..tot + m];
        bill := AccountsMore(s0, s, View(), i, off, tot, |src|, m, l, logged, l0, bill, addr, bits);
        tot := tot + m;
      }
      assert src[..tot] == src;
      return true, bill;
    }

    /** bfree(); true stands for the panic. */
    method Bfree(b: nat) returns (panicked: bool)
      requires WellSb(sb) && b < sb.size && Present(sb, blocks)
      modifies `blocks, `logged
      ensures panicked <==> !Bit(sb, old(blocks), b)
      ensures !panicked ==> blocks == SetBit(sb, old(blocks), b, false) && logged == old(logged) + {BitBlock(sb, b)}
      ensures logged <= old(logged) + BitBlocks(sb)
      ensures AllLogged(old(blocks), old(logged), blocks, logged)
    {
      hide BitAt, BitBlocks;
      Regions(sb, 0, b);
      BitBlockIn(sb, b);
      var bb := BitBlock(sb, b);
      if !BitAt(blocks[bb], b % BPB) {
        return true;
      }
      blocks := blocks[bb := PutBit(blocks[bb], b % BPB, false)];
      logged := logged + {bb};
      return false;
    }

    /** The body of itrunc() for one address. */
    method FreeSlot(i: nat, k: nat, ghost s0: State, ghost e: nat) returns (panicked: bool)
      requires Inv(sb, s0) && Cut(sb, s0, View(), i, k, e) && k <= NDIRECT
      modifies `blocks, `live, `owner, `logged
      ensures !panicked && Cut(sb, s0, View(), i, k + 1, e)
      ensures logged <= old(logged) + BitBlocks(sb)
      ensures AllLogged(old(blocks), old(logged), blocks, logged)
    {
      hide BitBlocks, Inv, Bit, SetBit, MapOk, BitsOnly, Zeroed, Retired, AllLogged;
      LoggedNothing(blocks, logged);
      SlotCut(sb, s0, View(), i, k, e);
      panicked := false;
      var a := live[i].addrs[k];
      if a != 0 {
        panicked := Bfree(a);
        live := live[i := live[i].(addrs := live[i].addrs[k := 0])];
        owner := owner[a := Free];
      }
    }

    /** The inner loop of itrunc(). */
    method FreeEntries(i: nat, ghost s0: State) returns (panicked: bool)
      requires Inv(sb, s0) && Cut(sb, s0, View(), i, NDIRECT, 0) && s0.live[i].addrs[NDIRECT] != 0
      modifies `blocks, `owner, `logged
      ensures !panicked && Cut(sb, s0, View(), i, NDIRECT, NINDIRECT)
      ensures logged <= old(logged) + BitBlocks(sb)
      ensures AllLogged(old(blocks), old(logged), blocks, logged)
    {
      hide BitBlocks, Inv, Bit, SetBit, MapOk, BitsOnly, Zeroed, Retired, WordAt, AllLogged;
      ghost var b0, l0 := blocks, logged;
      LoggedNothing(blocks, logged);
      panicked := false;
      EntryCut(sb, s0, View(), i, 0);
      var j := 0;
      while j < NINDIRECT
        invariant j <= NINDIRECT && Cut(sb, s0, View(), i, NDIRECT, j) && !panicked
        invariant logged <= l0 + BitBlocks(sb) && AllLogged(b0, l0, blocks, logged)
      {
        ghost var b, l := blocks, logged;
        EntryCut(sb, s0, View(), i, j);
        var a := WordAt(blocks[live[i].addrs[NDIRECT]], j);
        if a != 0 {
          panicked := Bfree(a);
          LoggedMore(b0, l0, b, l, blocks, logged);
          owner := owner[a := Free];
        }
        j := j + 1;
      }
    }

    /** itrunc(): file i loses all its blocks; no free block is ever freed, and no more than TruncBlocks are logged. */
    method Itrunc(i: nat) returns (panicked: bool)
      requires Inv(sb, View()) && i in live
      modifies `blocks, `live, `owner, `logged
      ensures !panicked && TruncDone(sb, old(View()), View(), i)
      ensures logged <= old(logged) + BitBlocks(sb) + {InodeBlock(sb, i)}
      ensures Within(logged, old(logged), TruncBlocks(sb))
      ensures AllLogged(old(blocks), old(logged), blocks, logged)
    {
      hide BitBlocks, Within, TruncBlocks, Inv, Cut, Emptied, Persisted, Stored, AllLogged;
      ghost var s0, l0 := View(), logged;
      LoggedNothing(blocks, logged);
      CutStart(sb, s0, i);
      panicked := false;
      var k := 0;
      while k < NDIRECT
        invariant k <= NDIRECT && Cut(sb, s0, View(), i, k, 0) && !panicked
        invariant logged <= l0 + BitBlocks(sb) && AllLogged(s0.blocks, l0, blocks, logged)
      {
        ghost var b, l := blocks, logged;
        panicked := FreeSlot(i, k, s0, 0);
        LoggedMore(s0.blocks, l0, b, l, blocks, logged);
        k := k + 1;
      }
      CutLive(sb, s0, View(), i);
      if live[i].addrs[NDIRECT] != 0 {
        ghost var b1, l1 := blocks, logged;
        panicked := FreeEntries(i, s0);
        LoggedMore(s0.blocks, l0, b1, l1, blocks, logged);
        b1, l1 := blocks, logged;
        panicked := FreeSlot(i, NDIRECT, s0, NINDIRECT);
        LoggedMore(s0.blocks, l0, b1, l1, blocks, logged);
      } else {
        NoIndirectCut(sb, s0, View(), i);
      }
      ghost var s1, l2 := View(), logged;
      CutDone(sb, s0, s1, i);
      CutIn(sb, s0, s1, i);
      live := live[i := live[i].(size := 0)];
      TruncFacts(sb, s0, s1, i);
      Iupdate(i);
      LoggedMore(s0.blocks, l0, s1.blocks, l2, blocks, logged);
      TruncWithin(sb, i, l0, logged);
    }

    /** ref of the in-memory inode. */
    function References(i: nat): nat
      reads `refs
    {
      if i in refs then refs[i] else 0
    }

    /** ilock(): the inode is in memory; true stands for the panics on an inode without references and
        on a free inode. */
    method Ilock(i: nat) returns (panicked: bool)
      requires Inv(sb, View()) && i < sb.ninodes
      modifies `live
      ensures panicked <==> References(i) < 1 || (i !in old(live) && Eff(sb, old(View()), i).kind == 0)
      ensures live == if References(i) < 1 then old(live) else old(live)[i := Eff(sb, old(View()), i)]
      ensures Inv(sb, View()) && Extends(sb, old(View()), View())
    {
      hide Inv, Extends, DiskInode, ReadInode;
      panicked := false;
      ExtendsRefl(sb, View());
      if References(i) < 1 {
        return true;
      }
      if i !in live {
        LoadFacts(sb, View(), i);
        live := live[i := ReadInode(blocks[InodeBlock(sb, i)], i % IPB)];
        panicked := live[i].kind == 0;
      } else {
        assert live[i := live[i]] == live;
      }
    }

    /**
      iput(): dropping the last reference to a cached inode without links truncates the file and frees
      the inode; otherwise the files stay as they are.  True stands for a panic, which does not happen.
     */
    method Iput(i: nat) returns (panicked: bool)
      requires Inv(sb, View()) && i in refs && refs[i] >= 1
      modifies this
      ensures !panicked && Inv(sb, View()) && refs == old(refs)[i := old(refs)[i] - 1]
      ensures !LastLink(old(refs), old(live), i) ==> View() == old(View())
      ensures LastLink(old(refs), old(live), i) ==> PutDone(sb, old(View()), View(), i)
      ensures Within(logged, old(logged), if LastLink(old(refs), old(live), i) then TruncBlocks(sb) else 0)
      ensures AllLogged(old(blocks), old(logged), blocks, logged)
    {
      hide BitBlocks, Within, TruncBlocks, Inv, Emptied, Persisted, Discarded, DiskInode, Stored, AllLogged;
      LoggedNothing(blocks, logged);
      panicked := false;
      if refs[i] == 1 && i in live && live[i].nlink == 0 {
        ghost var s0 := View();
        panicked := Itrunc(i);
        PersistedIn(sb, s0, View(), i);
        ghost var s1, l1 := View(), logged;
        DiscardFacts(sb, s0, s1, i);
        live := live[i := live[i].(kind := 0)];
        Iupdate(i);
        LoggedMore(old(blocks), old(logged), s1.blocks, l1, blocks, logged);
        TruncWithin(sb, i, old(logged), logged);
        live := live - {i};
      } else {
        WithinBy(logged, logged, {}, 0);
      }
      refs := refs[i := refs[i] - 1];
    }

    /**
      The FD_INODE branch of filewrite() with copies that do not fault: chunk after chunk, each a
      transaction of its own that logs at most MAXOPBLOCKS blocks.  The result is the source's return
      value, or Stopped for a panic when the disk is full or the inode has no reference; ops has the blocks logged by each transaction.
     */
    method Filewrite(i: nat, off: Uint, src: seq<Byte>)
      returns (r: FileResult, off': Uint, ghost done: nat, ghost ops: seq<set<nat>>)
      requires Inv(sb, View()) && NoLoose(owner) && i < sb.ninodes && Eff(sb, View(), i).kind != 0 && |src| < UINT_LIMIT
      modifies `blocks, `live, `owner, `logged
      ensures forall t :: 0 <= t < |ops| ==> |ops[t]| <= A.MAXOPBLOCKS
      ensures !r.Stopped? ==>
        && done <= |src| && off' == off + done && r == Ret(if done == |src| then |src| else -1)
        && FileState(sb, old(View()), View(), i, off, src[..done])
      ensures !r.Stopped? && done < |src| ==>
        var end := off' + (if |src| - done > 3 * 1024 then 3 * 1024 else |src| - done);
        off' > Eff(sb, View(), i).size || end >= 0x1_0000_0000 || end > (12 + 256) * 1024
      ensures r.Stopped? ==> NoneFree(owner) || References(i) < 1
      ensures !r.Stopped? ==> forall c: nat :: At(blocks, c) != At(old(blocks), c) ==> exists t :: 0 <= t < |ops| && c in ops[t]
    {
      hide Inv, NoneFree, FileState, Written, Within, Eff, Persisted, NoLoose, At;
      ghost var s0 := View();
      FileStart(sb, s0, i, off);
      var n: nat := 0;
      off', ops := off, [];
      while n < |src|
        invariant n <= |src| && off' == off + n && FileState(sb, s0, View(), i, off, src[..n])
        invariant forall t :: 0 <= t < |ops| ==> |ops[t]| <= A.MAXOPBLOCKS
        invariant forall c: nat :: At(blocks, c) != At(s0.blocks, c) ==> exists t :: 0 <= t < |ops| && c in ops[t]
      {
        var n1 := |src| - n;
        if n1 > CHUNK {
          n1 := CHUNK;
        }
        ghost var s := View();
        logged := {};
        FileReady(sb, s0, s, i, off, src[..n]);
        var panicked := Ilock(i);
        if panicked {
          return Stopped, off', n, ops;
        }
        ghost var s1 := View();
        FileLocked(sb, s0, s, s1, i, off, src[..n]);
        var w := Writei(i, off', src[n..n + n1]);
        if w.OutOfBlocks? {
          return Stopped, off', n, ops;
        }
        if w.Refused? {
          return Ret(-1), off', n, ops;
        }
        WithinSize(logged);
        ghost var earlier := ops;
        ops := ops + [logged];
        assert forall t :: 0 <= t < |earlier| ==> ops[t] == earlier[t];
        assert ops[|earlier|] == logged;
        FileMore(sb, s0, s1, View(), i, off, src[..n], src[n..n + n1]);
        assert src[..n] + src[n..n + n1] == src[..n + n1];
        n := n + n1;
        off' := off' + n1;
      }
      assert src[..n] == src;
      return Ret(n), off', n, ops;
    }
  }

  datatype FileResult = Ret(n: int) | Stopped

  predicate LastLink(refs: map<nat, nat>, live: map<nat, Inode>, i: nat) {
    i in refs && refs[i] == 1 && i in live && live[i].nlink == 0
  }

  /** Between chunks: the invariant, and the bytes written so far. */
  ghost predicate FileState(sb: Superblock, s0: State, s: State, i: nat, off: nat, bytes: seq<Byte>) {
    && Inv(sb, s) && NoLoose(s.owner) && i < sb.ninodes && Eff(sb, s, i).kind != 0
    && Written(sb, s0, s, i, off, bytes)
    && Eff(sb, s, i).size == Grown(Eff(sb, s0, i).size, off, |bytes|)
    && (Synced(sb, s0) ==> Synced(sb, s))
  }

  /** The size of a file after n bytes were written at off, if any. */
  function Grown(size: nat, off: nat, n: nat): nat {
    if n > 0 && off + n > size then off + n else size
  }

  lemma FileStart(sb: Superblock, s: State, i: nat, off: nat)
    requires Inv(sb, s) && NoLoose(s.owner) && i < sb.ninodes && Eff(sb, s, i).kind != 0
    ensures FileState(sb, s, s, i, off, [])
  {
    ExtendsRefl(sb, s);
    ExtendsWrites(sb, s, s, i, off);
  }

  lemma FileReady(sb: Superblock, s0: State, s: State, i: nat, off: nat, bytes: seq<Byte>)
    requires FileState(sb, s0, s, i, off, bytes)
    ensures Inv(sb, s) && i < sb.ninodes && Eff(sb, s, i).kind != 0
  {
  }

  lemma FileLocked(sb: Superblock, s0: State, s: State, s': State, i: nat, off: nat, bytes: seq<Byte>)
    requires FileState(sb, s0, s, i, off, bytes) && Inv(sb, s') && Extends(sb, s, s')
    requires s' == s.(live := s.live[i := Eff(sb, s, i)])
    ensures FileState(sb, s0, s', i, off, bytes) && Ready(sb, s', i) && s'.live[i] == Eff(sb, s, i) == Eff(sb, s', i)
  {
    hide Written, Inv, DiskInode;
    ExtendsWrites(sb, s, s', i, off + |bytes|);
    WrittenMore(sb, s0, s, s', i, off, bytes, []);
    assert bytes + [] == bytes;
  }

  lemma FileMore(sb: Superblock, s0: State, s: State, s': State, i: nat, off: nat, bytes: seq<Byte>, more: seq<Byte>)
    requires FileState(sb, s0, s, i, off, bytes) && i in s.live && Ready(sb, s', i) && more != []
    requires Written(sb, s, s', i, off + |bytes|, more) && Persisted(sb, s, s', i)
    requires s'.live[i].size == if off + |bytes| + |more| > s.live[i].size then off + |bytes| + |more| else s.live[i].size
    ensures FileState(sb, s0, s', i, off, bytes + more)
  {
    hide Written, Inv, DiskInode;
    WrittenMore(sb, s0, s, s', i, off, bytes, more);
    ReadyIs(sb, s', i);
    if Synced(sb, s) {
      PersistedSynced(sb, s, s', i);
    }
  }

  lemma PersistedSynced(sb: Superblock, s: State, s': State, i: nat)
    requires Inv(sb, s') && Synced(sb, s) && Persisted(sb, s, s', i)
    ensures Synced(sb, s')
  {
    hide DiskInode;
    forall j | j in s'.live
      ensures s'.live[j] == DiskInode(sb, s'.blocks, j)
    {
      assert j in s.live.Keys;
    }
  }

  /** The blocks of the bitmap. */
  function BitBlocks(sb: Superblock): set<nat> {
    Finite.Below(sb.bmapstart + (sb.size + BPB - 1) / BPB) - Finite.Below(sb.bmapstart)
  }

  lemma BitBlockIn(sb: Superblock, b: nat)
    requires WellSb(sb) && b < sb.size
    ensures BitBlock(sb, b) in BitBlocks(sb)
  {
    assert b / BPB < (sb.size + BPB - 1) / BPB;
  }

  /** The most blocks a truncation logs: the bitmap and the inode.  They fit an operation on a disk of up to nine bitmap blocks. */
  function TruncBlocks(sb: Superblock): (n: nat)
    ensures n <= A.MAXOPBLOCKS <==> sb.size <= 9 * BPB
  {
    (sb.size + BPB - 1) / BPB + 1
  }

  lemma BitBlocksSize(sb: Superblock)
    ensures |BitBlocks(sb)| + 1 == TruncBlocks(sb)
  {
    hide Finite.Below;
    Finite.Between(sb.bmapstart, sb.bmapstart + (sb.size + BPB - 1) / BPB);
  }

  lemma TruncWithin(sb: Superblock, i: nat, l0: set<nat>, l: set<nat>)
    requires l <= l0 + BitBlocks(sb) + {InodeBlock(sb, i)}
    ensures Within(l, l0, TruncBlocks(sb))
  {
    hide BitBlocks, InodeBlock, TruncBlocks;
    BitBlocksSize(sb);
    WithinBy(l, l0, BitBlocks(sb) + {InodeBlock(sb, i)}, TruncBlocks(sb));
  }

  lemma WithinSize(l: set<nat>)
    requires Within(l, {}, A.MAXOPBLOCKS)
    ensures |l| <= A.MAXOPBLOCKS
  {
    var added: set<nat> :| l <= {} + added && |added| <= A.MAXOPBLOCKS;
    Finite.SubsetSize(l, added);
  }

  lemma LoadFacts(sb: Superblock, s: State, i: nat)
    requires Inv(sb, s) && i < sb.ninodes && i !in s.live
    ensures var ib := InodeBlock(sb, i);
      && ib in s.blocks && ReadInode(s.blocks[ib], i % IPB) == DiskInode(sb, s.blocks, i) == Eff(sb, s, i)
      && var s' := SetInode(s, i, DiskInode(sb, s.blocks, i));
         Inv(sb, s') && Extends(sb, s, s')
  {
    Regions(sb, i, 0);
    LoadKeeps(sb, s, i);
    var s' := SetInode(s, i, DiskInode(sb, s.blocks, i));
    forall j, bn | 0 <= j < sb.ninodes && 0 <= bn < MAXFILE
      ensures Kept(sb, s, s', j, bn)
    {
      assert Eff(sb, s', j) == Eff(sb, s, j);
    }
  }

  lemma PersistedIn(sb: Superblock, s: State, s': State, i: nat)
    requires Persisted(sb, s, s', i)
    ensures i in s'.live && s'.live.Keys == s.live.Keys && (forall j :: j in s.live && j != i ==> s'.live[j] == s.live[j])
  {
  }

  /** Inode i is free and empty on disk, exactly its blocks have become free, and every other file is as it was. */
  ghost predicate Discarded(sb: Superblock, s: State, s': State, i: nat) {
    && DiskInode(sb, s'.blocks, i).kind == 0 && Empty(DiskInode(sb, s'.blocks, i))
    && (forall b :: b in s.owner ==> b in s'.owner && s'.owner[b] == if BelongsTo(s.owner[b], i) then Free else s.owner[b])
    && OthersSame(sb, s, s', i)
  }

  /** The state iput leaves: kind 0 stored, and the cached copy dropped. */
  lemma DiscardFacts(sb: Superblock, s0: State, s1: State, i: nat)
    requires Inv(sb, s1) && Emptied(sb, s0, s1, i) && Persisted(sb, s0, s1, i)
    ensures var s2 := SetInode(s1, i, s1.live[i].(kind := 0)); Inv(sb, s2)
    ensures var s2 := SetInode(s1, i, s1.live[i].(kind := 0));
      var s3 := Stored(sb, s2, i, s2.live[i]);
      var s4 := s3.(live := s3.live - {i});
      && Inv(sb, s4) && Discarded(sb, s0, s4, i) && s4.live == s0.live - {i}
      && forall j :: 0 <= j < sb.ninodes && j != i ==> DiskInode(sb, s4.blocks, j) == DiskInode(sb, s0.blocks, j)
  {
    hide Inv, DiskInode, PutInode, DataBlock, ByteAt;
    var s2 := SetInode(s1, i, s1.live[i].(kind := 0));
    EmptySize(s1.blocks, s2.live[i]);
    SetInodeKeeps(sb, s1, i, s2.live[i]);
    SetOthers(sb, s0, s1, i, s2.live[i]);
    StoredKeeps(sb, s2, i);
    StoredOthers(sb, s0, s2, i);
    var s3 := Stored(sb, s2, i, s2.live[i]);
    ReadyBounds(sb, s1, i);
    forall j | 0 <= j < sb.ninodes
      ensures DiskInode(sb, s3.blocks, j) == if j == i then s2.live[i] else DiskInode(sb, s0.blocks, j)
    {
      StoredDisk(sb, s2, i, s2.live[i], j);
    }
    DropKeeps(sb, s3, i);
    DropOthers(sb, s0, s3, i);
    assert s3.live - {i} == s0.live - {i};
  }

  lemma EmptySize(blocks: map<nat, Block>, ino: Inode)
    requires Empty(ino)
    ensures SizeOk(blocks, ino)
  {
  }

  lemma SetOthers(sb: Superblock, s0: State, s: State, i: nat, ino: Inode)
    requires OthersSame(sb, s0, s, i)
    ensures OthersSame(sb, s0, SetInode(s, i, ino), i)
  {
    hide DiskInode, DataBlock;
    var s' := SetInode(s, i, ino);
    forall j, o: nat | 0 <= j < sb.ninodes && j != i
      ensures ByteAt(sb, s', j, o) == ByteAt(sb, s0, j, o)
    {
      assert ByteAt(sb, s, j, o) == ByteAt(sb, s0, j, o);
    }
  }

  /** A cached inode that is on disk as well can be forgotten. */
  lemma DropKeeps(sb: Superblock, s: State, i: nat)
    requires Inv(sb, s) && i in s.live && DiskInode(sb, s.blocks, i) == s.live[i]
    ensures var s' := s.(live := s.live - {i}); Inv(sb, s') && forall j :: Eff(sb, s', j) == Eff(sb, s, j)
  {
    hide DiskInode, DataBlock, WordAt;
    var s' := s.(live := s.live - {i});
    assert forall j :: Eff(sb, s', j) == Eff(sb, s, j);
    forall b | b in s'.owner
      ensures BackOk(sb, s', b, s'.owner[b])
    {
      assert BackOk(sb, s, b, s.owner[b]);
    }
  }

  lemma DropOthers(sb: Superblock, s0: State, s: State, i: nat)
    requires OthersSame(sb, s0, s, i)
    ensures OthersSame(sb, s0, s.(live := s.live - {i}), i)
  {
    hide DiskInode, DataBlock;
    var s' := s.(live := s.live - {i});
    forall j, o: nat | 0 <= j < sb.ninodes && j != i
      ensures ByteAt(sb, s', j, o) == ByteAt(sb, s0, j, o)
    {
      assert ByteAt(sb, s, j, o) == ByteAt(sb, s0, j, o);
    }
  }

  lemma CutLive(sb: Superblock, s0: State, s: State, i: nat)
    requires Cut(sb, s0, s, i, NDIRECT, 0)
    ensures i in s.live && s.live[i].addrs[NDIRECT] == s0.live[i].addrs[NDIRECT]
  {
  }

  lemma CutIn(sb: Superblock, s0: State, s: State, i: nat)
    requires Cut(sb, s0, s, i, NDIRECT + 1, NINDIRECT)
    ensures i in s.live
  {
  }

  /** The truncated inode goes to disk. */
  lemma TruncFacts(sb: Superblock, s0: State, s1: State, i: nat)
    requires Inv(sb, s0) && Cut(sb, s0, s1, i, NDIRECT + 1, NINDIRECT) && i in s1.live
    requires Inv(sb, Cleared(s1, i)) && Emptied(sb, s0, Cleared(s1, i), i)
    ensures var s2 := Cleared(s1, i); var s3 := Stored(sb, s2, i, s2.live[i]);
      Inv(sb, s3) && Emptied(sb, s0, s3, i) && Persisted(sb, s0, s3, i)
  {
    hide Inv, DiskInode, PutInode, Retired, BitsOnly, MapOk, Zeroed;
    var s2 := Cleared(s1, i);
    var s3 := Stored(sb, s2, i, s2.live[i]);
    StoredKeeps(sb, s2, i);
    StoredOthers(sb, s0, s2, i);
    forall j | 0 <= j < sb.ninodes
      ensures DiskInode(sb, s3.blocks, j) == if j == i then s3.live[i] else DiskInode(sb, s0.blocks, j)
    {
      StoredDisk(sb, s2, i, s2.live[i], j);
      CutDisk(sb, s0, s1, i, j);
    }
    ReadyBounds(sb, s2, i);
  }

  lemma StoredOthers(sb: Superblock, s0: State, s: State, i: nat)
    requires Inv(sb, s) && i in s.live && OthersSame(sb, s0, s, i)
    ensures OthersSame(sb, s0, Stored(sb, s, i, s.live[i]), i)
  {
    hide DiskInode, DataBlock, PutInode;
    var s' := Stored(sb, s, i, s.live[i]);
    StoredExtends(sb, s, i);
    forall j | 0 <= j < sb.ninodes && j != i
      ensures Eff(sb, s', j) == Eff(sb, s0, j)
    {
      StoredEff(sb, s, i, j);
    }
    forall j, o: nat | 0 <= j < sb.ninodes && j != i
      ensures ByteAt(sb, s', j, o) == ByteAt(sb, s0, j, o)
    {
      StoredEff(sb, s, i, j);
      IndirectArea(sb, s, j);
      Regions(sb, i, 0);
      DataSame(s.blocks, s'.blocks, Eff(sb, s, j), o / BSIZE);
      if DataBlock(s.blocks, Eff(sb, s, j), o / BSIZE) != 0 {
        DataRoleOf(sb, s, j, o / BSIZE);
        assert Kept(sb, s, s', j, o / BSIZE);
      }
      assert ByteAt(sb, s, j, o) == ByteAt(sb, s0, j, o);
    }
  }

  const CHUNK: nat := (A.MAXOPBLOCKS - 1 - 1 - 2) / 2 * BSIZE

  /** What a completed writei promises: the bytes, the size, the other files, and the inode on disk. */
  ghost predicate WriteDone(sb: Superblock, s: State, s': State, i: nat, off: nat, src: seq<Byte>) {
    && i in s.live && Ready(sb, s', i) && Written(sb, s, s', i, off, src) && Persisted(sb, s, s', i)
    && s'.live[i].size == if off + |src| > s.live[i].size then off + |src| else s.live[i].size
  }

  /** What itrunc promises. */
  ghost predicate TruncDone(sb: Superblock, s: State, s': State, i: nat) {
    Inv(sb, s') && Emptied(sb, s, s', i) && Persisted(sb, s, s', i)
  }

  /** What the iput that frees inode i promises. */
  ghost predicate PutDone(sb: Superblock, s: State, s': State, i: nat) {
    && Inv(sb, s') && Discarded(sb, s, s', i) && s'.live == s.live - {i}
    && forall j :: 0 <= j < sb.ninodes && j != i ==> DiskInode(sb, s'.blocks, j) == DiskInode(sb, s.blocks, j)
  }

  datatype WriteResult = Refused | Wrote(n: nat) | OutOfBlocks

  /** At most k blocks were logged between l0 and l. */
  ghost predicate Within(l: set<nat>, l0: set<nat>, k: nat) {
    exists added: set<nat> :: l <= l0 + added && |added| <= k
  }

  /** Inode i is on disk as it is in memory, and the other inodes are untouched. */
  ghost predicate Persisted(sb: Superblock, s: State, s': State, i: nat) {
    && i in s'.live && s'.live.Keys == s.live.Keys && DiskInode(sb, s'.blocks, i) == s'.live[i]
    && (forall j :: j in s.live && j != i ==> s'.live[j] == s.live[j])
    && forall j :: 0 <= j < sb.ninodes && j != i ==> DiskInode(sb, s'.blocks, j) == DiskInode(sb, s.blocks, j)
  }

  // ---------- the loop of writei

  ghost predicate Progress(sb: Superblock, s0: State, s: State, i: nat, off: nat, bytes: seq<Byte>) {
    && Ready(sb, s, i) && Written(sb, s0, s, i, off, bytes) && SameInodes(sb, s0, s, i)
    && i in s0.live && s.live[i].size == s0.live[i].size
  }

  lemma WriteStart(sb: Superblock, s: State, i: nat, off: nat, n: nat)
    requires Ready(sb, s, i)
    ensures Progress(sb, s, s, i, off, []) && Touched(off, 0, n, 0)
    ensures forall l: set<nat> :: Accounts(s, s, i, off, l, l, Bill({}, {}, {}, 0))
  {
    ExtendsRefl(sb, s);
    ExtendsWrites(sb, s, s, i, off);
  }

  lemma ProgressReady(sb: Superblock, s0: State, s: State, i: nat, off: nat, bytes: seq<Byte>, n: nat)
    requires Progress(sb, s0, s, i, off, bytes) && |bytes| < n && off + n <= MAXFILE * BSIZE
    ensures Ready(sb, s, i) && i in s.live && (off + |bytes|) / BSIZE < MAXFILE
  {
  }

  lemma ProgressMore(sb: Superblock, s0: State, s: State, s': State, i: nat, off: nat, bytes: seq<Byte>, more: seq<Byte>)
    requires Progress(sb, s0, s, i, off, bytes) && Ready(sb, s', i) && i in s.live
    requires Written(sb, s, s', i, off + |bytes|, more) && SameInodes(sb, s, s', i) && s'.live[i].size == s.live[i].size
    ensures Progress(sb, s0, s', i, off, bytes + more)
  {
    hide Ready, Written, SameInodes;
    WrittenMore(sb, s0, s, s', i, off, bytes, more);
    SameInodesTrans(sb, s0, s, s', i);
  }

  /** What the loop has logged: data blocks, bitmap blocks, the indirect block; and how many blocks it has dealt with. */
  datatype Bill = Bill(data: set<nat>, bits: set<nat>, inds: set<nat>, count: nat)

  ghost predicate Touched(off: nat, tot: nat, n: nat, count: nat) {
    if tot == 0 then count == 0
    else count + off / BSIZE == BlocksOf(off + tot) && (tot < n ==> (off + tot) % BSIZE == 0)
  }

  /** A bitmap block is logged only for a block that was not there, or for the indirect block. */
  ghost predicate Accounts(s0: State, s: State, i: nat, off: nat, l: set<nat>, l0: set<nat>, bill: Bill) {
    && i in s0.live && i in s.live && l <= l0 + bill.data + bill.bits + bill.inds
    && |bill.data| <= bill.count && |bill.inds| <= 1 && bill.inds <= {s.live[i].addrs[NDIRECT] as int}
    && (bill.count == 0 ==> s == s0 && bill.bits == {})
    && (s0.live[i].addrs[NDIRECT] != 0 ==> s.live[i].addrs[NDIRECT] == s0.live[i].addrs[NDIRECT])
    && (s.live[i].addrs[NDIRECT] == 0 ==> bill.inds == {})
    && |bill.bits| + Credit(s0, i, off, bill.count) <= bill.count + NewInd(s0, s, i)
  }

  function Credit(s0: State, i: nat, off: nat, count: nat): nat
    requires i in s0.live
  {
    if count > 0 && DataBlock(s0.blocks, s0.live[i], off / BSIZE) != 0 then 1 else 0
  }

  function NewInd(s0: State, s: State, i: nat): nat
    requires i in s0.live && i in s.live
  {
    if s0.live[i].addrs[NDIRECT] == 0 && s.live[i].addrs[NDIRECT] != 0 then 1 else 0
  }

  lemma UnionSize(a: set<nat>, b: set<nat>)
    ensures |a + b| <= |a| + |b|
  {
    assert a + b == a + (b - a) && |a + (b - a)| == |a| + |b - a|;
    assert |b - a| <= |b| by { Finite.SubsetSize(b - a, b); }
  }

  /** The next block starts where the last one ended. */
  lemma TouchedMore(off: nat, tot: nat, n: nat, m: nat, count: nat)
    requires Touched(off, tot, n, count) && tot < n && 0 < m <= BSIZE - (off + tot) % BSIZE && tot + m <= n
    requires tot + m == n || m == BSIZE - (off + tot) % BSIZE
    ensures Touched(off, tot + m, n, count + 1) && (count == 0 ==> tot == 0)
  {
    var o := off + tot;
    assert o == o / BSIZE * BSIZE + o % BSIZE;
    if tot > 0 {
      assert o % BSIZE == 0 && BlocksOf(o) == o / BSIZE;
    }
    assert BlocksOf(o + m) == o / BSIZE + 1;
    if tot + m < n {
      assert o + m == (o / BSIZE + 1) * BSIZE;
    }
  }

  lemma AccountsMore(s0: State, s: State, s': State, i: nat, off: nat, tot: nat, n: nat, m: nat,
                     l: set<nat>, l': set<nat>, l0: set<nat>, bill: Bill, addr: nat, bits: set<nat>) returns (bill': Bill)
    requires Accounts(s0, s, i, off, l, l0, bill) && i in s'.live && Touched(off, tot, n, bill.count)
    requires tot < n && 0 < m <= BSIZE - (off + tot) % BSIZE && tot + m <= n
    requires tot + m == n || m == BSIZE - (off + tot) % BSIZE
    requires var bn := (off + tot) / BSIZE;
      && l' <= l + bits + {addr} + Indirects(s'.live[i], bn) && |bits| <= NewBits(s.blocks, s.live[i], bn)
      && (bn >= NDIRECT ==> s'.live[i].addrs[NDIRECT] != 0)
      && (s.live[i].addrs[NDIRECT] != 0 || bn < NDIRECT ==> s'.live[i].addrs[NDIRECT] == s.live[i].addrs[NDIRECT])
    ensures Accounts(s0, s', i, off, l', l0, bill') && Touched(off, tot + m, n, bill'.count)
  {
    var bn := (off + tot) / BSIZE;
    TouchedMore(off, tot, n, m, bill.count);
    var inds := Indirects(s'.live[i], bn);
    bill' := Bill(bill.data + {addr}, bill.bits + bits, bill.inds + inds, bill.count + 1);
    BillSets(l, l', l0, bill, addr, bits, inds);
    BillInds(bill.inds, inds, s.live[i].addrs[NDIRECT], s'.live[i].addrs[NDIRECT]);
    BillBits(s0, s, s', i, off, bill, bits, bn);
  }

  lemma BillSets(l: set<nat>, l': set<nat>, l0: set<nat>, bill: Bill, addr: nat, bits: set<nat>, inds: set<nat>)
    requires l <= l0 + bill.data + bill.bits + bill.inds && l' <= l + bits + {addr} + inds
    ensures l' <= l0 + (bill.data + {addr}) + (bill.bits + bits) + (bill.inds + inds)
    ensures |bill.data + {addr}| <= |bill.data| + 1 && |bill.bits + bits| <= |bill.bits| + |bits|
  {
    UnionSize(bill.data, {addr});
    UnionSize(bill.bits, bits);
  }

  lemma BillInds(inds: set<nat>, more: set<nat>, ind: nat, ind': nat)
    requires inds <= {ind} && more <= {ind'} && (inds != {} ==> ind' == ind)
    ensures inds + more <= {ind'} && |inds + more| <= 1
  {
    Finite.SubsetSize(inds + more, {ind'});
  }

  lemma BillBits(s0: State, s: State, s': State, i: nat, off: nat, bill: Bill, bits: set<nat>, bn: nat)
    requires i in s0.live && i in s.live && i in s'.live
    requires |bill.bits| + Credit(s0, i, off, bill.count) <= bill.count + NewInd(s0, s, i)
    requires bill.count == 0 ==> s == s0 && bill.bits == {} && bn == off / BSIZE
    requires |bits| <= NewBits(s.blocks, s.live[i], bn) && (bn >= NDIRECT ==> s'.live[i].addrs[NDIRECT] != 0)
    requires s0.live[i].addrs[NDIRECT] != 0 ==> s.live[i].addrs[NDIRECT] == s0.live[i].addrs[NDIRECT]
    requires s.live[i].addrs[NDIRECT] != 0 || bn < NDIRECT ==> s'.live[i].addrs[NDIRECT] == s.live[i].addrs[NDIRECT]
    ensures |bill.bits| + |bits| + Credit(s0, i, off, bill.count + 1) <= bill.count + 1 + NewInd(s0, s', i)
    ensures s0.live[i].addrs[NDIRECT] != 0 ==> s'.live[i].addrs[NDIRECT] == s0.live[i].addrs[NDIRECT]
  {
    hide DataBlock;
  }

  /** At most four data blocks, four bitmap blocks, the indirect block and the inode's block. */
  lemma BillFacts(s0: State, s: State, i: nat, off: nat, n: nat, l: set<nat>, l0: set<nat>, bill: Bill, ib: nat)
    requires Accounts(s0, s, i, off, l, l0, bill) && Touched(off, n, n, bill.count)
    requires off % BSIZE != 0 ==> DataBlock(s0.blocks, s0.live[i], off / BSIZE) != 0
    ensures n <= CHUNK ==> Within(l + {ib}, l0, A.MAXOPBLOCKS)
  {
    if n <= CHUNK {
      BillCount(s0, s, i, off, n, l, l0, bill);
      BillWithin(l, l0, bill, ib);
    }
  }

  lemma BillCount(s0: State, s: State, i: nat, off: nat, n: nat, l: set<nat>, l0: set<nat>, bill: Bill)
    requires Accounts(s0, s, i, off, l, l0, bill) && Touched(off, n, n, bill.count) && n <= CHUNK
    requires off % BSIZE != 0 ==> DataBlock(s0.blocks, s0.live[i], off / BSIZE) != 0
    ensures |bill.data| <= 4 && |bill.bits| <= 4 && |bill.inds| <= 1
  {
    hide DataBlock, Touched;
    ChunkBlocks(off, n, bill.count);
  }

  lemma BillWithin(l: set<nat>, l0: set<nat>, bill: Bill, ib: nat)
    requires l <= l0 + bill.data + bill.bits + bill.inds && |bill.data| <= 4 && |bill.bits| <= 4 && |bill.inds| <= 1
    ensures Within(l + {ib}, l0, A.MAXOPBLOCKS)
  {
    hide Within;
    var a := bill.data + bill.bits;
    var b := bill.inds + {ib};
    UnionSize(bill.data, bill.bits);
    UnionSize(bill.inds, {ib});
    UnionSize(a, b);
    WithinBy(l + {ib}, l0, a + b, A.MAXOPBLOCKS);
  }

  lemma WithinBy(l: set<nat>, l0: set<nat>, added: set<nat>, k: nat)
    requires l <= l0 + added && |added| <= k
    ensures Within(l, l0, k)
  {
  }

  lemma ChunkBlocks(off: nat, n: nat, count: nat)
    requires Touched(off, n, n, count) && n <= CHUNK
    ensures count <= 4 && (off % BSIZE == 0 ==> count <= 3)
  {
    assert CHUNK == 3 * BSIZE;
  }

  // ---------- after the loop

  /** The new size is covered by blocks. */
  lemma SizeFacts(sb: Superblock, s0: State, s: State, i: nat, off: nat, src: seq<Byte>)
    requires Ready(sb, s0, i) && Progress(sb, s0, s, i, off, src) && off <= s0.live[i].size && off + |src| <= MAXFILE * BSIZE
    ensures i in s.live && Inv(sb, s) && s.live[i].size == s0.live[i].size
    ensures off % BSIZE != 0 ==> DataBlock(s0.blocks, s0.live[i], off / BSIZE) != 0
    ensures off + |src| > s.live[i].size ==>
      off + |src| < UINT_LIMIT && Inv(sb, SetInode(s, i, s.live[i].(size := off + |src|)))
  {
    hide DataBlock, DiskInode;
    ReadyIs(sb, s, i);
    var ino := s.live[i].(size := off + |src|);
    assert InodeOk(s.blocks, s.owner, i, Eff(sb, s, i));
    if off + |src| > s.live[i].size {
      forall bn | 0 <= bn < BlocksOf(off + |src|)
        ensures DataBlock(s.blocks, ino, bn) != 0
      {
        DataOfAddrs(s.blocks, ino, s.live[i], bn);
        if bn < BlocksOf(s.live[i].size) {
          assert DataBlock(s.blocks, s.live[i], bn) != 0;
        } else {
          assert off <= bn * BSIZE < off + |src|;
          assert WrittenAt(sb, s0, s, i, off, src, i, bn * BSIZE);
        }
      }
      SetInodeKeeps(sb, s, i, ino);
    }
    if off % BSIZE != 0 {
      MappedBelow(sb, s0, i, off - 1);
      assert (off - 1) / BSIZE == off / BSIZE;
    }
  }

  lemma DataOfAddrs(blocks: map<nat, Block>, x: Inode, y: Inode, bn: nat)
    requires x.addrs == y.addrs
    ensures DataBlock(blocks, x, bn) == DataBlock(blocks, y, bn)
  {
  }

  lemma StoreFacts(sb: Superblock, s0: State, s1: State, s2: State, i: nat, off: nat, src: seq<Byte>)
    requires Progress(sb, s0, s1, i, off, src) && i in s1.live && Inv(sb, s2) && i in s2.live
    requires s2 == s1 || exists size: Uint :: s2 == SetInode(s1, i, s1.live[i].(size := size))
    ensures var s3 := Stored(sb, s2, i, s2.live[i]);
      Ready(sb, s3, i) && Written(sb, s0, s3, i, off, src) && Persisted(sb, s0, s3, i)
  {
    hide Written, Inv, DiskInode, PutInode;
    var s3 := Stored(sb, s2, i, s2.live[i]);
    StoredKeeps(sb, s2, i);
    ExtendsWrites(sb, s2, s3, i, off + |src|);
    if s2 == s1 {
      WrittenMore(sb, s0, s1, s3, i, off, src, []);
    } else {
      var size: Uint :| s2 == SetInode(s1, i, s1.live[i].(size := size));
      ResizeWrites(sb, s1, i, size, off + |src|);
      WrittenMore(sb, s0, s1, s2, i, off, src, []);
      assert src + [] == src;
      WrittenMore(sb, s0, s2, s3, i, off, src, []);
    }
    assert src + [] == src;
    forall j | 0 <= j < sb.ninodes
      ensures DiskInode(sb, s3.blocks, j) == if j == i then s3.live[i] else DiskInode(sb, s0.blocks, j)
    {
      StoredDisk(sb, s2, i, s2.live[i], j);
    }
    ReadyBounds(sb, s2, i);
  }

  lemma ReadyBounds(sb: Superblock, s: State, i: nat)
    requires Inv(sb, s) && i in s.live
    ensures i < sb.ninodes
  {
  }

  ghost predicate Reads(sb: Superblock, s: State, i: nat, off: nat, data: seq<Byte>) {
    forall t :: 0 <= t < |data| ==> ByteAt(sb, s, i, off + t) == Some(data[t])
  }

  lemma ReadsNone(sb: Superblock, s: State, i: nat, off: nat)
    ensures Reads(sb, s, i, off, [])
  {
  }

  /** A block below the size of a file is there, so reading allocates nothing. */
  lemma MappedBelow(sb: Superblock, s: State, i: nat, o: nat)
    requires Ready(sb, s, i) && o < s.live[i].size
    ensures var c := DataBlock(s.blocks, s.live[i], o / BSIZE); c != 0 && c in s.blocks
  {
    ReadyIs(sb, s, i);
    assert InodeOk(s.blocks, s.owner, i, Eff(sb, s, i));
    assert o / BSIZE < BlocksOf(s.live[i].size);
    DataRoleOf(sb, s, i, o / BSIZE);
    InDataArea(sb, s, DataBlock(s.blocks, s.live[i], o / BSIZE));
  }

  lemma ReadsMore(sb: Superblock, s: State, i: nat, off: nat, data: seq<Byte>, m: nat)
    requires Ready(sb, s, i) && Reads(sb, s, i, off, data)
    requires var o := off + |data|; var c := DataBlock(s.blocks, s.live[i], o / BSIZE);
      o % BSIZE + m <= BSIZE && c in s.blocks && c != 0
    ensures var o := off + |data|; var c := DataBlock(s.blocks, s.live[i], o / BSIZE);
      Reads(sb, s, i, off, data + s.blocks[c][o % BSIZE..o % BSIZE + m])
  {
    hide DataBlock;
    ReadyIs(sb, s, i);
    var o := off + |data|;
    var c := DataBlock(s.blocks, s.live[i], o / BSIZE);
    var all := data + s.blocks[c][o % BSIZE..o % BSIZE + m];
    forall t | 0 <= t < |all|
      ensures ByteAt(sb, s, i, off + t) == Some(all[t])
    {
      if t >= |data| {
        SameBlock(o, t - |data|);
      }
    }
  }

  lemma SameBlock(o: nat, t: nat)
    requires o % BSIZE + t < BSIZE
    ensures (o + t) / BSIZE == o / BSIZE && (o + t) % BSIZE == o % BSIZE + t
  {
  }

  lemma InodeBlockThere(sb: Superblock, s: State, i: nat)
    requires Inv(sb, s) && i in s.live
    ensures InodeBlock(sb, i) in s.blocks
  {
    Regions(sb, i, 0);
  }

  /** How many bitmap blocks bmap may log for block bn. */
  function NewBits(blocks: map<nat, Block>, ino: Inode, bn: nat): nat {
    if DataBlock(blocks, ino, bn) != 0 then 0
    else 1 + if bn >= NDIRECT && ino.addrs[NDIRECT] == 0 then 1 else 0
  }

  lemma WriteFacts(sb: Superblock, s0: State, s1: State, i: nat, o: nat, bytes: seq<Byte>, addr: nat)
    requires Ready(sb, s1, i) && Extends(sb, s0, s1) && SameInodes(sb, s0, s1, i)
    requires i in s0.live && Eff(sb, s0, i) == s0.live[i]
    requires DataBlock(s1.blocks, s1.live[i], o / BSIZE) == addr != 0 && o % BSIZE + |bytes| <= BSIZE
    ensures addr in s1.blocks && s1.live[i].size == s0.live[i].size
    ensures var s2 := PutData(s1, addr, Splice(s1.blocks[addr], o % BSIZE, bytes));
      && Ready(sb, s2, i) && Written(sb, s0, s2, i, o, bytes) && SameInodes(sb, s0, s2, i)
      && DataBlock(s2.blocks, s2.live[i], o / BSIZE) != 0
  {
    hide Written, DataBlock, Splice, ReadInode;
    ReadyIs(sb, s1, i);
    assert SameAttr(Eff(sb, s0, i), Eff(sb, s1, i));
    DataRoleOf(sb, s1, i, o / BSIZE);
    InDataArea(sb, s1, addr);
    var v := Splice(s1.blocks[addr], o % BSIZE, bytes);
    var s2 := PutData(s1, addr, v);
    DataKeeps(sb, s1, i, o / BSIZE, addr, v);
    DataWrites(sb, s1, i, o / BSIZE, addr, o % BSIZE, bytes);
    ExtendsWrites(sb, s0, s1, i, o);
    WrittenMore(sb, s0, s1, s2, i, o, [], bytes);
    assert [] + bytes == bytes;
    DataEff(sb, s1, i, o / BSIZE, addr, v, i);
    DataSame(s1.blocks, s2.blocks, s1.live[i], o / BSIZE);
    forall j | 0 <= j < sb.ninodes
      ensures DiskInode(sb, s2.blocks, j) == DiskInode(sb, s0.blocks, j)
    {
      Regions(sb, j, 0);
    }
  }

  /** The indirect block, when block bn is reached through it. */
  function Indirects(ino: Inode, bn: nat): set<nat> {
    if bn < NDIRECT then {} else {ino.addrs[NDIRECT] as int}
  }

  lemma IndirectReady(sb: Superblock, s: State, i: nat)
    requires Ready(sb, s, i) && s.live[i].addrs[NDIRECT] != 0
    ensures s.live[i].addrs[NDIRECT] in s.blocks
  {
    IndirectThere(sb, s, i);
  }

  lemma SameInodesRefl(sb: Superblock, s: State, i: nat)
    ensures SameInodes(sb, s, s, i)
  {
  }

  lemma SameInodesTrans(sb: Superblock, s: State, s': State, s'': State, i: nat)
    requires SameInodes(sb, s, s', i) && SameInodes(sb, s', s'', i)
    ensures SameInodes(sb, s, s'', i)
  {
  }

  ghost predicate NoneFree(owner: map<nat, Role>) {
    forall b :: b in owner ==> !owner[b].Free?
  }

  /** The invariant, with inode i cached and in use. */
  ghost predicate Ready(sb: Superblock, s: State, i: nat) {
    Inv(sb, s) && NoLoose(s.owner) && i in s.live && s.live[i].kind != 0
  }

  lemma ReadyIs(sb: Superblock, s: State, i: nat)
    requires Ready(sb, s, i)
    ensures Inv(sb, s) && i in s.live && i < sb.ninodes && Eff(sb, s, i) == s.live[i]
  {
  }

  lemma TookFresh(sb: Superblock, s: State, i: nat, r: nat)
    requires Ready(sb, s, i) && MayTake(sb, s, r)
    ensures Fresh(sb, Took(sb, s, r), i, r) && r < UINT_LIMIT && r != 0
  {
    TookKeeps(sb, s, r);
    FreshFacts(sb, Took(sb, s, r), i, r);
  }

  /** The inode blocks are not touched. */
  lemma TookDisk(sb: Superblock, s: State, r: nat, j: nat)
    requires MayTake(sb, s, r) && j < sb.ninodes
    ensures DiskInode(sb, Took(sb, s, r).blocks, j) == DiskInode(sb, s.blocks, j)
  {
    Regions(sb, j, r);
    InDataArea(sb, s, r);
    TookBlocks(sb, s, r, InodeBlock(sb, j));
  }

  lemma SlotGained(sb: Superblock, s: State, i: nat, k: nat, r: nat)
    requires Ready(sb, s, i) && MayTake(sb, s, r) && k <= NDIRECT && s.live[i].addrs[k] == 0
    ensures r < UINT_LIMIT && r != 0
    ensures var s' := AttachSlot(Took(sb, s, r), i, k, r);
      Ready(sb, s', i) && Extends(sb, s, s') && SameInodes(sb, s, s', i)
  {
    hide Inv, Extends, DiskInode;
    TookFresh(sb, s, i, r);
    var t := Took(sb, s, r);
    SlotKeeps(sb, t, i, k, r);
    TookExtends(sb, s, r);
    SlotExtends(sb, t, i, k, r);
    var s' := AttachSlot(t, i, k, r);
    ExtendsTrans(sb, s, t, s');
    forall j | 0 <= j < sb.ninodes
      ensures DiskInode(sb, s'.blocks, j) == DiskInode(sb, s.blocks, j)
    {
      TookDisk(sb, s, r, j);
    }
  }

  lemma EntryGained(sb: Superblock, s: State, i: nat, k: nat, r: nat)
    requires Ready(sb, s, i) && MayTake(sb, s, r) && k < NINDIRECT && s.live[i].addrs[NDIRECT] != 0
    requires EntryWord(s.blocks, s.live[i].addrs[NDIRECT], k) == 0
    ensures r < UINT_LIMIT && r != 0
    ensures var s' := AttachEntry(Took(sb, s, r), i, k, r); var ind := s.live[i].addrs[NDIRECT];
      && Ready(sb, s', i) && Extends(sb, s, s') && SameInodes(sb, s, s', i)
      && ind in Took(sb, s, r).blocks && EntryWord(s'.blocks, ind, k) == r
  {
    hide Inv, Extends, DiskInode, WordAt, Took;
    TookFresh(sb, s, i, r);
    TookEff(sb, s, r, i) by { ReadyIs(sb, s, i); }
    TookLive(sb, s, r);
    var t := Took(sb, s, r);
    var ind := s.live[i].addrs[NDIRECT];
    EntryKeeps(sb, t, i, k, r);
    TookExtends(sb, s, r);
    EntryExtends(sb, t, i, k, r);
    var s' := AttachEntry(t, i, k, r);
    ExtendsTrans(sb, s, t, s');
    IndirectThere(sb, t, i);
    forall j | 0 <= j < sb.ninodes
      ensures DiskInode(sb, s'.blocks, j) == DiskInode(sb, s.blocks, j)
    {
      TookDisk(sb, s, r, j);
      IndirectNotInode(sb, t, i, PutWord(At(t.blocks, ind), k, r), j);
    }
  }

  lemma TookLive(sb: Superblock, s: State, r: nat)
    ensures Took(sb, s, r).live == s.live && Took(sb, s, r).owner == s.owner[r := Loose]
  {
  }

  lemma IndirectThere(sb: Superblock, s: State, i: nat)
    requires Inv(sb, s) && i in s.live && s.live[i].addrs[NDIRECT] != 0
    ensures s.live[i].addrs[NDIRECT] in s.blocks
  {
    IndirectArea(sb, s, i);
  }

  lemma IndirectNotInode(sb: Superblock, s: State, i: nat, v: Block, j: nat)
    requires Inv(sb, s) && i in s.live && s.live[i].addrs[NDIRECT] != 0 && j < sb.ninodes
    ensures DiskInode(sb, s.blocks[s.live[i].addrs[NDIRECT] := v], j) == DiskInode(sb, s.blocks, j)
  {
    hide ReadInode;
    IndirectArea(sb, s, i);
    Regions(sb, j, 0);
  }

  /** Clear bits are those of free blocks, and block 0 is none of them. */
  lemma BallocFacts(sb: Superblock, s: State)
    requires Inv(sb, s)
    ensures WellSb(sb) && Present(sb, s.blocks) && (forall b :: b in s.owner <==> 0 <= b < sb.size)
    ensures forall b :: 0 <= b < sb.size ==> (Bit(sb, s.blocks, b) <==> !s.owner[b].Free?)
    ensures Bit(sb, s.blocks, 0)
  {
    hide Bit;
    forall b | 0 <= b < sb.size
      ensures Bit(sb, s.blocks, b) <==> !s.owner[b].Free?
    {
      assert BitOk(sb, s.blocks, s.owner, b);
    }
    assert BitOk(sb, s.blocks, s.owner, 0);
  }

  lemma TookIs(sb: Superblock, s: State, r: nat)
    requires WellSb(sb) && r < sb.size && Present(sb, s.blocks)
    ensures var bb := BitBlock(sb, r);
      && bb in s.blocks && At(s.blocks, bb) == s.blocks[bb]
      && Took(sb, s, r).blocks == s.blocks[bb := PutBit(s.blocks[bb], r % BPB, true)][r := ZeroBlock()]
      && Took(sb, s, r) == State(Took(sb, s, r).blocks, s.live, s.owner[r := Loose])
  {
    Regions(sb, 0, r);
  }
}
