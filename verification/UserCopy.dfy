/**
  copyin and copyout (kernel/vm.c) on flat user memory, and the isolation of processes: what a table
  reads depends only on what was written through that table.
 */
module UserCopy {
  import opened Layout
  import opened PageTable
  import opened PageSteps
  import opened Kalloc
  import opened Vm
  import opened UserPages
  import opened Uvm
  import opened UvmAlloc
  import opened UvmCopy

  /** The page walkaddr finds for virtual page v, or 0. */
  function UserPage(pages: map<nat, Page>, root: nat, v: nat): nat {
    if v < MAXVPN && V(Pte(pages, root, v)) && U(Pte(pages, root, v)) then Ppn(Pte(pages, root, v)) else 0
  }

  function ByteIn(pages: map<nat, Page>, n: nat, k: nat): MaybeByte {
    if n != 0 && n in pages && pages[n].Bytes? && k < |pages[n].data| then Some(pages[n].data[k]) else None
  }

  /** The byte a process sees at an address of its own. */
  function UserByte(pages: map<nat, Page>, root: nat, va: nat): MaybeByte {
    ByteIn(pages, UserPage(pages, root, va / PGSIZE), va % PGSIZE)
  }

  /** Every page a process can reach is held through the mapping it is reached by. */
  ghost predicate UserOk(s: State, root: nat) {
    forall v :: 0 <= v < MAXVPN ==> UserOkAt(s, root, v)
  }

  ghost predicate UserOkAt(s: State, root: nat, v: nat) {
    V(Pte(s.pages, root, v)) && U(Pte(s.pages, root, v)) ==> Owned(s, root, v)
  }

  method Walkaddr(m: Memory, root: nat, va: nat) returns (pa: nat)
    requires m.Valid() && IsRoot(m.owner, root)
    modifies m
    ensures m.Valid() && m.View() == old(m.View()) && pa == UserPage(m.pages, root, va / PGSIZE) * PGSIZE
    ensures var w := Pte(m.pages, root, va / 4096);
      pa == if va < 0x40_0000_0000 && w % 2 == 1 && w / 16 % 2 == 1 then w / 1024 * 4096 else 0
  {
    hide Inv, SameMaps, Grown;
    if va >= MAXVA {
      return 0;
    }
    var pte := Walk(m, root, va, false);
    ZeroPath(m.View(), root, va / PGSIZE);
    if !pte.At? {
      return 0;
    }
    LowEntry(m.View(), root, va / PGSIZE);
    var w := m.pages[pte.table].entries[pte.index];
    if !V(w) {
      return 0;
    }
    if !U(w) {
      return 0;
    }
    pa := PteToPa(w);
    assert pa == Ppn(w) * PGSIZE by { PaOfPpn(w); }
  }

  lemma PaOfPpn(w: nat)
    ensures PteToPa(w) == Ppn(w) * PGSIZE
  {
  }

  /** The page behind a user address is all there. */
  lemma ReachedPage(s: State, root: nat, v: nat)
    requires Inv(s) && UserOk(s, root) && UserPage(s.pages, root, v) != 0
    ensures var n := UserPage(s.pages, root, v);
      && v < MAXVPN && Owned(s, root, v) && n == Ppn(Pte(s.pages, root, v))
      && n in s.owner && s.owner[n].Leaf? && IsBytes(s.pages, n)
  {
    assert UserOkAt(s, root, v);
    assert RoleOk(s, UserPage(s.pages, root, v));
  }

  /** The bytes from va on, as the process sees them. */
  ghost predicate ReadsAs(pages: map<nat, Page>, root: nat, va: nat, bytes: seq<Byte>) {
    forall i :: 0 <= i < |bytes| ==> UserByte(pages, root, va + i) == Some(bytes[i])
  }

  lemma ReadMore(pages: map<nat, Page>, root: nat, va: nat, bytes: seq<Byte>, n: nat, off: nat, len: nat)
    requires ReadsAs(pages, root, va, bytes) && n == UserPage(pages, root, (va + |bytes|) / PGSIZE) != 0 && IsBytes(pages, n)
    requires off == (va + |bytes|) % PGSIZE && off + len <= PGSIZE
    ensures ReadsAs(pages, root, va, bytes + pages[n].data[off..off + len])
  {
    var more := pages[n].data[off..off + len];
    forall i | 0 <= i < |bytes + more|
      ensures UserByte(pages, root, va + i) == Some((bytes + more)[i])
    {
      if i >= |bytes| {
        SamePage(va + |bytes|, i - |bytes|);
      }
    }
  }

  lemma SamePage(a: nat, i: nat)
    requires a % PGSIZE + i < PGSIZE
    ensures (a + i) / PGSIZE == a / PGSIZE && (a + i) % PGSIZE == a % PGSIZE + i
  {
  }

  /** copyin(): the bytes the process sees, or failure exactly when one of them is out of reach. */
  method Copyin(m: Memory, root: nat, srcva: nat, len: nat) returns (ok: bool, dst: seq<Byte>)
    requires m.Valid() && IsRoot(m.owner, root) && UserOk(m.View(), root)
    modifies m
    ensures m.Valid() && m.View() == old(m.View())
    ensures ReadsAs(m.pages, root, srcva, dst) && |dst| <= len && (ok <==> |dst| == len)
    ensures !ok ==> UserByte(m.pages, root, srcva + |dst|) == None
  {
    hide Inv, UserOk, UserPage, Owned;
    dst := [];
    var va: nat, left: nat := srcva, len;
    while left > 0
      invariant m.Valid() && m.View() == old(m.View())
      invariant |dst| + left == len && ReadsAs(m.pages, root, srcva, dst) && (left > 0 ==> va == srcva + |dst|)
      decreases left
    {
      var va0 := va / PGSIZE * PGSIZE;
      var pa0 := Walkaddr(m, root, va0);
      assert va0 / PGSIZE == va / PGSIZE && va - va0 == va % PGSIZE;
      if pa0 == 0 {
        return false, dst;
      }
      var p := pa0 / PGSIZE;
      ReachedPage(m.View(), root, va / PGSIZE);
      var n := if PGSIZE - (va - va0) > left then left else PGSIZE - (va - va0);
      ReadMore(m.pages, root, srcva, dst, p, va - va0, n);
      dst := dst + m.pages[p].data[va - va0..va - va0 + n];
      left := left - n;
      va := va0 + PGSIZE;
    }
    return true, dst;
  }

  // ---------- copyout

  /** From s to s' the bytes at va of root became the given ones; every other byte any process sees is as before. */
  ghost predicate Spliced(s: State, s': State, root: nat, va: nat, bytes: seq<Byte>) {
    && s'.owner == s.owner && s'.stack == s.stack && SameMaps(s, s')
    && forall r, a: nat :: IsRoot(s.owner, r) && UserOk(s, r) ==> SplicedAt(s.pages, s'.pages, root, va, bytes, r, a)
  }

  ghost predicate SplicedAt(pages: map<nat, Page>, pages': map<nat, Page>, root: nat, va: nat, bytes: seq<Byte>, r: nat, a: nat) {
    UserByte(pages', r, a) == if r == root && va <= a < va + |bytes| then Some(bytes[a - va]) else UserByte(pages, r, a)
  }

  lemma UserOkKept(s: State, s': State, r: nat)
    requires Inv(s) && SameMaps(s, s') && s'.owner == s.owner && IsRoot(s.owner, r) && UserOk(s, r)
    ensures UserOk(s', r)
  {
    hide V, U, Ppn;
    forall v | 0 <= v < MAXVPN
      ensures UserOkAt(s', r, v)
    {
      assert SameMap(s.pages, s'.pages, r, v) && UserOkAt(s, r, v);
      ZeroPath(s, r, v);
    }
  }

  lemma SplicedNone(s: State, root: nat, va: nat)
    ensures Spliced(s, s, root, va, [])
  {
    SameMapsRefl(s);
  }

  lemma SplicedMore(s: State, s': State, s'': State, root: nat, va: nat, bytes: seq<Byte>, more: seq<Byte>)
    requires Inv(s) && Spliced(s, s', root, va, bytes) && Spliced(s', s'', root, va + |bytes|, more)
    ensures Spliced(s, s'', root, va, bytes + more)
  {
    hide Inv, SameMaps, UserByte, UserOk;
    SameMapsTrans(s, s', s'');
    forall r, a: nat | IsRoot(s.owner, r) && UserOk(s, r)
      ensures SplicedAt(s.pages, s''.pages, root, va, bytes + more, r, a)
    {
      UserOkKept(s, s', r);
      assert SplicedAt(s.pages, s'.pages, root, va, bytes, r, a);
      assert SplicedAt(s'.pages, s''.pages, root, va + |bytes|, more, r, a);
    }
  }

  function Patch(data: seq<Byte>, off: nat, bytes: seq<Byte>): seq<Byte>
    requires off + |bytes| <= |data|
  {
    data[..off] + bytes + data[off + |bytes|..]
  }

  /** Two user addresses share a page only if they lie in the same virtual page of the same table. */
  lemma PageUnshared(s: State, root: nat, v: nat, r: nat, u: nat)
    requires Inv(s) && IsRoot(s.owner, root) && IsRoot(s.owner, r) && UserOk(s, root) && UserOk(s, r)
    requires UserPage(s.pages, root, v) == UserPage(s.pages, r, u) != 0
    ensures r == root && u == v
  {
    hide Inv, UserOk, UserPage, V, Ppn;
    ReachedPage(s, root, v);
    ReachedPage(s, r, u);
    ZeroPath(s, root, v);
    PathsDiffer(s, root, v, r, u);
  }

  /** A write into one page of a process. */
  lemma PatchFacts(s: State, root: nat, va: nat, bytes: seq<Byte>)
    requires Inv(s) && IsRoot(s.owner, root) && UserOk(s, root) && UserPage(s.pages, root, va / PGSIZE) != 0
    requires va % PGSIZE + |bytes| <= PGSIZE
    ensures var n := UserPage(s.pages, root, va / PGSIZE);
      && n in s.pages && IsBytes(s.pages, n)
      && var s' := Put(s, n, Bytes(Patch(s.pages[n].data, va % PGSIZE, bytes)));
         Inv(s') && Spliced(s, s', root, va, bytes)
  {
    hide Inv, UserOk, SameMaps, UserPage, IsRoot;
    ReachedPage(s, root, va / PGSIZE);
    var n := UserPage(s.pages, root, va / PGSIZE);
    var page := Bytes(Patch(s.pages[n].data, va % PGSIZE, bytes));
    PutBytesKeeps(s, n, page);
    var s' := Put(s, n, page);
    forall r, a: nat | IsRoot(s.owner, r) && UserOk(s, r)
      ensures SplicedAt(s.pages, s'.pages, root, va, bytes, r, a)
    {
      UserPageSame(s, s', r, a / PGSIZE);
      if UserPage(s.pages, r, a / PGSIZE) == n {
        PageUnshared(s, root, va / PGSIZE, r, a / PGSIZE);
      }
      PatchByte(s.pages, n, va % PGSIZE, bytes, a, va);
    }
  }

  lemma UserPageSame(s: State, s': State, r: nat, v: nat)
    requires SameMaps(s, s') && IsRoot(s.owner, r)
    ensures UserPage(s'.pages, r, v) == UserPage(s.pages, r, v)
  {
    if v < MAXVPN {
      assert SameMap(s.pages, s'.pages, r, v);
    }
  }

  lemma PatchByte(pages: map<nat, Page>, n: nat, off: nat, bytes: seq<Byte>, a: nat, va: nat)
    requires IsBytes(pages, n) && off == va % PGSIZE && off + |bytes| <= PGSIZE && n != 0
    ensures var pages' := pages[n := Bytes(Patch(pages[n].data, off, bytes))];
      && (a / PGSIZE == va / PGSIZE ==>
           ByteIn(pages', n, a % PGSIZE) == if va <= a < va + |bytes| then Some(bytes[a - va]) else ByteIn(pages, n, a % PGSIZE))
      && (a / PGSIZE != va / PGSIZE ==> !(va <= a < va + |bytes|))
      && forall m, k: nat :: m != n ==> ByteIn(pages', m, k) == ByteIn(pages, m, k)
  {
  }

  /**
    copyout(): the bytes land at dstva of this process and nowhere else; it fails exactly when a byte is
    out of reach, having written what comes before.
   */
  method Copyout(m: Memory, root: nat, dstva: nat, src: seq<Byte>) returns (ok: bool, ghost done: nat)
    requires m.Valid() && IsRoot(m.owner, root) && UserOk(m.View(), root)
    modifies m
    ensures m.Valid() && done <= |src| && Spliced(old(m.View()), m.View(), root, dstva, src[..done])
    ensures ok <==> done == |src|
    ensures !ok ==> UserByte(old(m.pages), root, dstva + done) == None
  {
    hide Inv, UserOk, UserPage, Owned, Spliced, UserByte, SameMaps;
    ghost var s0 := m.View();
    SplicedNone(s0, root, dstva);
    var i: nat := 0;
    var va: nat, left: nat := dstva, |src|;
    while left > 0
      invariant m.Valid() && IsRoot(m.owner, root) && UserOk(m.View(), root)
      invariant i + left == |src| && Spliced(s0, m.View(), root, dstva, src[..i]) && (left > 0 ==> va == dstva + i)
      decreases left
    {
      var va0 := va / PGSIZE * PGSIZE;
      var pa0 := Walkaddr(m, root, va0);
      assert va0 / PGSIZE == va / PGSIZE && va - va0 == va % PGSIZE;
      if pa0 == 0 {
        OutOfReach(s0, m.View(), root, dstva, src[..i]);
        return false, i;
      }
      var p := pa0 / PGSIZE;
      var n := if PGSIZE - (va - va0) > left then left else PGSIZE - (va - va0);
      ghost var s := m.View();
      PatchFacts(s, root, va, src[i..i + n]);
      m.pages := m.pages[p := Bytes(Patch(m.pages[p].data, va - va0, src[i..i + n]))];
      SplicedMore(s0, s, m.View(), root, dstva, src[..i], src[i..i + n]);
      assert src[..i] + src[i..i + n] == src[..i + n];
      SplicedUser(s, m.View(), root, va, src[i..i + n]);
      i := i + n;
      left := left - n;
      va := va0 + PGSIZE;
    }
    assert src[..i] == src;
    return true, i;
  }

  lemma SplicedUser(s: State, s': State, root: nat, va: nat, bytes: seq<Byte>)
    requires Inv(s) && Spliced(s, s', root, va, bytes) && IsRoot(s.owner, root) && UserOk(s, root)
    ensures UserOk(s', root)
  {
    UserOkKept(s, s', root);
  }

  lemma OutOfReach(s0: State, s: State, root: nat, va: nat, bytes: seq<Byte>)
    requires Spliced(s0, s, root, va, bytes) && IsRoot(s0.owner, root) && UserOk(s0, root)
    requires UserPage(s.pages, root, (va + |bytes|) / PGSIZE) == 0
    ensures UserByte(s0.pages, root, va + |bytes|) == None
  {
    assert SplicedAt(s0.pages, s.pages, root, va, bytes, root, va + |bytes|);
  }

  // ---------- isolation

  datatype Write = Write(root: nat, va: nat, bytes: seq<Byte>)

  /** A run of copyouts by any processes, in any order. */
  ghost predicate IsRun(states: seq<State>, writes: seq<Write>) {
    && |states| == |writes| + 1
    && (forall i :: 0 <= i < |states| ==> Inv(states[i]))
    && forall i :: 0 <= i < |writes| ==> WriteAt(states, writes, i)
  }

  ghost predicate WriteAt(states: seq<State>, writes: seq<Write>, i: nat)
    requires |states| == |writes| + 1 && i < |writes|
  {
    Spliced(states[i], states[i + 1], writes[i].root, writes[i].va, writes[i].bytes)
  }

  /** The byte at address a of process r, from its first value and the writes made through r alone. */
  function Latest(first: MaybeByte, writes: seq<Write>, r: nat, a: nat): MaybeByte {
    if writes == [] then first
    else
      var w := writes[|writes| - 1];
      if w.root == r && w.va <= a < w.va + |w.bytes| then Some(w.bytes[a - w.va])
      else Latest(first, writes[..|writes| - 1], r, a)
  }

  /** Through any run, every process reads exactly what its own writes made of its own memory. */
  lemma {:induction false} ProcessesIsolated(states: seq<State>, writes: seq<Write>, r: nat, a: nat)
    requires IsRun(states, writes) && IsRoot(states[0].owner, r) && UserOk(states[0], r)
    ensures var last := states[|writes|];
      && IsRoot(last.owner, r) && UserOk(last, r)
      && UserByte(last.pages, r, a) == Latest(UserByte(states[0].pages, r, a), writes, r, a)
  {
    hide Inv, UserOk, UserByte, SameMaps;
    if writes != [] {
      var k := |writes| - 1;
      var ss, ws := states[..k + 1], writes[..k];
      ProcessesIsolated(ss, ws, r, a) by {
        forall i | 0 <= i < k
          ensures WriteAt(ss, ws, i)
        {
          assert WriteAt(states, writes, i);
        }
      }
      assert WriteAt(states, writes, k);
      assert SplicedAt(states[k].pages, states[k + 1].pages, writes[k].root, writes[k].va, writes[k].bytes, r, a);
      UserOkKept(states[k], states[k + 1], r);
    }
  }

  /** V and U are among the ten flag bits. */
  lemma BitsOfFlags(w: nat)
    ensures V(w) <==> V(Flags(w))
    ensures U(w) <==> U(Flags(w))
  {
    var q, f := w / 1024, w % 1024;
    assert w == q * 1024 + f;
    ValidBit(q, f);
    UserBit(q, f);
  }

  lemma ValidBit(q: nat, f: nat)
    ensures (q * 1024 + f) % 2 == f % 2
  {
  }

  lemma UserBit(q: nat, f: nat)
    ensures (q * 1024 + f) / 16 % 2 == f / 16 % 2
  {
    assert (q * 1024 + f) / 16 == q * 64 + f / 16;
  }

  /** A held page outside the range added to the child stays held. */
  lemma OwnedAdded(s0: State, s: State, child: nat, w: seq<nat>, r: nat, v: nat)
    requires Inv(s0) && Added(s0, s, child, 0, w) && IsRoot(s0.owner, r) && v < MAXVPN && (r == child ==> v >= |w|)
    ensures Pte(s.pages, r, v) == Pte(s0.pages, r, v)
    ensures Owned(s0, r, v) ==> Owned(s, r, v) && PageOf(s.pages, r, v) == PageOf(s0.pages, r, v)
  {
    hide Inv, V, Ppn, Flags, HeldIn, Rewritten, Gained;
    assert Pte(s.pages, r, v) == Pte(s0.pages, r, v) by { PteAdded(s0, s, child, w, r, v); }
    if Owned(s0, r, v) {
      OwnedBytes(s0, r, v);
      BackedKept(s0, s, child, 0, w, |w|, r, v, Flags(Pte(s0.pages, r, v)), PageOf(s0.pages, r, v));
    }
  }

  lemma PteAdded(s0: State, s: State, child: nat, w: seq<nat>, r: nat, v: nat)
    requires Rewritten(s0, s, child, 0, w) && IsRoot(s0.owner, r) && v < MAXVPN && (r == child ==> v >= |w|)
    ensures Pte(s.pages, r, v) == Pte(s0.pages, r, v)
  {
    assert RewrittenAt(s0.pages, s.pages, child, 0, w, r, v);
  }

  /** After uvmcopy both processes still reach only pages of their own. */
  lemma ForkUserOk(s0: State, s: State, parent: nat, child: nat, w: seq<nat>, r: nat)
    requires Inv(s0) && Added(s0, s, child, 0, w) && CopiedUpto(s0, s, parent, child, |w|)
    requires IsRoot(s0.owner, r) && UserOk(s0, r)
    ensures UserOk(s, r)
  {
    hide Inv, V, U, Ppn, Flags, Added, Pte;
    forall v | 0 <= v < MAXVPN
      ensures UserOkAt(s, r, v)
    {
      assert UserOkAt(s0, r, v);
      if r == child && v < |w| {
        assert Copied(s0, s, parent, child, v);
      } else {
        OwnedAdded(s0, s, child, w, r, v);
      }
    }
  }

  /** After uvmcopy the child reads below sz what the parent did. */
  lemma ForkSameBytes(s0: State, s: State, parent: nat, child: nat, w: seq<nat>, a: nat)
    requires Inv(s0) && Inv(s) && Added(s0, s, child, 0, w) && CopiedUpto(s0, s, parent, child, |w|)
    requires IsRoot(s0.owner, parent) && UserOk(s0, parent) && a / PGSIZE < |w|
    ensures UserByte(s.pages, child, a) == UserByte(s0.pages, parent, a)
    ensures Flags(Pte(s.pages, child, a / PGSIZE)) == Flags(Pte(s0.pages, parent, a / PGSIZE))
  {
    hide Inv, V, U, Ppn, Flags, Added, Pte, Bad;
    var v := a / PGSIZE;
    assert Copied(s0, s, parent, child, v);
    BitsOfFlags(Pte(s.pages, child, v));
    BitsOfFlags(Pte(s0.pages, parent, v));
    assert UserOkAt(s0, parent, v);
    OwnedBytes(s, child, v);
    NoPageZero(s);
    NoPageZero(s0);
    if UserPage(s0.pages, parent, v) != 0 {
      ReachedPage(s0, parent, v);
    }
  }

  lemma NoPageZero(s: State)
    requires Inv(s)
    ensures 0 !in s.pages && 0 !in s.owner
  {
  }

  /**
    Fork isolation: start from a successful uvmcopy and let both processes, and any others, write their
    memory in any order.  Below sz each of the two then reads the parent's bytes at the fork as changed by
    its own writes alone.
   */
  lemma ForkIsolation(s0: State, parent: nat, child: nat, w: seq<nat>, states: seq<State>, writes: seq<Write>, a: nat)
    requires Inv(s0) && IsRoot(s0.owner, parent) && IsRoot(s0.owner, child) && UserOk(s0, parent) && UserOk(s0, child)
    requires IsRun(states, writes) && parent != child && a / PGSIZE < |w|
    requires Added(s0, states[0], child, 0, w) && CopiedUpto(s0, states[0], parent, child, |w|)
    ensures var at := UserByte(s0.pages, parent, a); var last := states[|writes|].pages;
      && UserByte(last, parent, a) == Latest(at, writes, parent, a)
      && UserByte(last, child, a) == Latest(at, writes, child, a)
  {
    hide Inv, UserOk, UserByte, Added, CopiedUpto, Latest, Flags, Pte;
    var s := states[0];
    ForkUserOk(s0, s, parent, child, w, parent);
    ForkUserOk(s0, s, parent, child, w, child);
    ForkSameBytes(s0, s, parent, child, w, a);
    ParentSame(s0, s, parent, child, w, a);
    AddedRoots(s0, s, child, w, parent);
    AddedRoots(s0, s, child, w, child);
    ProcessesIsolated(states, writes, parent, a);
    ProcessesIsolated(states, writes, child, a);
  }

  lemma AddedRoots(s0: State, s: State, child: nat, w: seq<nat>, r: nat)
    requires Added(s0, s, child, 0, w) && IsRoot(s0.owner, r)
    ensures IsRoot(s.owner, r)
  {
    RewrittenRoots(s0, s, child, 0, w, r);
  }

  lemma ParentSame(s0: State, s: State, parent: nat, child: nat, w: seq<nat>, a: nat)
    requires Inv(s0) && Added(s0, s, child, 0, w) && IsRoot(s0.owner, parent) && UserOk(s0, parent) && parent != child
    ensures UserByte(s.pages, parent, a) == UserByte(s0.pages, parent, a)
  {
    hide Inv, V, U, Ppn, Added, Pte;
    var v := a / PGSIZE;
    if v < MAXVPN {
      assert UserOkAt(s0, parent, v);
      OwnedAdded(s0, s, child, w, parent, v);
      if UserPage(s0.pages, parent, v) != 0 {
        ReachedPage(s0, parent, v);
        NoRunPage(s0, s, parent, v);
      }
    }
  }

  lemma NoRunPage(s0: State, s: State, r: nat, v: nat)
    requires Pte(s.pages, r, v) == Pte(s0.pages, r, v) && PageOf(s.pages, r, v) == PageOf(s0.pages, r, v)
    requires IsBytes(s0.pages, Ppn(Pte(s0.pages, r, v)))
    ensures var n := Ppn(Pte(s0.pages, r, v)); n in s.pages && s.pages[n] == s0.pages[n]
  {
  }
}
