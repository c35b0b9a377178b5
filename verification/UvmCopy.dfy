/** uvmcopy (kernel/vm.c): the copy of user memory that fork makes. */
module UvmCopy {
  import opened PageTable
  import opened PageSteps
  import opened PageCount
  import opened Kalloc
  import opened Vm
  import opened UserPages
  import opened Uvm
  import opened UvmAlloc

  /** A mapped page of user memory is held through its mapping, and its entry is that of a leaf. */
  ghost predicate UserEntry(s: State, root: nat, v: nat) {
    v < MAXVPN && V(Pte(s.pages, root, v)) ==> Owned(s, root, v) && !Bad(Pte(s.pages, root, v))
  }

  function PageOf(pages: map<nat, Page>, root: nat, v: nat): Page {
    var n := Ppn(Pte(pages, root, v));
    if n in pages then pages[n] else Run(0)
  }

  /** In s the child maps v to a page of its own with the flags and bytes that the parent's page has in s0. */
  ghost predicate Copied(s0: State, s: State, parent: nat, child: nat, v: nat) {
    && v < MAXVPN && !Bad(Pte(s0.pages, parent, v))
    && Backed(s, child, v, Flags(Pte(s0.pages, parent, v)), PageOf(s0.pages, parent, v))
  }

  ghost predicate CopiedUpto(s0: State, s: State, parent: nat, child: nat, hi: nat) {
    forall v :: 0 <= v < hi ==> Copied(s0, s, parent, child, v)
  }

  lemma CopiedMore(s0: State, s: State, s': State, parent: nat, child: nat, hi: nat, w: seq<nat>, hi': nat)
    requires Inv(s) && IsRoot(s.owner, child) && CopiedUpto(s0, s, parent, child, hi)
    requires Rewritten(s, s', child, hi, w) && Gained(s, s', child, hi, hi')
    ensures CopiedUpto(s0, s', parent, child, hi)
  {
    hide Inv, Rewritten, Gained, Backed, Bad, Pte, PageOf;
    forall v | 0 <= v < hi
      ensures Copied(s0, s', parent, child, v)
    {
      assert Copied(s0, s, parent, child, v);
      BackedKept(s, s', child, hi, w, hi', child, v, Flags(Pte(s0.pages, parent, v)), PageOf(s0.pages, parent, v));
    }
  }

  lemma CopiedFits(s0: State, s: State, parent: nat, child: nat, hi: nat)
    requires CopiedUpto(s0, s, parent, child, hi)
    ensures Unmappable(s.pages, child, 0, hi)
    ensures forall v :: 0 <= v < hi ==> Fits(s, child, v, true)
  {
    forall v | 0 <= v < hi
      ensures Removable(s.pages, child, v)
    {
      assert Copied(s0, s, parent, child, v);
    }
    forall v | 0 <= v < hi
      ensures Fits(s, child, v, true)
    {
      assert Copied(s0, s, parent, child, v);
    }
  }

  /** Adding pages to the child does not touch a page held by the parent. */
  lemma ParentKept(s0: State, s: State, parent: nat, child: nat, w: seq<nat>, v: nat)
    requires Inv(s0) && IsRoot(s0.owner, parent) && parent != child && v < MAXVPN
    requires Rewritten(s0, s, child, 0, w) && Gained(s0, s, child, 0, |w|)
    ensures Pte(s.pages, parent, v) == Pte(s0.pages, parent, v)
    ensures Owned(s0, parent, v) ==> Owned(s, parent, v) && PageOf(s.pages, parent, v) == PageOf(s0.pages, parent, v)
  {
    hide V, Ppn, HeldIn;
    assert RewrittenAt(s0.pages, s.pages, child, 0, w, parent, v);
    ZeroPath(s0, parent, v);
    if Owned(s0, parent, v) {
      var n := Ppn(Pte(s0.pages, parent, v));
      assert GainedAt(s0, s, child, 0, |w|, n);
      SameKeysInv(s0);
      assert n in s.pages.Keys;
    }
  }

  lemma OwnedBytes(s: State, root: nat, v: nat)
    requires Inv(s) && Owned(s, root, v)
    ensures Ppn(Pte(s.pages, root, v)) in s.pages && PageOf(s.pages, root, v).Bytes? && |PageOf(s.pages, root, v).data| == PGSIZE
  {
    assert RoleOk(s, Ppn(Pte(s.pages, root, v)));
  }

  lemma FlagsWithV(w: nat)
    requires V(w)
    ensures Flags(w) < 1024 && WithV(Flags(w)) == Flags(w)
  {
  }

  /** Page v is missing in the parent or already there in the child. */
  predicate Blocked(pages: map<nat, Page>, parent: nat, child: nat, v: nat) {
    v >= MAXVPN || !V(Pte(pages, parent, v)) || V(Pte(pages, child, v))
  }

  /** One iteration of uvmcopy(). */
  method CopyOne(m: Memory, parent: nat, child: nat, i: nat, ghost s0: State, ghost w: seq<nat>)
    returns (st: Status, ghost x: nat)
    requires m.Valid() && IsRoot(m.owner, parent) && IsRoot(m.owner, child) && parent != child && i == |w| * PGSIZE
    requires Inv(s0) && IsRoot(s0.owner, parent) && IsRoot(s0.owner, child) && UserEntry(s0, parent, |w|)
    requires Added(s0, m.View(), child, 0, w) && CopiedUpto(s0, m.View(), parent, child, |w|)
    requires Spent(s0, m.View(), child, 0, |w|)
    modifies m
    ensures st.Ok? ==> Spent(s0, m.View(), child, 0, |w| + 1)
    ensures st.Failed? ==> |s0.stack| < PagesNeeded(s0.pages, child, 0, |w| + 1)
    ensures m.Valid() && (!st.Stopped? ==> IsRoot(m.owner, parent) && IsRoot(m.owner, child))
    ensures st.Ok? ==> Added(s0, m.View(), child, 0, w + [x]) && CopiedUpto(s0, m.View(), parent, child, |w| + 1)
    ensures st.Failed? ==> Added(s0, m.View(), child, 0, w) && CopiedUpto(s0, m.View(), parent, child, |w|)
    ensures st.Stopped? ==> Blocked(s0.pages, parent, child, |w|)
  {
    hide Inv, Rewritten, Gained, Released, V, Pte, Unmapped, SameMaps, Grown, Ppn, Flags, Backed, TableOf, Spent, Missing, Ahead, PagesNeeded;
    ghost var s := m.View();
    ghost var v := |w|;
    assert i / PGSIZE == v;
    x := 0;
    var pte := Walk(m, parent, i, false);
    if pte.Panic? {
      return Stopped, x;
    }
    ParentKept(s0, s, parent, child, w, v);
    ZeroPath(s, parent, v);
    if pte.Null? {
      return Stopped, x;
    }
    LowEntry(s, parent, v);
    var e := m.pages[pte.table].entries[pte.index];
    if !V(e) {
      return Stopped, x;
    }
    OwnedBytes(s, parent, v);
    FlagsWithV(e);
    AddedEntry(s0, s, child, 0, w);
    var content := m.pages[Ppn(e)];
    st, x := MapFresh(m, child, i, content, Flags(e));
    SpentMore(s0, s, m.View(), child, 0, v);
    if st.Ok? {
      AddedMore(s0, s, m.View(), child, 0, w, x);
      CopiedMore(s0, s, m.View(), parent, child, v, [x], v + 1);
      RewrittenRoots(s, m.View(), child, v, [x], parent);
    } else if st.Failed? {
      AddedFailed(s0, s, m.View(), child, 0, w);
      RewrittenNone(s, m.View(), child, v);
      GainedNone(s, m.View(), child, v);
      CopiedMore(s0, s, m.View(), parent, child, v, [], v);
      RewrittenRoots(s, m.View(), child, v, [], parent);
    }
  }

  lemma LowEntry(s: State, root: nat, v: nat)
    requires Inv(s) && IsRoot(s.owner, root) && v < MAXVPN && TableOf(s.pages, root, v) != 0
    ensures var t := TableOf(s.pages, root, v);
      IsTable(s.pages, t) && Px0(v) < PTES && s.pages[t].entries[Px0(v)] == Pte(s.pages, root, v)
  {
    PathFacts(s, root, v);
    NodeFacts(s, TableOf(s.pages, root, v));
  }

  lemma RewrittenRoots(s: State, s': State, root: nat, lo: nat, w: seq<nat>, r: nat)
    requires Rewritten(s, s', root, lo, w) && IsRoot(s.owner, r)
    ensures IsRoot(s'.owner, r)
  {
  }

  lemma CopyStart(s: State, parent: nat, child: nat)
    requires Inv(s) && IsRoot(s.owner, child)
    ensures Added(s, s, child, 0, []) && CopiedUpto(s, s, parent, child, 0)
  {
    AddedNone(s, child, 0);
  }

  /**
    uvmcopy(): on success every page below sz is in the child with the parent's flags and bytes, and
    nothing else has changed; when memory runs out the child's translations and all holders are as before.
    Memory runs out exactly if there are fewer free pages than the copies and the missing tables take.
   */
  method Uvmcopy(m: Memory, parent: nat, child: nat, sz: nat) returns (r: Status, ghost w: seq<nat>)
    requires m.Valid() && IsRoot(m.owner, parent) && IsRoot(m.owner, child) && parent != child
    requires forall v :: 0 <= v < PageUp(sz) ==> UserEntry(m.View(), parent, v)
    modifies m
    ensures m.Valid()
    ensures r.Ok? ==>
      && |w| == PageUp(sz) && Added(old(m.View()), m.View(), child, 0, w)
      && CopiedUpto(old(m.View()), m.View(), parent, child, PageUp(sz))
    ensures r.Failed? ==> Restored(old(m.View()), m.View()) && Grown(old(m.View()), m.View(), child)
    ensures r.Stopped? ==> exists v :: 0 <= v < PageUp(sz) && Blocked(old(m.pages), parent, child, v)
    ensures !r.Stopped? ==> (r.Failed? <==> |old(m.stack)| < PagesNeeded(old(m.pages), child, 0, PageUp(sz)))
    ensures r.Ok? ==> |m.stack| + PagesNeeded(old(m.pages), child, 0, PageUp(sz)) == |old(m.stack)|
  {
    hide Inv, Added, CopiedUpto, Restored, Grown, UserEntry, V, Bad, Pte, Spent, PagesNeeded;
    ghost var s0 := m.View();
    w := [];
    CopyStart(s0, parent, child);
    SpentNone(s0, child, 0);
    var i := 0;
    while i < sz
      invariant i == |w| * PGSIZE && |w| <= PageUp(sz) && m.Valid() && IsRoot(m.owner, parent) && IsRoot(m.owner, child)
      invariant Added(s0, m.View(), child, 0, w) && CopiedUpto(s0, m.View(), parent, child, |w|)
      invariant Spent(s0, m.View(), child, 0, |w|)
    {
      assert |w| < PageUp(sz);
      ghost var x;
      r, x := CopyOne(m, parent, child, i, s0, w);
      if r.Stopped? {
        return;
      }
      if r.Failed? {
        NotEnough(s0, child, 0, |w|, PageUp(sz));
        UndoCopy(m, parent, child, i, s0, w);
        return;
      }
      w := w + [x];
      i := i + PGSIZE;
    }
    SpentAll(s0, m.View(), child, 0, |w|);
    return Ok, w;
  }

  /** The label err of uvmcopy(). */
  method UndoCopy(m: Memory, ghost parent: nat, child: nat, i: nat, ghost s0: State, ghost w: seq<nat>)
    requires m.Valid() && IsRoot(m.owner, child) && i == |w| * PGSIZE && Inv(s0)
    requires Added(s0, m.View(), child, 0, w) && CopiedUpto(s0, m.View(), parent, child, |w|)
    modifies m
    ensures m.Valid() && Restored(s0, m.View()) && Grown(s0, m.View(), child)
  {
    hide Inv, Added, CopiedUpto, Restored, Grown, Rewritten, Released, Fits, Unmappable;
    ghost var s := m.View();
    CopiedFits(s0, s, parent, child, |w|);
    assert i / PGSIZE == |w|;
    var r := Uvmunmap(m, child, 0, i / PGSIZE, true);
    Undone(s0, s, m.View(), child, 0, w);
  }
}
