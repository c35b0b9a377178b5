/**
  uvmunmap (kernel/vm.c), page by page, and the pages it gives back.
 */
module Uvm {
  import opened PageTable
  import opened PageSteps
  import opened Kalloc
  import opened Vm
  import opened UserPages

  // ---------- uvmunmap

  /** An entry that makes uvmunmap panic. */
  predicate Bad(w: nat) {
    !V(w) || Flags(w) == 1
  }

  lemma BadExact(w: nat)
    ensures Bad(w) <==> w % 2 != 1 || w % 1024 == 1
  {
  }

  /** Whoever unmaps v frees the page exactly if it is held through that mapping. */
  ghost predicate Fits(s: State, root: nat, v: nat, doFree: bool) {
    v < MAXVPN && V(Pte(s.pages, root, v)) ==> (Owned(s, root, v) <==> doFree)
  }

  lemma ClearFacts(s: State, root: nat, v: nat)
    requires Inv(s) && IsRoot(s.owner, root) && v < MAXVPN && V(Pte(s.pages, root, v)) && !Owned(s, root, v)
    ensures IsLow(s, TableOf(s.pages, root, v)) && Px0(v) < PTES
    ensures var t := TableOf(s.pages, root, v); var s' := SetPte(s, t, Px0(v), 0);
      && Inv(s') && Rewritten(s, s', root, v, [0]) && Released(s, s', root, v, v)
  {
    hide V, Ppn, Rewritten;
    var t := TableOf(s.pages, root, v);
    ZeroPath(s, root, v);
    PathFacts(s, root, v);
    WriteEntry(s, root, v, 0);
    SetPteKeeps(s, t, Px0(v), 0);
    assert SetPte(s, t, Px0(v), 0).pages.Keys == s.pages.Keys;
  }

  /** The page named by an owned entry can be handed to kfree. */
  lemma OwnedInRange(m: Memory, root: nat, v: nat)
    requires m.Valid() && Owned(m.View(), root, v)
    ensures var pa := PteToPa(Pte(m.pages, root, v));
      pa % PGSIZE == 0 && pa / PGSIZE == Ppn(Pte(m.pages, root, v)) && m.end <= pa < PHYSTOP
  {
    var n := Ppn(Pte(m.pages, root, v));
    assert n in m.owner;
    assert PteToPa(Pte(m.pages, root, v)) == n * PGSIZE;
  }

  /** One iteration of uvmunmap(). */
  method UnmapOne(m: Memory, root: nat, a: nat, doFree: bool) returns (r: Status)
    requires m.Valid() && IsRoot(m.owner, root) && Fits(m.View(), root, a / PGSIZE, doFree)
    modifies m
    ensures m.Valid()
    ensures !r.Failed? && (r.Stopped? <==> a >= MAXVA || Bad(Pte(old(m.pages), root, a / PGSIZE)))
    ensures r.Stopped? ==> m.View() == old(m.View())
    ensures r.Ok? ==>
      && IsRoot(m.owner, root) && Rewritten(old(m.View()), m.View(), root, a / PGSIZE, [0])
      && Released(old(m.View()), m.View(), root, a / PGSIZE, a / PGSIZE + if doFree then 1 else 0)
  {
    hide Inv, Rewritten, Released, V, Ppn, Flags, PteToPa;
    ghost var v := a / PGSIZE;
    var pte := Walk(m, root, a, false);
    if pte.Panic? {
      return Stopped;
    }
    ZeroPath(m.View(), root, v);
    if pte.Null? {
      return Stopped;
    }
    PathFacts(m.View(), root, v);
    NodeFacts(m.View(), pte.table);
    var w := m.pages[pte.table].entries[pte.index];
    if !V(w) {
      return Stopped;
    }
    if Flags(w) == 1 {
      return Stopped;
    }
    if doFree {
      OwnedInRange(m, root, v);
      DroppedKeeps(m.View(), root, v);
      DroppedReleased(m.View(), root, v);
      InvHasList(Disown(m.View(), Ppn(w)));
      m.owner := m.owner[Ppn(w) := Held];
      var panicked := m.Kfree(PteToPa(w));
    } else {
      ClearFacts(m.View(), root, v);
    }
    m.pages := m.pages[pte.table := Table(m.pages[pte.table].entries[pte.index := 0])];
    RewrittenRoot(old(m.View()), m.View(), root, v, [0]);
    return Ok;
  }

  lemma RewrittenRoot(s: State, s': State, root: nat, lo: nat, w: seq<nat>)
    requires Rewritten(s, s', root, lo, w) && IsRoot(s.owner, root)
    ensures IsRoot(s'.owner, root)
  {
  }

  /** uvmunmap does not panic on the range. */
  ghost predicate Unmappable(pages: map<nat, Page>, root: nat, lo: nat, hi: nat) {
    forall v :: lo <= v < hi ==> Removable(pages, root, v)
  }

  /** A valid entry that has more flags than that it is valid. */
  predicate Removable(pages: map<nat, Page>, root: nat, v: nat) {
    v < MAXVPN && Pte(pages, root, v) % 2 == 1 && Pte(pages, root, v) % 1024 != 1
  }

  function Nothing(n: nat): (w: seq<nat>)
    ensures |w| == n && forall i :: 0 <= i < n ==> w[i] == 0
  {
    seq(n, i => 0)
  }

  /** Outside the range a mapping is owned after the removal exactly if it was before. */
  lemma OwnedKept(s: State, s': State, root: nat, lo: nat, w: seq<nat>, hi: nat, r: nat, v: nat)
    requires Inv(s) && IsRoot(s.owner, r) && v < MAXVPN && !(r == root && lo <= v < lo + |w|)
    requires Rewritten(s, s', root, lo, w) && Released(s, s', root, lo, hi) && hi <= lo + |w|
    ensures Pte(s'.pages, r, v) == Pte(s.pages, r, v) && (Owned(s', r, v) <==> Owned(s, r, v))
  {
    hide V, Ppn, Vpn;
    assert RewrittenAt(s.pages, s'.pages, root, lo, w, r, v);
    ZeroPath(s, r, v);
    var n := Ppn(Pte(s.pages, r, v));
    if n in s.owner {
      assert ReleasedAt(s, s', root, lo, hi, n);
      if Owned(s, r, v) {
        HomeOfPath(s, r, v);
      }
    } else {
      assert n !in s'.owner.Keys;
    }
  }

  /**
    uvmunmap(): the range, and nothing else, is unmapped; with do_free exactly the pages it held go back
    to the free list, once each.
   */
  method Uvmunmap(m: Memory, root: nat, va: nat, npages: nat, doFree: bool) returns (r: Status)
    requires m.Valid() && IsRoot(m.owner, root)
    requires forall v :: va / PGSIZE <= v < va / PGSIZE + npages ==> Fits(m.View(), root, v, doFree)
    modifies m
    ensures m.Valid() && !r.Failed?
    ensures r.Stopped? <==> va % PGSIZE != 0 || !Unmappable(old(m.pages), root, va / PGSIZE, va / PGSIZE + npages)
    ensures r.Ok? ==>
      && IsRoot(m.owner, root) && Rewritten(old(m.View()), m.View(), root, va / PGSIZE, Nothing(npages))
      && Released(old(m.View()), m.View(), root, va / PGSIZE, va / PGSIZE + if doFree then npages else 0)
  {
    hide Inv, Rewritten, Released, Bad, Fits, Pte;
    if va % PGSIZE != 0 {
      return Stopped;
    }
    ghost var first, i, s0 := va / PGSIZE, 0, m.View();
    UnmapStart(s0, root, first);
    var a := va;
    while a < va + npages * PGSIZE
      invariant a == (first + i) * PGSIZE && i <= npages && m.Valid() && IsRoot(m.owner, root)
      invariant Rewritten(s0, m.View(), root, first, Nothing(i))
      invariant Released(s0, m.View(), root, first, first + if doFree then i else 0)
      invariant Unmappable(s0.pages, root, first, first + i)
    {
      ghost var s := m.View();
      assert Fits(s0, root, first + i, doFree);
      UnmapNext(s0, s, root, first, i, doFree);
      r := UnmapOne(m, root, a, doFree);
      assert a / PGSIZE == first + i && i < npages;
      BadExact(Pte(s0.pages, root, first + i));
      if r.Stopped? {
        assert !Removable(s0.pages, root, first + i);
        return;
      }
      UnmapMore(s0, s, m.View(), root, first, i, doFree);
      a, i := a + PGSIZE, i + 1;
    }
    return Ok;
  }

  lemma UnmapStart(s: State, root: nat, lo: nat)
    ensures Rewritten(s, s, root, lo, Nothing(0)) && Released(s, s, root, lo, lo) && Unmappable(s.pages, root, lo, lo)
  {
    SameMapsRefl(s);
    RewrittenNone(s, s, root, lo);
    assert Nothing(0) == [];
  }

  lemma UnmapNext(s0: State, s: State, root: nat, first: nat, i: nat, doFree: bool)
    requires Inv(s0) && IsRoot(s0.owner, root) && Fits(s0, root, first + i, doFree)
    requires Rewritten(s0, s, root, first, Nothing(i)) && Released(s0, s, root, first, first + if doFree then i else 0)
    ensures Fits(s, root, first + i, doFree)
    ensures first + i < MAXVPN ==> Pte(s.pages, root, first + i) == Pte(s0.pages, root, first + i)
  {
    hide Inv, Rewritten, Released, Pte, Owned;
    if first + i < MAXVPN {
      OwnedKept(s0, s, root, first, Nothing(i), first + if doFree then i else 0, root, first + i);
    }
  }

  lemma UnmapMore(s0: State, s: State, s': State, root: nat, first: nat, i: nat, doFree: bool)
    requires Inv(s0) && Rewritten(s0, s, root, first, Nothing(i)) && Released(s0, s, root, first, first + if doFree then i else 0)
    requires Rewritten(s, s', root, first + i, [0])
    requires Released(s, s', root, first + i, first + i + if doFree then 1 else 0)
    ensures Rewritten(s0, s', root, first, Nothing(i + 1))
    ensures Released(s0, s', root, first, first + if doFree then i + 1 else 0)
  {
    hide Inv, Rewritten, Released;
    RewrittenMore(s0, s, s', root, first, Nothing(i), [0]);
    assert Nothing(i) + [0] == Nothing(i + 1);
    if doFree {
      ReleasedMore(s0, s, s', root, first, first + i, first + i + 1);
    } else {
      ReleasedEmpty(s, s', root, first + i, first);
      ReleasedMore(s0, s, s', root, first, first, first);
    }
  }

  lemma ReleasedEmpty(s: State, s': State, root: nat, lo: nat, lo': nat)
    requires Released(s, s', root, lo, lo)
    ensures Released(s, s', root, lo', lo')
  {
    forall n | n in s.owner
      ensures ReleasedAt(s, s', root, lo', lo', n)
    {
      assert ReleasedAt(s, s', root, lo, lo, n);
    }
  }
}
