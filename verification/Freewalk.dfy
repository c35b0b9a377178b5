/**
  freewalk and uvmfree (kernel/vm.c): taking a page-table tree apart.  While that goes on the tree is
  described by the roles its pages had at the start.
 */
module Freewalk {
  import opened PageTable
  import opened PageSteps
  import opened Kalloc
  import opened Vm
  import opened UserPages
  import opened Uvm

  // ---------- the pages under a table

  /** Table m belongs to the part of the tree that hangs from table n, which is at the given level. */
  ghost predicate Under(owner: map<nat, Role>, m: nat, n: nat, root: nat, level: nat) {
    && m in owner && owner[m].Node? && owner[m].root == root
    && (|| m == n
        || (owner[m].level + 1 == level && owner[m].parent == n)
        || (owner[m].level + 2 == level && NodeParent(owner, owner[m].parent) == n))
  }

  /** The index at n through which m hangs from it. */
  ghost function Branch(owner: map<nat, Role>, m: nat, level: nat): nat
    requires m in owner && owner[m].Node?
  {
    if owner[m].level + 1 == level then owner[m].index else NodeIndex(owner, owner[m].parent)
  }

  ghost predicate Gone(owner: map<nat, Role>, m: nat, n: nat, root: nat, level: nat, i: nat) {
    Under(owner, m, n, root, level) && m != n && Branch(owner, m, level) < i
  }

  /** Every valid entry of a level-0 table has a permission bit, as mappages' callers ask for. */
  ghost predicate Marked(pages: map<nat, Page>, m: nat) {
    forall k :: 0 <= k < PTES ==> MarkedAt(pages, m, k)
  }

  ghost predicate MarkedAt(pages: map<nat, Page>, m: nat, k: nat) {
    V(Entry(pages, m, k)) ==> Rwx(Entry(pages, m, k))
  }

  ghost predicate Limb(pages: map<nat, Page>, owner: map<nat, Role>, m: nat, n: nat, x: Role)
    requires x.Node?
  {
    && IsTable(pages, m) && (m != n ==> Hangs(pages, owner, m, x))
    && (if x.level == 0 then Marked(pages, m) else forall k :: 0 <= k < PTES ==> ChildOk(pages, owner, m, x, k))
  }

  ghost predicate Subtree(s: State, n: nat, root: nat, level: nat) {
    && level <= 2 && IsNode(s.owner, n, root, level) && FreeList(s)
    && forall m :: Under(s.owner, m, n, root, level) ==> Limb(s.pages, s.owner, m, n, s.owner[m])
  }

  /** No leaf entry is left in table m. */
  ghost predicate Bare(pages: map<nat, Page>, m: nat) {
    forall k :: 0 <= k < PTES ==> !V(Entry(pages, m, k))
  }

  ghost predicate BareTree(s: State, n: nat, root: nat, level: nat) {
    forall m :: Under(s.owner, m, n, root, level) && s.owner[m].level == 0 ==> Bare(s.pages, m)
  }

  /** From s to s' exactly the tables under n have become free. */
  ghost predicate Felled(s: State, s': State, n: nat, root: nat, level: nat) {
    && s.stack <= s'.stack && s'.owner.Keys == s.owner.Keys && s'.pages.Keys == s.pages.Keys
    && forall m :: m in s.owner ==> FelledAt(s, s', n, root, level, m)
  }

  ghost predicate FelledAt(s: State, s': State, n: nat, root: nat, level: nat, m: nat)
    requires m in s.owner
  {
    && m in s'.owner
    && if Under(s.owner, m, n, root, level) then s'.owner[m].Free?
       else s'.owner[m] == s.owner[m] && (m in s.pages && m in s'.pages ==> s'.pages[m] == s.pages[m])
  }

  // ---------- inside the loop

  /** The loop of freewalk(n) has dealt with the first i entries. */
  ghost predicate Partly(s0: State, s: State, n: nat, root: nat, level: nat, i: nat) {
    && FreeList(s) && s0.stack <= s.stack && s.owner.Keys == s0.owner.Keys && s.pages.Keys == s0.pages.Keys
    && IsTable(s.pages, n)
    && (forall m :: m in s0.owner ==> PartlyAt(s0, s, n, root, level, i, m))
    && (forall k :: i <= k < PTES ==> Entry(s.pages, n, k) == Entry(s0.pages, n, k))
  }

  ghost predicate PartlyAt(s0: State, s: State, n: nat, root: nat, level: nat, i: nat, m: nat)
    requires m in s0.owner
  {
    && m in s.owner
    && if Gone(s0.owner, m, n, root, level, i) then s.owner[m].Free?
       else s.owner[m] == s0.owner[m] && (m != n && m in s.pages && m in s0.pages ==> s.pages[m] == s0.pages[m])
  }

  lemma PartlyStart(s: State, n: nat, root: nat, level: nat)
    requires Subtree(s, n, root, level)
    ensures Partly(s, s, n, root, level, 0)
  {
    assert Under(s.owner, n, n, root, level);
  }

  /** The child at entry i, when it is there. */
  lemma ChildFacts(s0: State, s: State, n: nat, root: nat, level: nat, i: nat)
    requires Subtree(s0, n, root, level) && Partly(s0, s, n, root, level, i) && i < PTES && level > 0
    requires V(Entry(s.pages, n, i))
    ensures var c := Ppn(Entry(s.pages, n, i));
      && c in s0.owner && s0.owner[c] == Node(root, level - 1, n, i) && c in s.owner && s.owner[c] == s0.owner[c]
      && !Rwx(Entry(s.pages, n, i))
  {
    assert Under(s0.owner, n, n, root, level);
    assert ChildOk(s0.pages, s0.owner, n, s0.owner[n], i);
    var c := Ppn(Entry(s.pages, n, i));
    assert PartlyAt(s0, s, n, root, level, i, c);
    LinkFlags(Entry(s.pages, n, i));
  }

  lemma LinkFlags(w: nat)
    requires Flags(w) == 1
    ensures !Rwx(w)
  {
    var q := w / 1024 * 64;
    assert w == 16 * q + 1;
    assert w / 2 == 8 * q;
  }

  /** What hangs from the child of entry i hangs from n through that entry. */
  lemma UnderChild(s0: State, s: State, n: nat, root: nat, level: nat, i: nat, c: nat, m: nat)
    requires Partly(s0, s, n, root, level, i) && 0 < level <= 2
    requires c in s0.owner && s0.owner[c] == Node(root, level - 1, n, i)
    ensures Under(s.owner, m, c, root, level - 1) <==> Under(s0.owner, m, c, root, level - 1)
    ensures Under(s0.owner, m, c, root, level - 1) ==>
      m == n || (Under(s0.owner, m, n, root, level) && Branch(s0.owner, m, level) == i)
  {
    if m in s0.owner {
      assert PartlyAt(s0, s, n, root, level, i, m);
    } else {
      assert m !in s.owner.Keys;
    }
    assert PartlyAt(s0, s, n, root, level, i, c);
  }

  /** A table that hangs from n through index i hangs from a child there. */
  lemma BranchChild(s: State, n: nat, root: nat, level: nat, m: nat)
    requires Subtree(s, n, root, level) && Under(s.owner, m, n, root, level) && m != n
    ensures level > 0
    ensures var i := Branch(s.owner, m, level); var c := Ppn(Entry(s.pages, n, i));
      i < PTES && V(Entry(s.pages, n, i)) && Under(s.owner, m, c, root, level - 1)
  {
    assert Limb(s.pages, s.owner, m, n, s.owner[m]);
    var x := s.owner[m];
    if x.level + 1 != level {
      assert Under(s.owner, x.parent, n, root, level);
      assert Limb(s.pages, s.owner, x.parent, n, s.owner[x.parent]);
    }
  }

  /** The part of the tree under the child of entry i is untouched so far. */
  lemma ChildSubtree(s0: State, s: State, n: nat, root: nat, level: nat, i: nat)
    requires Subtree(s0, n, root, level) && Partly(s0, s, n, root, level, i) && i < PTES && level > 0
    requires V(Entry(s.pages, n, i))
    ensures Subtree(s, Ppn(Entry(s.pages, n, i)), root, level - 1)
  {
    hide V, Rwx, Ppn, Flags;
    ChildFacts(s0, s, n, root, level, i);
    var c := Ppn(Entry(s.pages, n, i));
    forall m | Under(s.owner, m, c, root, level - 1)
      ensures Limb(s.pages, s.owner, m, c, s.owner[m])
    {
      ChildLimb(s0, s, n, root, level, i, c, m);
    }
  }

  lemma ChildLimb(s0: State, s: State, n: nat, root: nat, level: nat, i: nat, c: nat, m: nat)
    requires Subtree(s0, n, root, level) && Partly(s0, s, n, root, level, i) && i < PTES && level > 0
    requires c in s0.owner && s0.owner[c] == Node(root, level - 1, n, i) && Under(s.owner, m, c, root, level - 1)
    ensures m in s0.owner && s.owner[m] == s0.owner[m] && m in s.pages && m in s0.pages && s.pages[m] == s0.pages[m]
    ensures Limb(s.pages, s.owner, m, c, s.owner[m])
  {
    hide V, Rwx, Ppn, Flags;
    UnderChild(s0, s, n, root, level, i, c, m);
    assert m != n && PartlyAt(s0, s, n, root, level, i, m);
    assert Limb(s0.pages, s0.owner, m, n, s0.owner[m]);
    var x := s0.owner[m];
    assert m in s.pages.Keys;
    if m != c {
      assert PartlyAt(s0, s, n, root, level, i, x.parent);
    }
    if x.level > 0 {
      forall k | 0 <= k < PTES
        ensures ChildOk(s.pages, s.owner, m, x, k)
      {
        assert ChildOk(s0.pages, s0.owner, m, x, k);
        var g := Ppn(Entry(s0.pages, m, k));
        if g in s0.owner {
          assert PartlyAt(s0, s, n, root, level, i, g);
        }
      }
    } else {
      forall k | 0 <= k < PTES
        ensures MarkedAt(s.pages, m, k)
      {
        assert MarkedAt(s0.pages, m, k);
      }
    }
  }

  lemma PartlySkip(s0: State, s: State, n: nat, root: nat, level: nat, i: nat)
    requires Subtree(s0, n, root, level) && Partly(s0, s, n, root, level, i) && i < PTES && !V(Entry(s.pages, n, i))
    ensures Partly(s0, s, n, root, level, i + 1)
  {
    hide V, Ppn;
    forall m | m in s0.owner
      ensures PartlyAt(s0, s, n, root, level, i + 1, m)
    {
      assert PartlyAt(s0, s, n, root, level, i, m);
      if Under(s0.owner, m, n, root, level) && m != n {
        BranchChild(s0, n, root, level, m);
      }
    }
  }

  lemma PartlyCut(s0: State, s: State, s': State, n: nat, root: nat, level: nat, i: nat, c: nat)
    requires Subtree(s0, n, root, level) && Partly(s0, s, n, root, level, i) && i < PTES && level > 0
    requires c in s0.owner && s0.owner[c] == Node(root, level - 1, n, i) && Points(s.pages, n, i, c)
    requires Felled(s, s', c, root, level - 1) && FreeList(s')
    ensures IsTable(s'.pages, n) && Partly(s0, SetPte(s', n, i, 0), n, root, level, i + 1)
  {
    hide V, Ppn;
    assert !Under(s.owner, n, c, root, level - 1) && FelledAt(s, s', c, root, level - 1, n) by {
      assert PartlyAt(s0, s, n, root, level, i, n);
    }
    var s'' := SetPte(s', n, i, 0);
    forall m | m in s0.owner
      ensures PartlyAt(s0, s'', n, root, level, i + 1, m)
    {
      CutAt(s0, s, s', n, root, level, i, c, m);
    }
    forall k | i + 1 <= k < PTES
      ensures Entry(s''.pages, n, k) == Entry(s0.pages, n, k)
    {
      EntryWritten(s'.pages, n, i, 0, n, k);
    }
    TableList(s', n, i);
    assert s''.pages.Keys == s'.pages.Keys;
  }

  lemma TableList(s: State, n: nat, i: nat)
    requires FreeList(s) && n in s.owner && s.owner[n].Node? && IsTable(s.pages, n) && i < PTES
    ensures FreeList(SetPte(s, n, i, 0))
  {
    var s' := SetPte(s, n, i, 0);
    assert s'.pages.Keys == s.pages.Keys;
    FreeFrame(s, s', n);
  }

  lemma CutAt(s0: State, s: State, s': State, n: nat, root: nat, level: nat, i: nat, c: nat, m: nat)
    requires Subtree(s0, n, root, level) && Partly(s0, s, n, root, level, i) && i < PTES && level > 0
    requires c in s0.owner && s0.owner[c] == Node(root, level - 1, n, i) && Points(s.pages, n, i, c)
    requires Felled(s, s', c, root, level - 1) && m in s0.owner && IsTable(s'.pages, n)
    ensures PartlyAt(s0, SetPte(s', n, i, 0), n, root, level, i + 1, m)
  {
    hide V, Ppn;
    assert PartlyAt(s0, s, n, root, level, i, m);
    assert FelledAt(s, s', c, root, level - 1, m);
    UnderChild(s0, s, n, root, level, i, c, m);
    if Under(s0.owner, m, n, root, level) && m != n {
      BranchChild(s0, n, root, level, m);
    }
    if m in s0.pages {
      assert m in s.pages.Keys && m in s'.pages.Keys;
    }
  }

  lemma PartlyDone(s0: State, s: State, n: nat, root: nat, level: nat)
    requires Subtree(s0, n, root, level) && Partly(s0, s, n, root, level, PTES)
    ensures n in s.owner && !s.owner[n].Free? && Felled(s0, FreePage(s, n), n, root, level)
  {
    var s' := FreePage(s, n);
    assert PartlyAt(s0, s, n, root, level, PTES, n);
    assert s'.owner.Keys == s.owner.Keys && s'.pages.Keys == s.pages.Keys;
    forall m | m in s0.owner
      ensures FelledAt(s0, s', n, root, level, m)
    {
      assert PartlyAt(s0, s, n, root, level, PTES, m);
      if Under(s0.owner, m, n, root, level) && m != n {
        BranchChild(s0, n, root, level, m);
      }
    }
  }

  // ---------- leaves that are left

  /** No leaf entry in what the loop has dealt with. */
  ghost predicate BareUpto(s: State, n: nat, root: nat, level: nat, i: nat) {
    && (level == 0 ==> forall k :: 0 <= k < i ==> !V(Entry(s.pages, n, k)))
    && forall m :: Gone(s.owner, m, n, root, level, i) && s.owner[m].level == 0 ==> Bare(s.pages, m)
  }

  lemma BareSkip(s: State, n: nat, root: nat, level: nat, i: nat)
    requires Subtree(s, n, root, level) && BareUpto(s, n, root, level, i) && !V(Entry(s.pages, n, i))
    ensures BareUpto(s, n, root, level, i + 1)
  {
    hide V, Ppn;
    forall m | Gone(s.owner, m, n, root, level, i + 1) && s.owner[m].level == 0
      ensures Bare(s.pages, m)
    {
      BranchChild(s, n, root, level, m);
    }
  }

  lemma BareCut(s0: State, s: State, n: nat, root: nat, level: nat, i: nat, c: nat)
    requires Subtree(s0, n, root, level) && Partly(s0, s, n, root, level, i) && i < PTES && level > 0
    requires c in s0.owner && s0.owner[c] == Node(root, level - 1, n, i) && Points(s.pages, n, i, c)
    requires BareUpto(s0, n, root, level, i)
    ensures BareTree(s, c, root, level - 1) ==> BareUpto(s0, n, root, level, i + 1)
    ensures !BareTree(s, c, root, level - 1) ==> !BareTree(s0, n, root, level)
  {
    hide V, Ppn;
    if BareTree(s, c, root, level - 1) {
      forall m | Gone(s0.owner, m, n, root, level, i + 1) && s0.owner[m].level == 0
        ensures Bare(s0.pages, m)
      {
        BranchChild(s0, n, root, level, m);
        UnderChild(s0, s, n, root, level, i, c, m);
        if Branch(s0.owner, m, level) == i {
          ChildLimb(s0, s, n, root, level, i, c, m);
          SameBare(s0.pages, s.pages, m);
        }
      }
    } else {
      var m :| Under(s.owner, m, c, root, level - 1) && s.owner[m].level == 0 && !Bare(s.pages, m);
      ChildLimb(s0, s, n, root, level, i, c, m);
      UnderChild(s0, s, n, root, level, i, c, m);
      SameBare(s0.pages, s.pages, m);
    }
  }

  lemma SameBare(pages: map<nat, Page>, pages': map<nat, Page>, m: nat)
    requires m in pages && m in pages' && pages[m] == pages'[m]
    ensures Bare(pages, m) <==> Bare(pages', m)
  {
    hide V;
    if Bare(pages, m) {
      forall k | 0 <= k < PTES
        ensures !V(Entry(pages', m, k))
      {
        assert !V(Entry(pages, m, k));
      }
    } else {
      var k :| 0 <= k < PTES && V(Entry(pages, m, k));
      assert V(Entry(pages', m, k));
    }
  }

  lemma BareDone(s: State, n: nat, root: nat, level: nat)
    requires Subtree(s, n, root, level) && BareUpto(s, n, root, level, PTES)
    ensures BareTree(s, n, root, level)
  {
    hide V, Ppn;
    forall m | Under(s.owner, m, n, root, level) && s.owner[m].level == 0
      ensures Bare(s.pages, m)
    {
      if m != n {
        BranchChild(s, n, root, level, m);
      }
    }
  }

  // ---------- freewalk and uvmfree

  lemma EntryKinds(s0: State, s: State, n: nat, root: nat, level: nat, i: nat)
    requires Subtree(s0, n, root, level) && Partly(s0, s, n, root, level, i) && i < PTES
    ensures IsTable(s.pages, n) && Entry(s.pages, n, i) == Entry(s0.pages, n, i)
    ensures V(Entry(s.pages, n, i)) ==> (Rwx(Entry(s.pages, n, i)) <==> level == 0)
  {
    assert Under(s0.owner, n, n, root, level);
    if level == 0 {
      assert MarkedAt(s0.pages, n, i);
    } else if V(Entry(s.pages, n, i)) {
      ChildFacts(s0, s, n, root, level, i);
    }
  }

  lemma LeafLeft(s: State, n: nat, root: nat, i: nat)
    requires IsNode(s.owner, n, root, 0) && i < PTES && V(Entry(s.pages, n, i))
    ensures !BareTree(s, n, root, 0)
  {
    assert Under(s.owner, n, n, root, 0);
  }

  /** freewalk(): every table under n goes back to the free list, once; true stands for the panic on a leaf. */
  method Freewalk(m: Memory, n: nat, ghost root: nat, ghost level: nat) returns (panicked: bool)
    requires m.Range() && Subtree(m.View(), n, root, level)
    modifies m
    ensures panicked <==> !BareTree(old(m.View()), n, root, level)
    ensures !panicked ==> m.Range() && FreeList(m.View()) && Felled(old(m.View()), m.View(), n, root, level)
    decreases level
  {
    hide Subtree, Partly, BareUpto, BareTree, Felled, FreeList, V, Ppn, Rwx, PteToPa;
    ghost var s0 := m.View();
    PartlyStart(s0, n, root, level);
    BareStart(s0, n, root, level);
    var i := 0;
    while i < 512
      invariant i <= 512 && Partly(s0, m.View(), n, root, level, i) && BareUpto(s0, n, root, level, i)
    {
      ghost var s := m.View();
      EntryKinds(s0, s, n, root, level, i);
      SubtreeIs(s0, n, root, level);
      var pte := m.pages[n].entries[i];
      if V(pte) && !Rwx(pte) {
        var child := PteToPa(pte) / PGSIZE;
        PageOfEntry(pte);
        ChildFacts(s0, s, n, root, level, i);
        ChildSubtree(s0, s, n, root, level, i);
        BareCut(s0, s, n, root, level, i, child);
        assert m.Range() by { SameRange(m, s0, n, root, level, i); }
        panicked := Freewalk(m, child, root, level - 1);
        if panicked {
          return;
        }
        PartlyCut(s0, s, m.View(), n, root, level, i, child);
        m.pages := m.pages[n := Table(m.pages[n].entries[i := 0])];
      } else if V(pte) {
        LeafLeft(s0, n, root, i);
        return true;
      } else {
        PartlySkip(s0, s, n, root, level, i);
        BareSkip(s0, n, root, level, i);
      }
      i := i + 1;
    }
    BareDone(s0, n, root, level);
    PartlyDone(s0, m.View(), n, root, level);
    assert m.Range() && FreeList(m.View()) by { SameRange(m, s0, n, root, level, i); }
    panicked := m.Kfree(n * PGSIZE);
  }

  lemma BareStart(s: State, n: nat, root: nat, level: nat)
    ensures BareUpto(s, n, root, level, 0)
  {
  }

  lemma SubtreeIs(s: State, n: nat, root: nat, level: nat)
    requires Subtree(s, n, root, level)
    ensures level <= 2 && IsNode(s.owner, n, root, level)
  {
  }

  lemma PageOfEntry(w: nat)
    ensures PteToPa(w) / PGSIZE == Ppn(w)
  {
  }

  lemma SameRange(m: Memory, s0: State, n: nat, root: nat, level: nat, i: nat)
    requires Partly(s0, m.View(), n, root, level, i) && 0 < m.end
    requires forall q :: q in s0.owner <==> m.end <= q * PGSIZE < PHYSTOP
    ensures m.Range() && FreeList(m.View())
  {
    forall q: nat
      ensures q in m.owner <==> m.end <= q * PGSIZE < PHYSTOP
    {
      assert q in m.owner.Keys <==> q in s0.owner.Keys;
    }
  }

  /** Every entry of a level-0 table of root is the entry of some virtual page. */
  lemma EntryHasPage(s: State, root: nat, t: nat, k: nat)
    requires Inv(s) && IsNode(s.owner, t, root, 0) && k < PTES
    ensures var v := HomeVpn(s.owner, t, k); v < MAXVPN && Entry(s.pages, t, k) == Pte(s.pages, root, v)
  {
    NodeFacts(s, t);
    HomeTable(s, t, k);
    assert RoleOk(s, t);
    assert RoleOk(s, s.owner[t].parent);
  }

  ghost predicate MarkedMap(pages: map<nat, Page>, root: nat) {
    forall v :: 0 <= v < MAXVPN ==> MarkedPage(pages, root, v)
  }

  ghost predicate MarkedPage(pages: map<nat, Page>, root: nat, v: nat) {
    V(Pte(pages, root, v)) ==> Rwx(Pte(pages, root, v))
  }

  lemma WholeTree(s: State, root: nat)
    requires Inv(s) && IsRoot(s.owner, root) && MarkedMap(s.pages, root)
    ensures Subtree(s, root, root, 2)
  {
    hide V, Rwx, Vpn, Pte;
    InvHasList(s);
    forall m | Under(s.owner, m, root, root, 2)
      ensures Limb(s.pages, s.owner, m, root, s.owner[m])
    {
      assert RoleOk(s, m);
      if s.owner[m].level == 0 {
        forall k | 0 <= k < PTES
          ensures MarkedAt(s.pages, m, k)
        {
          EntryHasPage(s, root, m, k);
          assert MarkedPage(s.pages, root, HomeVpn(s.owner, m, k));
        }
      }
    }
  }

  /** The tables of a tree are those that hang from its root. */
  lemma AllUnder(s: State, root: nat, m: nat)
    requires Inv(s) && m in s.owner && s.owner[m].Node? && s.owner[m].root == root
    ensures Under(s.owner, m, root, root, 2)
  {
    assert RoleOk(s, m);
    if s.owner[m].level < 2 {
      assert RoleOk(s, s.owner[m].parent);
    }
  }

  /** Nothing is mapped at all. */
  ghost predicate NoMap(pages: map<nat, Page>, root: nat) {
    forall v :: 0 <= v < MAXVPN ==> Vacant(pages, root, v)
  }

  lemma BareIsNoMap(s: State, root: nat)
    requires Inv(s) && IsRoot(s.owner, root)
    ensures BareTree(s, root, root, 2) <==> NoMap(s.pages, root)
  {
    hide V, Vpn;
    if BareTree(s, root, root, 2) {
      forall v | 0 <= v < MAXVPN
        ensures Vacant(s.pages, root, v)
      {
        PathFacts(s, root, v);
        ZeroPath(s, root, v);
        if TableOf(s.pages, root, v) != 0 {
          AllUnder(s, root, TableOf(s.pages, root, v));
        }
      }
    }
    if NoMap(s.pages, root) {
      forall m | Under(s.owner, m, root, root, 2) && s.owner[m].level == 0
        ensures Bare(s.pages, m)
      {
        forall k | 0 <= k < PTES
          ensures !V(Entry(s.pages, m, k))
        {
          EntryHasPage(s, root, m, k);
          assert Vacant(s.pages, root, HomeVpn(s.owner, m, k));
        }
      }
    }
  }

  /** With the tree gone the other trees, the held pages and the free list are in order. */
  lemma FelledInv(s: State, s': State, root: nat)
    requires Inv(s) && IsRoot(s.owner, root) && BareTree(s, root, root, 2)
    requires Felled(s, s', root, root, 2) && FreeList(s')
    ensures Inv(s')
  {
    forall m | m in s'.owner
      ensures RoleOk(s', m)
    {
      assert m in s.owner.Keys;
      FelledRole(s, s', root, m);
    }
  }

  lemma FelledRole(s: State, s': State, root: nat, m: nat)
    requires Inv(s) && IsRoot(s.owner, root) && BareTree(s, root, root, 2)
    requires Felled(s, s', root, root, 2) && FreeList(s') && m in s.owner && m in s'.owner
    ensures RoleOk(s', m)
  {
    hide V, Ppn;
    assert RoleOk(s, m) && FelledAt(s, s', root, root, 2, m);
    var x := s.owner[m];
    if x.Node? && x.root == root {
      AllUnder(s, root, m);
    } else if x.Node? {
      assert m in s.pages.Keys && m in s'.pages.Keys;
      if x.level < 2 {
        OtherTree(s, s', root, x.parent);
      }
      if x.level > 0 {
        forall k | 0 <= k < PTES
          ensures ChildOk(s'.pages, s'.owner, m, x, k)
        {
          assert ChildOk(s.pages, s.owner, m, x, k);
          OtherTree(s, s', root, m);
          if V(Entry(s.pages, m, k)) {
            OtherTree(s, s', root, Ppn(Entry(s.pages, m, k)));
          }
        }
      }
    } else if x.Leaf? {
      assert RoleOk(s, x.table);
      if s.owner[x.table].root == root {
        AllUnder(s, root, x.table);
      }
      OtherTree(s, s', root, x.table);
      assert m in s.pages.Keys && m in s'.pages.Keys;
    }
  }

  lemma OtherTree(s: State, s': State, root: nat, m: nat)
    requires Felled(s, s', root, root, 2) && Inv(s) && m in s.owner && s.owner[m].Node? && s.owner[m].root != root
    ensures m in s'.owner && s'.owner[m] == s.owner[m] && m in s.pages && m in s'.pages && s'.pages[m] == s.pages[m]
  {
    assert FelledAt(s, s', root, root, 2, m);
    assert m in s.pages.Keys && m in s'.pages.Keys;
  }

  /**
    From s to s' the tables of root and the pages held through its virtual pages below np are free;
    every other page has the holder and the contents it had.
   */
  ghost predicate Freed(s: State, s': State, root: nat, np: nat) {
    && s.stack <= s'.stack && s'.owner.Keys == s.owner.Keys && s'.pages.Keys == s.pages.Keys
    && forall n :: n in s.owner ==> FreedAt(s, s', root, np, n)
  }

  ghost predicate FreedAt(s: State, s': State, root: nat, np: nat, n: nat)
    requires n in s.owner
  {
    && n in s'.owner
    && if (s.owner[n].Node? && s.owner[n].root == root) || HeldIn(s.owner, s.owner[n], root, 0, np) then s'.owner[n].Free?
       else s'.owner[n] == s.owner[n] && (n in s.pages && n in s'.pages ==> s'.pages[n] == s.pages[n])
  }

  lemma FreedFacts(s0: State, s: State, s': State, root: nat, np: nat)
    requires Inv(s0) && Inv(s) && Released(s0, s, root, 0, np) && Felled(s, s', root, root, 2)
    ensures Freed(s0, s', root, np)
  {
    hide HeldIn;
    forall n | n in s0.owner
      ensures FreedAt(s0, s', root, np, n)
    {
      assert ReleasedAt(s0, s, root, 0, np, n) && FelledAt(s, s', root, root, 2, n);
      if s.owner[n].Node? && s.owner[n].root == root {
        AllUnder(s, root, n);
      }
      if n in s0.pages {
        assert n in s.pages.Keys;
      }
      HeldIsLeaf(s0.owner, s0.owner[n], root, np);
    }
  }

  lemma HeldIsLeaf(owner: map<nat, Role>, x: Role, root: nat, np: nat)
    ensures HeldIn(owner, x, root, 0, np) ==> x.Leaf?
  {
  }

  /** uvmfree succeeds: user memory is mapped up to np and nothing is mapped above. */
  ghost predicate FreesCleanly(pages: map<nat, Page>, root: nat, np: nat) {
    Unmappable(pages, root, 0, np) && forall v :: np <= v < MAXVPN ==> Vacant(pages, root, v)
  }

  lemma AfterUnmap(s0: State, s: State, root: nat, np: nat)
    requires Inv(s0) && IsRoot(s0.owner, root) && MarkedMap(s0.pages, root)
    requires Rewritten(s0, s, root, 0, Nothing(np)) && Unmappable(s0.pages, root, 0, np)
    ensures MarkedMap(s.pages, root) && (NoMap(s.pages, root) <==> FreesCleanly(s0.pages, root, np))
  {
    hide V, Rwx, Bad, Pte;
    ZeroInvalid();
    forall v | 0 <= v < MAXVPN
      ensures MarkedPage(s.pages, root, v) && (Vacant(s.pages, root, v) <==> v < np || Vacant(s0.pages, root, v))
    {
      assert RewrittenAt(s0.pages, s.pages, root, 0, Nothing(np), root, v);
      assert MarkedPage(s0.pages, root, v);
    }
  }

  /**
    uvmfree(): every table of root and every page of user memory goes back to the free list exactly once,
    and no other page is touched.  Stopped stands for a panic.
   */
  method Uvmfree(m: Memory, root: nat, sz: nat) returns (r: Status)
    requires m.Valid() && IsRoot(m.owner, root) && MarkedMap(m.pages, root)
    requires forall v :: 0 <= v < PageUp(sz) ==> Fits(m.View(), root, v, true)
    modifies m
    ensures !r.Failed? && (r.Ok? <==> FreesCleanly(old(m.pages), root, PageUp(sz)))
    ensures r.Ok? ==> m.Valid() && Freed(old(m.View()), m.View(), root, PageUp(sz))
  {
    hide Inv, Rewritten, Released, Unmappable, MarkedMap, Fits, Subtree, BareTree, Felled, FreeList, Freed, NoMap;
    ghost var s0 := m.View();
    ghost var np := PageUp(sz);
    UnmapStart(s0, root, 0);
    if sz > 0 {
      assert RoundUp(sz) / PGSIZE == np;
      r := Uvmunmap(m, root, 0, RoundUp(sz) / PGSIZE, true);
      if r.Stopped? {
        return;
      }
    }
    ghost var s := m.View();
    AfterUnmap(s0, s, root, np);
    WholeTree(s, root);
    BareIsNoMap(s, root);
    var panicked := Freewalk(m, root, root, 2);
    if panicked {
      return Stopped;
    }
    FelledInv(s, m.View(), root);
    FreedFacts(s0, s, m.View(), root, np);
    return Ok;
  }
}
