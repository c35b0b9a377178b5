/**
  User memory: which virtual page a held page belongs to, what it means for a process to own its
  pages, and how the holders change when mappings are removed (kernel/vm.c).
 */
module UserPages {
  import opened PageTable
  import opened PageSteps
  import opened Vm

  // ---------- the virtual page behind a Leaf role

  function NodeIndex(owner: map<nat, Role>, t: nat): nat {
    if t in owner && owner[t].Node? then owner[t].index else 0
  }

  function NodeParent(owner: map<nat, Role>, t: nat): nat {
    if t in owner && owner[t].Node? then owner[t].parent else 0
  }

  function NodeRoot(owner: map<nat, Role>, t: nat): nat {
    if t in owner && owner[t].Node? then owner[t].root else 0
  }

  function Vpn(i2: nat, i1: nat, i0: nat): nat {
    i2 * 0x4_0000 + i1 * PTES + i0
  }

  function HomeVpn(owner: map<nat, Role>, t: nat, k: nat): nat {
    Vpn(NodeIndex(owner, NodeParent(owner, t)), NodeIndex(owner, t), k)
  }

  /** Page n is held through the mapping of a virtual page of root between lo and hi. */
  ghost predicate HeldIn(owner: map<nat, Role>, x: Role, root: nat, lo: nat, hi: nat) {
    x.Leaf? && NodeRoot(owner, x.table) == root && lo <= HomeVpn(owner, x.table, x.slot) < hi
  }

  /** The page mapped at v is held through that mapping. */
  ghost predicate Owned(s: State, root: nat, v: nat) {
    var w := Pte(s.pages, root, v);
    V(w) && Ppn(w) in s.owner && s.owner[Ppn(w)] == Leaf(TableOf(s.pages, root, v), Px0(v))
  }

  lemma VpnParts(v: nat)
    requires v < MAXVPN
    ensures Vpn(Px2(v), Px1(v), Px0(v)) == v
  {
    assert v / 0x4_0000 == v / PTES / PTES;
  }

  lemma VpnIndices(i2: nat, i1: nat, i0: nat)
    requires i2 < PTES && i1 < PTES && i0 < PTES
    ensures var v := Vpn(i2, i1, i0); Px2(v) == i2 && Px1(v) == i1 && Px0(v) == i0
  {
    var v := Vpn(i2, i1, i0);
    assert v / PTES == i2 * PTES + i1;
    assert v / 0x4_0000 == i2;
  }

  /** The level-0 table t sits where its roles say. */
  lemma HomeTable(s: State, t: nat, k: nat)
    requires Inv(s) && IsLow(s, t) && k < PTES
    ensures IsRoot(s.owner, s.owner[t].root)
    ensures var v := HomeVpn(s.owner, t, k); TableOf(s.pages, s.owner[t].root, v) == t && Px0(v) == k
  {
    assert RoleOk(s, t);
    var x := s.owner[t];
    assert RoleOk(s, x.parent);
    var y := s.owner[x.parent];
    assert RoleOk(s, y.parent);
    VpnIndices(y.index, x.index, k);
  }

  lemma HomeOfPath(s: State, root: nat, v: nat)
    requires Inv(s) && IsRoot(s.owner, root) && v < MAXVPN && TableOf(s.pages, root, v) != 0
    ensures var t := TableOf(s.pages, root, v); NodeRoot(s.owner, t) == root && HomeVpn(s.owner, t, Px0(v)) == v
  {
    PathFacts(s, root, v);
    MidFacts(s, root, v);
    VpnParts(v);
  }

  /** Exactly one page is held through an owned mapping. */
  lemma OwnedHolds(s: State, root: nat, v: nat, n: nat)
    requires Inv(s) && IsRoot(s.owner, root) && v < MAXVPN && Owned(s, root, v) && n in s.owner
    ensures HeldIn(s.owner, s.owner[n], root, v, v + 1) <==> n == Ppn(Pte(s.pages, root, v))
  {
    hide Vpn, V, Ppn;
    ZeroPath(s, root, v);
    HomeOfPath(s, root, v);
    if HeldIn(s.owner, s.owner[n], root, v, v + 1) {
      assert RoleOk(s, n);
      assert RoleOk(s, s.owner[n].table);
      HomeTable(s, s.owner[n].table, s.owner[n].slot);
    }
  }

  lemma ZeroPath(s: State, root: nat, v: nat)
    requires Inv(s)
    ensures TableOf(s.pages, root, v) == 0 ==> Pte(s.pages, root, v) == 0 && !V(Pte(s.pages, root, v))
  {
  }

  // ---------- every page in one place

  /** The free list holds exactly the free pages, each once. */
  lemma FreeOnce(s: State, n: nat, i: nat, j: nat)
    requires Inv(s) && n in s.owner && i < |s.stack| && j < |s.stack|
    ensures n in s.stack <==> s.owner[n].Free?
    ensures s.stack[i] == s.stack[j] ==> i == j
  {
    assert RoleOk(s, n);
    assert FreeAt(s.pages, s.stack, s.owner, i) && FreeAt(s.pages, s.stack, s.owner, j);
    ListedIsFree(s, n);
  }

  lemma ListedIsFree(s: State, n: nat)
    requires Inv(s)
    ensures n in s.stack ==> n in s.owner && s.owner[n].Free?
  {
    if n in s.stack {
      var k :| 0 <= k < |s.stack| && s.stack[k] == n;
      assert FreeAt(s.pages, s.stack, s.owner, k);
    }
  }

  /** A page serves as a table in at most one position of one tree. */
  lemma TableOnce(s: State, r: nat, v: nat, r': nat, v': nat)
    requires Inv(s) && IsRoot(s.owner, r) && IsRoot(s.owner, r') && v < MAXVPN && v' < MAXVPN
    ensures TableOf(s.pages, r, v) == TableOf(s.pages, r', v') != 0 ==> r == r' && Px2(v) == Px2(v') && Px1(v) == Px1(v')
    ensures MidOf(s.pages, r, v) == MidOf(s.pages, r', v') != 0 ==> r == r' && Px2(v) == Px2(v')
  {
    PathFacts(s, r, v);
    PathFacts(s, r', v');
    MidFacts(s, r, v);
    MidFacts(s, r', v');
  }

  /** A page is held through at most one virtual page of one process, and is then neither free nor a table. */
  lemma HeldOnce(s: State, r: nat, v: nat, r': nat, v': nat)
    requires Inv(s) && IsRoot(s.owner, r) && IsRoot(s.owner, r') && v < MAXVPN && v' < MAXVPN
    requires Owned(s, r, v) && Owned(s, r', v') && Ppn(Pte(s.pages, r, v)) == Ppn(Pte(s.pages, r', v'))
    ensures r == r' && v == v' && Ppn(Pte(s.pages, r, v)) !in s.stack
  {
    ZeroPath(s, r, v);
    PathsDiffer(s, r, v, r', v');
    ListedIsFree(s, Ppn(Pte(s.pages, r, v)));
  }

  // ---------- removing mappings

  /**
    From s to s' the pages held through virtual pages lo..hi of root became free; every other page has
    the holder it had, and outside the tables of root the contents it had.
   */
  ghost predicate Released(s: State, s': State, root: nat, lo: nat, hi: nat) {
    && s.stack <= s'.stack && s'.owner.Keys == s.owner.Keys && s'.pages.Keys == s.pages.Keys
    && forall n :: n in s.owner ==> ReleasedAt(s, s', root, lo, hi, n)
  }

  ghost predicate ReleasedAt(s: State, s': State, root: nat, lo: nat, hi: nat, n: nat)
    requires n in s.owner
  {
    && n in s'.owner
    && if HeldIn(s.owner, s.owner[n], root, lo, hi) then s'.owner[n].Free?
       else
         && s'.owner[n] == s.owner[n]
         && (n in s.pages && n in s'.pages && !(s.owner[n].Node? && s.owner[n].root == root) ==> s'.pages[n] == s.pages[n])
  }

  lemma ReleasedMore(s: State, s': State, s'': State, root: nat, lo: nat, mid: nat, hi: nat)
    requires lo <= mid <= hi && Released(s, s', root, lo, mid) && Released(s', s'', root, mid, hi) && Inv(s)
    ensures Released(s, s'', root, lo, hi)
  {
    forall n | n in s.owner
      ensures ReleasedAt(s, s'', root, lo, hi, n)
    {
      assert ReleasedAt(s, s', root, lo, mid, n) && ReleasedAt(s', s'', root, mid, hi, n);
      if s.owner[n].Leaf? {
        HomeStable(s, s', root, lo, mid, n);
      }
    }
  }

  /** The tables above a held page keep their roles. */
  lemma HomeStable(s: State, s': State, root: nat, lo: nat, hi: nat, n: nat)
    requires Released(s, s', root, lo, hi) && Inv(s) && n in s.owner && s.owner[n].Leaf?
    ensures var x := s.owner[n];
      && NodeRoot(s'.owner, x.table) == NodeRoot(s.owner, x.table)
      && HomeVpn(s'.owner, x.table, x.slot) == HomeVpn(s.owner, x.table, x.slot)
  {
    hide Vpn;
    assert RoleOk(s, n);
    var t := s.owner[n].table;
    assert RoleOk(s, t) && ReleasedAt(s, s', root, lo, hi, t);
    assert ReleasedAt(s, s', root, lo, hi, s.owner[t].parent);
  }

  /** What one iteration of uvmunmap with do_free does. */
  function Dropped(s: State, n: nat, t: nat, k: nat): State
    requires IsTable(s.pages, t) && k < PTES && n != t
  {
    SetPte(FreePage(Disown(s, n), n), t, k, 0)
  }

  lemma DroppedKeeps(s: State, root: nat, v: nat)
    requires Inv(s) && IsRoot(s.owner, root) && v < MAXVPN && Owned(s, root, v)
    ensures var t := TableOf(s.pages, root, v); var n := Ppn(Pte(s.pages, root, v));
      && t != 0 && IsLow(s, t) && Px0(v) < PTES && n != t && n in s.owner && s.owner[n].Leaf?
      && Inv(Disown(s, n)) && Inv(FreePage(Disown(s, n), n)) && Inv(Dropped(s, n, t, Px0(v)))
      && Rewritten(s, Dropped(s, n, t, Px0(v)), root, v, [0])
  {
    hide V, Ppn, Rewritten, Inv;
    ZeroPath(s, root, v);
    PathFacts(s, root, v);
    var t := TableOf(s.pages, root, v);
    var n := Ppn(Pte(s.pages, root, v));
    NodeFacts(s, t);
    DisownKeeps(s, n);
    var s1 := Disown(s, n);
    FreePageKeeps(s1, n);
    var s2 := FreePage(s1, n);
    assert SameMap(s.pages, s2.pages, root, v) && IsRoot(s1.owner, root);
    WriteEntry(s2, root, v, 0);
    DropMaySet(s2, t, Px0(v), n);
    SetPteKeeps(s2, t, Px0(v), 0);
    assert SameMaps(s, s1);
    SameMapsTrans(s, s1, s2);
    RewrittenAfterSame(s, s2, Dropped(s, n, t, Px0(v)), root, v, [0]);
  }

  lemma DropMaySet(s: State, t: nat, k: nat, n: nat)
    requires Inv(s) && IsLow(s, t) && k < PTES && n == Ppn(Entry(s.pages, t, k)) && n in s.owner && s.owner[n].Free?
    ensures MaySet(s, t, k, 0)
  {
  }

  lemma DroppedReleased(s: State, root: nat, v: nat)
    requires Inv(s) && IsRoot(s.owner, root) && v < MAXVPN && Owned(s, root, v)
    requires var t := TableOf(s.pages, root, v); var n := Ppn(Pte(s.pages, root, v));
      IsLow(s, t) && Px0(v) < PTES && n != t && n in s.owner
    ensures Released(s, Dropped(s, Ppn(Pte(s.pages, root, v)), TableOf(s.pages, root, v), Px0(v)), root, v, v + 1)
  {
    hide V, Ppn, HeldIn;
    ZeroPath(s, root, v);
    PathFacts(s, root, v);
    var t := TableOf(s.pages, root, v);
    var n := Ppn(Pte(s.pages, root, v));
    var s' := Dropped(s, n, t, Px0(v));
    assert s'.owner.Keys == s.owner.Keys && s'.pages.Keys == s.pages.Keys;
    forall m | m in s.owner
      ensures ReleasedAt(s, s', root, v, v + 1, m)
    {
      OwnedHolds(s, root, v, m);
    }
  }
}
