/**
  The page-table code of kernel/vm.c over the physical memory of module Kalloc.  Every operation is
  described by what it does to the flat map Pte from virtual pages to entries, in all trees at once.
 */
module Vm {
  import opened PageTable
  import opened PageSteps
  import opened PageCount
  import opened Kalloc

  datatype Walked = Panic | Null | At(table: nat, index: nat)

  function Px(level: nat, v: nat): nat {
    if level == 2 then Px2(v) else if level == 1 then Px1(v) else Px0(v)
  }

  /** The macro's shifts and mask on an address pick the same index. */
  lemma PxShift(va: nat)
    ensures va / 0x4000_0000 % 512 == Px(2, va / PGSIZE)
    ensures va / 0x20_0000 % 512 == Px(1, va / PGSIZE)
    ensures va / 0x1000 % 512 == Px(0, va / PGSIZE)
  {
    assert va / 0x4000_0000 == va / PGSIZE / 0x4_0000;
    assert va / 0x20_0000 == va / PGSIZE / 0x200;
  }

  /** The table the walk for v reaches at a level. */
  function PathAt(pages: map<nat, Page>, root: nat, v: nat, level: nat): nat {
    if level == 2 then root else if level == 1 then MidOf(pages, root, v) else TableOf(pages, root, v)
  }

  lemma PathStep(pages: map<nat, Page>, root: nat, v: nat, level: nat)
    requires 0 < level <= 2
    ensures PathAt(pages, root, v, level - 1) == Next(pages, PathAt(pages, root, v, level), Px(level, v))
  {
  }

  lemma GrownRefl(s: State, root: nat)
    ensures Grown(s, s, root)
  {
  }

  // ---------- walk

  /** The branch of walk() that adds a table under entry k of pt; 0 when no page is left. */
  method Extend(m: Memory, pt: nat, k: nat) returns (n: nat)
    requires m.Valid() && MayExtend(m.View(), pt, k)
    modifies m
    ensures m.Valid()
    ensures old(m.stack) == [] ==> n == 0 && m.View() == old(m.View())
    ensures old(m.stack) != [] ==> Top(old(m.stack)) != pt
    ensures old(m.stack) != [] ==> n == Top(old(m.stack)) != 0 && m.View() == Extended(old(m.View()), pt, k)
  {
    hide Inv, SameMaps;
    var pa := m.Kalloc();
    n := pa / PGSIZE;
    if n != 0 {
      ExtendedKeeps(old(m.View()), pt, k);
      m.pages := m.pages[n := ZeroTable()];
      m.pages := m.pages[pt := Table(m.pages[pt].entries[k := n * 1024 + 1])];
      m.owner := m.owner[n := Node(m.owner[pt].root, m.owner[pt].level - 1, pt, k)];
    }
  }

  /** walk(): the slot of virtual address va's level-0 entry. */
  method Walk(m: Memory, root: nat, va: nat, alloc: bool) returns (r: Walked)
    requires m.Valid() && IsRoot(m.owner, root)
    modifies m
    ensures m.Valid() && SameMaps(old(m.View()), m.View()) && Grown(old(m.View()), m.View(), root)
    ensures r.Panic? <==> va >= MAXVA
    ensures r.At? ==> r.table == TableOf(m.pages, root, va / PGSIZE) != 0 && r.index == Px0(va / PGSIZE)
    ensures r.Null? ==> TableOf(m.pages, root, va / PGSIZE) == 0 && (alloc ==> m.stack == [])
    ensures !alloc || r.Panic? ==> m.View() == old(m.View())
    ensures var need := Missing(old(m.pages), root, va / PGSIZE);
      && (alloc && va < MAXVA ==> (r.Null? <==> |old(m.stack)| < need))
      && (r.At? ==> |m.stack| + need == |old(m.stack)| && Widened(old(m.pages), m.pages, root, va / PGSIZE, true, true))
  {
    hide Inv, SameMaps, Grown, V, Ppn, Widened, Extended, MidOf, TableOf;
    SameMapsRefl(m.View());
    GrownRefl(m.View(), root);
    WidenedNone(m.pages, root, va / PGSIZE);
    if va >= MAXVA {
      return Panic;
    }
    var v := va / PGSIZE;
    var pt, level := root, 2;
    NodeFacts(m.View(), root);
    while level > 0
      invariant level <= 2 && m.Valid() && IsRoot(m.owner, root) && IsNode(m.owner, pt, root, level) && IsTable(m.pages, pt)
      invariant SameMaps(old(m.View()), m.View()) && Grown(old(m.View()), m.View(), root)
      invariant pt == PathAt(m.pages, root, v, level)
      invariant !alloc ==> m.View() == old(m.View())
      invariant |m.stack| + Missing(old(m.pages), root, v) == |old(m.stack)| + Missing(m.pages, root, v)
      invariant Widened(old(m.pages), m.pages, root, v, level <= 1, level == 0)
    {
      PathStep(m.pages, root, v, level);
      var k := Px(level, v);
      var pte := m.pages[pt].entries[k];
      if V(pte) {
        StepDown(m.View(), pt, k);
        TableThere(old(m.pages), m.pages, root, v, level);
        pt := Ppn(pte);
      } else {
        NodeFacts(m.View(), pt);
        NullBelow(m.pages, root, v, level);
        if !alloc {
          return Null;
        }
        ghost var s := m.View();
        var n := Extend(m, pt, k);
        if n == 0 {
          return Null;
        }
        ExtendedPath(s, root, v, level);
        TableAdded(old(m.pages), s, root, v, level);
        SameMapsTrans(old(m.View()), s, m.View());
        GrownTrans(old(m.View()), s, m.View(), root);
        pt := n;
      }
      level := level - 1;
    }
    return At(pt, Px(0, v));
  }

  /** The walk goes down to a table that is there. */
  lemma TableThere(p0: map<nat, Page>, p: map<nat, Page>, root: nat, v: nat, level: nat)
    requires 0 < level <= 2 && v < MAXVPN && V(Entry(p, PathAt(p, root, v, level), Px(level, v)))
    requires Ppn(Entry(p, PathAt(p, root, v, level), Px(level, v))) != 0
    requires Widened(p0, p, root, v, level <= 1, level == 0)
    ensures Widened(p0, p, root, v, level - 1 <= 1, level - 1 == 0)
  {
    hide Widened, V, Ppn, Entry;
    PathStep(p, root, v, level);
    WidenedThere(p, root, v, level == 2, level == 1);
    WidenedTrans(p0, p, p, root, v, level <= 1, level == 0, level == 2, level == 1);
  }

  /** The walk adds a table. */
  lemma TableAdded(p0: map<nat, Page>, s: State, root: nat, v: nat, level: nat)
    requires Inv(s) && IsRoot(s.owner, root) && 0 < level <= 2 && s.stack != [] && v < MAXVPN
    requires var pt := PathAt(s.pages, root, v, level);
      IsNode(s.owner, pt, root, level) && MayExtend(s, pt, Px(level, v)) && Top(s.stack) != pt && pt != 0
    requires Widened(p0, s.pages, root, v, level <= 1, level == 0) && 0 !in s.pages
    ensures var s' := Extended(s, PathAt(s.pages, root, v, level), Px(level, v));
      && Widened(p0, s'.pages, root, v, level - 1 <= 1, level - 1 == 0)
      && |s'.stack| == |s.stack| - 1 && Missing(s'.pages, root, v) == Missing(s.pages, root, v) - 1
  {
    hide Widened, V, Ppn;
    var s' := Extended(s, PathAt(s.pages, root, v, level), Px(level, v));
    NullBelow(s.pages, root, v, level);
    if level == 2 {
      assert MidOf(s.pages, root, v) == 0;
      ExtendedMid(s, root, v);
      WidenedTrans(p0, s.pages, s'.pages, root, v, false, false, true, false);
    } else {
      ExtendedLow(s, root, v);
      WidenedTrans(p0, s.pages, s'.pages, root, v, true, false, false, true);
    }
  }

  lemma NodeFacts(s: State, n: nat)
    requires Inv(s) && n in s.owner && s.owner[n].Node?
    ensures IsTable(s.pages, n) && n != 0 && 0 !in s.pages
  {
    assert RoleOk(s, n);
  }

  /** A valid interior entry leads to a table one level down. */
  lemma StepDown(s: State, pt: nat, k: nat)
    requires Inv(s) && pt in s.owner && s.owner[pt].Node? && s.owner[pt].level > 0 && k < PTES && V(Entry(s.pages, pt, k))
    ensures var c := Ppn(Entry(s.pages, pt, k));
      c != 0 && IsTable(s.pages, c) && IsNode(s.owner, c, s.owner[pt].root, s.owner[pt].level - 1)
  {
    assert RoleOk(s, pt);
    assert ChildOk(s.pages, s.owner, pt, s.owner[pt], k);
    assert RoleOk(s, Ppn(Entry(s.pages, pt, k)));
  }

  /** Where the path stops, the translation is empty. */
  lemma NullBelow(pages: map<nat, Page>, root: nat, v: nat, level: nat)
    requires 0 < level <= 2 && !V(Entry(pages, PathAt(pages, root, v, level), Px(level, v))) && 0 !in pages
    ensures TableOf(pages, root, v) == 0
  {
  }

  lemma ExtendedPath(s: State, root: nat, v: nat, level: nat)
    requires Inv(s) && IsRoot(s.owner, root) && 0 < level <= 2 && s.stack != [] && v < MAXVPN
    requires var pt := PathAt(s.pages, root, v, level); IsNode(s.owner, pt, root, level) && MayExtend(s, pt, Px(level, v))
    requires Top(s.stack) != PathAt(s.pages, root, v, level)
    ensures var s' := Extended(s, PathAt(s.pages, root, v, level), Px(level, v)); var n := Top(s.stack);
      && SameMaps(s, s') && Grown(s, s', root) && IsRoot(s'.owner, root)
      && PathAt(s'.pages, root, v, level - 1) == n && IsTable(s'.pages, n) && IsNode(s'.owner, n, root, level - 1)
  {
    hide Inv, SameMaps, Grown, V, Ppn;
    var pt, k := PathAt(s.pages, root, v, level), Px(level, v);
    TopFacts(s);
    ExtendedKeeps(s, pt, k);
    ExtendedGrown(s, pt, k);
    ExtendedEntry(s, pt, k, root, Px2(v));
    ExtendedEntry(s, pt, k, pt, k);
    PathStep(Extended(s, pt, k).pages, root, v, level);
  }

  // ---------- ranges of entries

  /** From s to s' the entries of tree root from virtual page lo on became w; no other translation changed. */
  ghost predicate Rewritten(s: State, s': State, root: nat, lo: nat, w: seq<nat>) {
    && (forall r :: IsRoot(s.owner, r) ==> IsRoot(s'.owner, r))
    && forall r, v :: IsRoot(s.owner, r) && 0 <= v < MAXVPN ==> RewrittenAt(s.pages, s'.pages, root, lo, w, r, v)
  }

  ghost predicate RewrittenAt(pages: map<nat, Page>, pages': map<nat, Page>, root: nat, lo: nat, w: seq<nat>, r: nat, v: nat) {
    && (TableOf(pages, r, v) != 0 ==> TableOf(pages', r, v) == TableOf(pages, r, v))
    && Pte(pages', r, v) == if r == root && lo <= v < lo + |w| then w[v - lo] else Pte(pages, r, v)
  }

  lemma RewrittenNone(s: State, s': State, root: nat, lo: nat)
    ensures Rewritten(s, s', root, lo, []) <==> SameMaps(s, s')
  {
    if Rewritten(s, s', root, lo, []) {
      forall r, v | IsRoot(s.owner, r) && 0 <= v < MAXVPN
        ensures SameMap(s.pages, s'.pages, r, v)
      {
        assert RewrittenAt(s.pages, s'.pages, root, lo, [], r, v);
      }
    }
    if SameMaps(s, s') {
      forall r, v | IsRoot(s.owner, r) && 0 <= v < MAXVPN
        ensures RewrittenAt(s.pages, s'.pages, root, lo, [], r, v)
      {
        assert SameMap(s.pages, s'.pages, r, v);
      }
    }
  }

  lemma RewrittenMore(s: State, s': State, s'': State, root: nat, lo: nat, w: seq<nat>, x: seq<nat>)
    requires Rewritten(s, s', root, lo, w) && Rewritten(s', s'', root, lo + |w|, x)
    ensures Rewritten(s, s'', root, lo, w + x)
  {
    forall r, v | IsRoot(s.owner, r) && 0 <= v < MAXVPN
      ensures RewrittenAt(s.pages, s''.pages, root, lo, w + x, r, v)
    {
      assert RewrittenAt(s.pages, s'.pages, root, lo, w, r, v);
      assert IsRoot(s'.owner, r) && RewrittenAt(s'.pages, s''.pages, root, lo + |w|, x, r, v);
    }
  }

  /** What walk leaves behind is as good as nothing. */
  lemma RewrittenAfterSame(s: State, s': State, s'': State, root: nat, lo: nat, w: seq<nat>)
    requires SameMaps(s, s') && Rewritten(s', s'', root, lo, w)
    ensures Rewritten(s, s'', root, lo, w)
  {
    RewrittenNone(s, s', root, lo);
    RewrittenMore(s, s', s'', root, lo, [], w);
    assert [] + w == w;
  }

  /** The entry of v is overwritten: nothing else changes. */
  lemma WriteEntry(s: State, root: nat, v: nat, w: nat)
    requires Inv(s) && IsRoot(s.owner, root) && v < MAXVPN && TableOf(s.pages, root, v) != 0
    ensures var t := TableOf(s.pages, root, v);
      IsLow(s, t) && Px0(v) < PTES && Rewritten(s, SetPte(s, t, Px0(v), w), root, v, [w])
  {
    PathFacts(s, root, v);
    var t := TableOf(s.pages, root, v);
    NodeFacts(s, t);
    var s' := SetPte(s, t, Px0(v), w);
    forall r, u | IsRoot(s.owner, r) && 0 <= u < MAXVPN
      ensures RewrittenAt(s.pages, s'.pages, root, v, [w], r, u)
    {
      SetPteMap(s, t, Px0(v), w, r, u);
      if TableOf(s.pages, r, u) == t && Px0(u) == Px0(v) {
        PathsDiffer(s, root, v, r, u);
      }
    }
  }

  // ---------- mappages

  datatype Status = Ok | Failed | Stopped

  /** The entries mappages writes for n pages from address pa on. */
  function Words(pa: nat, perm: nat, n: nat): (w: seq<nat>)
    ensures |w| == n && forall i :: 0 <= i < n ==> w[i] == PteOf(pa + i * PGSIZE, perm)
  {
    seq(n, i requires 0 <= i < n => PteOf(pa + i * PGSIZE, perm))
  }

  /** An invalid entry holds no page. */
  lemma InvalidUnheld(s: State, t: nat, k: nat, w: nat)
    requires Inv(s) && IsLow(s, t) && k < PTES && !V(Entry(s.pages, t, k))
    ensures MaySet(s, t, k, w)
  {
    var n := Ppn(Entry(s.pages, t, k));
    if n in s.owner {
      assert RoleOk(s, n);
    }
  }

  lemma SetPteGrown(s: State, t: nat, k: nat, w: nat)
    requires IsLow(s, t) && k < PTES && Frame(s.pages, s.owner)
    ensures Grown(s, SetPte(s, t, k, w), s.owner[t].root)
  {
    assert SetPte(s, t, k, w).pages.Keys == s.pages.Keys;
  }

  /** A free entry for v is filled in. */
  lemma FillEntry(s: State, root: nat, v: nat, w: nat)
    requires Inv(s) && IsRoot(s.owner, root) && v < MAXVPN && TableOf(s.pages, root, v) != 0 && !V(Pte(s.pages, root, v))
    ensures var t := TableOf(s.pages, root, v);
      && IsLow(s, t) && Px0(v) < PTES && Inv(SetPte(s, t, Px0(v), w))
      && Rewritten(s, SetPte(s, t, Px0(v), w), root, v, [w]) && Grown(s, SetPte(s, t, Px0(v), w), root)
  {
    var t := TableOf(s.pages, root, v);
    PathFacts(s, root, v);
    WriteEntry(s, root, v, w);
    InvalidUnheld(s, t, Px0(v), w);
    SetPteKeeps(s, t, Px0(v), w);
    SetPteGrown(s, t, Px0(v), w);
  }

  /** No page of the range is mapped, and the range lies below MAXVA. */
  ghost predicate Unmapped(pages: map<nat, Page>, root: nat, lo: nat, hi: nat) {
    forall v :: lo <= v < hi ==> Vacant(pages, root, v)
  }

  predicate Vacant(pages: map<nat, Page>, root: nat, v: nat) {
    v < MAXVPN && !V(Pte(pages, root, v))
  }

  /** One iteration of mappages(). */
  method MapOne(m: Memory, root: nat, a: nat, pa: nat, perm: nat) returns (r: Status)
    requires m.Valid() && IsRoot(m.owner, root)
    modifies m
    ensures m.Valid() && IsRoot(m.owner, root) && Grown(old(m.View()), m.View(), root)
    ensures r.Stopped? <==> a >= MAXVA || V(Pte(old(m.pages), root, a / PGSIZE))
    ensures r.Ok? ==> Rewritten(old(m.View()), m.View(), root, a / PGSIZE, [PteOf(pa, perm)])
    ensures !r.Ok? ==> SameMaps(old(m.View()), m.View())
    ensures r.Failed? ==> m.stack == []
    ensures var need := Missing(old(m.pages), root, a / PGSIZE);
      && (!r.Stopped? ==> (r.Failed? <==> |old(m.stack)| < need))
      && (r.Ok? ==> |m.stack| + need == |old(m.stack)| && Widened(old(m.pages), m.pages, root, a / PGSIZE, true, true))
  {
    hide Inv, Rewritten, Grown, V, Widened, Missing;
    var pte := Walk(m, root, a, true);
    if pte.Panic? {
      return Stopped;
    }
    assert SameMap(old(m.pages), m.pages, root, a / PGSIZE);
    if pte.Null? {
      NodeFacts(m.View(), root);
      ZeroInvalid();
      return Failed;
    }
    ghost var s := m.View();
    PathFacts(s, root, a / PGSIZE);
    NodeFacts(s, pte.table);
    if V(m.pages[pte.table].entries[pte.index]) {
      return Stopped;
    }
    FillEntry(s, root, a / PGSIZE, PteOf(pa, perm));
    SetPteTables(s, pte.table, pte.index, PteOf(pa, perm), root, a / PGSIZE);
    WidenedTrans(old(m.pages), s.pages, SetPte(s, pte.table, pte.index, PteOf(pa, perm)).pages, root, a / PGSIZE, true, true, false, false);
    m.pages := m.pages[pte.table := Table(m.pages[pte.table].entries[pte.index := PteOf(pa, perm)])];
    RewrittenAfterSame(old(m.View()), s, m.View(), root, a / PGSIZE, [PteOf(pa, perm)]);
    GrownTrans(old(m.View()), s, m.View(), root);
    return Ok;
  }

  /**
    mappages(): on success the range from va on, and nothing else, translates to consecutive physical
    pages.  On failure the first pages of the range do, and no free page is left.  It panics exactly if
    the page after those it has filled is beyond MAXVA or mapped.
   */
  method Mappages(m: Memory, root: nat, va: nat, size: nat, pa: nat, perm: nat) returns (r: Status, ghost w: seq<nat>)
    requires m.Valid() && IsRoot(m.owner, root)
    modifies m
    ensures m.Valid() && IsRoot(m.owner, root) && Grown(old(m.View()), m.View(), root)
    ensures Rewritten(old(m.View()), m.View(), root, va / PGSIZE, w) && w == Words(pa, perm, |w|)
    ensures size == 0 ==> r.Stopped? && w == []
    ensures size > 0 ==> var last := (va + size - 1) / PGSIZE;
      && va / PGSIZE + |w| <= last + 1
      && Unmapped(old(m.pages), root, va / PGSIZE, va / PGSIZE + |w|)
      && (r.Ok? <==> va / PGSIZE + |w| == last + 1)
      && (!r.Ok? ==> var v := va / PGSIZE + |w|; r.Stopped? <==> v >= MAXVPN || V(Pte(old(m.pages), root, v)))
      && (r.Failed? ==> m.stack == [])
    ensures size > 0 ==> var first, end := va / PGSIZE, (va + size - 1) / PGSIZE + 1;
      && first + |w| <= end && |old(m.stack)| >= TablesNeeded(old(m.pages), root, first, first + |w|)
      && (r.Failed? ==> first + |w| < end && |old(m.stack)| < TablesNeeded(old(m.pages), root, first, first + |w| + 1))
      && (r.Ok? ==>
           && Ahead(old(m.pages), m.pages, root, first, end)
           && |m.stack| + TablesNeeded(old(m.pages), root, first, end) == |old(m.stack)|)
      && (!r.Stopped? ==> (r.Failed? <==> |old(m.stack)| < TablesNeeded(old(m.pages), root, first, end)))
  {
    hide Inv, Rewritten, Grown, V, Pte, Unmapped, TablesNeeded, Missing, Ahead, Widened;
    w := [];
    assert Unmapped(m.pages, root, va / PGSIZE, va / PGSIZE) by { NoneUnmapped(m.pages, root, va / PGSIZE); }
    RewrittenNone(m.View(), m.View(), root, va / PGSIZE);
    SameMapsRefl(m.View());
    GrownRefl(m.View(), root);
    if size == 0 {
      return Stopped, w;
    }
    var a := va / PGSIZE * PGSIZE;
    var last := (va + size - 1) / PGSIZE * PGSIZE;
    var p := pa;
    ghost var first := va / PGSIZE;
    AheadNone(m.pages, root, first);
    NoTables(m.pages, root, first);
    while true
      invariant Ahead(old(m.pages), m.pages, root, first, first + |w|)
      invariant |m.stack| + TablesNeeded(old(m.pages), root, first, first + |w|) == |old(m.stack)|
      invariant a == (first + |w|) * PGSIZE && a <= last && p == pa + |w| * PGSIZE && w == Words(pa, perm, |w|)
      invariant m.Valid() && IsRoot(m.owner, root) && Grown(old(m.View()), m.View(), root)
      invariant Rewritten(old(m.View()), m.View(), root, first, w)
      invariant Unmapped(old(m.pages), root, first, first + |w|)
      decreases last - a
    {
      ghost var s := m.View();
      r := MapOne(m, root, a, p, perm);
      MapOneFacts(old(m.View()), s, m.View(), root, first, w, r, a, p, perm);
      assert a / PGSIZE == first + |w|;
      if r.Stopped? {
        return;
      }
      TableHasMid(old(m.View()), root, first + |w|);
      NextNeeds(old(m.pages), s.pages, root, first, first + |w|);
      TablesMono(old(m.pages), root, first, first + |w| + 1, last / PGSIZE + 1);
      if r.Failed? {
        return;
      }
      WidenedAhead(s.pages, m.pages, root, first + |w|, true);
      AheadMore(old(m.pages), s.pages, m.pages, root, first, first + |w|, first + |w| + 1);
      w := w + [PteOf(p, perm)];
      if a == last {
        return;
      }
      a, p := a + PGSIZE, p + PGSIZE;
    }
  }

  lemma NoTables(pages: map<nat, Page>, root: nat, lo: nat)
    ensures TablesNeeded(pages, root, lo, lo) == 0
  {
  }

  lemma NoneUnmapped(pages: map<nat, Page>, root: nat, lo: nat)
    ensures Unmapped(pages, root, lo, lo)
  {
  }

  lemma MapOneFacts(s0: State, s: State, s': State, root: nat, first: nat, w: seq<nat>, r: Status, a: nat, p: nat, perm: nat)
    requires IsRoot(s0.owner, root) && Rewritten(s0, s, root, first, w) && Grown(s0, s, root) && Grown(s, s', root)
    requires a == (first + |w|) * PGSIZE && Unmapped(s0.pages, root, first, first + |w|)
    requires r.Stopped? <==> a >= MAXVA || V(Pte(s.pages, root, a / PGSIZE))
    requires if r.Ok? then Rewritten(s, s', root, a / PGSIZE, [PteOf(p, perm)]) else SameMaps(s, s')
    ensures a / PGSIZE == first + |w| && Grown(s0, s', root)
    ensures r.Ok? ==> Unmapped(s0.pages, root, first, first + |w| + 1)
    ensures first + |w| < MAXVPN ==> Pte(s.pages, root, first + |w|) == Pte(s0.pages, root, first + |w|)
    ensures Rewritten(s0, s', root, first, if r.Ok? then w + [PteOf(p, perm)] else w)
  {
    hide Grown, V;
    GrownTrans(s0, s, s', root);
    if first + |w| < MAXVPN {
      assert RewrittenAt(s0.pages, s.pages, root, first, w, root, first + |w|);
    }
    if r.Ok? {
      RewrittenMore(s0, s, s', root, first, w, [PteOf(p, perm)]);
    } else {
      RewrittenNone(s, s', root, first + |w|);
      RewrittenMore(s0, s, s', root, first, w, []);
      assert w + [] == w;
    }
  }

  /** uvmcreate(): an empty table, or 0 when no page is left. */
  method Uvmcreate(m: Memory) returns (root: nat)
    requires m.Valid()
    modifies m
    ensures m.Valid() && SameMaps(old(m.View()), m.View())
    ensures root == 0 <==> old(m.stack) == []
    ensures root != 0 ==>
      && root in old(m.owner) && old(m.owner)[root].Free? && m.owner == old(m.owner)[root := Node(root, 2, 0, 0)]
      && forall v :: 0 <= v < MAXVPN ==> Pte(m.pages, root, v) == 0
  {
    hide Inv, SameMaps, Pte;
    ghost var s0 := m.View();
    var pa := m.Kalloc();
    root := pa / PGSIZE;
    if root != 0 {
      ghost var s1 := m.View();
      PutKeeps(s1, root, ZeroTable());
      m.pages := m.pages[root := ZeroTable()];
      NewRootKeeps(m.View(), root);
      SameMapsTrans(s0, s1, m.View());
      SameMapsTrans(s0, m.View(), NewRoot(m.View(), root));
      m.owner := m.owner[root := Node(root, 2, 0, 0)];
    }
  }
}
