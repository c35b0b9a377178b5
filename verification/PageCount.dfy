/**
  How many pages it takes to map a range of virtual pages: the tables that are missing, counted in the tree as it
  is before the first page is mapped (kernel/vm.c).
 */
module PageCount {
  import opened PageTable
  import opened PageSteps

  /** How many tables are missing on the way to the level-0 entry of v. */
  function Missing(pages: map<nat, Page>, root: nat, v: nat): nat {
    if TableOf(pages, root, v) != 0 then 0 else if MidOf(pages, root, v) != 0 then 1 else 2
  }

  /** Page v, mapped after its neighbour if it is not the first, needs a level-1 or a level-0 table of its own. */
  predicate NeedsMid(pages: map<nat, Page>, root: nat, lo: nat, v: nat) {
    MidOf(pages, root, v) == 0 && (v == lo || v % 0x4_0000 == 0)
  }

  predicate NeedsTable(pages: map<nat, Page>, root: nat, lo: nat, v: nat) {
    TableOf(pages, root, v) == 0 && (v == lo || v % 512 == 0)
  }

  /** How many tables have to be added to map the virtual pages lo..hi one after the other. */
  function TablesNeeded(pages: map<nat, Page>, root: nat, lo: nat, hi: nat): nat
    requires lo <= hi
    decreases hi - lo
  {
    if hi == lo then 0
    else TablesNeeded(pages, root, lo, hi - 1) +
         (if NeedsMid(pages, root, lo, hi - 1) then 1 else 0) + (if NeedsTable(pages, root, lo, hi - 1) then 1 else 0)
  }

  /** At most one table for every page table of 512 pages the range touches, and as many again for each gigabyte. */
  lemma {:induction false} FewTables(pages: map<nat, Page>, root: nat, lo: nat, hi: nat)
    requires lo <= hi
    ensures lo < hi ==> TablesNeeded(pages, root, lo, hi) <= ((hi - 1) / 512 - lo / 512 + 1) + ((hi - 1) / 0x4_0000 - lo / 0x4_0000 + 1)
    decreases hi - lo
  {
    if hi > lo {
      var v := hi - 1;
      FewTables(pages, root, lo, v);
      if v > lo {
        assert v % 512 == 0 ==> (v - 1) / 512 == v / 512 - 1;
        assert v % 0x4_0000 == 0 ==> (v - 1) / 0x4_0000 == v / 0x4_0000 - 1;
        assert (v - 1) / 512 <= v / 512 && (v - 1) / 0x4_0000 <= v / 0x4_0000;
      }
    }
  }

  lemma {:induction false} TablesMono(pages: map<nat, Page>, root: nat, lo: nat, mid: nat, hi: nat)
    requires lo <= mid <= hi
    ensures TablesNeeded(pages, root, lo, mid) <= TablesNeeded(pages, root, lo, hi)
    decreases hi - mid
  {
    if mid < hi {
      TablesMono(pages, root, lo, mid, hi - 1);
    }
  }

  // ---------- which tables are there

  /** From pages to pages' level-1 tables were added for the pages that share one with v if mid holds, level-0
      tables likewise if low holds, and no others. */
  ghost predicate Widened(pages: map<nat, Page>, pages': map<nat, Page>, root: nat, v: nat, mid: bool, low: bool) {
    forall u :: 0 <= u < MAXVPN ==> WidenedAt(pages, pages', root, v, mid, low, u)
  }

  predicate WidenedAt(pages: map<nat, Page>, pages': map<nat, Page>, root: nat, v: nat, mid: bool, low: bool, u: nat) {
    && (MidOf(pages', root, u) != 0 <==> MidOf(pages, root, u) != 0 || (mid && u / 0x4_0000 == v / 0x4_0000))
    && (TableOf(pages', root, u) != 0 <==> TableOf(pages, root, u) != 0 || (low && u / 512 == v / 512))
  }

  lemma WidenedNone(pages: map<nat, Page>, root: nat, v: nat)
    ensures Widened(pages, pages, root, v, false, false)
  {
  }

  lemma WidenedTrans(p: map<nat, Page>, p': map<nat, Page>, p'': map<nat, Page>, root: nat, v: nat,
                     mid: bool, low: bool, mid': bool, low': bool)
    requires Widened(p, p', root, v, mid, low) && Widened(p', p'', root, v, mid', low')
    ensures Widened(p, p'', root, v, mid || mid', low || low')
  {
    var m, l := mid || mid', low || low';
    forall u | 0 <= u < MAXVPN
      ensures WidenedAt(p, p'', root, v, m, l, u)
    {
      assert WidenedAt(p, p', root, v, mid, low, u) && WidenedAt(p', p'', root, v, mid', low', u);
    }
  }

  lemma ShareMid(u: nat, v: nat)
    requires u < MAXVPN && v < MAXVPN
    ensures Px2(u) == Px2(v) <==> u / 0x4_0000 == v / 0x4_0000
  {
  }

  lemma ShareTable(u: nat, v: nat)
    requires u < MAXVPN && v < MAXVPN
    ensures Px2(u) == Px2(v) && Px1(u) == Px1(v) <==> u / 512 == v / 512
  {
    assert u / 0x4_0000 == u / 512 / 512 && v / 0x4_0000 == v / 512 / 512;
  }

  /** Tables that are there already count as added. */
  lemma WidenedThere(pages: map<nat, Page>, root: nat, v: nat, mid: bool, low: bool)
    requires v < MAXVPN && (mid ==> MidOf(pages, root, v) != 0) && (low ==> TableOf(pages, root, v) != 0)
    ensures Widened(pages, pages, root, v, mid, low)
  {
    forall u | 0 <= u < MAXVPN
      ensures WidenedAt(pages, pages, root, v, mid, low, u)
    {
      ShareMid(u, v);
      ShareTable(u, v);
    }
  }

  /** walk() adds a level-1 table. */
  lemma ExtendedMid(s: State, root: nat, v: nat)
    requires Inv(s) && IsRoot(s.owner, root) && v < MAXVPN && s.stack != [] && Top(s.stack) != root && MayExtend(s, root, Px2(v))
    ensures var s' := Extended(s, root, Px2(v));
      Widened(s.pages, s'.pages, root, v, true, false) && MidOf(s'.pages, root, v) != 0 && TableOf(s'.pages, root, v) == 0
  {
    hide V, Ppn, Flags, Inv;
    TopFacts(s);
    var s' := Extended(s, root, Px2(v));
    forall u | 0 <= u < MAXVPN
      ensures WidenedAt(s.pages, s'.pages, root, v, true, false, u) && (u == v ==> TableOf(s'.pages, root, u) == 0)
    {
      ExtendedMidAt(s, root, v, u);
    }
    ExtendedEntry(s, root, Px2(v), root, Px2(v));
  }

  lemma ExtendedMidAt(s: State, root: nat, v: nat, u: nat)
    requires Inv(s) && IsRoot(s.owner, root) && v < MAXVPN && s.stack != [] && Top(s.stack) != root && MayExtend(s, root, Px2(v))
    requires u < MAXVPN
    ensures var s' := Extended(s, root, Px2(v));
      WidenedAt(s.pages, s'.pages, root, v, true, false, u) && (u == v ==> TableOf(s'.pages, root, u) == 0)
  {
    hide V, Ppn, Flags;
    var s', n := Extended(s, root, Px2(v)), Top(s.stack);
    TopFacts(s);
    MidFacts(s, root, u);
    ShareMid(u, v);
    ExtendedEntry(s, root, Px2(v), root, Px2(u));
    var m := MidOf(s.pages, root, u);
    if Px2(u) == Px2(v) {
      assert Entry(s'.pages, n, Px1(u)) == 0;
      ZeroNext(s'.pages, n, Px1(u));
      ZeroNext(s.pages, 0, Px1(u));
      assert MidOf(s.pages, root, u) == 0;
    } else if m != 0 {
      ExtendedEntry(s, root, Px2(v), m, Px1(u));
    } else {
      ZeroNext(s.pages, 0, Px1(u));
      assert 0 !in s'.pages;
      ZeroNext(s'.pages, 0, Px1(u));
    }
  }

  lemma ZeroNext(pages: map<nat, Page>, n: nat, k: nat)
    requires Entry(pages, n, k) == 0
    ensures Next(pages, n, k) == 0
  {
  }

  /** walk() adds a level-0 table. */
  lemma ExtendedLow(s: State, root: nat, v: nat)
    requires Inv(s) && IsRoot(s.owner, root) && v < MAXVPN && s.stack != []
    requires var m := MidOf(s.pages, root, v); m != 0 && Top(s.stack) != m && MayExtend(s, m, Px1(v))
    ensures var s' := Extended(s, MidOf(s.pages, root, v), Px1(v));
      Widened(s.pages, s'.pages, root, v, false, true) && TableOf(s'.pages, root, v) != 0
  {
    hide V, Ppn, Flags, Inv;
    var s' := Extended(s, MidOf(s.pages, root, v), Px1(v));
    forall u | 0 <= u < MAXVPN
      ensures WidenedAt(s.pages, s'.pages, root, v, false, true, u)
    {
      ExtendedLowAt(s, root, v, u);
    }
    assert WidenedAt(s.pages, s'.pages, root, v, false, true, v);
  }

  lemma ExtendedLowAt(s: State, root: nat, v: nat, u: nat)
    requires Inv(s) && IsRoot(s.owner, root) && v < MAXVPN && s.stack != [] && u < MAXVPN
    requires var m := MidOf(s.pages, root, v); m != 0 && Top(s.stack) != m && MayExtend(s, m, Px1(v))
    ensures WidenedAt(s.pages, Extended(s, MidOf(s.pages, root, v), Px1(v)).pages, root, v, false, true, u)
  {
    hide V, Ppn, Flags;
    var m, n := MidOf(s.pages, root, v), Top(s.stack);
    var s' := Extended(s, m, Px1(v));
    TopFacts(s);
    MidFacts(s, root, u);
    MidFacts(s, root, v);
    ShareMid(u, v);
    ShareTable(u, v);
    ExtendedEntry(s, m, Px1(v), root, Px2(u));
    assert m != root;
    var c := MidOf(s.pages, root, u);
    assert MidOf(s'.pages, root, u) == c;
    if c != 0 {
      ExtendedEntry(s, m, Px1(v), c, Px1(u));
    } else {
      ZeroNext(s.pages, 0, Px1(u));
      assert 0 !in s'.pages;
      ZeroNext(s'.pages, 0, Px1(u));
    }
  }

  /** A write to a level-0 entry adds no table. */
  lemma SetPteTables(s: State, t: nat, k: nat, w: nat, root: nat, v: nat)
    requires Inv(s) && IsLow(s, t) && k < PTES && IsRoot(s.owner, root)
    ensures Widened(s.pages, SetPte(s, t, k, w).pages, root, v, false, false)
  {
    hide V, Ppn, Flags;
    var s' := SetPte(s, t, k, w);
    forall u | 0 <= u < MAXVPN
      ensures WidenedAt(s.pages, s'.pages, root, v, false, false, u)
    {
      SetPteMap(s, t, k, w, root, u);
      EntryWritten(s.pages, t, k, w, root, Px2(u));
    }
  }

  /** A page that is no table may change. */
  lemma LooseTables(s: State, pages: map<nat, Page>, n: nat, root: nat, v: nat)
    requires Inv(s) && IsRoot(s.owner, root) && n in s.owner && !s.owner[n].Node? && n in pages && pages == s.pages[n := pages[n]]
    ensures Widened(s.pages, pages, root, v, false, false)
  {
    forall u | 0 <= u < MAXVPN
      ensures WidenedAt(s.pages, pages, root, v, false, false, u)
    {
      TreeFrame(s, pages, root, u);
    }
  }

  // ---------- a range, page by page

  /** From pages to pages' exactly the tables for lo..hi were added, as far as it concerns the pages from hi on. */
  ghost predicate Ahead(pages: map<nat, Page>, pages': map<nat, Page>, root: nat, lo: nat, hi: nat) {
    forall u :: hi <= u < MAXVPN ==> AheadAt(pages, pages', root, lo, hi, u)
  }

  predicate AheadAt(pages: map<nat, Page>, pages': map<nat, Page>, root: nat, lo: nat, hi: nat, u: nat)
    requires hi <= u
  {
    && (MidOf(pages', root, u) != 0 <==> MidOf(pages, root, u) != 0 || (lo < hi && (hi - 1) / 0x4_0000 == u / 0x4_0000))
    && (TableOf(pages', root, u) != 0 <==> TableOf(pages, root, u) != 0 || (lo < hi && (hi - 1) / 512 == u / 512))
  }

  lemma AheadNone(pages: map<nat, Page>, root: nat, lo: nat)
    ensures Ahead(pages, pages, root, lo, lo)
  {
  }

  lemma WidenedAhead(pages: map<nat, Page>, pages': map<nat, Page>, root: nat, v: nat, more: bool)
    requires Widened(pages, pages', root, v, more, more)
    ensures Ahead(pages, pages', root, v, if more then v + 1 else v)
  {
    var next := if more then v + 1 else v;
    forall u | next <= u < MAXVPN
      ensures AheadAt(pages, pages', root, v, next, u)
    {
      assert WidenedAt(pages, pages', root, v, more, more, u);
    }
  }

  lemma AheadMore(p: map<nat, Page>, p': map<nat, Page>, p'': map<nat, Page>, root: nat, lo: nat, mid: nat, hi: nat)
    requires lo <= mid <= hi <= mid + 1 && Ahead(p, p', root, lo, mid) && Ahead(p', p'', root, mid, hi)
    ensures Ahead(p, p'', root, lo, hi)
  {
    forall u | hi <= u < MAXVPN
      ensures AheadAt(p, p'', root, lo, hi, u)
    {
      assert AheadAt(p, p', root, lo, mid, u) && AheadAt(p', p'', root, mid, hi, u);
      Between(mid, u, 512);
      Between(mid, u, 0x4_0000);
    }
  }

  lemma Between(v: nat, u: nat, k: nat)
    requires v <= u && (k == 512 || k == 0x4_0000)
    ensures v > 0 && (v - 1) / k == u / k ==> v / k == u / k
  {
  }

  /** What the next page needs is what was counted for it at the start. */
  lemma NextNeeds(pages: map<nat, Page>, pages': map<nat, Page>, root: nat, lo: nat, v: nat)
    requires lo <= v < MAXVPN && Ahead(pages, pages', root, lo, v)
    requires TableOf(pages, root, v) != 0 ==> MidOf(pages, root, v) != 0
    ensures TablesNeeded(pages, root, lo, v + 1) == TablesNeeded(pages, root, lo, v) + Missing(pages', root, v)
  {
    assert AheadAt(pages, pages', root, lo, v, v);
    if v > lo {
      Boundary(v, 512);
      Boundary(v, 0x4_0000);
      assert v % 0x4_0000 == 0 ==> v % 512 == 0;
    }
  }

  /** How many pages it takes to give each of the virtual pages lo..hi a page of its own. */
  function PagesNeeded(pages: map<nat, Page>, root: nat, lo: nat, hi: nat): nat
    requires lo <= hi
  {
    hi - lo + TablesNeeded(pages, root, lo, hi)
  }

  /** From s0 to s exactly the pages that lo..hi needed were taken from the free list. */
  ghost predicate Spent(s0: State, s: State, root: nat, lo: nat, hi: nat) {
    lo <= hi && Ahead(s0.pages, s.pages, root, lo, hi) && |s.stack| + PagesNeeded(s0.pages, root, lo, hi) == |s0.stack|
  }

  lemma SpentNone(s: State, root: nat, lo: nat)
    ensures Spent(s, s, root, lo, lo)
  {
    AheadNone(s.pages, root, lo);
  }

  /** The next page takes what was counted for it, or there is not enough. */
  lemma SpentMore(s0: State, s: State, s': State, root: nat, lo: nat, v: nat)
    requires Inv(s0) && IsRoot(s0.owner, root) && v < MAXVPN && Spent(s0, s, root, lo, v)
    ensures |s.stack| < 1 + Missing(s.pages, root, v) <==> |s0.stack| < PagesNeeded(s0.pages, root, lo, v + 1)
    ensures Ahead(s.pages, s'.pages, root, v, v + 1) && |s'.stack| + 1 + Missing(s.pages, root, v) == |s.stack| ==>
      Spent(s0, s', root, lo, v + 1)
  {
    hide Ahead, Missing, TablesNeeded;
    TableHasMid(s0, root, v);
    NextNeeds(s0.pages, s.pages, root, lo, v);
    if Ahead(s.pages, s'.pages, root, v, v + 1) {
      AheadMore(s0.pages, s.pages, s'.pages, root, lo, v, v + 1);
    }
  }

  lemma OneNeeded(s: State, root: nat, v: nat)
    requires Inv(s) && IsRoot(s.owner, root) && v < MAXVPN
    ensures TablesNeeded(s.pages, root, v, v + 1) == Missing(s.pages, root, v)
  {
    TableHasMid(s, root, v);
    assert TablesNeeded(s.pages, root, v, v) == 0;
  }

  lemma Boundary(v: nat, k: nat)
    requires v > 0 && (k == 512 || k == 0x4_0000)
    ensures v % k == 0 <==> (v - 1) / k != v / k
  {
  }

  lemma TableHasMid(s: State, root: nat, v: nat)
    requires Inv(s) && IsRoot(s.owner, root) && v < MAXVPN
    ensures TableOf(s.pages, root, v) != 0 ==> MidOf(s.pages, root, v) != 0
  {
    PathFacts(s, root, v);
  }
}
