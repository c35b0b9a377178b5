/**
  uvmalloc and uvmdealloc (kernel/vm.c): growing user memory page by page, and undoing it all
  when a page cannot be had.
 */
module UvmAlloc {
  import opened PageTable
  import opened PageSteps
  import opened PageCount
  import opened Kalloc
  import opened Vm
  import opened UserPages
  import opened Uvm

  /**
    From s to s' free pages became tables of root or pages held through its virtual pages lo..hi;
    every page in use has the holder it had, and outside the tables of root the contents it had.
   */
  ghost predicate Gained(s: State, s': State, root: nat, lo: nat, hi: nat) {
    && s'.owner.Keys == s.owner.Keys && s'.pages.Keys == s.pages.Keys
    && forall n :: n in s.owner ==> GainedAt(s, s', root, lo, hi, n)
  }

  ghost predicate GainedAt(s: State, s': State, root: nat, lo: nat, hi: nat, n: nat)
    requires n in s.owner
  {
    && n in s'.owner
    && if s.owner[n].Free? then
         s'.owner[n].Free? || (s'.owner[n].Node? && s'.owner[n].root == root) || HeldIn(s'.owner, s'.owner[n], root, lo, hi)
       else
         && s'.owner[n] == s.owner[n]
         && (n in s.pages && n in s'.pages && !(s.owner[n].Node? && s.owner[n].root == root) ==> s'.pages[n] == s.pages[n])
  }

  lemma GainedNone(s: State, s': State, root: nat, lo: nat)
    ensures Gained(s, s', root, lo, lo) <==> Grown(s, s', root)
  {
    if Gained(s, s', root, lo, lo) {
      forall n | n in s.owner
        ensures GrownAt(s, s', root, n)
      {
        assert GainedAt(s, s', root, lo, lo, n);
      }
    }
    if Grown(s, s', root) {
      forall n | n in s.owner
        ensures GainedAt(s, s', root, lo, lo, n)
      {
        assert GrownAt(s, s', root, n);
      }
    }
  }

  lemma GainedMore(s: State, s': State, s'': State, root: nat, lo: nat, mid: nat, hi: nat)
    requires lo <= mid <= hi && Inv(s') && Gained(s, s', root, lo, mid) && Gained(s', s'', root, mid, hi)
    ensures Gained(s, s'', root, lo, hi)
  {
    forall n | n in s.owner
      ensures GainedAt(s, s'', root, lo, hi, n)
    {
      assert GainedAt(s, s', root, lo, mid, n) && GainedAt(s', s'', root, mid, hi, n);
      if s'.owner[n].Leaf? {
        HomeGained(s', s'', root, mid, hi, n);
      }
    }
  }

  lemma HomeGained(s: State, s': State, root: nat, lo: nat, hi: nat, n: nat)
    requires Gained(s, s', root, lo, hi) && Inv(s) && n in s.owner && s.owner[n].Leaf?
    ensures var x := s.owner[n];
      && NodeRoot(s'.owner, x.table) == NodeRoot(s.owner, x.table)
      && HomeVpn(s'.owner, x.table, x.slot) == HomeVpn(s.owner, x.table, x.slot)
  {
    hide Vpn;
    assert RoleOk(s, n);
    var t := s.owner[n].table;
    assert RoleOk(s, t) && GainedAt(s, s', root, lo, hi, t);
    assert GainedAt(s, s', root, lo, hi, s.owner[t].parent);
  }

  // ---------- one fresh page

  /** kalloc'd page n, filled and then mapped at v between s2 and s3, becomes held through that mapping. */
  lemma FreshOwned(s2: State, s3: State, root: nat, v: nat, n: nat, w: nat)
    requires Inv(s3) && IsRoot(s2.owner, root) && IsRoot(s3.owner, root) && v < MAXVPN && Rewritten(s2, s3, root, v, [w])
    requires V(w) && Ppn(w) == n && n in s3.owner && s3.owner[n].Held? && IsBytes(s3.pages, n)
    ensures var s' := Own(s3, n, TableOf(s3.pages, root, v), Px0(v));
      && TableOf(s3.pages, root, v) != 0 && Inv(s') && Owned(s', root, v) && Rewritten(s2, s', root, v, [w])
      && HeldIn(s'.owner, s'.owner[n], root, v, v + 1) && IsRoot(s'.owner, root)
  {
    hide Vpn, Ppn;
    assert RewrittenAt(s2.pages, s3.pages, root, v, [w], root, v);
    ZeroPath(s3, root, v);
    PathFacts(s3, root, v);
    var t := TableOf(s3.pages, root, v);
    NodeFacts(s3, t);
    OwnKeeps(s3, n, t, Px0(v));
    HomeOfPath(Own(s3, n, t, Px0(v)), root, v);
    OwnRewritten(s2, s3, n, t, Px0(v), root, v, [w]);
  }

  lemma OwnRewritten(s: State, s': State, n: nat, t: nat, k: nat, root: nat, lo: nat, w: seq<nat>)
    requires Rewritten(s, s', root, lo, w) && n in s'.owner && s'.owner[n].Held?
    ensures Rewritten(s, Own(s', n, t, k), root, lo, w)
  {
    forall r, v | IsRoot(s.owner, r) && 0 <= v < MAXVPN
      ensures RewrittenAt(s.pages, Own(s', n, t, k).pages, root, lo, w, r, v)
    {
      assert RewrittenAt(s.pages, s'.pages, root, lo, w, r, v);
    }
  }

  /** The holders before kalloc and after the page, n, has been taken and put to use. */
  lemma FreshGained(s0: State, s2: State, s3: State, s': State, root: nat, lo: nat, hi: nat, n: nat, x: Role)
    requires n in s0.owner && s0.owner[n].Free? && s2.owner == s0.owner[n := Held] && Grown(s2, s3, root)
    requires forall m :: m in s0.pages && m != n ==> m in s2.pages && s2.pages[m] == s0.pages[m]
    requires s2.pages.Keys == s0.pages.Keys == s0.owner.Keys && s2.owner.Keys == s0.owner.Keys
    requires n in s3.owner && s'.owner == s3.owner[n := x] && s'.pages.Keys == s3.pages.Keys
    requires forall m :: m in s3.pages && m != n ==> m in s'.pages && s'.pages[m] == s3.pages[m]
    requires x.Free? || HeldIn(s'.owner, x, root, lo, hi)
    ensures Gained(s0, s', root, lo, hi)
  {
    hide HeldIn;
    assert s'.owner.Keys == s3.owner.Keys;
    forall m | m in s0.owner
      ensures GainedAt(s0, s', root, lo, hi, m)
    {
      assert GrownAt(s2, s3, root, m);
    }
  }

  /** Virtual page v of root is held through an entry with the given flags, and has the given bytes. */
  ghost predicate Backed(s: State, root: nat, v: nat, flags: nat, content: Page) {
    var w := Pte(s.pages, root, v);
    Owned(s, root, v) && Flags(w) == flags && Ppn(w) in s.pages && s.pages[Ppn(w)] == content
  }

  /** The body that the loops of uvmalloc and uvmcopy share: a fresh page with the given contents at address a.
      It fails exactly if there are fewer free pages than it and the missing tables take. */
  method MapFresh(m: Memory, root: nat, a: nat, content: Page, perm: nat) returns (r: Status, ghost w: nat)
    requires m.Valid() && IsRoot(m.owner, root) && a % PGSIZE == 0
    requires content.Bytes? && |content.data| == PGSIZE && perm < 1024
    modifies m
    ensures m.Valid() && IsRoot(m.owner, root)
    ensures a < MAXVA && !V(Pte(old(m.pages), root, a / PGSIZE)) ==> !r.Stopped?
    ensures r.Ok? ==> var v := a / PGSIZE;
      && v < MAXVPN && !V(Pte(old(m.pages), root, v))
      && Rewritten(old(m.View()), m.View(), root, v, [w]) && Gained(old(m.View()), m.View(), root, v, v + 1)
      && Backed(m.View(), root, v, WithV(perm), content)
    ensures r.Failed? ==> SameMaps(old(m.View()), m.View()) && Grown(old(m.View()), m.View(), root)
    ensures var v := a / PGSIZE; var need := 1 + Missing(old(m.pages), root, v);
      && (!r.Stopped? ==> (r.Failed? <==> |old(m.stack)| < need))
      && (r.Ok? ==> |m.stack| + need == |old(m.stack)| && Ahead(old(m.pages), m.pages, root, v, v + 1))
  {
    hide Inv, Rewritten, SameMaps, Grown, Gained, V, Ppn, Owned, Pte, TableOf, HeldIn, Flags, FreeList, Missing, Ahead, Taken, Backed;
    w := 0;
    ghost var v, s0 := a / PGSIZE, m.View();
    var mem := m.Kalloc();
    if mem == 0 {
      SameMapsRefl(s0);
      GrownRefl(s0, root);
      return Failed, w;
    }
    var n := mem / PGSIZE;
    FillFacts(s0, root, content);
    FillTables(s0, root, content, v);
    m.pages := m.pages[n := content];
    r, w := MapFilled(m, root, a, mem, perm, s0);
  }

  /** The same from the point where the page has been taken and filled. */
  method MapFilled(m: Memory, root: nat, a: nat, mem: nat, perm: nat, ghost s0: State) returns (r: Status, ghost w: nat)
    requires m.Valid() && IsRoot(m.owner, root) && a % PGSIZE == 0 && perm < 1024 && mem % PGSIZE == 0 && IsRoot(s0.owner, root)
    requires var n := mem / PGSIZE; Taken(s0, m.View(), n) && n in m.owner && m.owner[n].Held? && IsBytes(m.pages, n)
    requires |m.stack| + 1 == |s0.stack| && Ahead(s0.pages, m.pages, root, a / PGSIZE, a / PGSIZE)
    requires a / PGSIZE < MAXVPN ==> Missing(m.pages, root, a / PGSIZE) == Missing(s0.pages, root, a / PGSIZE)
    modifies m
    ensures m.Valid() && IsRoot(m.owner, root)
    ensures a < MAXVA && !V(Pte(s0.pages, root, a / PGSIZE)) ==> !r.Stopped?
    ensures r.Ok? ==> var v := a / PGSIZE;
      && v < MAXVPN && !V(Pte(s0.pages, root, v))
      && Rewritten(s0, m.View(), root, v, [w]) && Gained(s0, m.View(), root, v, v + 1)
      && mem / PGSIZE in old(m.pages) && Backed(m.View(), root, v, WithV(perm), old(m.pages)[mem / PGSIZE])
    ensures r.Failed? ==> SameMaps(s0, m.View()) && Grown(s0, m.View(), root)
    ensures var v := a / PGSIZE; var need := 1 + Missing(s0.pages, root, v);
      && (!r.Stopped? ==> (r.Failed? <==> |s0.stack| < need))
      && (r.Ok? ==> |m.stack| + need == |s0.stack| && Ahead(s0.pages, m.pages, root, v, v + 1))
  {
    hide Inv, Rewritten, SameMaps, Grown, Gained, V, Ppn, Owned, Pte, TableOf, HeldIn, Flags, FreeList, Missing, Ahead, TablesNeeded;
    w := 0;
    ghost var v, n, s2 := a / PGSIZE, mem / PGSIZE, m.View();
    ghost var words;
    r, words := Mappages(m, root, a, PGSIZE, mem, perm);
    ghost var s3 := m.View();
    HeldKept(s2, s3, root, n);
    assert |words| == if r.Ok? then 1 else 0;
    TakenEntry(s0, s2, root, v);
    if r.Stopped? {
      return;
    }
    assert r.Ok? ==> Vacant(s2.pages, root, v);
    OneNeeded(s2, root, v);
    if r.Failed? {
      FreshFails(s0, s2, s3, root, n, v);
      InvHasList(s3);
      var panicked := m.Kfree(mem);
      return;
    }
    AheadMore(s0.pages, s2.pages, s3.pages, root, v, v, v + 1);
    w := words[0];
    assert words == [w] && Vacant(s2.pages, root, v);
    PteRoundTrip(mem, perm);
    FreshMapped(s0, s2, s3, root, v, n, w);
    m.owner := m.owner[n := Leaf(TableOf(m.pages, root, v), Px0(v))];
  }

  /** State s2 is s0 with a page, n, taken from the free list and filled. */
  ghost predicate Taken(s0: State, s2: State, n: nat) {
    && n in s0.owner && s0.owner[n].Free? && s2.owner == s0.owner[n := Held] && SameMaps(s0, s2)
    && (forall m :: m in s0.pages && m != n ==> m in s2.pages && s2.pages[m] == s0.pages[m])
    && s2.pages.Keys == s0.pages.Keys == s0.owner.Keys == s2.owner.Keys
  }

  lemma FillFacts(s0: State, root: nat, content: Page)
    requires Inv(s0) && s0.stack != [] && IsRoot(s0.owner, root)
    ensures var s2 := Put(Alloc(s0), Top(s0.stack), content);
      Inv(s2) && IsRoot(s2.owner, root) && Taken(s0, s2, Top(s0.stack))
  {
    hide Inv, SameMaps;
    var n := Top(s0.stack);
    TopFacts(s0);
    AllocKeeps(s0);
    PutKeeps(Alloc(s0), n, content);
    var s2 := Put(Alloc(s0), n, content);
    SameMapsTrans(s0, Alloc(s0), s2);
    SameKeysInv(s0);
    assert s2.pages.Keys == s0.pages.Keys && s2.owner.Keys == s0.owner.Keys;
    assert IsRoot(s2.owner, root);
  }

  /** Taking and filling a page adds no table. */
  lemma FillTables(s0: State, root: nat, content: Page, v: nat)
    requires Inv(s0) && s0.stack != [] && IsRoot(s0.owner, root)
    ensures var s2 := Put(Alloc(s0), Top(s0.stack), content);
      && |s2.stack| == |s0.stack| - 1 && Ahead(s0.pages, s2.pages, root, v, v)
      && (v < MAXVPN ==> Missing(s2.pages, root, v) == Missing(s0.pages, root, v))
  {
    TopFacts(s0);
    var s2, n := Put(Alloc(s0), Top(s0.stack), content), Top(s0.stack);
    hide Inv;
    assert s2.pages == s0.pages[n := s2.pages[n]];
    LooseTables(s0, s2.pages, n, root, v);
    WidenedAhead(s0.pages, s2.pages, root, v, false);
    assert v < MAXVPN ==> WidenedAt(s0.pages, s2.pages, root, v, false, false, v);
  }

  lemma SameKeysInv(s: State)
    requires Inv(s)
    ensures s.pages.Keys == s.owner.Keys
  {
  }

  lemma TakenEntry(s0: State, s2: State, root: nat, v: nat)
    requires SameMaps(s0, s2) && IsRoot(s0.owner, root)
    ensures v < MAXVPN ==> Pte(s0.pages, root, v) == Pte(s2.pages, root, v)
  {
    if v < MAXVPN {
      assert SameMap(s0.pages, s2.pages, root, v);
    }
  }

  lemma FreshFails(s0: State, s2: State, s3: State, root: nat, n: nat, v: nat)
    requires Taken(s0, s2, n) && Inv(s3) && Rewritten(s2, s3, root, v, []) && Grown(s2, s3, root)
    requires n in s3.owner && s3.owner[n].Held?
    ensures var s' := FreePage(s3, n); Inv(s') && SameMaps(s0, s') && Grown(s0, s', root)
  {
    hide Inv, SameMaps, Rewritten, Grown, HeldIn;
    var s' := FreePage(s3, n);
    FreePageKeeps(s3, n);
    RewrittenNone(s2, s3, root, v);
    SameMapsTrans(s0, s2, s3);
    SameMapsTrans(s0, s3, s');
    SameKeysInv(s3);
    assert s'.pages.Keys == s3.pages.Keys;
    FreshGained(s0, s2, s3, s', root, v, v, n, Free(|s3.stack|));
    GainedNone(s0, s', root, v);
  }

  lemma FreshMapped(s0: State, s2: State, s3: State, root: nat, v: nat, n: nat, w: nat)
    requires Taken(s0, s2, n) && IsRoot(s2.owner, root) && IsRoot(s3.owner, root) && v < MAXVPN
    requires Inv(s3) && Rewritten(s2, s3, root, v, [w]) && Grown(s2, s3, root)
    requires V(w) && Ppn(w) == n && n in s3.owner && s3.owner[n].Held? && IsBytes(s3.pages, n)
    ensures var s' := Own(s3, n, TableOf(s3.pages, root, v), Px0(v));
      && Inv(s') && IsRoot(s'.owner, root) && Owned(s', root, v) && Pte(s3.pages, root, v) == w
      && Rewritten(s0, s', root, v, [w]) && Gained(s0, s', root, v, v + 1)
  {
    hide Inv, SameMaps, Grown, HeldIn, V, Ppn, Owned, Gained;
    assert RewrittenAt(s2.pages, s3.pages, root, v, [w], root, v);
    FreshOwned(s2, s3, root, v, n, w);
    var s' := Own(s3, n, TableOf(s3.pages, root, v), Px0(v));
    RewrittenAfterSame(s0, s2, s', root, v, [w]);
    FreshGained(s0, s2, s3, s', root, v, v + 1, n, s'.owner[n]);
  }

  lemma HeldKept(s2: State, s3: State, root: nat, n: nat)
    requires Grown(s2, s3, root) && n in s2.owner && s2.owner[n].Held? && n in s2.pages
    ensures n in s3.owner && s3.owner[n].Held? && n in s3.pages && s3.pages[n] == s2.pages[n]
  {
    assert GrownAt(s2, s3, root, n);
  }

  // ---------- keeping and undoing

  /** A mapping outside the range that was filled in stays held, with its flags and bytes. */
  lemma BackedKept(s: State, s': State, root: nat, lo: nat, w: seq<nat>, hi: nat, r: nat, v: nat, flags: nat, content: Page)
    requires Inv(s) && IsRoot(s.owner, r) && v < MAXVPN && !(r == root && lo <= v < lo + |w|)
    requires Rewritten(s, s', root, lo, w) && Gained(s, s', root, lo, hi) && Backed(s, r, v, flags, content)
    ensures Backed(s', r, v, flags, content)
  {
    hide V, Ppn, Flags, HeldIn;
    assert RewrittenAt(s.pages, s'.pages, root, lo, w, r, v);
    ZeroPath(s, r, v);
    var n := Ppn(Pte(s.pages, r, v));
    assert GainedAt(s, s', root, lo, hi, n);
    assert n in s'.pages.Keys;
  }

  /** Every valid translation is as it was, and no translation has become valid. */
  ghost predicate Restored(s: State, s': State) {
    && (forall r :: IsRoot(s.owner, r) ==> IsRoot(s'.owner, r))
    && forall r, v :: IsRoot(s.owner, r) && 0 <= v < MAXVPN ==> RestoredAt(s.pages, s'.pages, r, v)
  }

  ghost predicate RestoredAt(pages: map<nat, Page>, pages': map<nat, Page>, r: nat, v: nat) {
    if V(Pte(pages, r, v)) then Pte(pages', r, v) == Pte(pages, r, v) && TableOf(pages', r, v) == TableOf(pages, r, v)
    else !V(Pte(pages', r, v))
  }

  /** Filling an unmapped range and unmapping it again restores the translations. */
  lemma UndoMaps(s0: State, s: State, s': State, root: nat, lo: nat, w: seq<nat>)
    requires Inv(s0) && Unmapped(s0.pages, root, lo, lo + |w|)
    requires Rewritten(s0, s, root, lo, w) && Rewritten(s, s', root, lo, Nothing(|w|))
    ensures Restored(s0, s')
  {
    hide V;
    ZeroInvalid();
    forall r, v | IsRoot(s0.owner, r) && 0 <= v < MAXVPN
      ensures RestoredAt(s0.pages, s'.pages, r, v)
    {
      assert RewrittenAt(s0.pages, s.pages, root, lo, w, r, v);
      assert IsRoot(s.owner, r) && RewrittenAt(s.pages, s'.pages, root, lo, Nothing(|w|), r, v);
      ZeroPath(s0, r, v);
      assert r == root && lo <= v < lo + |w| ==> Vacant(s0.pages, root, v);
    }
  }

  /** No page is held through an unmapped range. */
  lemma UnmappedUnheld(s: State, root: nat, lo: nat, hi: nat, n: nat)
    requires Inv(s) && Unmapped(s.pages, root, lo, hi) && n in s.owner
    ensures !HeldIn(s.owner, s.owner[n], root, lo, hi)
  {
    hide V, Vpn, Ppn;
    var x := s.owner[n];
    assert HeldIn(s.owner, x, root, lo, hi) ==> !Vacant(s.pages, root, HomeVpn(s.owner, x.table, x.slot)) by {
      if HeldIn(s.owner, x, root, lo, hi) {
        assert RoleOk(s, n);
        assert RoleOk(s, x.table);
        HomeTable(s, x.table, x.slot);
      }
    }
  }

  /** ... and gives back every page taken for it, so that only tables were added. */
  lemma UndoHolders(s0: State, s: State, s': State, root: nat, lo: nat, hi: nat)
    requires Inv(s0) && Inv(s) && Unmapped(s0.pages, root, lo, hi)
    requires Gained(s0, s, root, lo, hi) && Released(s, s', root, lo, hi)
    ensures Grown(s0, s', root)
  {
    hide Vpn;
    forall n | n in s0.owner
      ensures GrownAt(s0, s', root, n)
    {
      assert GainedAt(s0, s, root, lo, hi, n) && ReleasedAt(s, s', root, lo, hi, n);
      UnmappedUnheld(s0, root, lo, hi, n);
      if s0.owner[n].Leaf? {
        HomeGained(s0, s, root, lo, hi, n);
      }
    }
  }

  // ---------- uvmdealloc

  /** A size; the source's 0 for out of memory; or a panic. */
  datatype Sized = Size(bytes: nat) | NoMemory | Abort

  method Uvmdealloc(m: Memory, root: nat, oldsz: nat, newsz: nat) returns (r: Sized)
    requires m.Valid() && IsRoot(m.owner, root)
    requires forall v :: PageUp(newsz) <= v < PageUp(oldsz) ==> Fits(m.View(), root, v, true)
    modifies m
    ensures m.Valid() && !r.NoMemory?
    ensures newsz >= oldsz ==> r == Size(oldsz) && m.View() == old(m.View())
    ensures newsz < oldsz ==>
      && PageUp(newsz) <= PageUp(oldsz)
      && (r.Abort? <==> !Unmappable(old(m.pages), root, PageUp(newsz), PageUp(oldsz)))
      && (!r.Abort? ==>
           && r == Size(newsz) && IsRoot(m.owner, root)
           && Rewritten(old(m.View()), m.View(), root, PageUp(newsz), Nothing(PageUp(oldsz) - PageUp(newsz)))
           && Released(old(m.View()), m.View(), root, PageUp(newsz), PageUp(oldsz)))
  {
    hide Inv, Rewritten, Released, Fits, Bad, Pte;
    if newsz >= oldsz {
      return Size(oldsz);
    }
    if RoundUp(newsz) < RoundUp(oldsz) {
      var npages := (RoundUp(oldsz) - RoundUp(newsz)) / PGSIZE;
      assert npages == PageUp(oldsz) - PageUp(newsz) && RoundUp(newsz) / PGSIZE == PageUp(newsz);
      var st := Uvmunmap(m, root, RoundUp(newsz), npages, true);
      if st.Stopped? {
        return Abort;
      }
    } else {
      UnmapStart(m.View(), root, PageUp(newsz));
    }
    return Size(newsz);
  }

  /** A machine with one page, the root of an empty tree. */
  function OneRoot(): State {
    State(map[1 := ZeroTable()], 0, [], map[1 := Node(1, 2, 0, 0)])
  }

  /** A process without memory: an old size above the actual one makes uvmdealloc panic. */
  lemma DeallocCanPanic(oldsz: nat, newsz: nat)
    requires newsz < oldsz && PageUp(newsz) < PageUp(oldsz)
    ensures Inv(OneRoot()) && IsRoot(OneRoot().owner, 1)
    ensures forall v :: PageUp(newsz) <= v < PageUp(oldsz) ==> Fits(OneRoot(), 1, v, true)
    ensures !Unmappable(OneRoot().pages, 1, PageUp(newsz), PageUp(oldsz))
  {
    var s := OneRoot();
    ZeroInvalid();
    assert RoleOk(s, 1);
    forall v | PageUp(newsz) <= v < PageUp(oldsz)
      ensures Pte(s.pages, 1, v) == 0
    {
      assert MidOf(s.pages, 1, v) == 0;
    }
    assert !Removable(s.pages, 1, PageUp(newsz));
  }

  // ---------- uvmalloc

  const USER_PERM: nat := 30    // PTE_R | PTE_W | PTE_X | PTE_U

  /** Virtual pages lo..hi are held zeroed pages that the user may read, write and execute. */
  ghost predicate ZeroRange(s: State, root: nat, lo: nat, hi: nat) {
    forall v :: lo <= v < hi ==> ZeroAt(s, root, v)
  }

  ghost predicate ZeroAt(s: State, root: nat, v: nat) {
    v < MAXVPN && Backed(s, root, v, 31, Zeros())   // PTE_V | PTE_R | PTE_W | PTE_X | PTE_U
  }

  /** What the loop of uvmalloc has done from s0 to s: pages lo..hi have been added. */
  ghost predicate Added(s0: State, s: State, root: nat, lo: nat, w: seq<nat>) {
    && Inv(s) && IsRoot(s.owner, root) && Unmapped(s0.pages, root, lo, lo + |w|)
    && Rewritten(s0, s, root, lo, w) && Gained(s0, s, root, lo, lo + |w|)
  }

  lemma AddedNone(s: State, root: nat, lo: nat)
    requires Inv(s) && IsRoot(s.owner, root)
    ensures Added(s, s, root, lo, [])
  {
    SameMapsRefl(s);
    RewrittenNone(s, s, root, lo);
    GrownRefl(s, root);
    GainedNone(s, s, root, lo);
  }

  lemma AddedMore(s0: State, s: State, s': State, root: nat, lo: nat, w: seq<nat>, x: nat)
    requires Inv(s0) && IsRoot(s0.owner, root) && Added(s0, s, root, lo, w) && Inv(s') && IsRoot(s'.owner, root)
    requires lo + |w| < MAXVPN && !V(Pte(s.pages, root, lo + |w|))
    requires Rewritten(s, s', root, lo + |w|, [x]) && Gained(s, s', root, lo + |w|, lo + |w| + 1)
    ensures Added(s0, s', root, lo, w + [x])
  {
    hide V, Gained, Inv;
    AddedEntry(s0, s, root, lo, w);
    RewrittenMore(s0, s, s', root, lo, w, [x]);
    GainedMore(s0, s, s', root, lo, lo + |w|, lo + |w| + 1);
  }

  /** The next page translates as it did at the start. */
  lemma AddedEntry(s0: State, s: State, root: nat, lo: nat, w: seq<nat>)
    requires IsRoot(s0.owner, root) && Rewritten(s0, s, root, lo, w)
    ensures lo + |w| < MAXVPN ==> Pte(s.pages, root, lo + |w|) == Pte(s0.pages, root, lo + |w|)
  {
    if lo + |w| < MAXVPN {
      assert RewrittenAt(s0.pages, s.pages, root, lo, w, root, lo + |w|);
    }
  }

  /** A failed attempt to add a page changes nothing that matters. */
  lemma AddedFailed(s0: State, s: State, s': State, root: nat, lo: nat, w: seq<nat>)
    requires Inv(s0) && Added(s0, s, root, lo, w) && Inv(s') && IsRoot(s'.owner, root)
    requires SameMaps(s, s') && Grown(s, s', root)
    ensures Added(s0, s', root, lo, w)
  {
    hide Gained, Inv, SameMaps, Grown, Rewritten, Unmapped;
    RewrittenNone(s, s', root, lo + |w|);
    RewrittenMore(s0, s, s', root, lo, w, []);
    assert w + [] == w;
    GainedNone(s, s', root, lo + |w|);
    GainedMore(s0, s, s', root, lo, lo + |w|, lo + |w|);
  }

  lemma Undone(s0: State, s: State, s': State, root: nat, lo: nat, w: seq<nat>)
    requires Inv(s0) && Added(s0, s, root, lo, w)
    requires Rewritten(s, s', root, lo, Nothing(|w|)) && Released(s, s', root, lo, lo + |w|)
    ensures Restored(s0, s') && Grown(s0, s', root)
  {
    hide Inv, Gained, Released, Rewritten, Unmapped, Restored, Grown;
    UndoMaps(s0, s, s', root, lo, w);
    UndoHolders(s0, s, s', root, lo, lo + |w|);
  }

  /** One more page, zeroed and held, leaves the earlier ones so. */
  lemma ZeroRangeMore(s: State, s': State, root: nat, lo: nat, hi: nat, w: seq<nat>, hi': nat)
    requires Inv(s) && IsRoot(s.owner, root) && ZeroRange(s, root, lo, hi)
    requires Rewritten(s, s', root, hi, w) && Gained(s, s', root, hi, hi')
    ensures ZeroRange(s', root, lo, hi)
  {
    hide Inv, Rewritten, Gained, Backed;
    forall v | lo <= v < hi
      ensures ZeroAt(s', root, v)
    {
      assert ZeroAt(s, root, v);
      BackedKept(s, s', root, hi, w, hi', root, v, 31, Zeros());
    }
  }

  /** Freshly added pages can be unmapped and freed. */
  lemma ZeroRangeFits(s: State, root: nat, lo: nat, hi: nat)
    requires ZeroRange(s, root, lo, hi)
    ensures Unmappable(s.pages, root, lo, hi)
    ensures forall v :: lo <= v < hi ==> Fits(s, root, v, true)
  {
    forall v | lo <= v < hi
      ensures Removable(s.pages, root, v)
    {
      assert ZeroAt(s, root, v);
    }
    forall v | lo <= v < hi
      ensures Fits(s, root, v, true)
    {
      assert ZeroAt(s, root, v);
    }
  }

  /** One iteration of uvmalloc(). */
  method AddZero(m: Memory, root: nat, a: nat, ghost s0: State, ghost lo: nat, ghost w: seq<nat>)
    returns (st: Status, ghost x: nat)
    requires m.Valid() && IsRoot(m.owner, root) && a == (lo + |w|) * PGSIZE && Inv(s0) && IsRoot(s0.owner, root)
    requires Added(s0, m.View(), root, lo, w) && ZeroRange(m.View(), root, lo, lo + |w|) && Spent(s0, m.View(), root, lo, lo + |w|)
    modifies m
    ensures m.Valid() && IsRoot(m.owner, root)
    ensures st.Ok? ==> Spent(s0, m.View(), root, lo, lo + |w| + 1)
    ensures st.Failed? ==> lo + |w| >= MAXVPN || |s0.stack| < PagesNeeded(s0.pages, root, lo, lo + |w| + 1)
    ensures st.Ok? ==> Added(s0, m.View(), root, lo, w + [x]) && ZeroRange(m.View(), root, lo, lo + |w| + 1)
    ensures st.Failed? ==> Added(s0, m.View(), root, lo, w) && ZeroRange(m.View(), root, lo, lo + |w|)
    ensures st.Stopped? ==> lo + |w| >= MAXVPN || V(Pte(s0.pages, root, lo + |w|))
  {
    hide Inv, Restored, Grown, Backed, Rewritten, Gained, Released, V, Pte, Unmapped, SameMaps, Spent, Missing, Ahead, PagesNeeded;
    ghost var s := m.View();
    assert a / PGSIZE == lo + |w|;
    AddedEntry(s0, s, root, lo, w);
    st, x := MapFresh(m, root, a, Zeros(), USER_PERM);
    if lo + |w| < MAXVPN {
      SpentMore(s0, s, m.View(), root, lo, lo + |w|);
    }
    if st.Ok? {
      AddedMore(s0, s, m.View(), root, lo, w, x);
      ZeroRangeMore(s, m.View(), root, lo, lo + |w|, [x], lo + |w| + 1);
    } else if st.Failed? {
      AddedFailed(s0, s, m.View(), root, lo, w);
      RewrittenNone(s, m.View(), root, lo + |w|);
      GainedNone(s, m.View(), root, lo + |w|);
      ZeroRangeMore(s, m.View(), root, lo, lo + |w|, [], lo + |w|);
    }
  }

  /** The way out of uvmalloc() when memory has run out at address a. */
  method Undo(m: Memory, root: nat, a: nat, low: nat, ghost s0: State, ghost lo: nat, ghost w: seq<nat>)
    requires m.Valid() && IsRoot(m.owner, root) && low == lo * PGSIZE && a == (lo + |w|) * PGSIZE && Inv(s0)
    requires Added(s0, m.View(), root, lo, w) && ZeroRange(m.View(), root, lo, lo + |w|)
    modifies m
    ensures m.Valid() && Restored(s0, m.View()) && Grown(s0, m.View(), root)
  {
    hide Inv, Added, ZeroRange, Restored, Grown, Rewritten, Released, Fits, Unmappable;
    ghost var s := m.View();
    ZeroRangeFits(s, root, lo, lo + |w|);
    assert PageUp(a) == lo + |w| && PageUp(low) == lo;
    UnmapStart(s, root, lo);
    var r := Uvmdealloc(m, root, a, low);
    Undone(s0, s, m.View(), root, lo, w);
  }

  /**
    uvmalloc(): on success the pages between the rounded sizes, and nothing else, have been added; when
    memory runs out every valid translation and every holder is as before, but for tables added to root.
   */
  method Uvmalloc(m: Memory, root: nat, oldsz: nat, newsz: nat) returns (r: Sized, ghost w: seq<nat>)
    requires m.Valid() && IsRoot(m.owner, root)
    modifies m
    ensures m.Valid()
    ensures newsz < oldsz ==> r == Size(oldsz) && m.View() == old(m.View())
    ensures newsz >= oldsz && r.Size? ==>
      && r.bytes == newsz && PageUp(oldsz) + |w| == PageUp(newsz)
      && Added(old(m.View()), m.View(), root, PageUp(oldsz), w) && ZeroRange(m.View(), root, PageUp(oldsz), PageUp(newsz))
    ensures r.NoMemory? ==> Restored(old(m.View()), m.View()) && Grown(old(m.View()), m.View(), root)
    ensures r.Abort? ==> newsz >= oldsz && !Unmapped(old(m.pages), root, PageUp(oldsz), PageUp(newsz))
    ensures newsz >= oldsz && Unmapped(old(m.pages), root, PageUp(oldsz), PageUp(newsz)) ==>
      (r.NoMemory? <==> |old(m.stack)| < PagesNeeded(old(m.pages), root, PageUp(oldsz), PageUp(newsz)))
    ensures newsz >= oldsz && r.Size? ==>
      |m.stack| + PagesNeeded(old(m.pages), root, PageUp(oldsz), PageUp(newsz)) == |old(m.stack)|
  {
    hide Inv, Added, ZeroRange, Restored, Grown, V, Pte, Unmapped, Spent, PagesNeeded;
    w := [];
    if newsz < oldsz {
      return Size(oldsz), w;
    }
    ghost var lo, s0 := PageUp(oldsz), m.View();
    AddedNone(s0, root, lo);
    SpentNone(s0, root, lo);
    assert ZeroRange(s0, root, lo, lo) by { ZeroRangeNone(s0, root, lo); }
    var low := RoundUp(oldsz);
    var a := low;
    while a < newsz
      invariant a == (lo + |w|) * PGSIZE && lo + |w| <= PageUp(newsz) && m.Valid() && IsRoot(m.owner, root)
      invariant Added(s0, m.View(), root, lo, w) && ZeroRange(m.View(), root, lo, lo + |w|)
      invariant Spent(s0, m.View(), root, lo, lo + |w|)
      decreases newsz - a
    {
      assert lo + |w| < PageUp(newsz);
      ghost var x;
      var st;
      st, x := AddZero(m, root, a, s0, lo, w);
      if st.Stopped? {
        NotUnmapped(s0.pages, root, lo, PageUp(newsz), lo + |w|);
        return Abort, w;
      }
      if st.Failed? {
        NotEnough(s0, root, lo, lo + |w|, PageUp(newsz));
        Undo(m, root, a, low, s0, lo, w);
        return NoMemory, w;
      }
      w := w + [x];
      a := a + PGSIZE;
    }
    SpentAll(s0, m.View(), root, lo, lo + |w|);
    return Size(newsz), w;
  }

  /** What is not enough for some of the pages is not enough for all. */
  lemma NotEnough(s0: State, root: nat, lo: nat, v: nat, hi: nat)
    requires lo <= v < hi
    ensures Unmapped(s0.pages, root, lo, hi) ==> v < MAXVPN
    ensures |s0.stack| < PagesNeeded(s0.pages, root, lo, v + 1) ==> |s0.stack| < PagesNeeded(s0.pages, root, lo, hi)
  {
    TablesMono(s0.pages, root, lo, v + 1, hi);
    assert Unmapped(s0.pages, root, lo, hi) ==> Vacant(s0.pages, root, v);
  }

  lemma SpentAll(s0: State, s: State, root: nat, lo: nat, hi: nat)
    requires Spent(s0, s, root, lo, hi)
    ensures |s.stack| + PagesNeeded(s0.pages, root, lo, hi) == |s0.stack|
  {
  }

  lemma NotUnmapped(pages: map<nat, Page>, root: nat, lo: nat, hi: nat, v: nat)
    requires lo <= v < hi && (v >= MAXVPN || V(Pte(pages, root, v)))
    ensures !Unmapped(pages, root, lo, hi)
  {
    assert !Vacant(pages, root, v);
  }

  lemma ZeroRangeNone(s: State, root: nat, lo: nat)
    ensures ZeroRange(s, root, lo, lo)
  {
  }
}
