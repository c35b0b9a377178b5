/**
  The single writes from which kalloc, kfree and the page-table code are made, each with what it
  keeps: the invariant, and the translation of every tree.
 */
module PageSteps {
  import opened Layout
  import opened PageTable

  function ZeroTable(): (t: Page)
    ensures t.Table? && |t.entries| == 512 && forall k :: 0 <= k < 512 ==> t.entries[k] == 0
  {
    Table(seq(PTES, i => 0))
  }

  function Zeros(): (p: Page)
    ensures p.Bytes? && |p.data| == 4096 && forall i :: 0 <= i < 4096 ==> p.data[i] == 0
  {
    Bytes(seq(PGSIZE, i => 0))
  }

  function Junk(b: Byte): Page {
    Bytes(seq(PGSIZE, i => b))
  }

  /** Virtual page v of tree r translates as before, through the same level-0 table if there was one. */
  ghost predicate SameMap(pages: map<nat, Page>, pages': map<nat, Page>, r: nat, v: nat) {
    && Pte(pages', r, v) == Pte(pages, r, v)
    && (TableOf(pages, r, v) != 0 ==> TableOf(pages', r, v) == TableOf(pages, r, v))
  }

  /** Every tree of s is still there and translates as before. */
  ghost predicate SameMaps(s: State, s': State) {
    && (forall r :: IsRoot(s.owner, r) ==> IsRoot(s'.owner, r))
    && forall r, v :: IsRoot(s.owner, r) && 0 <= v < MAXVPN ==> SameMap(s.pages, s'.pages, r, v)
  }

  lemma SameMapsTrans(s: State, s': State, s'': State)
    requires SameMaps(s, s') && SameMaps(s', s'')
    ensures SameMaps(s, s'')
  {
    forall r, v | IsRoot(s.owner, r) && 0 <= v < MAXVPN
      ensures SameMap(s.pages, s''.pages, r, v)
    {
      assert IsRoot(s'.owner, r) && SameMap(s.pages, s'.pages, r, v) && SameMap(s'.pages, s''.pages, r, v);
    }
  }

  lemma SameMapsRefl(s: State)
    ensures SameMaps(s, s)
  {
  }

  // ---------- pages outside all trees

  ghost predicate Loose(x: Role) {
    x.Free? || x.Held?
  }

  function Put(s: State, n: nat, page: Page): State {
    s.(pages := s.pages[n := page])
  }

  /** A write to a page that no tree or mapping holds, before or after. */
  lemma Elsewhere(s: State, s': State, n: nat, m: nat)
    requires Inv(s) && n in s.owner && Loose(s.owner[n])
    requires n in s'.owner && Loose(s'.owner[n]) && n in s'.pages
    requires s'.pages == s.pages[n := s'.pages[n]] && s'.owner == s.owner[n := s'.owner[n]]
    requires m in s'.owner
    ensures NodeOk(s'.pages, s'.owner, m, s'.owner[m]) && LeafOk(s'.pages, s'.owner, m, s'.owner[m])
  {
    assert RoleOk(s, m);
    if m != n && s.owner[m].Node? {
      var x := s.owner[m];
      if x.level > 0 {
        forall k | 0 <= k < PTES
          ensures ChildOk(s'.pages, s'.owner, m, x, k)
        {
          assert ChildOk(s.pages, s.owner, m, x, k);
        }
      }
    }
  }

  lemma LooseMaps(s: State, s': State, n: nat)
    requires Inv(s) && n in s.owner && !s.owner[n].Node? && n in s'.pages
    requires s'.pages == s.pages[n := s'.pages[n]]
    requires forall m :: m in s.owner && m != n ==> m in s'.owner && s'.owner[m] == s.owner[m]
    ensures SameMaps(s, s')
  {
    forall r, v | IsRoot(s.owner, r) && 0 <= v < MAXVPN
      ensures SameMap(s.pages, s'.pages, r, v)
    {
      TreeFrame(s, s'.pages, r, v);
    }
  }

  lemma PutKeeps(s: State, n: nat, page: Page)
    requires Inv(s) && n in s.owner && s.owner[n].Held?
    ensures Inv(Put(s, n, page)) && SameMaps(s, Put(s, n, page))
  {
    var s' := Put(s, n, page);
    LooseMaps(s, s', n);
    forall m | m in s'.owner
      ensures RoleOk(s', m)
    {
      assert RoleOk(s, m);
      Elsewhere(s, s', n, m);
    }
    forall j | 0 <= j < |s'.stack|
      ensures FreeAt(s'.pages, s'.stack, s'.owner, j)
    {
      assert FreeAt(s.pages, s.stack, s.owner, j);
    }
  }

  // ---------- kalloc and kfree

  function Alloc(s: State): State
    requires s.stack != []
  {
    var n := Top(s.stack);
    var rest := s.stack[..|s.stack| - 1];
    State(s.pages[n := Junk(5)], Top(rest), rest, s.owner[n := Held])
  }

  function FreePage(s: State, n: nat): State {
    State(s.pages[n := Run(s.head)], n, s.stack + [n], s.owner[n := Free(|s.stack|)])
  }

  /** The top of the free list is a free page that links to the rest. */
  lemma TopFacts(s: State)
    requires Inv(s)
    ensures s.head == Top(s.stack) && (s.head == 0 <==> s.stack == [])
    ensures s.stack != [] ==>
      && s.head in s.pages && s.head in s.owner && s.owner[s.head] == Free(|s.stack| - 1)
      && s.pages[s.head] == Run(Top(s.stack[..|s.stack| - 1]))
  {
    if s.stack != [] {
      assert FreeAt(s.pages, s.stack, s.owner, |s.stack| - 1);
    }
  }

  lemma AllocKeeps(s: State)
    requires Inv(s) && s.stack != []
    ensures Inv(Alloc(s)) && SameMaps(s, Alloc(s))
  {
    var s' := Alloc(s);
    var n := Top(s.stack);
    TopFacts(s);
    LooseMaps(s, s', n);
    forall m | m in s'.owner
      ensures RoleOk(s', m)
    {
      assert RoleOk(s, m);
      Elsewhere(s, s', n, m);
    }
    forall j | 0 <= j < |s'.stack|
      ensures FreeAt(s'.pages, s'.stack, s'.owner, j)
    {
      assert FreeAt(s.pages, s.stack, s.owner, j);
      assert s'.stack[..j] == s.stack[..j];
    }
  }

  ghost predicate FreeList(s: State) {
    && Frame(s.pages, s.owner) && FreeOk(s.pages, s.head, s.stack, s.owner)
    && forall n :: n in s.owner ==> FreeBack(s.stack, s.owner[n], n)
  }

  /** kfree keeps the list well formed, whatever the page was used for. */
  lemma FreePageList(s: State, n: nat)
    requires FreeList(s) && n in s.owner && !s.owner[n].Free?
    ensures FreeList(FreePage(s, n))
  {
    var s' := FreePage(s, n);
    forall m | m in s'.owner
      ensures FreeBack(s'.stack, s'.owner[m], m)
    {
      assert FreeBack(s.stack, s.owner[m], m);
    }
    forall j | 0 <= j < |s'.stack|
      ensures FreeAt(s'.pages, s'.stack, s'.owner, j)
    {
      if j < |s.stack| {
        assert FreeAt(s.pages, s.stack, s.owner, j);
        assert s'.stack[..j] == s.stack[..j];
      } else {
        assert s'.stack[..j] == s.stack;
      }
    }
  }

  lemma InvHasList(s: State)
    requires Inv(s)
    ensures FreeList(s)
  {
    forall n | n in s.owner
      ensures FreeBack(s.stack, s.owner[n], n)
    {
      assert RoleOk(s, n);
    }
  }

  lemma FreePageKeeps(s: State, n: nat)
    requires Inv(s) && n in s.owner && s.owner[n].Held?
    ensures Inv(FreePage(s, n)) && SameMaps(s, FreePage(s, n))
  {
    var s' := FreePage(s, n);
    InvHasList(s);
    FreePageList(s, n);
    LooseMaps(s, s', n);
    forall m | m in s'.owner
      ensures RoleOk(s', m)
    {
      Elsewhere(s, s', n, m);
      assert FreeBack(s'.stack, s'.owner[m], m);
    }
  }

  // ---------- growing a tree

  /** A zeroed page becomes the root of a new tree. */
  function NewRoot(s: State, n: nat): State {
    s.(owner := s.owner[n := Node(n, 2, 0, 0)])
  }

  lemma NewRootKeeps(s: State, n: nat)
    requires Inv(s) && n in s.owner && s.owner[n].Held? && n in s.pages && s.pages[n] == ZeroTable()
    ensures Inv(NewRoot(s, n)) && SameMaps(s, NewRoot(s, n))
    ensures IsRoot(NewRoot(s, n).owner, n) && forall v :: 0 <= v < MAXVPN ==> Pte(s.pages, n, v) == 0
  {
    var s' := NewRoot(s, n);
    forall m | m in s'.owner
      ensures RoleOk(s', m)
    {
      assert RoleOk(s, m);
      if m != n {
        RoleFrame(s, s', n, m);
      }
    }
    FreeFrame(s, s', n);
  }

  /** Roles of pages other than n, when n alone changes hands and stays out of the free list. */
  lemma RoleFrame(s: State, s': State, n: nat, m: nat)
    requires Inv(s) && n in s.owner && s.owner[n].Held? && n in s'.owner
    requires s'.pages == s.pages && s'.stack == s.stack && s'.owner == s.owner[n := s'.owner[n]]
    requires m in s.owner && m != n
    ensures RoleOk(s', m)
  {
    assert RoleOk(s, m);
    var x := s.owner[m];
    if x.Node? && x.level > 0 {
      forall k | 0 <= k < PTES
        ensures ChildOk(s'.pages, s'.owner, m, x, k)
      {
        assert ChildOk(s.pages, s.owner, m, x, k);
      }
    }
  }

  /** The free list does not see a write to a page outside it. */
  lemma FreeFrame(s: State, s': State, n: nat)
    requires FreeOk(s.pages, s.head, s.stack, s.owner) && n in s.owner && !s.owner[n].Free?
    requires s'.head == s.head && s'.stack == s.stack
    requires forall m :: m in s.owner && m != n ==> m in s'.owner && s'.owner[m] == s.owner[m]
    requires forall m :: m in s.pages && m != n ==> m in s'.pages && s'.pages[m] == s.pages[m]
    ensures FreeOk(s'.pages, s'.head, s'.stack, s'.owner)
  {
    forall j | 0 <= j < |s'.stack|
      ensures FreeAt(s'.pages, s'.stack, s'.owner, j)
    {
      assert FreeAt(s.pages, s.stack, s.owner, j);
    }
  }

  function WithEntry(pages: map<nat, Page>, t: nat, k: nat, w: nat): map<nat, Page>
    requires IsTable(pages, t) && k < PTES
  {
    pages[t := Table(pages[t].entries[k := w])]
  }

  lemma EntryWritten(pages: map<nat, Page>, t: nat, k: nat, w: nat, n: nat, j: nat)
    requires IsTable(pages, t) && k < PTES
    ensures Entry(WithEntry(pages, t, k, w), n, j) == if n == t && j == k then w else Entry(pages, n, j)
  {
  }

  /** Zeroed page n is hung under entry k of interior table p. */
  function Link(s: State, p: nat, k: nat, n: nat): State
    requires IsTable(s.pages, p) && k < PTES && p in s.owner && s.owner[p].Node? && s.owner[p].level > 0
  {
    var x := s.owner[p];
    s.(pages := WithEntry(s.pages, p, k, n * 1024 + 1), owner := s.owner[n := Node(x.root, x.level - 1, p, k)])
  }

  ghost predicate MayLink(s: State, p: nat, k: nat, n: nat) {
    && Inv(s) && IsTable(s.pages, p) && k < PTES && p in s.owner && s.owner[p].Node? && s.owner[p].level > 0
    && !V(Entry(s.pages, p, k)) && (s.owner[p].level == 2 ==> k < PTES / 2)
    && n in s.owner && s.owner[n].Held? && n in s.pages && s.pages[n] == ZeroTable()
  }

  lemma LinkWord(n: nat)
    ensures V(n * 1024 + 1) && Ppn(n * 1024 + 1) == n && Flags(n * 1024 + 1) == 1
  {
  }

  lemma LinkRole(s: State, p: nat, k: nat, n: nat, m: nat)
    requires MayLink(s, p, k, n) && m in s.owner
    ensures RoleOk(Link(s, p, k, n), m)
  {
    hide V, Ppn, Flags;
    var s' := Link(s, p, k, n);
    LinkWord(n);
    assert RoleOk(s, m) && RoleOk(s, p);
    var x := s'.owner[m];
    if x.Node? {
      if x.level > 0 {
        forall j | 0 <= j < PTES
          ensures ChildOk(s'.pages, s'.owner, m, x, j)
        {
          EntryWritten(s.pages, p, k, n * 1024 + 1, m, j);
          if m == n {
            assert Entry(s.pages, n, j) == 0 && !V(0) by { ZeroInvalid(); }
          } else {
            assert ChildOk(s.pages, s.owner, m, x, j);
          }
        }
      }
      EntryWritten(s.pages, p, k, n * 1024 + 1, x.parent, x.index);
    } else if x.Leaf? {
      EntryWritten(s.pages, p, k, n * 1024 + 1, x.table, x.slot);
    }
  }

  lemma ZeroInvalid()
    ensures !V(0)
  {
  }

  lemma LinkKeeps(s: State, p: nat, k: nat, n: nat)
    requires MayLink(s, p, k, n)
    ensures Inv(Link(s, p, k, n))
  {
    var s' := Link(s, p, k, n);
    forall m | m in s'.owner
      ensures RoleOk(s', m)
    {
      LinkRole(s, p, k, n, m);
    }
    forall j | 0 <= j < |s'.stack|
      ensures FreeAt(s'.pages, s'.stack, s'.owner, j)
    {
      assert FreeAt(s.pages, s.stack, s.owner, j);
    }
  }

  /** Growing the tree changes no translation. */
  lemma LinkMap(s: State, p: nat, k: nat, n: nat, r: nat, v: nat)
    requires MayLink(s, p, k, n) && IsRoot(s.owner, r) && v < MAXVPN
    ensures SameMap(s.pages, Link(s, p, k, n).pages, r, v)
  {
    hide V, Ppn, Flags;
    var w := n * 1024 + 1;
    var pages := s.pages;
    var pages' := Link(s, p, k, n).pages;
    LinkWord(n);
    ZeroInvalid();
    MidFacts(s, r, v);
    PathFacts(s, r, v);
    var m, t := MidOf(pages, r, v), TableOf(pages, r, v);
    EntryWritten(pages, p, k, w, r, Px2(v));
    EntryWritten(pages, p, k, w, m, Px1(v));
    EntryWritten(pages, p, k, w, n, Px1(v));
    EntryWritten(pages, p, k, w, t, Px0(v));
    EntryWritten(pages, p, k, w, n, Px0(v));
  }

  lemma LinkMaps(s: State, p: nat, k: nat, n: nat)
    requires MayLink(s, p, k, n)
    ensures SameMaps(s, Link(s, p, k, n))
  {
    forall r, v | IsRoot(s.owner, r) && 0 <= v < MAXVPN
      ensures SameMap(s.pages, Link(s, p, k, n).pages, r, v)
    {
      LinkMap(s, p, k, n, r, v);
    }
  }

  // ---------- level-0 entries

  /** Entry k of level-0 table t is overwritten. */
  function SetPte(s: State, t: nat, k: nat, w: nat): State
    requires IsTable(s.pages, t) && k < PTES
  {
    s.(pages := WithEntry(s.pages, t, k, w))
  }

  ghost predicate IsLow(s: State, t: nat) {
    t in s.owner && s.owner[t].Node? && s.owner[t].level == 0 && IsTable(s.pages, t)
  }

  /** Nothing is held through entry k of t, or what is stays named by w. */
  ghost predicate MaySet(s: State, t: nat, k: nat, w: nat) {
    && Inv(s) && IsLow(s, t) && k < PTES
    && var n := Ppn(Entry(s.pages, t, k));
       (n in s.owner && s.owner[n] == Leaf(t, k) ==> V(w) && Ppn(w) == n)
  }

  lemma SetPteRole(s: State, t: nat, k: nat, w: nat, m: nat)
    requires MaySet(s, t, k, w) && m in s.owner
    ensures RoleOk(SetPte(s, t, k, w), m)
  {
    hide V, Ppn, Flags;
    var s' := SetPte(s, t, k, w);
    assert RoleOk(s, m) && RoleOk(s, t);
    var x := s.owner[m];
    if x.Node? {
      if x.level > 0 {
        forall j | 0 <= j < PTES
          ensures ChildOk(s'.pages, s'.owner, m, x, j)
        {
          assert ChildOk(s.pages, s.owner, m, x, j);
          EntryWritten(s.pages, t, k, w, m, j);
        }
      }
      EntryWritten(s.pages, t, k, w, x.parent, x.index);
    } else if x.Leaf? {
      EntryWritten(s.pages, t, k, w, x.table, x.slot);
    }
  }

  lemma SetPteKeeps(s: State, t: nat, k: nat, w: nat)
    requires MaySet(s, t, k, w)
    ensures Inv(SetPte(s, t, k, w))
  {
    var s' := SetPte(s, t, k, w);
    forall m | m in s'.owner
      ensures RoleOk(s', m)
    {
      SetPteRole(s, t, k, w, m);
    }
    FreeFrame(s, s', t);
  }

  /** Only the virtual page whose path ends at entry k of t sees the write. */
  lemma SetPteMap(s: State, t: nat, k: nat, w: nat, r: nat, v: nat)
    requires Inv(s) && IsLow(s, t) && k < PTES && IsRoot(s.owner, r) && v < MAXVPN
    ensures var s' := SetPte(s, t, k, w);
      && TableOf(s'.pages, r, v) == TableOf(s.pages, r, v)
      && Pte(s'.pages, r, v) == if TableOf(s.pages, r, v) == t && Px0(v) == k then w else Pte(s.pages, r, v)
  {
    hide V, Ppn, Flags;
    MidFacts(s, r, v);
    PathFacts(s, r, v);
    EntryWritten(s.pages, t, k, w, r, Px2(v));
    EntryWritten(s.pages, t, k, w, MidOf(s.pages, r, v), Px1(v));
    EntryWritten(s.pages, t, k, w, TableOf(s.pages, r, v), Px0(v));
  }

  // ---------- pages held through a mapping

  function Own(s: State, n: nat, t: nat, k: nat): State {
    s.(owner := s.owner[n := Leaf(t, k)])
  }

  lemma OwnKeeps(s: State, n: nat, t: nat, k: nat)
    requires Inv(s) && n in s.owner && s.owner[n].Held? && IsBytes(s.pages, n)
    requires IsLow(s, t) && Points(s.pages, t, k, n)
    ensures Inv(Own(s, n, t, k))
  {
    var s' := Own(s, n, t, k);
    forall m | m in s'.owner
      ensures RoleOk(s', m)
    {
      assert RoleOk(s, m);
      if m != n {
        RoleFrame(s, s', n, m);
      }
    }
    FreeFrame(s, s', n);
  }

  function Disown(s: State, n: nat): State {
    s.(owner := s.owner[n := Held])
  }

  lemma DisownKeeps(s: State, n: nat)
    requires Inv(s) && n in s.owner && s.owner[n].Leaf?
    ensures Inv(Disown(s, n))
  {
    var s' := Disown(s, n);
    forall m | m in s'.owner
      ensures RoleOk(s', m)
    {
      assert RoleOk(s, m);
      var x := s.owner[m];
      if m != n && x.Node? && x.level > 0 {
        forall k | 0 <= k < PTES
          ensures ChildOk(s'.pages, s'.owner, m, x, k)
        {
          assert ChildOk(s.pages, s.owner, m, x, k);
        }
      }
    }
    FreeFrame(s, s', n);
  }

  /** The bytes of a mapped page change; no link does. */
  lemma PutBytesKeeps(s: State, n: nat, page: Page)
    requires Inv(s) && n in s.owner && s.owner[n].Leaf? && page.Bytes? && |page.data| == PGSIZE
    ensures Inv(Put(s, n, page)) && SameMaps(s, Put(s, n, page))
  {
    var s' := Put(s, n, page);
    LooseMaps(s, s', n);
    forall m | m in s'.owner
      ensures RoleOk(s', m)
    {
      assert RoleOk(s, m);
      var x := s.owner[m];
      if x.Node? && x.level > 0 {
        forall k | 0 <= k < PTES
          ensures ChildOk(s'.pages, s'.owner, m, x, k)
        {
          assert ChildOk(s.pages, s.owner, m, x, k);
        }
      }
    }
    FreeFrame(s, s', n);
  }

  // ---------- the tree takes a page for a table

  ghost predicate MayExtend(s: State, p: nat, k: nat) {
    && k < PTES && p in s.owner && s.owner[p].Node? && s.owner[p].level > 0
    && IsTable(s.pages, p) && !V(Entry(s.pages, p, k)) && (s.owner[p].level == 2 ==> k < PTES / 2)
  }

  /** kalloc, clear the page, and link it under entry k of p. */
  function Extended(s: State, p: nat, k: nat): State
    requires s.stack != [] && IsTable(s.pages, p) && k < PTES && p in s.owner && s.owner[p].Node? && s.owner[p].level > 0
    requires Top(s.stack) != p
  {
    Link(Put(Alloc(s), Top(s.stack), ZeroTable()), p, k, Top(s.stack))
  }

  /** From s to s' the tree at root may have taken free pages as tables; every other page is as before. */
  ghost predicate Grown(s: State, s': State, root: nat) {
    && s'.owner.Keys == s.owner.Keys && s'.pages.Keys == s.pages.Keys
    && forall n :: n in s.owner ==> GrownAt(s, s', root, n)
  }

  ghost predicate GrownAt(s: State, s': State, root: nat, n: nat)
    requires n in s.owner
  {
    && n in s'.owner
    && (if s.owner[n].Free? then s'.owner[n].Free? || (s'.owner[n].Node? && s'.owner[n].root == root)
        else s'.owner[n] == s.owner[n])
    && (n in s.pages && n in s'.pages && !s.owner[n].Free? && !(s.owner[n].Node? && s.owner[n].root == root) ==>
          s'.pages[n] == s.pages[n])
  }

  lemma GrownTrans(s: State, s': State, s'': State, root: nat)
    requires Grown(s, s', root) && Grown(s', s'', root)
    ensures Grown(s, s'', root)
  {
    forall n | n in s.owner
      ensures GrownAt(s, s'', root, n)
    {
      assert GrownAt(s, s', root, n) && GrownAt(s', s'', root, n);
    }
  }

  lemma ExtendedKeeps(s: State, p: nat, k: nat)
    requires Inv(s) && MayExtend(s, p, k) && s.stack != []
    ensures Top(s.stack) != p && Inv(Extended(s, p, k)) && SameMaps(s, Extended(s, p, k))
  {
    hide Inv, SameMaps;
    TopFacts(s);
    var n := Top(s.stack);
    AllocKeeps(s);
    var s1 := Alloc(s);
    PutKeeps(s1, n, ZeroTable());
    var s2 := Put(s1, n, ZeroTable());
    LinkKeeps(s2, p, k, n);
    LinkMaps(s2, p, k, n);
    SameMapsTrans(s, s1, s2);
    SameMapsTrans(s, s2, Extended(s, p, k));
  }

  lemma ExtendedGrown(s: State, p: nat, k: nat)
    requires Inv(s) && MayExtend(s, p, k) && s.stack != [] && Top(s.stack) != p
    ensures Grown(s, Extended(s, p, k), s.owner[p].root)
  {
    TopFacts(s);
    var s' := Extended(s, p, k);
    assert s'.owner.Keys == s.owner.Keys && s'.pages.Keys == s.pages.Keys;
  }

  lemma ExtendedEntry(s: State, p: nat, k: nat, q: nat, j: nat)
    requires Inv(s) && MayExtend(s, p, k) && s.stack != [] && Top(s.stack) != p
    requires q in s.owner && s.owner[q].Node?
    ensures IsTable(Extended(s, p, k).pages, Top(s.stack))
    ensures Next(Extended(s, p, k).pages, q, j) == if q == p && j == k then Top(s.stack) else Next(s.pages, q, j)
  {
    hide V, Ppn, Flags;
    TopFacts(s);
    LinkWord(Top(s.stack));
    EntryWritten(Put(Alloc(s), Top(s.stack), ZeroTable()).pages, p, k, Top(s.stack) * 1024 + 1, q, j);
  }
}
