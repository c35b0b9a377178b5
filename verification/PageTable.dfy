/**
  Physical pages, their holders, and the Sv39 page-table trees built from them (kernel/vm.c,
  kernel/kalloc.c, kernel/riscv.h).  A page is named by its physical page number.  Every managed page
  has exactly one holder; the invariant ties holders to the links stored in the pages.
 */
module PageTable {
  import opened Layout

  const PGSIZE: nat := 4096
  const MAXVPN: nat := 0x400_0000     // MAXVA / PGSIZE
  const MAXVA: nat := 0x40_0000_0000
  const PTES: nat := 512

  /** A free page holds the list link, a page-table page 512 words, any other page its bytes. */
  datatype Page = Run(next: nat) | Table(entries: seq<nat>) | Bytes(data: seq<Byte>)

  /** Who has a page: the free list, a page-table tree, a user mapping, or other kernel code. */
  datatype Role =
    | Free(depth: nat)
    | Node(root: nat, level: nat, parent: nat, index: nat)
    | Leaf(table: nat, slot: nat)
    | Held

  datatype State = State(pages: map<nat, Page>, head: nat, stack: seq<nat>, owner: map<nat, Role>)

  // ---------- page-table entries

  function Ppn(w: nat): nat { w / 1024 }
  function Flags(w: nat): nat { w % 1024 }
  predicate V(w: nat) { w % 2 == 1 }
  predicate U(w: nat) { w / 16 % 2 == 1 }
  predicate Rwx(w: nat) { w / 2 % 8 != 0 }

  function WithV(perm: nat): nat { if perm % 2 == 1 then perm else perm + 1 }

  /** The entry written for physical address pa. */
  function PteOf(pa: nat, perm: nat): nat { pa / PGSIZE * 1024 + WithV(perm) }

  /** The physical address an entry names. */
  function PteToPa(w: nat): nat { w / 1024 * PGSIZE }

  lemma Packed(q: nat, f: nat)
    requires f < 1024
    ensures (q * 1024 + f) / 1024 == q && (q * 1024 + f) % 1024 == f && (q * 1024 + f) % 2 == f % 2
  {
  }

  lemma PteRoundTrip(pa: nat, perm: nat)
    requires perm < 1024
    ensures PteToPa(PteOf(pa, perm)) == pa / PGSIZE * PGSIZE
    ensures var w := PteOf(pa, perm); V(w) && Ppn(w) == pa / PGSIZE && Flags(w) == WithV(perm)
    ensures PteOf(pa, perm) == pa / 4096 * 1024 + (if perm % 2 == 1 then perm else perm + 1)
  {
    Packed(pa / PGSIZE, WithV(perm));
  }

  // ---------- virtual page numbers

  function Px2(v: nat): nat { v / 0x4_0000 % PTES }
  function Px1(v: nat): nat { v / PTES % PTES }
  function Px0(v: nat): nat { v % PTES }

  lemma PxDetermine(v: nat, v': nat)
    requires v < MAXVPN && v' < MAXVPN && Px2(v) == Px2(v') && Px1(v) == Px1(v') && Px0(v) == Px0(v')
    ensures v == v'
  {
    assert v / 0x4_0000 == v / PTES / PTES && v' / 0x4_0000 == v' / PTES / PTES;
  }

  // ---------- the translation as a flat map

  function Entry(pages: map<nat, Page>, n: nat, k: nat): nat {
    if n in pages && pages[n].Table? && k < |pages[n].entries| then pages[n].entries[k] else 0
  }

  function Next(pages: map<nat, Page>, n: nat, k: nat): nat {
    if V(Entry(pages, n, k)) then Ppn(Entry(pages, n, k)) else 0
  }

  function MidOf(pages: map<nat, Page>, root: nat, v: nat): nat {
    Next(pages, root, Px2(v))
  }

  /** The level-0 table for virtual page v, or 0. */
  function TableOf(pages: map<nat, Page>, root: nat, v: nat): nat {
    Next(pages, MidOf(pages, root, v), Px1(v))
  }

  /** The level-0 entry for virtual page v, or 0. */
  function Pte(pages: map<nat, Page>, root: nat, v: nat): nat {
    Entry(pages, TableOf(pages, root, v), Px0(v))
  }

  // ---------- invariant

  ghost predicate Frame(pages: map<nat, Page>, owner: map<nat, Role>) {
    0 !in pages && pages.Keys == owner.Keys
  }

  function Top(stack: seq<nat>): nat {
    if stack == [] then 0 else stack[|stack| - 1]
  }

  ghost predicate FreeAt(pages: map<nat, Page>, stack: seq<nat>, owner: map<nat, Role>, j: nat)
    requires j < |stack|
  {
    && stack[j] in owner && owner[stack[j]] == Free(j)
    && stack[j] in pages && pages[stack[j]] == Run(Top(stack[..j]))
  }

  ghost predicate FreeOk(pages: map<nat, Page>, head: nat, stack: seq<nat>, owner: map<nat, Role>) {
    head == Top(stack) && forall j :: 0 <= j < |stack| ==> FreeAt(pages, stack, owner, j)
  }

  ghost predicate FreeBack(stack: seq<nat>, x: Role, n: nat) {
    x.Free? ==> x.depth < |stack| && stack[x.depth] == n
  }

  ghost predicate IsTable(pages: map<nat, Page>, n: nat) {
    n in pages && pages[n].Table? && |pages[n].entries| == PTES
  }

  ghost predicate IsBytes(pages: map<nat, Page>, n: nat) {
    n in pages && pages[n].Bytes? && |pages[n].data| == PGSIZE
  }

  ghost predicate IsNode(owner: map<nat, Role>, n: nat, root: nat, level: nat) {
    n in owner && owner[n].Node? && owner[n].root == root && owner[n].level == level
  }

  ghost predicate IsRoot(owner: map<nat, Role>, r: nat) {
    IsNode(owner, r, r, 2)
  }

  /** Entry k of page n is valid and names page c. */
  ghost predicate Points(pages: map<nat, Page>, n: nat, k: nat, c: nat) {
    k < PTES && V(Entry(pages, n, k)) && Ppn(Entry(pages, n, k)) == c
  }

  /** A valid entry of an interior table leads to a table one level down that hangs from it. */
  ghost predicate ChildOk(pages: map<nat, Page>, owner: map<nat, Role>, n: nat, x: Role, k: nat)
    requires x.Node? && x.level > 0
  {
    var w := Entry(pages, n, k);
    V(w) ==> Flags(w) == 1 && Ppn(w) in owner && owner[Ppn(w)] == Node(x.root, x.level - 1, n, k)
  }

  ghost predicate Hangs(pages: map<nat, Page>, owner: map<nat, Role>, n: nat, x: Role)
    requires x.Node?
  {
    if x.level == 2 then x.root == n
    else
      && IsNode(owner, x.parent, x.root, x.level + 1) && Points(pages, x.parent, x.index, n)
      && (x.level == 1 ==> x.index < PTES / 2)
  }

  ghost predicate NodeOk(pages: map<nat, Page>, owner: map<nat, Role>, n: nat, x: Role) {
    x.Node? ==>
      && x.level <= 2 && IsTable(pages, n) && Hangs(pages, owner, n, x)
      && (x.level > 0 ==> forall k :: 0 <= k < PTES ==> ChildOk(pages, owner, n, x, k))
  }

  /** A page held through a user mapping is named by the one entry it is recorded under. */
  ghost predicate LeafOk(pages: map<nat, Page>, owner: map<nat, Role>, n: nat, x: Role) {
    x.Leaf? ==>
      && IsBytes(pages, n) && x.table in owner && owner[x.table].Node? && owner[x.table].level == 0
      && Points(pages, x.table, x.slot, n)
  }

  ghost predicate RoleOk(s: State, n: nat)
    requires n in s.owner
  {
    && FreeBack(s.stack, s.owner[n], n)
    && NodeOk(s.pages, s.owner, n, s.owner[n])
    && LeafOk(s.pages, s.owner, n, s.owner[n])
  }

  ghost predicate Inv(s: State) {
    && Frame(s.pages, s.owner) && FreeOk(s.pages, s.head, s.stack, s.owner)
    && forall n :: n in s.owner ==> RoleOk(s, n)
  }

  // ---------- the tree

  lemma MidFacts(s: State, r: nat, v: nat)
    requires Inv(s) && IsRoot(s.owner, r) && v < MAXVPN
    ensures var m := MidOf(s.pages, r, v); m == 0 || (m in s.owner && s.owner[m] == Node(r, 1, r, Px2(v)))
  {
    assert RoleOk(s, r);
    assert ChildOk(s.pages, s.owner, r, s.owner[r], Px2(v));
  }

  /** The holders along the path to the level-0 table spell out the root and the upper indices. */
  lemma PathFacts(s: State, r: nat, v: nat)
    requires Inv(s) && IsRoot(s.owner, r) && v < MAXVPN
    ensures var t := TableOf(s.pages, r, v); var m := MidOf(s.pages, r, v);
      t == 0 || (m != 0 && t in s.owner && s.owner[t] == Node(r, 0, m, Px1(v)))
  {
    MidFacts(s, r, v);
    var m := MidOf(s.pages, r, v);
    if m != 0 {
      assert RoleOk(s, m);
      assert ChildOk(s.pages, s.owner, m, s.owner[m], Px1(v));
    }
  }

  /** No entry serves two virtual pages, in one tree or in two. */
  lemma PathsDiffer(s: State, r: nat, v: nat, r': nat, v': nat)
    requires Inv(s) && IsRoot(s.owner, r) && IsRoot(s.owner, r') && v < MAXVPN && v' < MAXVPN
    requires TableOf(s.pages, r, v) == TableOf(s.pages, r', v') != 0 && Px0(v) == Px0(v')
    ensures r == r' && v == v'
  {
    PathFacts(s, r, v);
    PathFacts(s, r', v');
    MidFacts(s, r, v);
    MidFacts(s, r', v');
    PxDetermine(v, v');
  }

  /** The translation of a tree reads only that tree's own pages. */
  lemma TreeFrame(s: State, pages: map<nat, Page>, r: nat, v: nat)
    requires Inv(s) && IsRoot(s.owner, r) && v < MAXVPN
    requires forall n :: n in s.owner && s.owner[n].Node? && s.owner[n].root == r ==>
      n in pages && n in s.pages && pages[n] == s.pages[n]
    requires 0 !in pages
    ensures TableOf(pages, r, v) == TableOf(s.pages, r, v) && MidOf(pages, r, v) == MidOf(s.pages, r, v)
    ensures Pte(pages, r, v) == Pte(s.pages, r, v)
  {
    MidFacts(s, r, v);
    PathFacts(s, r, v);
  }
}
