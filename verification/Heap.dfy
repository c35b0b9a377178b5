/**
  The storage allocator of user/umalloc.c.  Addresses count header-sized units; `ptr` and `size`
  are the two words of each header.  The memory obtained from sbrk is described as a sequence of
  tiles, each a free or a live block.
 */
module Heap {
  import Finite

  datatype Tile = Tile(addr: nat, size: nat, free: bool)

  /** The tiles cover [lo, hi) without gap or overlap. */
  ghost predicate Tiled(tiles: seq<Tile>, lo: nat, hi: nat)
    decreases |tiles|
  {
    if tiles == [] then lo == hi
    else tiles[0].addr == lo && tiles[0].size > 0 && Tiled(tiles[1..], lo + tiles[0].size, hi)
  }

  /** No two neighbours are both free. */
  ghost predicate Coalesced(tiles: seq<Tile>) {
    forall i :: 0 <= i < |tiles| - 1 ==> !(tiles[i].free && tiles[i + 1].free)
  }

  /** The addresses of the free tiles, in order. */
  function Frees(tiles: seq<Tile>): seq<nat> {
    if tiles == [] then [] else FreeOf(tiles[0]) + Frees(tiles[1..])
  }

  function FreeOf(t: Tile): seq<nat> {
    if t.free then [t.addr] else []
  }

  lemma {:induction false} FreesConcat(a: seq<Tile>, b: seq<Tile>)
    ensures Frees(a + b) == Frees(a) + Frees(b)
  {
    hide FreeOf;
    if a == [] {
      assert a + b == b;
    } else {
      assert (a + b)[0] == a[0] && (a + b)[1..] == a[1..] + b;
      FreesConcat(a[1..], b);
      assert FreeOf(a[0]) + (Frees(a[1..]) + Frees(b)) == FreeOf(a[0]) + Frees(a[1..]) + Frees(b);
    }
  }

  lemma {:induction false} TiledSplit(a: seq<Tile>, b: seq<Tile>, lo: nat, hi: nat) returns (mid: nat)
    requires Tiled(a + b, lo, hi)
    ensures Tiled(a, lo, mid) && Tiled(b, mid, hi) && lo <= mid
  {
    if a == [] {
      assert a + b == b;
      mid := lo;
    } else {
      assert (a + b)[1..] == a[1..] + b;
      mid := TiledSplit(a[1..], b, lo + a[0].size, hi);
    }
  }

  lemma {:induction false} TiledConcat(a: seq<Tile>, b: seq<Tile>, lo: nat, mid: nat, hi: nat)
    requires Tiled(a, lo, mid) && Tiled(b, mid, hi)
    ensures Tiled(a + b, lo, hi)
  {
    if a == [] {
      assert a + b == b;
    } else {
      assert (a + b)[1..] == a[1..] + b;
      TiledConcat(a[1..], b, lo + a[0].size, mid, hi);
    }
  }

  lemma {:induction false} TiledBounds(a: seq<Tile>, lo: nat, hi: nat)
    requires Tiled(a, lo, hi)
    ensures lo <= hi
    ensures forall i :: 0 <= i < |a| ==> lo <= a[i].addr && a[i].addr + a[i].size <= hi && a[i].size > 0
    ensures a != [] ==> a[|a| - 1].addr + a[|a| - 1].size == hi
  {
    if a != [] {
      TiledBounds(a[1..], lo + a[0].size, hi);
      assert forall i :: 1 <= i < |a| ==> a[i] == a[1..][i - 1];
    }
  }

  lemma {:induction false} FreesBounds(a: seq<Tile>, lo: nat, hi: nat)
    requires Tiled(a, lo, hi)
    ensures forall i :: 0 <= i < |Frees(a)| ==> lo <= Frees(a)[i] < hi
    ensures forall i, j :: 0 <= i < j < |Frees(a)| ==> Frees(a)[i] < Frees(a)[j]
  {
    TiledBounds(a, lo, hi);
    if a != [] {
      FreesBounds(a[1..], lo + a[0].size, hi);
    }
  }

  /** Blocks never overlap. */
  lemma {:induction false} TilesDisjoint(a: seq<Tile>, lo: nat, hi: nat, i: nat, j: nat)
    requires Tiled(a, lo, hi) && i < j < |a|
    ensures a[i].addr + a[i].size <= a[j].addr
  {
    TiledBounds(a[1..], lo + a[0].size, hi);
    if i > 0 {
      TilesDisjoint(a[1..], lo + a[0].size, hi, i - 1, j - 1);
    } else {
      assert a[j] == a[1..][j - 1];
    }
  }

  function Units(a: seq<Tile>): nat {
    if a == [] then 0 else a[0].size + Units(a[1..])
  }

  /** Every unit obtained from sbrk belongs to a block. */
  lemma {:induction false} UnitsConserved(a: seq<Tile>, lo: nat, hi: nat)
    requires Tiled(a, lo, hi)
    ensures lo + Units(a) == hi
  {
    if a != [] {
      UnitsConserved(a[1..], lo + a[0].size, hi);
    }
  }

  // ---------- the circular free list

  predicate LinkAt(ptr: map<nat, nat>, ring: seq<nat>, i: nat)
    requires i < |ring|
  {
    ring[i] in ptr && ptr[ring[i]] == ring[Finite.Succ(i, |ring|)]
  }

  /** Following ptr from any element of the ring visits them all, in order, and returns. */
  ghost predicate Ring(ptr: map<nat, nat>, ring: seq<nat>) {
    |ring| > 0 && forall i :: 0 <= i < |ring| ==> LinkAt(ptr, ring, i)
  }

  ghost predicate Increasing(ring: seq<nat>) {
    forall i, j :: 0 <= i < j < |ring| ==> ring[i] < ring[j]
  }

  /** The exit tests of free()'s search loop, taken together. */
  predicate Between(p: nat, next: nat, bp: nat) {
    (bp > p && bp < next) || (p >= next && (bp > p || bp < next))
  }

  /** In an address-ordered ring the search stops exactly at the last element below bp. */
  lemma BetweenExact(ring: seq<nat>, m: nat, bp: nat, i: nat)
    requires Increasing(ring) && m < |ring| && ring[m] < bp && (m + 1 < |ring| ==> bp < ring[m + 1])
    requires i < |ring|
    ensures Between(ring[i], ring[Finite.Succ(i, |ring|)], bp) <==> i == m
  {
    assert i < m ==> ring[i] < ring[m] && ring[i + 1] <= ring[m];
    assert i > m ==> ring[m + 1] <= ring[i];
    assert ring[0] <= ring[m];
    assert ring[0] <= ring[i];
  }

  lemma RingInsert(ptr: map<nat, nat>, ring: seq<nat>, m: nat, bp: nat)
    requires Ring(ptr, ring) && m < |ring| && bp !in ring && Increasing(ring)
    ensures Ring(ptr[bp := ring[Finite.Succ(m, |ring|)]][ring[m] := bp], ring[..m + 1] + [bp] + ring[m + 1..])
  {
    assert LinkAt(ptr, ring, m);
    var ptr' := ptr[bp := ring[Finite.Succ(m, |ring|)]][ring[m] := bp];
    var r := ring[..m + 1] + [bp] + ring[m + 1..];
    forall i | 0 <= i < |r|
      ensures LinkAt(ptr', r, i)
    {
      if i != m && i != m + 1 {
        var j := if i < m then i else i - 1;
        assert LinkAt(ptr, ring, j) && r[i] == ring[j];
        assert r[Finite.Succ(i, |r|)] == ring[Finite.Succ(j, |ring|)];
      } else if i == m + 1 {
        assert r[Finite.Succ(i, |r|)] == ring[Finite.Succ(m, |ring|)];
      }
    }
  }

  lemma RingReplace(ptr: map<nat, nat>, ring: seq<nat>, m: nat, bp: nat)
    requires Ring(ptr, ring) && m + 1 < |ring| && bp !in ring && Increasing(ring)
    ensures Ring(ptr[bp := ring[Finite.Succ(m + 1, |ring|)]][ring[m] := bp], ring[m + 1 := bp])
  {
    assert LinkAt(ptr, ring, m) && LinkAt(ptr, ring, m + 1);
    var ptr' := ptr[bp := ring[Finite.Succ(m + 1, |ring|)]][ring[m] := bp];
    var r := ring[m + 1 := bp];
    forall i | 0 <= i < |r|
      ensures LinkAt(ptr', r, i)
    {
      assert LinkAt(ptr, ring, i);
    }
  }

  lemma RingRemove(ptr: map<nat, nat>, ring: seq<nat>, m: nat)
    requires Ring(ptr, ring) && m + 1 < |ring| && Increasing(ring)
    ensures Ring(ptr[ring[m] := ring[Finite.Succ(m + 1, |ring|)]], ring[..m + 1] + ring[m + 2..])
  {
    assert LinkAt(ptr, ring, m) && LinkAt(ptr, ring, m + 1);
    var ptr' := ptr[ring[m] := ring[Finite.Succ(m + 1, |ring|)]];
    var r := ring[..m + 1] + ring[m + 2..];
    forall i | 0 <= i < |r|
      ensures LinkAt(ptr', r, i)
    {
      if i != m {
        var j := if i < m then i else i + 1;
        assert LinkAt(ptr, ring, j) && r[i] == ring[j];
        assert r[Finite.Succ(i, |r|)] == ring[Finite.Succ(j, |ring|)];
      } else {
        assert r[Finite.Succ(i, |r|)] == ring[Finite.Succ(m + 1, |ring|)];
      }
    }
  }

  /** Writing the pointer of something outside the ring does not disturb it. */
  lemma RingFrame(ptr: map<nat, nat>, ring: seq<nat>, x: nat, y: nat)
    requires Ring(ptr, ring) && x !in ring
    ensures Ring(ptr[x := y], ring)
  {
    var ptr' := ptr[x := y];
    forall i | 0 <= i < |ring|
      ensures LinkAt(ptr', ring, i)
    {
      assert LinkAt(ptr, ring, i);
    }
  }

  // ---------- what free() does to the tiles

  predicate JoinsNext(b: seq<Tile>) {
    b != [] && b[0].free
  }

  predicate JoinsPrev(a: seq<Tile>) {
    a != [] && a[|a| - 1].free
  }

  /** The block being freed, joined with its free right neighbour if it has one. */
  function Grown(t: Tile, b: seq<Tile>): Tile {
    Tile(t.addr, t.size + (if JoinsNext(b) then b[0].size else 0), true)
  }

  function After(b: seq<Tile>): seq<Tile> {
    if JoinsNext(b) then b[1..] else b
  }

  /** The tiles after block t between a and b is freed. */
  function Freed(a: seq<Tile>, t: Tile, b: seq<Tile>): seq<Tile> {
    var g := Grown(t, b);
    if JoinsPrev(a) then
      var last := a[|a| - 1];
      a[..|a| - 1] + [Tile(last.addr, last.size + g.size, true)] + After(b)
    else a + [g] + After(b)
  }

  lemma FreedTiled(a: seq<Tile>, t: Tile, b: seq<Tile>, lo: nat, hi: nat)
    requires Tiled(a + [t] + b, lo, hi)
    ensures Tiled(Freed(a, t, b), lo, hi)
  {
    var mid := TiledSplit(a + [t], b, lo, hi);
    var start := TiledSplit(a, [t], lo, mid);
    var g := Grown(t, b);
    var end := mid + (if JoinsNext(b) then b[0].size else 0);
    assert Tiled([g], start, end);
    assert Tiled(After(b), end, hi);
    if JoinsPrev(a) {
      var n := |a| - 1;
      assert a == a[..n] + [a[n]];
      var before := TiledSplit(a[..n], [a[n]], lo, start);
      var joined := Tile(a[n].addr, a[n].size + g.size, true);
      assert Tiled([joined], before, end);
      TiledConcat(a[..n], [joined], lo, before, end);
      TiledConcat(a[..n] + [joined], After(b), lo, end, hi);
    } else {
      TiledConcat(a, [g], lo, start, end);
      TiledConcat(a + [g], After(b), lo, end, hi);
    }
  }

  lemma CoalescedConcat(a: seq<Tile>, b: seq<Tile>)
    ensures Coalesced(a + b) <==> Coalesced(a) && Coalesced(b) && !(JoinsPrev(a) && JoinsNext(b))
  {
    var s := a + b;
    assert forall i :: 0 <= i < |a| ==> s[i] == a[i];
    assert forall i :: 0 <= i < |b| ==> s[|a| + i] == b[i];
    if Coalesced(s) {
      forall i | 0 <= i < |b| - 1
        ensures !(b[i].free && b[i + 1].free)
      {
        assert !(s[|a| + i].free && s[|a| + i + 1].free);
      }
      if a != [] && b != [] {
        assert !(s[|a| - 1].free && s[|a| - 1 + 1].free);
      }
    } else {
      var i :| 0 <= i < |s| - 1 && s[i].free && s[i + 1].free;
      if i >= |a| {
        assert b[i - |a|].free && b[i - |a| + 1].free;
      }
    }
  }

  lemma FreedCoalesced(a: seq<Tile>, t: Tile, b: seq<Tile>)
    requires Coalesced(a + [t] + b)
    ensures Coalesced(Freed(a, t, b))
  {
    CoalescedConcat(a + [t], b);
    CoalescedConcat(a, [t]);
    var c := After(b);
    if JoinsNext(b) {
      assert b == [b[0]] + b[1..];
      CoalescedConcat([b[0]], b[1..]);
    }
    assert Coalesced(c) && !JoinsNext(c);
    var g := Grown(t, b);
    if JoinsPrev(a) {
      var n := |a| - 1;
      assert a == a[..n] + [a[n]];
      CoalescedConcat(a[..n], [a[n]]);
      var joined := Tile(a[n].addr, a[n].size + g.size, true);
      CoalescedConcat(a[..n], [joined]);
      CoalescedConcat(a[..n] + [joined], c);
    } else {
      CoalescedConcat(a, [g]);
      CoalescedConcat(a + [g], c);
    }
  }

  lemma FreesOne(t: Tile)
    ensures Frees([t]) == if t.free then [t.addr] else []
  {
    assert [t][1..] == [];
  }

  lemma FreesJoin(a: seq<Tile>)
    requires JoinsPrev(a)
    ensures Frees(a) == Frees(a[..|a| - 1]) + [a[|a| - 1].addr]
  {
    hide Frees;
    var n := |a| - 1;
    FreesConcat(a[..n], [a[n]]);
    FreesOne(a[n]);
    assert a == a[..n] + [a[n]];
  }

  lemma FreesHead(b: seq<Tile>)
    ensures JoinsNext(b) ==> Frees(b) == [b[0].addr] + Frees(b[1..])
  {
  }

  /** The four ways the free list changes. */
  lemma FreedFrees(a: seq<Tile>, t: Tile, b: seq<Tile>)
    ensures JoinsNext(b) ==> Frees(b) == [b[0].addr] + Frees(After(b))
    ensures JoinsPrev(a) ==> Frees(a) != [] && Frees(a)[|Frees(a)| - 1] == a[|a| - 1].addr
    ensures Frees(Freed(a, t, b)) == Frees(a) + (if JoinsPrev(a) then [] else [t.addr]) + Frees(After(b))
  {
    hide Frees, Grown;
    FreesHead(b);
    if JoinsPrev(a) {
      FreesJoin(a);
      FreedJoin(a, t, b);
    } else {
      FreedAlone(a, t, b);
    }
  }

  lemma FreedJoin(a: seq<Tile>, t: Tile, b: seq<Tile>)
    requires JoinsPrev(a)
    ensures Frees(Freed(a, t, b)) == Frees(a) + [] + Frees(After(b))
  {
    hide Frees, Grown, After;
    var n := |a| - 1;
    FreesJoin(a);
    FreesAround(a[..n], Tile(a[n].addr, a[n].size + Grown(t, b).size, true), After(b));
    assert Frees(a) + [] == Frees(a);
  }

  lemma FreedAlone(a: seq<Tile>, t: Tile, b: seq<Tile>)
    requires !JoinsPrev(a)
    ensures Frees(Freed(a, t, b)) == Frees(a) + [t.addr] + Frees(After(b))
  {
    hide Frees, After;
    FreesAround(a, Grown(t, b), After(b));
  }

  lemma FreesAround(a: seq<Tile>, t: Tile, b: seq<Tile>)
    ensures Frees(a + [t] + b) == Frees(a) + (if t.free then [t.addr] else []) + Frees(b)
  {
    hide Frees;
    FreesConcat(a + [t], b);
    FreesConcat(a, [t]);
    FreesOne(t);
  }

  // ---------- the heap as a whole

  ghost predicate SizesOk(size: map<nat, nat>, tiles: seq<Tile>) {
    forall i :: 0 <= i < |tiles| ==> tiles[i].addr in size && size[tiles[i].addr] == tiles[i].size
  }

  function FreeRing(base: nat, tiles: seq<Tile>): seq<nat> {
    [base] + Frees(tiles)
  }

  /** What holds between calls: the blocks tile [lo, hi), free neighbours have been joined, the
      headers carry the sizes, and the free list is the base header followed by the free blocks
      in address order, closed to a ring. */
  ghost predicate HeapOk(ptr: map<nat, nat>, size: map<nat, nat>, base: nat, tiles: seq<Tile>, lo: nat, hi: nat) {
    && base < lo
    && Tiled(tiles, lo, hi)
    && Coalesced(tiles)
    && SizesOk(size, tiles)
    && base in size && size[base] == 0
    && Ring(ptr, FreeRing(base, tiles))
  }

  lemma RingIncreasing(base: nat, tiles: seq<Tile>, lo: nat, hi: nat)
    requires base < lo && Tiled(tiles, lo, hi)
    ensures Increasing(FreeRing(base, tiles))
  {
    FreesBounds(tiles, lo, hi);
  }

  lemma {:induction false} FreesMember(a: seq<Tile>, x: nat) returns (i: nat)
    requires x in Frees(a)
    ensures i < |a| && a[i].free && a[i].addr == x
  {
    if a[0].free && a[0].addr == x {
      i := 0;
    } else {
      var j := FreesMember(a[1..], x);
      i := j + 1;
    }
  }

  /** `bp + bp->s.size == p->s.ptr` tells whether the right neighbour is free. */
  lemma NextTest(b: seq<Tile>, base: nat, start: nat, hi: nat)
    requires Tiled(b, start, hi) && base < start
    ensures start == (if Frees(b) == [] then base else Frees(b)[0]) <==> JoinsNext(b)
  {
    if b != [] && !b[0].free {
      FreesBounds(b[1..], start + b[0].size, hi);
    }
  }

  /** `p + p->s.size == bp` tells whether the left neighbour is free. */
  lemma PrevTest(a: seq<Tile>, size: map<nat, nat>, base: nat, lo: nat, start: nat)
    requires Tiled(a, lo, start) && base < lo && SizesOk(size, a) && base in size && size[base] == 0
    ensures var p := FreeRing(base, a)[|Frees(a)|]; p in size && (p + size[p] == start <==> JoinsPrev(a))
  {
    TiledBounds(a, lo, start);
    var p := FreeRing(base, a)[|Frees(a)|];
    if Frees(a) != [] {
      assert p == Frees(a)[|Frees(a)| - 1];
      var i := FreesMember(a, p);
      if i < |a| - 1 {
        TilesDisjoint(a, lo, start, i, |a| - 1);
      }
      if JoinsPrev(a) {
        FreesJoin(a);
      }
    } else if JoinsPrev(a) {
      FreesJoin(a);
    }
  }

  /** Where a live block lies in the free list: right after the free blocks before it. */
  lemma Around(base: nat, a: seq<Tile>, t: Tile, b: seq<Tile>, lo: nat, hi: nat)
    requires base < lo && Tiled(a + [t] + b, lo, hi) && !t.free
    ensures Tiled(a, lo, t.addr) && Tiled(b, t.addr + t.size, hi) && lo <= t.addr
    ensures var ring, m := FreeRing(base, a + [t] + b), |Frees(a)|;
      && ring == FreeRing(base, a) + Frees(b)
      && Increasing(ring) && m < |ring| && ring[m] == FreeRing(base, a)[m]
      && ring[Finite.Succ(m, |ring|)] == (if Frees(b) == [] then base else Frees(b)[0])
      && ring[m] < t.addr && (m + 1 < |ring| ==> t.addr < ring[m + 1]) && t.addr !in ring
  {
    var mid := TiledSplit(a + [t], b, lo, hi);
    var start := TiledSplit(a, [t], lo, mid);
    assert start == t.addr;
    RingIncreasing(base, a + [t] + b, lo, hi);
    FreesBounds(a, lo, start);
    FreesBounds(b, mid, hi);
    hide Frees, Tiled;
    FreesAround(a, t, b);
    RingAround(base, Frees(a), Frees(b), FreeRing(base, a + [t] + b), t.addr);
  }

  lemma RingAround(base: nat, p: seq<nat>, q: seq<nat>, ring: seq<nat>, x: nat)
    requires ring == [base] + (p + [] + q) && base < x
    requires (forall i :: 0 <= i < |p| ==> p[i] < x) && forall i :: 0 <= i < |q| ==> x < q[i]
    ensures var m := |p|;
      && ring == [base] + p + q && m < |ring| && ring[m] == ([base] + p)[m]
      && ring[Finite.Succ(m, |ring|)] == (if q == [] then base else q[0])
      && ring[m] < x && (m + 1 < |ring| ==> x < ring[m + 1]) && x !in ring
  {
    assert p + [] == p;
    forall i | 0 <= i < |ring|
      ensures ring[i] != x
    {
      assert i > 0 && i <= |p| ==> ring[i] == p[i - 1];
      assert i > |p| ==> ring[i] == q[i - 1 - |p|];
    }
  }

  /** The pointer surgery at the end of free(): p is the predecessor found by the search, and the
      block joins its right and left neighbour as the flags say. */
  function Relink(ptr: map<nat, nat>, p: nat, bp: nat, joinNext: bool, joinPrev: bool): map<nat, nat>
    requires p in ptr && ptr[p] in ptr
  {
    var next := ptr[p];
    var ptr1 := if joinNext then ptr[bp := ptr[next]] else ptr[bp := next];
    if joinPrev then ptr1[p := ptr1[bp]] else ptr1[p := bp]
  }

  function Resize(ptr: map<nat, nat>, size: map<nat, nat>, p: nat, bp: nat, joinNext: bool, joinPrev: bool): map<nat, nat>
    requires p in ptr && bp in size && p in size && ptr[p] in size
  {
    var size1 := if joinNext then size[bp := size[bp] + size[ptr[p]]] else size;
    if joinPrev then size1[p := size1[p] + size1[bp]] else size1
  }

  function NewRing(ring: seq<nat>, m: nat, bp: nat, joinNext: bool, joinPrev: bool): seq<nat>
    requires m < |ring| && (joinNext ==> m + 1 < |ring|)
  {
    ring[..m + 1] + (if joinPrev then [] else [bp]) + ring[if joinNext then m + 2 else m + 1..]
  }

  lemma RelinkKeepsRing(ptr: map<nat, nat>, ring: seq<nat>, m: nat, bp: nat, joinNext: bool, joinPrev: bool)
    requires Ring(ptr, ring) && Increasing(ring) && m < |ring| && bp !in ring && (joinNext ==> m + 1 < |ring|)
    ensures ring[m] in ptr && ptr[ring[m]] in ptr && ptr[ring[m]] == ring[Finite.Succ(m, |ring|)]
    ensures Ring(Relink(ptr, ring[m], bp, joinNext, joinPrev), NewRing(ring, m, bp, joinNext, joinPrev))
  {
    assert LinkAt(ptr, ring, m) && LinkAt(ptr, ring, Finite.Succ(m, |ring|));
    var p, next := ring[m], ring[Finite.Succ(m, |ring|)];
    var r := NewRing(ring, m, bp, joinNext, joinPrev);
    if joinNext && joinPrev {
      RingRemove(ptr, ring, m);
      assert r == ring[..m + 1] + ring[m + 2..];
      RingFrame(ptr[p := ptr[next]], r, bp, ptr[next]);
      assert Relink(ptr, p, bp, true, true) == ptr[p := ptr[next]][bp := ptr[next]];
    } else if joinNext {
      RingReplace(ptr, ring, m, bp);
      assert r == ring[m + 1 := bp];
    } else if joinPrev {
      RingFrame(ptr, ring, bp, next);
      assert Relink(ptr, p, bp, false, true) == ptr[bp := next];
      assert r == ring;
    } else {
      RingInsert(ptr, ring, m, bp);
    }
  }

  lemma NewRingIs(ra: seq<nat>, fb: seq<nat>, fc: seq<nat>, bp: nat, joinNext: bool, joinPrev: bool)
    requires ra != [] && (if joinNext then fb != [] && fc == fb[1..] else fc == fb)
    ensures NewRing(ra + fb, |ra| - 1, bp, joinNext, joinPrev) == ra + (if joinPrev then [] else [bp]) + fc
  {
  }

  lemma FreedRing(base: nat, a: seq<Tile>, t: Tile, b: seq<Tile>)
    ensures FreeRing(base, Freed(a, t, b)) ==
            FreeRing(base, a) + (if JoinsPrev(a) then [] else [t.addr]) + Frees(After(b))
    ensures if JoinsNext(b) then Frees(b) != [] && Frees(After(b)) == Frees(b)[1..] else Frees(After(b)) == Frees(b)
  {
    hide Frees, Freed;
    FreedFrees(a, t, b);
  }

  /** In free(), the list afterwards lists exactly the free blocks afterwards. */
  lemma FreeKeepsRing(ptr: map<nat, nat>, base: nat, a: seq<Tile>, t: Tile, b: seq<Tile>, lo: nat, hi: nat)
    requires base < lo && Tiled(a + [t] + b, lo, hi) && !t.free && Ring(ptr, FreeRing(base, a + [t] + b))
    ensures var p := FreeRing(base, a)[|Frees(a)|];
      && p in ptr && ptr[p] in ptr && ptr[p] == (if Frees(b) == [] then base else Frees(b)[0])
      && Ring(Relink(ptr, p, t.addr, JoinsNext(b), JoinsPrev(a)), FreeRing(base, Freed(a, t, b)))
  {
    hide Frees, Tiled, Freed, JoinsNext, JoinsPrev, After, Ring, Relink, Increasing;
    Around(base, a, t, b, lo, hi);
    FreedRing(base, a, t, b);
    var ring, m := FreeRing(base, a + [t] + b), |Frees(a)|;
    NewRingIs(FreeRing(base, a), Frees(b), Frees(After(b)), t.addr, JoinsNext(b), JoinsPrev(a));
    RelinkKeepsRing(ptr, ring, m, t.addr, JoinsNext(b), JoinsPrev(a));
  }

  lemma PiecesOk(size: map<nat, nat>, a: seq<Tile>, t: Tile, b: seq<Tile>)
    requires SizesOk(size, a + [t] + b)
    ensures SizesOk(size, a) && SizesOk(size, b) && t.addr in size && size[t.addr] == t.size
  {
    var s := a + [t] + b;
    assert s[|a|] == t;
    assert forall i :: 0 <= i < |a| ==> s[i] == a[i];
    assert forall i :: 0 <= i < |b| ==> s[|a| + 1 + i] == b[i];
  }

  lemma NextHasSize(size: map<nat, nat>, base: nat, b: seq<Tile>)
    requires SizesOk(size, b) && base in size
    ensures (if Frees(b) == [] then base else Frees(b)[0]) in size
    ensures JoinsNext(b) ==> size[Frees(b)[0]] == b[0].size
  {
    if Frees(b) != [] {
      var i := FreesMember(b, Frees(b)[0]);
    }
  }

  lemma SeparateAddrs(a: seq<Tile>, lo: nat, hi: nat)
    requires Tiled(a, lo, hi) && a != []
    ensures forall i :: 0 <= i < |a| - 1 ==> a[i].addr < a[|a| - 1].addr
  {
    forall i | 0 <= i < |a| - 1
      ensures a[i].addr < a[|a| - 1].addr
    {
      TilesDisjoint(a, lo, hi, i, |a| - 1);
      TiledBounds(a, lo, hi);
    }
  }

  lemma SizesJoin(size: map<nat, nat>, a: seq<Tile>, t: Tile, b: seq<Tile>)
    requires SizesOk(size, a) && SizesOk(size, b) && t.addr in size && size[t.addr] == t.size
    ensures SizesOk(size, a + [t] + b)
  {
  }

  lemma FreeKeepsSizes(ptr: map<nat, nat>, size: map<nat, nat>, a: seq<Tile>, t: Tile, b: seq<Tile>, lo: nat, hi: nat, p: nat)
    requires Tiled(a, lo, t.addr) && Tiled(b, t.addr + t.size, hi) && t.size > 0
    requires SizesOk(size, a) && SizesOk(size, b) && t.addr in size && size[t.addr] == t.size
    requires p in ptr && p in size && ptr[p] in size && p < t.addr
    requires JoinsNext(b) ==> size[ptr[p]] == b[0].size
    requires JoinsPrev(a) ==> p == a[|a| - 1].addr
    ensures SizesOk(Resize(ptr, size, p, t.addr, JoinsNext(b), JoinsPrev(a)), Freed(a, t, b))
  {
    TiledBounds(a, lo, t.addr);
    TiledBounds(b, t.addr + t.size, hi);
    if a != [] {
      SeparateAddrs(a, lo, t.addr);
    }
    hide Tiled;
    var size' := Resize(ptr, size, p, t.addr, JoinsNext(b), JoinsPrev(a));
    var g := Grown(t, b);
    assert SizesOk(size', After(b));
    if JoinsPrev(a) {
      var last := a[|a| - 1];
      SizesJoin(size', a[..|a| - 1], Tile(last.addr, last.size + g.size, true), After(b));
    } else {
      SizesJoin(size', a, g, After(b));
    }
  }

  /** Both tests of free() and the state they lead to. */
  lemma FreeKeepsHeap(ptr: map<nat, nat>, size: map<nat, nat>, base: nat, a: seq<Tile>, t: Tile, b: seq<Tile>, lo: nat, hi: nat)
    requires HeapOk(ptr, size, base, a + [t] + b, lo, hi) && !t.free
    ensures var p := FreeRing(base, a)[|Frees(a)|];
      && p in ptr && p in size && t.addr in size && ptr[p] in ptr && ptr[p] in size && p != t.addr
      && (t.addr + size[t.addr] == ptr[p] <==> JoinsNext(b))
      && (p + size[p] == t.addr <==> JoinsPrev(a))
      && HeapOk(Relink(ptr, p, t.addr, JoinsNext(b), JoinsPrev(a)),
                Resize(ptr, size, p, t.addr, JoinsNext(b), JoinsPrev(a)), base, Freed(a, t, b), lo, hi)
      && p in FreeRing(base, Freed(a, t, b))
  {
    hide Frees, Tiled, Freed, Coalesced, Ring, SizesOk, After, Relink, Resize;
    FreeKeepsRing(ptr, base, a, t, b, lo, hi);
    Around(base, a, t, b, lo, hi);
    PiecesOk(size, a, t, b);
    NextTest(b, base, t.addr + t.size, hi);
    PrevTest(a, size, base, lo, t.addr);
    NextHasSize(size, base, b);
    FreedFrees(a, t, b);
    FreedTiled(a, t, b, lo, hi);
    FreedCoalesced(a, t, b);
    TiledBounds(a + [t] + b, lo, hi);
    assert (a + [t] + b)[|a|] == t;
    var p := FreeRing(base, a)[|Frees(a)|];
    FreeKeepsSizes(ptr, size, a, t, b, lo, hi, p);
    BaseKeepsSize(ptr, size, base, p, t.addr, JoinsNext(b), JoinsPrev(a));
    FreedRing(base, a, t, b);
    assert FreeRing(base, Freed(a, t, b))[|Frees(a)|] == p;
  }

  lemma BaseKeepsSize(ptr: map<nat, nat>, size: map<nat, nat>, base: nat, p: nat, bp: nat, joinNext: bool, joinPrev: bool)
    requires p in ptr && bp in size && p in size && ptr[p] in size && base in size && base != bp
    requires joinPrev ==> p != base
    ensures var size' := Resize(ptr, size, p, bp, joinNext, joinPrev); base in size' && size'[base] == size[base]
  {
  }

  // ---------- what malloc() does to the tiles

  /** The live blocks. */
  ghost function Live(tiles: seq<Tile>): set<Tile> {
    set i | 0 <= i < |tiles| && !tiles[i].free :: tiles[i]
  }

  lemma LiveConcat(a: seq<Tile>, b: seq<Tile>)
    ensures Live(a + b) == Live(a) + Live(b)
  {
    var s := a + b;
    forall x | x in Live(b)
      ensures x in Live(s)
    {
      var i :| 0 <= i < |b| && !b[i].free && b[i] == x;
      assert s[|a| + i] == x;
    }
    forall x | x in Live(a)
      ensures x in Live(s)
    {
      var i :| 0 <= i < |a| && !a[i].free && a[i] == x;
      assert s[i] == x;
    }
  }

  lemma LiveAround(a: seq<Tile>, m: seq<Tile>, b: seq<Tile>)
    ensures Live(a + m + b) == Live(a) + Live(m) + Live(b)
  {
    LiveConcat(a + m, b);
    LiveConcat(a, m);
  }

  lemma LiveFreed(a: seq<Tile>, t: Tile, b: seq<Tile>)
    ensures Live(Freed(a, t, b)) == Live(a) + Live(b)
  {
    var g := Grown(t, b);
    if JoinsNext(b) {
      assert b == [b[0]] + b[1..];
      LiveConcat([b[0]], b[1..]);
    }
    assert Live(After(b)) == Live(b);
    if JoinsPrev(a) {
      var n := |a| - 1;
      assert a == a[..n] + [a[n]];
      LiveConcat(a[..n], [a[n]]);
      LiveAround(a[..n], [Tile(a[n].addr, a[n].size + g.size, true)], After(b));
    } else {
      LiveAround(a, [g], After(b));
    }
  }

  lemma WholeTiles(a: seq<Tile>, t: Tile, b: seq<Tile>, lo: nat, hi: nat)
    requires Tiled(a + [t] + b, lo, hi) && Coalesced(a + [t] + b) && t.free
    ensures var u := t.(free := false);
      && Tiled(a + [u] + b, lo, hi) && Coalesced(a + [u] + b) && Frees(a + [u] + b) == Frees(a) + Frees(b)
      && Frees(a + [t] + b) == Frees(a) + [t.addr] + Frees(b)
  {
    hide Frees;
    var u := t.(free := false);
    FreesAround(a, t, b);
    FreesAround(a, u, b);
    var end := t.addr + t.size;
    TiledBounds(a + [t] + b, lo, hi);
    assert (a + [t] + b)[|a|] == t;
    assert Tiled([t], t.addr, end) by { assert [t][1..] == []; }
    assert Tiled([u], t.addr, end) by { assert [u][1..] == []; }
    RetileTiled(a, [t], [u], b, lo, hi, t.addr, end);
    TakeCoalesced(a, t, [u], b);
  }

  lemma RingGap(base: nat, p: seq<nat>, x: nat, q: seq<nat>, ring: seq<nat>, ring': seq<nat>)
    requires ring == [base] + (p + [x] + q) && ring' == [base] + (p + q)
    ensures var m := |p|;
      && m + 1 < |ring| && ring[m + 1] == x && m < |ring'| && ring'[m] == ring[m]
      && ring[..m + 1] + ring[m + 2..] == ring'
  {
  }

  /** The whole block is handed out. */
  lemma TakeWhole(ptr: map<nat, nat>, size: map<nat, nat>, base: nat, a: seq<Tile>, t: Tile, b: seq<Tile>, lo: nat, hi: nat)
    requires HeapOk(ptr, size, base, a + [t] + b, lo, hi) && t.free
    ensures var ring, m := FreeRing(base, a + [t] + b), |Frees(a)|;
      && m + 1 < |ring| && ring[m + 1] == t.addr && t.addr in ptr && Increasing(ring)
      && HeapOk(ptr[ring[m] := ptr[t.addr]], size, base, a + [t.(free := false)] + b, lo, hi)
      && ring[m] in FreeRing(base, a + [t.(free := false)] + b)
  {
    hide Frees, Tiled, Coalesced;
    var ring, m := FreeRing(base, a + [t] + b), |Frees(a)|;
    var u := t.(free := false);
    WholeTiles(a, t, b, lo, hi);
    RingIncreasing(base, a + [t] + b, lo, hi);
    var ring' := FreeRing(base, a + [u] + b);
    RingGap(base, Frees(a), t.addr, Frees(b), ring, ring');
    assert LinkAt(ptr, ring, m + 1);
    RingRemove(ptr, ring, m);
    PiecesOk(size, a, t, b);
    TakeSizes(size, a, [u], b);
  }

  lemma SplitTiles(a: seq<Tile>, t: Tile, b: seq<Tile>, lo: nat, hi: nat, n: nat)
    requires Tiled(a + [t] + b, lo, hi) && Coalesced(a + [t] + b) && t.free && 0 < n < t.size
    ensures var x, y := Tile(t.addr, t.size - n, true), Tile(t.addr + (t.size - n), n, false);
      && Tiled(a + [x, y] + b, lo, hi) && Coalesced(a + [x, y] + b)
      && Frees(a + [x, y] + b) == Frees(a + [t] + b)
  {
    var x, y := Tile(t.addr, t.size - n, true), Tile(t.addr + (t.size - n), n, false);
    FreesAround(a, t, b);
    FreesConcat(a + [x, y], b);
    FreesConcat(a, [x, y]);
    assert [x, y] == [x] + [y];
    FreesConcat([x], [y]);
    FreesOne(x);
    FreesOne(y);
    var end := t.addr + t.size;
    assert Tiled([y], y.addr, end) by { assert [y][1..] == []; }
    assert Tiled([x, y], t.addr, end) by { assert [x, y][1..] == [y]; }
    assert Tiled([t], t.addr, end) by { assert [t][1..] == []; }
    RetileTiled(a, [t], [x, y], b, lo, hi, t.addr, end);
    TakeCoalesced(a, t, [x, y], b);
  }

  /** The upper part of the block is handed out. */
  lemma TakeTail(ptr: map<nat, nat>, size: map<nat, nat>, base: nat, a: seq<Tile>, t: Tile, b: seq<Tile>, lo: nat, hi: nat, n: nat)
    requires HeapOk(ptr, size, base, a + [t] + b, lo, hi) && t.free && 0 < n < t.size
    ensures var q := t.addr + (t.size - n);
      var m := [Tile(t.addr, t.size - n, true), Tile(q, n, false)];
      && t.addr in size && size[t.addr] == t.size
      && FreeRing(base, a + m + b) == FreeRing(base, a + [t] + b)
      && HeapOk(ptr, size[t.addr := t.size - n][q := n], base, a + m + b, lo, hi)
  {
    var q := t.addr + (t.size - n);
    SplitTiles(a, t, b, lo, hi, n);
    PiecesOk(size, a, t, b);
    var mid := TiledSplit(a + [t], b, lo, hi);
    var start := TiledSplit(a, [t], lo, mid);
    TiledBounds(a, lo, start);
    TiledBounds(b, mid, hi);
    TiledBounds([t], start, mid);
    hide Frees, Tiled, Coalesced, Ring;
    var size' := size[t.addr := t.size - n][q := n];
    TakeSizes(size', a, [Tile(t.addr, t.size - n, true), Tile(q, n, false)], b);
  }

  /** Replacing one stretch of tiles by another of the same extent. */
  lemma RetileTiled(a: seq<Tile>, m: seq<Tile>, m': seq<Tile>, b: seq<Tile>, lo: nat, hi: nat, from: nat, to: nat)
    requires Tiled(a + m + b, lo, hi) && m != [] && m[0].addr == from
    requires Tiled(m, from, to) && Tiled(m', from, to)
    ensures Tiled(a + m' + b, lo, hi)
  {
    var mid := TiledSplit(a + m, b, lo, hi);
    var start := TiledSplit(a, m, lo, mid);
    assert start == from;
    UnitsConserved(m, start, mid);
    UnitsConserved(m, from, to);
    TiledConcat(a, m', lo, from, to);
    TiledConcat(a + m', b, lo, to, hi);
  }

  /** Putting blocks of which the last is live in place of a free one. */
  lemma TakeCoalesced(a: seq<Tile>, t: Tile, m: seq<Tile>, b: seq<Tile>)
    requires Coalesced(a + [t] + b) && t.free && Coalesced(m) && m != [] && !m[|m| - 1].free
    ensures Coalesced(a + m + b)
  {
    CoalescedConcat(a + [t], b);
    CoalescedConcat(a, [t]);
    CoalescedConcat(a + m, b);
    CoalescedConcat(a, m);
  }

  lemma TakeSizes(size': map<nat, nat>, a: seq<Tile>, m: seq<Tile>, b: seq<Tile>)
    requires SizesOk(size', a) && SizesOk(size', m) && SizesOk(size', b)
    ensures SizesOk(size', a + m + b)
  {
    var s := a + m + b;
    forall i | 0 <= i < |s|
      ensures s[i].addr in size' && size'[s[i].addr] == s[i].size
    {
      if i < |a| {
        assert s[i] == a[i];
      } else if i < |a| + |m| {
        assert s[i] == m[i - |a|];
      } else {
        assert s[i] == b[i - |a| - |m|];
      }
    }
  }
}
