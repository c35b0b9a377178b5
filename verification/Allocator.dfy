/** malloc(), free() and morecore() of user/umalloc.c over the header words in memory. */
module Allocator {
  import opened Heap
  import Finite

  const HEADER: nat := 16      // sizeof(Header) in bytes
  const MINUNITS: nat := 4096  // the least morecore asks for
  const INT_LIMIT: nat := 0x8000_0000

  /** (nbytes + sizeof(Header) - 1) / sizeof(Header) + 1 */
  function UnitsFor(nbytes: nat): (n: nat)
    ensures n >= 1 && nbytes <= (n - 1) * 16 < nbytes + 16
  {
    (nbytes + HEADER - 1) / HEADER + 1
  }

  lemma TileAt(tiles: seq<Tile>, k: nat)
    requires k < |tiles|
    ensures tiles == tiles[..k] + [tiles[k]] + tiles[k + 1..]
  {
  }

  class Allocator {
    const base: nat              // &base
    const lo: nat                // first unit obtained from sbrk
    var brk: nat                 // the program break
    var freep: nat               // 0 before the first call of malloc
    var ptr: map<nat, nat>       // header word s.ptr
    var size: map<nat, nat>      // header word s.size
    ghost var tiles: seq<Tile>
    ghost var refusals: nat      // how often sbrk has failed

    ghost predicate Valid()
      reads this
    {
      && 0 < base < lo
      && (freep == 0 ==> tiles == [] && brk == lo)
      && (freep != 0 ==> Ready())
    }

    ghost predicate Ready()
      reads this
    {
      HeapOk(ptr, size, base, tiles, lo, brk) && freep in FreeRing(base, tiles)
    }

    constructor (b: nat, start: nat)
      requires 0 < b < start
      ensures Valid() && freep == 0 && base == b && lo == start && Live(tiles) == {} && refusals == 0
    {
      base, lo, brk, freep := b, start, start, 0;
      ptr, size, tiles, refusals := map[], map[], [], 0;
    }

    /** The search loop of free(): the free block that precedes bp in the ring. */
    method FindPlace(bp: nat, ghost m: nat) returns (p: nat)
      requires Ready() && Increasing(FreeRing(base, tiles))
      requires var ring := FreeRing(base, tiles);
        m < |ring| && ring[m] < bp && (m + 1 < |ring| ==> bp < ring[m + 1])
      ensures p == FreeRing(base, tiles)[m]
    {
      ghost var ring := FreeRing(base, tiles);
      ghost var n := |ring|;
      ghost var f :| 0 <= f < n && ring[f] == freep;
      ghost var i := f;                                       // p == ring[i]
      ghost var left := if m >= f then m - f else m - f + n;  // steps to go
      p := freep;
      assert LinkAt(ptr, ring, i);
      BetweenExact(ring, m, bp, i);
      while !(bp > p && bp < ptr[p])
        invariant 0 <= i < n && p == ring[i] && p in ptr && ptr[p] == ring[Finite.Succ(i, n)]
        invariant left >= 0 && (m == i + left || m == i + left - n) && (left == 0 ==> i == m)
        invariant Between(p, ptr[p], bp) <==> i == m
        decreases left
      {
        if p >= ptr[p] && (bp > p || bp < ptr[p]) {
          break;
        }
        p := ptr[p];
        i := Finite.Succ(i, n);
        left := left - 1;
        assert LinkAt(ptr, ring, i);
        BetweenExact(ring, m, bp, i);
      }
    }

    /** free().  The block must be live; afterwards exactly it is gone from the live blocks. */
    method Free(ap: nat, ghost k: nat)
      requires Valid() && freep != 0 && k < |tiles| && tiles[k].addr == ap - 1 && !tiles[k].free
      modifies `freep, `ptr, `size, `tiles
      ensures Valid() && freep != 0
      ensures tiles == Freed(old(tiles)[..k], old(tiles)[k], old(tiles)[k + 1..])
      ensures Live(tiles) == Live(old(tiles)) - {old(tiles)[k]}
    {
      hide HeapOk, Live, Frees, Freed, Relink, Resize;
      ghost var a, t, b := tiles[..k], tiles[k], tiles[k + 1..];
      TileAt(tiles, k);
      FreeFacts(ptr, size, base, a, t, b, lo, brk);
      var bp := ap - 1;
      var p := FindPlace(bp, |Frees(a)|);
      Splice(p, bp);
      freep := p;
      tiles := Freed(a, t, b);
    }

    /** sbrk: either fails or moves the break by n units. */
    method Sbrk(n: nat) returns (ok: bool, p: nat)
      modifies `brk, `refusals
      ensures ok ==> p == old(brk) && brk == old(brk) + n && refusals == old(refusals)
      ensures !ok ==> brk == old(brk) && refusals == old(refusals) + 1
    {
      ok := *;
      p := brk;
      if ok {
        brk := brk + n;
      } else {
        refusals := refusals + 1;
      }
    }

    /** Some free block has n units or more. */
    ghost predicate HasRoom(n: nat)
      reads this
    {
      exists i :: 0 <= i < |tiles| && tiles[i].free && tiles[i].size >= n
    }

    /** morecore.  It returns 0 exactly when sbrk failed.  On success the break has moved by 4096 units or
        more, some free block is large enough and the live blocks are as before. */
    method Morecore(nunits: nat) returns (p: nat)
      requires Valid() && freep != 0 && nunits > 0
      modifies `brk, `freep, `ptr, `size, `tiles, `refusals
      ensures Valid() && freep != 0 && Live(tiles) == Live(old(tiles))
      ensures refusals == old(refusals) + (if p == 0 then 1 else 0)
      ensures p == 0 ==> tiles == old(tiles) && freep == old(freep) && brk == old(brk)
      ensures p != 0 ==> p == freep && HasRoom(nunits) && brk == old(brk) + (if nunits < 4096 then 4096 else nunits)
    {
      hide HeapOk, Live, Freed, Frees;
      var nu := nunits;
      if nu < MINUNITS {
        nu := MINUNITS;
      }
      ExtendHeap(ptr, size, base, tiles, lo, brk, nu);
      var ok, hp := Sbrk(nu);
      if !ok {
        return 0;
      }
      size := size[hp := nu];
      ghost var k, before := |tiles|, tiles;
      tiles := tiles + [Tile(hp, nu, false)];
      assert tiles[..k] == before && tiles[k + 1..] == [];
      FreedIsLarge(before, tiles[k]);
      Free(hp + 1, k);
      p := freep;
    }

    /** malloc's allocation from the free block p, whose predecessor in the list is prevp. */
    method TakeFrom(prevp: nat, p: nat, nunits: nat, ghost i: nat) returns (r: nat)
      requires Ready() && 0 < base && nunits > 0 && 1 <= i < |FreeRing(base, tiles)|
      requires p == FreeRing(base, tiles)[i] && prevp == FreeRing(base, tiles)[i - 1] && prevp != 0
      requires p in size && size[p] >= nunits && p in ptr
      modifies `freep, `ptr, `size, `tiles
      ensures Ready() && freep == prevp && r == p + (old(size)[p] - nunits) + 1
      ensures Tile(r - 1, nunits, false) !in Live(old(tiles))
      ensures Live(tiles) == Live(old(tiles)) + {Tile(r - 1, nunits, false)}
    {
      hide HeapOk, Live, Frees;
      ghost var k := FreeTile(ptr, size, base, tiles, lo, brk, i);
      ghost var a, t, b := tiles[..k], tiles[k], tiles[k + 1..];
      TileAt(tiles, k);
      var q := p;
      if size[p] == nunits {
        TakeWhole(ptr, size, base, a, t, b, lo, brk);
        LiveAfterTake(a, t, [], t.(free := false), b, lo, brk);
        assert [] + [t.(free := false)] == [t.(free := false)];
        ptr := ptr[prevp := ptr[p]];
        tiles := a + [t.(free := false)] + b;
      } else {
        TakeTail(ptr, size, base, a, t, b, lo, brk, nunits);
        ghost var rest, taken := Tile(p, t.size - nunits, true), Tile(p + (t.size - nunits), nunits, false);
        LiveAfterTake(a, t, [rest], taken, b, lo, brk);
        assert [rest] + [taken] == [rest, taken];
        size := size[p := size[p] - nunits];
        q := p + size[p];
        size := size[q := nunits];
        tiles := a + [rest, taken] + b;
        PrevStays(base, a, t, b, i);
      }
      freep := prevp;
      r := q + 1;
    }

    /** malloc.  A non-null result is a new live block with room for nbytes behind its header; all
        other live blocks stay.  It fails, and it moves the break, only when no free block is large
        enough.  The search goes around the list at most twice. */
    method Malloc(nbytes: nat) returns (r: nat)
      requires Valid() && UnitsFor(nbytes) * HEADER < INT_LIMIT
      modifies this
      ensures Valid() && freep != 0
      ensures r == 0 ==> Live(tiles) == Live(old(tiles)) && !old(HasRoom(UnitsFor(nbytes)))
      ensures refusals == old(refusals) + (if r == 0 then 1 else 0)
      ensures var u := UnitsFor(nbytes);
        brk == old(brk) + (if r == 0 || old(HasRoom(u)) then 0 else if u < 4096 then 4096 else u)
      ensures r != 0 ==>
        && Tile(r - 1, UnitsFor(nbytes), false) !in Live(old(tiles))
        && Live(tiles) == Live(old(tiles)) + {Tile(r - 1, UnitsFor(nbytes), false)}
    {
      var nunits := UnitsFor(nbytes);
      if freep == 0 {
        ptr, freep, size := ptr[base := base], base, size[base := 0];
        StartRing(ptr, base);
      }
      r := Search(nunits);
    }

    /** The loop of malloc. */
    method Search(nunits: nat) returns (r: nat)
      requires Valid() && freep != 0 && nunits > 0
      modifies `brk, `freep, `ptr, `size, `tiles, `refusals
      ensures Valid() && freep != 0
      ensures r == 0 ==> Live(tiles) == Live(old(tiles)) && !old(HasRoom(nunits))
      ensures refusals == old(refusals) + (if r == 0 then 1 else 0)
      ensures brk == old(brk) + (if r == 0 || old(HasRoom(nunits)) then 0 else if nunits < 4096 then 4096 else nunits)
      ensures r != 0 ==>
        && Tile(r - 1, nunits, false) !in Live(old(tiles))
        && Live(tiles) == Live(old(tiles)) + {Tile(r - 1, nunits, false)}
    {
      hide HeapOk, Live, Frees, OnLap, RoomAhead;
      ghost var grown := false;
      ghost var ring := FreeRing(base, tiles);
      ghost var i := StartLap(ptr, size, base, tiles, lo, brk, freep, nunits);
      ghost var left := |ring| - 1;
      var prevp := freep;
      var p := ptr[prevp];
      while true
        invariant Valid() && freep != 0 && Live(tiles) == Live(old(tiles)) && ring == FreeRing(base, tiles)
        invariant OnLap(ring, freep, prevp, p, i, left)
        invariant HasRoom(nunits) ==> RoomAhead(ring, size, nunits, i, left)
        invariant if grown then HasRoom(nunits) && !old(HasRoom(nunits)) else tiles == old(tiles)
        invariant brk == old(brk) + (if !grown then 0 else if nunits < 4096 then 4096 else nunits) && refusals == old(refusals)
        decreases if grown then 0 else 1, left
      {
        LapFacts(ptr, size, base, tiles, lo, brk, freep, prevp, p, i, left, nunits);
        if size[p] >= nunits {
          ghost var k := FreeTile(ptr, size, base, tiles, lo, brk, i);
          r := TakeFrom(prevp, p, nunits, i);
          return;
        }
        if p == freep {
          p := Morecore(nunits);
          if p == 0 {
            return 0;
          }
          grown := true;
          ring := FreeRing(base, tiles);
          i := StartLap(ptr, size, base, tiles, lo, brk, freep, nunits);
          left := |ring| - 1;
        } else {
          i, left := Finite.Succ(i, |ring|), left - 1;
        }
        prevp := p;
        p := ptr[p];
      }
    }

    /** The joins at the end of free(). */
    method Splice(p: nat, bp: nat)
      requires p in ptr && bp in size && p in size && ptr[p] in ptr && ptr[p] in size && p != bp
      modifies `ptr, `size
      ensures var joinNext, joinPrev := bp + old(size)[bp] == old(ptr)[p], p + old(size)[p] == bp;
        && ptr == Relink(old(ptr), p, bp, joinNext, joinPrev)
        && size == Resize(old(ptr), old(size), p, bp, joinNext, joinPrev)
    {
      if bp + size[bp] == ptr[p] {
        size := size[bp := size[bp] + size[ptr[p]]];
        ptr := ptr[bp := ptr[ptr[p]]];
      } else {
        ptr := ptr[bp := ptr[p]];
      }
      if p + size[p] == bp {
        size := size[p := size[p] + size[bp]];
        ptr := ptr[p := ptr[bp]];
      } else {
        ptr := ptr[p := bp];
      }
    }
  }

  /** A block fresh from sbrk lies behind all others. */
  lemma ExtendHeap(ptr: map<nat, nat>, size: map<nat, nat>, base: nat, tiles: seq<Tile>, lo: nat, hi: nat, n: nat)
    requires HeapOk(ptr, size, base, tiles, lo, hi) && n > 0
    ensures var t := Tile(hi, n, false);
      && HeapOk(ptr, size[hi := n], base, tiles + [t], lo, hi + n)
      && FreeRing(base, tiles + [t]) == FreeRing(base, tiles)
      && Live(tiles + [t]) - {t} == Live(tiles)
  {
    var t := Tile(hi, n, false);
    TiledBounds(tiles, lo, hi);
    assert Tiled([t], hi, hi + n) by { assert [t][1..] == []; }
    TiledConcat(tiles, [t], lo, hi, hi + n);
    CoalescedConcat(tiles, [t]);
    FreesConcat(tiles, [t]);
    FreesOne(t);
    LiveConcat(tiles, [t]);
    assert FreeRing(base, tiles + [t]) == FreeRing(base, tiles);
    assert Live([t]) == {t} by { assert [t][0] == t; }
    assert t !in Live(tiles);
  }

  /** After freeing a block of n units, some free block has at least n units. */
  lemma FreedIsLarge(a: seq<Tile>, t: Tile)
    ensures exists i :: 0 <= i < |Freed(a, t, [])| && Freed(a, t, [])[i].free && Freed(a, t, [])[i].size >= t.size
  {
    var f := Freed(a, t, []);
    var i := if JoinsPrev(a) then |a| - 1 else |a|;
    assert f[i].free && f[i].size >= t.size;
  }

  /** The tile behind entry i of the free list. */
  lemma FreeTile(ptr: map<nat, nat>, size: map<nat, nat>, base: nat, tiles: seq<Tile>, lo: nat, hi: nat, i: nat) returns (k: nat)
    requires HeapOk(ptr, size, base, tiles, lo, hi) && 1 <= i < |FreeRing(base, tiles)|
    ensures k < |tiles| && tiles[k].free && tiles[k].addr == FreeRing(base, tiles)[i]
    ensures size[tiles[k].addr] == tiles[k].size && |Frees(tiles[..k])| == i - 1 && Tiled(tiles, lo, hi)
  {
    k := FreesMember(tiles, Frees(tiles)[i - 1]);
    TileAt(tiles, k);
    var a, t, b := tiles[..k], tiles[k], tiles[k + 1..];
    FreesAround(a, t, b);
    FreesBounds(tiles, lo, hi);
    assert Frees(tiles)[|Frees(a)|] == t.addr;
  }

  lemma PrevStays(base: nat, a: seq<Tile>, t: Tile, b: seq<Tile>, i: nat)
    requires 1 <= i < |FreeRing(base, a + [t] + b)|
    ensures FreeRing(base, a + [t] + b)[i - 1] in FreeRing(base, a + [t] + b)
  {
  }

  /** Replacing a free block by at most one free block and one live block adds just that. */
  lemma LiveAfterTake(a: seq<Tile>, t: Tile, rest: seq<Tile>, u: Tile, b: seq<Tile>, lo: nat, hi: nat)
    requires Tiled(a + [t] + b, lo, hi) && t.free && !u.free && t.addr <= u.addr < t.addr + t.size
    requires rest == [] || (|rest| == 1 && rest[0].free)
    ensures Live(a + (rest + [u]) + b) == Live(a + [t] + b) + {u} && u !in Live(a + [t] + b)
  {
    LiveAround(a, [t], b);
    LiveAround(a, rest + [u], b);
    LiveConcat(rest, [u]);
    assert Live([t]) == {} && Live(rest) == {};
    assert Live([u]) == {u} by { assert [u][0] == u; }
    var mid := TiledSplit(a + [t], b, lo, hi);
    var start := TiledSplit(a, [t], lo, mid);
    TiledBounds(a, lo, start);
    TiledBounds(b, mid, hi);
    TiledBounds([t], start, mid);
    assert u !in Live(a) && u !in Live(b);
  }

  /** How far it is from entry i around the list to entry z. */
  function Ahead(i: nat, z: nat, n: nat): int {
    if z >= i then z - i else z - i + n
  }

  /** p is entry i of the free list, prevp its predecessor, and freep is `left` entries away. */
  ghost predicate OnLap(ring: seq<nat>, freep: nat, prevp: nat, p: nat, i: nat, left: int) {
    && i < |ring| && p == ring[i] && 0 <= left < |ring|
    && prevp == ring[if i == 0 then |ring| - 1 else i - 1]
    && freep == ring[if i + left < |ring| then i + left else i + left - |ring|]
  }

  /** One of the entries from i to freep has n units or more. */
  ghost predicate RoomAhead(ring: seq<nat>, size: map<nat, nat>, n: nat, i: nat, left: int) {
    exists z :: 0 <= z < |ring| && ring[z] in size && size[ring[z]] >= n && Ahead(i, z, |ring|) <= left
  }

  /** The entry after freep, where a lap begins. */
  lemma StartLap(ptr: map<nat, nat>, size: map<nat, nat>, base: nat, tiles: seq<Tile>, lo: nat, hi: nat, freep: nat, n: nat)
    returns (i: nat)
    requires HeapOk(ptr, size, base, tiles, lo, hi) && freep in FreeRing(base, tiles)
    ensures var ring := FreeRing(base, tiles);
      && freep in ptr && OnLap(ring, freep, freep, ptr[freep], i, |ring| - 1)
      && ((exists k :: 0 <= k < |tiles| && tiles[k].free && tiles[k].size >= n) ==>
            RoomAhead(ring, size, n, i, |ring| - 1))
  {
    var ring := FreeRing(base, tiles);
    var f :| 0 <= f < |ring| && ring[f] == freep;
    assert LinkAt(ptr, ring, f);
    i := Finite.Succ(f, |ring|);
    if exists k :: 0 <= k < |tiles| && tiles[k].free && tiles[k].size >= n {
      var k :| 0 <= k < |tiles| && tiles[k].free && tiles[k].size >= n;
      var z := FreeIsListed(tiles, k);
      assert ring[z + 1] == tiles[k].addr;
    }
  }

  /** One step along the list. */
  lemma LapStep(ptr: map<nat, nat>, ring: seq<nat>, freep: nat, prevp: nat, p: nat, i: nat, left: int)
    requires Ring(ptr, ring) && Increasing(ring) && OnLap(ring, freep, prevp, p, i, left)
    ensures p in ptr && (p == freep <==> left == 0)
    ensures left > 0 ==> OnLap(ring, freep, p, ptr[p], Finite.Succ(i, |ring|), left - 1)
  {
    assert LinkAt(ptr, ring, i);
  }

  /** If the entry looked at is too small, the large one is still ahead. */
  lemma RoomStep(ring: seq<nat>, size: map<nat, nat>, n: nat, i: nat, left: int)
    requires RoomAhead(ring, size, n, i, left) && i < |ring| && ring[i] in size && size[ring[i]] < n
    ensures left > 0 && RoomAhead(ring, size, n, Finite.Succ(i, |ring|), left - 1)
  {
    var z :| 0 <= z < |ring| && ring[z] in size && size[ring[z]] >= n && Ahead(i, z, |ring|) <= left;
    assert Ahead(Finite.Succ(i, |ring|), z, |ring|) == Ahead(i, z, |ring|) - 1;
  }

  lemma LapFacts(ptr: map<nat, nat>, size: map<nat, nat>, base: nat, tiles: seq<Tile>, lo: nat, hi: nat,
                 freep: nat, prevp: nat, p: nat, i: nat, left: int, n: nat)
    requires HeapOk(ptr, size, base, tiles, lo, hi) && OnLap(FreeRing(base, tiles), freep, prevp, p, i, left)
    ensures var ring := FreeRing(base, tiles);
      && i < |ring| && p == ring[i] && p in size && p in ptr && base <= prevp && left >= 0
      && (size[p] > 0 ==> i >= 1 && prevp == ring[i - 1])
      && (p == freep <==> left == 0)
      && (left > 0 ==> OnLap(ring, freep, p, ptr[p], Finite.Succ(i, |ring|), left - 1))
      && (RoomAhead(ring, size, n, i, left) && size[p] < n ==>
            left > 0 && RoomAhead(ring, size, n, Finite.Succ(i, |ring|), left - 1))
  {
    var ring := FreeRing(base, tiles);
    RingIncreasing(base, tiles, lo, hi);
    assert forall x :: 0 < x < |ring| ==> ring[0] < ring[x];
    LapStep(ptr, ring, freep, prevp, p, i, left);
    if i > 0 {
      var k := FreeTile(ptr, size, base, tiles, lo, hi, i);
    }
    if RoomAhead(ring, size, n, i, left) && size[p] < n {
      RoomStep(ring, size, n, i, left);
    }
  }

  lemma StartRing(ptr: map<nat, nat>, base: nat)
    requires base in ptr && ptr[base] == base
    ensures Ring(ptr, FreeRing(base, []))
  {
    assert FreeRing(base, []) == [base];
    assert LinkAt(ptr, [base], 0);
  }

  lemma FreeIsListed(tiles: seq<Tile>, k: nat) returns (z: nat)
    requires k < |tiles| && tiles[k].free
    ensures z < |Frees(tiles)| && Frees(tiles)[z] == tiles[k].addr
  {
    TileAt(tiles, k);
    FreesAround(tiles[..k], tiles[k], tiles[k + 1..]);
    z := |Frees(tiles[..k])|;
  }

  /** Everything free() relies on and establishes, for one live block t between a and b. */
  lemma FreeFacts(ptr: map<nat, nat>, size: map<nat, nat>, base: nat, a: seq<Tile>, t: Tile, b: seq<Tile>, lo: nat, hi: nat)
    requires HeapOk(ptr, size, base, a + [t] + b, lo, hi) && !t.free
    ensures var ring, m := FreeRing(base, a + [t] + b), |Frees(a)|;
      && Increasing(ring) && m < |ring| && ring[m] < t.addr && (m + 1 < |ring| ==> t.addr < ring[m + 1])
      && var p := ring[m];
         && p in ptr && p in size && t.addr in size && ptr[p] in ptr && ptr[p] in size && p != t.addr
         && (t.addr + size[t.addr] == ptr[p] <==> JoinsNext(b))
         && (p + size[p] == t.addr <==> JoinsPrev(a))
         && HeapOk(Relink(ptr, p, t.addr, JoinsNext(b), JoinsPrev(a)),
                   Resize(ptr, size, p, t.addr, JoinsNext(b), JoinsPrev(a)), base, Freed(a, t, b), lo, hi)
         && p in FreeRing(base, Freed(a, t, b)) && base <= p
    ensures Live(Freed(a, t, b)) == Live(a + [t] + b) - {t}
  {
    Around(base, a, t, b, lo, hi);
    FreeKeepsHeap(ptr, size, base, a, t, b, lo, hi);
    LiveAfterFree(a, t, b, lo, hi);
    var ring := FreeRing(base, a + [t] + b);
    assert ring[0] == base && forall i :: 0 < i < |ring| ==> ring[0] < ring[i];
  }

  lemma LiveAfterFree(a: seq<Tile>, t: Tile, b: seq<Tile>, lo: nat, hi: nat)
    requires Tiled(a + [t] + b, lo, hi) && !t.free
    ensures Live(Freed(a, t, b)) == Live(a + [t] + b) - {t}
  {
    LiveFreed(a, t, b);
    LiveAround(a, [t], b);
    assert Live([t]) == {t} by { assert [t][0] == t; }
    var mid := TiledSplit(a + [t], b, lo, hi);
    var start := TiledSplit(a, [t], lo, mid);
    TiledBounds(a, lo, start);
    TiledBounds(b, mid, hi);
    TiledBounds([t], start, mid);
    assert t !in Live(a) && t !in Live(b);
  }
}
