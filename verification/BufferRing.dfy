/**
  The buffer cache of kernel/bio.c: a fixed array of buffers threaded on a circular doubly
  linked list in order of release.  Links are indices into the array; index HEAD is
  bcache.head.
 */
module BufferRing {
  import Finite

  const NBUF: nat := 30
  const HEAD: nat := NBUF

  /** struct buf without its data and sleep-lock queue. */
  datatype Buf = Buf(dev: nat, blockno: nat, valid: bool, locked: bool, refcnt: int, prev: nat, next: nat)

  /** Two states of a buffer differ in their links at most. */
  predicate SameFields(x: Buf, y: Buf) {
    x.(prev := y.prev, next := y.next) == y
  }

  // ---------- circular lists over an array of links

  /** Following `next` from position i of the ring and `prev` back are inverse. */
  predicate LinkAt(buf: seq<Buf>, ring: seq<nat>, i: nat)
    requires i < |ring|
  {
    var x, y := ring[i], ring[Finite.Succ(i, |ring|)];
    x < |buf| && y < |buf| && buf[x].next == y && buf[y].prev == x
  }

  /** next runs once around `ring`, prev the other way. */
  ghost predicate Linked(buf: seq<Buf>, ring: seq<nat>) {
    Finite.NoRepeats(ring) && forall i :: 0 <= i < |ring| ==> LinkAt(buf, ring, i)
  }

  function SetPrev(buf: seq<Buf>, b: nat, x: nat): seq<Buf>
    requires b < |buf|
  {
    buf[b := buf[b].(prev := x)]
  }

  function SetNext(buf: seq<Buf>, b: nat, x: nat): seq<Buf>
    requires b < |buf|
  {
    buf[b := buf[b].(next := x)]
  }

  /** brelse's first two assignments. */
  function Unlink(buf: seq<Buf>, b: nat): (r: seq<Buf>)
    requires b < |buf| && buf[b].next < |buf| && buf[b].prev < |buf|
    ensures |r| == |buf| && forall c :: 0 <= c < |buf| ==> SameFields(r[c], buf[c])
  {
    SetNext(SetPrev(buf, buf[b].next, buf[b].prev), buf[b].prev, buf[b].next)
  }

  /** The four assignments that put b behind the head h, in brelse and in binit. */
  function PushFront(buf: seq<Buf>, h: nat, b: nat): (r: seq<Buf>)
    requires h < |buf| && b < |buf| && buf[h].next < |buf| && b != h
    ensures |r| == |buf| && forall c :: 0 <= c < |buf| ==> SameFields(r[c], buf[c])
  {
    SetNext(SetPrev(SetPrev(SetNext(buf, b, buf[h].next), b, h), buf[h].next, b), h, b)
  }

  lemma Neighbours(buf: seq<Buf>, ring: seq<nat>, p: nat)
    requires Linked(buf, ring) && 0 < p < |ring|
    ensures ring[p] < |buf| && buf[ring[p]].prev == ring[p - 1] && buf[ring[p]].next == ring[Finite.Succ(p, |ring|)]
    ensures ring[p - 1] < |buf| && ring[Finite.Succ(p, |ring|)] < |buf|
  {
    assert LinkAt(buf, ring, p - 1) && LinkAt(buf, ring, p);
  }

  lemma UnlinkAt(buf: seq<Buf>, ring: seq<nat>, p: nat, i: nat)
    requires Linked(buf, ring) && 0 < p < |ring| && i < |ring| - 1
    ensures ring[p] < |buf| && buf[ring[p]].next < |buf| && buf[ring[p]].prev < |buf|
    ensures LinkAt(Unlink(buf, ring[p]), Finite.Without(ring, p), i)
  {
    Neighbours(buf, ring, p);
    var rest := Finite.Without(ring, p);
    var k := if i < p then i else i + 1;
    assert LinkAt(buf, ring, k);
    if i == p - 1 {
      assert LinkAt(buf, ring, p);
      assert rest[Finite.Succ(i, |rest|)] == ring[Finite.Succ(p, |ring|)];
    } else {
      assert rest[Finite.Succ(i, |rest|)] == ring[Finite.Succ(k, |ring|)];
    }
  }

  lemma UnlinkKeepsRing(buf: seq<Buf>, ring: seq<nat>, p: nat)
    requires Linked(buf, ring) && 0 < p < |ring|
    ensures ring[p] < |buf| && buf[ring[p]].next < |buf| && buf[ring[p]].prev < |buf|
    ensures Linked(Unlink(buf, ring[p]), Finite.Without(ring, p)) && ring[p] !in Finite.Without(ring, p)
  {
    Neighbours(buf, ring, p);
    forall i | 0 <= i < |ring| - 1
      ensures LinkAt(Unlink(buf, ring[p]), Finite.Without(ring, p), i)
    {
      UnlinkAt(buf, ring, p, i);
    }
  }

  lemma PushFrontAt(buf: seq<Buf>, ring: seq<nat>, b: nat, i: nat)
    requires Linked(buf, ring) && |ring| >= 1 && b < |buf| && b !in ring && i <= |ring|
    ensures ring[0] < |buf| && buf[ring[0]].next < |buf|
    ensures LinkAt(PushFront(buf, ring[0], b), [ring[0], b] + ring[1..], i)
  {
    var more := [ring[0], b] + ring[1..];
    assert LinkAt(buf, ring, 0);
    if i >= 2 {
      assert LinkAt(buf, ring, i - 1);
      assert more[i] == ring[i - 1] && more[Finite.Succ(i, |more|)] == ring[Finite.Succ(i - 1, |ring|)];
    } else if i == 1 {
      assert more[Finite.Succ(i, |more|)] == ring[Finite.Succ(0, |ring|)];
    }
  }

  lemma PushFrontKeepsRing(buf: seq<Buf>, ring: seq<nat>, b: nat)
    requires Linked(buf, ring) && |ring| >= 1 && b < |buf| && b !in ring
    ensures ring[0] < |buf| && buf[ring[0]].next < |buf|
    ensures Linked(PushFront(buf, ring[0], b), [ring[0], b] + ring[1..])
  {
    assert LinkAt(buf, ring, 0);
    forall i | 0 <= i < |ring| + 1
      ensures LinkAt(PushFront(buf, ring[0], b), [ring[0], b] + ring[1..], i)
    {
      PushFrontAt(buf, ring, b, i);
    }
  }

  // ---------- the cache

  predicate Idle(buf: seq<Buf>, b: nat) {
    b < |buf| && buf[b].refcnt == 0
  }

  /** A buffer further back came to the front, in the brelse of its last reference, earlier. */
  ghost predicate LruOrdered(order: seq<nat>, stamp: seq<nat>) {
    forall i, j :: 0 <= i < j < |order| && order[i] < |stamp| && order[j] < |stamp| ==>
      stamp[order[j]] < stamp[order[i]]
  }

  /** No block of a real device is cached twice.  (Unused buffers carry device 0.) */
  ghost predicate OneBufferPerBlock(buf: seq<Buf>) {
    forall i, j :: 0 <= i < j < NBUF && j < |buf| && buf[i].dev != 0 ==>
      !Carries(buf[j], buf[i].dev, buf[i].blockno)
  }

  predicate Carries(b: Buf, dev: nat, blockno: nat) {
    b.dev == dev && b.blockno == blockno
  }

  ghost predicate LockedIsCounted(buf: seq<Buf>) {
    forall b :: 0 <= b < NBUF && b < |buf| ==> buf[b].refcnt >= 0 && (buf[b].locked ==> buf[b].refcnt >= 1)
  }

  /** `order` lists every buffer once. */
  ghost predicate Complete(order: seq<nat>) {
    |order| == NBUF && Finite.NoRepeats(order) && forall b :: 0 <= b < NBUF ==> b in order
  }

  ghost predicate RingOk(buf: seq<Buf>, order: seq<nat>) {
    |buf| == NBUF + 1 && Complete(order) && Linked(buf, [HEAD] + order)
  }

  lemma RingAt(buf: seq<Buf>, order: seq<nat>, i: nat)
    requires RingOk(buf, order) && i < NBUF
    ensures order[i] < NBUF
    ensures buf[order[i]].next == if i + 1 < NBUF then order[i + 1] else HEAD
    ensures buf[order[i]].prev == if i > 0 then order[i - 1] else HEAD
    ensures buf[HEAD].next == order[0] && buf[HEAD].prev == order[NBUF - 1]
  {
    var ring := [HEAD] + order;
    assert LinkAt(buf, ring, i) && LinkAt(buf, ring, i + 1) && LinkAt(buf, ring, 0) && LinkAt(buf, ring, NBUF);
    assert ring[0] != ring[i + 1];
  }

  /** prev and next are inverse on every buffer and on the head. */
  lemma LinksAreInverse(buf: seq<Buf>, order: seq<nat>, b: nat)
    requires RingOk(buf, order) && b <= HEAD
    ensures buf[b].next <= HEAD && buf[b].prev <= HEAD
    ensures buf[buf[b].next].prev == b && buf[buf[b].prev].next == b
  {
    var ring := [HEAD] + order;
    var i := if b == HEAD then 0 else Position(order, b) + 1;
    assert ring[i] == b;
    assert LinkAt(buf, ring, i);
    assert LinkAt(buf, ring, if i == 0 then NBUF else i - 1);
  }

  /** Changing fields other than the links keeps the ring. */
  lemma FieldsKeepRing(buf: seq<Buf>, buf': seq<Buf>, order: seq<nat>)
    requires RingOk(buf, order) && |buf'| == |buf|
    requires forall b :: 0 <= b < |buf| ==> buf'[b].next == buf[b].next && buf'[b].prev == buf[b].prev
    ensures RingOk(buf', order)
  {
    var ring := [HEAD] + order;
    forall i | 0 <= i < |ring|
      ensures LinkAt(buf', ring, i)
    {
      assert LinkAt(buf, ring, i);
    }
  }

  /** Moving one entry of a complete list to the front. */
  function MoveToFront(order: seq<nat>, b: nat): seq<nat>
    requires b in order
  {
    [b] + Finite.Without(order, Position(order, b))
  }

  function Position(order: seq<nat>, b: nat): (p: nat)
    requires b in order
    ensures p < |order| && order[p] == b
  {
    if order[0] == b then 0 else 1 + Position(order[1..], b)
  }

  lemma MoveIsComplete(order: seq<nat>, b: nat)
    requires Complete(order) && b in order
    ensures Complete(MoveToFront(order, b))
  {
    var p := Position(order, b);
    var moved := MoveToFront(order, b);
    assert forall i :: 1 <= i < |moved| ==> moved[i] == if i <= p then order[i - 1] else order[i];
    forall c | 0 <= c < NBUF
      ensures c in moved
    {
      var q := Position(order, c);
      assert c == b || moved[if q < p then q + 1 else q] == c;
    }
  }

  lemma MoveKeepsRing(buf: seq<Buf>, order: seq<nat>, b: nat)
    requires RingOk(buf, order) && b < NBUF
    ensures buf[b].next < |buf| && buf[b].prev < |buf|
    ensures var u := Unlink(buf, b); u[HEAD].next < |u| && RingOk(PushFront(u, HEAD, b), MoveToFront(order, b))
  {
    hide Linked, Unlink, PushFront, Position;
    var p := Position(order, b);
    var ring := [HEAD] + order;
    assert ring[p + 1] == b;
    UnlinkKeepsRing(buf, ring, p + 1);
    var u := Unlink(buf, b);
    var rest := Finite.Without(ring, p + 1);
    assert rest == [HEAD] + Finite.Without(order, p);
    PushFrontKeepsRing(u, rest, b);
    MoveIsComplete(order, b);
    assert [HEAD, b] + rest[1..] == [HEAD] + MoveToFront(order, b);
  }

  /** The abstract state: what is in each buffer, in which order, and when it was released. */
  ghost predicate CacheOk(buf: seq<Buf>, order: seq<nat>, stamp: seq<nat>, clock: nat) {
    && RingOk(buf, order)
    && |stamp| == |buf|
    && (forall b :: 0 <= b < |stamp| ==> stamp[b] < clock)
    && LruOrdered(order, stamp)
    && OneBufferPerBlock(buf)
    && LockedIsCounted(buf)
  }

  /** A step that leaves links alone and releases nobody to zero keeps the cache in order. */
  lemma TouchKeepsCache(buf: seq<Buf>, b: nat, x: Buf, order: seq<nat>, stamp: seq<nat>, clock: nat)
    requires CacheOk(buf, order, stamp, clock) && b < NBUF
    requires x.next == buf[b].next && x.prev == buf[b].prev
    requires x.refcnt >= 0 && (x.locked ==> x.refcnt >= 1)
    requires Carries(x, buf[b].dev, buf[b].blockno) || forall c :: 0 <= c < NBUF ==> !Carries(buf[c], x.dev, x.blockno)
    ensures CacheOk(buf[b := x], order, stamp, clock)
  {
    var buf' := buf[b := x];
    FieldsKeepRing(buf, buf', order);
  }

  lemma SameFieldsOk(buf: seq<Buf>, out: seq<Buf>)
    requires |out| == |buf| && forall c :: 0 <= c < |buf| ==> SameFields(out[c], buf[c])
    requires OneBufferPerBlock(buf) && LockedIsCounted(buf)
    ensures OneBufferPerBlock(out) && LockedIsCounted(out)
  {
  }

  /** Releasing the last reference: the buffer goes to the front with the newest stamp. */
  lemma ReleaseKeepsCache(buf: seq<Buf>, b: nat, order: seq<nat>, stamp: seq<nat>, clock: nat)
    requires CacheOk(buf, order, stamp, clock) && b < NBUF && buf[b].refcnt == 1
    ensures var idle := buf[b := buf[b].(refcnt := 0, locked := false)];
      && idle[b].next < |idle| && idle[b].prev < |idle|
      && var u := Unlink(idle, b);
         && u[HEAD].next < |u|
         && CacheOk(PushFront(u, HEAD, b), MoveToFront(order, b), stamp[b := clock], clock + 1)
  {
    hide Unlink, PushFront, MoveToFront, LruOrdered, Linked, OneBufferPerBlock, LockedIsCounted;
    var idle := buf[b := buf[b].(refcnt := 0, locked := false)];
    FieldsKeepRing(buf, idle, order);
    MoveKeepsRing(idle, order, b);
    var out := PushFront(Unlink(idle, b), HEAD, b);
    assert forall c :: 0 <= c < |buf| ==> SameFields(out[c], idle[c]);
    IdleKeeps(buf, b);
    SameFieldsOk(idle, out);
    MoveKeepsLru(b, order, stamp, clock);
  }

  lemma IdleKeeps(buf: seq<Buf>, b: nat)
    requires |buf| == NBUF + 1 && b < NBUF && OneBufferPerBlock(buf) && LockedIsCounted(buf)
    ensures var idle := buf[b := buf[b].(refcnt := 0, locked := false)];
      OneBufferPerBlock(idle) && LockedIsCounted(idle)
  {
  }

  lemma MoveKeepsLru(b: nat, order: seq<nat>, stamp: seq<nat>, clock: nat)
    requires |stamp| == NBUF + 1 && Complete(order) && b < NBUF
    requires LruOrdered(order, stamp) && forall c :: 0 <= c < |stamp| ==> stamp[c] < clock
    ensures LruOrdered(MoveToFront(order, b), stamp[b := clock])
  {
    var p := Position(order, b);
    var moved := MoveToFront(order, b);
    assert forall i :: 1 <= i < |moved| ==> moved[i] == if i <= p then order[i - 1] else order[i];
    forall i, j | 0 <= i < j < |moved| && moved[i] < |stamp| && moved[j] < |stamp|
      ensures stamp[b := clock][moved[j]] < stamp[b := clock][moved[i]]
    {
      assert moved[j] != b;
      if i > 0 {
        var i', j' := if i <= p then i - 1 else i, if j <= p then j - 1 else j;
        assert order[i'] == moved[i] && order[j'] == moved[j] && moved[i] != b;
      }
    }
  }

  /** The least recently released of the unreferenced buffers. */
  ghost predicate IsVictim(buf: seq<Buf>, stamp: seq<nat>, b: nat)
    requires |stamp| == |buf|
  {
    b < NBUF && Idle(buf, b) && forall c :: 0 <= c < NBUF && Idle(buf, c) ==> stamp[b] <= stamp[c]
  }

  /** Walking backwards, the first unreferenced buffer is the one released longest ago. */
  lemma VictimAt(buf: seq<Buf>, order: seq<nat>, stamp: seq<nat>, i: nat)
    requires |stamp| == |buf| == NBUF + 1 && Complete(order) && LruOrdered(order, stamp)
    requires i < NBUF && order[i] < NBUF && Idle(buf, order[i])
    requires forall k :: i < k < NBUF ==> !Idle(buf, order[k])
    ensures IsVictim(buf, stamp, order[i])
  {
    forall c | 0 <= c < NBUF && Idle(buf, c)
      ensures stamp[order[i]] <= stamp[c]
    {
      assert order[Position(order, c)] == c;
    }
  }

  /** The loop of binit: each buffer in turn goes to the front of the list. */
  method LinkAll() returns (bs: seq<Buf>, ghost ring: seq<nat>)
    ensures |bs| == NBUF + 1 && Linked(bs, ring) && |ring| == NBUF + 1 && ring[0] == HEAD
    ensures forall i :: 1 <= i < |ring| ==> ring[i] == NBUF - i
    ensures forall c :: 0 <= c < |bs| ==> bs[c].dev == 0 && bs[c].refcnt == 0 && !bs[c].locked
  {
    bs := seq(NBUF + 1, i => Buf(0, 0, false, false, 0, 0, 0));
    bs := SetNext(SetPrev(bs, HEAD, HEAD), HEAD, HEAD);
    ring := [HEAD];
    assert LinkAt(bs, ring, 0);
    var b := 0;
    while b < NBUF
      invariant b <= NBUF && |bs| == NBUF + 1
      invariant Linked(bs, ring) && |ring| == b + 1 && ring[0] == HEAD
      invariant forall i :: 1 <= i < |ring| ==> ring[i] == b - i
      invariant forall c :: 0 <= c < |bs| ==> bs[c].dev == 0 && bs[c].refcnt == 0 && !bs[c].locked
    {
      assert LinkAt(bs, ring, 0);
      PushFrontKeepsRing(bs, ring, b);
      hide Linked;
      bs := PushFront(bs, HEAD, b);
      ring := [HEAD, b] + ring[1..];
      b := b + 1;
    }
  }

  class BufferCache {
    var buf: seq<Buf>
    ghost var order: seq<nat>   // from most to least recently released
    ghost var stamp: seq<nat>   // when each buffer was last released to zero
    ghost var clock: nat

    ghost predicate Valid()
      reads this
    {
      CacheOk(buf, order, stamp, clock)
    }

    /** binit. */
    constructor ()
      ensures Valid()
      ensures forall b :: 0 <= b < NBUF ==> buf[b].dev == 0 && buf[b].refcnt == 0
    {
      var bs, ring := LinkAll();
      buf := bs;
      order := ring[1..];
      stamp := seq(NBUF + 1, i requires i >= 0 => i);
      clock := NBUF + 1;
      new;
      assert [HEAD] + order == ring;
      forall c | 0 <= c < NBUF
        ensures c in order
      {
        assert order[NBUF - 1 - c] == c;
      }
    }

    ghost predicate SomeCarries(dev: nat, blockno: nat)
      reads this
    {
      exists c :: 0 <= c < NBUF && c < |buf| && Carries(buf[c], dev, blockno)
    }

    /** bget's first loop: walk `next` from the head. */
    method FindCached(dev: nat, blockno: nat) returns (r: nat)
      requires Valid()
      ensures r < NBUF ==> Carries(buf[r], dev, blockno)
      ensures r == HEAD <==> !SomeCarries(dev, blockno)
      ensures r <= HEAD
    {
      RingAt(buf, order, 0);
      ghost var i := 0;
      r := buf[HEAD].next;
      while r != HEAD
        invariant 0 <= i <= NBUF && r == if i < NBUF then order[i] else HEAD
        invariant forall k :: 0 <= k < i ==> order[k] < NBUF && !Carries(buf[order[k]], dev, blockno)
        decreases NBUF - i
      {
        RingAt(buf, order, i);
        if Carries(buf[r], dev, blockno) {
          return;
        }
        r := buf[r].next;
        i := i + 1;
      }
      if i < NBUF {
        RingAt(buf, order, i);
      }
      forall c | 0 <= c < NBUF
        ensures !Carries(buf[c], dev, blockno)
      {
        assert order[Position(order, c)] == c;
      }
    }

    /** bget's second loop: walk `prev` from the head. */
    method FindVictim() returns (r: nat)
      requires Valid()
      ensures r <= HEAD
      ensures r < NBUF ==> IsVictim(buf, stamp, r)
      ensures r == HEAD <==> forall c :: 0 <= c < NBUF ==> !Idle(buf, c)
    {
      RingAt(buf, order, NBUF - 1);
      ghost var i := NBUF - 1;
      r := buf[HEAD].prev;
      while r != HEAD
        invariant -1 <= i < NBUF && r == if i >= 0 then order[i] else HEAD
        invariant forall k :: i < k < NBUF ==> !Idle(buf, order[k])
        decreases i
      {
        RingAt(buf, order, i);
        if buf[r].refcnt == 0 {
          VictimAt(buf, order, stamp, i);
          return;
        }
        r := buf[r].prev;
        i := i - 1;
      }
      if i >= 0 {
        RingAt(buf, order, i);
      }
      forall c | 0 <= c < NBUF
        ensures !Idle(buf, c)
      {
        assert order[Position(order, c)] == c;
      }
    }

    /** bget up to the point where it takes the sleep-lock.  HEAD stands for the panic. */
    method Bget(dev: nat, blockno: nat) returns (r: nat)
      requires Valid()
      modifies `buf
      ensures Valid()
      ensures r == HEAD <==> !old(SomeCarries(dev, blockno)) && forall c :: 0 <= c < NBUF ==> !old(Idle(buf, c))
      ensures r == HEAD ==> buf == old(buf)
      ensures r != HEAD ==> r < NBUF && Carries(buf[r], dev, blockno) && buf[r].refcnt == old(buf)[r].refcnt + 1
      ensures r != HEAD && old(SomeCarries(dev, blockno)) ==>
        buf == old(buf)[r := old(buf)[r].(refcnt := old(buf)[r].refcnt + 1)]
      ensures r != HEAD && !old(SomeCarries(dev, blockno)) ==>
        && IsVictim(old(buf), stamp, r)
        && buf == old(buf)[r := old(buf)[r].(dev := dev, blockno := blockno, valid := false, refcnt := 1)]
    {
      r := FindCached(dev, blockno);
      if r != HEAD {
        TouchKeepsCache(buf, r, buf[r].(refcnt := buf[r].refcnt + 1), order, stamp, clock);
        buf := buf[r := buf[r].(refcnt := buf[r].refcnt + 1)];
        return;
      }
      r := FindVictim();
      if r != HEAD {
        var x := buf[r].(dev := dev, blockno := blockno, valid := false, refcnt := 1);
        TouchKeepsCache(buf, r, x, order, stamp, clock);
        buf := buf[r := x];
      }
    }

    /** brelse; true stands for its panic. */
    method Brelse(b: nat) returns (panicked: bool)
      requires Valid() && b < NBUF
      modifies this
      ensures Valid() && panicked == !old(buf)[b].locked
      ensures panicked ==> unchanged(this)
      ensures !panicked ==> |buf| == |old(buf)| && forall c :: 0 <= c < |buf| ==>
        SameFields(buf[c], if c == b then old(buf)[b].(locked := false, refcnt := old(buf)[b].refcnt - 1) else old(buf)[c])
      ensures !panicked && old(buf)[b].refcnt == 1 ==>
        order == MoveToFront(old(order), b) && stamp == old(stamp)[b := old(clock)]
      ensures !panicked && old(buf)[b].refcnt > 1 ==> order == old(order) && stamp == old(stamp)
    {
      if !buf[b].locked {
        return true;
      }
      panicked := false;
      if buf[b].refcnt > 1 {
        TouchKeepsCache(buf, b, buf[b].(locked := false, refcnt := buf[b].refcnt - 1), order, stamp, clock);
        buf := buf[b := buf[b].(locked := false, refcnt := buf[b].refcnt - 1)];
      } else {
        ReleaseKeepsCache(buf, b, order, stamp, clock);
        hide CacheOk;
        buf := buf[b := buf[b].(refcnt := 0, locked := false)];
        buf := Unlink(buf, b);
        buf := PushFront(buf, HEAD, b);
        order, stamp, clock := MoveToFront(order, b), stamp[b := clock], clock + 1;
      }
    }

    method Bpin(b: nat)
      requires Valid() && b < NBUF
      modifies `buf
      ensures Valid() && buf == old(buf)[b := old(buf)[b].(refcnt := old(buf)[b].refcnt + 1)]
    {
      TouchKeepsCache(buf, b, buf[b].(refcnt := buf[b].refcnt + 1), order, stamp, clock);
      buf := buf[b := buf[b].(refcnt := buf[b].refcnt + 1)];
    }

    /** bunpin gives back a reference that is not the one of the lock holder.  It moves nothing, so a
        buffer it leaves without references keeps its old place. */
    method Bunpin(b: nat)
      requires Valid() && b < NBUF && buf[b].refcnt >= (if buf[b].locked then 2 else 1)
      modifies `buf
      ensures Valid() && buf == old(buf)[b := old(buf)[b].(refcnt := old(buf)[b].refcnt - 1)]
    {
      TouchKeepsCache(buf, b, buf[b].(refcnt := buf[b].refcnt - 1), order, stamp, clock);
      buf := buf[b := buf[b].(refcnt := buf[b].refcnt - 1)];
    }

    /** The sleep-lock of a buffer is taken, by a process that counted itself in bget. */
    method AcquireSleep(b: nat)
      requires Valid() && b < NBUF && !buf[b].locked && buf[b].refcnt >= 1
      modifies `buf
      ensures Valid() && buf == old(buf)[b := old(buf)[b].(locked := true)]
    {
      TouchKeepsCache(buf, b, buf[b].(locked := true), order, stamp, clock);
      buf := buf[b := buf[b].(locked := true)];
    }
  }
}
