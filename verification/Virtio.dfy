/**
  The virtio block driver of kernel/virtio_disk.c and the device it talks to (sections 2.6 and
  5.2 of VIRTIO 1.1).  One step is one locked section of the driver or one action of the device;
  any number of processes may have requests in flight.
 */
module Virtio {
  import Finite

  const NUM: nat := 8
  const IDX: nat := 0x1_0000   // the ring indices are 16 bits wide

  datatype Addr = NoAddr | Header(i: nat) | Data(buf: nat) | Status(i: nat)

  /** struct virtq_desc: where, whether the device writes, and the next link of the chain. */
  datatype Desc = Desc(addr: Addr, deviceWrites: bool, hasNext: bool, next: nat)

  const ZERO: Desc := Desc(NoAddr, false, false, 0)

  /** struct virtio_blk_req. */
  datatype BlkReq = BlkReq(write: bool, sector: nat)

  datatype Slot = Slot(buf: int, status: int)   // info[i]; buf -1 is null

  datatype Phase = Pending | AtDevice | Finished | Done

  /** A request in flight: its second and third descriptor, its buffer and how far it has come. */
  datatype Req = Req(mid: nat, last: nat, buf: nat, op: BlkReq, phase: Phase)

  /** The shared memory and the driver's own book-keeping.  `reqs` is keyed by the head of the
      chain; `owner` names the head of the chain a descriptor belongs to.  `posted`, `taken`,
      `completed` and `seen` count ring entries without wrap-around. */
  datatype Disk = Disk(
    free: seq<bool>, desc: seq<Desc>, ops: seq<BlkReq>, info: seq<Slot>,
    avail: seq<nat>, availIdx: nat, used: seq<nat>, usedIdx: nat, lastUsed: nat,
    busy: set<nat>,                       // buffers whose `disk` flag is set
    reqs: map<nat, Req>, owner: map<nat, nat>,
    pending: seq<nat>, finished: seq<nat>, posted: nat, taken: nat, completed: nat, seen: nat)

  function Reset(): Disk {
    Disk(seq(NUM, i => true), seq(NUM, i => ZERO), seq(NUM, i => BlkReq(false, 0)), seq(NUM, i => Slot(-1, 0)),
         seq(NUM, i => 0), 0, seq(NUM, i => 0), 0, 0, {}, map[], map[], [], [], 0, 0, 0, 0)
  }

  // ---------- the invariant

  ghost predicate Shape(s: Disk) {
    |s.free| == NUM && |s.desc| == NUM && |s.ops| == NUM && |s.info| == NUM && |s.avail| == NUM && |s.used| == NUM
  }

  /** The 16-bit indices are the unbounded counts, wrapped. */
  ghost predicate Counters(s: Disk) {
    && s.availIdx == s.posted % IDX && s.usedIdx == s.completed % IDX && s.lastUsed == s.seen % IDX
    && s.posted == s.taken + |s.pending| && s.completed == s.seen + |s.finished|
  }

  /** Three descriptors, formatted as virtio_disk_rw leaves them, form the chain of head h. */
  ghost predicate Formatted(desc: seq<Desc>, ops: seq<BlkReq>, owner: map<nat, nat>,
                            h: nat, mid: nat, last: nat, buf: nat, op: BlkReq)
    requires |desc| == NUM && |ops| == NUM
  {
    && h < NUM && mid < NUM && last < NUM && h != mid && h != last && mid != last
    && h in owner && owner[h] == h && mid in owner && owner[mid] == h && last in owner && owner[last] == h
    && desc[h] == Desc(Header(h), false, true, mid)
    && desc[mid] == Desc(Data(buf), !op.write, true, last)
    && desc[last] == Desc(Status(h), true, false, 0)
    && ops[h] == op
  }

  /** What info[] and the buffer's disk flag say about a request. */
  ghost predicate Tracked(slot: Slot, busy: set<nat>, r: Req) {
    && slot.buf == r.buf
    && (slot.status == 0 <==> r.phase.Finished? || r.phase.Done?)
    && (r.buf in busy <==> !r.phase.Done?)
  }

  ghost predicate ChainOk(s: Disk, h: nat)
    requires Shape(s) && h in s.reqs
  {
    var r := s.reqs[h];
    Formatted(s.desc, s.ops, s.owner, h, r.mid, r.last, r.buf, r.op) && h < NUM && Tracked(s.info[h], s.busy, r)
  }

  ghost predicate OneBufferEach(reqs: map<nat, Req>) {
    forall h, k :: h in reqs && k in reqs && h != k ==> reqs[h].buf != reqs[k].buf
  }

  /** Descriptors are free, and zeroed, or belong to exactly one chain. */
  ghost predicate Split(free: seq<bool>, desc: seq<Desc>, owner: map<nat, nat>, reqs: map<nat, Req>)
    requires |free| == NUM && |desc| == NUM
  {
    && (forall d :: 0 <= d < NUM ==> (free[d] <==> d !in owner))
    && (forall d :: 0 <= d < NUM && free[d] ==> desc[d] == ZERO)
    && (forall d :: d in owner ==> d < NUM && owner[d] in reqs && PartOf(d, owner[d], reqs[owner[d]]))
  }

  predicate PartOf(d: nat, h: nat, r: Req) {
    d == h || d == r.mid || d == r.last
  }

  /** The unread part of a ring of NUM entries holds exactly `list`. */
  ghost predicate RingHolds(ring: seq<nat>, from: nat, list: seq<nat>)
    requires |ring| == NUM
  {
    forall i :: 0 <= i < |list| ==> ring[(from + i) % NUM] == list[i]
  }

  /** `list` names each request of the given phase once, and nothing else. */
  ghost predicate Lists(reqs: map<nat, Req>, list: seq<nat>, phase: Phase) {
    && Finite.NoRepeats(list)
    && (forall i :: 0 <= i < |list| ==> list[i] in reqs && reqs[list[i]].phase == phase)
    && (forall h :: h in reqs && reqs[h].phase == phase ==> h in list)
  }

  ghost predicate Inv(s: Disk) {
    && Shape(s) && Counters(s)
    && (forall h :: h in s.reqs ==> ChainOk(s, h))
    && OneBufferEach(s.reqs)
    && Split(s.free, s.desc, s.owner, s.reqs)
    && Lists(s.reqs, s.pending, Pending) && Lists(s.reqs, s.finished, Finished)
    && RingHolds(s.avail, s.taken, s.pending) && RingHolds(s.used, s.seen, s.finished)
  }

  // ---------- ring arithmetic

  lemma WholeRounds(k: nat, m: nat)
    ensures (NUM * k + m) % NUM == m % NUM
  {
  }

  /** NUM divides the range of the indices, so slots stay in step when an index wraps. */
  lemma SlotOfIndex(n: nat)
    ensures n % IDX % NUM == n % NUM
  {
    WholeRounds(n / IDX * 8192, n % IDX);
    assert n == NUM * (n / IDX * 8192) + n % IDX;
  }

  /** Fewer than NUM unread entries leave the next slot free. */
  lemma SlotsDiffer(from: nat, i: nat, n: nat)
    requires i < n < NUM
    ensures (from + i) % NUM != (from + n) % NUM
  {
  }

  lemma Append(ring: seq<nat>, from: nat, list: seq<nat>, h: nat)
    requires |ring| == NUM && |list| < NUM && RingHolds(ring, from, list)
    ensures RingHolds(ring[(from + |list|) % NUM := h], from, list + [h])
  {
    var ring' := ring[(from + |list|) % NUM := h];
    forall i | 0 <= i < |list + [h]|
      ensures ring'[(from + i) % NUM] == (list + [h])[i]
    {
      if i < |list| {
        SlotsDiffer(from, i, |list|);
      }
    }
  }

  lemma Advance(ring: seq<nat>, from: nat, list: seq<nat>)
    requires |ring| == NUM && RingHolds(ring, from, list) && list != []
    ensures ring[from % NUM] == list[0] && RingHolds(ring, from + 1, list[1..])
  {
    assert ring[(from + 0) % NUM] == list[0];
    forall i | 0 <= i < |list[1..]|
      ensures ring[(from + 1 + i) % NUM] == list[1..][i]
    {
      assert ring[(from + (i + 1)) % NUM] == list[i + 1];
    }
  }

  // ---------- steps

  datatype Action =
    | Submit(b: nat, op: BlkReq, d0: nat, d1: nat, d2: nat)   // virtio_disk_rw up to the wait
    | Take                                                    // the device reads an avail entry
    | Complete(h: nat)                                        // the device finishes a request, in any order
    | Intr                                                    // one iteration of virtio_disk_intr
    | Finish(h: nat)                                          // virtio_disk_rw after its buffer came back

  predicate Enabled(s: Disk, a: Action)
    requires Shape(s)
  {
    match a
    case Submit(b, _, d0, d1, d2) =>
      && d0 < NUM && d1 < NUM && d2 < NUM && d0 != d1 && d0 != d2 && d1 != d2
      && s.free[d0] && s.free[d1] && s.free[d2]
      && forall h :: h in s.reqs ==> s.reqs[h].buf != b
    case Take => s.taken < s.posted
    case Complete(h) => h in s.reqs && s.reqs[h].phase.AtDevice?
    case Intr => s.lastUsed != s.usedIdx
    case Finish(h) => h in s.reqs && s.reqs[h].buf !in s.busy
  }

  /** Formatting the three descriptors, and the avail entry that publishes them. */
  function DoSubmit(s: Disk, b: nat, op: BlkReq, d0: nat, d1: nat, d2: nat): Disk
    requires Shape(s) && d0 < NUM && d1 < NUM && d2 < NUM
  {
    s.(free := s.free[d0 := false][d1 := false][d2 := false],
       ops := s.ops[d0 := op],
       desc := s.desc[d0 := Desc(Header(d0), false, true, d1)]
                     [d1 := Desc(Data(b), !op.write, true, d2)]
                     [d2 := Desc(Status(d0), true, false, 0)],
       info := s.info[d0 := Slot(b, 0xff)],
       busy := s.busy + {b},
       avail := s.avail[s.availIdx % NUM := d0],
       availIdx := (s.availIdx + 1) % IDX,
       posted := s.posted + 1,
       pending := s.pending + [d0],
       reqs := s.reqs[d0 := Req(d1, d2, b, op, Pending)],
       owner := s.owner[d0 := d0][d1 := d0][d2 := d0])
  }

  function SetPhase(reqs: map<nat, Req>, h: nat, p: Phase): map<nat, Req>
    requires h in reqs
  {
    reqs[h := reqs[h].(phase := p)]
  }

  function DoTake(s: Disk): Disk
    requires Shape(s) && s.pending != [] && s.pending[0] in s.reqs
  {
    s.(taken := s.taken + 1, pending := s.pending[1..], reqs := SetPhase(s.reqs, s.pending[0], AtDevice))
  }

  function DoComplete(s: Disk, h: nat): Disk
    requires Shape(s) && h in s.reqs && h < NUM
  {
    s.(info := s.info[h := s.info[h].(status := 0)],
       used := s.used[s.usedIdx % NUM := h],
       usedIdx := (s.usedIdx + 1) % IDX,
       completed := s.completed + 1,
       finished := s.finished + [h],
       reqs := SetPhase(s.reqs, h, Finished))
  }

  /** The driver looks only at the used ring and info[]. */
  function DoIntr(s: Disk): Disk
    requires Shape(s)
  {
    var id := s.used[s.lastUsed % NUM];
    s.(busy := if id < NUM && s.info[id].buf >= 0 then s.busy - {s.info[id].buf} else s.busy,
       lastUsed := (s.lastUsed + 1) % IDX,
       seen := s.seen + 1,
       finished := if s.finished == [] then [] else s.finished[1..],
       reqs := if id in s.reqs then SetPhase(s.reqs, id, Done) else s.reqs)
  }

  /** info[h].b = 0 and free_chain(h). */
  function DoFinish(s: Disk, h: nat): Disk
    requires Shape(s) && h in s.reqs && h < NUM && s.reqs[h].mid < NUM && s.reqs[h].last < NUM
  {
    var r := s.reqs[h];
    s.(desc := s.desc[h := ZERO][r.mid := ZERO][r.last := ZERO],
       free := s.free[h := true][r.mid := true][r.last := true],
       info := s.info[h := s.info[h].(buf := -1)],
       reqs := s.reqs - {h},
       owner := s.owner - {h, r.mid, r.last})
  }

  ghost function Apply(s: Disk, a: Action): Disk
    requires Inv(s) && Enabled(s, a)
  {
    match a
    case Submit(b, op, d0, d1, d2) => DoSubmit(s, b, op, d0, d1, d2)
    case Take => DoTake(s)
    case Complete(h) => assert ChainOk(s, h); DoComplete(s, h)
    case Intr => DoIntr(s)
    case Finish(h) => assert ChainOk(s, h); DoFinish(s, h)
  }

  // ---------- every step keeps the invariant

  /** Fewer than NUM heads can be listed besides a further descriptor. */
  lemma HeadsBound(s: Disk, list: seq<nat>, d: nat)
    requires Inv(s) && Finite.NoRepeats(list) && d < NUM && d !in list
    requires forall i :: 0 <= i < |list| ==> list[i] in s.reqs
    ensures |list| < NUM
  {
    forall i | 0 <= i < |list|
      ensures list[i] < NUM
    {
      assert ChainOk(s, list[i]);
    }
    Finite.DistinctBound(list, NUM, d);
  }

  lemma IndexBump(n: nat)
    ensures (n % IDX + 1) % IDX == (n + 1) % IDX
  {
  }

  lemma FirstOut(list: seq<nat>, h: nat)
    requires h in list && h != list[0]
    ensures h in list[1..]
  {
    var i :| 0 <= i < |list| && list[i] == h;
    assert list[1..][i - 1] == h;
  }

  /** Moving request h from one phase to another. */
  lemma PhaseKeeps(free: seq<bool>, desc: seq<Desc>, owner: map<nat, nat>, reqs: map<nat, Req>, h: nat, p: Phase)
    requires |free| == NUM && |desc| == NUM && h in reqs && Split(free, desc, owner, reqs) && OneBufferEach(reqs)
    ensures Split(free, desc, owner, SetPhase(reqs, h, p)) && OneBufferEach(SetPhase(reqs, h, p))
  {
  }

  lemma ListEnters(reqs: map<nat, Req>, list: seq<nat>, h: nat, p: Phase)
    requires Lists(reqs, list, p) && h in reqs && reqs[h].phase != p
    ensures Lists(SetPhase(reqs, h, p), list + [h], p)
  {
    assert (list + [h])[|list|] == h;
    assert forall k :: k in list ==> k in list + [h];
  }

  lemma ListLeaves(reqs: map<nat, Req>, list: seq<nat>, p: Phase, q: Phase)
    requires Lists(reqs, list, p) && list != [] && p != q
    ensures list[0] in reqs && Lists(SetPhase(reqs, list[0], q), list[1..], p)
  {
    forall k | k in reqs && k != list[0] && reqs[k].phase == p
      ensures k in list[1..]
    {
      FirstOut(list, k);
    }
  }

  lemma ListStays(reqs: map<nat, Req>, list: seq<nat>, h: nat, p: Phase, q: Phase)
    requires Lists(reqs, list, p) && h in reqs && reqs[h].phase != p && q != p
    ensures Lists(SetPhase(reqs, h, q), list, p)
  {
  }

  lemma SubmitRing(s: Disk, b: nat, op: BlkReq, d0: nat, d1: nat, d2: nat)
    requires Inv(s) && Enabled(s, Submit(b, op, d0, d1, d2))
    ensures d0 !in s.reqs
    ensures var s' := DoSubmit(s, b, op, d0, d1, d2); Counters(s') && RingHolds(s'.avail, s'.taken, s'.pending)
  {
    assert d0 in s.reqs ==> ChainOk(s, d0);
    IndexBump(s.posted);
    SlotOfIndex(s.posted);
    HeadsBound(s, s.pending, d0);
    Append(s.avail, s.taken, s.pending, d0);
  }

  /** A chain whose descriptors are left alone stays formatted. */
  lemma FormattedFrame(desc: seq<Desc>, ops: seq<BlkReq>, owner: map<nat, nat>,
                       desc': seq<Desc>, ops': seq<BlkReq>, owner': map<nat, nat>,
                       h: nat, mid: nat, last: nat, buf: nat, op: BlkReq)
    requires |desc| == |desc'| == |ops| == |ops'| == NUM && Formatted(desc, ops, owner, h, mid, last, buf, op)
    requires forall d :: d in owner && d < NUM && owner[d] == h ==> d in owner' && owner'[d] == h && desc'[d] == desc[d]
    requires ops'[h] == ops[h]
    ensures Formatted(desc', ops', owner', h, mid, last, buf, op)
  {
  }

  lemma NewChain(desc: seq<Desc>, ops: seq<BlkReq>, owner: map<nat, nat>, d0: nat, d1: nat, d2: nat, b: nat, op: BlkReq)
    requires |desc| == |ops| == NUM && d0 < NUM && d1 < NUM && d2 < NUM && d0 != d1 && d0 != d2 && d1 != d2
    ensures Formatted(desc[d0 := Desc(Header(d0), false, true, d1)]
                          [d1 := Desc(Data(b), !op.write, true, d2)]
                          [d2 := Desc(Status(d0), true, false, 0)],
                      ops[d0 := op], owner[d0 := d0][d1 := d0][d2 := d0], d0, d1, d2, b, op)
  {
  }

  lemma FreeIsUnowned(s: Disk, d: nat)
    requires Inv(s) && d < NUM && s.free[d]
    ensures d !in s.owner
  {
    hide RingHolds, Lists, Formatted, Counters;
  }

  lemma SubmitChains(s: Disk, b: nat, op: BlkReq, d0: nat, d1: nat, d2: nat)
    requires Inv(s) && Enabled(s, Submit(b, op, d0, d1, d2)) && d0 !in s.reqs
    ensures var s' := DoSubmit(s, b, op, d0, d1, d2); forall h :: h in s'.reqs ==> ChainOk(s', h)
  {
    hide RingHolds, Lists, Formatted, Split, Counters;
    var s' := DoSubmit(s, b, op, d0, d1, d2);
    NewChain(s.desc, s.ops, s.owner, d0, d1, d2, b, op);
    FreeIsUnowned(s, d0);
    FreeIsUnowned(s, d1);
    FreeIsUnowned(s, d2);
    forall h | h in s'.reqs
      ensures ChainOk(s', h)
    {
      if h != d0 {
        assert ChainOk(s, h);
        var r := s.reqs[h];
        FormattedFrame(s.desc, s.ops, s.owner, s'.desc, s'.ops, s'.owner, h, r.mid, r.last, r.buf, r.op);
      }
    }
  }

  lemma SplitAdd(free: seq<bool>, desc: seq<Desc>, owner: map<nat, nat>, reqs: map<nat, Req>,
                 free': seq<bool>, desc': seq<Desc>, owner': map<nat, nat>, d0: nat, r: Req)
    requires |free| == |desc| == |free'| == |desc'| == NUM && Split(free, desc, owner, reqs) && d0 !in reqs
    requires d0 < NUM && r.mid < NUM && r.last < NUM
    requires forall d :: 0 <= d < NUM && !PartOf(d, d0, r) ==> free'[d] == free[d] && desc'[d] == desc[d]
    requires forall d :: 0 <= d < NUM && PartOf(d, d0, r) ==> !free'[d]
    requires owner' == owner[d0 := d0][r.mid := d0][r.last := d0]
    ensures Split(free', desc', owner', reqs[d0 := r])
  {
  }

  lemma SubmitSplit(s: Disk, b: nat, op: BlkReq, d0: nat, d1: nat, d2: nat)
    requires Inv(s) && Enabled(s, Submit(b, op, d0, d1, d2)) && d0 !in s.reqs
    ensures var s' := DoSubmit(s, b, op, d0, d1, d2); Split(s'.free, s'.desc, s'.owner, s'.reqs) && OneBufferEach(s'.reqs)
  {
    hide RingHolds, ChainOk, Lists, Split;
    var s' := DoSubmit(s, b, op, d0, d1, d2);
    SplitAdd(s.free, s.desc, s.owner, s.reqs, s'.free, s'.desc, s'.owner, d0, Req(d1, d2, b, op, Pending));
  }

  lemma SubmitLists(s: Disk, b: nat, op: BlkReq, d0: nat, d1: nat, d2: nat)
    requires Inv(s) && Enabled(s, Submit(b, op, d0, d1, d2)) && d0 !in s.reqs
    ensures var s' := DoSubmit(s, b, op, d0, d1, d2);
      Lists(s'.reqs, s'.pending, Pending) && Lists(s'.reqs, s'.finished, Finished)
  {
    hide RingHolds, ChainOk, Split, Lists, OneBufferEach, Counters;
    NewListed(s.reqs, s.pending, d0, Req(d1, d2, b, op, Pending));
    NewUnlisted(s.reqs, s.finished, d0, Req(d1, d2, b, op, Pending), Finished);
  }

  lemma NewListed(reqs: map<nat, Req>, list: seq<nat>, h: nat, r: Req)
    requires Lists(reqs, list, r.phase) && h !in reqs
    ensures Lists(reqs[h := r], list + [h], r.phase)
  {
    assert (list + [h])[|list|] == h;
    assert forall k :: k in list ==> k in list + [h];
  }

  lemma NewUnlisted(reqs: map<nat, Req>, list: seq<nat>, h: nat, r: Req, p: Phase)
    requires Lists(reqs, list, p) && h !in reqs && r.phase != p
    ensures Lists(reqs[h := r], list, p)
  {
  }

  lemma SubmitKeepsInv(s: Disk, b: nat, op: BlkReq, d0: nat, d1: nat, d2: nat)
    requires Inv(s) && Enabled(s, Submit(b, op, d0, d1, d2))
    ensures Inv(DoSubmit(s, b, op, d0, d1, d2))
  {
    SubmitRing(s, b, op, d0, d1, d2);
    SubmitChains(s, b, op, d0, d1, d2);
    SubmitSplit(s, b, op, d0, d1, d2);
    SubmitLists(s, b, op, d0, d1, d2);
    hide RingHolds, ChainOk, Split, Lists, OneBufferEach;
  }

  lemma PendingHead(s: Disk)
    requires Inv(s) && Enabled(s, Take)
    ensures s.pending != [] && s.pending[0] in s.reqs && s.reqs[s.pending[0]].phase.Pending?
  {
    hide RingHolds, Formatted, Split;
  }

  lemma TakeKeepsInv(s: Disk)
    requires Inv(s) && Enabled(s, Take)
    ensures s.pending != [] && s.pending[0] in s.reqs && Inv(DoTake(s))
  {
    hide RingHolds, Lists, Split, OneBufferEach, Formatted;
    PendingHead(s);
    var h := s.pending[0];
    var s' := DoTake(s);
    Advance(s.avail, s.taken, s.pending);
    PhaseKeeps(s.free, s.desc, s.owner, s.reqs, h, AtDevice);
    ListLeaves(s.reqs, s.pending, Pending, AtDevice);
    ListStays(s.reqs, s.finished, h, Finished, AtDevice);
    forall k | k in s'.reqs
      ensures ChainOk(s', k)
    {
      assert ChainOk(s, k);
    }
  }

  lemma CompleteRing(s: Disk, h: nat)
    requires Inv(s) && Enabled(s, Complete(h))
    ensures h < NUM
    ensures var s' := DoComplete(s, h); Counters(s') && RingHolds(s'.used, s'.seen, s'.finished)
  {
    hide RingHolds, Split, OneBufferEach;
    assert ChainOk(s, h);
    IndexBump(s.completed);
    SlotOfIndex(s.completed);
    HeadsBound(s, s.finished, h);
    Append(s.used, s.seen, s.finished, h);
  }

  lemma CompleteKeepsInv(s: Disk, h: nat)
    requires Inv(s) && Enabled(s, Complete(h))
    ensures h < NUM && Inv(DoComplete(s, h))
  {
    hide RingHolds, Lists, Split, OneBufferEach, Formatted, Counters;
    CompleteRing(s, h);
    var s' := DoComplete(s, h);
    PhaseKeeps(s.free, s.desc, s.owner, s.reqs, h, Finished);
    ListEnters(s.reqs, s.finished, h, Finished);
    ListStays(s.reqs, s.pending, h, Pending, Finished);
    forall k | k in s'.reqs
      ensures ChainOk(s', k)
    {
      assert ChainOk(s, k);
    }
  }

  /** The 16-bit indices differ exactly while there are completions to look at. */
  lemma IntrPending(s: Disk)
    requires Inv(s)
    ensures s.lastUsed != s.usedIdx <==> s.finished != []
  {
    hide RingHolds, Split, OneBufferEach;
    if s.finished != [] {
      var h := s.finished[0];
      assert ChainOk(s, h);
      HeadsBound(s, s.finished[1..], h);
    }
  }

  /** What the interrupt handler finds: the oldest unseen completion, its own buffer, and success,
      so virtio_disk_intr never panics and never touches another request's buffer. */
  lemma IntrFinds(s: Disk)
    requires Inv(s) && Enabled(s, Intr)
    ensures s.finished != []
    ensures var id := s.used[s.lastUsed % NUM];
      && id == s.finished[0] && id in s.reqs && id < NUM && s.reqs[id].phase.Finished?
      && s.info[id] == Slot(s.reqs[id].buf, 0)
      && s.reqs[id].buf in s.busy
  {
    hide RingHolds, Split, OneBufferEach;
    IntrPending(s);
    SlotOfIndex(s.seen);
    Advance(s.used, s.seen, s.finished);
    assert ChainOk(s, s.finished[0]);
  }

  lemma IntrKeepsInv(s: Disk)
    requires Inv(s) && Enabled(s, Intr)
    ensures Inv(DoIntr(s))
  {
    hide RingHolds, Lists, Split, Formatted;
    IntrFinds(s);
    IndexBump(s.seen);
    Advance(s.used, s.seen, s.finished);
    var h := s.finished[0];
    var s' := DoIntr(s);
    PhaseKeeps(s.free, s.desc, s.owner, s.reqs, h, Done);
    ListLeaves(s.reqs, s.finished, Finished, Done);
    ListStays(s.reqs, s.pending, h, Pending, Done);
    forall k | k in s'.reqs
      ensures ChainOk(s', k)
    {
      assert ChainOk(s, k);
      assert k != h ==> s.reqs[k].buf != s.reqs[h].buf;
    }
  }

  lemma FinishFacts(s: Disk, h: nat)
    requires Inv(s) && Enabled(s, Finish(h))
    ensures ChainOk(s, h) && s.reqs[h].phase.Done?
    ensures h < NUM && s.reqs[h].mid < NUM && s.reqs[h].last < NUM
    ensures forall d :: PartOf(d, h, s.reqs[h]) ==> d in s.owner && s.owner[d] == h
  {
    hide RingHolds, Lists, Split, OneBufferEach, Counters;
    assert ChainOk(s, h);
  }

  lemma FinishLists(reqs: map<nat, Req>, list: seq<nat>, h: nat, p: Phase)
    requires Lists(reqs, list, p) && h in reqs && reqs[h].phase != p
    ensures Lists(reqs - {h}, list, p)
  {
  }

  ghost predicate Chains(s: Disk) {
    Shape(s) && forall k :: k in s.reqs ==> ChainOk(s, k)
  }

  lemma FinishChains(s: Disk, h: nat)
    requires Inv(s) && Shape(s) && Enabled(s, Finish(h)) && h < NUM && s.reqs[h].mid < NUM && s.reqs[h].last < NUM
    ensures Chains(DoFinish(s, h))
  {
    hide RingHolds, Lists, Split, OneBufferEach, Formatted, Counters;
    FinishFacts(s, h);
    var s' := DoFinish(s, h);
    forall k | k in s'.reqs
      ensures ChainOk(s', k)
    {
      assert ChainOk(s, k);
      var r := s.reqs[k];
      FormattedFrame(s.desc, s.ops, s.owner, s'.desc, s'.ops, s'.owner, k, r.mid, r.last, r.buf, r.op);
    }
  }

  lemma SplitRemove(free: seq<bool>, desc: seq<Desc>, owner: map<nat, nat>, reqs: map<nat, Req>,
                    free': seq<bool>, desc': seq<Desc>, h: nat, r: Req)
    requires |free| == |desc| == |free'| == |desc'| == NUM && Split(free, desc, owner, reqs) && h in reqs && reqs[h] == r
    requires forall d :: 0 <= d < NUM && !PartOf(d, h, r) ==> free'[d] == free[d] && desc'[d] == desc[d]
    requires forall d :: 0 <= d < NUM && PartOf(d, h, r) ==> free'[d] && desc'[d] == ZERO
    ensures Split(free', desc', owner - {h, r.mid, r.last}, reqs - {h})
  {
  }

  lemma FinishKeepsInv(s: Disk, h: nat)
    requires Inv(s) && Enabled(s, Finish(h))
    ensures ChainOk(s, h) && s.reqs[h].phase.Done? && Inv(DoFinish(s, h))
  {
    hide RingHolds, Tracked, ChainOk, Split, Lists;
    FinishFacts(s, h);
    FinishChains(s, h);
    var s' := DoFinish(s, h);
    FinishLists(s.reqs, s.pending, h, Pending);
    FinishLists(s.reqs, s.finished, h, Finished);
    SplitRemove(s.free, s.desc, s.owner, s.reqs, s'.free, s'.desc, h, s.reqs[h]);
  }

  lemma StepKeepsInv(s: Disk, a: Action)
    requires Inv(s) && Enabled(s, a)
    ensures Inv(Apply(s, a))
  {
    match a
    case Submit(b, op, d0, d1, d2) => SubmitKeepsInv(s, b, op, d0, d1, d2);
    case Take => TakeKeepsInv(s);
    case Complete(h) => CompleteKeepsInv(s, h);
    case Intr => IntrKeepsInv(s);
    case Finish(h) => FinishKeepsInv(s, h);
  }

  // ---------- whole runs

  datatype Outcome = Stopped | Reached(state: Disk)

  ghost function Run(acts: seq<Action>): Outcome
    decreases |acts|
  {
    if acts == [] then Reached(Reset())
    else
      var n := |acts| - 1;
      var before := Run(acts[..n]);
      if before.Reached? && Inv(before.state) && Enabled(before.state, acts[n])
      then Reached(Apply(before.state, acts[n]))
      else Stopped
  }

  lemma {:induction false} RunKeepsInv(acts: seq<Action>, s: Disk)
    requires Run(acts) == Reached(s)
    ensures Inv(s)
    decreases |acts|
  {
    hide Inv, Enabled, Apply;
    if acts == [] {
      ResetInv();
    } else {
      var n := |acts| - 1;
      RunKeepsInv(acts[..n], Run(acts[..n]).state);
      StepKeepsInv(Run(acts[..n]).state, acts[n]);
    }
  }

  lemma ResetInv()
    ensures Inv(Reset())
  {
  }

  /** In every reachable state a descriptor is free or lies on the chain of exactly one request,
      and the three descriptors of a chain are distinct. */
  lemma DescriptorsSplit(acts: seq<Action>, s: Disk, d: nat)
    requires Run(acts) == Reached(s) && d < NUM
    ensures Inv(s)
    ensures s.free[d] <==> forall h :: h in s.reqs ==> !PartOf(d, h, s.reqs[h])
    ensures forall h, k :: h in s.reqs && k in s.reqs && PartOf(d, h, s.reqs[h]) && PartOf(d, k, s.reqs[k]) ==> h == k
    ensures forall h :: h in s.reqs ==> h != s.reqs[h].mid && h != s.reqs[h].last && s.reqs[h].mid != s.reqs[h].last
  {
    RunKeepsInv(acts, s);
    hide RingHolds, Lists, Counters;
    forall h | h in s.reqs
      ensures PartOf(d, h, s.reqs[h]) ==> d in s.owner && s.owner[d] == h
      ensures h != s.reqs[h].mid && h != s.reqs[h].last && s.reqs[h].mid != s.reqs[h].last
    {
      assert ChainOk(s, h);
    }
    if !s.free[d] {
      assert d in s.owner && PartOf(d, s.owner[d], s.reqs[s.owner[d]]);
    }
  }

  /** What the device gets to see of a request by following the links in shared memory. */
  datatype Seen = Seen(op: BlkReq, buf: nat, deviceWrites: bool, statusOf: nat)

  ghost predicate Reads(s: Disk, h: nat, r: Seen)
    requires Shape(s)
  {
    && h < NUM && s.desc[h].hasNext && s.desc[h].next < NUM && s.desc[h].addr == Header(h) && s.ops[h] == r.op
    && var m := s.desc[h].next;
       && s.desc[m].hasNext && s.desc[m].next < NUM
       && s.desc[m].addr == Data(r.buf) && s.desc[m].deviceWrites == r.deviceWrites
       && var l := s.desc[m].next;
          && !s.desc[l].hasNext && s.desc[l].addr == Status(r.statusOf) && s.desc[l].deviceWrites
  }

  /** A submitted request reads back as what was asked for, from the slot that the next index of the ring names. */
  lemma SubmitReads(s: Disk, b: nat, op: BlkReq, d0: nat, d1: nat, d2: nat)
    requires Shape(s) && Enabled(s, Submit(b, op, d0, d1, d2))
    ensures var s' := DoSubmit(s, b, op, d0, d1, d2);
      && Shape(s') && Reads(s', d0, Seen(op, b, !op.write, d0)) && b in s'.busy
      && s'.avail[s.availIdx % NUM] == d0 && s'.availIdx == (s.availIdx + 1) % 0x1_0000
  {
    assert DoSubmit(s, b, op, d0, d1, d2).desc[d0] == Desc(Header(d0), false, true, d1);
  }

  /** The device takes requests in the order they were posted and finds each chain intact: the
      command, the caller's own buffer with the right direction, and the status byte of info[h]. */
  lemma DeviceSeesRequest(s: Disk)
    requires Inv(s) && Enabled(s, Take)
    ensures var h := s.avail[s.taken % NUM];
      && s.pending != [] && h == s.pending[0] && h in s.reqs
      && var r := s.reqs[h]; Reads(s, h, Seen(r.op, r.buf, !r.op.write, h))
  {
    PendingHead(s);
    Advance(s.avail, s.taken, s.pending);
    hide RingHolds, Lists, Split;
    assert ChainOk(s, s.pending[0]);
  }

  /** A completion is announced to the driver exactly once and in order: the handler clears the
      disk flag of the completed request's own buffer and of no other. */
  lemma IntrClearsOwnBuffer(s: Disk)
    requires Inv(s) && Enabled(s, Intr)
    ensures s.finished != [] && s.finished[0] in s.reqs
    ensures DoIntr(s).busy == s.busy - {s.reqs[s.finished[0]].buf}
    ensures forall h :: h in s.reqs && h != s.finished[0] ==> (s.reqs[h].buf in DoIntr(s).busy <==> s.reqs[h].buf in s.busy)
  {
    IntrFinds(s);
  }
}
