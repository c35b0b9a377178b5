/** The driver routines of kernel/virtio_disk.c, in place, over the tables of struct disk. */
module VirtioDriver {
  import opened Virtio

  /** The lowest free descriptor from i on, or NUM. */
  function FirstFree(free: seq<bool>, i: nat): (r: nat)
    requires |free| == NUM && i <= NUM
    ensures i <= r <= NUM && (r < NUM ==> free[r]) && forall j :: i <= j < r ==> !free[j]
    decreases NUM - i
  {
    if i == NUM || free[i] then i else FirstFree(free, i + 1)
  }

  class Driver {
    var free: seq<bool>
    var desc: seq<Desc>
    var ops: seq<BlkReq>
    var info: seq<Slot>
    var avail: seq<nat>
    var availIdx: nat
    var used: seq<nat>
    var usedIdx: nat
    var lastUsed: nat           // disk.used_idx
    var busy: set<nat>          // buffers with b->disk set

    ghost var reqs: map<nat, Req>
    ghost var owner: map<nat, nat>
    ghost var pending: seq<nat>
    ghost var finished: seq<nat>
    ghost var posted: nat
    ghost var taken: nat
    ghost var completed: nat
    ghost var seen: nat

    ghost function View(): Disk
      reads this
    {
      Disk(free, desc, ops, info, avail, availIdx, used, usedIdx, lastUsed, busy,
           reqs, owner, pending, finished, posted, taken, completed, seen)
    }

    ghost predicate Valid()
      reads this
    {
      Inv(View())
    }

    /** virtio_disk_init, as far as it concerns the tables. */
    constructor ()
      ensures Valid() && View() == Reset()
    {
      free, desc := seq(NUM, i => true), seq(NUM, i => ZERO);
      ops, info := seq(NUM, i => BlkReq(false, 0)), seq(NUM, i => Slot(-1, 0));
      avail, availIdx, used, usedIdx, lastUsed := seq(NUM, i => 0), 0, seq(NUM, i => 0), 0, 0;
      busy, reqs, owner, pending, finished := {}, map[], map[], [], [];
      posted, taken, completed, seen := 0, 0, 0, 0;
      new;
      assert View() == Reset();
      ResetInv();
    }

    /** alloc_desc: the lowest free descriptor, now taken, or NUM for -1. */
    method AllocDesc() returns (i: nat)
      requires |free| == NUM
      modifies `free
      ensures i == FirstFree(old(free), 0)
      ensures free == if i < NUM then old(free)[i := false] else old(free)
    {
      i := 0;
      while i < NUM
        invariant i <= NUM && free == old(free)
        invariant FirstFree(free, 0) == FirstFree(free, i)
      {
        if free[i] {
          free := free[i := false];
          return;
        }
        i := i + 1;
      }
    }

    /** free_desc; true stands for its panics. */
    method FreeDesc(i: nat) returns (panicked: bool)
      requires |free| == NUM && |desc| == NUM
      modifies `free, `desc
      ensures panicked <==> i >= NUM || old(free)[i]
      ensures panicked ==> free == old(free) && desc == old(desc)
      ensures !panicked ==> free == old(free)[i := true] && desc == old(desc)[i := ZERO]
    {
      if i >= NUM {
        return true;
      }
      if free[i] {
        return true;
      }
      desc := desc[i := ZERO];
      free := free[i := true];
      panicked := false;
    }

    /** alloc3_desc: the three lowest free descriptors, or nothing at all changed. */
    method Alloc3Desc() returns (ok: bool, d0: nat, d1: nat, d2: nat)
      requires |free| == NUM && |desc| == NUM && forall d :: 0 <= d < NUM && free[d] ==> desc[d] == ZERO
      modifies `free, `desc
      ensures desc == old(desc) && ok == HasThree(old(free))
      ensures ok ==> (d0, d1, d2) == LowestThree(old(free)) && free == old(free)[d0 := false][d1 := false][d2 := false]
      ensures !ok ==> free == old(free)
    {
      hide FirstFree;
      ok, d1, d2 := false, 0, 0;
      d0 := AllocDesc();
      if d0 == NUM {
        return;
      }
      NextFree(old(free), d0);
      d1 := AllocDesc();
      if d1 == NUM {
        PutBack(old(free), d0);
        SameUpdate(desc, d0);
        var p := FreeDesc(d0);
        return;
      }
      NextFree2(old(free), d0, d1);
      d2 := AllocDesc();
      if d2 == NUM {
        PutBack2(old(free), d0, d1);
        SameUpdate(desc, d0);
        SameUpdate(desc, d1);
        var p := FreeDesc(d0);
        p := FreeDesc(d1);
        return;
      }
      ok := true;
    }

    /** virtio_disk_rw up to its wait: a request for buffer b is handed to the device, or the caller
        must sleep until descriptors are freed. */
    method Start(b: nat, op: BlkReq) returns (ok: bool, ghost d0: nat, ghost d1: nat, ghost d2: nat)
      requires Valid() && forall h :: h in reqs ==> reqs[h].buf != b
      modifies this
      ensures Valid() && ok == HasThree(old(free))
      ensures ok ==> (d0, d1, d2) == LowestThree(old(free)) && Enabled(old(View()), Submit(b, op, d0, d1, d2))
      ensures View() == if ok then DoSubmit(old(View()), b, op, d0, d1, d2) else old(View())
      ensures ok ==> Shape(View()) && Reads(View(), d0, Seen(op, b, !op.write, d0)) && b in busy
      ensures ok ==> old(availIdx) % NUM < |avail| && avail[old(availIdx) % NUM] == d0
    {
      hide Inv, LowestThree, HasThree, DoSubmit, Enabled, Reads;
      ghost var s := View();
      FreeIsZero(s);
      var i0, i1, i2;
      ok, i0, i1, i2 := Alloc3Desc();
      d0, d1, d2 := i0, i1, i2;
      if ok {
        MayStart(s, b, op, i0, i1, i2);
        SubmitKeepsInv(s, b, op, i0, i1, i2);
        SubmitForgetsFree(s, free, b, op, i0, i1, i2);
        Format(b, op, i0, i1, i2);
        SubmitReads(s, b, op, i0, i1, i2);
      }
    }

    /** Formats the descriptors of a request and publishes it in the avail ring. */
    method Format(b: nat, op: BlkReq, i0: nat, i1: nat, i2: nat)
      requires Shape(View()) && i0 < NUM && i1 < NUM && i2 < NUM
      modifies `ops, `desc, `info, `busy, `avail, `availIdx, `posted, `pending, `reqs, `owner
      ensures View() == DoSubmit(old(View()), b, op, i0, i1, i2).(free := free)
    {
      ghost var s' := DoSubmit(View(), b, op, i0, i1, i2);
      var table := desc[i0 := Desc(Header(i0), false, true, i1)];
      table := table[i1 := Desc(Data(b), !op.write, true, i2)];
      table := table[i2 := Desc(Status(i0), true, false, 0)];
      ops, desc, info, busy := ops[i0 := op], table, info[i0 := Slot(b, 0xff)], busy + {b};
      avail, availIdx := avail[availIdx % NUM := i0], (availIdx + 1) % IDX;
      posted, pending, reqs, owner := s'.posted, s'.pending, s'.reqs, s'.owner;
    }

    /** One iteration of virtio_disk_intr; the panic on a non-zero status is not reached. */
    method HandleOne()
      requires Valid() && lastUsed != usedIdx
      modifies this
      ensures Shape(old(View())) && Valid() && View() == DoIntr(old(View()))
    {
      hide Inv;
      ghost var s := View();
      ShapeOf(s);
      IntrFinds(s);
      IntrKeepsInv(s);
      var id := used[lastUsed % NUM];
      var status := info[id].status;
      assert status == 0;
      busy := busy - {info[id].buf};
      lastUsed := (lastUsed + 1) % IDX;
      ghost var s' := DoIntr(s);
      seen, finished, reqs := s'.seen, s'.finished, s'.reqs;
    }

    /** virtio_disk_intr: the loop over new entries of the used ring. */
    method Interrupt()
      requires Valid()
      modifies this
      ensures Valid() && finished == [] && View() == AllSeen(old(View()))
    {
      hide Inv, AllSeen, DoIntr;
      ghost var s0 := View();
      IntrPending(View());
      while lastUsed != usedIdx
        invariant Valid() && AllSeen(View()) == AllSeen(s0)
        invariant lastUsed != usedIdx <==> finished != []
        decreases |finished|
      {
        ghost var s := View();
        ShapeOf(s);
        AllSeenStep(s);
        HandleOne();
        OneFewer(s);
        IntrPending(View());
      }
      AllSeenDone(View());
    }

    /** free_chain: follows the links and frees exactly the three descriptors of the chain. */
    method FreeChain(h: nat, ghost mid: nat, ghost last: nat, ghost buf: nat, ghost op: BlkReq)
      requires |free| == NUM && |desc| == NUM && |ops| == NUM && Formatted(desc, ops, owner, h, mid, last, buf, op)
      requires !free[h] && !free[mid] && !free[last]
      modifies `free, `desc
      ensures desc == old(desc)[h := ZERO][mid := ZERO][last := ZERO]
      ensures free == old(free)[h := true][mid := true][last := true]
    {
      var i := h;
      ghost var k := 0;
      while true
        invariant 0 <= k < 3 && i == [h, mid, last][k] && i < NUM
        invariant k == 0 ==> desc == old(desc) && free == old(free)
        invariant k == 1 ==> desc == old(desc)[h := ZERO] && free == old(free)[h := true]
        invariant k == 2 ==> desc == old(desc)[h := ZERO][mid := ZERO] && free == old(free)[h := true][mid := true]
        decreases 3 - k
      {
        var flag, nxt := desc[i].hasNext, desc[i].next;
        var panicked := FreeDesc(i);
        assert !panicked;
        if flag {
          i := nxt;
        } else {
          break;
        }
        k := k + 1;
      }
    }

    /** virtio_disk_rw after the interrupt handler has cleared b->disk. */
    method Complete(h: nat)
      requires Valid() && h in reqs && reqs[h].buf !in busy
      modifies this
      ensures Valid() && old(h < NUM && reqs[h].mid < NUM && reqs[h].last < NUM && |free| == NUM)
      ensures Shape(old(View())) && View() == DoFinish(old(View()), h)
    {
      hide Inv, Formatted;
      ghost var s := View();
      FinishKeepsInv(s, h);
      FinishFacts(s, h);
      OwnedIsTaken(s, h);
      info := info[h := info[h].(buf := -1)];
      ghost var r := reqs[h];
      FreeChain(h, r.mid, r.last, r.buf, r.op);
      reqs, owner := DoFinish(s, h).reqs, DoFinish(s, h).owner;
    }
  }

  /** The state when the interrupt handler has looked at every completion. */
  ghost function AllSeen(s: Disk): Disk
    requires Inv(s)
    decreases |s.finished|
  {
    if s.finished == [] then s
    else
      IntrPending(s);
      IntrKeepsInv(s);
      AllSeen(DoIntr(s))
  }

  lemma OneFewer(s: Disk)
    requires Shape(s) && s.finished != []
    ensures |DoIntr(s).finished| == |s.finished| - 1
  {
  }

  lemma MayStart(s: Disk, b: nat, op: BlkReq, d0: nat, d1: nat, d2: nat)
    requires Shape(s) && HasThree(s.free) && (d0, d1, d2) == LowestThree(s.free)
    requires forall h :: h in s.reqs ==> s.reqs[h].buf != b
    ensures d0 < d1 < d2 < NUM && Enabled(s, Submit(b, op, d0, d1, d2))
  {
  }

  lemma SubmitForgetsFree(s: Disk, free: seq<bool>, b: nat, op: BlkReq, d0: nat, d1: nat, d2: nat)
    requires Shape(s) && |free| == NUM && d0 < NUM && d1 < NUM && d2 < NUM
    requires free == s.free[d0 := false][d1 := false][d2 := false]
    ensures DoSubmit(s.(free := free), b, op, d0, d1, d2).(free := free) == DoSubmit(s, b, op, d0, d1, d2)
  {
  }

  lemma AllSeenStep(s: Disk)
    requires Inv(s) && s.finished != []
    ensures Shape(s) && Inv(DoIntr(s)) && AllSeen(s) == AllSeen(DoIntr(s))
  {
    IntrPending(s);
    IntrKeepsInv(s);
  }

  lemma AllSeenDone(s: Disk)
    requires Inv(s) && s.finished == []
    ensures AllSeen(s) == s
  {
  }

  lemma ShapeOf(s: Disk)
    requires Inv(s)
    ensures Shape(s)
  {
  }

  lemma OwnedIsTaken(s: Disk, h: nat)
    requires Inv(s) && h in s.reqs
    ensures Shape(s) && h < NUM && s.reqs[h].mid < NUM && s.reqs[h].last < NUM
    ensures !s.free[h] && !s.free[s.reqs[h].mid] && !s.free[s.reqs[h].last]
    ensures var r := s.reqs[h]; Formatted(s.desc, s.ops, s.owner, h, r.mid, r.last, r.buf, r.op)
  {
    assert ChainOk(s, h);
  }

  lemma SameUpdate(desc: seq<Desc>, d: nat)
    requires d < |desc| && desc[d] == ZERO
    ensures desc[d := ZERO] == desc
  {
  }

  lemma PutBack(free: seq<bool>, d: nat)
    requires d < |free| && free[d]
    ensures free[d := false][d := true] == free
  {
  }

  lemma PutBack2(free: seq<bool>, d: nat, e: nat)
    requires d < |free| && e < |free| && free[d] && free[e] && d != e
    ensures free[d := false][e := false][d := true][e := true] == free
  {
  }

  /** The three lowest free descriptors; NUM stands for none. */
  function LowestThree(free: seq<bool>): (nat, nat, nat)
    requires |free| == NUM
  {
    var d0 := FirstFree(free, 0);
    var d1 := if d0 < NUM then FirstFree(free, d0 + 1) else NUM;
    var d2 := if d1 < NUM then FirstFree(free, d1 + 1) else NUM;
    (d0, d1, d2)
  }

  predicate HasThree(free: seq<bool>)
    requires |free| == NUM
  {
    LowestThree(free).2 < NUM
  }

  /** alloc3_desc succeeds exactly when three descriptors are free. */
  lemma HasThreeExact(free: seq<bool>)
    requires |free| == NUM
    ensures HasThree(free) <==> exists a, b, c :: 0 <= a < b < c < NUM && free[a] && free[b] && free[c]
  {
    var (d0, d1, d2) := LowestThree(free);
    if d2 < NUM {
      assert d0 < d1 < d2 && free[d0] && free[d1] && free[d2];
    }
  }

  lemma {:induction false} TakenEarlier(free: seq<bool>, d: nat, i: nat)
    requires |free| == NUM && d < i <= NUM
    ensures FirstFree(free[d := false], i) == FirstFree(free, i)
    decreases NUM - i
  {
    if i < NUM {
      TakenEarlier(free, d, i + 1);
    }
  }

  lemma {:induction false} NothingBefore(free: seq<bool>, i: nat, d: nat)
    requires |free| == NUM && i <= d <= NUM && forall j :: i <= j < d ==> !free[j]
    ensures FirstFree(free, i) == FirstFree(free, d)
    decreases d - i
  {
    if i < d {
      NothingBefore(free, i + 1, d);
    }
  }

  lemma NextFree(free: seq<bool>, d: nat)
    requires |free| == NUM && d == FirstFree(free, 0) && d < NUM
    ensures FirstFree(free[d := false], 0) == FirstFree(free, d + 1)
  {
    NothingBefore(free[d := false], 0, d + 1);
    TakenEarlier(free, d, d + 1);
  }

  lemma NextFree2(free: seq<bool>, d0: nat, d1: nat)
    requires |free| == NUM && d0 == FirstFree(free, 0) && d0 < NUM && d1 == FirstFree(free, d0 + 1) && d1 < NUM
    ensures FirstFree(free[d0 := false][d1 := false], 0) == FirstFree(free, d1 + 1)
  {
    NothingBefore(free[d0 := false][d1 := false], 0, d1 + 1);
    TakenEarlier(free[d0 := false], d1, d1 + 1);
    TakenEarlier(free, d0, d1 + 1);
  }

  lemma FreeIsZero(s: Disk)
    requires Inv(s)
    ensures Shape(s) && forall d :: 0 <= d < NUM && s.free[d] ==> s.desc[d] == ZERO
  {
  }
}
