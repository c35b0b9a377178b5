/**
  The circular process queue of kernel/queue.c: NPROC + 1 slots, of which at most NPROC are in
  use.  A queued `struct proc *` is the index of the process in the process table.
 */
module Queue {
  import Finite

  const NPROC: nat := 64
  const SLOTS: nat := NPROC + 1

  /** The slot that lies i places after slot h. */
  function Idx(h: nat, i: nat): (r: nat)
    requires h < SLOTS && i <= SLOTS
    ensures r < SLOTS
  {
    if h + i < SLOTS then h + i else h + i - SLOTS
  }

  function NextSlot(c: nat): (r: nat)
    requires c < SLOTS
    ensures r == if c + 1 < SLOTS then c + 1 else 0
  {
    (c + 1) % (NPROC + 1)
  }

  ghost predicate DistinctPids(s: seq<nat>, pids: seq<int>) {
    && (forall i :: 0 <= i < |s| ==> s[i] < |pids|)
    && (forall i, j :: 0 <= i < j < |s| ==> pids[s[i]] != pids[s[j]])
  }

  /** What qerase makes of a queue: the process with the pid is gone and the others keep their
      order; if no queued process has the pid, the last one is dropped instead. */
  function Erased(s: seq<nat>, pids: seq<int>, pid: int): seq<nat>
    requires forall i :: 0 <= i < |s| ==> s[i] < |pids|
  {
    if |s| == 0 then []
    else if |s| == 1 || pids[s[0]] == pid then s[1..]
    else [s[0]] + Erased(s[1..], pids, pid)
  }

  lemma {:induction false} FoundAt(s: seq<nat>, pids: seq<int>, pid: int, k: nat)
    requires DistinctPids(s, pids) && k < |s| && pids[s[k]] == pid
    ensures Erased(s, pids, pid) == Finite.Without(s, k)
  {
    hide Finite.Without;
    Finite.WithoutFirst(s, k);
    if k > 0 {
      FoundAt(s[1..], pids, pid, k - 1);
    }
  }

  lemma {:induction false} NotFound(s: seq<nat>, pids: seq<int>, pid: int)
    requires DistinctPids(s, pids) && forall i :: 0 <= i < |s| ==> pids[s[i]] != pid
    ensures Erased(s, pids, pid) == if s == [] then [] else s[..|s| - 1]
  {
    if |s| > 1 {
      NotFound(s[1..], pids, pid);
      assert s[..|s| - 1] == [s[0]] + s[1..][..|s| - 2];
    }
  }

  /** qerase removes exactly process p if and only if p is queued. */
  lemma EraseExact(s: seq<nat>, pids: seq<int>, p: nat)
    requires DistinctPids(s, pids) && p < |pids| && s != []
    requires forall i :: 0 <= i < |s| && s[i] != p ==> pids[s[i]] != pids[p]
    ensures (p !in Erased(s, pids, pids[p]) && forall q :: q in s && q != p ==> q in Erased(s, pids, pids[p])) <==> p in s
  {
    hide Erased, Finite.Without;
    if p in s {
      var k :| 0 <= k < |s| && s[k] == p;
      FoundAt(s, pids, pids[p], k);
      forall q
        ensures q in Finite.Without(s, k) <==> q in s && q != p
      {
        Finite.WithoutHas(s, k, q);
      }
    } else {
      NotFound(s, pids, pids[p]);
      var last := s[|s| - 1];
      assert last in s && last != p;
    }
  }

  /** What position j of the queue, or of the free slot behind it, holds after the bubbling loop
      has looked at positions 0..i-1; k is where the pid was found, or -1. */
  ghost function Bubbled(was: seq<nat>, behind: nat, k: int, i: nat, j: nat): nat
    requires k < i <= |was| && j <= |was|
  {
    if 0 <= k <= j < i then (was + [behind])[j + 1]
    else if 0 <= k && j == i then was[k]
    else (was + [behind])[j]
  }

  /** The queue without its last place, after the whole loop. */
  lemma BubbledErased(was: seq<nat>, behind: nat, k: int, out: seq<nat>, pids: seq<int>, pid: int)
    requires was != [] && -1 <= k < |was| && |out| == |was| - 1 && DistinctPids(was, pids)
    requires forall j :: 0 <= j < |out| ==> out[j] == Bubbled(was, behind, k, |was|, j)
    requires if k == -1 then forall j :: 0 <= j < |was| ==> pids[was[j]] != pid else pids[was[k]] == pid
    ensures out == Erased(was, pids, pid)
  {
    hide Erased, DistinctPids, Finite.Without;
    if k >= 0 {
      FoundAt(was, pids, pid, k);
      Finite.WithoutIs(was, k, out);
    } else {
      NotFound(was, pids, pid);
      assert out == was[..|was| - 1];
    }
  }

  datatype Front = Null | Element(p: nat)

  class ProcQueue {
    var head: int
    var tail: int
    var size: int
    const slot: array<nat>

    ghost predicate Valid()
      reads this
    {
      && slot.Length == SLOTS
      && 0 <= head < SLOTS && 0 <= tail < SLOTS && 0 <= size <= NPROC
      && tail == Idx(head, size)
    }

    /** The queue from front to back. */
    ghost function Contents(): (s: seq<nat>)
      reads this, slot
      requires Valid()
      ensures |s| == size
    {
      seq(size, i requires 0 <= i < size && Valid() reads this, slot => slot[Idx(head, i)])
    }

    constructor ()
      ensures Valid() && fresh(slot) && Contents() == []
    {
      slot := new nat[SLOTS];
      head, tail, size := 0, 0, 0;
    }

    method Push(element: nat) returns (panicked: bool)
      requires Valid()
      modifies this, slot
      ensures Valid() && panicked == (old(size) == NPROC)
      ensures Contents() == if panicked then old(Contents()) else old(Contents()) + [element]
    {
      if size == NPROC {
        return true;
      }
      slot[tail] := element;
      tail := tail + 1;
      if tail == NPROC + 1 {
        tail := 0;
      }
      size := size + 1;
      panicked := false;
    }

    method Pop() returns (panicked: bool)
      requires Valid()
      modifies this
      ensures Valid() && panicked == (old(Contents()) == [])
      ensures Contents() == if panicked then [] else old(Contents())[1..]
    {
      if size == 0 {
        return true;
      }
      head := head + 1;
      if head == NPROC + 1 {
        head := 0;
      }
      size := size - 1;
      panicked := false;
    }

    method Front() returns (f: Front)
      requires Valid()
      ensures f == if Contents() == [] then Null else Element(Contents()[0])
    {
      if head == tail {
        return Null;
      }
      assert slot[head] == slot[Idx(head, 0)];
      return Element(slot[head]);
    }

    /** qerase.  It drops the last element of whatever the swaps leave, so it deletes the process
        with the given pid if and only if that process is in the queue.  On an empty queue the size
        becomes negative. */
    method Qerase(pid: int, pids: seq<int>)
      requires Valid() && DistinctPids(Contents(), pids)
      modifies this, slot
      ensures old(size) > 0 ==> Valid() && Contents() == Erased(old(Contents()), pids, pid)
      ensures old(size) == 0 ==>
        size == -1 && head == old(head) && tail == (if head > 0 then head - 1 else NPROC) && slot[..] == old(slot[..])
    {
      ghost var was := Contents();
      ghost var behind := slot[tail];
      ghost var k := Bubble(pid, pids, was, behind);
      tail := tail - 1;
      size := size - 1;
      if tail < 0 {
        tail := NPROC;
      }
      if was != [] {
        forall j | 0 <= j < size
          ensures Contents()[j] == Bubbled(was, behind, k, |was|, j)
        {
          assert slot[Idx(head, j)] == Bubbled(was, behind, k, |was|, j);
        }
        BubbledErased(was, behind, k, Contents(), pids, pid);
      }
    }

    /** The loop of qerase. */
    method Bubble(pid: int, pids: seq<int>, ghost was: seq<nat>, ghost behind: nat) returns (ghost k: int)
      requires Valid() && DistinctPids(was, pids) && size == |was| && Holds(head, was, behind, -1, 0)
      modifies slot
      ensures -1 <= k < |was| && Holds(head, was, behind, k, |was|) && (was == [] ==> slot[..] == old(slot[..]))
      ensures if k == -1 then forall j :: 0 <= j < |was| ==> pids[was[j]] != pid else pids[was[k]] == pid
    {
      ghost var i: nat := 0;
      k := -1;
      var curr := head;
      while curr != tail
        invariant i <= size && curr == Idx(head, i) && -1 <= k < i
        invariant if k == -1 then forall j :: 0 <= j < i ==> pids[was[j]] != pid else pids[was[k]] == pid
        invariant Holds(head, was, behind, k, i) && (i == 0 ==> slot[..] == old(slot[..]))
        decreases size - i
      {
        assert slot[Idx(head, i)] == Bubbled(was, behind, k, i, i);
        if pids[slot[curr]] == pid {
          k := if k == -1 then i else k;
          SwapNext(curr, head, was, behind, k, i);
        }
        curr := NextSlot(curr);
        i := i + 1;
      }
    }

    /** The slots from h on hold what the loop has made of them. */
    ghost predicate Holds(h: nat, was: seq<nat>, behind: nat, k: int, i: nat)
      reads slot
      requires slot.Length == SLOTS && h < SLOTS && k < i <= |was| <= NPROC
    {
      forall j :: 0 <= j <= |was| ==> slot[Idx(h, j)] == Bubbled(was, behind, k, i, j)
    }

    /** One swap of the bubbling loop. */
    method SwapNext(curr: nat, ghost h: nat, ghost was: seq<nat>, ghost behind: nat, ghost k: nat, ghost i: nat)
      requires slot.Length == SLOTS && h < SLOTS && k <= i < |was| <= NPROC && curr == Idx(h, i)
      requires Holds(h, was, behind, if k == i then -1 else k, i)
      modifies slot
      ensures Holds(h, was, behind, k, i + 1)
    {
      assert slot[Idx(h, i)] == Bubbled(was, behind, if k == i then -1 else k, i, i);
      assert slot[Idx(h, i + 1)] == Bubbled(was, behind, if k == i then -1 else k, i, i + 1);
      var temp := slot[curr];
      slot[curr] := slot[NextSlot(curr)];
      slot[NextSlot(curr)] := temp;
    }
  }
}
